/** The servlet filter in front of the API: public routes pass, every other `/api`
    route needs a valid `jwt` cookie, whose user id is attached to the request. */
module AuthMiddleware {
  import opened Wrappers
  import opened Strings
  import opened Entities

  datatype Cookie = Cookie(name: string, value: string)

  const UNAUTHORIZED: int := 401
  const NOT_AUTHORIZED_BODY := "{\"success\": false, \"message\": \"Not authorized\"}"

  predicate IsPublicAuthRoute(path: string) {
    path == "/api/auth/login" || path == "/api/auth/signup" || StartsWith(path, "/api/auth/spotify/")
  }

  /** The paths the filter guards: under `/api`, except the public auth routes and
      the health check. */
  predicate NeedsToken(path: string) {
    StartsWith(path, "/api") && !IsPublicAuthRoute(path) && path != "/api/health"
  }

  /** The value of the first cookie named `jwt`. */
  function FirstJwt(cookies: seq<Cookie>): (r: Option<string>)
    ensures r.None? <==> forall i :: 0 <= i < |cookies| ==> cookies[i].name != "jwt"
    ensures r.Some? ==> exists i :: (0 <= i < |cookies| && cookies[i] == Cookie("jwt", r.value)
                                     && forall j :: 0 <= j < i ==> cookies[j].name != "jwt")
  {
    if cookies == [] then None
    else if cookies[0].name == "jwt" then Some(cookies[0].value)
    else
      var r := FirstJwt(cookies[1..]);
      assert r.Some? ==> exists i :: (0 <= i < |cookies| && cookies[i] == Cookie("jwt", r.value)
                                      && forall j :: 0 <= j < i ==> cookies[j].name != "jwt") by {
        if r.Some? {
          var i :| 0 <= i < |cookies[1..]| && cookies[1..][i] == Cookie("jwt", r.value)
            && forall j :: 0 <= j < i ==> cookies[1..][j].name != "jwt";
          assert cookies[i + 1] == Cookie("jwt", r.value);
          assert forall j :: 0 <= j < i + 1 ==> cookies[j].name != "jwt" by {
            forall j | 0 < j < i + 1 ensures cookies[j].name != "jwt" {
              assert cookies[j] == cookies[1..][j - 1];
            }
          }
        }
      }
      r
  }

  /** The token of a request; a request without cookies has none. */
  function Token(cookies: Option<seq<Cookie>>): Option<string> {
    if cookies.None? then None else FirstJwt(cookies.value)
  }

  /** What the filter did: whether the request went on to the controller and with
      which `userId` attribute, whether a 401 was written, and whether an exception
      of the controller escaped the filter. */
  datatype FilterResult = FilterResult(forwarded: bool, userIdAttribute: Option<UserId>, unauthorized: bool, escapes: bool)

  /** `doFilter` as written: `validate` stands for the JWT check (`None` where it
      throws), `controllerThrows` for the controller failing. The controller call sits
      inside the try block meant for the token check, so its failure is caught too
      and answered with 401 after the request was handled. */
  function FilterAsWritten(path: string, cookies: Option<seq<Cookie>>, validate: string -> Option<UserId>,
                           controllerThrows: bool): (r: FilterResult)
    ensures !NeedsToken(path) ==> r == FilterResult(true, None, false, controllerThrows)
    ensures NeedsToken(path) && Token(cookies).Some? && validate(Token(cookies).value).Some? ==>
      r == FilterResult(true, validate(Token(cookies).value), controllerThrows, false)
  {
    if !NeedsToken(path) then FilterResult(true, None, false, controllerThrows)
    else
      var token := Token(cookies);
      if token.Some? && validate(token.value).Some? then
        FilterResult(true, validate(token.value), controllerThrows, false)
      else FilterResult(false, None, true, false)
  }

  /** A request carrying a valid token whose controller fails (say a swipe on an
      unknown user) is reported as "Not authorized" after being handled. */
  lemma ControllerFailureBecomesUnauthorized()
    ensures var r := FilterAsWritten("/api/matches/swipe-right/999", Some([Cookie("jwt", "t")]), (t: string) => Some(1), true);
      r.forwarded && r.unauthorized && !r.escapes
  {
    var path := "/api/matches/swipe-right/999";
    assert path[..4] == "/api";
    assert path[5] == 'm';
    assert !StartsWith(path, "/api/auth/spotify/");
  }

  /** `doFilter` with only the token check guarded: a 401 answers exactly a guarded
      request without a valid token, and a controller failure propagates. */
  function Filter(path: string, cookies: Option<seq<Cookie>>, validate: string -> Option<UserId>,
                  controllerThrows: bool): (r: FilterResult)
    ensures r.unauthorized <==> NeedsToken(path) && (Token(cookies).None? || validate(Token(cookies).value).None?)
    ensures r.forwarded <==> !r.unauthorized
    ensures r.escapes <==> r.forwarded && controllerThrows
    ensures r.userIdAttribute.Some? <==> NeedsToken(path) && r.forwarded
    ensures r.userIdAttribute.Some? ==> r.userIdAttribute == validate(Token(cookies).value)
  {
    if !NeedsToken(path) then FilterResult(true, None, false, controllerThrows)
    else
      var token := Token(cookies);
      if token.Some? && validate(token.value).Some? then
        FilterResult(true, validate(token.value), false, controllerThrows)
      else FilterResult(false, None, true, false)
  }

  /** The two agree whenever the controller succeeds. */
  lemma FiltersAgreeWithoutControllerFailure(path: string, cookies: Option<seq<Cookie>>, validate: string -> Option<UserId>)
    ensures FilterAsWritten(path, cookies, validate, false) == Filter(path, cookies, validate, false)
  {
  }

  /** The response side of one request. */
  class Exchange {
    var userIdAttribute: Option<UserId>
    var forwards: nat
    var status: Option<int>
    var body: string

    constructor ()
      ensures userIdAttribute == None && forwards == 0 && status == None && body == ""
    {
      userIdAttribute := None;
      forwards := 0;
      status := None;
      body := "";
    }

    /** Run the filter on this exchange: forward once (attaching the user id on a
        guarded route), or write the 401 answer; returns whether a controller
        exception escapes. */
    method DoFilter(path: string, cookies: Option<seq<Cookie>>, validate: string -> Option<UserId>, controllerThrows: bool)
      returns (escapes: bool)
      modifies this
      ensures var r := Filter(path, cookies, validate, controllerThrows);
        escapes == r.escapes
        && forwards == old(forwards) + (if r.forwarded then 1 else 0)
        && userIdAttribute == (if r.userIdAttribute.Some? then r.userIdAttribute else old(userIdAttribute))
        && (r.unauthorized ==> status == Some(UNAUTHORIZED) && body == NOT_AUTHORIZED_BODY)
        && (!r.unauthorized ==> status == old(status) && body == old(body))
    {
      escapes := false;
      if !NeedsToken(path) {
        forwards := forwards + 1;
        return controllerThrows;
      }
      var token := if cookies.None? then None else FirstJwt(cookies.value);
      if token.Some? {
        var userId := validate(token.value);
        if userId.Some? {
          userIdAttribute := userId;
          forwards := forwards + 1;
          return controllerThrows;
        }
      }
      status := Some(UNAUTHORIZED);
      body := NOT_AUTHORIZED_BODY;
    }
  }
}
