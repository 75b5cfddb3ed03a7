/** The signup form: its fields, the live e-mail, password and age checks, the
    Spotify tokens handed over by the login popup, and the submit guard. */
module SignUpForm {
  import opened Wrappers
  import opened Strings
  import opened Js
  import opened FormRules

  const PASSWORD_TOAST := "Please meet all password requirements."
  const SPOTIFY_URL_TOAST := "Could not fetch Spotify URL"

  /** The two fixed origins the popup may post from besides the page's own. */
  const LOCAL_ORIGIN := "http://localhost:8080"
  const LOOPBACK_ORIGIN := "http://127.0.0.1:8080"

  /** The object passed to `signup(...)`. */
  datatype SignupData = SignupData(name: string, email: string, password: string, age: string,
                                   spotify: Option<Json>, image: Option<string>)

  /** `e.origin` is one of the allowed origins. */
  predicate AllowedOrigin(origin: string, ownOrigin: string) {
    origin in [ownOrigin, LOCAL_ORIGIN, LOOPBACK_ORIGIN]
  }

  /** `v?.key`: undefined for a missing or null value, a member read otherwise. */
  function OptionalMember(v: Option<Json>, key: string): (r: Option<Json>)
    ensures (v.Some? && v.value.JObj?) ==> r == Lookup(v.value.fields, key)
    ensures (v.None? || !v.value.JObj?) ==> r.None?
  {
    if v.None? || v.value == JNull then None else Member(v, key).value
  }

  /** The tokens a window message hands over, if any: only from an allowed origin
      and only for `{type: "spotify"}`; the payload may itself be undefined. */
  function SpotifyHandOver(origin: string, ownOrigin: string, data: Option<Json>): (r: Option<Option<Json>>)
    ensures r.Some? <==> AllowedOrigin(origin, ownOrigin) && OptionalMember(data, "type") == Some(JStr("spotify"))
    ensures r.Some? ==> r.value == OptionalMember(data, "payload")
  {
    if !AllowedOrigin(origin, ownOrigin) then None
    else if StrictEquals(OptionalMember(data, "type"), Some(JStr("spotify"))) then Some(OptionalMember(data, "payload"))
    else None
  }

  class Form {
    var name: string
    var email: string
    var emailValid: bool
    var password: string
    var age: string
    var ageValid: bool
    var image: Option<string>
    var passwordFeedback: seq<string>
    var spotifyUrl: Option<Json>
    var spotifyTokens: Option<Json>
    /** Toasts shown, oldest first. */
    var toasts: seq<string>
    /** Payloads handed to `signup`, oldest first. */
    var submitted: seq<SignupData>

    /** Each flag agrees with its field once the field has been edited; the
        untouched fields start empty with their flags set. */
    ghost predicate Valid()
      reads this
    {
      PasswordAgrees() && EmailAgrees() && AgeAgrees() && SubmittedStrong()
    }

    ghost predicate PasswordAgrees()
      reads this`password, this`passwordFeedback
    {
      passwordFeedback == PasswordFeedback(password) || (password == "" && passwordFeedback == [])
    }

    ghost predicate EmailAgrees()
      reads this`email, this`emailValid
    {
      email != "" ==> emailValid == ValidateEmail(email)
    }

    ghost predicate AgeAgrees()
      reads this`age, this`ageValid
    {
      AgeInputAccepted(age) && (age != "" ==> ageValid == AgeValid(age))
    }

    /** Only passwords meeting every rule are ever submitted. */
    ghost predicate SubmittedStrong()
      reads this`submitted
    {
      forall i :: 0 <= i < |submitted| ==> submitted[i].password == "" || Strong(submitted[i].password)
    }

    constructor ()
      ensures Valid()
      ensures name == "" && email == "" && emailValid && password == "" && age == "" && ageValid
      ensures image == None && passwordFeedback == [] && spotifyUrl == Some(JStr(""))
      ensures spotifyTokens == None && toasts == [] && submitted == []
    {
      name := "";
      email := "";
      emailValid := true;
      password := "";
      age := "";
      ageValid := true;
      image := None;
      passwordFeedback := [];
      spotifyUrl := Some(JStr(""));
      spotifyTokens := None;
      toasts := [];
      submitted := [];
    }

    /** The e-mail error shows for a non-empty address the pattern rejects. */
    predicate ShowsEmailError()
      reads this
    {
      email != "" && !emailValid
    }

    /** The age error shows for a non-empty age outside 18..120. */
    predicate ShowsAgeError()
      reads this
    {
      age != "" && !ageValid
    }

    /** Name field: the formatted text replaces the name. */
    method OnNameChange(value: string)
      requires Valid()
      modifies this
      ensures Valid()
      ensures name == FormatName(value)
      ensures email == old(email) && emailValid == old(emailValid) && password == old(password)
      ensures passwordFeedback == old(passwordFeedback) && age == old(age) && ageValid == old(ageValid)
      ensures image == old(image) && spotifyTokens == old(spotifyTokens) && spotifyUrl == old(spotifyUrl)
      ensures toasts == old(toasts) && submitted == old(submitted)
    {
      name := FormatName(value);
    }

    /** E-mail field: the text is kept and checked against the pattern. */
    method OnEmailChange(value: string)
      requires Valid()
      modifies this
      ensures Valid()
      ensures email == value && emailValid == ValidateEmail(value)
      ensures ShowsEmailError() <==> value != "" && !MatchesEmailPattern(value)
      ensures name == old(name) && password == old(password) && passwordFeedback == old(passwordFeedback)
      ensures age == old(age) && ageValid == old(ageValid) && image == old(image)
      ensures spotifyTokens == old(spotifyTokens) && spotifyUrl == old(spotifyUrl)
      ensures toasts == old(toasts) && submitted == old(submitted)
    {
      email := value;
      emailValid := ValidateEmail(value);
      assert emailValid <==> MatchesEmailPattern(value) by {
        ValidateEmailMatchesPattern(value);
      }
    }

    /** Password field: the text is kept and the checklist recomputed. */
    method OnPasswordChange(value: string)
      requires Valid()
      modifies this
      ensures Valid()
      ensures password == value && passwordFeedback == PasswordFeedback(value)
      ensures passwordFeedback == [] <==> Strong(value)
      ensures name == old(name) && email == old(email) && emailValid == old(emailValid)
      ensures age == old(age) && ageValid == old(ageValid) && image == old(image)
      ensures spotifyTokens == old(spotifyTokens) && spotifyUrl == old(spotifyUrl)
      ensures toasts == old(toasts) && submitted == old(submitted)
    {
      password := value;
      passwordFeedback := PasswordFeedback(value);
    }

    /** Age field: only all-digit text is taken; it is then checked against 18..120. */
    method OnAgeChange(value: string)
      requires Valid()
      modifies this
      ensures Valid()
      ensures AgeInputAccepted(value) ==> age == value && ageValid == AgeValid(value)
      ensures !AgeInputAccepted(value) ==> age == old(age) && ageValid == old(ageValid)
      ensures name == old(name) && email == old(email) && emailValid == old(emailValid)
      ensures password == old(password) && passwordFeedback == old(passwordFeedback) && image == old(image)
      ensures spotifyTokens == old(spotifyTokens) && spotifyUrl == old(spotifyUrl)
      ensures toasts == old(toasts) && submitted == old(submitted)
    {
      if AgeInputAccepted(value) {
        age := value;
        ageValid := AgeValid(value);
      }
    }

    /** A chosen picture, read as a data URL; no file changes nothing. */
    method OnImageChange(dataUrl: Option<string>)
      requires Valid()
      modifies this
      ensures Valid()
      ensures image == if dataUrl.Some? then dataUrl else old(image)
      ensures name == old(name) && email == old(email) && emailValid == old(emailValid)
      ensures password == old(password) && passwordFeedback == old(passwordFeedback)
      ensures age == old(age) && ageValid == old(ageValid)
      ensures spotifyTokens == old(spotifyTokens) && spotifyUrl == old(spotifyUrl)
      ensures toasts == old(toasts) && submitted == old(submitted)
    {
      if dataUrl.Some? {
        image := dataUrl;
      }
    }

    /** The Spotify login URL fetched on mount: `res.data.url`, or a toast when the
        request fails or its data is null. */
    method OnSpotifyUrl(reply: Result<Json>)
      requires Valid()
      modifies this
      ensures Valid()
      ensures (reply.Ok? && Member(Some(reply.value), "url").Ok?) ==>
        spotifyUrl == Member(Some(reply.value), "url").value && toasts == old(toasts)
      ensures (reply.Err? || Member(Some(reply.value), "url").Err?) ==>
        spotifyUrl == old(spotifyUrl) && toasts == old(toasts) + [SPOTIFY_URL_TOAST]
      ensures name == old(name) && email == old(email) && emailValid == old(emailValid)
      ensures password == old(password) && passwordFeedback == old(passwordFeedback)
      ensures age == old(age) && ageValid == old(ageValid) && image == old(image)
      ensures spotifyTokens == old(spotifyTokens) && submitted == old(submitted)
    {
      var url := if reply.Ok? then Member(Some(reply.value), "url") else Err("request failed");
      if url.Ok? {
        spotifyUrl := url.value;
      } else {
        toasts := toasts + [SPOTIFY_URL_TOAST];
      }
    }

    /** A window message: tokens are taken only from an allowed origin and only
        for a message of type "spotify"; anything else changes nothing. */
    method OnWindowMessage(origin: string, data: Option<Json>, ownOrigin: string)
      requires Valid()
      modifies this
      ensures Valid()
      ensures spotifyTokens == (match SpotifyHandOver(origin, ownOrigin, data)
                                case Some(payload) => payload
                                case None => old(spotifyTokens))
      ensures !AllowedOrigin(origin, ownOrigin) ==> spotifyTokens == old(spotifyTokens)
      ensures name == old(name) && email == old(email) && emailValid == old(emailValid)
      ensures password == old(password) && passwordFeedback == old(passwordFeedback)
      ensures age == old(age) && ageValid == old(ageValid) && image == old(image)
      ensures spotifyUrl == old(spotifyUrl) && toasts == old(toasts) && submitted == old(submitted)
    {
      var handOver := SpotifyHandOver(origin, ownOrigin, data);
      if handOver.Some? {
        spotifyTokens := handOver.value;
      }
    }

    /** Submit: refused with a toast while the checklist lists anything; otherwise
        the fields go to `signup` as they are. */
    method Submit() returns (sent: bool)
      requires Valid()
      modifies this
      ensures Valid()
      ensures sent <==> old(passwordFeedback) == []
      ensures sent ==> submitted == old(submitted) + [SignupData(name, email, password, age, spotifyTokens, image)]
                       && toasts == old(toasts)
      ensures !sent ==> submitted == old(submitted) && toasts == old(toasts) + [PASSWORD_TOAST]
      ensures sent ==> password == "" || Strong(password)
      ensures name == old(name) && email == old(email) && emailValid == old(emailValid)
      ensures password == old(password) && passwordFeedback == old(passwordFeedback)
      ensures age == old(age) && ageValid == old(ageValid) && image == old(image)
      ensures spotifyUrl == old(spotifyUrl) && spotifyTokens == old(spotifyTokens)
    {
      if |passwordFeedback| > 0 {
        toasts := toasts + [PASSWORD_TOAST];
        return false;
      }
      submitted := submitted + [SignupData(name, email, password, age, spotifyTokens, image)];
      return true;
    }
  }
}
