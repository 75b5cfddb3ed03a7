/** The Spotify OAuth popup flow: every login issues a `state` that a callback may
    redeem exactly once. */
module SpotifyAuthController {
  import opened Wrappers

  const INVALID_STATE := "Invalid or expired state"
  const AUTH_FAILED_PREFIX := "Auth failed: "

  /** The page the popup receives: an error posted as `spotify-error`, a bare
      close-window script, or the token data posted as `{type: "spotify", payload}`. */
  datatype Page = ErrorPage(message: string) | CloseWindow | PostTokens(payloadJson: string)

  datatype CallbackOutcome = CallbackOutcome(pending: set<string>, page: Page)

  /** `spotifyCallback` over the pending states: an unknown or missing state is
      refused and changes nothing; a known one is consumed before anything else.
      `exchange` stands for the token exchange, giving the token JSON or the failure
      message. */
  function Callback(pending: set<string>, code: Option<string>, state: Option<string>,
                    exchange: string -> Result<string>): (r: CallbackOutcome)
    ensures state.None? || state.value !in pending ==> r == CallbackOutcome(pending, ErrorPage(INVALID_STATE))
    ensures state.Some? && state.value in pending ==> r.pending == pending - {state.value}
    ensures state.Some? && state.value in pending && code.None? ==> r.page == CloseWindow
    ensures state.Some? && state.value in pending && code.Some? ==>
      match exchange(code.value) {
        case Ok(json) => r.page == PostTokens(json)
        case Err(msg) => r.page == ErrorPage(AUTH_FAILED_PREFIX + msg)
      }
  {
    if state.None? || state.value !in pending then CallbackOutcome(pending, ErrorPage(INVALID_STATE))
    else
      var rest := pending - {state.value};
      if code.None? then CallbackOutcome(rest, CloseWindow)
      else
        match exchange(code.value)
        case Ok(json) => CallbackOutcome(rest, PostTokens(json))
        case Err(msg) => CallbackOutcome(rest, ErrorPage(AUTH_FAILED_PREFIX + msg))
  }

  /** A state is good for one callback only: replaying it is refused, whatever the
      first callback's code or outcome was. */
  lemma StateIsSingleUse(pending: set<string>, code1: Option<string>, code2: Option<string>, state: string,
                         exchange1: string -> Result<string>, exchange2: string -> Result<string>)
    ensures var first := Callback(pending, code1, Some(state), exchange1);
      Callback(first.pending, code2, Some(state), exchange2) == CallbackOutcome(first.pending, ErrorPage(INVALID_STATE))
  {
  }

  /** Only issued states are ever accepted: a callback never lets a token through
      unless its state is pending. */
  lemma TokensNeedPendingState(pending: set<string>, code: Option<string>, state: Option<string>,
                               exchange: string -> Result<string>)
    ensures Callback(pending, code, state, exchange).page.PostTokens? ==> state.Some? && state.value in pending
    ensures Callback(pending, code, state, exchange).pending <= pending
  {
  }

  class Controller {
    var pendingStates: set<string>

    constructor ()
      ensures pendingStates == {}
    {
      pendingStates := {};
    }

    /** `spotifyLogin`: remember the drawn `state` and return the authorisation URL
        built from it (`authorizationUrl` stands for the URL builder). */
    method SpotifyLogin(state: string, authorizationUrl: string -> string) returns (url: string)
      modifies this
      ensures pendingStates == old(pendingStates) + {state}
      ensures url == authorizationUrl(state)
    {
      pendingStates := pendingStates + {state};
      url := authorizationUrl(state);
    }

    /** `spotifyCallback`. */
    method SpotifyCallback(code: Option<string>, state: Option<string>, exchange: string -> Result<string>)
      returns (page: Page)
      modifies this
      ensures CallbackOutcome(pendingStates, page) == Callback(old(pendingStates), code, state, exchange)
    {
      if state.None? || state.value !in pendingStates {
        return ErrorPage(INVALID_STATE);
      }
      pendingStates := pendingStates - {state.value};
      if code.None? {
        return CloseWindow;
      }
      var tokens := exchange(code.value);
      if tokens.Err? {
        return ErrorPage(AUTH_FAILED_PREFIX + tokens.error);
      }
      page := PostTokens(tokens.value);
    }
  }

  /** A login followed by its callback redeems the state just issued. */
  lemma LoginThenCallbackAccepted(pending: set<string>, state: string, code: string, exchange: string -> Result<string>)
    ensures Callback(pending + {state}, Some(code), Some(state), exchange).pending == pending - {state}
    ensures exchange(code).Ok? ==>
      Callback(pending + {state}, Some(code), Some(state), exchange).page == PostTokens(exchange(code).value)
  {
  }
}
