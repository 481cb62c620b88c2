/**
 * The sign-in screen's routing: whether to go on to the profile screen at launch,
 * after a Google sign-in result, and after a Facebook login callback.
 * Navigation is an output value; the screen's own finishing is not modelled.
 */
module Core {
  import opened Wrappers
  import opened Session

  /** Whether the screen moves on to the profile screen. */
  datatype Route = Navigate | Stay

  /** Android's `Activity.RESULT_OK`. */
  const RESULT_OK: int := -1

  /** What launching the screen decides: where to go, and whether the sign-in buttons and the Facebook callback get wired. */
  datatype LaunchResult = LaunchResult(route: Route, signInWired: bool)

  /**
   * Launch routing: a Firebase (Google) user goes straight on; otherwise the sign-in
   * affordances are wired and an unexpired Facebook token also goes on.
   */
  function OnCreateRouting(p: Providers): (r: LaunchResult)
    ensures r.signInWired <==> p.currentUser.None?
    ensures p.currentUser.Some? ==> r.route == Navigate
    ensures p.currentUser.None? ==>
              (r.route == Navigate <==> p.currentAccessToken.Some? && !p.currentAccessToken.value.isExpired)
  {
    if p.currentUser.Some? then
      LaunchResult(Navigate, false)
    else
      var accessToken := p.currentAccessToken;
      var route := if accessToken.Some? && !accessToken.value.isExpired then Navigate else Stay;
      LaunchResult(route, true)
  }

  /** Launch goes on exactly when there is an authoritative session. */
  lemma LaunchNavigatesIffSession(p: Providers)
    ensures OnCreateRouting(p).route == Navigate <==> !Authoritative(p).NoSession?
    ensures OnCreateRouting(p).route == Stay <==> Authoritative(p).NoSession?
  {
  }

  /** Google is checked first: with a Firebase user, the Facebook token is never consulted. */
  lemma GoogleCheckedFirst(p: Providers, token: Option<AccessToken>)
    requires p.currentUser.Some?
    ensures OnCreateRouting(p) == OnCreateRouting(p.(currentAccessToken := token))
    ensures OnCreateRouting(p) == LaunchResult(Navigate, false)
  {
  }

  /** The Google sign-in result: only `RESULT_OK` goes on; any other code is logged and the screen stays. */
  function OnSignInResult(resultCode: int): (r: Route)
    ensures r == Navigate <==> resultCode == RESULT_OK
  {
    if resultCode == RESULT_OK then Navigate else Stay
  }

  /** The outcome of a Facebook login, as delivered to the registered callback. */
  datatype LoginOutcome = OnSuccess(token: AccessToken) | OnCancel | OnError(message: string)

  /** The Facebook callback: success goes on; cancel and error are only logged. */
  function OnFacebookCallback(outcome: LoginOutcome): (r: Route)
    ensures r == Navigate <==> outcome.OnSuccess?
  {
    match outcome
    case OnSuccess(_) => Navigate
    case OnCancel => Stay
    case OnError(_) => Stay
  }

  /** A sign-in result delivered to the screen after launch. */
  datatype SignInEvent = GoogleSignInResult(resultCode: int) | FacebookLogin(outcome: LoginOutcome)

  /** Each result goes to the callback that handles it; only a sign-in goes on. */
  function EventRoute(e: SignInEvent): (r: Route)
    ensures r == Navigate <==> SignsIn(e)
  {
    match e
    case GoogleSignInResult(code) => OnSignInResult(code)
    case FacebookLogin(outcome) => OnFacebookCallback(outcome)
  }

  /** The results that sign the user in, stated independently of the callbacks. */
  predicate SignsIn(e: SignInEvent)
  {
    (e.GoogleSignInResult? && e.resultCode == -1) || (e.FacebookLogin? && e.outcome.OnSuccess?)
  }

  /** The first result that goes on decides; failed attempts leave the screen waiting. */
  function EventsRoute(events: seq<SignInEvent>): (r: Route)
    ensures r == Navigate ==> events != []
    ensures events != [] && SignsIn(events[0]) ==> r == Navigate
    decreases |events|
  {
    if events == [] then Stay
    else if EventRoute(events[0]) == Navigate then Navigate
    else EventsRoute(events[1..])
  }

  /**
   * A screen's whole life: launch, then the sign-in results delivered to it. Results
   * arrive only when launch did not go on, and then the sign-in affordances are wired.
   */
  function ScreenRoute(p: Providers, events: seq<SignInEvent>): (r: Route)
    ensures !Authoritative(p).NoSession? ==> r == Navigate
    ensures Authoritative(p).NoSession? ==> r == EventsRoute(events)
  {
    if OnCreateRouting(p).route == Navigate then Navigate else EventsRoute(events)
  }

  /** The screen waits through any run of failed results and goes on exactly when one of them signs in. */
  lemma {:induction false} EventsRouteIffSignIn(events: seq<SignInEvent>)
    ensures EventsRoute(events) == Navigate <==> exists i :: 0 <= i < |events| && SignsIn(events[i])
    decreases |events|
  {
    if events != [] {
      EventsRouteIffSignIn(events[1..]);
      if !SignsIn(events[0]) && exists i :: 0 <= i < |events| && SignsIn(events[i]) {
        var i :| 0 <= i < |events| && SignsIn(events[i]);
        assert SignsIn(events[1..][i - 1]);
      }
      if exists i :: 0 <= i < |events[1..]| && SignsIn(events[1..][i]) {
        var i :| 0 <= i < |events[1..]| && SignsIn(events[1..][i]);
        assert SignsIn(events[i + 1]);
      }
    }
  }

  /**
   * The screen goes on to the profile exactly when a session already existed at launch
   * or some later sign-in result succeeded.
   */
  lemma {:induction false} ScreenRouteIff(p: Providers, events: seq<SignInEvent>)
    ensures ScreenRoute(p, events) == Navigate <==>
              !Authoritative(p).NoSession? || exists i :: 0 <= i < |events| && SignsIn(events[i])
  {
    EventsRouteIffSignIn(events);
  }

  /** A cancelled or failed sign-in attempt changes nothing: the screen keeps waiting. */
  lemma {:induction false} FailedAttemptIsNoOp(p: Providers, events: seq<SignInEvent>, e: SignInEvent)
    requires !SignsIn(e)
    ensures ScreenRoute(p, events + [e]) == ScreenRoute(p, events)
  {
    EventsRouteIffSignIn(events);
    EventsRouteIffSignIn(events + [e]);
    if exists i :: 0 <= i < |events + [e]| && SignsIn((events + [e])[i]) {
      var i :| 0 <= i < |events + [e]| && SignsIn((events + [e])[i]);
      assert i < |events| && SignsIn(events[i]);
    }
    if exists i :: 0 <= i < |events| && SignsIn(events[i]) {
      var i :| 0 <= i < |events| && SignsIn(events[i]);
      assert SignsIn((events + [e])[i]);
    }
  }
}
