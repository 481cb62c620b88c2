/**
 * The profile screen: which provider it shows, how the name, email and avatar URL
 * are resolved, the views it fills, sign-out, and the background video's position
 * across pause and resume. Side effects on the outside world (image loads, the
 * Graph request, sign-out calls, navigation, video commands) are recorded in order
 * in the screen's `effects` log.
 */
module Profile {
  import opened Wrappers
  import opened Session
  import Insets

  // ---------------------------------------------------------------------------
  // Avatar URL rewriting

  /** The size suffix the Google avatar URL is given: a 200px, cropped variant. */
  const AvatarSizeSuffix := "=s200-c"

  /** Index of the last occurrence of `c` in `s`, or -1 when there is none. */
  function LastIndexOf(s: string, c: char): (i: int)
    ensures -1 <= i < |s|
    ensures i == -1 <==> c !in s
    ensures 0 <= i ==> s[i] == c && c !in s[i + 1..]
    decreases |s|
  {
    if s == [] then -1
    else if s[|s| - 1] == c then |s| - 1
    else
      var j := LastIndexOf(s[..|s| - 1], c);
      assert s == s[..|s| - 1] + [s[|s| - 1]];
      assert 0 <= j ==> s[j + 1..] == s[..|s| - 1][j + 1..] + [s[|s| - 1]];
      j
  }

  /** Kotlin's `substringBeforeLast` with a one-character delimiter: the text before the last delimiter, or all of it when there is none. */
  function SubstringBeforeLast(s: string, delimiter: char): (r: string)
    ensures delimiter !in s ==> r == s
    ensures delimiter in s ==> |r| < |s| && r == s[..|r|] && s[|r|] == delimiter && delimiter !in s[|r| + 1..]
  {
    var i := LastIndexOf(s, delimiter);
    if i == -1 then s else s[..i]
  }

  /** Kotlin's `toString()` on a possibly-null `Uri`: a null reference prints as "null". */
  function UriToString(uri: Option<string>): (r: string)
    ensures uri.Some? ==> r == uri.value
    ensures uri.None? ==> r == "null"
  {
    match uri
    case Some(text) => text
    case None => "null"
  }

  /** Cut the URL at its last `=` and append the 200px size suffix. */
  function RewriteAvatarUrl(url: string): (r: string)
    ensures |r| >= |AvatarSizeSuffix| && r[|r| - |AvatarSizeSuffix|..] == AvatarSizeSuffix
    ensures '=' !in url ==> r == url + AvatarSizeSuffix
    ensures '=' in url ==>
              var k := |r| - |AvatarSizeSuffix|;
              k < |url| && r[..k] == url[..k] && url[k] == '=' && '=' !in url[k + 1..]
  {
    SubstringBeforeLast(url, '=') + AvatarSizeSuffix
  }

  /** The avatar URL shown for a Google user, from the provider's photo URL. */
  function GoogleAvatarUrl(photoUrl: Option<string>): (r: string)
    ensures photoUrl.None? ==> r == "null=s200-c"
    ensures photoUrl.Some? ==> r == RewriteAvatarUrl(photoUrl.value)
  {
    RewriteAvatarUrl(UriToString(photoUrl))
  }

  /** Rewriting an already rewritten URL gives it back unchanged. */
  lemma {:induction false} RewriteIsIdempotent(url: string)
    ensures RewriteAvatarUrl(RewriteAvatarUrl(url)) == RewriteAvatarUrl(url)
  {
    var p := SubstringBeforeLast(url, '=');
    var r := p + AvatarSizeSuffix;
    assert r[|p|] == '=';
    assert r[|p| + 1..] == "s200-c";
    var q := SubstringBeforeLast(r, '=');
    assert r[|q|] == '=' && '=' !in r[|q| + 1..];
    assert forall j :: |q| < j < |r| ==> r[j] in r[|q| + 1..];
    assert forall j :: |p| < j < |r| ==> r[j] in r[|p| + 1..];
    assert |q| == |p|;
    assert q == r[..|p|] == p;
  }

  // ---------------------------------------------------------------------------
  // Provider choice and field resolution

  /** The screen's provider choice, made once: Google exactly when a Firebase user exists. */
  function IsGoogleLogin(currentUser: Option<FirebaseUser>): (r: bool)
    // whatever the Facebook token, the choice is the router's Google session
    ensures forall token: Option<AccessToken> :: r <==> Authoritative(Providers(currentUser, token)).GoogleSession?
  {
    currentUser.Some?
  }

  /**
   * When the sign-in screen went on at launch, the profile screen picks the same
   * provider the router found authoritative; every non-Google case is handled as Facebook.
   */
  lemma ProviderAgreesWithRouter(p: Providers)
    requires !Authoritative(p).NoSession?
    ensures IsGoogleLogin(p.currentUser) <==> Authoritative(p).GoogleSession?
    ensures !IsGoogleLogin(p.currentUser) <==> Authoritative(p).FacebookSession?
  {
  }

  /** What the screen displays. */
  datatype ProfileInfo = ProfileInfo(name: string, email: string, profileUrl: Option<string>)

  /** Kotlin's `?:` with the "undefined" placeholder. */
  function OrPlaceholder(value: Option<string>, placeholder: string): (r: string)
    ensures value.Some? ==> r == value.value
    ensures value.None? ==> r == placeholder
  {
    match value
    case Some(v) => v
    case None => placeholder
  }

  /** The Google path: each field read through the possibly-null current user. */
  function ResolveGoogle(user: Option<FirebaseUser>, placeholder: string): (info: ProfileInfo)
    ensures user.Some? && user.value.displayName.Some? ==> info.name == user.value.displayName.value
    ensures user.None? || user.value.displayName.None? ==> info.name == placeholder
    ensures user.Some? && user.value.email.Some? ==> info.email == user.value.email.value
    ensures user.None? || user.value.email.None? ==> info.email == placeholder
    // there is always an avatar URL, and it always asks for the 200px variant
    ensures info.profileUrl.Some?
    ensures var u := info.profileUrl.value; |u| >= |AvatarSizeSuffix| && u[|u| - |AvatarSizeSuffix|..] == AvatarSizeSuffix
    ensures user.Some? ==> info.profileUrl == Some(GoogleAvatarUrl(user.value.photoUrl))
    ensures user.None? ==> info.profileUrl == Some("null=s200-c")
  {
    var displayName := if user.Some? then user.value.displayName else None;
    var email := if user.Some? then user.value.email else None;
    var photoUrl := if user.Some? then user.value.photoUrl else None;
    ProfileInfo(OrPlaceholder(displayName, placeholder), OrPlaceholder(email, placeholder), Some(GoogleAvatarUrl(photoUrl)))
  }

  /** The fields the Facebook Graph "me" request asks for. */
  const MeRequestFields := "id, name, link, picture.type(large), email"

  /**
   * The Graph response's fields the screen reads; `pictureUrl` is `picture.data.url`.
   * A JSON getter never yields null for a present object, so the fields are plain strings.
   */
  datatype GraphObject = GraphObject(name: string, email: string, pictureUrl: string)

  /**
   * The Facebook path: a null response object gives placeholders and no avatar URL;
   * a present one gives its own fields, with the picture URL passed on unrewritten.
   */
  function ResolveFacebook(obj: Option<GraphObject>, placeholder: string): (info: ProfileInfo)
    ensures obj.None? ==> info == ProfileInfo(placeholder, placeholder, None)
    ensures obj.Some? ==> info == ProfileInfo(obj.value.name, obj.value.email, Some(obj.value.pictureUrl))
  {
    var name := if obj.Some? then Some(obj.value.name) else None;
    var email := if obj.Some? then Some(obj.value.email) else None;
    var pictureUrl := if obj.Some? then Some(obj.value.pictureUrl) else None;
    ProfileInfo(OrPlaceholder(name, placeholder), OrPlaceholder(email, placeholder), pictureUrl)
  }

  // ---------------------------------------------------------------------------
  // Effects on the outside world

  datatype Effect =
    | LoadImage(url: string)          // an image load into the avatar view
    | GraphMeRequest(fields: string)  // the asynchronous Facebook profile fetch
    | GoogleSignOut                   // Google sign-out, with a success listener attached
    | FacebookLogOut                  // the Facebook SDK's synchronous log-out
    | NavigateToCore                  // back to the sign-in screen
    | PauseVideo
    | SeekVideo(position: int)
    | StartVideo

  /** Effects that belong to the session: sign-out calls and navigation back. */
  predicate IsSessionEffect(e: Effect)
  {
    e.GoogleSignOut? || e.FacebookLogOut? || e.NavigateToCore?
  }

  /** An image load is started if and only if there is a URL, and then for that URL. */
  function ImageLoads(profileUrl: Option<string>): (r: seq<Effect>)
    ensures |r| <= 1
    ensures r != [] <==> profileUrl.Some?
    ensures forall i :: 0 <= i < |r| ==> r[i].LoadImage? && Some(r[i].url) == profileUrl
  {
    match profileUrl
    case Some(url) => [LoadImage(url)]
    case None => []
  }

  /** On the Google path the avatar is always requested, "null=s200-c" included. */
  lemma GoogleAlwaysLoadsAvatar(user: Option<FirebaseUser>, placeholder: string)
    ensures |ImageLoads(ResolveGoogle(user, placeholder).profileUrl)| == 1
  {
  }

  /** On the Facebook path a null response starts no image load. */
  lemma NullGraphResponseLoadsNothing(placeholder: string)
    ensures ImageLoads(ResolveFacebook(None, placeholder).profileUrl) == []
  {
  }

  /**
   * Sign-out effects: Google asks for sign-out and navigates later, from its success
   * listener; Facebook logs out and navigates back at once.
   */
  function SignOutEffects(isGoogleLogin: bool): (r: seq<Effect>)
    ensures r != [] && forall i :: 0 <= i < |r| ==> IsSessionEffect(r[i])
    ensures GoogleSignOut in r <==> isGoogleLogin
    ensures FacebookLogOut in r <==> !isGoogleLogin
    ensures NavigateToCore in r <==> !isGoogleLogin
    ensures !isGoogleLogin ==> r[|r| - 1] == NavigateToCore && FacebookLogOut in r[..|r| - 1]
  {
    if isGoogleLogin then [GoogleSignOut] else [FacebookLogOut, NavigateToCore]
  }

  /** Resuming seeks to the stored position only when it is non-zero, and always starts playback last. */
  function ResumeEffects(lastKnownPosition: int): (r: seq<Effect>)
    ensures r != [] && r[|r| - 1] == StartVideo
    ensures SeekVideo(lastKnownPosition) in r <==> lastKnownPosition != 0
    ensures forall i :: 0 <= i < |r| && r[i].SeekVideo? ==> r[i].position == lastKnownPosition
    ensures forall i :: 0 <= i < |r| ==> !IsSessionEffect(r[i])
  {
    (if lastKnownPosition != 0 then [SeekVideo(lastKnownPosition)] else []) + [StartVideo]
  }

  // ---------------------------------------------------------------------------
  // The sign-out ordering invariant

  /** How many times `e` occurs in the log. */
  function Count(effects: seq<Effect>, e: Effect): nat
    decreases |effects|
  {
    if effects == [] then 0 else (if effects[0] == e then 1 else 0) + Count(effects[1..], e)
  }

  lemma {:induction false} CountAppend(a: seq<Effect>, b: seq<Effect>, e: Effect)
    ensures Count(a + b, e) == Count(a, e) + Count(b, e)
    decreases |a|
  {
    if a == [] {
      assert a + b == b;
    } else {
      assert (a + b)[1..] == a[1..] + b;
      CountAppend(a[1..], b, e);
    }
  }

  lemma {:induction false} CountAbsent(s: seq<Effect>, e: Effect)
    ensures Count(s, e) == 0 <==> e !in s
    decreases |s|
  {
    if s != [] {
      assert s == [s[0]] + s[1..];
      CountAbsent(s[1..], e);
    }
  }

  /** In every prefix of the log, navigations back do not outnumber Google sign-out requests. */
  ghost predicate SignOutsLead(effects: seq<Effect>)
  {
    forall k :: 0 <= k <= |effects| ==> Count(effects[..k], NavigateToCore) <= Count(effects[..k], GoogleSignOut)
  }

  /** Appending keeps sign-out requests ahead when they stay ahead in every prefix of the appended part. */
  lemma {:induction false} AppendKeepsSignOutsLead(effects: seq<Effect>, more: seq<Effect>)
    requires SignOutsLead(effects)
    requires forall j :: 0 <= j <= |more| ==>
               Count(effects, NavigateToCore) + Count(more[..j], NavigateToCore) <=
               Count(effects, GoogleSignOut) + Count(more[..j], GoogleSignOut)
    ensures SignOutsLead(effects + more)
  {
    var all := effects + more;
    forall k | 0 <= k <= |all|
      ensures Count(all[..k], NavigateToCore) <= Count(all[..k], GoogleSignOut)
    {
      if k <= |effects| {
        assert all[..k] == effects[..k];
      } else {
        var j := k - |effects|;
        assert all[..k] == effects + more[..j];
        CountAppend(effects, more[..j], NavigateToCore);
        CountAppend(effects, more[..j], GoogleSignOut);
      }
    }
  }

  /**
   * The log never shows a navigation back that sign-out did not cause. On a Google
   * screen every navigation back answers one earlier sign-out request (the requests
   * not yet answered are pending) and Facebook's log-out never happens; on a Facebook
   * screen every navigation back immediately follows a log-out and Google's sign-out
   * never happens.
   */
  ghost predicate SignOutConsistent(isGoogleLogin: bool, effects: seq<Effect>, pending: nat)
  {
    if isGoogleLogin then
      Count(effects, FacebookLogOut) == 0 &&
      Count(effects, GoogleSignOut) == Count(effects, NavigateToCore) + pending &&
      SignOutsLead(effects)
    else
      Count(effects, GoogleSignOut) == 0 && pending == 0 &&
      forall i :: 0 <= i < |effects| && effects[i] == NavigateToCore ==> 0 < i && effects[i - 1] == FacebookLogOut
  }

  /** Effects that are not about the session (image loads, the Graph request, video commands) keep the invariant. */
  lemma {:induction false} NeutralEffectsKeepConsistency(isGoogleLogin: bool, effects: seq<Effect>, pending: nat, more: seq<Effect>)
    requires SignOutConsistent(isGoogleLogin, effects, pending)
    requires forall i :: 0 <= i < |more| ==> !IsSessionEffect(more[i])
    ensures SignOutConsistent(isGoogleLogin, effects + more, pending)
  {
    CountAbsent(more, GoogleSignOut);
    CountAbsent(more, FacebookLogOut);
    CountAbsent(more, NavigateToCore);
    CountAppend(effects, more, GoogleSignOut);
    CountAppend(effects, more, FacebookLogOut);
    CountAppend(effects, more, NavigateToCore);
    if isGoogleLogin {
      assert effects[..|effects|] == effects;
      forall j | 0 <= j <= |more|
        ensures Count(more[..j], NavigateToCore) == 0
      {
        forall i | 0 <= i < j
          ensures more[..j][i] != NavigateToCore
        {
          assert more[..j][i] == more[i];
        }
        CountAbsent(more[..j], NavigateToCore);
      }
      AppendKeepsSignOutsLead(effects, more);
    } else {
      var all := effects + more;
      forall i | |effects| <= i < |all|
        ensures all[i] != NavigateToCore
      {
        assert all[i] == more[i - |effects|];
      }
      forall i | 0 <= i < |all| && all[i] == NavigateToCore
        ensures 0 < i && all[i - 1] == FacebookLogOut
      {
        assert effects[i] == NavigateToCore;
      }
    }
  }

  /** A sign-out click keeps the invariant: Google adds a pending sign-out, Facebook a log-out followed by navigation. */
  lemma {:induction false} SignOutKeepsConsistency(isGoogleLogin: bool, effects: seq<Effect>, pending: nat)
    requires SignOutConsistent(isGoogleLogin, effects, pending)
    ensures SignOutConsistent(isGoogleLogin, effects + SignOutEffects(isGoogleLogin), if isGoogleLogin then pending + 1 else pending)
  {
    var added := SignOutEffects(isGoogleLogin);
    CountAppend(effects, added, GoogleSignOut);
    CountAppend(effects, added, FacebookLogOut);
    CountAppend(effects, added, NavigateToCore);
    if isGoogleLogin {
      assert added == [GoogleSignOut];
      assert added[1..] == [] && added[..0] == [] && added[..1] == added;
      assert Count(added, GoogleSignOut) == 1;
      assert Count(added, FacebookLogOut) == 0;
      assert Count(added, NavigateToCore) == 0;
      assert effects[..|effects|] == effects;
      AppendKeepsSignOutsLead(effects, added);
    } else {
      assert added == [FacebookLogOut, NavigateToCore];
      CountAbsent(added, GoogleSignOut);
      var all := effects + added;
      assert all[|effects|] == FacebookLogOut;
      forall i | 0 <= i < |all| && all[i] == NavigateToCore
        ensures 0 < i && all[i - 1] == FacebookLogOut
      {
        if i < |effects| {
          assert effects[i] == NavigateToCore;
        }
      }
    }
  }

  /** A Google sign-out success turns one pending sign-out into a navigation back. */
  lemma {:induction false} SignOutSuccessKeepsConsistency(effects: seq<Effect>, pending: nat)
    requires SignOutConsistent(true, effects, pending) && pending > 0
    ensures SignOutConsistent(true, effects + [NavigateToCore], pending - 1)
  {
    CountAppend(effects, [NavigateToCore], GoogleSignOut);
    CountAppend(effects, [NavigateToCore], FacebookLogOut);
    CountAppend(effects, [NavigateToCore], NavigateToCore);
    assert [NavigateToCore][1..] == [];
    assert [NavigateToCore][..0] == [] && [NavigateToCore][..1] == [NavigateToCore];
    assert effects[..|effects|] == effects;
    AppendKeepsSignOutsLead(effects, [NavigateToCore]);
  }

  /**
   * On a Google screen every navigation back in the log comes after a sign-out request,
   * and navigations back never outnumber sign-out requests.
   */
  lemma {:induction false} GoogleNavigationFollowsSignOut(effects: seq<Effect>, pending: nat)
    requires SignOutConsistent(true, effects, pending)
    ensures forall i :: 0 <= i < |effects| && effects[i] == NavigateToCore ==> GoogleSignOut in effects[..i]
    ensures Count(effects, NavigateToCore) <= Count(effects, GoogleSignOut)
  {
    forall i | 0 <= i < |effects| && effects[i] == NavigateToCore
      ensures GoogleSignOut in effects[..i]
    {
      assert effects[..i + 1] == effects[..i] + [NavigateToCore];
      CountAppend(effects[..i], [NavigateToCore], NavigateToCore);
      CountAppend(effects[..i], [NavigateToCore], GoogleSignOut);
      assert [NavigateToCore][1..] == [];
      CountAbsent(effects[..i], GoogleSignOut);
    }
  }

  // ---------------------------------------------------------------------------
  // The screen

  class ProfileScreen {
    /** Fixed at creation: the screen's provider never changes. */
    const isGoogleLogin: bool
    /** The localized "undefined" placeholder. */
    const undefinedText: string
    const insets: Insets.InsetAdapter
    var nameText: string
    var emailText: string
    var lastKnownVideoViewPosition: int
    /** Google sign-outs whose success listener has not fired yet. */
    var pendingGoogleSignOuts: nat
    var effects: seq<Effect>

    ghost predicate Valid()
      reads this
    {
      insets.Valid() && SignOutConsistent(isGoogleLogin, effects, pendingGoogleSignOuts)
    }

    /**
     * Screen creation: the provider is chosen from the current Firebase user; a Google
     * profile is shown at once, a Facebook profile is requested from the Graph API.
     */
    constructor (currentUser: Option<FirebaseUser>, undefinedString: string,
                 statusBand: Insets.ViewGeometry, navBand: Insets.ViewGeometry, scroll: Insets.ViewGeometry)
      ensures Valid() && fresh(insets.Repr())
      ensures isGoogleLogin == IsGoogleLogin(currentUser) && undefinedText == undefinedString
      ensures insets.State() == Insets.Initial(statusBand, navBand, scroll)
      ensures lastKnownVideoViewPosition == 0 && pendingGoogleSignOuts == 0
      ensures isGoogleLogin ==>
                var info := ResolveGoogle(currentUser, undefinedString);
                nameText == info.name && emailText == info.email && effects == ImageLoads(info.profileUrl)
      ensures !isGoogleLogin ==> nameText == "" && emailText == "" && effects == [GraphMeRequest(MeRequestFields)]
    {
      isGoogleLogin := IsGoogleLogin(currentUser);
      undefinedText := undefinedString;
      insets := new Insets.InsetAdapter(statusBand, navBand, scroll);
      nameText, emailText := "", "";
      lastKnownVideoViewPosition := 0;
      pendingGoogleSignOuts := 0;
      effects := [];
      new;
      if isGoogleLogin {
        var info := ResolveGoogle(currentUser, undefinedText);
        PopulateViews(info.name, info.email, info.profileUrl);
      } else {
        NeutralEffectsKeepConsistency(isGoogleLogin, effects, pendingGoogleSignOuts, [GraphMeRequest(MeRequestFields)]);
        effects := effects + [GraphMeRequest(MeRequestFields)];
      }
    }

    /** The same inset listener as on the sign-in screen. */
    method OnApplyWindowInsets(windowInsets: Insets.WindowInsets) returns (r: Insets.WindowInsets)
      requires Valid()
      modifies insets.Repr()
      ensures Valid()
      ensures insets.State() == Insets.Deliver(old(insets.State()), windowInsets)
      ensures r == Insets.CONSUMED
    {
      r := insets.OnInsets(windowInsets);
    }

    /** Sets both text fields, and starts an image load only when there is a URL. */
    method PopulateViews(name: string, email: string, profileUrl: Option<string>)
      requires Valid()
      modifies this
      ensures Valid()
      ensures nameText == name && emailText == email
      ensures effects == old(effects) + ImageLoads(profileUrl)
      ensures pendingGoogleSignOuts == old(pendingGoogleSignOuts)
      ensures lastKnownVideoViewPosition == old(lastKnownVideoViewPosition)
    {
      nameText := name;
      emailText := email;
      NeutralEffectsKeepConsistency(isGoogleLogin, effects, pendingGoogleSignOuts, ImageLoads(profileUrl));
      match profileUrl {
        case Some(url) => effects := effects + [LoadImage(url)];
        case None =>
      }
    }

    /** The Graph response callback, which only a Facebook screen requests. */
    method OnGraphResponse(obj: Option<GraphObject>)
      requires Valid() && !isGoogleLogin
      modifies this
      ensures Valid()
      ensures var info := ResolveFacebook(obj, undefinedText);
              nameText == info.name && emailText == info.email && effects == old(effects) + ImageLoads(info.profileUrl)
      ensures pendingGoogleSignOuts == old(pendingGoogleSignOuts)
      ensures lastKnownVideoViewPosition == old(lastKnownVideoViewPosition)
    {
      var info := ResolveFacebook(obj, undefinedText);
      PopulateViews(info.name, info.email, info.profileUrl);
    }

    /** The sign-out button: dispatch on the provider fixed at creation. */
    method OnSignOutClicked()
      requires Valid()
      modifies this
      ensures Valid()
      ensures effects == old(effects) + SignOutEffects(isGoogleLogin)
      ensures pendingGoogleSignOuts == old(pendingGoogleSignOuts) + (if isGoogleLogin then 1 else 0)
      ensures nameText == old(nameText) && emailText == old(emailText)
      ensures lastKnownVideoViewPosition == old(lastKnownVideoViewPosition)
    {
      if isGoogleLogin {
        LogoutGoogle();
      } else {
        LogoutFacebook();
      }
    }

    /** Asks for Google sign-out; navigation waits for the success listener. */
    method LogoutGoogle()
      requires Valid() && isGoogleLogin
      modifies this
      ensures Valid()
      ensures effects == old(effects) + [GoogleSignOut]
      ensures pendingGoogleSignOuts == old(pendingGoogleSignOuts) + 1
      ensures nameText == old(nameText) && emailText == old(emailText)
      ensures lastKnownVideoViewPosition == old(lastKnownVideoViewPosition)
    {
      SignOutKeepsConsistency(isGoogleLogin, effects, pendingGoogleSignOuts);
      effects := effects + [GoogleSignOut];
      pendingGoogleSignOuts := pendingGoogleSignOuts + 1;
    }

    /** Logs out of Facebook and navigates back at once, without waiting for anything. */
    method LogoutFacebook()
      requires Valid() && !isGoogleLogin
      modifies this
      ensures Valid()
      ensures effects == old(effects) + [FacebookLogOut, NavigateToCore]
      ensures pendingGoogleSignOuts == old(pendingGoogleSignOuts)
      ensures nameText == old(nameText) && emailText == old(emailText)
      ensures lastKnownVideoViewPosition == old(lastKnownVideoViewPosition)
    {
      SignOutKeepsConsistency(isGoogleLogin, effects, pendingGoogleSignOuts);
      effects := effects + [FacebookLogOut];
      effects := effects + [NavigateToCore];
      assert effects == old(effects) + [FacebookLogOut, NavigateToCore];
    }

    /** The Google sign-out success listener: only now does the screen navigate back. */
    method OnGoogleSignOutSuccess()
      requires Valid() && pendingGoogleSignOuts > 0
      modifies this
      ensures Valid() && isGoogleLogin
      ensures effects == old(effects) + [NavigateToCore]
      ensures pendingGoogleSignOuts == old(pendingGoogleSignOuts) - 1
      ensures nameText == old(nameText) && emailText == old(emailText)
      ensures lastKnownVideoViewPosition == old(lastKnownVideoViewPosition)
    {
      assert isGoogleLogin;
      SignOutSuccessKeepsConsistency(effects, pendingGoogleSignOuts);
      effects := effects + [NavigateToCore];
      pendingGoogleSignOuts := pendingGoogleSignOuts - 1;
    }

    /** Pauses the video and remembers where it stopped. */
    method OnPause(currentPosition: int)
      requires Valid()
      modifies this
      ensures Valid()
      ensures effects == old(effects) + [PauseVideo]
      ensures lastKnownVideoViewPosition == currentPosition
      ensures pendingGoogleSignOuts == old(pendingGoogleSignOuts)
      ensures nameText == old(nameText) && emailText == old(emailText)
    {
      NeutralEffectsKeepConsistency(isGoogleLogin, effects, pendingGoogleSignOuts, [PauseVideo]);
      effects := effects + [PauseVideo];
      lastKnownVideoViewPosition := currentPosition;
    }

    /** Seeks back to the remembered position when it is non-zero, then starts the video. */
    method OnResume()
      requires Valid()
      modifies this
      ensures Valid()
      ensures effects == old(effects) + ResumeEffects(lastKnownVideoViewPosition)
      ensures lastKnownVideoViewPosition == old(lastKnownVideoViewPosition)
      ensures pendingGoogleSignOuts == old(pendingGoogleSignOuts)
      ensures nameText == old(nameText) && emailText == old(emailText)
    {
      NeutralEffectsKeepConsistency(isGoogleLogin, effects, pendingGoogleSignOuts, ResumeEffects(lastKnownVideoViewPosition));
      if lastKnownVideoViewPosition != 0 {
        effects := effects + [SeekVideo(lastKnownVideoViewPosition)];
      }
      effects := effects + [StartVideo];
      assert effects == old(effects) + ResumeEffects(lastKnownVideoViewPosition);
    }
  }
}
