/**
 * What the two identity-provider SDKs report about the current session.
 * The SDKs themselves are not modelled: their answers are plain inputs.
 */
module Session {
  import opened Wrappers

  /** The Firebase current user (Google sign-in); every profile field may be null. */
  datatype FirebaseUser = FirebaseUser(displayName: Option<string>, email: Option<string>, photoUrl: Option<string>)

  /** The Facebook SDK's current access token; only its expiry is consulted. */
  datatype AccessToken = AccessToken(isExpired: bool)

  /** One snapshot of both SDKs: `FirebaseAuth.currentUser` and `AccessToken.getCurrentAccessToken()`. */
  datatype Providers = Providers(currentUser: Option<FirebaseUser>, currentAccessToken: Option<AccessToken>)

  /** The session that counts as authenticated. */
  datatype Session = NoSession | GoogleSession(user: FirebaseUser) | FacebookSession(token: AccessToken)

  predicate HasValidToken(token: Option<AccessToken>)
  {
    token.Some? && !token.value.isExpired
  }

  /**
   * The authoritative session: Google when a Firebase user exists (whatever the
   * Facebook token says), otherwise Facebook when its token is present and unexpired.
   */
  function Authoritative(p: Providers): (s: Session)
    ensures s.GoogleSession? <==> p.currentUser.Some?
    ensures s.GoogleSession? ==> s.user == p.currentUser.value
    ensures s.FacebookSession? <==> p.currentUser.None? && HasValidToken(p.currentAccessToken)
    ensures s.NoSession? <==> p.currentUser.None? && !HasValidToken(p.currentAccessToken)
  {
    match p.currentUser
    case Some(user) => GoogleSession(user)
    case None =>
      if HasValidToken(p.currentAccessToken) then FacebookSession(p.currentAccessToken.value) else NoSession
  }
}
