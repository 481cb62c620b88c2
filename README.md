# Social media integration: a verified model of the session and screen logic

The app signs a user in with Google (through Firebase Auth UI) or Facebook (through
its SDK), then shows the user's name, email and avatar on a profile screen. This
project models the app's own sequential logic in Dafny:

- **Inset adapter** (`Insets`), the window-inset listener that both screens install.
  On every delivery it sizes the status-bar and navigation-bar overlay bands to the
  delivered insets. It grows the scroll view's top and bottom padding only on the first
  delivery, guarded by the one-shot flag `areViewsUpdatedForInsets`. It always answers
  `CONSUMED`. The views are a `View` class updated in place. `InsetAdapter` owns
  three of them and the flag. The pure function `Deliver` and its fold `DeliverAll`
  specify it.
- **Session routing** (`Session`, `Core`), the sign-in screen's decisions. At launch
  it goes on to the profile screen when a Firebase user exists, checked first. Otherwise
  it goes on when a Facebook token is present and unexpired. A Google sign-in result goes
  on only for `RESULT_OK`. A Facebook login callback goes on only on success.
  Navigation is the output value `Route`.
- **Profile screen** (`Profile`). The provider choice is made once at creation. Missing
  fields become the "undefined" placeholder. The Google avatar URL is cut at its last
  `=` and given `=s200-c`. An image load starts only for a present URL. Sign-out is
  dispatched by provider. The video position is stored on pause and restored on resume.
  `ProfileScreen` is a class. Its outside-world effects (image loads, the Graph
  request, sign-out calls, navigation, video commands) go into an ordered `effects`
  log. Its invariant `SignOutConsistent` ties every navigation back to the sign-out
  path of the screen's own provider. On a Facebook screen it directly follows a
  log-out. On a Google screen it comes after a sign-out request, and no prefix of the
  log holds more navigations back than sign-out requests.

SDK answers are plain inputs: the Firebase current user, the Facebook access token and
its expiry, the sign-in result code, the Facebook callback outcome and the Graph
response object.

Three behaviours of the app are easy to miss, and the model keeps them:

- A null Google photo URL becomes the text `"null=s200-c"` through Kotlin's
  `toString()` on null, and an image load is still started for it.
- The Facebook sign-out navigates back at once, right after `logOut`. Only the Google
  sign-out waits for a completion callback.
- When no Firebase user exists but a valid Facebook token does, launch navigates. It also
  still wires the sign-in buttons and registers the Facebook callback.

## Model

| member | source | states |
|---|---|---|
| Session.Authoritative | app/src/main/java/seifemadhamdy/socialmediaintegration/ui/activity/core/CoreActivity.kt:84-111 | The authoritative session is Google exactly when a Firebase user exists. It is Facebook exactly when there is no such user and the token is present and unexpired. Otherwise there is none. |
| Core.OnCreateRouting | app/src/main/java/seifemadhamdy/socialmediaintegration/ui/activity/core/CoreActivity.kt:84-134 | Sign-in affordances and the Facebook callback are wired if and only if no Firebase user exists. A Firebase user always navigates. Without one, launch navigates if and only if the token is present and not expired. |
| Core.LaunchNavigatesIffSession | app/src/main/java/seifemadhamdy/socialmediaintegration/ui/activity/core/CoreActivity.kt:84-111 | Launch navigates exactly when there is an authoritative session, and stays exactly when there is none. |
| Core.GoogleCheckedFirst | app/src/main/java/seifemadhamdy/socialmediaintegration/ui/activity/core/CoreActivity.kt:84-111 | With a Firebase user the Facebook token is never consulted. Any token gives the same result: navigate, with nothing wired. |
| Core.OnSignInResult | app/src/main/java/seifemadhamdy/socialmediaintegration/ui/activity/core/CoreActivity.kt:160-181 | A Google sign-in result navigates if and only if its code is `RESULT_OK` (-1). |
| Core.OnFacebookCallback | app/src/main/java/seifemadhamdy/socialmediaintegration/ui/activity/core/CoreActivity.kt:113-126 | A Facebook callback navigates if and only if it is `onSuccess`. Cancel and error stay. |
| Core.EventRoute | app/src/main/java/seifemadhamdy/socialmediaintegration/ui/activity/core/CoreActivity.kt:113-181 | A single sign-in result navigates if and only if it signs in: a Google result with `RESULT_OK` or a Facebook `onSuccess`. |
| Core.EventsRoute | app/src/main/java/seifemadhamdy/socialmediaintegration/ui/activity/core/CoreActivity.kt:113-181 | No result means no navigation, and a first result that signs in navigates. |
| Core.EventsRouteIffSignIn | app/src/main/java/seifemadhamdy/socialmediaintegration/ui/activity/core/CoreActivity.kt:113-181 | A run of sign-in results navigates if and only if one of them is a successful sign-in. |
| Core.ScreenRoute | app/src/main/java/seifemadhamdy/socialmediaintegration/ui/activity/core/CoreActivity.kt:84-181 | A session at launch always navigates. Without one, the sign-in results delivered afterwards decide. |
| Core.ScreenRouteIff | app/src/main/java/seifemadhamdy/socialmediaintegration/ui/activity/core/CoreActivity.kt:84-181 | Over a screen's life, it reaches the profile screen exactly when a session existed at launch or some later sign-in result succeeded. |
| Core.FailedAttemptIsNoOp | app/src/main/java/seifemadhamdy/socialmediaintegration/ui/activity/core/CoreActivity.kt:113-181 | A cancelled, failed or non-OK sign-in attempt leaves the routing outcome unchanged. |
| Insets.Deliver | app/src/main/java/seifemadhamdy/socialmediaintegration/ui/activity/core/CoreActivity.kt:51-82 | After one delivery both bands equal the delivered heights and the flag is up. Band padding and scroll height are kept. Left and right padding never change. Top and bottom padding grow by the insets exactly when the flag was down. Otherwise the scroll view is unchanged. |
| Insets.BandsTrackLatest | app/src/main/java/seifemadhamdy/socialmediaintegration/ui/activity/core/CoreActivity.kt:52-63 | After any non-empty run of deliveries the bands equal the latest delivery. Nothing accumulates. |
| Insets.AppliedIsStable | app/src/main/java/seifemadhamdy/socialmediaintegration/ui/activity/core/CoreActivity.kt:65-69 | Once the flag is up, no number of deliveries changes the scroll view again. |
| Insets.PaddingAppliedOnce | app/src/main/java/seifemadhamdy/socialmediaintegration/ui/activity/core/CoreActivity.kt:34-69 | From a state with the flag down, any non-empty run leaves the padding equal to the initial padding plus the first delivery's insets, with the flag up. |
| Insets.RedeliveryIsIdempotent | app/src/main/java/seifemadhamdy/socialmediaintegration/ui/activity/core/CoreActivity.kt:57-69 | Delivering the same insets twice equals delivering them once. |
| Insets.View.UpdateLayoutParamsHeight | app/src/main/java/seifemadhamdy/socialmediaintegration/ui/activity/core/CoreActivity.kt:138-142 | Sets the view's height and keeps its padding. |
| Insets.View.UpdatePaddingForInsets | app/src/main/java/seifemadhamdy/socialmediaintegration/ui/activity/core/CoreActivity.kt:152-158 | Adds each argument to the matching padding. An omitted side adds 0. The height is kept. |
| Insets.InsetAdapter.constructor | app/src/main/java/seifemadhamdy/socialmediaintegration/ui/activity/core/CoreActivity.kt:34 | The flag starts down. The views start as laid out and are distinct. |
| Insets.InsetAdapter.OnInsets | app/src/main/java/seifemadhamdy/socialmediaintegration/ui/activity/core/CoreActivity.kt:51-82 | The new state of the three views and the flag is `Deliver` of the old state. The answer is `CONSUMED`. |
| Profile.LastIndexOf | app/src/main/java/seifemadhamdy/socialmediaintegration/ui/activity/profile/ProfileActivity.kt:87 | Gives -1 exactly when the character is absent. Otherwise gives an index holding it, with no later occurrence. |
| Profile.SubstringBeforeLast | app/src/main/java/seifemadhamdy/socialmediaintegration/ui/activity/profile/ProfileActivity.kt:87 | Without the delimiter the whole text is kept. Otherwise gives the prefix that ends just before the last delimiter. |
| Profile.RewriteAvatarUrl | app/src/main/java/seifemadhamdy/socialmediaintegration/ui/activity/profile/ProfileActivity.kt:86-87 | The result always ends in `=s200-c`. Before that suffix it holds the URL up to, not including, its last `=`, or the whole URL when it has none. |
| Profile.UriToString | app/src/main/java/seifemadhamdy/socialmediaintegration/ui/activity/profile/ProfileActivity.kt:86-87 | A present URI prints as its text. A null one prints as `"null"`. |
| Profile.GoogleAvatarUrl | app/src/main/java/seifemadhamdy/socialmediaintegration/ui/activity/profile/ProfileActivity.kt:86-87 | A null photo URL gives `"null=s200-c"`. A present one gives its rewrite. |
| Profile.RewriteIsIdempotent | app/src/main/java/seifemadhamdy/socialmediaintegration/ui/activity/profile/ProfileActivity.kt:86-87 | Rewriting an already rewritten URL returns it unchanged. |
| Profile.IsGoogleLogin | app/src/main/java/seifemadhamdy/socialmediaintegration/ui/activity/profile/ProfileActivity.kt:35 | The screen picks Google exactly when the router's authoritative session is Google, whatever the Facebook token. |
| Profile.ProviderAgreesWithRouter | app/src/main/java/seifemadhamdy/socialmediaintegration/ui/activity/profile/ProfileActivity.kt:35 | When a session exists, the profile screen picks Google exactly when the router's authoritative session is Google, and Facebook exactly when it is Facebook. |
| Profile.OrPlaceholder | app/src/main/java/seifemadhamdy/socialmediaintegration/ui/activity/profile/ProfileActivity.kt:83-98 | A present value is kept. A null one becomes the placeholder. |
| Profile.ResolveGoogle | app/src/main/java/seifemadhamdy/socialmediaintegration/ui/activity/profile/ProfileActivity.kt:82-93 | Name and email are the provider's values when present. Otherwise, or when the user is null, they are the placeholder. The avatar URL is always present and ends in `=s200-c`. |
| Profile.ResolveFacebook | app/src/main/java/seifemadhamdy/socialmediaintegration/ui/activity/profile/ProfileActivity.kt:95-101 | A null response gives placeholder name and email and no avatar URL. A present response gives its own name and email, and its picture URL unrewritten. |
| Profile.ImageLoads | app/src/main/java/seifemadhamdy/socialmediaintegration/ui/activity/profile/ProfileActivity.kt:195-202 | An image load starts if and only if the URL is present, and then exactly one, for that URL. |
| Profile.GoogleAlwaysLoadsAvatar | app/src/main/java/seifemadhamdy/socialmediaintegration/ui/activity/profile/ProfileActivity.kt:82-93 | On the Google path exactly one avatar load is always started. |
| Profile.NullGraphResponseLoadsNothing | app/src/main/java/seifemadhamdy/socialmediaintegration/ui/activity/profile/ProfileActivity.kt:95-101 | A null Graph response starts no image load. |
| Profile.SignOutEffects | app/src/main/java/seifemadhamdy/socialmediaintegration/ui/activity/profile/ProfileActivity.kt:112-124 | Google only asks for sign-out and does not navigate. Facebook logs out and then navigates back as its last effect. |
| Profile.ResumeEffects | app/src/main/java/seifemadhamdy/socialmediaintegration/ui/activity/profile/ProfileActivity.kt:132-138 | Playback always starts last. Resume seeks if and only if the stored position is non-zero, and only to that position. |
| Profile.NeutralEffectsKeepConsistency | app/src/main/java/seifemadhamdy/socialmediaintegration/ui/activity/profile/ProfileActivity.kt:195-202 | Image loads, the Graph request and video commands keep the sign-out invariant. |
| Profile.SignOutKeepsConsistency | app/src/main/java/seifemadhamdy/socialmediaintegration/ui/activity/profile/ProfileActivity.kt:112-124 | A sign-out click keeps the invariant. Google adds one pending sign-out. Facebook's navigation directly follows its log-out. |
| Profile.SignOutSuccessKeepsConsistency | app/src/main/java/seifemadhamdy/socialmediaintegration/ui/activity/profile/ProfileActivity.kt:187-193 | A Google sign-out success turns one pending sign-out into one navigation back, and navigations still never outnumber sign-out requests in any prefix. |
| Profile.GoogleNavigationFollowsSignOut | app/src/main/java/seifemadhamdy/socialmediaintegration/ui/activity/profile/ProfileActivity.kt:187-193 | On a Google screen every navigation back in the log comes after a sign-out request, and the log never holds more navigations back than sign-out requests. |
| Profile.ProfileScreen.constructor | app/src/main/java/seifemadhamdy/socialmediaintegration/ui/activity/profile/ProfileActivity.kt:33-110 | The provider is fixed from the Firebase user and the video position starts at 0. A Google screen shows the resolved profile and loads its avatar. A Facebook screen issues one Graph request for the fields `id, name, link, picture.type(large), email`. |
| Profile.ProfileScreen.OnApplyWindowInsets | app/src/main/java/seifemadhamdy/socialmediaintegration/ui/activity/profile/ProfileActivity.kt:43-74 | Same listener as on the sign-in screen: the new state is `Deliver` of the old one, and the answer is `CONSUMED`. |
| Profile.ProfileScreen.PopulateViews | app/src/main/java/seifemadhamdy/socialmediaintegration/ui/activity/profile/ProfileActivity.kt:195-202 | Both text fields are set. The only effect added is an image load, exactly when the URL is present. |
| Profile.ProfileScreen.OnGraphResponse | app/src/main/java/seifemadhamdy/socialmediaintegration/ui/activity/profile/ProfileActivity.kt:95-101 | Shows the Facebook resolution of the response. |
| Profile.ProfileScreen.OnSignOutClicked | app/src/main/java/seifemadhamdy/socialmediaintegration/ui/activity/profile/ProfileActivity.kt:112-118 | Dispatches on the provider fixed at creation, and adds exactly that provider's sign-out effects. |
| Profile.ProfileScreen.LogoutGoogle | app/src/main/java/seifemadhamdy/socialmediaintegration/ui/activity/profile/ProfileActivity.kt:187-193 | Adds a sign-out request and one pending listener. Nothing navigates yet. |
| Profile.ProfileScreen.LogoutFacebook | app/src/main/java/seifemadhamdy/socialmediaintegration/ui/activity/profile/ProfileActivity.kt:121-124 | Adds the log-out and, right after it, the navigation back. |
| Profile.ProfileScreen.OnGoogleSignOutSuccess | app/src/main/java/seifemadhamdy/socialmediaintegration/ui/activity/profile/ProfileActivity.kt:189-192 | Runs only on a Google screen with a pending sign-out. It navigates back and clears one pending listener. |
| Profile.ProfileScreen.OnPause | app/src/main/java/seifemadhamdy/socialmediaintegration/ui/activity/profile/ProfileActivity.kt:126-130 | Pauses the video and stores its current position. |
| Profile.ProfileScreen.OnResume | app/src/main/java/seifemadhamdy/socialmediaintegration/ui/activity/profile/ProfileActivity.kt:132-138 | Adds `ResumeEffects` of the stored position and keeps that position. |

## Left out

- Blur rendering: `BlurUtils` and the `initializeBlurView` calls at the end of both inset listeners. They configure an external view library and have no logic of their own.
- SDK internals: the Firebase Auth UI intent and its custom layout, the Facebook `LoginManager` login call, `AccessToken`, `GraphRequest`'s asynchronous fetch and `signOut`. Their answers are inputs. The button click listeners are represented only by `signInWired`.
- org.json accessors throw on a missing key, and that path is not modelled. A present response object always yields its fields, so the placeholder arises only from a null response object.
- The text views' initial content comes from the layout, which is not part of this model. The screen's texts start as `""`, so a Facebook screen shows `""` until the Graph response arrives.
- The value of the localized `R.string.undefined` resource is not part of this model. It is a parameter, `undefinedText`.
- `onCreate` on the profile screen reads the Firebase current user several times. The model takes one snapshot for the provider choice and the fields. The null-user case is still handled, as the `?.` chains do.
- Android plumbing: `Intent`, `finish`, `finishAffinity` (the close button), the splash screen, `setDecorFitsSystemWindows`, `Log` calls and view binding. Navigation appears only as a `Route` value or a `NavigateToCore` effect.
- Video set-up: `prepareVideo`, with its audio-focus version branch, looping and media controller. Only pause, seek and start are recorded, as effects.
- Image loading itself, including failure. A load is only recorded as a `LoadImage` effect.
- Concurrency: callbacks are separate method calls on the screen. There is no cancellation of an in-flight Graph request, as in the app.
- Insets.View.UpdatePaddingForInsets: does not model 32-bit `Int` overflow of the padding sums. The model uses unbounded integers; real insets are small and non-negative.
- Profile.ProfileScreen.OnPause: the video position is an unbounded integer rather than a 32-bit `Int`.
