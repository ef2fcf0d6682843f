# Video-sharing front end: a Dafny model of its client logic

This project models the client-side logic of a React video-sharing front
end in Dafny 4.11:

- the HTTP client (`src/services/apiClient.ts`): a request interceptor that
  attaches the stored bearer token, and a response interceptor that handles
  network failures and expired sessions;
- the endpoint wrappers (`src/services/api.ts`) as a datatype of endpoints,
  each with a verb, a path, query parameters and a body;
- the authentication context (`src/contexts/AuthContext.tsx`): the startup
  identity check, login, register, logout, the context value and `useAuth`;
- the pages and components that hold logic rather than markup:
  - the login/register forms: validation, error clearing and the multipart
    body;
  - the watch page: reaction, save, subscribe and comment handlers, and the
    video and comment fetches;
  - the recursive comment thread: reply composer, view/hide-replies control
    and depth limit;
  - the video player's control handlers;
  - the clock and compact-count formatters;
  - the navbar's search and initials;
  - the sidebar's link lists and filter;
  - the history page's grouping by day;
  - the settings page's profile schema, defaults and logout;
  - the home page's category fetch.

Each handler is a pure function. It takes the state it reads, whether a
user is signed in, and the server's reply (`Answered`, `Unreachable` or
`Refused(code, message)`). It returns the new state, the effects it shows
(toasts, navigations, page reloads) and the requests it sends. An async
handler runs as one atomic step.

Every formatter and transition that computes something is checked against
a partner. The guards and views that only choose what to show
(`Settings.Guard`, `History.Mount`, `History.Render`, `Session.UseAuth`)
are stated directly instead, case by case. The partners are:

- a parser or inverse: a clock text reads back as its seconds, and an
  encoded query decodes back to itself;
- an independent reference definition: word starts for the initials, and
  a per-day filter for the history grouping;
- or an invariant it keeps: the like and the dislike are never both set,
  and a signed-in user always has a stored token.

Modules follow the source layout:

| module | file | models |
|---|---|---|
| `Wrappers` | wrappers.dfy | `Option` |
| `Text` | text.dfy | JavaScript string operations (`trim`, `split`, `join`, `toUpperCase`, `padStart`, `toString`, UTF-16 length) |
| `Http` | http.dfy | JSON values, bodies, replies, client errors and UI effects |
| `Api` | api.dfy | `src/services/api.ts` |
| `ApiClient` | api_client.dfy | `src/services/apiClient.ts` |
| `Session` | session.dfy | `src/contexts/AuthContext.tsx` |
| `AuthForms` | auth_forms.dfy | `src/components/auth/AuthForms.tsx` |
| `CommentThread` | comment_thread.dfy | `src/components/CommentItem.tsx` |
| `Watch` | watch.dfy | `src/pages/Watch.tsx` handlers |
| `Formatters` | formatters.dfy | `formatDuration`, `formatTime`, `formatNumber`, `formatViews`, history duration label |
| `VideoPlayer` | video_player.dfy | `src/components/video/VideoPlayer.tsx` handlers |
| `Uri` | uri.dfy | `encodeURIComponent` and its inverse |
| `Navbar` | navbar.dfy | `src/components/layout/Navbar.tsx` |
| `Sidebar` | sidebar.dfy | `src/components/layout/Sidebar.tsx` |
| `History` | history.dfy | `src/pages/History.tsx` |
| `Settings` | settings.dfy | `src/pages/Settings.tsx` |
| `IndexPage` | index_page.dfy | `src/pages/Index.tsx` |

## Model

| member | source | states |
|---|---|---|
| Api.Request | src/services/api.ts:5-93 | Each wrapper sends its own verb to its own path. Only `getVideos` carries query parameters. A GET never carries a body. |
| Api.ResolveRequest | src/services/api.ts:5-93 | From any well-formed wrapper call, the verb, path, parameters and body it sends are enough to recover which wrapper was called and with which arguments. |
| Api.ResolveGetRequest | src/services/api.ts:5-93 | The GET wrappers (profiles, current user, videos, comments, like toggles, liked list) are recovered from their request. |
| Api.ResolvePostRequest | src/services/api.ts:38-76 | The POST wrappers (login, register, profile and image updates, comment) are recovered from their request and body. |
| Api.RequestInjective | src/services/api.ts:5-93 | No two different well-formed wrapper calls send the same request. |
| Api.SplitPath | src/services/api.ts:5-93 | A wrapper's URL splits on `/` into the template's segments, with the id as one whole segment. |
| Api.IdentityPathUnique | src/services/api.ts:20-23 | `getCurrentUser` is the only well-formed wrapper whose URL is `/users/get-current-user`. |
| Api.IdentityPath | src/services/api.ts:20-23 | The identity check's URL is `/users/get-current-user`. |
| Api.LoginPath | src/services/api.ts:38-41 | Login posts to `/users/login`. |
| Api.RegisterPath | src/services/api.ts:43-49 | A registration posts to `/users/register`. |
| Api.ListingPath | src/services/api.ts:58-62 | The video listing is requested from `/videos/` whatever the query. |
| Api.ChannelPath | src/services/api.ts:10-13 | A channel profile is requested at `/users/channel/` followed by the channel id. |
| Api.VideoPath | src/services/api.ts:53-56 | A video is requested at `/videos/video/` followed by its id. |
| Api.CommentsPath | src/services/api.ts:66-70 | A video's comments are requested at `/comments/videos/` followed by the video id. |
| Api.AddCommentPath | src/services/api.ts:72-76 | A comment is posted to `/comments/v/` followed by the video id. |
| Api.VideoLikePath | src/services/api.ts:80-83 | A video like is toggled at `/likes/v/` followed by the video id. |
| Api.CommentLikePath | src/services/api.ts:85-88 | A comment like is toggled at `/likes/c/` followed by the comment id. |
| Http.Received | src/services/apiClient.ts:30-54 | A reply is an error exactly when the server did not answer. An unreachable server becomes the "no response" error. A refusal keeps its status, the request URL and the server's message. |
| ApiClient.AttachToken | src/services/apiClient.ts:16-27 | With a non-empty stored token, the request leaves with an `Authorization` header that reads back as `Bearer` plus exactly that token. Otherwise the request is unchanged. No other header, and nothing of the call, is touched. |
| ApiClient.HandleReply | src/services/apiClient.ts:30-54 | Success passes through untouched. No response shows the network notice. A 401 removes the token, and unless the URL is the identity check it also shows the expiry notice and reloads `/`. Any other status does nothing. Every error is re-rejected unchanged. |
| ApiClient.TokenGoneIffUnauthorized | src/services/apiClient.ts:40-42 | After the interceptor, no token is stored exactly when none was stored before or the reply was a 401. |
| ApiClient.ReloadOnlyWithoutToken | src/services/apiClient.ts:40-49 | The interceptor never reloads the root page while a token is still stored. |
| ApiClient.IdentityPathLacksAuthFragment | src/services/apiClient.ts:45-49 | The identity check's URL does not contain `/auth/me`. |
| ApiClient.LacksAuthFragment | src/services/apiClient.ts:46 | A URL without the letter `h` never passes the `/auth/me` test. |
| ApiClient.WritePathLacksAuthFragment | src/services/apiClient.ts:46 | Neither the login path nor the registration path passes the `/auth/me` test. |
| ApiClient.OnReplyAsWritten | src/services/apiClient.ts:30-54 | The interceptor as written: a 401 removes the token, and it is silent exactly when the failing URL contains `/auth/me`. |
| ApiClient.OnReply | src/services/apiClient.ts:30-54 | The interceptor as its comment means it: a 401 removes the token, and it is silent exactly on the identity request. |
| ApiClient.StartupCheckNotSilentAsWritten | src/services/apiClient.ts:45-49 | As written, a 401 on the startup identity check shows the expiry notice and reloads, like any other expired session. |
| ApiClient.StartupCheckSilent | src/services/apiClient.ts:45-49 | When the identity check is recognised by its real path, a 401 on it removes the token silently. |
| ApiClient.OtherRequestsStillExpire | src/services/apiClient.ts:40-49 | With that correction, every other endpoint still gets the expiry notice and the reload on a 401. |
| Session.Stored | src/contexts/AuthContext.tsx:55 | `localStorage.setItem` of a missing token stores the non-empty text `undefined`. |
| Session.Send | src/services/apiClient.ts:16-27 | A request built for the session is exactly the wrapper's request, with the bearer header when a token is stored and without it otherwise. |
| Session.ErrorText | src/contexts/AuthContext.tsx:60 | The server's non-empty message is shown when there is one, else the fallback text. |
| Session.CheckAuth | src/contexts/AuthContext.tsx:30-49 | The startup check as the source runs it. With no token, nothing is requested. With a token, one identity request is made. An answer sets the user. Any failure clears the user and removes the token. An unreachable server shows the network notice, and a 401 shows the expiry notice and reloads `/`, because the interceptor does not recognise the identity request. Loading always ends and nothing is re-raised. |
| Session.StartupCheck | src/contexts/AuthContext.tsx:30-49 | The startup check for any identity-check test in the interceptor: the request carries the stored token as bearer, and a 401 is silent exactly when the test accepts the identity path. |
| Session.CheckAuthCorrected | src/services/apiClient.ts:45-49 | The startup check with the identity request recognised by its path: as `Session.CheckAuth`, except that a 401 removes the token silently. |
| Session.CorrectionSilencesOnlyStartup401 | src/services/apiClient.ts:45-49 | The corrected startup check leaves the same session and makes the same request. Its effects differ exactly when a stored token is refused with a 401. |
| Session.FailedWriteIntercepted | src/services/apiClient.ts:30-54 | A failed login or register passes through the interceptor. A network failure shows its notice, a 401 removes the token, shows the expiry notice and reloads, and any other status does nothing. |
| Session.Login | src/contexts/AuthContext.tsx:50-65 | Exactly one login request, which resolves to the credentials given. On success the access token is stored, the user is set and success is announced. On failure the user is kept, the interceptor's effects come first, the server's message or the fallback is shown, and the error is re-raised. Loading always ends. |
| Session.Register | src/contexts/AuthContext.tsx:67-87 | Exactly one request, which resolves to the registration endpoint with the form given, carries the form data as multipart and overrides the content type. Success stores the token and sets the user. Failure is handled as for login, with its own fallback. |
| Session.Logout | src/contexts/AuthContext.tsx:89-93 | Removes the token and the user, requests nothing and announces the logout. |
| Session.Value | src/contexts/AuthContext.tsx:96-104 | The context is authenticated exactly when a user is present. |
| Session.UseAuth | src/contexts/AuthContext.tsx:111-119 | Outside a provider the hook throws its message. Inside one it returns the context. |
| Session.CheckAuthConsistent | src/contexts/AuthContext.tsx:30-49 | After the startup check, a signed-in user always has a stored token. |
| Session.LoginConsistent | src/contexts/AuthContext.tsx:50-65 | Login keeps the invariant "a user implies a stored token", including when a 401 triggers a reload. |
| Session.RegisterConsistent | src/contexts/AuthContext.tsx:67-87 | Register keeps the same invariant. |
| Session.LogoutSignsOut | src/contexts/AuthContext.tsx:89-93 | After logout the context is unauthenticated and consistent. |
| Session.ReloadEndsSignedOut | src/services/apiClient.ts:40-42 | After an expiry reload, the startup check finds no token, asks nothing and leaves the viewer signed out. |
| AuthForms.EmailError | src/components/auth/AuthForms.tsx:74-78 | A blank e-mail gets "required", and a non-blank one that fails the pattern gets "invalid". There is no message exactly when the pattern matches. |
| AuthForms.EmailNotBlank | src/components/auth/AuthForms.tsx:74-78 | An e-mail that matches the pattern is never blank, so the "required" branch cannot hide a match. |
| AuthForms.EmailExamples | src/components/auth/AuthForms.tsx:76 | `a@b.c` matches `\S+@\S+\.\S+`. `a@.c` and `a@ b.c` do not. |
| AuthForms.Put | src/components/auth/AuthForms.tsx:72-82 | Setting a message adds or replaces exactly that key, and no message leaves the errors unchanged. |
| AuthForms.LoginErrors | src/components/auth/AuthForms.tsx:71-86 | The e-mail is flagged exactly when the pattern fails, with the e-mail's own message. The password is flagged exactly when it is empty. No other key is flagged. |
| AuthForms.LoginValidIff | src/components/auth/AuthForms.tsx:71-86 | Login validation passes exactly when the e-mail matches and the password is non-empty. |
| AuthForms.PasswordError | src/components/auth/AuthForms.tsx:101-105 | An empty password is "required". A non-empty one is "too short" exactly when it has fewer than 6 UTF-16 units. |
| AuthForms.RegisterErrors | src/components/auth/AuthForms.tsx:88-121 | One entry per rule, each flagged exactly when the rule fails, with its fixed message: blank user name, e-mail (required, then invalid), password (required, then too short), confirmation different from password, blank full name, missing avatar. The cover image is never flagged. |
| AuthForms.RegisterValidIff | src/components/auth/AuthForms.tsx:88-121 | Registration validation passes exactly when every rule holds. |
| AuthForms.CoverImageIrrelevant | src/components/auth/AuthForms.tsx:88-121 | Changing the cover image never changes the registration errors. |
| AuthForms.ClearError | src/components/auth/AuthForms.tsx:43-45 | Typing in a field blanks its message, keeps every key and leaves the other messages untouched. |
| AuthForms.ClearErrorShows | src/components/auth/AuthForms.tsx:43-45 | After clearing, a field shows an error exactly when it is another field that showed one before. |
| AuthForms.ChangeLogin | src/components/auth/AuthForms.tsx:40-46 | The field named by the input takes the typed value, and its error is cleared. |
| AuthForms.ChangeRegister | src/components/auth/AuthForms.tsx:48-69 | Each of the five text inputs sets its own field to the typed value, each file input sets its field to the first file, and only that input's error is cleared. A mismatched input and entry leaves the form unchanged. |
| AuthForms.SubmitLogin | src/components/auth/AuthForms.tsx:123-138 | The errors are the login validation's. Login is attempted exactly when there are none, with the form's e-mail and password. |
| AuthForms.AfterLogin | src/components/auth/AuthForms.tsx:129-137 | The form navigates home exactly when login did not raise. |
| AuthForms.RegisterFormData | src/components/auth/AuthForms.tsx:145-156 | The five text fields are appended in order under their names. The avatar and cover image are appended only when present, in that order. |
| AuthForms.FormDataNamesDistinct | src/components/auth/AuthForms.tsx:145-156 | No name appears twice in the multipart body. |
| AuthForms.SubmitRegister | src/components/auth/AuthForms.tsx:140-169 | Registration is attempted exactly when validation passes. Its body is the form data, which then always includes the avatar. |
| CommentThread.GroupOf | src/components/CommentItem.tsx:30-35 | A comment without an entry is treated as not loading, closed, with no replies and no error. |
| CommentThread.ViewControl | src/components/CommentItem.tsx:155-179 | The control exists exactly for a comment with replies above the depth limit of 5. It is disabled while loading and shows the group's error exactly when that error is non-empty. |
| CommentThread.LabelNamesCount | src/components/CommentItem.tsx:164-173 | A label other than `Loading...` starts with `Hide ` or `View ` according to the open state, ends with ` replies`, and the digits in between read back as the reply count. |
| CommentThread.ToggleReply | src/components/CommentItem.tsx:97 | After Reply, this comment's composer is open exactly when it was closed, and no other comment's is open. |
| CommentThread.CancelReply | src/components/CommentItem.tsx:126 | After Cancel, no composer is open. |
| CommentThread.ToggleReplyTwice | src/components/CommentItem.tsx:97 | Pressing Reply twice restores the composer state when no other composer was open. |
| CommentThread.SubmitReply | src/components/CommentItem.tsx:41-48 | Text that trims to nothing changes nothing and calls nothing. Other text is submitted untrimmed for this comment, then the box is cleared and the composer closed. |
| CommentThread.SubmitGuard | src/components/CommentItem.tsx:43 | A reply is submitted exactly when its text is not empty after trimming. |
| CommentThread.SubmitTwiceIsOnce | src/components/CommentItem.tsx:41-48 | A second submission right after the first makes no call and changes nothing. |
| CommentThread.Render | src/components/CommentItem.tsx:137-152 | A comment renders its own row first and is the only row at its depth. Its group's comments are exactly the rows one level deeper, in order, when the group is open and non-empty (and the fuel reaches them), and there are none otherwise. Every row is indented 24 px per level and shows the composer exactly when it is the active one. |
| CommentThread.RenderAll | src/components/CommentItem.tsx:139-150 | The rows at the given depth are exactly the group's comments, in order, each followed by its own replies deeper down. Every row keeps the indentation and composer rule. |
| CommentThread.Ids | src/components/CommentItem.tsx:139-150 | The ids of a list of comments, position by position. |
| CommentThread.AtMostOneComposer | src/components/CommentItem.tsx:104 | In a tree where every comment appears once, at most one reply composer is shown. |
| Watch.Like | src/pages/Watch.tsx:114-133 | A guest is turned away with no change and no request. Otherwise the like is toggled on the server. Success takes the server's `isLiked`, clears the dislike and moves the count one step in that direction. Failure changes nothing and shows the error. |
| Watch.LikeComment | src/pages/Watch.tsx:135-151 | A guest is turned away. Otherwise the comment's like is toggled. Success only flips the refresh flag. Failure only shows the error. |
| Watch.Dislike | src/pages/Watch.tsx:153-166 | A guest is turned away. Otherwise the dislike flips, the like is cleared and the toast names the change by the old value. |
| Watch.Save | src/pages/Watch.tsx:168-178 | A guest is turned away. Otherwise the saved flag flips and the toast names the change by the old value. |
| Watch.Subscribe | src/pages/Watch.tsx:186-196 | A guest is turned away. Otherwise the subscription flips and the toast names the change by the old value. |
| Watch.EditComment | src/pages/Watch.tsx:438 | Typing changes only the comment text. |
| Watch.SubmitComment | src/pages/Watch.tsx:198-232 | A guest is refused first, then a blank comment, both before any request. Otherwise the untrimmed text is posted for the route's video. Success clears the box and flips the refresh flag. Failure only shows the error. |
| Watch.FetchVideo | src/pages/Watch.tsx:74-92 | Without an id nothing happens. Otherwise the first video of the reply becomes the page's video with its like count. An empty reply leaves no video and fails like a rejected request. Loading ends. |
| Watch.FetchComments | src/pages/Watch.tsx:95-112 | Without a video nothing is requested. Otherwise that video's comments are requested. Success replaces the listing with the first page's comments. Failure keeps the listing and shows the error. |
| Watch.ReactionsKeepNotBoth | src/pages/Watch.tsx:114-166 | The like, comment-like and dislike handlers never leave the video both liked and disliked. |
| Watch.ConversingKeepsReaction | src/pages/Watch.tsx:74-112 | Typing, posting and the fetches never touch the like or the dislike. |
| Watch.ApplyKeepsNotBoth | src/pages/Watch.tsx:74-232 | Every handler keeps the like and the dislike apart. |
| Watch.NeverLikedAndDisliked | src/pages/Watch.tsx:68-69 | From any state where they are apart, no sequence of events shows both a like and a dislike. |
| Watch.NeverBothFromStart | src/pages/Watch.tsx:68-69 | From the initial page, no sequence of events shows both. |
| Watch.GuestsChangeNothing | src/pages/Watch.tsx:114-218 | A guest's click on any guarded handler changes nothing, requests nothing and shows one error. |
| Watch.GuestRunChangesNothing | src/pages/Watch.tsx:114-218 | Any sequence of guest clicks on guarded handlers leaves the page as it was. |
| Watch.ToggleTwice | src/pages/Watch.tsx:168-196 | Saving twice, or subscribing twice, restores the page. |
| Watch.LikeUnlikeRestoresCount | src/pages/Watch.tsx:114-133 | Liking and then unliking, as the server reports it, restores the like count and leaves the video neither liked nor disliked. |
| Watch.CommentsNeedVideo | src/pages/Watch.tsx:95-112 | Without a video, no comment request is sent, whatever the refresh flag does. |
| Formatters.FloorDiv | src/pages/History.tsx:108 | `Math.floor(a / d)` is the greatest quotient whose multiple does not exceed `a`. |
| Formatters.WatchDuration | src/pages/Watch.tsx:567-578 | The watch page's `formatDuration`, `H:MM:SS` from an hour on and `M:SS` below. Its meaning is stated by `Formatters.WatchDurationRoundTrip`. |
| Formatters.CardDuration | src/components/video/VideoCard.tsx:37-49 | The card's `formatDuration`: the floored seconds, with `.` between hours and minutes. Related to the watch page by `Formatters.CardDurationVersusWatch`. |
| Formatters.PlayerTime | src/components/video/VideoPlayer.tsx:173-183 | The player's `formatTime`. Related to the watch page by `Formatters.PlayerTimeIsWatchDuration`, and read back by `Formatters.PlayerTimeRoundTrip`. |
| Formatters.HistoryDuration | src/pages/History.tsx:108 | The history entry's duration label, with unbounded minutes. Related to the watch page by `Formatters.HistoryDurationVersusWatch`. |
| Formatters.CompactCount | src/pages/Watch.tsx:234-242 | `formatNumber` (and the card's `formatViews`, src/components/video/VideoCard.tsx:26-34): a scaled count keeps the count it scales. The branches are stated by `Formatters.CompactCountBranches`. |
| Formatters.JsRem | src/pages/History.tsx:108 | JavaScript's `%` on a negative dividend gives a remainder that is zero or negative. On a natural it is the ordinary remainder. |
| Formatters.JsRemNegation | src/pages/History.tsx:108 | The JavaScript remainder is odd in its dividend. |
| Formatters.WatchDurationRoundTrip | src/pages/Watch.tsx:567-578 | The watch page's duration of any natural number of seconds reads back, through the clock parser, as exactly that number. |
| Formatters.WatchDurationInjective | src/pages/Watch.tsx:567-578 | Different durations never show the same text. |
| Formatters.ParseShortClock | src/pages/Watch.tsx:577 | `M:SS` reads back as `60 * M + SS`. |
| Formatters.ParseLongClock | src/pages/Watch.tsx:573-574 | `H:MM:SS` reads back as `3600 * H + 60 * MM + SS`. |
| Formatters.ClockArithmetic | src/pages/Watch.tsx:567-575 | The hour, minute and second fields recombine to the total. The hour branch is taken exactly from 3600 seconds. |
| Formatters.PlayerTimeIsWatchDuration | src/components/video/VideoPlayer.tsx:173-183 | The player's `formatTime` and the watch page's `formatDuration` agree on every natural. |
| Formatters.PlayerTimeRoundTrip | src/components/video/VideoPlayer.tsx:173-183 | The player's time reads back as the seconds it shows. |
| Formatters.CardDurationVersusWatch | src/components/video/VideoCard.tsx:37-49 | The card floors its input first. Under an hour it matches the watch page. From an hour on it matches it with `.` in place of the first `:`. |
| Formatters.HistoryDurationVersusWatch | src/pages/History.tsx:108 | The history label matches the watch page under an hour. It always reads back as the total seconds, with the minutes unbounded. |
| Formatters.SecondsFieldTwoDigits | src/pages/History.tsx:108 | For a natural, the seconds field is always two digits and below 60. |
| Formatters.FieldRoundTrip | src/pages/Watch.tsx:574-577 | A padded field is non-empty digits that read back as the number. |
| Formatters.CompactCountBranches | src/pages/Watch.tsx:234-242 | A plain count is shown exactly below 1,000, and it reads back as the count. `K` is used exactly from 1,000 to below 1,000,000, and `M` from 1,000,000 on. A scaled count's quotient is at least one. |
| VideoPlayer.TogglePlay | src/components/video/VideoPlayer.tsx:107-117 | Play/pause pauses the element when the state says playing, plays it otherwise, and flips the state. It does nothing without a mounted element. |
| VideoPlayer.ToggleMute | src/components/video/VideoPlayer.tsx:119-125 | Mute flips the state and sets the element to the same value. Nothing else changes. |
| VideoPlayer.ChangeVolume | src/components/video/VideoPlayer.tsx:127-142 | Volume is set on both the element and the state. Zero while unmuted mutes. Positive while muted unmutes. Otherwise the mute flag is kept. Play state and time are untouched. |
| VideoPlayer.SeekTo | src/components/video/VideoPlayer.tsx:144-150 | A seek moves both the element and the state to the slider's time and touches nothing else. |
| VideoPlayer.MutedIffSilent | src/components/video/VideoPlayer.tsx:127-142 | For any value the slider can produce, the player ends muted exactly when the volume is zero. |
| VideoPlayer.HandlersKeepInStep | src/components/video/VideoPlayer.tsx:107-150 | Every handler keeps the element's mute and volume in step with the React state. |
| VideoPlayer.TogglesAreInvolutions | src/components/video/VideoPlayer.tsx:107-125 | Pressing play twice, or mute twice, restores the player. |
| VideoPlayer.SliderValue | src/components/video/VideoPlayer.tsx:303 | The volume slider shows zero while muted and the volume otherwise. |
| Uri.Utf8 | src/components/layout/Navbar.tsx:38 | A character encodes to one byte exactly when it is ASCII, and to at most four bytes, all after the first being continuation bytes. |
| Uri.Utf8RoundTrip | src/components/layout/Navbar.tsx:38 | UTF-8 decoding recovers every string from its encoding. |
| Uri.EncodeChar | src/components/layout/Navbar.tsx:38 | Unreserved characters are kept. Every other character becomes the percent escapes of its UTF-8 bytes. |
| Uri.Encode | src/components/layout/Navbar.tsx:38 | The encoded text is at least as long as the input and at most twelve times as long. |
| Uri.DecodeEncode | src/components/layout/Navbar.tsx:38 | Percent-decoding the encoded text gives back the original string. |
| Uri.EncodeIsSafe | src/components/layout/Navbar.tsx:38 | The encoded text is ASCII and holds no `&`, `#` or `=`, so it stays one query value. |
| Navbar.Search | src/components/layout/Navbar.tsx:35-40 | A query that is blank after trimming does nothing. Any other query navigates once, to `/search?q=` followed by the encoded trimmed query. |
| Navbar.SearchCarriesTrimmedQuery | src/components/layout/Navbar.tsx:38 | The results URL starts with `/search?q=`, and its value is query-safe and decodes to the trimmed query. |
| Navbar.SearchIgnoresSurroundingSpace | src/components/layout/Navbar.tsx:37-38 | Surrounding white space never changes where a search goes. |
| Navbar.FirstCharsOfSplit | src/components/layout/Navbar.tsx:42-46 | The first characters of the `' '`-separated pieces, with empty pieces skipped, are exactly the characters that begin a word in a left-to-right scan. |
| Navbar.InitialsAreWordStarts | src/components/layout/Navbar.tsx:42-49 | The initials are the upper-cased starts of the first two words of the name, however many spaces separate them. |
| Navbar.Initials | src/components/layout/Navbar.tsx:42-49 | The initials are at most two characters. |
| Navbar.AvatarFallback | src/components/layout/Navbar.tsx:138 | Without a user name the fallback is `U`. Otherwise it is the name's initials. |
| Sidebar.Filter | src/components/layout/Sidebar.tsx:112-115 | A link is kept exactly when it needs no sign-in or the viewer is signed in. |
| Sidebar.FilterIsSubsequence | src/components/layout/Sidebar.tsx:112-115 | The filter keeps the surviving links in their order. |
| Sidebar.SignedInKeepsAll | src/components/layout/Sidebar.tsx:112-115 | A signed-in viewer keeps every link. |
| Sidebar.GuestKeepsNone | src/components/layout/Sidebar.tsx:112-115 | A guest keeps none of a list whose every link needs a sign-in. |
| Sidebar.Library | src/components/layout/Sidebar.tsx:141 | The Library section, when shown, is non-empty and holds exactly the visible personal links. |
| Sidebar.LibraryFollowsSignIn | src/components/layout/Sidebar.tsx:48-67 | Every personal link needs a sign-in. A guest gets no Library section, and a signed-in viewer gets all three links. |
| Sidebar.Shown | src/components/layout/Sidebar.tsx:35-115 | A link is shown exactly when it is a main or explore link, or a visible personal link. |
| Sidebar.ShownLayout | src/components/layout/Sidebar.tsx:35-115 | The links appear as main, then Library if any, then explore. |
| Sidebar.TablesTargetsDistinct | src/components/layout/Sidebar.tsx:35-110 | Read off the link tables, no target appears twice, whether or not the Library links are included. |
| Sidebar.ShownTargetsDistinct | src/components/layout/Sidebar.tsx:35-110 | No two shown links share a target, signed in or not. |
| Sidebar.AtMostOneActive | src/components/layout/Sidebar.tsx:130 | Whatever the path, at most one shown link is highlighted. |
| History.Stamp | src/pages/History.tsx:38 | The date used is the watch time when present and non-empty, else the creation time. |
| History.Reduce | src/pages/History.tsx:37-44 | The reducer's accumulator: the order lists each key once, and a group exists exactly for the listed keys. Its contents are stated by `History.KeysAreDays`, `History.GroupsAreFilters`, `History.OrderOfFirstOccurrence` and `History.CountPreserved`. |
| History.GroupByDay | src/pages/History.tsx:37-44 | The grouped history: the reducer's entries. Its meaning is stated by `History.GroupsHoldTheirDays`, `History.GroupsInFirstSeenOrder`, `History.GroupDaysDistinct` and `History.EveryVideoGrouped`. |
| History.Push | src/pages/History.tsx:39-42 | A day seen before gets the video appended to its group. A new day starts a group and is appended to the key order. |
| History.KeysAreDays | src/pages/History.tsx:37-44 | The groups are keyed by exactly the days of the videos. |
| History.GroupsAreFilters | src/pages/History.tsx:37-44 | Each group holds exactly the videos of its day, in their original order. |
| History.OrderOfFirstOccurrence | src/pages/History.tsx:37-44 | The keys are ordered by each day's first appearance in the list. |
| History.CountPreserved | src/pages/History.tsx:37-44 | The group sizes add up to the number of videos: none lost, none duplicated. |
| History.Entries | src/pages/History.tsx:87 | `Object.entries` yields one entry per key, in key order, each with that key's group. |
| History.GroupDaysDistinct | src/pages/History.tsx:87 | No day heads two groups. |
| History.GroupsHoldTheirDays | src/pages/History.tsx:87 | Every rendered group is exactly the videos of its day. |
| History.GroupsInFirstSeenOrder | src/pages/History.tsx:87 | Rendered groups appear in order of each day's first appearance. |
| History.EveryVideoGrouped | src/pages/History.tsx:87 | Every video belongs to a rendered group with its own day. |
| History.Mount | src/pages/History.tsx:17-28 | A guest is sent home with the login-required notice and nothing is requested. A signed-in viewer requests the history listing. |
| History.Render | src/pages/History.tsx:30-133 | A guest sees nothing. A signed-in viewer sees placeholders exactly while loading. Afterwards the page shows the day groups exactly when the listing is non-empty, and the empty-history view exactly when there is no data or it is empty. |
| Settings.ProfileDefaults | src/pages/Settings.tsx:52-59 | The form starts from the user's name and e-mail, or empty strings without a user, and an empty bio. |
| Settings.PreferenceDefaults | src/pages/Settings.tsx:61-71 | Every notification switch starts on. |
| Settings.ProfileErrors | src/pages/Settings.tsx:19-25 | Each field is flagged exactly when its rule fails, with its own message: a name under 3 UTF-16 units, an e-mail failing the check, a present bio over 160 units. |
| Settings.ProfileValidIff | src/pages/Settings.tsx:19-25 | A profile passes exactly when each field does. |
| Settings.BioOptional | src/pages/Settings.tsx:23-24 | A missing bio, and the default empty bio, always pass. |
| Settings.SubmitProfile | src/pages/Settings.tsx:73-76 | The success notice is shown exactly when the schema accepts the profile. |
| Settings.PreferencesAlwaysAccepted | src/pages/Settings.tsx:78-81 | Every combination of switches gets the same notice. |
| Settings.Guard | src/pages/Settings.tsx:45-50 | A guest is sent home with the login-required notice. A signed-in viewer sees nothing happen. |
| Settings.HandleLogout | src/pages/Settings.tsx:83-86 | The logout button is the session's logout followed by a navigation home. |
| Settings.LogoutLeavesSignedOut | src/pages/Settings.tsx:83-86 | After the logout button the viewer is signed out, nothing is stored, the last effect goes home and nothing reloads. |
| IndexPage.Category | src/pages/Index.tsx:22-24 | No category is sent exactly for the `all` tab. Any other tab sends its own name. |
| IndexPage.CategoryTravelsUnderParams | src/pages/Index.tsx:22-24 | The category reaches the listing request's query parameters one level down, under `params`. |
| IndexPage.Fetch | src/pages/Index.tsx:17-32 | One listing request for the active tab. Success replaces the videos and clears the error. Failure keeps the old videos and sets the error text. Loading always ends. |
| IndexPage.Mount | src/pages/Index.tsx:12-53 | The first render fetches the `all` listing. |
| IndexPage.SelectTab | src/pages/Index.tsx:53 | Choosing a tab makes it the active tab. |
| IndexPage.RefetchIffTabChanged | src/pages/Index.tsx:53 | A refetch happens exactly when the tab changes. Re-choosing the current tab leaves the page as it was. |
| IndexPage.FailureKeepsVideos | src/pages/Index.tsx:26-28 | A failed fetch leaves the shown videos as they were and sets the error text. |
| IndexPage.FetchSettles | src/pages/Index.tsx:29-31 | Whatever the outcome, a tab change never leaves the page loading. |

## Left out

- Rendering, styling and icons are not modelled. Only what a component decides (labels, which controls exist, indentation, which view is shown) is kept.
- Asynchrony is not modelled. Each async handler runs as one atomic step, and interleavings of concurrent requests and stale React closures are out of scope.
- Storage, the clock, the network, the router and toasts are not called. They are the `storedToken` field, the server-reply parameters, and the `Navigate`, `Reload` and toast effects.
- Watch, IndexPage and History effects list only the page's own toasts. The response interceptor's effects on the same failure are stated once, in `ApiClient.HandleReply`, and composed only into `Session`.
- CommentThread.Render: the recursion is bounded by a `fuel` parameter. Trees deeper than the fuel are cut off, whereas the source recurses until the open groups run out.
- `onFetchReplies` (the parent page's reply loading) is not modelled. The thread only reads the reply groups it produces.
- Watch: `setTotalComments(comments.length)` reads the previous listing. It only feeds a counter that is never compared, so it is not modelled.
- Watch: `handleShare`, and the player's skip and fullscreen controls, are not modelled. They use the clipboard and the fullscreen API.
- Watch: the `activeTab`, `loading` spinner and related-video state are not modelled.
- Formatters.CompactCount: the one-decimal text of `toFixed(1)` is not modelled. The contract states the branch, divisor and suffix, not the floating-point digits.
- Formatters.CardDurationVersusWatch: the card's input is a real number. Other clock formatters are modelled on integers, with JavaScript's `%` and `Math.floor` written out.
- Text.Trim: only ASCII white space (space, tab, newline, carriage return, form feed, vertical tab) counts as white space. JavaScript's `trim` also removes the other Unicode spaces.
- Text.ToUpper: only ASCII letters are upper-cased. JavaScript's `toUpperCase` also maps other scripts.
- Navbar.Initials: works on characters, not UTF-16 code units. The source takes `part[0]`, which for a word starting with an astral character (an emoji, say) is a lone high surrogate. For "Bob 😀x" the source gives "B" followed by that surrogate, and the model gives "B😀". This affects either of the first two words. `substring(0, 2)` then counts code units where the model counts characters.
- Uri.Encode: Dafny characters are Unicode scalar values, so the `URIError` that `encodeURIComponent` throws for a lone surrogate cannot arise.
- AuthForms.LooksLikeEmail: the regular expression `\S+@\S+\.\S+` is modelled as a search for a matching substring, with `\S` as "not ASCII white space".
- Settings.ProfileErrors: the validation library's e-mail rule is a parameter, not a definition.
- Settings: the avatar and cover image fields accept any value, so they cannot fail. They are left out of the profile.
- Settings: the tab selection and the account tab are not modelled. They only choose what is displayed.
- History: the day of a timestamp (`new Date(...).toDateString()`) is a parameter. Such day texts are never array-index keys, so `Object.entries` keeps their insertion order, as the model does.
- History: `handleClearHistory` shows a success toast and calls nothing. It is not modelled.
- IndexPage: the category tabs' labels and the video grid are not modelled.
- Api: `axios` request configuration is reduced to verb, path, query parameters, body and headers. Timeouts, base URL joining and JSON serialisation are not modelled.

## Findings

| source | as written | input that shows it | evidently intended | confidence | as-written member | corrected member |
|---|---|---|---|---|---|---|
| src/services/apiClient.ts:45-49 | The response interceptor skips the expiry notice and reload only for URLs containing `/auth/me`. The identity check actually requests `/users/get-current-user` (src/services/api.ts:21). | The startup identity check with an expired stored token gets a 401 from `/users/get-current-user`: the token is removed, "Session expired" is shown and the page reloads. | A 401 on the startup identity check removes the token silently. Every other request still shows the notice and reloads. | not executed | ApiClient.StartupCheckNotSilentAsWritten | ApiClient.StartupCheckSilent |

The model's session (`Session`) runs through the interceptor as written,
`ApiClient.OnReplyAsWritten`, so `Session.CheckAuth` shows the expiry
notice and reloads `/` on a 401. `Session.CheckAuthCorrected` is the
startup check with the identity request recognised by its path, built on
`ApiClient.OnReply`, and `Session.CorrectionSilencesOnlyStartup401`
states that the two differ only there. Because the stored token is
already removed when the reload happens, the reloaded page in the source
also ends signed out. The visible difference is the notice and the extra
reload at startup.

A failed login or register also goes through the interceptor: a 401 there
removes the stored token, shows the expiry notice and reloads, before the
context's own error toast. `Session.Login` and `Session.Register` model
this as written.
