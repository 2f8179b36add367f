# cod-blog, modelled in Dafny

cod-blog is a blogging application with two parts. A React client lets readers browse, search, like and save posts. The same client lets writers publish posts from a block editor and lets everyone follow one another. Readers get live notifications over a WebSocket. A Django REST server with Channels keeps the posts, likes, follows and notifications, and sends notification frames to connected browsers.

This project models the decision logic of both halves. One Dafny module stands for each source file:

- **Session and notification channel on the client.**
  - `AuthProvider`: the start-up token check.
  - `PrivateRoute`: the route guard.
  - `UseApi`: the bearer-token interceptor.
  - `WebSocketManager` and `Nav`: the two socket owners.
  - `NotificationsSlice` and `FilterSlice`: the two store slices.
- **Lists, validation and text on the client.**
  - `DynamicSearch`, `Comments`, `ShowNotifications`, `UserProfile`, `ShowPost`, `ActionButton`, `SavedPost`, `AddPost`, `Chatbot` and `Login`.
  - `FormatText`: the `**bold**` splitter.
- **Business rules on the server.**
  - `PostViews`: like toggle, edit, image upload, sorting, delete and search.
  - `PostSerializers`: follow creation, `is_liked`, edit fields.
  - `Signals`: notification rows driven by saves, deletes and like changes.
  - `Consumers`: socket groups and frames.
  - `AccountSerializers`: registration and login.
  - `AccountModels`: the user manager.
  - `BlogDb`: the tables as one `Database` object.

`Base` holds the JavaScript and JSON values. `Text` and `Seqs` hold string and sequence helpers.

How components and responses are modelled:

- A component that keeps state is a class. Its `useState` values are fields, and each handler is a method whose `modifies` clause names the component.
- Toasts, navigations and requests are logs the methods append to.
- Every network reply, timer expiry, socket frame, clock reading and library result is a method parameter. So each handler is proved for every possible outcome of its I/O.
- Pure helpers are functions. A lemma states each property that relates several calls: round trips, order preservation, invariants and counterexamples.

A status that settles an axios promise is a 2xx status (`UseApi.Resolves`). Any other status, or no response at all, takes the `catch` path.

## Model

| member | source | states |
|---|---|---|
| AuthProvider.UsableAccessNeedsNothing | Frontend/codblog/src/components/AuthProvider.jsx:21-26 | an access token that decodes with an `exp` in the future ends the check with no refresh request and no dispatch |
| AuthProvider.RefreshRequestedIff | Frontend/codblog/src/components/AuthProvider.jsx:21-33 | the refresh request goes out exactly when a refresh token is held and the access token is absent, or decodes but has expired |
| AuthProvider.NoTokensLogsOut | Frontend/codblog/src/components/AuthProvider.jsx:50-52 | no usable access token and no refresh token gives `removeLogin` with no request |
| AuthProvider.CheckAuthWith | Frontend/codblog/src/components/AuthProvider.jsx:20-58 | the decision of `checkAuth` for a given response field: a login is saved only after a refresh request went out, for the stored user, marked logged in, with the token the reply carried in that field; a request goes out only while a refresh token is held |
| AuthProvider.Check | Frontend/codblog/src/components/AuthProvider.jsx:20-58 | the check as written agrees with the intended one whenever no refresh request goes out, and a failed request logs out |
| AuthProvider.CheckAuthIntended | Frontend/codblog/src/components/AuthProvider.jsx:34-46 | reading `access`, a saved login carries exactly the token the reply holds under `access` |
| AuthProvider.FailClosed | Frontend/codblog/src/components/AuthProvider.jsx:20-58 | the check dispatches nothing exactly when the access token is usable; a stored access token that does not decode gives `removeLogin` with no request; a failed request, or a refreshed token that does not decode or has expired, gives `removeLogin` |
| AuthProvider.SaveKeepsUser | Frontend/codblog/src/components/AuthProvider.jsx:35-46 | a `saveLogin` carries the refreshed access token (which is unexpired), keeps the stored user, marks the session logged in, and takes the new refresh token or falls back to the old one |
| AuthProvider.AsWrittenRefreshAlwaysLogsOut | Frontend/codblog/src/components/AuthProvider.jsx:34-37 | with the misspelled `aceess` field, every check that sends a refresh request ends in `removeLogin` |
| AuthProvider.IntendedRefreshSaves | Frontend/codblog/src/components/AuthProvider.jsx:34-46 | reading `access`, a reply carrying an unexpired token leads to `saveLogin` with that token |
| AuthProvider.Provider.constructor | Frontend/codblog/src/components/AuthProvider.jsx:16 | the provider starts loading, with nothing dispatched or requested |
| AuthProvider.Provider.Render | Frontend/codblog/src/components/AuthProvider.jsx:67-75 | children render exactly when loading is over |
| AuthProvider.Provider.CheckAuth | Frontend/codblog/src/components/AuthProvider.jsx:19-61 | the step-by-step check sends exactly the request and dispatches exactly the action of the decision function; loading ends on every path, so children render |
| PrivateRoute.Route | Frontend/codblog/src/routes/PrivateRoute.jsx:19-23 | logged in gives the children unchanged; otherwise a replacing `Navigate` to "/" |
| PrivateRoute.Guard.constructor | Frontend/codblog/src/routes/PrivateRoute.jsx:9 | the one-shot flag starts false with no notice shown |
| PrivateRoute.Guard.Effect | Frontend/codblog/src/routes/PrivateRoute.jsx:12-17 | a notice is raised only when logged out and the flag is still false; the flag is then set and never cleared; at most one notice exists |
| PrivateRoute.EffectRuns | Frontend/codblog/src/routes/PrivateRoute.jsx:9-17 | over any sequence of login states, one mounted guard shows exactly one notice if any state was logged out, and none otherwise |
| UseApi.Intercept | Frontend/codblog/src/components/useApi.jsx:13-22 | `Authorization` becomes "Bearer " + token exactly when the token is truthy; every other header and the URL are untouched; without a token the config is returned as it came |
| UseApi.Client.constructor | Frontend/codblog/src/components/useApi.jsx:9-11 | every client uses the fixed base URL and closes over the token it was built with |
| UseApi.Client.Prepare | Frontend/codblog/src/components/useApi.jsx:13-22 | a request through a client keeps its URL; it carries `Authorization: Bearer <token>` for the token the client was built with while that token is truthy, every other header untouched, and goes out unchanged otherwise |
| UseApi.Hook.constructor | Frontend/codblog/src/components/useApi.jsx:8-25 | the first render builds one client for the current token |
| UseApi.Hook.Use | Frontend/codblog/src/components/useApi.jsx:8-25 | a render with the same token returns the cached client without building; a changed token builds exactly one new client bound to it |
| WebSocketManager.SelectedUserId | Frontend/codblog/src/components/socketprovider/WebSocketManager.jsx:6-13 | the selected user id is `undefined` whenever the root state has no `user` slice |
| WebSocketManager.ConfiguredStoreHasNoUser | Frontend/codblog/src/components/socketprovider/WebSocketManager.jsx:6-13 | a root state holding only the reducer keys the store defines and the persistence key `_persist` never yields a truthy id, so no socket opens |
| WebSocketManager.ToastFor | Frontend/codblog/src/components/socketprovider/WebSocketManager.jsx:29-40 | follow and like frames toast their `message`; every other frame toasts its `notification` |
| WebSocketManager.Manager.constructor | Frontend/codblog/src/components/socketprovider/WebSocketManager.jsx:65-66 | mounting opens one socket exactly when the user id is truthy, with no timer and no toast |
| WebSocketManager.Manager.Connect | Frontend/codblog/src/components/socketprovider/WebSocketManager.jsx:12-17 | without a truthy user id nothing happens; otherwise a new socket replaces the ref and nothing else changes |
| WebSocketManager.Manager.OnOpen | Frontend/codblog/src/components/socketprovider/WebSocketManager.jsx:19-22 | opening marks the manager connected and changes nothing else |
| WebSocketManager.Manager.OnMessage | Frontend/codblog/src/components/socketprovider/WebSocketManager.jsx:25-45 | every frame overwrites the unread count with its `unread_count` and raises its toast; the handler then always throws on the undefined reference, after those writes |
| WebSocketManager.Manager.OnError | Frontend/codblog/src/components/socketprovider/WebSocketManager.jsx:48-50 | an error changes no state |
| WebSocketManager.Manager.OnClose | Frontend/codblog/src/components/socketprovider/WebSocketManager.jsx:52-62 | a close marks the manager disconnected and schedules a retry only when no timer is held; at most one timer is pending |
| WebSocketManager.Manager.Fire | Frontend/codblog/src/components/socketprovider/WebSocketManager.jsx:57-60 | the retry reconnects, then empties the timer ref, leaving no pending timer |
| WebSocketManager.Manager.Cleanup | Frontend/codblog/src/components/socketprovider/WebSocketManager.jsx:68-75 | cleanup requests the current socket's close and clears a pending timer, but keeps the cleared timer id in the ref |
| WebSocketManager.CloseAfterCleanup | Frontend/codblog/src/components/socketprovider/WebSocketManager.jsx:52-75 | a close arriving after cleanup, with no timer held, still schedules a retry on the unmounted manager |
| WebSocketManager.CleanupCancelsRetry | Frontend/codblog/src/components/socketprovider/WebSocketManager.jsx:56-75 | cleanup before the retry fires cancels it for good: later closes schedule nothing |
| Nav.Classify | Frontend/codblog/src/components/Nav.jsx:87-108 | every frame sets the count to its `unread_count`; `count_update` raises no toast; comment, follow and like frames toast `message`; all others toast `notification` |
| Nav.InitialTheme | Frontend/codblog/src/components/Nav.jsx:37-44 | a truthy saved theme wins; otherwise dark exactly when the system prefers dark |
| Nav.NextTheme | Frontend/codblog/src/components/Nav.jsx:55-57 | the next theme is light or dark and differs from the current one |
| Nav.ToggleTwiceRestores | Frontend/codblog/src/components/Nav.jsx:55-57 | toggling twice restores the theme exactly when it was light or dark |
| Nav.MenuAfterNavigate | Frontend/codblog/src/components/Nav.jsx:148-151 | navigating always leaves the mobile menu closed |
| Nav.MenuAfterToggle | Frontend/codblog/src/components/Nav.jsx:153-155 | the menu toggle negates the open flag |
| Nav.Bar.constructor | Frontend/codblog/src/components/Nav.jsx:33-81 | the bar starts with the initial theme, the menu closed, no toasts, and one socket exactly when the user id is truthy |
| Nav.Bar.ChangeUser | Frontend/codblog/src/components/Nav.jsx:75-119 | a new user id closes the previous socket and opens one only for a truthy id; at most one socket stays open |
| Nav.Bar.OnMessage | Frontend/codblog/src/components/Nav.jsx:87-108 | the count and the toast log follow the classifier; sockets, theme and menu do not change |
| Nav.Bar.OnError | Frontend/codblog/src/components/Nav.jsx:110-112 | the handler assigned to `socket.error` never changes anything |
| Nav.Bar.OnClose | Frontend/codblog/src/components/Nav.jsx:113-115 | a close only logs: no reconnect, no state change |
| Nav.Bar.ToggleTheme | Frontend/codblog/src/components/Nav.jsx:55-57 | the theme moves to the next theme and nothing else changes |
| Nav.Bar.NavigateTo | Frontend/codblog/src/components/Nav.jsx:148-151 | the menu closes and nothing else changes |
| Nav.Bar.ToggleMobileMenu | Frontend/codblog/src/components/Nav.jsx:153-155 | the menu flag flips and nothing else changes |
| NotificationsSlice.Reduce | Frontend/codblog/src/store/notificationsSlice.js:9-14 | `setUnreadCount` stores its payload unchecked; `resetCount` stores 0 |
| NotificationsSlice.LastWriteWins | Frontend/codblog/src/store/notificationsSlice.js:9-14 | after any non-empty run of actions, the count is what the last action alone gives |
| NotificationsSlice.ExportedRunGivesLastPayload | Frontend/codblog/src/store/notificationsSlice.js:5-18 | from the initial state, a run of the exported action leaves the last payload, or 0 for an empty run |
| NotificationsSlice.Slice.constructor | Frontend/codblog/src/store/notificationsSlice.js:5-7 | the unread count starts at 0 |
| NotificationsSlice.Slice.Dispatch | Frontend/codblog/src/store/notificationsSlice.js:9-14 | a dispatch applies the reducer to the stored count |
| FilterSlice.LastWriteWins | Frontend/codblog/src/store/FilterSlice.jsx:11-13 | after a run of `setSortBy`, the sort key is the last payload, or the old key for an empty run; payloads are not checked |
| FilterSlice.Slice.constructor | Frontend/codblog/src/store/FilterSlice.jsx:3-5 | the sort key starts as "newest" |
| FilterSlice.Slice.SetSortBy | Frontend/codblog/src/store/FilterSlice.jsx:11-13 | the sort key becomes the payload, whatever it is |
| FilterSlice.Slice.DispatchAll | Frontend/codblog/src/store/FilterSlice.jsx:11-13 | dispatching a run in place ends in the state the reducer run gives |
| DynamicSearch.JsRem | Frontend/codblog/src/components/DynamicSearch.jsx:114 | JavaScript `%`: the remainder takes the dividend's sign and is smaller than the divisor in magnitude |
| DynamicSearch.ArrowDownWraps | Frontend/codblog/src/components/DynamicSearch.jsx:113-114 | from any index at or above -1, ArrowDown lands in range: it steps forward and wraps the last hit to the first |
| DynamicSearch.ArrowDownBelowStart | Frontend/codblog/src/components/DynamicSearch.jsx:113-114 | below -1, ArrowDown stays at or below 0 and climbs by one |
| DynamicSearch.ArrowUpSteps | Frontend/codblog/src/components/DynamicSearch.jsx:115-118 | ArrowUp wraps 0 to the last hit and steps back within the list, but turns -1 into the out-of-range -2 |
| DynamicSearch.DisplayTitle | Frontend/codblog/src/components/DynamicSearch.jsx:173-175 | titles up to 24 characters are shown as they are; longer ones as their first 24 characters and "..." |
| DynamicSearch.SearchBox.constructor | Frontend/codblog/src/components/DynamicSearch.jsx:74-78 | empty query and results, dropdown hidden, nothing highlighted (-1) |
| DynamicSearch.SearchBox.Debounced | Frontend/codblog/src/components/DynamicSearch.jsx:81-87 | a call replaces any pending call, so only the last argument will run |
| DynamicSearch.SearchBox.QueryEffect | Frontend/codblog/src/components/DynamicSearch.jsx:105-108 | a query change schedules a search for it and shows the dropdown |
| DynamicSearch.SearchBox.Fire | Frontend/codblog/src/components/DynamicSearch.jsx:89-103 | a whitespace-only query clears the results with no request; otherwise the query is sent, and a failure clears the results |
| DynamicSearch.SearchBox.KeyDown | Frontend/codblog/src/components/DynamicSearch.jsx:110-127 | no results: nothing changes. Arrows move the highlight. Enter on an in-range index copies that title into the query, hides the dropdown, resets the index and navigates to that post |
| Comments.TimeAgo | Frontend/codblog/src/pages/Comments.jsx:61-70 | under 60 s gives seconds (negatives included); then whole minutes below an hour, whole hours below a day, and whole days |
| Comments.IndentationClass | Frontend/codblog/src/pages/Comments.jsx:160-168 | depths 0, 1 and 2 map to ml-0, ml-8 and ml-16; depth 3 and above, and negative depths, map to ml-24 |
| Comments.ReplyLabel | Frontend/codblog/src/pages/Comments.jsx:264-265 | the label is singular exactly for one reply |
| Comments.ParentComments | Frontend/codblog/src/pages/Comments.jsx:474 | the top-level comments are no more than all comments |
| Comments.ParentCommentsMembership | Frontend/codblog/src/pages/Comments.jsx:474 | a comment is top-level exactly when it is listed and has no (truthy) parent |
| Comments.ParentCommentsKeepOrder | Frontend/codblog/src/pages/Comments.jsx:474 | the top-level filter keeps the order of the list |
| Comments.NestedItemsLoggedOut | Frontend/codblog/src/pages/Comments.jsx:398-406 | an item n levels down has depth n and maximum depth 3; below the top level it always believes the user is logged out; Reply is offered only on levels 0 to 2 |
| Comments.Item.constructor | Frontend/codblog/src/pages/Comments.jsx:44-59 | an item starts with no reply open, no edit in progress, and nothing sent |
| Comments.Item.ReplySubmit | Frontend/codblog/src/pages/Comments.jsx:72-109 | a blank reply is refused first and a logged-out reply second, neither with a request; otherwise the reply goes to this comment; a 201 clears the form, reloads and confirms; a thrown error or a non-2xx status toasts "Failed to add reply"; another 2xx status changes nothing |
| Comments.Item.EditComment | Frontend/codblog/src/pages/Comments.jsx:111-115 | editing records the comment id and its current text, nothing else |
| Comments.Item.UpdateComment | Frontend/codblog/src/pages/Comments.jsx:117-138 | logged out: refused with a toast. Otherwise the patch is sent; a 2xx status clears the edit state but neither reloads nor confirms; a thrown error or a non-2xx status keeps the edit open, silently |
| Comments.Item.CancelEdit | Frontend/codblog/src/pages/Comments.jsx:140-143 | cancelling clears the edit state, nothing else |
| Comments.Item.DeleteComment | Frontend/codblog/src/pages/Comments.jsx:145-158 | the delete is sent; only a 200 or 204 reloads and confirms; every other outcome, rejected or not, is silent |
| Comments.Thread.constructor | Frontend/codblog/src/pages/Comments.jsx:415-419 | the thread starts with an empty form and nothing sent |
| Comments.Thread.CreateComment | Frontend/codblog/src/pages/Comments.jsx:445-472 | a blank comment is refused with no request; otherwise a top-level comment is sent; a 201 clears the form, reloads and confirms; a thrown error or a non-2xx status toasts "Failed to add comment"; another 2xx status changes nothing |
| ShowNotifications.CountsOf | Frontend/codblog/src/pages/ShowNotifications.jsx:40-51 | the per-type counts sum to at most the list length, and the unread count is at most the list length |
| ShowNotifications.CommentLikeFollowDisjoint | Frontend/codblog/src/pages/ShowNotifications.jsx:40-51 | the comment, like and follow filters never overlap |
| ShowNotifications.TabItems | Frontend/codblog/src/pages/ShowNotifications.jsx:59-69 | any tab other than General and Followers shows the whole list |
| ShowNotifications.TabItemsExact | Frontend/codblog/src/pages/ShowNotifications.jsx:59-69 | General shows exactly the comments and likes; Followers exactly the follows; any other tab everything |
| ShowNotifications.TabItemsKeepOrder | Frontend/codblog/src/pages/ShowNotifications.jsx:59-69 | every tab keeps the list's order |
| ShowNotifications.TabCount | Frontend/codblog/src/pages/ShowNotifications.jsx:130-134 | with counts computed from the list, a tab's badge lies between 0 and the list's length |
| ShowNotifications.TabCountMatchesItems | Frontend/codblog/src/pages/ShowNotifications.jsx:130-134 | with counts computed from the list, each tab's badge equals the number of items the tab shows |
| ShowNotifications.MarkedRead | Frontend/codblog/src/pages/ShowNotifications.jsx:84-87 | every notification is marked read, with its other fields and its position kept |
| ShowNotifications.MarkedReadCounts | Frontend/codblog/src/pages/ShowNotifications.jsx:84-87 | after marking all read, the per-type counts are unchanged and the unread count is 0 |
| ShowNotifications.ItemAction | Frontend/codblog/src/pages/ShowNotifications.jsx:244-250 | a read item offers `mark_unread`, an unread one `mark_read` |
| ShowNotifications.NotificationText | Frontend/codblog/src/pages/ShowNotifications.jsx:102-113 | the sentence for like, comment and follow, and the fallback for any other type |
| ShowNotifications.GetTimeAgo | Frontend/codblog/src/pages/ShowNotifications.jsx:115-128 | "Just now" under a minute, then floor-divided minutes below an hour, hours below a day, and days |
| ShowNotifications.Page.constructor | Frontend/codblog/src/pages/ShowNotifications.jsx:16-28 | the page starts loading on the All tab with an empty list and zero counts |
| ShowNotifications.Page.Fetch | Frontend/codblog/src/pages/ShowNotifications.jsx:34-57 | a list replaces the notifications and all counts are recomputed from it; a failure keeps both; loading ends either way |
| ShowNotifications.Page.MarkAllAsRead | Frontend/codblog/src/pages/ShowNotifications.jsx:84-87 | every notification becomes read and only the unread count changes, to 0 |
| ShowNotifications.Page.NotificationAction | Frontend/codblog/src/pages/ShowNotifications.jsx:71-82 | the item's action is posted; a success reloads the list, a failure keeps it |
| ShowNotifications.Page.ShowMarkAll | Frontend/codblog/src/pages/ShowNotifications.jsx:151-158 | "Mark all read" is offered exactly when some notification is unread |
| ShowNotifications.UnreadCountPositive | Frontend/codblog/src/pages/ShowNotifications.jsx:40-51 | the unread count is positive exactly when some notification is unread |
| UserProfile.SearchFilter | Frontend/codblog/src/pages/UserProfile.jsx:76-92 | the filtered list is no longer than the posts |
| UserProfile.SearchFilterMembership | Frontend/codblog/src/pages/UserProfile.jsx:78-86 | a post is kept exactly when its lower-cased title or description contains the lower-cased search |
| UserProfile.EmptySearchKeepsAll | Frontend/codblog/src/pages/UserProfile.jsx:78-86 | an empty search keeps every post in order |
| UserProfile.Without | Frontend/codblog/src/pages/UserProfile.jsx:111 | exactly the posts with another id remain |
| UserProfile.RefilterAfterDelete | Frontend/codblog/src/pages/UserProfile.jsx:116-122 | the re-filter after a delete, which reads `content`, returns only posts from its input, or throws (None) |
| UserProfile.Profile.constructor | Frontend/codblog/src/pages/UserProfile.jsx:24-40 | no user yet, an empty search, a page size of 10, nothing displayed, loading |
| UserProfile.Profile.FilterEffect | Frontend/codblog/src/pages/UserProfile.jsx:76-92 | once posts exist, the filtered list, the displayed prefix and `hasMore` are recomputed; without posts nothing changes |
| UserProfile.Profile.Fetch | Frontend/codblog/src/pages/UserProfile.jsx:49-74 | a profile with posts fills the filtered and displayed lists; one without gives empty lists; a failure toasts and keeps them; loading ends |
| UserProfile.Profile.SearchChange | Frontend/codblog/src/pages/UserProfile.jsx:94-97 | a new search resets the page size to 10 and displays the first page of its matches |
| UserProfile.Profile.ShowMore | Frontend/codblog/src/pages/UserProfile.jsx:99-104 | the page size grows by exactly 10; the display becomes that prefix; `hasMore` holds exactly when matches remain beyond it |
| UserProfile.Profile.DeletePost | Frontend/codblog/src/pages/UserProfile.jsx:106-137 | as written: a confirmed delete is sent; any response that settles leaves every list unchanged; a failure toasts |
| UserProfile.Profile.Delete404Branch | Frontend/codblog/src/pages/UserProfile.jsx:110-129 | the 404 branch drops the id from the posts and from the display, then confirms, or reports failure when the re-filter throws |
| UserProfile.Profile.DeletePostIntended | Frontend/codblog/src/pages/UserProfile.jsx:106-137 | with the branch on a settled response, a confirmed delete removes the post from the posts and the display |
| UserProfile.ShownPostsAvoid | Frontend/codblog/src/pages/UserProfile.jsx:111-123 | with the id gone from the posts, no displayed page contains it |
| UserProfile.DisplayedIsPrefix | Frontend/codblog/src/pages/UserProfile.jsx:99-104 | the displayed posts are a prefix of the filtered list no longer than the page size; `hasMore` holds exactly when the prefix is shorter than the list |
| UserProfile.PostsAfterDeleteAsWritten | Frontend/codblog/src/pages/UserProfile.jsx:106-129 | the profile's posts after the delete as written: no outcome of the delete changes them, because the removal is guarded by a 404 that never settles |
| UserProfile.AsWrittenDeleteKeepsPost | Frontend/codblog/src/pages/UserProfile.jsx:106-129 | for any post on the profile, the author's delete answered 200 leaves that post in the posts, while the intended removal drops it |
| ShowPost.RenderBlock | Frontend/codblog/src/pages/ShowPost.jsx:113-183 | a header renders as h{level}, with a missing or zero level read as 1; unknown types render nothing |
| ShowPost.SavedIds | Frontend/codblog/src/pages/ShowPost.jsx:202-204 | the saved set holds exactly the ids in the response |
| ShowPost.LikeLabel | Frontend/codblog/src/pages/ShowPost.jsx:375 | the label is "Like" exactly when the count is 1, "Likes" otherwise |
| ShowPost.Page.constructor | Frontend/codblog/src/pages/ShowPost.jsx:189-196 | not liked, zero likes, no saved ids |
| ShowPost.Page.FetchSavedIds | Frontend/codblog/src/pages/ShowPost.jsx:198-211 | only a signed-in reader fetches; a reply replaces the saved set; a failure keeps it |
| ShowPost.Page.LikeToggle | Frontend/codblog/src/pages/ShowPost.jsx:231-255 | the optimistic values flip the like and move the count by one; a 200 with data adopts the server's values; a failure restores the pre-click values and warns (401) or errors |
| ActionButton.Click | Frontend/codblog/src/components/ActionButton.jsx:57-75 | share wins over save; a falsy post id does neither |
| ActionButton.Title | Frontend/codblog/src/components/ActionButton.jsx:87-95 | a save button's title follows `isSaved`; a share button's is "Share post"; any other is empty |
| ActionButton.ToggleFlipsOnlyPost | Frontend/codblog/src/components/ActionButton.jsx:33-47 | when the props snapshot agrees with the current set, a successful toggle flips that post's membership and no other |
| ActionButton.Button.constructor | Frontend/codblog/src/components/ActionButton.jsx:7-21 | not saving, nothing sent |
| ActionButton.Button.SaveToggle | Frontend/codblog/src/components/ActionButton.jsx:24-55 | signed out: a toast, no request, `saving` untouched. Otherwise `saving` holds while the request is out and is false after it. 200/201 toggles against the snapshot; a failure keeps the set |
| SavedPost.ShownTags | Frontend/codblog/src/pages/SavedPost.jsx:228-237 | at most the first three tags are shown, in order |
| SavedPost.MoreTags | Frontend/codblog/src/pages/SavedPost.jsx:238-242 | "+N more" appears exactly when there are more than three tags, with N the hidden count |
| SavedPost.ProfileImageUrl | Frontend/codblog/src/pages/SavedPost.jsx:182-186 | a URL starting with "http" is used as is; anything else gets the media host prefix |
| SavedPost.Unsaved | Frontend/codblog/src/pages/SavedPost.jsx:100 | exactly the cards with another id remain |
| SavedPost.UnsavedKeepsOrder | Frontend/codblog/src/pages/SavedPost.jsx:100 | removal keeps the order of the other cards |
| SavedPost.UnsavedAbsentId | Frontend/codblog/src/pages/SavedPost.jsx:100 | unsaving an id that is not on the page changes nothing |
| SavedPost.Page.constructor | Frontend/codblog/src/pages/SavedPost.jsx:23-30 | no cards, loading, nothing sent |
| SavedPost.Page.Fetch | Frontend/codblog/src/pages/SavedPost.jsx:57-80 | signed out: navigate to /login with no request; otherwise one request, whose reply replaces the cards or whose failure toasts |
| SavedPost.Page.UnsavePost | Frontend/codblog/src/pages/SavedPost.jsx:94-107 | 200/201 removes exactly that card and confirms; a failure keeps the list and toasts |
| AddPost.TitleOf | Frontend/codblog/src/pages/AddPost.jsx:132-141 | the title is the trimmed text of the first block when it is a non-blank header, else "Untitled Post"; never empty |
| AddPost.TitleIgnoresLaterBlocks | Frontend/codblog/src/pages/AddPost.jsx:132-141 | two contents with the same first block get the same title |
| AddPost.UploadField | Frontend/codblog/src/pages/AddPost.jsx:75-77 | "<username>-post-image" for a truthy username, "post-image" otherwise |
| AddPost.Publishable | Frontend/codblog/src/pages/AddPost.jsx:37-53 | content that can be saved has a header with visible text and a paragraph of at least 50 trimmed characters, so it holds at least two blocks |
| AddPost.Editor.constructor | Frontend/codblog/src/pages/AddPost.jsx:14-15 | saving starts disabled with nothing sent |
| AddPost.Editor.OnChange | Frontend/codblog/src/pages/AddPost.jsx:33-57 | the scan enables saving exactly when some header has non-blank text and some paragraph has at least 50 trimmed characters |
| AddPost.Editor.Save | Frontend/codblog/src/pages/AddPost.jsx:114-158 | no editor or no blocks aborts with no request; otherwise exactly the content and its title are sent |
| Chatbot.AssistantMessage | Frontend/codblog/src/components/Chatbot.jsx:29-39 | the assistant's message is the reply, or the fixed apology on failure |
| Chatbot.PairedExtend | Frontend/codblog/src/components/Chatbot.jsx:24-39 | a user question followed by its answer keeps the log in question/answer pairs |
| Chatbot.PairedHalfUser | Frontend/codblog/src/components/Chatbot.jsx:24-39 | a paired log has even length and is half user messages |
| Chatbot.Panel.constructor | Frontend/codblog/src/components/Chatbot.jsx:13-16 | empty log and input, not loading |
| Chatbot.Panel.Type | Frontend/codblog/src/components/Chatbot.jsx:273-275 | typing replaces the input, except while an answer is awaited (the box is disabled) |
| Chatbot.Panel.Submit | Frontend/codblog/src/components/Chatbot.jsx:19-28 | a submit is accepted exactly when the trimmed input is non-empty and nothing is loading; it then appends the untrimmed input, clears the box and starts loading; otherwise nothing changes |
| Chatbot.Panel.Complete | Frontend/codblog/src/components/Chatbot.jsx:29-42 | exactly one assistant message is appended, and loading ends |
| Chatbot.Panel.AutoSuggest | Frontend/codblog/src/components/Chatbot.jsx:45-48 | the suggestion is typed but the submit uses the previous input; with a blank previous input the suggestion stays in the box unsent |
| Chatbot.SuggestionOnFreshPanel | Frontend/codblog/src/components/Chatbot.jsx:45-48 | on a fresh panel, a suggestion sends nothing |
| Login.LastDot | Frontend/codblog/src/pages/Login.jsx:33 | the position of the last '.', or none |
| Login.FirstAt | Frontend/codblog/src/pages/Login.jsx:33 | the position of the first '@', or none |
| Login.EmailMatchesByCuts | Frontend/codblog/src/pages/Login.jsx:33 | the email regex matches exactly when the text cuts at its first '@' and its last '.' into allowed non-empty parts |
| Login.PasswordValidIff | Frontend/codblog/src/pages/Login.jsx:34-40 | a password passes exactly when it has at least 6 characters, none a line terminator, with a lower-case letter, an upper-case letter, a digit and one of !@#$%^&* |
| Login.PasswordValid | Frontend/codblog/src/pages/Login.jsx:34-40 | a password the schema accepts has a lower-case letter, an upper-case letter, a digit and one of !@#$%^&* |
| Login.UsernameValid | Frontend/codblog/src/pages/Login.jsx:44-47 | an accepted username, once trimmed, has no space and no '@' |
| Login.EmailValid | Frontend/codblog/src/pages/Login.jsx:29-33 | an accepted email, once trimmed, has at least 5 characters and an '@' |
| Login.LoginFormValid | Frontend/codblog/src/pages/Login.jsx:28-41 | a login form that passes has a password of at least 6 characters and an email with an '@' |
| Login.SignupFormValid | Frontend/codblog/src/pages/Login.jsx:43-66 | a signup form that passes has matching passwords of at least 6 characters, a username without spaces and an email with an '@' |
| Login.Page.constructor | Frontend/codblog/src/pages/Login.jsx:14-20 | login mode, an empty signup form, nothing sent |
| Login.Page.Mount | Frontend/codblog/src/pages/Login.jsx:22-26 | a truthy stored access token navigates to "/" |
| Login.Page.SubmitLogin | Frontend/codblog/src/pages/Login.jsx:76-95 | an invalid form sends nothing; a 200 stores exactly the reply's access token, refresh token and user; a failure toasts "Invalid Credentials" |
| Login.Page.SubmitSignup | Frontend/codblog/src/pages/Login.jsx:97-111 | an invalid form sends nothing; a 201 resets the form and switches to login mode; anything else changes no form state |
| FormatText.Close | Frontend/codblog/src/utils/formatText.jsx:2 | the closing "**" found is the first one after the opening, with no line terminator before it |
| FormatText.MatchEnd | Frontend/codblog/src/utils/formatText.jsx:2 | a bold match spans at least the four marker characters |
| FormatText.FormatWithoutMarkers | Frontend/codblog/src/utils/formatText.jsx:1-4 | text with no "**" comes back unchanged |
| FormatText.Format | Frontend/codblog/src/utils/formatText.jsx:1-4 | `formatText` never shortens its input, and gives the empty string exactly for the empty string |
| FormatText.SplitLines | Frontend/codblog/src/utils/formatText.jsx:9 | every text splits into at least one line |
| FormatText.SplitLinesSound | Frontend/codblog/src/utils/formatText.jsx:9 | newline-free lines, one more than the newlines, joining back to the text |
| FormatText.SplitFrom | Frontend/codblog/src/utils/formatText.jsx:11 | the split alternates plain text and matches, so it has odd length |
| FormatText.SplitBold | Frontend/codblog/src/utils/formatText.jsx:11 | the capturing split of a line has odd length |
| FormatText.SplitFromConcat | Frontend/codblog/src/utils/formatText.jsx:11 | the segments concatenate back to the text |
| FormatText.SplitBoldConcat | Frontend/codblog/src/utils/formatText.jsx:11 | a line's segments concatenate back to the line |
| FormatText.SplitFromShape | Frontend/codblog/src/utils/formatText.jsx:11 | every odd-indexed segment is a bold match |
| FormatText.SplitBoldMatches | Frontend/codblog/src/utils/formatText.jsx:11 | every odd-indexed segment of a line is a bold match |
| FormatText.Inner | Frontend/codblog/src/utils/formatText.jsx:13 | `slice(2, -2)`: the segment without two characters at each end, or empty when it is shorter than four |
| FormatText.RenderSegment | Frontend/codblog/src/utils/formatText.jsx:12-15 | a segment is bold exactly when it starts and ends with "**", showing its inner text; otherwise it is shown as is |
| FormatText.RenderLine | Frontend/codblog/src/utils/formatText.jsx:11-16 | one node per segment, each rendered on its own |
| FormatText.Markup | Frontend/codblog/src/utils/formatText.jsx:11-14 | the HTML of a line's segments grows by the 17 tag characters for each match |
| FormatText.FormatToJsx | Frontend/codblog/src/utils/formatText.jsx:6-19 | null for absent or empty text; otherwise one paragraph per line (newlines + 1), each its rendered line |
| FormatText.MatchesRenderBold | Frontend/codblog/src/utils/formatText.jsx:11-14 | every match the split captures renders bold |
| FormatText.BareMarkersRenderEmptyBold | Frontend/codblog/src/utils/formatText.jsx:12-14 | a line "**" or "***" renders as empty bold |
| FormatText.FormatAgreesAtMatch | Frontend/codblog/src/utils/formatText.jsx:1-14 | one step of the agreement between replace and split, at a bold match |
| FormatText.FormatAgreesFrom | Frontend/codblog/src/utils/formatText.jsx:1-14 | from any point, marking up the split gives the replaced text |
| FormatText.FormatAgreesWithSplit | Frontend/codblog/src/utils/formatText.jsx:1-14 | `formatText` of a line equals its split segments with the matches wrapped in strong tags: the two functions agree |
| BlogDb.Database.constructor | backend/codblog/accounts/models.py:26-36 | empty tables; the first user key is 1 |
| PostViews.Toggled | backend/codblog/posts/views.py:229-244 | a liker is removed and the count drops by one but not below 0; anyone else is added and the count grows by one; the other fields are untouched |
| PostViews.ToggleKeepsCountNonNegative | backend/codblog/posts/views.py:230-240 | a toggle never leaves a negative count, given a non-negative count or a removal |
| PostViews.ToggleTwiceRestores | backend/codblog/posts/views.py:229-244 | toggling twice restores a post whose count is consistent with its likers |
| PostViews.TitleScan | backend/codblog/posts/views.py:180-185 | the scan gives no title exactly when no block is a header; a non-empty title comes from a header with visible text |
| PostViews.TitleAccepted | backend/codblog/posts/models.py:16 | the title column accepts only a present, non-empty title of at most 200 characters |
| PostViews.LikeToggle | backend/codblog/posts/views.py:220-244 | a missing post gives 404 with no change; otherwise the post is toggled, the reply's likes and is_liked match the stored post, and the like signal runs for that user |
| PostViews.TitleScanMeaning | backend/codblog/posts/views.py:180-185 | no header gives no title; the first header with non-blank text gives its stripped text; only blank headers give "" |
| PostViews.ScanTitle | backend/codblog/posts/views.py:180-185 | the loop with its early exit computes the title scan |
| PostViews.EditPost | backend/codblog/posts/views.py:175-201 | no content raises (500); a missing post gives 404; 200 exactly when the scanned title is accepted and the content valid, writing only title and content; otherwise nothing changes |
| PostViews.UploadImage | backend/codblog/posts/views.py:43-56 | no image gives "No image found." and one over 5 MiB the size message; otherwise the reply names the path the storage returned, or the storage's error escapes unhandled |
| PostViews.LastSegment | backend/codblog/posts/views.py:73 | the filename is the suffix of the URL after its last '/', with no '/' in it |
| PostViews.FetchUrl | backend/codblog/posts/views.py:61-80 | no URL gives "No URL provided."; a status other than 200 gives "Failed to download image." and a body over 5 MiB "Image is larger than 5MB."; saved exactly when the download succeeds with 200 and at most 5 MiB and the storage stores the file, under the path it returned; a download or storage error is caught and reported as "Error fetching image: " and its message; nothing escapes |
| PostViews.TrailingSlashNotSaved | backend/codblog/posts/views.py:73-80 | a URL ending in '/' has an empty last segment, which the storage refuses, so nothing is saved |
| PostViews.StorageErrorEscapesOnlyUpload | backend/codblog/posts/views.py:43-80 | the same storage error, after an image both views accept, escapes `upload_image` unhandled (a 500) but is caught and reported by `fetch_url` |
| PostViews.SortFor | backend/codblog/posts/views.py:89-107 | oldest, most_liked and least_liked map to their orderings; anything else, or nothing, means newest |
| PostViews.LikedOrderingsDegenerate | backend/codblog/posts/views.py:98-103 | as written, most liked orders exactly as newest and least liked exactly as oldest |
| PostViews.AsWrittenMostLikedIgnoresLikes | backend/codblog/posts/views.py:98-100 | a post with five likes is placed after a newer post with none |
| PostViews.IntendedMostLikedOrdersByLikes | backend/codblog/posts/views.py:98-103 | counting the like column, more likes come first in most liked and last in least liked, ties by date |
| PostViews.DeletePost | backend/codblog/posts/views.py:161-169 | only the author's delete removes the post (200); anyone else, or a missing post, gets 404 with no change |
| PostViews.Search | backend/codblog/posts/views.py:207-217 | an empty query finds nothing; otherwise exactly the posts whose title or author's username contains the query, ignoring case |
| PostViews.SearchFindsTitles | backend/codblog/posts/views.py:209-212 | a post whose title contains a non-empty query is found, whatever the letter case of the query |
| PostSerializers.IsLiked | backend/codblog/posts/serializers.py:31-37 | true exactly for an authenticated requester in the post's likers; false without a request or a user |
| PostSerializers.CreateFollow | backend/codblog/posts/serializers.py:96-109 | following oneself is refused; an existing pair is refused; otherwise exactly one row is added and the followed user notified; rows stay unique |
| PostSerializers.ApplyEdit | backend/codblog/posts/serializers.py:40-43 | an edit writes title and content and keeps every other field |
| Signals.LikeNote | backend/codblog/posts/signals.py:61-66 | the row created is a like notification from the liker to the author, for the post |
| Signals.AddLikes | backend/codblog/posts/signals.py:49-66 | the `post_add` branch keeps every row and adds at most one row per liker |
| Signals.AddLikesAppends | backend/codblog/posts/signals.py:49-66 | adding likes only appends rows, each a like for the post from a liker other than the author |
| Signals.AddLikesKeepsUnique | backend/codblog/posts/signals.py:52-59 | at most one like notification per (author, liker, post) stays true |
| Signals.HasLikeGrows | backend/codblog/posts/signals.py:52-57 | a like notification present stays present when rows are appended |
| Signals.AddLikesCovers | backend/codblog/posts/signals.py:49-66 | afterwards every liker other than the author has a like notification |
| Signals.RemoveLikes | backend/codblog/posts/signals.py:68-76 | the `post_remove` branch only drops rows, and every row left is not a like to the author about the post from one of those users |
| Signals.RemoveFollowNotes | backend/codblog/posts/signals.py:34-42 | the follow-delete handler only drops rows, and no follow notification for the pair is left |
| Signals.RemoveLikesClears | backend/codblog/posts/signals.py:68-76 | afterwards no like notification for those likers remains, and every other row does |
| Signals.RemoveFollowNotesClears | backend/codblog/posts/signals.py:34-42 | no follow notification for the pair remains, and every other row does |
| Signals.OnCommentSaved | backend/codblog/posts/signals.py:9-21 | a new comment by someone other than the author queues one comment notification to the author; other saves add nothing |
| Signals.OnFollowSaved | backend/codblog/posts/signals.py:23-31 | a new follow creates one follow notification to the followed user from the follower |
| Signals.OnFollowDeleted | backend/codblog/posts/signals.py:34-42 | deleting a follow removes that pair's follow notifications |
| Signals.OnLikeChanged | backend/codblog/posts/signals.py:45-76 | post_add adds like notifications, post_remove removes them, any other action changes nothing; the loops over the likers compute exactly that |
| Consumers.GroupName | backend/codblog/posts/consumers.py:10-11 | "user_" followed by the id from the URL |
| Consumers.GroupNameInjective | backend/codblog/posts/consumers.py:10-11 | two users never share a group |
| Consumers.PyGet | backend/codblog/posts/consumers.py:36-39 | `event.get(key)`: the value, or null |
| Consumers.PyGetOr | backend/codblog/posts/consumers.py:45-52 | `event.get(key, default)`: the value, or the default |
| Consumers.NotificationFrame | backend/codblog/posts/consumers.py:34-40 | exactly type, message and unread_count, each copied from the event or null |
| Consumers.UnfollowFrame | backend/codblog/posts/consumers.py:42-47 | no frame exactly when the event lacks `notification`; otherwise type, notification and unread_count, the count defaulting to 0 |
| Consumers.CountUpdateFrame | backend/codblog/posts/consumers.py:49-53 | exactly type and unread_count, defaulting to count_update and 0 |
| Consumers.CountUpdateIsSilent | backend/codblog/posts/consumers.py:49-53 | a count update reaches the navigation bar as a count change with no toast |
| Consumers.MessageEventToasts | backend/codblog/posts/consumers.py:34-40 | a comment, follow or like event reaches the bar as a toast of its message and its count |
| Consumers.UntypedEventToastsUndefined | backend/codblog/posts/consumers.py:34-40 | an event without a type is sent with type null, and the bar toasts `undefined` |
| Consumers.UnfollowEventToasts | backend/codblog/posts/consumers.py:42-47 | an unfollow event reaches the bar as a toast of its notification |
| Consumers.Layer.constructor | backend/codblog/posts/consumers.py:12 | the channel layer starts with no groups |
| Consumers.Layer.Members | backend/codblog/posts/consumers.py:12 | an unknown group has no members |
| Consumers.Layer.GroupAdd | backend/codblog/posts/consumers.py:12 | the channel joins the group and no other group changes |
| Consumers.Layer.GroupDiscard | backend/codblog/posts/consumers.py:26 | the channel leaves the group and no other group changes |
| Consumers.IsValidUser | backend/codblog/posts/consumers.py:55-60 | a user is valid exactly when the lookup finds one; a failing lookup counts as no user |
| Consumers.Consumer.constructor | backend/codblog/posts/consumers.py:9 | no group, neither accepted nor closed, nothing sent |
| Consumers.Consumer.Connect | backend/codblog/posts/consumers.py:9-20 | the group name is always set; an existing user joins it and is accepted; anyone else is closed and the layer is untouched |
| Consumers.Consumer.Disconnect | backend/codblog/posts/consumers.py:22-32 | the channel leaves its group; before connect, or when the discard fails, the failure is swallowed and nothing changes |
| Consumers.Consumer.SendNotification | backend/codblog/posts/consumers.py:34-40 | exactly the notification frame is sent |
| Consumers.Consumer.SendUnfollowNotification | backend/codblog/posts/consumers.py:42-47 | the handler raises, sending nothing, exactly when `notification` is missing; otherwise the unfollow frame is sent |
| Consumers.Consumer.SendCountUpdate | backend/codblog/posts/consumers.py:49-53 | exactly the count-update frame is sent |
| Consumers.ConnectThenDisconnect | backend/codblog/posts/consumers.py:9-32 | connecting then disconnecting leaves every group as it was |
| AccountModels.SetDefault | backend/codblog/accounts/models.py:16 | a supplied value is kept; a missing key gets the default; no other key changes |
| AccountModels.LastAt | backend/codblog/accounts/models.py:9 | the position of the last '@', or none when there is no '@' |
| AccountModels.NormalizeEmail | backend/codblog/accounts/models.py:9 | an address without '@' is kept as it came; the result is empty exactly when the address is |
| AccountModels.LastAtSplit | backend/codblog/accounts/models.py:9 | in name@domain with no '@' in the domain, the last '@' is the one after the name |
| AccountModels.NormalFormFixed | backend/codblog/accounts/models.py:9 | a stripped address with a lower-case domain is its own normal form |
| AccountModels.DomainPart | backend/codblog/accounts/models.py:9 | the lower-cased domain has no '@', does not end in whitespace, and lower-cases to itself |
| AccountModels.NormalizeEmailIdempotent | backend/codblog/accounts/models.py:9 | normalising twice gives the same address as once |
| AccountModels.Stored | backend/codblog/accounts/models.py:11 | no password gives an unusable password; any other is stored hashed |
| AccountModels.CreateUserRow | backend/codblog/accounts/models.py:6-13 | a missing or empty email raises before anything is saved; a clashing email or username is refused by the unique columns; otherwise one row with the normalised email and the stored password under the next key; unique users stay unique |
| AccountModels.CreateUser | backend/codblog/accounts/models.py:15-17 | as the row creation, with `is_active` defaulting to true without overriding a supplied value |
| AccountModels.CreateSuperuser | backend/codblog/accounts/models.py:19-23 | as the row creation, with `is_staff` and `is_superuser` defaulting to true without overriding supplied values |
| AccountSerializers.CharField | backend/codblog/accounts/serializers.py:9-10 | an absent field is missing; a field blank after stripping is refused; otherwise its stripped, non-empty value |
| AccountSerializers.RegisterFieldErrors | backend/codblog/accounts/serializers.py:9-20 | the refused fields: any blank or absent field; a username in use; an email in use or malformed; a password under 8 characters |
| AccountSerializers.RegisterOutcomeOf | backend/codblog/accounts/serializers.py:5-30 | field errors first, then the password mismatch, then the create; the mismatch is reported only when every field passed |
| AccountSerializers.IntendedNeverServerError | backend/codblog/accounts/serializers.py:16-20 | checking the stored form of the email, a request the serializer lets through is never refused by the unique columns |
| AccountSerializers.NormalizesDomain | backend/codblog/accounts/models.py:9 | the manager stores "amy@X.io" as "amy@x.io" |
| AccountSerializers.FieldsPass | backend/codblog/accounts/serializers.py:9-20 | stripped, non-empty fields, a long enough password, and an unused email and username pass the field checks |
| AccountSerializers.AsWrittenDomainCaseServerError | backend/codblog/accounts/serializers.py:16-20 | with amy@x.io registered, registering amy@X.io passes the email check and then fails on the unique column |
| AccountSerializers.Register | backend/codblog/accounts/serializers.py:27-30 | the view's outcome is the decision above; a registration stores the normalised email, the username, the hashed password and an active flag, dropping the confirmation; a refusal changes nothing |
| AccountSerializers.ClientMinimumBelowServer | backend/codblog/accounts/serializers.py:9 | a six-character password the client accepts is refused by the server's 8-character minimum |
| AccountSerializers.LoginFieldErrors | backend/codblog/accounts/serializers.py:33-34 | the email is refused when blank or malformed, the password when blank |
| AccountSerializers.LogIn | backend/codblog/accounts/serializers.py:36-53 | field errors come first; the "required" error never occurs; an unknown email gives "Invalid email" before any password check; a wrong password gives "password is incorrect"; success names a user with that email whose password matches |

## Left out

- Rendering, styling, animation and icons. A toast is a string in a log. The per-type icons of the notifications page are not modelled.
- Network I/O, the socket transport, Django Channels' delivery, Redis and Celery. Replies, frames and lookups are parameters. The comment notification that Celery would queue is written at once.
- Real time. Timestamps are whole milliseconds and `Date.now() / 1000` becomes an integer comparison. Timers are a pending flag plus an explicit fire event.
- `jwtDecode` internals: a token is opaque, with optional claims and an optional integer `exp`.
- The LLM call behind the chatbot (the Gemini client): its answer or failure is a parameter.
- The EditorJS lifecycle in the post editor, and the separate edit page: block lists are parameters.
- Yup's built-in `.email()` check. Only the schema's own regular expressions are modelled.
- Django's `authenticate` and `set_password` internals. A password is stored as an opaque `Hashed` value.
- Simple JWT token minting.
- DRF serializer plumbing. Well-formedness of an e-mail address is a boolean parameter (`wellFormed`). Username validators and maximum lengths are not modelled.
- Whether `PostEditSerializer` accepts the rest of the content: a boolean parameter (`contentAccepted`).
- ORM query machinery. A search result is a set of post ids, with no order. Posts in the sort are compared pairwise (`Precedes`) rather than sorted.
- The order in which the like signal's loop visits its user set: the model visits a sequence.
- Lower-casing (`ToLower`) maps ASCII letters only, both in the profile search and in `normalize_email`. Python and JavaScript map all of Unicode.
- String lengths count characters, not the UTF-16 code units JavaScript counts.
- JSON values are null, booleans, integers and strings. There are no floats and no nested objects.
- The redux-persist configuration of the store (store.js) is not part of this model. Only its reducer keys are used, in `WebSocketManager.ConfiguredStoreHasNoUser`.
- The post model file of the server (posts/models.py) is not part of this model, apart from the title column's 200-character limit. It does not declare the `liked_by` relation the views and signals use, so the tables follow the views.
- `PostViews.UploadImage`, `PostViews.FetchUrl`: the file storage is not modelled. What it did with the requested name is a parameter: the name it returned, which differs from the one asked for when that is taken, or its error. `PostViews.StorageBehaves` states only that it refuses a name with an empty, "." or ".." file part.
- `PostViews.EditPost`, `PostViews.TitleScan`: blocks are assumed well typed. In `edit_post` a header whose `text` is JSON null, or a block or `data` that is not an object, raises while the title is scanned, outside the `try` (a 500); the model reads such a header as having no text.
- The like and comment count next to a saved-post card's action button: it is a rendering detail.
- Routing and app wiring, the home, user-detail and slide pages, and the glitch effect: they have no decision logic.
- The profile page's profile update and image preview handlers: they only forward a form to the server.
- `Nav.ShowBadge`: the badge test `unread_count > 0` is a predicate with no contract. It treats a string count as false rather than comparing it numerically.
- `AccountSerializers.LogIn`: the "Email and password are required." branch is modelled, but it is unreachable. The field layer refuses a blank field first, and the contract states that it never happens.
- `PostViews.TitleScanMeaning`: the source gives an empty title, not none, when every header is blank. The contract states this, and `PostViews.TitleAccepted` then refuses the empty title.
- The client's password minimum (6) is below the server's (8); `AccountSerializers.ClientMinimumBelowServer` states the gap.

## Findings

| source | as written | input that shows it | evidently intended | confidence | as-written member | corrected member |
|---|---|---|---|---|---|---|
| Frontend/codblog/src/components/AuthProvider.jsx:34-37 | the refreshed access token is read from the field `aceess`, which the token endpoint never returns, so `jwtDecode` throws and the check logs out | a stored refresh token, an expired access token, and a reply `{access: <valid token>}` | read the field `access` and save the new session | high, not executed | AuthProvider.AsWrittenRefreshAlwaysLogsOut | AuthProvider.IntendedRefreshSaves |
| Frontend/codblog/src/pages/UserProfile.jsx:109-122 | the local removal runs only when the delete answers 404, which rejects the promise; the server's success (200) leaves the post on screen | deleting one's own post, answered with 200 | remove the post locally on a successful delete | high, not executed | UserProfile.AsWrittenDeleteKeepsPost | UserProfile.Profile.DeletePostIntended |
| backend/codblog/posts/views.py:98-103 | `Count('like')` counts a post's own integer column, which is 1 for every post, so the like orderings fall back to the date | a post with 5 likes created before a post with 0 likes, sorted most_liked | order by the like count, then by date | high, not executed | PostViews.AsWrittenMostLikedIgnoresLikes | PostViews.IntendedMostLikedOrdersByLikes |
| backend/codblog/accounts/serializers.py:16-20 | the uniqueness check looks up the address as sent, but the manager stores it with a lower-cased domain, so a case variant passes and the insert fails on the unique column | amy@x.io registered, then a registration for amy@X.io | refuse the address in its stored form with a field error | medium, not executed; assumes the database compares addresses case-sensitively, as SQLite and PostgreSQL do for `=` | AccountSerializers.AsWrittenDomainCaseServerError | AccountSerializers.IntendedNeverServerError |
