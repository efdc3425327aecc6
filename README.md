# NFT Gallery client — a Dafny model of its decision logic

The NFT Gallery client is a React front end to a remote backend canister. Viewers log in
with Internet Identity. Logged-in viewers with a profile post NFT images with a caption.
They like posts, follow authors and discuss posts in nested comment threads. An
administrator may delete posts and comments.

This project models the client's logic, not its markup:

- how a caption or comment is split into plain text, line breaks and links;
- the ordered checks that every submit handler makes, and the request it sends;
- the bounded image selection of the post composer;
- the recursive rendering of a comment tree;
- the query keys, the defaults that reads fall back to without a backend connection, and the
  cache invalidation each successful write triggers;
- the newest-first sort of the post list;
- App's automatic profile-setup dialog and its "Following" tab;
- the like and follow handlers of a post card;
- the two profile dialogs.

The backend is not part of the model. Its answers, and how each call settles
(`Outcome = Resolved | Rejected(message)`), are parameters of the operations. A toast is
returned as a value.

Files, one module each:

| file | module | models |
|---|---|---|
| `text.dfy` | `Text` | the JavaScript `\s` / `trim()` whitespace set, `trim`, `startsWith`, bigint `toString` |
| `backend.dfy` | `Wrappers`, `Backend` | `Option`/`Result`; the backend records (`backend.d.ts`) |
| `session.dfy` | `Session` | identity, the caller-profile data, the two viewer checks and the three-way prompt |
| `linkify.dfy` | `Linkify` | `LinkifiedText.tsx` |
| `create_post.dfy` | `CreatePost` | `CreatePostDialog.tsx` (class `Dialog`) |
| `comment_thread.dfy` | `CommentTree` | `CommentThread.tsx` (class `ReplyForm`) |
| `comments_section.dfy` | `Comments` | `CommentsSection.tsx` (class `CommentBox`) |
| `queries.dfy` | `Queries` | `useQueries.ts` (class `QueryCache`) |
| `app_view.dfy` | `AppView` | `App.tsx` (class `Shell`) |
| `post_card.dfy` | `PostView` | `PostCard.tsx` (class `Card`) |
| `profile_dialogs.dfy` | `ProfileDialogs` | `ProfileSetupDialog.tsx` (class `SetupDialog`), `EditProfileDialog.tsx` (class `EditDialog`) |

How the model is written:

- Code that changes component state becomes a class whose methods state the whole new state.
  These are the setters of `useState`, the image list, and the query cache.
- Pure derivations become functions, with lemmas relating them to an independent
  statement of what they mean.
- Loops in the source are loops here. These are the blob loop of a post submit, the
  file-reader callbacks of an image selection and the array sort. The invalidation calls
  that a mutation's `onSuccess` makes one after another are a loop over its list of
  prefixes (`Queries.QueryCache.Settle`).

Two details of the code that the model keeps as written:

- "Complete profile" is `isAuthenticated && userProfile !== null`. A caller-profile query
  that has not answered yet (`undefined`) therefore counts as complete. `Session.HasCompleteProfile`
  keeps this as written, and `Session.PromptAgreesWithCheck` states the one state in which
  the form is shown but a submit is refused.
- A caption is shown when the description is not the empty string. A description of only
  whitespace is still rendered (`PostView.Caption`).

## Model

Source paths are relative to the repository root.

| member | source | states |
|---|---|---|
| `Text.TrimShape` | src/frontend/src/components/CommentsSection.tsx:41 | `trim()` keeps a contiguous middle slice, drops only whitespace, and leaves no whitespace at either end |
| `Text.BlankIffAllSpace` | src/frontend/src/components/CommentsSection.tsx:41 | `!s.trim()` holds exactly when every character of `s` is whitespace |
| `Text.TrimIdempotent` | src/frontend/src/components/CommentThread.tsx:57 | trimming a trimmed text changes nothing |
| `Text.DigitsRoundTrip` | src/frontend/src/hooks/useQueries.ts:205 | the decimal text of a natural number reads back as that number |
| `Text.IntToStringInjective` | src/frontend/src/hooks/useQueries.ts:205 | distinct bigints have distinct `toString()` texts, so distinct ids give distinct keys |
| `Session.CheckViewer` | src/frontend/src/components/CreatePostDialog.tsx:68-76 | the first two submit checks: none fails iff logged in with a non-null profile; "not logged in" iff there is no identity |
| `Session.PromptPrecedence` | src/frontend/src/components/CreatePostDialog.tsx:154-175 | the log-in prompt iff logged out; the profile prompt iff logged in, the profile is `null` and not loading; otherwise the form |
| `Session.PromptAgreesWithCheck` | src/frontend/src/components/CommentsSection.tsx:68-89 | a prompt is shown exactly for the error the checks would report; the form shows with a failing check only for a `null` profile that is reloading |
| `Session.DisplayName` | src/frontend/src/components/CommentThread.tsx:75 | never empty; the username when it is non-empty, and 'User' exactly when there is no profile, the username is empty, or it is 'User' |
| `Linkify.RunEnd` | src/frontend/src/components/LinkifiedText.tsx:10 | the greedy `[^\s]+` ends at the first whitespace or at the end of the text |
| `Linkify.MatchAt` | src/frontend/src/components/LinkifiedText.tsx:10 | a match anchored at `i` is non-empty, contains no whitespace and runs to the end of the non-whitespace run |
| `Linkify.SplitConcat` | src/frontend/src/components/LinkifiedText.tsx:10-12 | concatenating the parts of `text.split(urlRegex)` in order gives back the text exactly |
| `Linkify.SplitShape` | src/frontend/src/components/LinkifiedText.tsx:12-18 | the parts alternate plain, URL, …, plain; `part.match(urlRegex)` is truthy exactly for the odd parts, which are whole URLs |
| `Linkify.NoUrlSinglePart` | src/frontend/src/components/LinkifiedText.tsx:12 | a text with no match splits into itself alone |
| `Linkify.HrefHasProtocol` | src/frontend/src/components/LinkifiedText.tsx:20 | a link target always starts with `http://` or `https://`: the URL itself, or `https://` before a `www.` URL |
| `Linkify.Lines` | src/frontend/src/components/LinkifiedText.tsx:39 | `split('\n')` yields at least one line and no line contains a newline |
| `Linkify.LinesJoin` | src/frontend/src/components/LinkifiedText.tsx:39 | joining the lines with newlines gives the part back, and there is one more line than there are newlines |
| `Linkify.LineNodes` | src/frontend/src/components/LinkifiedText.tsx:39-42 | lines alternate with breaks, with no break after the last line and no link |
| `Linkify.PlainPartRendering` | src/frontend/src/components/LinkifiedText.tsx:37-45 | a plain part renders with as many breaks as it has newlines and reads back unchanged |
| `Linkify.UrlPartRendering` | src/frontend/src/components/LinkifiedText.tsx:18-33 | a URL part renders as one link showing the part, with a protocol-bearing target |
| `Linkify.RenderLossless` | src/frontend/src/components/LinkifiedText.tsx:12-47 | the visible text of the whole rendering is exactly the input text |
| `Linkify.RenderLinks` | src/frontend/src/components/LinkifiedText.tsx:18-31 | every rendered link shows a whole URL and targets `Href` of it, an `http(s)://` address |
| `CreatePost.CheckSubmitOrder` | src/frontend/src/components/CreatePostDialog.tsx:68-86 | a post is sent iff logged in, the profile is not `null`, the caption is not blank and there is an image; otherwise the first failing check's error, in the order log-in, profile, caption, image |
| `CreatePost.RemoveAtSpec` | src/frontend/src/components/CreatePostDialog.tsx:61-63 | removing an index in range drops exactly that preview and keeps the others in order; an index out of range removes nothing |
| `CreatePost.FilesOf` | src/frontend/src/components/CreatePostDialog.tsx:91 | one file per preview, in order |
| `CreatePost.ReadBlobs` | src/frontend/src/components/CreatePostDialog.tsx:89-98 | one blob per selected image, from its file's bytes, in order |
| `CreatePost.CanAddMoreAgrees` | src/frontend/src/components/CreatePostDialog.tsx:139 | the file input is shown iff one more image fits, and any batch picked while it is hidden is refused by the image handler |
| `CreatePost.SubmitDisabledAgrees` | src/frontend/src/components/CreatePostDialog.tsx:263 | for a viewer who may post, an enabled Share button means the submit passes, and when idle the button is disabled iff a check would fail |
| `CreatePost.Dialog.constructor` | src/frontend/src/components/CreatePostDialog.tsx:19-22 | closed, empty caption, no image, progress 0 |
| `CreatePost.Dialog.EditDescription` | src/frontend/src/components/CreatePostDialog.tsx:20 | the caption becomes the typed text |
| `CreatePost.Dialog.HandleImageChange` | src/frontend/src/components/CreatePostDialog.tsx:32-59 | a batch that would pass 4 images is refused with the toast and changes nothing; otherwise all previews are appended after the last file-reader callback; the selection never exceeds 4 |
| `CreatePost.Dialog.RemoveImage` | src/frontend/src/components/CreatePostDialog.tsx:61-63 | the selection loses the preview at the index and stays within 4 |
| `CreatePost.Dialog.HandleSubmit` | src/frontend/src/components/CreatePostDialog.tsx:65-116 | a failing check returns its error and changes nothing; otherwise the trimmed caption, the author and one blob per image are sent; success resets the form and closes it; failure keeps it and the last upload progress |
| `CreatePost.Dialog.HandleOpenChange` | src/frontend/src/components/CreatePostDialog.tsx:118-128 | opening is refused for a logged-out viewer and for a known-missing profile not loading; closing always passes |
| `CreatePost.Dialog.Cancel` | src/frontend/src/components/CreatePostDialog.tsx:256 | the dialog closes |
| `CommentTree.RepliesRankLower` | src/frontend/src/components/CommentThread.tsx:152-163 | under an acyclic ranking, every resolved reply ranks below its parent |
| `CommentTree.RenderThread` | src/frontend/src/components/CommentThread.tsx:19-33 | a thread is shown iff its id resolves, at the given depth, for the given post, with one reply thread per reply id |
| `CommentTree.RenderReplies` | src/frontend/src/components/CommentThread.tsx:152-163 | one thread per reply id, in order, each the rendered thread of that id one level deeper, shown iff it resolves |
| `CommentTree.RenderThreadFacts` | src/frontend/src/components/CommentThread.tsx:90-163 | every shown thread in a rendered tree resolves, ranks below its ancestors, is at least as deep, is rendered with the root's `postId` and has the Reply button iff depth < 3 |
| `CommentTree.ThreadTree` | src/frontend/src/components/CommentThread.tsx:33-163 | an unresolved id renders nothing; below a rendered comment its own id never reappears and depth grows; every shown comment is rendered with the root's `postId` and has the Reply button exactly above depth 3. Each reply is itself a rendered thread (`CommentTree.RenderReplies`), so the same holds below every shown comment |
| `CommentTree.ReplyButtonBoundary` | src/frontend/src/components/CommentThread.tsx:90-100 | Reply is offered at depth 2 and at no depth of 3 or more |
| `CommentTree.ReplyForm.constructor` | src/frontend/src/components/CommentThread.tsx:21-22 | the form is hidden with empty text |
| `CommentTree.ReplyForm.ToggleReplyForm` | src/frontend/src/components/CommentThread.tsx:90-100 | the Reply button, present only above depth 3, flips the form |
| `CommentTree.ReplyForm.EditReply` | src/frontend/src/components/CommentThread.tsx:131 | the reply text becomes the typed text |
| `CommentTree.ReplyForm.HandleReply` | src/frontend/src/components/CommentThread.tsx:39-65 | log-in toast, then profile toast, then a silent return on blank text; otherwise the trimmed text is sent as a reply to the comment, and only success clears and hides the form |
| `CommentTree.ReplyAreaAgrees` | src/frontend/src/components/CommentThread.tsx:102-146 | the reply area is empty iff the form is hidden, shows each prompt only for the error the reply handler would report, and the reply input is enabled iff both checks pass and nothing is pending |
| `CommentTree.ReplySendEnabledSubmits` | src/frontend/src/components/CommentThread.tsx:139 | an enabled send button means every check of the reply handler passes |
| `Comments.SendEnabledIff` | src/frontend/src/components/CommentsSection.tsx:96-102 | the send button is enabled iff both viewer checks pass, nothing is pending and the text has a non-space character |
| `Comments.RenderRoots` | src/frontend/src/components/CommentsSection.tsx:112-119 | one thread per root id, in order, at depth 0, for the post |
| `Comments.RootsAreThreads` | src/frontend/src/components/CommentsSection.tsx:112-119 | each root is the thread that the thread renderer gives for it at depth 0 |
| `Comments.CommentBox.constructor` | src/frontend/src/components/CommentsSection.tsx:18 | the comment text starts empty |
| `Comments.CommentBox.EditComment` | src/frontend/src/components/CommentsSection.tsx:95 | the comment text becomes the typed text |
| `Comments.CommentBox.HandleSubmit` | src/frontend/src/components/CommentsSection.tsx:28-53 | log-in toast, then profile toast, then a silent return on blank text; otherwise the trimmed text is sent as a root comment, and only success clears it |
| `Comments.SentContentTrimmed` | src/frontend/src/components/CommentsSection.tsx:46 | sent content is non-empty and already trimmed |
| `Queries.KeyOf` | src/frontend/src/hooks/useQueries.ts:12-304 | every key starts with its read's name, then one element per argument; an argument's element is `undefined`/`null` (both hash as `null`) exactly when the argument is missing, and an id appears as its decimal text |
| `Queries.KeyOfInjective` | src/frontend/src/hooks/useQueries.ts:12-304 | distinct reads have distinct keys, so no two reads share a cache entry |
| `Queries.Fallback` | src/frontend/src/hooks/useQueries.ts:8-311 | only the caller-profile read errs ("Actor not available"); every other default has the read's result type |
| `Queries.NoActorDefaults` | src/frontend/src/hooks/useQueries.ts:8-311 | run without an actor, each query function returns [] / null / 'guest' / 0 / false, and the caller-profile one throws |
| `Queries.EnabledReachesBackend` | src/frontend/src/hooks/useQueries.ts:8-311 | an enabled read never takes its fallback |
| `Queries.SortNewestFirst` | src/frontend/src/hooks/useQueries.ts:17 | the array is sorted in place by non-increasing timestamp and is a permutation of what it held |
| `Queries.FetchAllPosts` | src/frontend/src/hooks/useQueries.ts:13-18 | [] without an actor; otherwise a newest-first permutation of the backend's list |
| `Queries.RunQuery` | src/frontend/src/hooks/useQueries.ts:8-311 | a query function answers its fallback when it has no actor or no argument, the sorted list for all posts, and the backend's answer otherwise |
| `Queries.CallerProfileStatusSound` | src/frontend/src/hooks/useQueries.ts:161-165 | loading while the actor is fetching; never fetched without an actor |
| `Queries.InvalidationTable` | src/frontend/src/hooks/useQueries.ts:49-285 | a write's prefixes cover a read's key iff the read is one the write affects, so a like leaves every other post's keys alone |
| `Queries.MarkAllStaleSpec` | src/frontend/src/hooks/useQueries.ts:86-87 | invalidating several prefixes marks stale exactly the entries under one of them, keeps their data and leaves all others as they were |
| `Queries.Settled` | src/frontend/src/hooks/useQueries.ts:49-285 | every write rejects with "Actor not available" when there is no actor |
| `Queries.QueryCache.constructor` | src/frontend/src/hooks/useQueries.ts:52 | the cache starts empty |
| `Queries.QueryCache.Store` | src/frontend/src/hooks/useQueries.ts:13-18 | a fetched answer is cached fresh under its key |
| `Queries.QueryCache.Invalidate` | src/frontend/src/hooks/useQueries.ts:59 | every entry under the prefix becomes stale; the key set and all other entries are unchanged |
| `Queries.QueryCache.Settle` | src/frontend/src/hooks/useQueries.ts:49-311 | success invalidates the write's prefixes in order and toasts its success message (none for a like); failure toasts the error and leaves the cache unchanged |
| `Queries.SettledWriteRefreshes` | src/frontend/src/hooks/useQueries.ts:58-64 | after a write succeeds, the cached entry of every read it affects is stale and every other read's entry is unchanged |
| `AppView.NoActorNoAdminPanel` | src/frontend/src/App.tsx:23-58 | without an actor the role query is disabled and the undefined role shows no admin panel; the 'guest' fallback of a forced run shows none either |
| `AppView.ProfileSetupNeedsAnswer` | src/frontend/src/App.tsx:26-32 | the setup dialog opens only after the caller-profile query has answered `null` with an actor, never while the actor is fetching |
| `AppView.Shell.constructor` | src/frontend/src/App.tsx:21 | the setup dialog starts closed |
| `AppView.Shell.SyncProfileSetup` | src/frontend/src/App.tsx:26-32 | the dialog is open iff logged in, not loading, fetched and the profile is `null` |
| `AppView.Shell.SetShowProfileSetup` | src/frontend/src/App.tsx:116 | the dialog's open-change callback sets the flag |
| `AppView.FollowingPosts` | src/frontend/src/App.tsx:35-37 | empty while the posts are undefined |
| `AppView.FilterFollowedMembers` | src/frontend/src/App.tsx:35-37 | a post is kept iff it is among the posts and its author's text equals a followed principal's text |
| `AppView.FilterFollowedCounts` | src/frontend/src/App.tsx:35-37 | no post is kept more often than it occurs; following nobody keeps nothing |
| `AppView.FilterFollowedNewest` | src/frontend/src/App.tsx:35-37 | a newest-first list stays newest first after filtering |
| `AppView.FilterFollowedMultiplicity` | src/frontend/src/App.tsx:35-37 | each entry is kept exactly as often as it occurs when its author is followed, and never otherwise |
| `AppView.FilterFollowedSubsequence` | src/frontend/src/App.tsx:35-37 | the result is the sub-sequence of the posts at strictly increasing positions, which are exactly the positions whose author is followed |
| `AppView.FollowingTabCases` | src/frontend/src/App.tsx:83-105 | exactly one branch: log-in message iff logged out; "follow someone" iff following nobody; "not posted yet" iff no loaded post is by a followed author; else a non-empty gallery of followed authors' posts |
| `AppView.FollowingWithinAll` | src/frontend/src/App.tsx:73-105 | the Following trigger is disabled exactly when its tab shows the log-in message, and its gallery lists only posts of the All tab |
| `PostView.FollowButtonShownIff` | src/frontend/src/components/PostCard.tsx:36-87 | the Follow button is shown iff the viewer is logged in as someone other than the author |
| `PostView.LikeRequest` | src/frontend/src/components/PostCard.tsx:38-49 | a logged-out like is refused with "Please log in to like posts"; otherwise exactly `likePost(post.id)` |
| `PostView.FollowRequest` | src/frontend/src/components/PostCard.tsx:51-66 | a logged-out toggle is refused with "Please log in to follow users"; otherwise exactly one mutation |
| `PostView.FollowToggleFlips` | src/frontend/src/components/PostCard.tsx:51-101 | the mutation targets the author; it unfollows iff the button reads "Following"; success makes the author's is-following flag stale |
| `PostView.LikeRefreshesOnlyThisPost` | src/frontend/src/components/PostCard.tsx:45 | a like marks stale the like count and liked flags of that post only |
| `PostView.AuthorName` | src/frontend/src/components/PostCard.tsx:34 | never empty; 'User' while the author's profile is unknown or missing, otherwise a non-empty username |
| `PostView.CountLabels` | src/frontend/src/components/PostCard.tsx:150-160 | a label ends in "s" iff its count is not 1; an unknown like count reads "0 Likes" |
| `PostView.LikesLabelInjective` | src/frontend/src/components/PostCard.tsx:150 | distinct like counts that `Number` shows exactly (magnitude at most 2^53) give distinct labels |
| `PostView.LabelNumber` | src/frontend/src/components/PostCard.tsx:150 | for a count of magnitude at most 2^53, a likes label starts with the count's digits, followed by a space |
| `PostView.GridCells` | src/frontend/src/components/PostCard.tsx:125-133 | one cell per image, in order, labelled "NFT k" |
| `PostView.ImageLayout` | src/frontend/src/components/PostCard.tsx:115-134 | exactly one image uses the single layout; any other count uses the grid with one cell per image, in order |
| `PostView.GridLabelsDistinct` | src/frontend/src/components/PostCard.tsx:129 | every grid cell has its own label |
| `PostView.Caption` | src/frontend/src/components/PostCard.tsx:72-76 | the caption block is shown iff the description is not the empty string |
| `PostView.CaptionShowsDescription` | src/frontend/src/components/PostCard.tsx:72-76 | the caption shows the whole description character for character |
| `PostView.Card.constructor` | src/frontend/src/components/PostCard.tsx:20 | comments start hidden |
| `PostView.Card.ToggleComments` | src/frontend/src/components/PostCard.tsx:156-171 | the comments button flips whether the section is shown |
| `PostView.Card.HandleLike` | src/frontend/src/components/PostCard.tsx:38-49 | logged out: a toast and an unchanged cache; otherwise the like settles, invalidating that post's like keys on success, or reporting the error and changing nothing |
| `PostView.Card.HandleFollowToggle` | src/frontend/src/components/PostCard.tsx:51-66 | logged out: a toast and an unchanged cache; otherwise the chosen mutation settles with its invalidations and toast |
| `ProfileDialogs.PayloadWellFormed` | src/frontend/src/components/ProfileSetupDialog.tsx:21-36 | the form is valid iff both fields have a non-space character; a valid form saves non-empty fields with no whitespace at either end |
| `ProfileDialogs.SaveEnabledSaves` | src/frontend/src/components/ProfileSetupDialog.tsx:81 | an enabled Save button (the same condition as EditProfileDialog.tsx line 91) means nothing is pending and both fields have a non-space character, so the handler saves the trimmed, non-empty pair |
| `ProfileDialogs.SaveRefreshesCallerProfile` | src/frontend/src/hooks/useQueries.ts:178 | a resolved save makes the caller's profile stale and keeps every `userProfile` entry, the caller's own included, so the caller's name on their posts and comments is not read again |
| `ProfileDialogs.SetupDialog.constructor` | src/frontend/src/components/ProfileSetupDialog.tsx:15-16 | both fields start empty |
| `ProfileDialogs.SetupDialog.EditFields` | src/frontend/src/components/ProfileSetupDialog.tsx:56-77 | the fields become the typed text |
| `ProfileDialogs.SetupDialog.RequestOpenChange` | src/frontend/src/components/ProfileSetupDialog.tsx:39-45 | a close request with an invalid form is dropped; any other request reaches App |
| `ProfileDialogs.SetupDialog.HandleSubmit` | src/frontend/src/components/ProfileSetupDialog.tsx:19-34 | an invalid form is skipped and changes nothing; otherwise the trimmed pair is saved; success closes the dialog and clears both fields; failure keeps everything |
| `ProfileDialogs.EditDialog.constructor` | src/frontend/src/components/EditProfileDialog.tsx:15-17 | closed, fields from the current profile |
| `ProfileDialogs.EditDialog.EditFields` | src/frontend/src/components/EditProfileDialog.tsx:56-79 | the fields become the typed text |
| `ProfileDialogs.EditDialog.SyncFields` | src/frontend/src/components/EditProfileDialog.tsx:20-25 | while open, the fields are the current profile's; while closed, nothing changes |
| `ProfileDialogs.EditDialog.SetOpen` | src/frontend/src/components/EditProfileDialog.tsx:20-25 | each opening resets the fields to the current profile; closing keeps them |
| `ProfileDialogs.EditDialog.ProfileChanged` | src/frontend/src/components/EditProfileDialog.tsx:20-25 | a new profile prop resets the fields when the dialog is open |
| `ProfileDialogs.EditDialog.HandleSubmit` | src/frontend/src/components/EditProfileDialog.tsx:27-40 | an invalid form is skipped; otherwise the trimmed pair is saved and the dialog closes only on success |

## Left out

- JSX markup, CSS classes, icons, the dialog and alert widgets, and `Header`, `Footer`, `PostGallery`, `AdminPanel` and the delete dialogs. They hold no decision beyond the branches modelled here.
- The backend canister and Internet Identity. Backend answers and the identity are parameters; login and logout flows are not modelled.
- Timestamp display (`Number(ts) / 1000000` and `formatDistanceToNow`). This is floating point and a date library.
- Toasts and `console.error`. Toasts are returned values; logging is dropped.
- The JavaScript regular-expression engine. The URL pattern is re-expressed as a scanner (`Linkify.PrefixAt`, `Linkify.MatchAt`, `Linkify.SplitFrom`).
- Text works on Unicode scalar values, where JavaScript strings are UTF-16. A character outside the Basic Multilingual Plane is one character here and two code units there. No whitespace or URL decision depends on the difference.
- React-Query internals: refetch scheduling, retries, staleness timers and concurrent in-flight reads. The cache is a map from key to entry with prefix invalidation. A read of a stale or missing key is modelled as "needs fetch" (`Queries.QueryCache.NeedsFetch`).
- Concurrency between handlers. Each handler runs to completion with the outcome of its backend call given. Two image selections racing their file readers, and a prop change arriving mid-submit, are not modelled.
- `CreatePost.Dialog.HandleImageChange`: the file readers' results arrive in an order given as a parameter. A read that fails or is aborted still fires `onloadend`, with `reader.result` null, so its file is appended like any other. The model's preview is the text the reader produced, so the null preview of a failed read is not represented.
- `PostView.LikesLabel`: the label shows `Number(likeCount)`, which rounds a count of magnitude above 2^53 and uses exponent notation from 10^21 on. The model shows the exact decimal digits, so `PostView.LikesLabelInjective` and `PostView.LabelNumber` require a count within 2^53 (`PostView.ExactCount`), where the two agree.
- `CreatePost.Dialog.HandleSubmit`: only the last upload-progress report is kept. The progress callback's timing and a `file.arrayBuffer()` failure are not modelled.
- `Queries.SortNewestFirst`: the model proves the order and the permutation, not the stability of `Array.prototype.sort`. The insertion sort is stable, but the contract does not state it.
- `Queries.QueryCache.Settle`: the mutation's `isPending` flag, and the disabled buttons that read it, are inputs of the predicates that use them.
- `ProfileDialogs.EditDialog.ProfileChanged`: React compares the `currentProfile` prop by reference. Every new profile object re-runs the effect, so the model re-runs it on every call.
- `Comments.CommentBox.HandleSubmit` and `CommentTree.ReplyForm.HandleReply` return the `addComment` request and how it settled. They do not update the cache themselves. The invalidation that a settled `addComment` causes is `Queries.QueryCache.Settle` with `Queries.Mutation.AddComment`.
- `CreatePost.Dialog.HandleSubmit` returns the `createNftPost` request and how it settled. It does not update the cache or produce the mutation's toast itself. The `['posts']` invalidation and the "Post created successfully!" / "Failed to create post: …" toasts are `Queries.QueryCache.Settle` with `Queries.Mutation.CreatePost`.
- The Principal type is its textual form. Every comparison the client makes is `toString() === toString()`.
