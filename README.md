# Enginuity backend core in Dafny

This project models the logic of the Enginuity social backend, an Express and Mongoose server.
The record store is replaced by an in-memory store in the `Store` module: a class `Db` whose users, posts, comments and notifications are sequences in the store's natural order.
On top of it, the project models:

- the post schema and its validators (`PostModel`, from `post.model.js`);
- feed composition with its backward Fisher–Yates shuffle (`Feed`, `Shuffling`, from `getPosts`);
- the other post handlers (`PostController`): create-post validation, the category search's query parsing, the like toggle, reporting, author-only delete and update, and sharing;
- the user handlers (`UserController`): user sync, the two-sided follow toggle, the admin ban and the admin post delete;
- the admin dashboard (`Dashboard`): the 30-day UTC window, the per-day aggregation and the dense daily series, the average posts per user, and the peak-day reducer.

Inputs replace everything outside the program:

- the caller's identity-provider id;
- the identity provider's profile of a user;
- the upload result;
- new record ids;
- the clock (`now`, in milliseconds);
- the shuffle's random indices, as a function `draw` with `draw(i) <= i`. This is the value of `Math.floor(Math.random() * (i + 1))` at step `i`.

Days are UTC day numbers rather than `YYYY-MM-DD` strings.
State-changing handlers are methods on `Db`. Each is tied to a pure function of the old state, and the properties are proved about those functions.

Supporting modules:

- `Wrappers`: `Option` and `Result`.
- `Seqs`: first match, filter, and MongoDB's `$pull`.
- `Js`: JavaScript truthiness, `trim` with ECMAScript's whitespace set, and `split` with a one-character separator.

## Model

| member | source | states |
|---|---|---|
| Seqs.FirstMatch | backend/src/controllers/user.controller.js:254-255 | `find`: the index returned is the first element satisfying the predicate; none exactly when no element does |
| Seqs.Filter | backend/src/controllers/post.controller.js:166 | `filter` keeps exactly the elements satisfying the predicate, each as often as before |
| Seqs.Pull | backend/src/controllers/post.controller.js:195-197 | `$pull`: the value is gone, every other value keeps its multiplicity |
| Seqs.PullPushed | backend/src/controllers/post.controller.js:195-202 | pulling a value just pushed onto an array without it gives the array back |
| Js.OrEmpty | backend/src/controllers/post.controller.js:149 | `v \|\| ""` is "" exactly when `v` is absent or ""; otherwise it is `v` |
| Js.TrimStart | backend/src/controllers/post.controller.js:114 | the result is a suffix, everything cut is whitespace, and it does not start with whitespace |
| Js.TrimEnd | backend/src/controllers/post.controller.js:114 | the result is a prefix, everything cut is whitespace, and it does not end with whitespace |
| Js.Trim | backend/src/controllers/post.controller.js:114 | the trimmed string, when not empty, starts and ends with a character that is not whitespace |
| Js.TrimSlice | backend/src/controllers/post.controller.js:114 | the trimmed string is a contiguous slice `s[i..j]` of the original, and everything cut before `i` and from `j` on is whitespace |
| Js.TrimWithin | backend/src/controllers/post.controller.js:166 | every character of the trimmed string occurs in the original |
| Js.TrimIdempotent | backend/src/controllers/post.controller.js:166 | trimming twice is trimming once |
| Js.BlankIffAllWhitespace | backend/src/models/post.model.js:30 | `s.trim() === ""` exactly when every character of `s` is whitespace |
| Js.Split | backend/src/controllers/post.controller.js:166 | `split` returns at least one piece, no piece holds the separator, and joining the pieces with it gives the string back |
| Js.SplitJoin | backend/src/controllers/post.controller.js:166 | splitting a join of separator-free pieces gives the pieces back |
| Js.FirstPieceIsPrefix | backend/src/controllers/user.controller.js:48 | `s.split(sep)[0]` is the prefix of `s` before the first separator, or all of `s` when there is none |
| PostModel.ParsePostType | backend/src/models/post.model.js:20-24 | a type name parses exactly when it is one of code, general, article, fixing, and parses back to the same name |
| PostModel.TypeNameRoundTrip | backend/src/models/post.model.js:20-24 | every post type's name parses back to that type |
| PostModel.ValidCategoriesIff | backend/src/models/post.model.js:25-33 | the categories validator accepts exactly the non-empty lists whose every entry has a character that is not whitespace |
| PostModel.Create | backend/src/models/post.model.js:6-66 | `Post.create` fails with exactly the violated paths (author required, content at most 1000, type required and in the enum, categories validator, where a missing list defaults to `[]`); on success the post conforms, carries the given fields, has price and sharedFrom as given or null, image "" by default, no likes, comments or reports, and the current time |
| PostModel.CreateSucceedsIff | backend/src/models/post.model.js:11-33 | creation succeeds exactly when the author is given, the type is valid, the categories pass and the text fits |
| Store.FindUserByClerk | backend/src/controllers/post.controller.js:186 | `User.findOne({ clerkId })` returns the first user with that id; none exactly when none has it |
| Store.FindUserById | backend/src/controllers/user.controller.js:73 | `findById`: a user with that record id; none exactly when none has it |
| Store.FindPostById | backend/src/controllers/post.controller.js:187 | `findById` on posts: a post with that id; none exactly when none has it |
| Store.WithoutCommentsOf | backend/src/controllers/post.controller.js:234 | `Comment.deleteMany({ post })` keeps exactly the comments on other posts |
| Store.RemoveAt | backend/src/controllers/post.controller.js:237 | `findByIdAndDelete` with unique ids keeps exactly the posts with other ids |
| Store.RemoveAtKeepsValid | backend/src/controllers/post.controller.js:237 | removing a post keeps ids unique and every post valid |
| Store.ReplaceKeepsValid | backend/src/controllers/post.controller.js:327-328 | saving a post under its own id that passes the schema keeps the store valid |
| Store.AppendKeepsValid | backend/src/controllers/post.controller.js:147-154 | creating a conforming post under a fresh id keeps the store valid |
| Store.ReplaceUserKeepsIds | backend/src/controllers/user.controller.js:189 | updating a user under its own id keeps user ids unique |
| Store.DeleteKeepsNoOrphans | backend/src/controllers/post.controller.js:233-237 | deleting a post together with its comments leaves every comment with a post |
| Shuffling.Swap | backend/src/controllers/post.controller.js:59 | the swap exchanges the elements at the two indices |
| Shuffling.ShuffleStep | backend/src/controllers/post.controller.js:57-59 | one iteration at index i swaps i with the draw at i and continues from i - 1 |
| Shuffling.ShuffleFromPermutes | backend/src/controllers/post.controller.js:57-60 | the swap loop from any index down yields a permutation |
| Shuffling.Shuffle | backend/src/controllers/post.controller.js:57-60 | the in-place loop leaves the array equal to the specified shuffle of its old contents, and a permutation of them |
| Shuffling.SwapAt | backend/src/controllers/post.controller.js:59 | the destructuring swap exchanges the two elements and nothing else |
| Shuffling.ShuffleFromAgrees | backend/src/controllers/post.controller.js:57-58 | the shuffle depends only on the draws at the indices it visits |
| Shuffling.EveryPermutationReachable | backend/src/controllers/post.controller.js:57-60 | every permutation of the blend is the outcome of some draws with `0 <= j <= i` |
| Shuffling.ReachFrom | backend/src/controllers/post.controller.js:57-60 | draws exist that turn `s` into any `t` that agrees with it above `i` and permutes it up to `i` |
| Feed.FollowedIds | backend/src/controllers/post.controller.js:15-21 | no ids for an anonymous viewer or one without a record; otherwise the viewer's following list |
| Feed.FollowingPosts | backend/src/controllers/post.controller.js:24 | exactly the posts whose author is followed |
| Feed.IdsOf | backend/src/controllers/post.controller.js:35 | the ids of the following posts, in order |
| Feed.InsertByLikes | backend/src/controllers/post.controller.js:37 | insertion adds exactly the one post |
| Feed.InsertKeepsSorted | backend/src/controllers/post.controller.js:37 | insertion into a list ordered by non-increasing likes keeps it ordered |
| Feed.SortByLikes | backend/src/controllers/post.controller.js:37 | the sort is a permutation ordered by non-increasing like count |
| Feed.PopularCandidates | backend/src/controllers/post.controller.js:36 | `$nin`: exactly the posts whose id is not excluded |
| Feed.PopularPosts | backend/src/controllers/post.controller.js:36-38 | no excluded id, a sub-multiset of the candidates (no post taken twice), ordered by non-increasing likes, length min(limit, candidates), and no candidate left out has more likes than one taken |
| Feed.TopOfSorted | backend/src/controllers/post.controller.js:37-38 | the first m of a like-ordered permutation are candidates, and no candidate left out has more likes than one kept |
| Feed.PopularLimit | backend/src/controllers/post.controller.js:38 | the limit is max(floor(3s/7), 10): at least 10, more than 3s/7 - 1, and either 10 or floor(3s/7) |
| Feed.NumFollowing | backend/src/controllers/post.controller.js:50 | `Math.floor(total * R)` is the largest whole number not above total·R, and at most total |
| Feed.BlendSizes | backend/src/controllers/post.controller.js:49-54 | the blend holds min(numFollowing, following) following posts first and then min(numPopular, popular) popular posts |
| Feed.CodeRatioBlendIsPopular | backend/src/controllers/post.controller.js:50-54 | with the ratio 0 the blend is exactly the popular list |
| Feed.IntendedRatioExample | backend/src/controllers/post.controller.js:48-54 | with 70/30, 10 following posts and the 10 popular ones the limit then allows, the 20 posts give 14 following slots: the blend is all 10 following posts and 6 popular ones |
| Feed.CodeRatioFeedHasNoFollowingPost | backend/src/controllers/post.controller.js:24-54 | with the ratio 0 the composed feed is the popular list: no following post, ordered by likes, within the limit |
| Feed.PopularIdsUnique | backend/src/controllers/post.controller.js:36-38 | the popular list repeats no post when the store does not |
| Feed.BlendIdsUnique | backend/src/controllers/post.controller.js:49-54 | a blend of two repeat-free lists with disjoint ids repeats no post |
| Feed.FeedIdsUnique | backend/src/controllers/post.controller.js:13-60 | the shuffled feed repeats no post when the store's ids are unique |
| Feed.ArrayOf | backend/src/controllers/post.controller.js:54 | the spread builds a fresh array holding the blend |
| Feed.GetPosts | backend/src/controllers/post.controller.js:13-63 | the response is the specified shuffle of the composed feed, a permutation of it, and repeat-free in a valid store |
| PostController.CheckCreateRequest | backend/src/controllers/post.controller.js:108-116 | the request passes exactly when there is text or an image, the type is one of the four names, and categories is a non-empty array of strings none blank; each failure gives its own error, in the handler's order, and the strings pass the schema's validator |
| PostController.CreatePostOutcome | backend/src/controllers/post.controller.js:103-157 | creation succeeds exactly when the checks pass, the user exists, the upload (if any) succeeded and the text fits; the only validation failure left is the content path; the post conforms and carries the caller as author, `content \|\| ""`, the type, categories, price and uploaded image |
| PostController.CreatePost | backend/src/controllers/post.controller.js:147-156 | a created post is appended, nothing else changes, and the store stays valid |
| PostController.TrimAll | backend/src/controllers/post.controller.js:166 | `map(cat => cat.trim())` |
| PostController.CleanPiecesSound | backend/src/controllers/post.controller.js:166 | every category of the list is non-empty, trimmed, free of the separator, and the trimmed form of some piece |
| PostController.CleanPiecesComplete | backend/src/controllers/post.controller.js:166 | the trimmed form of every piece that is not blank is in the list |
| PostController.FirstEntryPiece | backend/src/controllers/post.controller.js:166-169 | a list that is not empty comes from a piece that is not blank; so the list is empty only when every piece is blank |
| PostController.ParseCategoryQuery | backend/src/controllers/post.controller.js:162-169 | a query that is missing, not a string or blank is refused first; an empty list is refused next; otherwise the list is the cleaned comma-separated pieces |
| PostController.SearchPostsByCategory | backend/src/controllers/post.controller.js:160-170 | the result is exactly the posts sharing a category with the list, and the errors are the parser's |
| PostController.ToggledLikes | backend/src/controllers/post.controller.js:191-202 | a liker is removed entirely, a non-liker is appended once, everyone else's multiplicity is unchanged |
| PostController.LikeThenUnlike | backend/src/controllers/post.controller.js:191-202 | like then unlike restores the likes |
| PostController.UnlikeThenLike | backend/src/controllers/post.controller.js:191-202 | unlike then like leaves exactly one like by the user |
| PostController.LikeNotices | backend/src/controllers/post.controller.js:204-212 | a notice is created exactly on a like by someone other than the author, from the liker to the author about the post |
| PostController.LikePost | backend/src/controllers/post.controller.js:182-218 | missing user or post changes nothing; otherwise the post's likes are toggled, the notice list grows as stated, and the store stays valid |
| PostController.ReportOutcome | backend/src/controllers/post.controller.js:316-328 | missing reason or user, missing post and a repeat report are refused in that order; otherwise exactly one report by the user at `now` is appended to the unchanged old reports, subject to the save's validation |
| PostController.ReportTwiceRefused | backend/src/controllers/post.controller.js:323-326 | a second report by the same user on the same post is refused |
| PostController.ReportPost | backend/src/controllers/post.controller.js:311-333 | the store's post is replaced by the reported one only on success |
| PostController.AuthorizeAuthor | backend/src/controllers/post.controller.js:224-231 | missing user or post is "not found"; otherwise it passes exactly when the caller wrote the post |
| PostController.DeletePost | backend/src/controllers/post.controller.js:220-240 | refused unless the caller wrote the post; otherwise the post and all its comments are gone, no comment is left without a post, and the store stays valid |
| PostController.UpdateBodyOutcome | backend/src/controllers/post.controller.js:247-261 | empty text is refused first, then the author check; the update succeeds exactly when the text fits and the stored categories pass, and then only the text changes |
| PostController.UpdatePostBody | backend/src/controllers/post.controller.js:242-264 | the store's post is replaced by the updated one only on success |
| PostController.AuthorizeShare | backend/src/controllers/post.controller.js:270-278 | missing user, then missing post, then sharing one's own post are refused |
| PostController.ShareAsWrittenAlwaysFails | backend/src/controllers/post.controller.js:280-288 | the share as written always fails the categories validator |
| PostController.ShareOutcome | backend/src/controllers/post.controller.js:266-291 | corrected handler (categories copied, see Findings): with the categories copied, a share of a conforming post by someone else succeeds and copies text, type, categories, price and image, with sharedFrom set and nothing liked, commented or reported |
| PostController.SharePost | backend/src/controllers/post.controller.js:266-291 | corrected handler (categories copied, see Findings): a share is appended, nothing else changes, and the store stays valid |
| UserController.UsernameOf | backend/src/controllers/user.controller.js:48 | the username is the part of the address before its first '@' and holds no '@' |
| UserController.NewUser | backend/src/controllers/user.controller.js:41-52 | the new record has the first address, names and picture or "", the username rule, no follows and no ban; a profile without an address fails |
| UserController.SyncUsers | backend/src/controllers/user.controller.js:35-52 | an existing record is returned and nothing is created; otherwise the new record is appended |
| UserController.SyncIdempotent | backend/src/controllers/user.controller.js:35-38 | a second sync changes nothing and returns the same record |
| UserController.SyncKeepsIdsUnique | backend/src/controllers/user.controller.js:52 | creating a user under a fresh id keeps ids unique |
| UserController.SyncUser | backend/src/controllers/user.controller.js:32-55 | the store's users are those of the sync |
| UserController.Toggle | backend/src/controllers/user.controller.js:81-94 | `$push` adds the id at the end, `$pull` removes every occurrence |
| UserController.FollowUpdate | backend/src/controllers/user.controller.js:77-94 | only the caller's following and the target's followers change, both by the same push or pull |
| UserController.FollowKeepsMirrored | backend/src/controllers/user.controller.js:77-94 | if every following entry had its followers entry and back, that still holds |
| UserController.FollowKeepsIdsUnique | backend/src/controllers/user.controller.js:81-94 | the toggle keeps user ids unique |
| UserController.FollowLookup | backend/src/controllers/user.controller.js:72-75 | either record missing gives "not found" |
| UserController.FollowApply | backend/src/controllers/user.controller.js:77-101 | a follow appends to both sides and creates one notice to the target; an unfollow removes both and creates none |
| UserController.FollowAsWritten | backend/src/controllers/user.controller.js:66-101 | the handler as written: its guard compares the identity-provider id with the record id |
| UserController.SelfFollowSlipsThrough | backend/src/controllers/user.controller.js:70 | a user can follow themself past that guard |
| UserController.Follow | backend/src/controllers/user.controller.js:66-101 | corrected handler (guard on record ids, see Findings): a self-follow is refused and the two records are distinct |
| UserController.FollowKeepsNoSelfFollow | backend/src/controllers/user.controller.js:70-94 | with that guard nobody comes to follow themself |
| UserController.FollowPreserves | backend/src/controllers/user.controller.js:77-101 | the follow keeps unique ids, the mirror relation and no self-follow |
| UserController.FollowUser | backend/src/controllers/user.controller.js:66-106 | corrected handler (guard on record ids, see Findings): a refusal changes no record; otherwise the users and notices are those of the toggle and the invariants hold |
| UserController.BanOutcome | backend/src/controllers/user.controller.js:185-190 | a missing duration or one below 1 is refused before the lookup; the ban ends at now + minutes·60000, at least a minute from now |
| UserController.AdminBanUser | backend/src/controllers/user.controller.js:179-201 | the user's ban is recorded and a spam notice is addressed to the user |
| UserController.AdminDeleteAsWritten | backend/src/controllers/user.controller.js:170-171 | the handler as written removes the post and keeps every comment |
| UserController.AdminDeleteOrphansComments | backend/src/controllers/user.controller.js:170 | a comment is left without its post |
| UserController.AdminDelete | backend/src/controllers/user.controller.js:170-171 | corrected handler (comments deleted too, see Findings): exactly the post and its comments go |
| UserController.AdminDeleteKeepsNoOrphans | backend/src/controllers/post.controller.js:233-237 | with the cascade no comment loses its post |
| UserController.AdminDeletePost | backend/src/controllers/user.controller.js:165-176 | corrected handler (comments deleted too, see Findings): the store's posts and comments are those of the cascading delete, and no comment is left without its post |
| Dashboard.DayOf | backend/src/controllers/user.controller.js:236 | a time falls within its UTC day |
| Dashboard.WindowStartDay | backend/src/controllers/user.controller.js:228-231 | the window starts at midnight UTC 29 days before today, so now lies in its last day |
| Dashboard.CountForEntry | backend/src/controllers/user.controller.js:254-256 | with distinct keys the lookup finds that day's count |
| Dashboard.BumpCounts | backend/src/controllers/user.controller.js:236 | counting one more record adds one to its day only |
| Dashboard.Tally | backend/src/controllers/user.controller.js:236 | `$group`: distinct days, each counted as often as it occurs |
| Dashboard.DaysFromCounts | backend/src/controllers/user.controller.js:235 | `$match` keeps every record of a window day and none before the window |
| Dashboard.AggregateCounts | backend/src/controllers/user.controller.js:234-245 | the aggregation's count for a window day is the number of records created that day |
| Dashboard.DenseSeries | backend/src/controllers/user.controller.js:248-258 | 30 entries keyed start, start+1, …, start+29 with that day's record count |
| Dashboard.SeriesCounts | backend/src/controllers/user.controller.js:248-258 | the series read off the aggregation is the dense series |
| Dashboard.NormalizeSeries | backend/src/controllers/user.controller.js:248-258 | the loop gives 30 entries per series, keyed by consecutive days, with the aggregated count or 0 |
| Dashboard.AvgHundredths | backend/src/controllers/user.controller.js:263 | 0 without users; otherwise the nearest hundredth of posts/users, halves rounded up |
| Dashboard.Peak | backend/src/controllers/user.controller.js:264-265 | the peak count is the greatest count; the seed with date null stays exactly when every count is 0 |
| Dashboard.PeakIsEarliestMaximum | backend/src/controllers/user.controller.js:264-265 | the peak day is the first day with the greatest count |
| Dashboard.CreationTimes | backend/src/controllers/user.controller.js:234-245 | the `createdAt` of every record of a collection, one per record, in store order, as both aggregations read them |
| Dashboard.GetDashboard | backend/src/controllers/user.controller.js:203-284 | the counts of the four collections, both dense series for the window ending today, the average and both peaks |

## Left out

- Routing, HTTP status codes, JSON shaping and notification message text: the model returns an `Error` per distinct error response and stores notifications without their text.
- Identity provider and uploads: `getAuth` and `clerkClient.users.getUser` become inputs. So do the Cloudinary uploads in `createPost`, `updateProfilePicture` and `updateBannerImage`; the last two are not modelled, as they only store the returned URL.
- `getUserProfile`, `getCurrentUser`, `updateProfile`, `getPost`, `getUserPosts` and `searchPostsByType` are thin lookups or pass-throughs and are not modelled.
- `searchUsers` uses a regular expression built from the user's query; a regex engine is not part of this model.
- `getDashboard`'s `reportedPosts` and `userList` queries (populate, select, sort, limit) are not modelled; the model states the counts, series and analysis.
- Feed.PopularPosts: MongoDB sorts the `likes` array field by its greatest element, not by its length. The model sorts by like count, as the comment on that query describes. Ties keep store order.
- Dashboard.Tally: the `$sort` stage after `$group` is left out, because the series looks days up by key and keys are distinct.
- Dashboard.AvgHundredths: `toFixed(2)` rounds the binary floating-point quotient; the model rounds the exact quotient, which can differ on halves.
- Dashboard.DayOf: dates beyond year 9999 and the string form of the key are not modelled.
- Number coercion: `Number(price)`, `isNaN(minutes)` and fractional minutes. Prices and ban durations are integers after coercion, `None` when missing or not a number.
- Request body fields other than `type`, `categories` and the category query are strings or absent. So is the content of `createPost`, whose non-string values are not modelled.
- Mongoose casting of ids to ObjectId: ids are opaque strings, so a malformed id is simply not found. The model does not capture Mongoose's cast of a report's `user` to an ObjectId. `reportPost` pushes the caller's identity-provider id, so the `save` would fail that cast and answer 500. The model stores the pushed id as given.
- The user, comment and notification models are not part of this model. Their validators, unique indexes and the `updatedAt` timestamps are not modelled. The spam notice is addressed through the `user` field the handler sets.
- The admin handlers `adminDeletePost` and `adminBanUser` check no authorization, and backend/src/routes/user.route.js:36-38 mounts them without `protectRoute`. The model takes any caller, as the code does, and states no access-control property.
- Concurrency: `Promise.all` and the separate updates of `followUser` and `likePost` are modelled as sequential steps on one store.
- Shuffling.Shuffle: the shuffle is proved a permutation, and every permutation is proved reachable. How likely each permutation is depends on `Math.random` and is not modelled.
- PostModel.Create: string lengths are counted in characters, not UTF-16 code units.

## Findings

| source | as written | input that shows it | evidently intended | confidence | as-written member | corrected member |
|---|---|---|---|---|---|---|
| backend/src/controllers/user.controller.js:70 | the self-follow guard compares the caller's identity-provider id with the target's record id, which never match | a user with record id `u1` and identity-provider id `c1` requests to follow `u1` | compare the caller's record id with the target id | high, not executed | UserController.SelfFollowSlipsThrough | UserController.FollowKeepsNoSelfFollow |
| backend/src/controllers/post.controller.js:284 | the share passes `category`, a path the schema does not declare, so the new post gets the default `[]` categories | sharing any post | copy `categories` from the original | high, not executed | PostController.ShareAsWrittenAlwaysFails | PostController.ShareOutcome |
| backend/src/controllers/user.controller.js:170 | the admin delete removes the post but not its comments | a post with one comment, deleted by an admin | delete the post's comments too, as `deletePost` does | medium, not executed | UserController.AdminDeleteOrphansComments | UserController.AdminDeleteKeepsNoOrphans |
| backend/src/controllers/post.controller.js:50 | the following share is `Math.floor(totalCount * 0)`, while the comment at line 48 says 70% following | 10 following posts and the 10 popular ones the limit then allows: the feed holds no following post | a ratio of 0.7 | medium, not executed | Feed.CodeRatioFeedHasNoFollowingPost | Feed.IntendedRatioExample |
