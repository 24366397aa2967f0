# Video-platform REST controllers in Dafny

This project models the request handlers of a video-sharing backend (an Express and Mongoose
application): playlists, likes, subscriptions, the channel dashboard, comments, tweets and user
accounts. The database is one `Database.Store` object that holds every collection as a map from
document id to document, plus the next fresh id. Ids are handed out in creation order, so the
natural order of a collection is id order.

- A handler that writes to the database is a module-level method that takes the store as a
  parameter. Its `modifies` clause names exactly the store fields it may touch.
- Every handler returns a `Reply`: `Ok(status, body)` or `Err(status)`, with the HTTP status the
  handler sends.
- A handler that only reads is a function of the collections.

The contracts state:

- every error branch, in the order the handler checks it;
- the exact new state of the collection on success, and that nothing changes on failure;
- the invariant `Store.Valid`, which every handler of the model keeps. It says: ids are below
  the allocator; at most one like per (target, user); at most one subscription per (subscriber,
  channel); nobody subscribes to themselves; no playlist holds a video twice; e-mail addresses
  are unique. Two of these, no self-subscription and no duplicate playlist entry, rest on
  guards that the source writes as comparisons of id spellings. The model compares ids there;
  "## Findings" gives the inputs on which the source as written breaks them.

Lemmas relate the operations to each other. Toggling a like or a subscription twice restores the
liked or subscribed pairs. Adding a video to a playlist and removing it again gives back the
list. Creating then deleting a comment or tweet leaves the collection as it was. A logout
defeats every later refresh.

The query operators the handlers use are given meaning in `Query`:

- `$match` is `Where`;
- `$sort` is `SortBy`, an ordering of a set;
- `findOne` is `First`, the least matching id;
- `$skip`/`$limit` in a pipeline is `Window` (a negative skip or a limit that is not positive
  fails the request);
- `skip`/`limit` on a cursor is `CursorWindow` (a limit of 0 means no limit, a negative one its
  absolute value).

The JavaScript pieces the handlers rely on are in `Text` and `Pagination`: truthiness, `trim`,
`toLowerCase`, `parseInt(q) || d` against destructuring defaults, and `Math.ceil` producing
`Infinity` or `NaN` for a zero limit. Other modelling choices:

- A path parameter is an `IdParam`: either not a valid ObjectId, or a cast id together with
  whether the string was the id's canonical spelling.
- Password hashing is modelled as equality of the stored password.
- The tokens a handler signs, and the id a presented token decodes to, are parameters.

## Model

| member | source | states |
|---|---|---|
| Text.Trim | backend/src/controllers/tweet.controller.js:17 | `s.trim()` (no contract of its own; TrimShape, TrimEmptyIff and TrimIdempotent state what it returns) |
| Text.Present | backend/src/controllers/playlist.controller.js:11 | JavaScript truthiness of a body field: present and not "" (a definition) |
| Text.Blank | backend/src/controllers/user.controller.js:38 | `field?.trim() === ""`: present and trimming to "" (a definition; see GuardsByWhitespace) |
| Text.NoContent | backend/src/controllers/comment.controller.js:81 | `!content \|\| content.trim() === ""` (a definition; see GuardsByWhitespace) |
| Text.GuardsByWhitespace | backend/src/controllers/user.controller.js:38 | a field is blank exactly when it is present and all whitespace, and has no content exactly when it is absent or all whitespace |
| Text.ToLower | backend/src/controllers/user.controller.js:77 | `toLowerCase` keeps the length, maps each character by itself, and leaves no upper-case ASCII letter |
| Text.TrimShape | backend/src/controllers/comment.controller.js:81 | `trim` keeps one contiguous piece of the input, drops only whitespace on each side, and leaves no whitespace at either end |
| Text.TrimEmptyIff | backend/src/controllers/playlist.controller.js:16 | a string trims to "" exactly when it is all whitespace |
| Text.TrimIdempotent | backend/src/controllers/comment.controller.js:91 | trimming stored (already trimmed) content again changes nothing |
| Text.ToLowerIdempotent | backend/src/controllers/user.controller.js:77 | lower-casing an already lower-cased username changes nothing |
| Database.Store.Valid | backend/src/controllers/subscription.controller.js:24-56 | the invariant every handler of the model keeps: ids below the allocator, one like per (target, user), one subscription per (subscriber, channel), no self-subscription, no duplicate playlist entry, unique e-mails |
| Query.SortBy | backend/src/controllers/playlist.controller.js:104-106 | a `$sort` returns every document of the set exactly once, in key order (ties in any order) |
| Query.First | backend/src/controllers/subscription.controller.js:35-38 | `findOne` finds nothing exactly when nothing matches, and otherwise the earliest match |
| Query.Window | backend/src/controllers/playlist.controller.js:107-112 | `$skip`/`$limit` fails unless skip >= 0 and limit > 0; otherwise it keeps the `Kept` count of consecutive documents from position skip on |
| Query.SliceOfListing | backend/src/controllers/playlist.controller.js:104-112 | a run cut out of a sorted, duplicate-free listing is itself sorted, duplicate-free and drawn from the listing |
| Query.SortedPage | backend/src/controllers/like.controller.js:187-195 | one page of a sorted pipeline exists iff skip >= 0 and limit > 0; it is duplicate-free, in order, at most `limit` long, and equals the sorted listing from `skip` on |
| Query.CursorWindow | backend/src/controllers/tweet.controller.js:53-55 | cursor `skip`/`limit`: a negative skip fails, a limit of 0 keeps everything from skip on, a negative limit keeps at most its absolute value |
| Query.SortedCursorPage | backend/src/controllers/tweet.controller.js:52-55 | the sorted cursor page is the cursor window of the sorted listing, duplicate-free, in order, and bounded by the limit's absolute value |
| Query.WithKeyImage | backend/src/controllers/like.controller.js:21-24 | a lookup by key finds a document iff the key is in the collection's key image; under uniqueness it finds exactly one |
| Query.WhereInsert | backend/src/controllers/subscription.controller.js:49-52 | a created document joins a filter exactly when it matches it; the rest of the filter is unchanged |
| Query.WhereRemove | backend/src/controllers/subscription.controller.js:42 | a deleted document leaves every filter; nothing else leaves |
| Query.ImageInsert | backend/src/controllers/like.controller.js:35-38 | creating a document adds exactly its key to the key image, and keeps keys unique when the key was new |
| Query.ImageRemove | backend/src/controllers/like.controller.js:27-28 | deleting the only document with a key removes exactly that key from the key image |
| Pagination.ParsedOr | backend/src/controllers/playlist.controller.js:51-52 | `parseInt(q) \|\| d` is the parsed number or the fallback, never 0 unless the fallback is, and a usable parsed number is never overridden |
| Pagination.ParsedLimitPages | backend/src/controllers/playlist.controller.js:52 | a limit read with a non-zero fallback always gives a numeric `totalPages` (never Infinity or NaN) |
| Pagination.GivenOr | backend/src/controllers/tweet.controller.js:34 | destructuring default: the fallback applies only to an absent value (no contract of its own; see ZeroLimitQuery) |
| Pagination.ZeroLimitQuery | backend/src/controllers/tweet.controller.js:34 | `limit=0` becomes 10 under `parseInt(limit) \|\| 10` with numeric `totalPages`, but stays 0 under a destructuring default, giving Infinity or NaN |
| Pagination.HasNextPage | backend/src/controllers/playlist.controller.js:128 | `page < totalPages` with JavaScript's comparisons against Infinity and NaN (no contract of its own; see NextPageIffMoreItems) |
| Pagination.TotalPages | backend/src/controllers/playlist.controller.js:117 | `Math.ceil(total / limit)`: for a positive limit the least page count covering `total`; the mirrored bound for a negative one; Infinity or NaN for 0 |
| Pagination.NextPageIffMoreItems | backend/src/controllers/playlist.controller.js:128 | with a positive limit, `page < totalPages` holds exactly when an item lies beyond the current page |
| Pagination.MetaFor | backend/src/controllers/playlist.controller.js:119-130 | the pagination object carries the page and total, `hasPrevPage` iff page > 1, and `hasNextPage` iff more items follow |
| Playlists.Without | backend/src/controllers/playlist.controller.js:330 | the filter, comparing ids: the result holds exactly the videos other than `v`, and is no longer |
| Playlists.WithoutConcat | backend/src/controllers/playlist.controller.js:330 | filtering keeps the relative order of the remaining videos |
| Playlists.WithoutAbsent | backend/src/controllers/playlist.controller.js:330 | filtering out an absent video changes nothing |
| Playlists.WithoutCounts | backend/src/controllers/playlist.controller.js:330 | every other video keeps its multiplicity and `v` has none left |
| Playlists.WithoutDistinct | backend/src/controllers/playlist.controller.js:330 | filtering keeps a duplicate-free list duplicate-free |
| Playlists.AppendDistinct | backend/src/controllers/playlist.controller.js:286-292 | appending a video after the duplicate check keeps the list duplicate-free |
| Playlists.AddThenRemove | backend/src/controllers/playlist.controller.js:260-336 | adding an absent video and then removing it gives back the original list |
| Playlists.ListedAsWritten | backend/src/controllers/playlist.controller.js:286 | `videos.includes(videoId)` as written: some stored id's string form equals the parameter as spelled (no contract of its own) |
| Playlists.WithoutAsWritten | backend/src/controllers/playlist.controller.js:330 | the filter as written, comparing string forms with the spelled parameter (no contract of its own) |
| Playlists.AddAsWritten | backend/src/controllers/playlist.controller.js:285-292 | the duplicate check and push as written (no contract of its own; see the lemmas below) |
| Playlists.RemoveAsWritten | backend/src/controllers/playlist.controller.js:324-330 | the membership check and filter as written (no contract of its own; see the lemmas below) |
| Playlists.WithoutAsWrittenCanonical | backend/src/controllers/playlist.controller.js:330 | for the canonical spelling the filter as written equals the filter by id |
| Playlists.AsWrittenAgreesOnCanonical | backend/src/controllers/playlist.controller.js:285-330 | for the canonical spelling, add and remove as written answer exactly as the id comparisons of the handlers do |
| Playlists.AsWrittenAddsDuplicate | backend/src/controllers/playlist.controller.js:286-291 | another accepted spelling of a listed video passes the duplicate check as written and is appended again, leaving the list with a duplicate |
| Playlists.AsWrittenRemoveMisses | backend/src/controllers/playlist.controller.js:325-327 | another accepted spelling of a listed video is answered 404 by the check as written |
| Playlists.CreatePlaylist | backend/src/controllers/playlist.controller.js:7-41 | 400 for a missing name or description, 400 for a blank name, 401 without a caller; otherwise an empty playlist with trimmed fields under a fresh id (201); no change on error |
| Playlists.AddVideoToPlaylist | backend/src/controllers/playlist.controller.js:260-297 | ids 400, caller 401, playlist 404, owner 403, duplicate 400, comparing ids whatever the spelling; otherwise the video is appended, the list stays duplicate-free, and only that playlist changes |
| Playlists.RemoveVideoFromPlaylist | backend/src/controllers/playlist.controller.js:299-336 | ids 400, caller 401, playlist 404, owner 403, video not in the list 404, comparing ids whatever the spelling; otherwise no occurrence of the video remains and only that playlist changes |
| Playlists.DeletePlaylist | backend/src/controllers/playlist.controller.js:338-369 | id 400, caller 401, playlist 404, owner 403; otherwise exactly that playlist is removed |
| Playlists.UpdatePlaylist | backend/src/controllers/playlist.controller.js:371-424 | id 400, neither field 400, caller 401, playlist 404, owner 403, blank name 400; otherwise only the supplied fields change, trimmed |
| Playlists.UserPlaylists | backend/src/controllers/playlist.controller.js:42-135 | invalid id 400; 500 unless skip >= 0 and limit > 0; otherwise the owner's playlists newest first, one page of them (none when the owner's account is gone), with pagination over all of them |
| Likes.ToggleLike | backend/src/controllers/like.controller.js:7-122 | id 400 before caller 401; an existing like is deleted (200, false), otherwise one is created (201, true); exactly the caller's (target, user) pair flips and every other like is unchanged |
| Likes.ToggleTwice | backend/src/controllers/like.controller.js:7-44 | two toggles restore the liked pairs and give opposite replies |
| Likes.LikedVideos | backend/src/controllers/like.controller.js:124-222 | 401 without a caller; 500 unless skip >= 0 and limit > 0; otherwise one page of the listed likes: duplicate-free, newest first, at most `limit` long, equal to the sorted listing from the skip on, with a total counting every video like of the caller |
| Subscriptions.AsWrittenAdmitsSelfSubscription | backend/src/controllers/subscription.controller.js:24 | the self-check as written lets a caller through to their own channel when the id is spelled non-canonically |
| Subscriptions.GuardsExcludeSelf | backend/src/controllers/subscription.controller.js:12-32 | the intended guards never admit the caller's own channel, and agree with the written ones on canonical ids |
| Subscriptions.RemoveSubscriptionCounts | backend/src/controllers/subscription.controller.js:40-46 | an unsubscribe lowers the channel's subscriber count and the subscriber's count by one; other channels are unchanged |
| Subscriptions.AddSubscriptionCounts | backend/src/controllers/subscription.controller.js:47-56 | a subscribe raises both counts by one; other channels are unchanged |
| Subscriptions.DeleteSubscription | backend/src/controllers/subscription.controller.js:42 | removing a subscription keeps the store's invariant and removes nothing else |
| Subscriptions.InsertSubscription | backend/src/controllers/subscription.controller.js:49-52 | creating a new (subscriber, channel) pair under a fresh id keeps pairs unique and adds exactly that pair |
| Subscriptions.ToggleSubscription | backend/src/controllers/subscription.controller.js:9-58 | id 400, caller 401, own channel 400, unknown channel 404; it succeeds exactly when these guards pass; then the pair flips, the counts move by one, and other channels are unchanged |
| Subscriptions.ToggleSubscriptionTwice | backend/src/controllers/subscription.controller.js:9-58 | two toggles restore the subscribed pairs; one reply is a creation and the other a deletion |
| Subscriptions.ChannelSubscribers | backend/src/controllers/subscription.controller.js:61-132 | id 400, unknown channel 404; otherwise every subscription to the channel whose subscriber exists, once each, newest first |
| Subscriptions.SubscribedChannels | backend/src/controllers/subscription.controller.js:135-216 | id 400, unknown user 404; otherwise every subscription the user holds to an existing channel, once each, newest first, with the channel's subscriber count |
| Dashboard.SumOver | backend/src/controllers/dashboard.controller.js:35-36 | `$sum` over a set of documents (no contract of its own; SumOverRemove and SumOverBound state its properties) |
| Dashboard.SumOverRemove | backend/src/controllers/dashboard.controller.js:36 | `$sum` does not depend on the order of its terms: any one term can be taken out first |
| Dashboard.SumOverBound | backend/src/controllers/dashboard.controller.js:36 | every video's views are at most the channel's total views |
| Dashboard.SumOfLikeCounts | backend/src/controllers/dashboard.controller.js:42-62 | summing the per-video like counts counts every like on the channel's videos exactly once |
| Dashboard.RoundedAverage | backend/src/controllers/dashboard.controller.js:87 | `Math.round(total / count)` is the nearest integer (halves up), and 0 without videos |
| Dashboard.Newest | backend/src/controllers/dashboard.controller.js:75-78 | `sort({ createdAt: -1 }).limit(5)`: up to five videos, newest first, and no omitted video is newer than a kept one |
| Dashboard.ChannelStats | backend/src/controllers/dashboard.controller.js:9-93 | the subscriber, video, view and like totals, the likes the user gave, the five newest videos and the rounded average; zero totals without videos |
| Dashboard.ChannelVideos | backend/src/controllers/dashboard.controller.js:95-187 | defaults only for absent page and limit; 500 unless skip >= 0 and limit > 0; otherwise one page of the owner's videos: duplicate-free, at most `limit` long, sorted by the chosen key and direction, equal to the sorted listing from the skip on, each with its like and comment counts, and pagination |
| Comments.AddComment | backend/src/controllers/comment.controller.js:77-107 | missing content 400, then invalid video id 400; otherwise a comment with trimmed content under a fresh id (201); no change on error |
| Comments.UpdateComment | backend/src/controllers/comment.controller.js:109-152 | content 400, id 400, unknown 404, not the author 403; otherwise only the content changes, trimmed |
| Comments.DeleteComment | backend/src/controllers/comment.controller.js:154-184 | id 400, unknown 404, not the author 403; otherwise exactly that comment is removed |
| Comments.AddThenDelete | backend/src/controllers/comment.controller.js:77-184 | a comment its author adds and then deletes leaves the comments as they were |
| Comments.VideoComments | backend/src/controllers/comment.controller.js:7-75 | invalid id 400; otherwise exactly the comments on the video, once each, newest first |
| Tweets.CreateTweet | backend/src/controllers/tweet.controller.js:8-30 | missing content 400; otherwise a tweet with trimmed content under a fresh id (201) |
| Tweets.UpdateTweet | backend/src/controllers/tweet.controller.js:73-108 | id 400 before content 400, unknown 404, not the author 403; otherwise only the content changes, trimmed |
| Tweets.DeleteTweet | backend/src/controllers/tweet.controller.js:110-135 | id 400, unknown 404, not the author 403; otherwise exactly that tweet is removed |
| Tweets.CreateThenDelete | backend/src/controllers/tweet.controller.js:8-135 | a tweet its author creates and then deletes leaves the tweets as they were |
| Tweets.UserTweets | backend/src/controllers/tweet.controller.js:32-71 | id 400, unknown user 404, negative skip 500; otherwise the cursor page of the user's tweets: duplicate-free, newest first, bounded by the limit's absolute value (unbounded for 0), and pagination over all of them |
| Users.SameEmailUpdate | backend/src/controllers/user.controller.js:239-241 | changing a user's fields other than the e-mail keeps e-mails unique |
| Users.RegisterUser | backend/src/controllers/user.controller.js:33-92 | a blank supplied field 400, a registered e-mail 409, no avatar 400, an absent field 500; otherwise the user with the lower-cased username and no refresh token under a fresh id (201) |
| Users.InsertUser | backend/src/controllers/user.controller.js:71-78 | creating a user with a new e-mail keeps e-mails unique and stores it under a fresh id |
| Users.LoginMatches | backend/src/controllers/user.controller.js:104 | the users `$or: [{ email }, { username }]` can match (no contract of its own) |
| Users.EmailLoginUnique | backend/src/controllers/user.controller.js:104 | with unique e-mails, a login by e-mail alone matches at most one user, namely the one with that e-mail |
| Users.IncomingToken | backend/src/controllers/user.controller.js:178 | a token is read exactly when the cookie or the body carries a non-empty one, and the cookie wins when it does |
| Users.StoreRefreshToken | backend/src/controllers/user.controller.js:9-31 | the issued refresh token becomes the user's stored one; nothing else changes |
| Users.Login | backend/src/controllers/user.controller.js:94-145 | neither e-mail nor username 400; no match 400; wrong password 400; otherwise the first match's stored token is replaced and both tokens returned (200) |
| Users.RefreshAccessToken | backend/src/controllers/user.controller.js:176-224 | succeeds exactly when a token is presented, verifies, names an existing user and equals the stored token; every failure is 400 with no change; success rotates the stored token |
| Users.Logout | backend/src/controllers/user.controller.js:147-174 | always 200; the caller's stored refresh token is cleared and nothing else changes |
| Users.LogoutThenRefresh | backend/src/controllers/user.controller.js:147-224 | after a logout no presented token refreshes the caller's session |
| Users.RefreshTwice | backend/src/controllers/user.controller.js:176-224 | presenting the same token twice succeeds twice only if the rotation issued that very token again |
| Users.ChangeCurrentPassword | backend/src/controllers/user.controller.js:226-249 | a missing account 500, wrong old password 400; otherwise only the password changes |
| Users.ChannelProfile | backend/src/controllers/user.controller.js:350-421 | missing or blank name 400, no user with the lower-cased name 404; otherwise the first such user, its subscriber and subscription counts, and whether the viewer subscribes to it |
| Users.LowerKeepsWhitespace | backend/src/controllers/user.controller.js:354-361 | lower-casing neither creates nor removes whitespace |
| Users.LowerKeepsBlank | backend/src/controllers/user.controller.js:354-361 | a name trims to "" exactly when its lower-cased form does |
| Users.UsersNamedLower | backend/src/controllers/user.controller.js:361 | a name and its lower-cased form select the same users |
| Users.ProfileIgnoresCase | backend/src/controllers/user.controller.js:350-421 | the profile of a name equals the profile of its lower-cased form |
| Users.ToggleFromProfile | backend/src/controllers/subscription.controller.js:9-58 | a subscription toggle by the viewer flips the profile's `isSubscribed` and moves its subscriber count by one |

## Left out

- Response projections, `populate` and the `ApiResponse` wrapper are not modelled; listings return document ids and the computed counts.
- `totalDuration` in the playlist listing is a floating-point sum and is not modelled.
- getPlaylistById, getCurrentUser, updateAccountDetails, updateAvatar, updatecoverImage and watchHistory are not part of this model.
- File uploads are not modelled; registration takes the resulting avatar and cover-image URLs as parameters, absent when the file or the upload is missing.
- Signing and verifying tokens are not modelled; the issued tokens and the decoded id are parameters. Password hashing is modelled as equality.
- Subscriptions.ChannelSubscribers: the `aggregatePaginate` page cut is not modelled; the contract covers the full listing the pipeline feeds it.
- Subscriptions.SubscribedChannels: the `aggregatePaginate` page cut is not modelled.
- Comments.VideoComments: the `aggregatePaginate` page cut is not modelled.
- Subscriptions.ToggleSubscriptionTwice: states that the subscribed pairs are restored, not the subscriber count directly; the count follows from the two single-toggle contracts.
- Query strings that do not parse as integers are modelled only for `parseInt`, where they become `None`. Where a handler uses the raw string (tweets, dashboard, comments), it is taken as a number.
- Text.ToLower lower-cases only the ASCII letters.
- Database.Email: a lookup by an absent e-mail is treated as matching nobody, in both registration and login.
- The unique index on usernames lives in the user schema, which is not part of this model.
- Dashboard.SortKey: `sortBy` names a field; the model takes the integer key function it selects.
- The dashboard's 401 and invalid-id 400 branches cannot be taken by an authenticated caller, so the caller is a plain id there.
- The 500 branches taken when a read after a successful create or update comes back empty are not modelled.
- Database.Store.Valid: excludes a playlist that already lists a video twice. The source as written can store one (see "## Findings"), so the playlist handlers are not modelled on such data.
- Concurrent requests are not modelled; each handler runs to completion against one store.

## Findings

| source | as written | input that shows it | evidently intended | confidence | as-written member | corrected member |
|---|---|---|---|---|---|---|
| backend/src/controllers/playlist.controller.js:286-291 | the duplicate check compares each stored id's string form with the parameter as spelled, then the push casts it | `videoId` = the id of a video already in the playlist, in upper-case hexadecimal: the check misses it and the video is stored twice | refuse any spelling of an id already in the list | not executed | Playlists.AsWrittenAddsDuplicate | Playlists.AddVideoToPlaylist |
| backend/src/controllers/playlist.controller.js:325-330 | the membership check and the filter compare string forms with the parameter as spelled | `videoId` = the id of a listed video in upper-case hexadecimal: the answer is 404 although the video is listed | remove the video whatever the spelling of its id | not executed | Playlists.AsWrittenRemoveMisses | Playlists.RemoveVideoFromPlaylist |
| backend/src/controllers/subscription.controller.js:24 | the self-subscription check compares the caller's canonical id string with the raw path parameter | `channelId` = the caller's own id written in upper-case hexadecimal: it passes `isValidObjectId`, differs as a string, and names the caller's own user | refuse whenever the parameter denotes the caller's id | not executed | Subscriptions.AsWrittenAdmitsSelfSubscription | Subscriptions.ToggleSubscription |
