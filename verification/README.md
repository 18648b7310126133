# Request handlers of a video-sharing backend, modelled in Dafny

This project models the mutation handlers of a video-sharing backend (an
Express/Mongoose service). The handlers register users, upload and edit
videos, and manage comments, likes, subscriptions, tweets and playlists.
The database is modelled as a class `Store.Db` with one field per
collection:

- the entity collections (users, videos, comments, tweets, playlists) are
  tables `map<Id, Record>` keyed by ObjectId;
- the edge collections (likes, subscriptions) are sequences in insertion
  order, and may hold duplicates.

Each handler is a method in the module of its controller file. It takes
`db` and the requester's id, which is the authenticated `req.user._id`,
together with the request's inputs. It returns `Ok(record)` or
`Err(status, message)`, the `ApiError` the handler throws. An empty string
stands for a missing (falsy) request parameter.

Each handler's contract gives:

- the order of its checks (validation, then existence, then ownership);
- the exact status and message of every failure, after the
  `catch (error) { throw new ApiError(…) }` rewrap where the handler has one;
- that a failure leaves the database unchanged, except for the
  half-created playlist of `createPlaylist`;
- the whole new database on success, through `Db.Snapshot()`.

The media host (Cloudinary) is not called. Each file field of a request
is an input, `NoFile` or `File(upload)`. Here `upload` is what the upload
would have returned: a URL and duration, or `None` for `null`. Handlers
that touch media also return the calls that reach the media host, in
order (`Upload(field)`, `Destroy(publicId, resourceType)`). The delete
helper of `src/utils/cloudinary.js` returns without a call when the
public id is empty, so no `Destroy` is recorded then.

The MongoDB operations are pure functions on sequences in module `Mongo`:

- `$addToSet` is `AddToSet`;
- `$pull` is `Pull`;
- `findOneAndDelete` on an edge collection is `RemoveFirst`;
- a query's selection is `Filter`.

The JavaScript built-ins `lastIndexOf`, `substring` (clamping and swapping
its arguments) and `toLowerCase` are pure functions in module `Js`.
Lemmas about these functions prove the properties that span several
calls:

- `$pull` undoes `$addToSet`;
- like-then-unlike and subscribe-then-unsubscribe restore the counts;
- duplicate likes are counted twice;
- handlers for one like kind never touch likes of another kind;
- the public-id extraction behaves as stated on well-formed and malformed
  URLs;
- toggling `isPublished` twice restores the flag;
- the username conflict check is case-sensitive.

The model follows the code as written; in particular:

- `updateVideoFile` and `updateThumbnail` have no ownership check;
- `updateVideoDetails` reports a non-owner as status 500, because its
  catch replaces the 401;
- comments can be edited and deleted by anyone;
- likes and subscriptions are append-only with no uniqueness check.

## Model

| member | source | states |
|---|---|---|
| `Api.Rethrow` | src/controllers/like.controller.js:46-50 | a success passes through unchanged; an error gets the new status and keeps its message, and an error with an empty message gets the fallback message instead |
| `Js.LastIndexOf` | src/controllers/video.controller.js:97-100 | -1 exactly when the character is absent; otherwise a position holding it with no occurrence after it |
| `Js.Substring` | src/controllers/video.controller.js:97-100 | in-range arguments give that slice; arguments in the wrong order are swapped; a negative end (the -1 of a failed `lastIndexOf`) is clamped to 0 and swapped |
| `Js.ToLowerCase` | src/controllers/user.controller.js:46 | same length; no upper-case ASCII letter remains; other characters unchanged; upper-case letters shifted to lower case |
| `Js.ToLowerCaseIdempotent` | src/controllers/user.controller.js:46 | lowercasing a lowercased username changes nothing |
| `Mongo.AddToSet` | src/controllers/playlist.controller.js:52-60 | the old list is a prefix of the new one; the new list's elements are the old ones plus the video; it grows by one exactly when the video was absent |
| `Mongo.AddToSetIdempotent` | src/controllers/playlist.controller.js:52-60 | adding a video that is already in the list leaves the list unchanged |
| `Mongo.Pull` | src/controllers/playlist.controller.js:84-92 | no occurrence of the video remains; every other value keeps its multiplicity; the length drops by the number of occurrences removed |
| `Mongo.PullConcat` | src/controllers/playlist.controller.js:84-92 | `$pull` distributes over concatenation, so it keeps the relative order of the remaining videos |
| `Mongo.PullAbsent` | src/controllers/playlist.controller.js:84-92 | pulling a video that is not in the list leaves the list unchanged |
| `Mongo.PullAfterAddToSet` | src/controllers/playlist.controller.js:52-92 | adding a video that was not in the list and then pulling it restores the original list |
| `Mongo.RemoveFirst` | src/controllers/like.controller.js:34-37 | with a match, exactly one matching record goes and all others stay (multiset difference of one); with none, the collection is unchanged |
| `Mongo.RemoveFirstAt` | src/controllers/like.controller.js:34-37 | the record removed is the first match, and the rest keep their order |
| `Mongo.FilterAppend` | src/controllers/like.controller.js:10-13 | appending an edge adds it to a query's selection exactly when the query selects it |
| `Mongo.FilterRemoveUnselected` | src/controllers/subscription.controller.js:38-41 | deleting an edge that a query does not select leaves that query's selection unchanged |
| `Mongo.FilterRemoveSelected` | src/controllers/subscription.controller.js:38-41 | deleting an edge that a query selects removes that edge, and only it, from the selection |
| `Mongo.FilterCountRemoveFirst` | src/controllers/like.controller.js:34-41 | a delete-one lowers a query's count by one exactly when a matching edge existed and the query selects it |
| `PlaylistController.CreatePlaylist` | src/controllers/playlist.controller.js:7-33 | empty name: 400 "Name is required", store unchanged; unknown video: 404, but a playlist with no videos was already stored; otherwise the playlist is owned by the requester and its video list is exactly `[videoId]` |
| `PlaylistController.AddVideoToPlaylist` | src/controllers/playlist.controller.js:35-65 | missing ids 400, then unknown playlist 404, then non-owner 403, each leaving the store unchanged; success exactly when all guards pass, with the list becoming `AddToSet(list, videoId)` and nothing else changed; the video's existence is never checked |
| `PlaylistController.RemoveVideoFromPlaylist` | src/controllers/playlist.controller.js:67-97 | the same 400/404/403 guards; success sets the list to `Pull(list, videoId)` and leaves every other playlist and collection unchanged |
| `PlaylistController.DeletePlaylist` | src/controllers/playlist.controller.js:99-118 | missing id 400, unknown 404, non-owner 403, each with the store unchanged; on success exactly that playlist is removed and nothing else changes |
| `PlaylistController.AddThenRemoveVideo` | src/controllers/playlist.controller.js:52-92 | the owner adding a video that is not in the list and then removing it leaves the whole database as it was |
| `LikeController.AddLike` | src/controllers/like.controller.js:6-28 | `videoLike`/`commentLike`/`tweetLike` always append one like with exactly one target and `likedBy` = requester; no other collection changes |
| `LikeController.RemoveLike` | src/controllers/like.controller.js:30-52 | `videoUnlike`/`commentUnlike`/`tweetUnlike`: with no matching edge, 500 "Failed to unlike the …" and the store unchanged; otherwise exactly the first matching edge is deleted |
| `LikeController.LikeTwiceCountsTwice` | src/controllers/like.controller.js:10-13 | there is no uniqueness check: two likes on the same target raise its like count by two |
| `LikeController.LikeThenUnlikeRestoresCount` | src/controllers/like.controller.js:10-41 | a like followed by an unlike of the same (target, user) restores the target's like count |
| `LikeController.OtherKindsUntouched` | src/controllers/like.controller.js:54-145 | appending or deleting a like on one target kind leaves the likes on every other kind unchanged |
| `LikeController.LikeThenUnlike` | src/controllers/like.controller.js:6-52 | running the like handler and then the unlike handler restores the target's like count and every other collection |
| `SubscriptionController.AddSubscriber` | src/controllers/subscription.controller.js:6-30 | a missing channel id fails with 500 "Channel ID is required" (the 400 is rewritten); otherwise it appends (requester, channel) with no duplicate or self-subscription check |
| `SubscriptionController.RemoveSubscriber` | src/controllers/subscription.controller.js:32-56 | a missing channel id gives 500 "Channel ID is required"; no matching edge gives 500 "Failed to remove subscriber"; in both cases the store is unchanged; otherwise exactly the first (requester, channel) edge is deleted |
| `SubscriptionController.SubscribeThenUnsubscribeRestoresCount` | src/controllers/subscription.controller.js:12-41 | subscribe followed by unsubscribe restores the channel's subscriber count |
| `SubscriptionController.UnsubscribeRemovesOnlyOwnEdge` | src/controllers/subscription.controller.js:38-45 | unsubscribing lowers the channel's count by exactly one and leaves other users' edges to that channel untouched |
| `SubscriptionController.SubscribeThenUnsubscribe` | src/controllers/subscription.controller.js:6-56 | running both handlers restores the channel's subscriber count and every other collection |
| `TweetController.CreateTweet` | src/controllers/tweet.controller.js:6-27 | every failure, including missing content, is 500 "Failed to create tweet" with the store unchanged; on success a tweet with that content, owned by the requester, is added |
| `TweetController.UpdateTweet` | src/controllers/tweet.controller.js:29-51 | missing content, then unknown tweet, then non-owner; each keeps its message with status 500 and leaves the store unchanged; a non-owner never succeeds; success changes only that tweet's content |
| `TweetController.DeleteTweet` | src/controllers/tweet.controller.js:53-70 | unknown tweet, then non-owner, each 500 with the store unchanged; success removes exactly that tweet and returns it |
| `CommentController.AddComment` | src/controllers/comment.controller.js:7-39 | empty content is reported before an invalid video id, both as status 500 with the store unchanged; success adds a comment with that content and video, owned by the requester, whether or not the video exists |
| `CommentController.EditComment` | src/controllers/comment.controller.js:41-77 | validation ("Please enter a comment", "Invalid comment id"), then an unknown id gives "Failed to edit comment"; all are 500 with the store unchanged; success replaces only the content; no ownership check (the requester is not an input) |
| `CommentController.DeleteComment` | src/controllers/comment.controller.js:79-102 | an invalid id gives "Invalid comment id" and an unknown id gives "Failed to delete comment"; success removes exactly that comment, whoever owns it, and nothing else (its likes stay) |
| `VideoController.UploadVideo` | src/controllers/video.controller.js:10-56 | a missing title or description is reported before missing files, and no upload happens before both checks; both files are then uploaded; a `null` upload creates nothing; on success the owner is the requester and the URLs and duration come from the uploads; every error is 500 |
| `VideoController.MergeDetails` | src/controllers/video.controller.js:72-74 | only a non-empty title or description overwrites; a truthy `isPublished` flips the flag; no other field changes |
| `VideoController.PublishToggleTwice` | src/controllers/video.controller.js:74 | applying `isPublished` twice restores the original video |
| `VideoController.UpdateVideoDetails` | src/controllers/video.controller.js:58-84 | success exactly when an id and a truthy field are given, the video exists and the requester owns it; every failure is 500 "Something went wrong while updating video details" with the store unchanged |
| `VideoController.PublicId` | src/controllers/video.controller.js:97-100 | the id expression the file and thumbnail handlers share (the thumbnail copy is at lines 129-132): a `.` after the last `/` (or with no `/` at all) ends the id there, so `clip.mp4` gives `clip`; with no `.` the -1 end is clamped and swapped, giving everything through the last `/`; a `.` before the last `/` is swapped with it, giving the text from that `.` through that `/`; the id is never longer than the URL |
| `VideoController.PublicIdOfAssetUrl` | src/controllers/video.controller.js:97-100 | for a URL `…/<name>.<ext>` the extracted public id is `name` |
| `VideoController.PublicIdCasesComplete` | src/controllers/video.controller.js:97-100 | the three cases of `PublicId` cover every URL, because the last `/` and the last `.` never share a position |
| `VideoController.UpdateVideoFile` | src/controllers/video.controller.js:86-117 | missing file 400, then unknown id 400 "Invalid video id", with no ownership check; the old asset's public id is deleted before the upload, unless it is empty (then no delete call reaches the host); a `null` upload fails with nothing stored; success changes only `videoFile` and `duration` |
| `VideoController.UpdateThumbnail` | src/controllers/video.controller.js:119-148 | missing file 400, then unknown id 400 "Invalid video id", with no ownership check; delete (skipped for an empty public id) then upload; success changes only `thumbnail` |
| `UserController.CoverUrl` | src/controllers/user.controller.js:50 | the stored cover image is the uploaded cover's URL when a cover was sent and uploaded, and `""` when no cover was sent or its upload returned `null` |
| `UserController.WithoutSecrets` | src/controllers/user.controller.js:54-55 | the returned user has no password and no refresh token, and every other field is as stored |
| `UserController.RegisterUser` | src/controllers/user.controller.js:7-64 | a missing field gives 400, then a conflict gives 409, then a missing avatar gives 400, in that order; a `null` avatar upload gives 500 after the uploads; no user is created on any failure; success stores the lowercased username, the avatar URL and the cover URL or `""`, and returns the user without secrets; a table whose usernames are all lower case stays so |
| `UserController.MixedCaseUsernamePassesCheck` | src/controllers/user.controller.js:17-19 | the conflict check compares the username as given against lowercased stored names, so a name with an upper-case letter never conflicts on username |

## Left out

- Media host: `src/utils/cloudinary.js` is not part of this model. Upload results are inputs. The result of `deleteFromCloudinary` is never read by the handlers, so only the call is recorded.
- ObjectId generation: each create takes the new document's id as an input (`newId`), which must be non-empty and unused.
- ObjectId spellings: ids are assumed to arrive as the canonical lower-case 24-digit hexadecimal string. Mongoose casts every id in a lookup or update to an ObjectId, so an upper-case hex spelling, or the 12-character form, names the same document. The model compares ids as strings and does not identify these spellings. This affects lookups by id, `$addToSet` and `$pull` on a playlist's videos, and the matching of likes and subscriptions.
- `mongoose.isValidObjectId` is modelled by the BSON rule (12 characters, or 24 hexadecimal digits).
- Mongoose cast errors: a malformed id makes Mongoose throw a cast error. The model has no such error and treats a malformed id like any other unknown one. The next three lines say where this changes the answer.
- `findById` in every handler that looks a document up: the model answers "not found", or the handler's own message for it.
- `LikeController.RemoveLike` and `SubscriptionController.RemoveSubscriber`: when `findOneAndDelete` is given a malformed id, the source answers 500 with the cast error's message. The model answers "Failed to unlike the …" or "Failed to remove subscriber".
- `PlaylistController.AddVideoToPlaylist` and `PlaylistController.RemoveVideoFromPlaylist`: the playlist schema types `videos` as ObjectIds, so a malformed `videoId` makes the `$addToSet` or `$pull` update throw. The source then answers 500 with the cast error's message. The model succeeds.
- Create failures: `create` is assumed to succeed, so the `if (!response)` checks after `create` are not modelled. This is an assumption about the database, not an impossibility.
- `LikeController.AddLike` and `SubscriptionController.AddSubscriber`: the like and subscription path ids are never validated. If the like and subscription schemas, which are not part of this model, type those fields as ObjectIds, a malformed id makes `create` fail and the source answers 500 with the validation message. The model answers `Ok`.
- Fields that no handler reads or writes are not modelled: the view count, watch history, timestamps and the edge documents' own ids.
- `src/models/video.model.js` and `src/models/user.model.js` are not part of this model. The `isPublished` default is taken to be `true`. Unique indexes and the password-hashing hook of the user schema are not modelled, so registration follows only the handler's own conflict check.
- The optional `owner` of playlists and comments is modelled as always present, because every handler that creates one sets it.
- `toLowerCase` is modelled on ASCII letters only.
- `UserController.MixedCaseUsernamePassesCheck`: assumes the user schema declares no `lowercase` setter on `username`. Mongoose also applies such a setter to query filters, so with one the conflict check would compare lowercased names and the lemma would not describe the program. `src/models/user.model.js` is not part of this model.
- Truthiness: `isPublished` is a boolean input that stands for the truthiness of the body field, so the string `"false"` counts as `true`. Strings are falsy only when empty.
- `updateVideoDetails`, `updateVideoFile` and `updateThumbnail` read `id` from the request body, although their routes declare `:id`. The model follows the handlers.
- The un-awaited `save` in `updateThumbnail` is treated as completed. Concurrent requests are not modelled, including a `findByIdAndUpdate` that finds nothing because of a concurrent delete.
- HTTP plumbing is not modelled: routes, JWT middleware, response envelopes, success status codes and `src/index.js`. Neither are handlers that routes import but the controllers do not define (`deleteVideo`, `loginUser`, …), or the empty `getVideos` and `watchVideo`.
- The channel-profile, video-detail, feed and watch-history read models have no code in these controllers, so there is nothing to model for them.
