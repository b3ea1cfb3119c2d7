# VSenior forum back end: handlers and validators in Dafny

This project models the content and moderation logic of the VSenior forum's back end.
The store holds users, channels, posts, comments, replies, Like rows, Dislike rows and an
admin log. Each controller reads the store, runs a chain of guards, and then changes the
store one query at a time.

- The store is the class `Store.Db`. It has one map field per collection, keyed by document
  id. It also holds the admin log and a counter `nextId` that hands out fresh ids.
- Each query of the object-document mapper is one method of `Db`: a create, a
  replace-by-id (`SetTally`, `SetPost`, `SetChannel`, …) or a delete of a set of ids. A
  `$push` or `$pull` is a replace-by-id whose new list is `old + [id]` or `Pull(old, id)`.
- Each handler is a method over a `Db`. It returns a `Response` (`Ok`, `MissingFields`,
  `BadRequest(reason)`, `Forbidden`, `NotFound`, …) in place of an HTTP status and JSON body.
- Each handler's contract has two parts. First, one clause per guard, naming the response
  that guard produces. Second, the new store: it is unchanged on every refusal, and on
  success it equals a pure function of the old store (`Liked`, `CommentDeleted`,
  `ChannelDeleted`, …). Lemmas then prove what the controller promises about those
  functions.
- The invariant `Tables.WellFormed` holds before and after every handler. It says every key
  of every table, and every id inside a list, was handed out before `nextId`, and no user
  holds two Like rows on the same target. Reference fields such as `commentedOn` or
  `postedBy` are not bounded.
- The profanity filter is the function parameter `isProfane`.
- Mongoose's `strictQuery` setting is the constant `Db.strictQuery`. It decides what the
  two queries that filter on a path their collection never carries do. With it on, the
  path is dropped from the filter. With it off, the filter matches nothing.

Behaviour kept as the controllers write it:
- Likes are recorded as id lists on the target (`$push`/`$pull` on `likes`/`dislikes`).
  Dislikes are recorded as the counters `dislike_count` and `like_count`.
- `addDislike`'s "already reacted" lookup queries the Like collection with the Dislike
  field names (`Dislikes.StrayLikeFound`).
- The dislike-removing `removeLike` deletes the Dislike row before it looks the target up.
  It also answers with the counters as they were before the decrement.
- `DeleteReply` filters Dislike rows on `liked_on`. It never answers on success
  (`NoResponse`), and it leaves the reply's id in the comment's list.
- `updateReply` answers a non-author with status 400 and `success: true`. `DeleteReply`
  answers a non-author with status 403 and `success: true` (`RefusedAsSuccess`).
- `deletePost` removes the post's comments but not their replies
  (`Posts.DeletedPostOrphansReplies`). Neither `deletePost` nor `deleteComment` removes the
  reactions on nested documents.
- `createPost` never records a channel on the post. As a result, `deleteChannel` never
  finds such a post (`Channels.CreatedPostOutlivesChannel`). And `deleteAccount` throws on
  any user who has one (`Accounts.CreatedPostBlocksDeletion`).
- `editChannel` neither checks the new name for clashes nor validates the type.

## Model

| member | source | states |
|---|---|---|
| Text.Trim | Backend/src/controllers/comment.ts:13 | `trim()` returns the slice of the input left after removing a white-space prefix and a white-space suffix; neither of its ends is white space; it is empty exactly when the input is all white space |
| Content.AcceptedIsLongEnough | Backend/src/utils/checkBody.ts:4-5 | an accepted body has at least two characters, and at least three when none lies outside the basic multilingual plane |
| Text.TrimIdempotent | Backend/src/controllers/reply.ts:14 | trimming a trimmed body changes nothing |
| Text.Utf16Length | Backend/src/utils/checkBody.ts:4 | `length` counts UTF-16 code units: between one and two per character, and exactly one per character when every character is in the basic multilingual plane |
| Content.CheckBody | Backend/src/utils/checkBody.ts:3-14 | the verdict is one of exactly three strings; a body shorter than 3 code units is "Content Too Short" whatever the filter says; "valid" iff the length is at least 3 and the filter does not flag the body; the profanity message iff the length is at least 3 and the filter flags it |
| Passwords.IsStrongPassword | Backend/src/utils/checkStrongPassword.ts:2-5 | the regular expression accepts a password iff it has at least 8 characters, all from letters, digits and `@$!%*?#&`, and it contains a lowercase letter, an uppercase letter, a digit and one of `@$!%*?#&` |
| Gate.AdminOnly | Backend/src/middleware/adminOnly.ts:6-17 | the request is passed on iff a user is present and their role is "admin" or "super_admin"; otherwise 401; exactly one of the two happens; the user is only read |
| Store.ParseName | Backend/src/controllers/like.ts:31-42 | each of the three kinds "Post", "Comment" and "Reply" is recognised by its own name |
| Store.Pull | Backend/src/controllers/like.ts:63 | an id is in what `$pull` leaves iff it was in the list and is not the pulled id; the result is no longer than the list; a list without the id is left as it was (order and multiplicity: `Store.PullConcat`, `Store.PullMultiset`) |
| Store.PullMultiset | Backend/src/controllers/like.ts:63 | the multiset of what `$pull` leaves is that of the list with the id's count set to zero: every other id keeps its multiplicity |
| Store.PullConcat | Backend/src/controllers/like.ts:63 | `$pull` acts element by element: pulling from a concatenation is the concatenation of the pulls, and a single element is dropped exactly when it is the id, so the rest keep their order and multiplicity |
| Store.PullPushed | Backend/src/controllers/like.ts:60 | pulling an id just pushed onto a list that did not hold it gives the list back |
| Likes.AddLike | Backend/src/controllers/like.ts:9-97 | missing fields → 400; an existing Like of the caller on (target, kind) → 400; an unknown kind → 400; a missing target → 404; every refusal leaves the store unchanged; on success one Like row is created, its id is pushed onto the target's likes, and the caller's Dislike row, if any, is pulled and deleted |
| Likes.RemoveLike | Backend/src/controllers/like.ts:99-161 | missing fields → 400; an unknown kind → 400; a missing target → 404; no Like of the caller → 400 with no change; on success the Like row is pulled from the target's likes and deleted, and dislikes are untouched |
| Likes.LikedHoldsLike | Backend/src/controllers/like.ts:52-60 | after `addLike` the caller holds a Like row on the target |
| Likes.ClearedHoldsNoDislike | Backend/src/controllers/like.ts:61-65 | after the opposite dislike is cleared, the caller holds no Dislike row on the target |
| Likes.UnlikedHoldsNoLike | Backend/src/controllers/like.ts:142-146 | after `removeLike` the caller holds no Like row on the target |
| Likes.LikeThenUnlike | Backend/src/controllers/like.ts:52-60 | creating a Like row and pushing it, then pulling and deleting that same row, restores every table; only the id counter has moved |
| Likes.LikeThenUnlikeRestores | Backend/src/controllers/like.ts:142-146 | `addLike` then `removeLike`, run on a target the caller has neither liked nor disliked, leave the store as it was, with one id used up |
| Dislikes.AddDislike | Backend/src/controllers/dislike.ts:12-96 | missing fields → 400; a college channel and a non-member → 403; the Like-collection lookup → 400; an unknown kind or a missing target → 404; refusals write nothing; on success the store is the dislike ledger update, the caller holds no Like on the target, and the counts answered are the stored ones |
| Dislikes.AfterDislikeCounters | Backend/src/controllers/dislike.ts:45-79 | a successful `addDislike` raises `dislike_count` by exactly 1 and adds exactly one Dislike row of the caller; `like_count` drops by 1 exactly when a Like row of the caller was deleted; the id lists stay as they were |
| Dislikes.NoLikeLeft | Backend/src/controllers/dislike.ts:67-78 | deleting the caller's Like row leaves none on the target |
| Dislikes.RemoveDislike | Backend/src/controllers/dislike.ts:98-157 | missing fields → 400; the college gate → 403; no Dislike row → 400 with no change; otherwise the row is deleted first, a missing target then answers 404 with the row gone, and success lowers `dislike_count` by exactly 1 and answers the counts from before |
| Comments.CreateComment | Backend/src/controllers/comment.ts:8-76 | the content is trimmed; a missing post id or an empty body → 400; a body the content check rejects → 400 with its message; a duplicate (body, author, post) → 400; a missing post → 400; refusals write nothing; success inserts one comment with the trimmed body and pushes its id onto the post's list |
| Comments.EditComment | Backend/src/controllers/comment.ts:78-132 | missing fields → 400; an unknown comment → 404; a non-author → 403; a rejected body → 400; on success only that comment's body changes |
| Comments.DeleteComment | Backend/src/controllers/comment.ts:134-181 | missing id → 400; unknown → 404; non-author → 403; success pulls the comment from its post, deletes every reply to it, then the comment |
| Comments.CreatedCommentIsDuplicate | Backend/src/controllers/comment.ts:31-59 | the stored body is the trimmed content and is its own trim; sending the same comment again is refused as a duplicate |
| Comments.DeletedCommentLeavesNoReplies | Backend/src/controllers/comment.ts:164-168 | after `deleteComment`, the comment is gone, its post no longer lists it, and no reply points to it; every Like and Dislike row remains |
| Replies.CreateReply | Backend/src/controllers/reply.ts:9-76 | the content is trimmed; missing fields → 400; a rejected body → 400; a missing comment → 400; a duplicate (body, comment, author) → 400; refusals write nothing; success inserts one reply rooted at the comment's post and pushes its id onto the comment's list |
| Replies.UpdateReply | Backend/src/controllers/reply.ts:78-133 | missing fields → 400; a rejected body → 400; an unknown reply → 400; a non-author → 400 reported as success, with no change; on success only the body changes |
| Replies.DeleteReply | Backend/src/controllers/reply.ts:135-174 | missing id → 400; unknown → 400; a non-author → 403 reported as success; for the author, every Like row on the reply is deleted, the Dislike deletion follows `strictQuery`, the reply is deleted, and no response is sent |
| Replies.CreatedReplyIsDuplicate | Backend/src/controllers/reply.ts:41-61 | a new reply is rooted at its comment's post and is the last entry of the comment's list; sending it again is refused as a duplicate |
| Replies.DeletedReplyStaysListed | Backend/src/controllers/reply.ts:164-166 | after `DeleteReply`, no Like row points at the reply, yet the comment still lists its id; the Dislike rows all go under `strictQuery` and all stay without it |
| Posts.CreatePost | Backend/src/controllers/post.ts:9-38 | an empty title or body → 400 with no post; otherwise one post by the caller, with no channel recorded, pushed onto the named channel's list if that channel exists |
| Posts.EditPost | Backend/src/controllers/post.ts:40-88 | missing fields → 400; a missing post and a non-author both → 403; an unchanged title and body → 400 with no write; success replaces exactly the title and body |
| Posts.DeletePost | Backend/src/controllers/post.ts:90-140 | missing ids → 400; a missing post or a non-author → 403; an unknown channel → 400; success pulls the post from the channel and deletes its comments, the Like and Dislike rows on it, and the post |
| Posts.CreateThenDeletePost | Backend/src/controllers/post.ts:21-22 | deleting a post just created, from the channel it was created in, restores every table; only the id counter has moved |
| Posts.DeletedPostOrphansReplies | Backend/src/controllers/post.ts:122-126 | replies to the deleted post's comments survive and point at comments that no longer exist |
| Channels.NormaliseIdempotent | Backend/src/controllers/channel.ts:24 | a stored (lower-cased, trimmed) name normalises to itself |
| Channels.CreateChannel | Backend/src/controllers/channel.ts:13-58 | missing fields → 400; a normalised name already in use → 400; a type other than "open" or "college" → 400; refusals write nothing; success stores one channel under the normalised name |
| Channels.CreatedNameIsTaken | Backend/src/controllers/channel.ts:24-32 | once a channel is created, every spelling with the same normal form is refused |
| Channels.EditChannel | Backend/src/controllers/channel.ts:60-93 | missing fields → 400; an unknown channel → 404 with no change; success stores the normalised name and the type as given |
| Channels.EditCanDuplicateName | Backend/src/controllers/channel.ts:71-81 | editing can give a second channel a name already in use |
| Counting.CountByOwner | Backend/src/controllers/channel.ts:118-122 | the count-map loop: the map holds each owner met, with its number of occurrences; its iteration order lists each key once; its values sum to the number of documents read |
| Counting.Enumerate | Backend/src/controllers/channel.ts:115-116 | a query's result lists every matching document exactly once |
| Counting.CountsAreOwned | Backend/src/controllers/channel.ts:118-122 | the count map built over an enumeration gives each key, present or not, the number of documents it owns |
| Counting.CountIsOwnedBy | Backend/src/controllers/deleteAccount.ts:41-45 | counting the owners of distinct documents counts, for each owner, the documents it owns |
| Channels.AuthorCount | Backend/src/controllers/channel.ts:118-122 | each author's map value, 0 when absent, is the number of their posts in the channel |
| Channels.DebitedAlongOnce | Backend/src/controllers/channel.ts:124-132 | applying the per-author decrements one after the other lowers each listed user's `post_count` once by their value |
| Channels.DebitUsers | Backend/src/controllers/channel.ts:124-132 | the update loop lowers each existing user's `post_count` by their map value and changes nothing else |
| Channels.DebitAuthors | Backend/src/controllers/channel.ts:115-132 | counting the posts per author and then running the update loop lowers every user's `post_count` by exactly their number of the channel's posts |
| Channels.DeleteChannel | Backend/src/controllers/channel.ts:95-160 | missing id → 400; unknown → 404 with no change; success deletes the channel's posts, the comments on them, the replies to those comments, and every Like and Dislike row on any of them; lowers each author's `post_count` by their number of those posts; deletes the channel; nothing else changes |
| Channels.DeletedChannelLeavesNothing | Backend/src/controllers/channel.ts:140-148 | after `deleteChannel`, no post records the channel, and no comment, reply or reaction hangs off anything deleted |
| Channels.CreatedPostOutlivesChannel | Backend/src/controllers/post.ts:21 | a post created in a channel is listed by it, yet it survives the channel's deletion, and no post count moves |
| Admins.PromoteUser | Backend/src/controllers/admin.ts:8-68 | missing id → 400 before the role check; a caller who is not super admin → 403; an unknown user → 404; a user who is not a student → 400; refusals change no user and no log; success sets the role to admin and appends one PROMOTE entry (performer, target) |
| Admins.DemoteAdmin | Backend/src/controllers/admin.ts:70-121 | missing id → 400; a caller who is not super admin → 403; anyone other than an existing admin → 404; success sets the role to student and appends one DEMOTE entry |
| Admins.AllAdmins | Backend/src/controllers/admin.ts:123-148 | a caller who is not super admin gets 403; otherwise exactly the users whose role is "admin" or "super_admin" |
| Admins.PromoteThenDemote | Backend/src/controllers/admin.ts:47-54 | demoting a student just promoted gives back the users; the log has grown by the two entries |
| Admins.RolesMoveOneStep | Backend/src/controllers/admin.ts:101-108 | promotion and demotion never change the set of super admins; they add the user to the admins or remove them, and the admin list follows |
| Accounts.DeleteAccount | Backend/src/controllers/deleteAccount.ts:13-104 | missing id → 400; allowed iff the caller is admin or super admin or owns the account, else 403; unknown user → 404; a post with no channel makes the handler throw before any write; success deletes the user, their posts, the comments on those posts or by them, the replies to those comments or by them, and every Like and Dislike row by them or on any of these; lowers each channel's `post_count` by the user's posts in it |
| Accounts.ChannelCount | Backend/src/controllers/deleteAccount.ts:41-45 | each channel's map value, 0 when absent, is the number of the user's posts recorded on it |
| Accounts.DebitedAlongOnce | Backend/src/controllers/deleteAccount.ts:47-55 | applying the per-channel decrements one after the other lowers each listed channel's `post_count` once by its value |
| Accounts.DebitChannels | Backend/src/controllers/deleteAccount.ts:47-55 | the update loop lowers each existing channel's `post_count` by its map value and changes nothing else |
| Accounts.DebitChannelsOf | Backend/src/controllers/deleteAccount.ts:38-55 | counting the user's posts per channel and then running the update loop lowers every channel's `post_count` by exactly the user's posts recorded on it |
| Accounts.DeletedAccountLeavesNothing | Backend/src/controllers/deleteAccount.ts:67-85 | after `deleteAccount`, nothing by the user remains, and no comment hangs off their posts; channel lists keep their ids |
| Accounts.CreatedPostBlocksDeletion | Backend/src/controllers/deleteAccount.ts:42-44 | once a user has a post made by `createPost`, every request to delete their account that passes the checks ends in a server error |

## Left out

- Concurrency: each handler is one atomic sequential step. Interleavings between `await`s, the race between a duplicate check and its insert, and the `Promise.all` batches run one after the other are not modelled.
- Failures of the store or the network, and the catch branches they lead to, are not modelled. The two deterministic throws kept are `content.trim()` on an absent `content` and `deleteAccount`'s `posted_on.toString()` on a post with no channel; both answer `ServerError`.
- Request values of the wrong type (a number as `content`, an id that is not a valid ObjectId) are not modelled. Absent values are `None`, or the empty string for string fields.
- Authentication (JWT, cookies, Redis, bcrypt), sign-up, log-in, the bootstrap admin, rate limiters, mail and the front end are not part of this model. The caller is the `Actor` the token decodes to.
- The `bad-words` profanity filter is the parameter `isProfane`.
- `toLowerCase` is modelled on ASCII letters only. Other scripts' case mappings are not.
- Response bodies: each success carries only what a later step or property needs (an id, a tally, the two counts, the admin ids). The documents the controllers echo back, the messages and `success` flags are not modelled, except where `success: true` goes with a refusal.
- The mongoose schemas declare other fields than the controllers use (no `role` on users, no `type` or `post_count` on channels). The controllers' record shape is modelled, and schema validation (such as `required` on `channel_name`) is not.
- ObjectIds are natural numbers handed out by a counter. Ids of different collections never collide.
- Comments.CreateComment, Replies.CreateReply, Posts.CreatePost: the success answer carries the new id rather than the stored document. The document is fixed by the new store.
- Likes.AddLike, Likes.RemoveLike: the success answer carries the target's reaction fields rather than the whole target document.
- Admins.AllAdmins: the answer is the set of admin ids, without their names, e-mails or any order.
- Likes.AddLike: when the caller has more than one Dislike row on the target, the contract says only that one of them is cleared; the handler's `findOne` picks one the model does not name.
