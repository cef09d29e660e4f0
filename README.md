# Post command handlers of the Q&A service, in Dafny

This project models the post command handlers of `kafka/services/postService.js`: the
functions a message consumer calls to create a question, list questions four ways, read one
question, list questions by tag, add an answer, comment on a question or on an answer, vote
on a question or an answer, and accept an answer.

Each handler works on three tables and a cache:

- the post collection (a document store), keyed by post id, whose documents embed their
  answers, their top-level comments and an activity log;
- the user table (a relational store) with the counters `question_count`, `answer_count`,
  `comment_count`, `upvotes`, `downvotes` and `reputation`;
- the tag table with one `questionCount` per tag name;
- a key/value cache in which only the key `"posts"` is ever touched.

The project has three layers.

- `domain.dfy`, `text.dfy` and `ranking.dfy` hold the entities and the store operations the
  handlers rely on:
  - a user-counter increment, where a missing row matches nothing;
  - the positional `answers.$` update, which addresses the first answer with the id;
  - `String.prototype.includes`;
  - `find`, `sort(desc)` and `limit(20)`;
  - the owner join of the list handlers.
- `handlers.dfy` states each handler as a function from the state before the call to the
  state after it and the outcome reported to the callback. There are three outcomes:
  `Ok(result)` for `cb(null, result)`, `Err(failure)` for `cb(error, null)`, and
  `NoCallback` for a `catch` block that returns without calling the callback. The lemmas
  there prove what each handler promises. `history.dfy` proves what holds across any sequence
  of calls: posts are never removed, logs and comment lists only grow, an accepted answer
  stays accepted, tag counters never fall, and the collection stays consistent.
- `service.dfy` is the running program's view: one `PostService` object whose fields are the
  tables and the cache. It has one method per handler. Each method issues the store calls in
  the handler's order and is proved to end in exactly the state and outcome of the matching
  function.

Timestamps (`new Date()`) and fresh ids (`mongoose.Types.ObjectId()`, the id `save()`
assigns) are parameters. A post without an `ownerId` has `None` there, and so does a
comment payload without a `userId`.

## Model

| member | source | states |
|---|---|---|
| `Domain.Snapshot` | kafka/services/postService.js:68 | `find({})` returns one document per stored id, in the collection's natural order, and every stored post is among them |
| `Domain.Adjust` | kafka/services/postService.js:49-52 | `User.increment`/`decrement` changes exactly one counter of one row by `delta`; every other counter, name and picture stays; no row is added; a missing row matches nothing |
| `Domain.OwnerOf` | kafka/services/postService.js:71-78 | the owner join finds data exactly when the post has an owner id and the user table has that row, and then it is that row's name, reputation and picture |
| `Domain.AnswerIndex` | kafka/services/postService.js:372-375 | the positional `answers.$` update addresses the first answer with the id; it addresses nothing exactly when no answer has that id |
| `Domain.AnswerIndexIsFirst` | kafka/services/postService.js:431-435 | the positional update addresses answer `i` whenever `i` is the first answer with that id |
| `Text.Includes` | kafka/services/postService.js:13 | `body.includes(pat)` is true exactly when `pat` occurs at some position of `body` |
| `Ranking.Insert` | kafka/services/postService.js:68 | inserting into a descending ranking keeps it descending and adds exactly that document |
| `Ranking.SortDesc` | kafka/services/postService.js:68 | `sort({key: -1})` is a descending permutation of the documents |
| `Ranking.Top` | kafka/services/postService.js:68 | `limit(20)` keeps min(n, 20) documents in descending order, all drawn from the input, and nothing left out ranks higher than anything kept |
| `Ranking.Filter` | kafka/services/postService.js:177 | a filtered `find` returns exactly the documents that satisfy the query, each no more often than stored |
| `Ranking.FilterAppend` | kafka/services/postService.js:246 | filtering keeps natural order: the matches of a concatenation are the matches of each part in turn |
| `Ranking.Join` | kafka/services/postService.js:70-84 | the owner loop yields no more entries than documents; each entry pairs a returned document with its owner's data; no document with a known owner is dropped |
| `Ranking.JoinAppend` | kafka/services/postService.js:70-84 | the owner loop keeps the order of the documents it is given |
| `Ranking.JoinKeepsRank` | kafka/services/postService.js:70-84 | a ranked page stays ranked after the owner join |
| `Handlers.Bump` | kafka/services/postService.js:25-28 | the tag increments keep the set of tag rows and never lower a counter |
| `Handlers.FirstMissing` | kafka/services/postService.js:15-24 | the tag loop stops at the first name with no tag row, and every name before it has a row |
| `Handlers.FirstMissingIs` | kafka/services/postService.js:15-24 | the tag loop stops at index `k` whenever `k` is the first missing name, or the end |
| `Handlers.CreatePost` | kafka/services/postService.js:7-58 | no contract of its own: it is the handler's definition, from the state before the call to the state after it and the reply; `Handlers.CreatePostTagLimit`, `Handlers.CreatePostMissingTag`, `Handlers.CreatePostMissingOwner`, `Handlers.CreatePostSucceeds` and `Handlers.DistinctTagsCountedOnce` state its behaviour |
| `Handlers.CreatePostTagLimit` | kafka/services/postService.js:10-12 | more than five tags reports "Only 5 tags are allowed" and changes no table and not the cache |
| `Handlers.CreatePostMissingTag` | kafka/services/postService.js:15-24 | at the first missing tag the handler reports "Tag not present"; the tags before it keep one increment per occurrence; no post, user or cache entry changes |
| `Handlers.CreatePostMissingOwner` | kafka/services/postService.js:30-46 | with no owner row the handler throws after the tag loop: every tag keeps its increment, nothing else changes, no callback |
| `Handlers.CreatePostSucceeds` | kafka/services/postService.js:13-53 | the saved post carries the payload; `approved` is cleared exactly when the body contains "img"; one "asked" activity by the owner's name; the natural order gains the new id; the cache key is gone; the owner's `question_count` rises by exactly one and no other counter moves |
| `Handlers.DistinctTagsCountedOnce` | kafka/services/postService.js:15-29 | with distinct tag names each named tag's `questionCount` rises by exactly one and the others stay |
| `Handlers.ListPosts` | kafka/services/postService.js:60-205 | no contract of its own: it is the handler's definition, from the state before the call to the state after it and the reply; `Handlers.ListPostsSpec` and `Handlers.ListPostsIgnoresCache` state its behaviour for the four listings |
| `Handlers.ListPostsSpec` | kafka/services/postService.js:60-205 | a listing has at most 20 entries, ranked by `lastModifiedAt`, `viewCount` or `score`; each entry is a stored post with its owner's data; top-unanswered lists only posts without answers; no post of the page with a known owner is skipped |
| `Handlers.ListPostsIgnoresCache` | kafka/services/postService.js:62-68 | the listings read nothing from the cache: any cache contents give the same listing |
| `Handlers.GetPostById` | kafka/services/postService.js:207-236 | no contract of its own: it is the handler's definition, from the state before the call to the state after it and the reply; `Handlers.GetPostByIdEffect`, `Handlers.GetPostByIdMissing` and `Handlers.ViewedTwice` state its behaviour |
| `Handlers.GetPostByIdEffect` | kafka/services/postService.js:207-227 | reading a post raises its stored `viewCount` by one and changes no other post, user or tag; with an owner it replies with the document as it was before the increment, joined with that owner's name, reputation and picture, and stores that reply under `"posts"`; without one it reports the error and leaves the cache alone |
| `Handlers.GetPostByIdMissing` | kafka/services/postService.js:215-222 | reading a post that is not stored reports the error and changes no table and not the cache |
| `Handlers.ViewedTwice` | kafka/services/postService.js:215-219 | two reads raise the view count by exactly two; the second reply shows one more view than the stored count before the first read; the cache holds the second reply |
| `Handlers.PostsByTag` | kafka/services/postService.js:238-260 | no contract of its own: it is the handler's definition, from the state before the call to the state after it and the reply; `Handlers.PostsByTagSpec` states its behaviour |
| `Handlers.PostsByTagSpec` | kafka/services/postService.js:238-251 | the by-tag read returns exactly the stored posts whose tags contain the name, and every such post |
| `Handlers.AddAnswer` | kafka/services/postService.js:262-313 | no contract of its own: it is the handler's definition, from the state before the call to the state after it and the reply; `Handlers.AddAnswerEffect` states its behaviour |
| `Handlers.AddAnswerEffect` | kafka/services/postService.js:262-308 | one update appends an answer carrying the submitted body, the question's id and the answerer's id, with score 0, not accepted, no comments and one "answered" activity, plus one "answer" activity on the question; the answerer's `answer_count` rises by one even when no question matched; nothing else changes |
| `Handlers.AddComment` | kafka/services/postService.js:315-352 | no contract of its own: it is the handler's definition, from the state before the call to the state after it and the reply; `Handlers.AddCommentEffect`, `Handlers.CommentWithoutUser` and `Handlers.CommentThenView` state its behaviour |
| `Handlers.AddCommentEffect` | kafka/services/postService.js:315-352 | the comment and a "comment" activity are appended to the post whether or not the payload names the commenter; with a commenter the reply reports the match, that user's `comment_count` rises by one and the `"posts"` key is deleted; without one the counter update throws, so there is no callback and the users and the cache stay; tags and order never change |
| `Handlers.CommentWithoutUser` | kafka/services/postService.js:332-350 | a payload without `userId` leaves the posts exactly as a payload with one would, but changes no user, keeps the cache and never calls back |
| `Handlers.AddCommentToAnswer` | kafka/services/postService.js:354-387 | no contract of its own: it is the handler's definition, from the state before the call to the state after it and the reply; `Handlers.AddCommentToAnswerEffect` and `Handlers.AddCommentToAnswerNoMatch` state its behaviour |
| `Handlers.AddCommentToAnswerEffect` | kafka/services/postService.js:354-387 | the comment and its activity are appended to the first answer with that id, not to the question's log; the other answers and posts stay; with a commenter `comment_count` rises by one and the `"posts"` key is deleted, without one there is no callback and the users and the cache stay; tags and order never change |
| `Handlers.AddCommentToAnswerNoMatch` | kafka/services/postService.js:372-385 | when no answer has that id no post changes, yet with a commenter `comment_count` still rises, the `"posts"` key is deleted and the reply reports no match |
| `Handlers.CommentThenView` | kafka/services/postService.js:332-340 | a comment added to a post is the last comment of the post the next read returns |
| `Handlers.VoteQuestion` | kafka/services/postService.js:389-425 | no contract of its own: it is the handler's definition, from the state before the call to the state after it and the reply; `Handlers.VoteQuestionEffect`, `Handlers.VoteQuestionMissing`, `Handlers.VoteQuestionNoOwner` and `Handlers.UpvoteThenDownvote` state its behaviour |
| `Handlers.VoteQuestionEffect` | kafka/services/postService.js:389-420 | the question's score moves by exactly `value`; a 1 raises the voter's `upvotes` by one, any other value lowers `downvotes` by one; the owner's reputation moves by 10 in the vote's direction; nothing else changes |
| `Handlers.VoteQuestionMissing` | kafka/services/postService.js:392-403 | a vote on a missing question still changes the voter's counter, then throws without a callback |
| `Handlers.VoteQuestionNoOwner` | kafka/services/postService.js:392-418 | a vote on a stored question without an owner id moves its score by `value` and the voter's counter, then throws on the owner's reputation: no callback, nothing else changes |
| `Handlers.UpvoteThenDownvote` | kafka/services/postService.js:392-418 | an upvote then a downvote by the same user restores the score and the owner's reputation, but leaves the voter with one more upvote and one fewer downvote |
| `Handlers.VoteAnswer` | kafka/services/postService.js:427-463 | no contract of its own: it is the handler's definition, from the state before the call to the state after it and the reply; `Handlers.VoteAnswerEffect`, `Handlers.VoteAnswerMissing` and `Handlers.VoteAnswerNoOwner` state its behaviour |
| `Handlers.VoteAnswerEffect` | kafka/services/postService.js:427-458 | the first answer with that id has its score moved by `value`; the QUESTION owner's reputation moves by 5 in the vote's direction; the voter's counter moves as for question votes |
| `Handlers.VoteAnswerMissing` | kafka/services/postService.js:430-446 | a vote on an answer the question does not hold (or on a missing question) moves no score, still changes the voter's counter, then throws without a callback |
| `Handlers.VoteAnswerNoOwner` | kafka/services/postService.js:431-456 | an answer vote on a question without an owner id moves the first matching answer's score by `value` and the voter's counter, then throws on the owner's reputation: no callback, nothing else changes |
| `Handlers.MarkAccepted` | kafka/services/postService.js:465-523 | no contract of its own: it is the handler's definition, from the state before the call to the state after it and the reply; `Handlers.MarkAcceptedMissing`, `Handlers.MarkAcceptedEffect`, `Handlers.AcceptTwice` and `Handlers.AcceptTwoAnswers` state its behaviour |
| `Handlers.MarkAcceptedMissing` | kafka/services/postService.js:470-472 | when the question is missing or holds no answer with that id the handler throws before any update and nothing changes |
| `Handlers.MarkAcceptedEffect` | kafka/services/postService.js:465-518 | the answer becomes accepted and the question answer-approved; one "answer accepted" activity on the question and one "Approved" activity on the answer; the answer owner's reputation rises by 15; the reply counts a modification only when the answer was not accepted before |
| `Handlers.AcceptTwice` | kafka/services/postService.js:490-518 | accepting the same answer twice succeeds twice: 30 reputation in all, two activities on each log, and the second reply reports no modification |
| `Handlers.AcceptTwoAnswers` | kafka/services/postService.js:490-498 | two different answers of one question can both end up accepted |
| `History.CreatePostEvolves` | kafka/services/postService.js:7-58 | creating a post removes no post, user or tag row, and lowers no tag counter |
| `History.GetPostByIdEvolves` | kafka/services/postService.js:207-236 | reading a post is an `Evolves` step that keeps the post ids and the natural order: no post is removed, logs, comment lists and answer lists only grow, no answer or question loses its acceptance, no view count falls, and no user or tag row is added or removed; the exact change (one view more) is `Handlers.GetPostByIdEffect`'s |
| `History.AddAnswerEvolves` | kafka/services/postService.js:262-313 | adding an answer is an `Evolves` step that keeps the post ids and the natural order: no post is removed, logs, comment lists and answer lists only grow, no answer or question loses its acceptance, no view count falls, and no user or tag row is added or removed; the exact change is `Handlers.AddAnswerEffect`'s |
| `History.AddCommentEvolves` | kafka/services/postService.js:315-352 | adding a comment is an `Evolves` step that keeps the post ids and the natural order: no post is removed, logs, comment lists and answer lists only grow, no answer or question loses its acceptance, no view count falls, and no user or tag row is added or removed; the exact change is `Handlers.AddCommentEffect`'s |
| `History.AddCommentToAnswerEvolves` | kafka/services/postService.js:354-387 | commenting on an answer is an `Evolves` step that keeps the post ids and the natural order: no post is removed, logs, comment lists and answer lists only grow, no answer or question loses its acceptance, no view count falls, and no user or tag row is added or removed; the exact change is `Handlers.AddCommentToAnswerEffect`'s and `Handlers.AddCommentToAnswerNoMatch`'s |
| `History.VoteQuestionEvolves` | kafka/services/postService.js:389-425 | a question vote is an `Evolves` step that keeps the post ids and the natural order: no post is removed, logs, comment lists and answer lists only grow, no answer or question loses its acceptance, no view count falls, and no user or tag row is added or removed; the exact change (the score and the counters only) is `Handlers.VoteQuestionEffect`'s and `Handlers.VoteQuestionMissing`'s |
| `History.VoteAnswerEvolves` | kafka/services/postService.js:427-463 | an answer vote is an `Evolves` step that keeps the post ids and the natural order: no post is removed, logs, comment lists and answer lists only grow, no answer or question loses its acceptance, no view count falls, and no user or tag row is added or removed; the exact change (one answer's score and the counters only) is `Handlers.VoteAnswerEffect`'s and `Handlers.VoteAnswerMissing`'s |
| `History.MarkAcceptedEvolves` | kafka/services/postService.js:465-523 | accepting an answer is an `Evolves` step that keeps the post ids and the natural order: no post is removed, logs, comment lists and answer lists only grow, no answer or question loses its acceptance, no view count falls, and no user or tag row is added or removed; the exact change (two flags, two activities, the reputation) is `Handlers.MarkAcceptedEffect`'s and `Handlers.MarkAcceptedMissing`'s |
| `History.StepEvolves` | kafka/services/postService.js:7-523 | every state-changing handler keeps every post, only extends logs, comments and answers, never un-accepts, adds or removes no user or tag row, and lowers no tag counter |
| `History.CreatePostKeepsValid` | kafka/services/postService.js:46 | saving a post under a fresh id keeps ids, documents and natural order consistent |
| `History.GetPostByIdKeepsValid` | kafka/services/postService.js:215-219 | reading a post keeps the collection consistent |
| `History.AddAnswerKeepsValid` | kafka/services/postService.js:295-303 | adding an answer keeps the collection consistent |
| `History.AddCommentKeepsValid` | kafka/services/postService.js:332-340 | adding a comment keeps the collection consistent |
| `History.AddCommentToAnswerKeepsValid` | kafka/services/postService.js:372-375 | commenting on an answer keeps the collection consistent |
| `History.VoteQuestionKeepsValid` | kafka/services/postService.js:392-397 | a question vote keeps the collection consistent |
| `History.VoteAnswerKeepsValid` | kafka/services/postService.js:431-436 | an answer vote keeps the collection consistent |
| `History.MarkAcceptedKeepsValid` | kafka/services/postService.js:490-517 | accepting an answer keeps the collection consistent |
| `History.StepKeepsValid` | kafka/services/postService.js:7-523 | every state-changing handler keeps the collection consistent |
| `History.RunEvolves` | kafka/services/postService.js:7-523 | after any sequence of handler calls the collection is consistent and has only grown |
| `History.AcceptedStaysAccepted` | kafka/services/postService.js:490-493 | an accepted answer is still present, with its id, and accepted after any later calls, and its question stays answer-approved if it was: acceptance has no way back |
| `Service.JoinOwners` | kafka/services/postService.js:70-84 | the owner loop over a page returns exactly the owner join of that page |
| `Service.PostService.Increment` | kafka/services/postService.js:49-52 | one user-counter update; posts, order, tags and cache untouched |
| `Service.PostService.CountTags` | kafka/services/postService.js:15-29 | the tag loop stops at the first missing name and leaves each tag before it incremented once per occurrence; nothing else changes |
| `Service.PostService.CreatePost` | kafka/services/postService.js:7-58 | `createPost` ends in the state and outcome of `Handlers.CreatePost` |
| `Service.PostService.GetInterestingPosts` | kafka/services/postService.js:60-94 | replies with the listing by `lastModifiedAt` and changes nothing |
| `Service.PostService.GetHotPosts` | kafka/services/postService.js:96-131 | replies with the listing by `viewCount` and changes nothing |
| `Service.PostService.GetTopScorePosts` | kafka/services/postService.js:133-167 | replies with the listing by `score` and changes nothing |
| `Service.PostService.GetTopUnansweredPosts` | kafka/services/postService.js:169-205 | replies with the unanswered listing by `score` and changes nothing |
| `Service.PostService.GetPostById` | kafka/services/postService.js:207-236 | `getPostById` ends in the state and outcome of `Handlers.GetPostById` |
| `Service.PostService.GetPostByTag` | kafka/services/postService.js:238-260 | replies with the posts carrying the tag and changes nothing |
| `Service.PostService.AddAnswer` | kafka/services/postService.js:262-313 | `addAnswer` ends in the state and outcome of `Handlers.AddAnswer` |
| `Service.PostService.AddComment` | kafka/services/postService.js:315-352 | `addComment`, with or without a `userId` in the payload, ends in the state and outcome of `Handlers.AddComment` |
| `Service.PostService.AddCommentToAnswer` | kafka/services/postService.js:354-387 | `addCommentToAnswer`, with or without a `userId` in the payload, ends in the state and outcome of `Handlers.AddCommentToAnswer` |
| `Service.PostService.VoteQuestion` | kafka/services/postService.js:389-425 | `voteQuestion` ends in the state and outcome of `Handlers.VoteQuestion` |
| `Service.PostService.VoteAnswer` | kafka/services/postService.js:427-463 | `voteAnswer` ends in the state and outcome of `Handlers.VoteAnswer` |
| `Service.PostService.MarkAccepted` | kafka/services/postService.js:465-523 | `markAccepted` ends in the state and outcome of `Handlers.MarkAccepted` |
| `Service.PostService.Handle` | kafka/services/postService.js:7-523 | any state-changing handler call keeps the service's collection consistent |

## Where the code departs from what a reader would expect

In each case below the handler does something other than what its purpose suggests; the
model follows the code.

- Tag counters. A create that fails on a missing tag ought to leave the tag table as it was.
  The code raises each tag's counter as soon as it is found, so the earlier tags stay raised
  (`Handlers.CreatePostMissingTag`).
- Tag error message. The missing-tag failure is reported as the plain string
  "Tag not present", not as a distinct error kind.
- Single-post cache key. A single-post read would naturally cache under the post's own id.
  The code writes the shared key `"posts"`, and stores the document as it was before the view
  count was raised: `findOneAndUpdate` without `new: true` returns the old document.
- List cache reads. The list handlers look as if they were meant to serve from the cache,
  but their cache reads are commented out, so nothing reads the cache.
- One accepted answer. Accepting an answer would normally make it the only accepted one. The
  code does not check, so an answer can be accepted again and two answers can both be
  accepted (`Handlers.AcceptTwice`, `Handlers.AcceptTwoAnswers`).
- Vote values. A vote is meant to be +1 or -1. The code adds any `value` to the score, and
  takes the downvote path for every value other than 1.
- Downvote counter. The user counters other than reputation read as tallies that only grow.
  The code's downvote *decrements* the voter's `downvotes`.
- Answer-vote reputation. An answer vote would naturally credit the answer's author. The
  code credits the question's `ownerId`, because its lookup fetches the whole question.
- Comment payloads. The comment handlers read the commenter's `userId`, but the HTTP
  controller's comment routes (`backend/controllers/postController.js:91-93` and `101-103`)
  never send one. On such a payload the comment is stored and then the counter update
  throws, so the request gets no reply (`Handlers.CommentWithoutUser`).

## Left out

- The HTTP controller, with its status codes and the double response write after an error,
  is not part of this model.
- The message-broker request/reply bridge and the action dispatcher are not part of this model.
  Their source is not among the files, and their purpose is asynchronous messaging.
  `Service.PostService.Handle` dispatches on a command value only to state the consistency
  invariant across calls.
- The internals of the Mongoose, Sequelize and Redis clients are not modelled; only their
  observable effects on the tables and the cache are. Failures of the stores themselves
  (connection errors, timeouts, an id string that is not a valid ObjectId) are left out. The
  read handlers' `cb(e, null)` is modelled only for the faults the handlers' own code raises:
  a missing post and a missing owner in `getPostById`.
- JSON serialisation of the cached value is left out; the cache maps a key to an opaque value.
- Wall-clock time and id generation are left out. Each handler call takes one timestamp,
  although the source calls `new Date()` more than once within one call.
- Logging (`console.log`) is left out.
- Concurrency is left out. The model runs one handler at a time. The missing atomicity across
  separate store calls shows only as the order of steps inside each method, and as the state
  a `NoCallback` leaves behind.
- Schema defaults. `models/post` is not part of this model, so the defaults a saved document
  receives are the model's own: `score` 0, `viewCount` 0, `answerApproved` false, empty
  answers and comments, and `lastModifiedAt` set to the creation time. Three more choices
  follow from the missing schema. `Handlers.NewAnswer` gives a new answer an empty
  `comments` list, although the answer object the handler builds has no such field. No update
  ever changes `lastModifiedAt`, because schema timestamps are not modelled. `createPost`'s
  `approved` parameter stands for the schema default whenever the payload has none, which is
  what the HTTP controller's create route sends.
- Ties in the ranking. Mongo does not fix the order of documents with equal sort keys. The
  model keeps ties in natural order. The ranking lemmas do not depend on this choice; the
  exact position of tied entries does.
- Handlers.VoteQuestion and Handlers.VoteAnswer: an owner id of `None` stands both for a
  stored `ownerId: null` and for a missing one, and both are modelled as a thrown error with
  no callback. That holds for a missing id only because Sequelize (version 5 and later)
  rejects an `undefined` value in a `where` clause; the same assumption makes a comment
  payload without `userId` throw (`Handlers.AddComment`, `Handlers.AddCommentToAnswer`). A
  stored `null` instead becomes `WHERE id IS NULL`, which matches no row without throwing, so
  the source would call back with the update result; the model does not tell the two apart
  and does not capture that reply.
- Vote values are integers. The `value` of a vote arrives in a JSON body, so the source's
  `$inc` adds whatever number arrives, a fractional one included, and a non-numeric value
  fails the cast and throws before any counter moves. `Handlers.VoteQuestion` and
  `Handlers.VoteAnswer` take an `int` and model neither case.
- Duplicate ids. A `save()` whose id is already taken is modelled as a thrown duplicate-key
  error, so the handler returns without a callback.
- Service.PostService.CreatePost and the other state-changing methods do not require or
  ensure `Valid()` themselves. Their contracts tie them to the handler functions, and
  `History.StepKeepsValid` together with `Service.PostService.Handle` carries the consistency
  invariant.
