/** The post command handlers, each as a function from the tables and cache before the call
    to the tables and cache after it and the outcome it reports, with the properties the
    handlers promise proved about them. The store calls of every handler are applied in the
    order the handler issues them; nothing undoes an earlier call when a later one fails. */
module Handlers {
  import opened Domain
  import opened Text
  import opened Ranking

  const TooManyTags: string := "Only 5 tags are allowed"
  const TagNotPresent: string := "Tag not present"
  const ImageMarker: string := "img"

  const NotMatched: UpdateResult := UpdateResult(0, 0)

  /** An `updateOne` that matched one document; it is counted as modified only when the
      document actually changed. */
  function Matched(changed: bool): UpdateResult {
    UpdateResult(1, if changed then 1 else 0)
  }

  // ----- createPost -----

  /** Every existing tag's `questionCount` raised once per occurrence of its name in `names`. */
  function Bump(tags: map<string, nat>, names: seq<string>): (r: map<string, nat>)
    ensures r.Keys == tags.Keys
    ensures forall t :: t in tags ==> r[t] >= tags[t]
  {
    map t | t in tags :: tags[t] + multiset(names)[t]
  }

  /** Where the tag loop stops: the index of the first name with no tag row, or `|names|`. */
  function FirstMissing(tags: map<string, nat>, names: seq<string>): (k: nat)
    ensures k <= |names|
    ensures forall i :: 0 <= i < k ==> names[i] in tags
    ensures k < |names| ==> names[k] !in tags
  {
    if names == [] || names[0] !in tags then 0 else 1 + FirstMissing(tags, names[1..])
  }

  /** The tag loop stops at the first missing name, and only there. */
  lemma {:induction false} FirstMissingIs(tags: map<string, nat>, names: seq<string>, k: nat)
    requires k <= |names| && forall i :: 0 <= i < k ==> names[i] in tags
    requires k < |names| ==> names[k] !in tags
    ensures FirstMissing(tags, names) == k
  {
    if k > 0 {
      FirstMissingIs(tags, names[1..], k - 1);
    }
  }

  function ApprovedFlag(body: string, approved: bool): bool {
    if Includes(body, ImageMarker) then false else approved
  }

  function NewPost(newId: ObjectId, title: string, body: string, tags: seq<string>, ownerId: Option<UserId>,
                   approved: bool, owner: User, now: Time): Post
  {
    Post(newId, title, body, tags, ownerId, ApprovedFlag(body, approved), 0, 0, false, [], [],
         [Activity(now, "asked", Name(owner.fullName), "")], now)
  }

  /** `createPost`: reject more than five tags; raise each tag's counter as it is found and stop
      at the first missing one; read the owner (a missing owner throws); save the post (an id
      already taken throws); drop the list cache; count the question for its owner. */
  function CreatePost(db: Db, title: string, body: string, tags: seq<string>, ownerId: Option<UserId>,
                      approved: bool, newId: ObjectId, now: Time): Transition<Post>
  {
    if |tags| > MaxTags then
      Transition(db, Err(Message(TooManyTags)))
    else
      var k := FirstMissing(db.tags, tags);
      var counted := db.(tags := Bump(db.tags, tags[..k]));
      if k < |tags| then
        Transition(counted, Err(Message(TagNotPresent)))
      else
        if ownerId.None? || ownerId.value !in db.users || newId in db.posts then
          Transition(counted, NoCallback)
        else
          var post := NewPost(newId, title, body, tags, ownerId, approved, db.users[ownerId.value], now);
          Transition(counted.(posts := db.posts[newId := post],
                              order := db.order + [newId],
                              cache := db.cache - {PostsKey},
                              users := Adjust(db.users, ownerId.value, QuestionCount, 1)),
                     Ok(post))
  }

  lemma CreatePostTagLimit(db: Db, title: string, body: string, tags: seq<string>, ownerId: Option<UserId>,
                           approved: bool, newId: ObjectId, now: Time)
    requires |tags| > MaxTags
    ensures CreatePost(db, title, body, tags, ownerId, approved, newId, now) == Transition(db, Err(Message(TooManyTags)))
  {
  }

  /** A missing tag is reported, but the tags checked before it keep their increments; no post
      is saved and no user counter or cache entry changes. */
  lemma CreatePostMissingTag(db: Db, title: string, body: string, tags: seq<string>, ownerId: Option<UserId>,
                             approved: bool, newId: ObjectId, now: Time, k: nat)
    requires |tags| <= MaxTags
    requires k < |tags| && tags[k] !in db.tags
    requires forall i :: 0 <= i < k ==> tags[i] in db.tags
    ensures var t := CreatePost(db, title, body, tags, ownerId, approved, newId, now);
      && t.out == Err(Message(TagNotPresent))
      && t.after == db.(tags := t.after.tags)
      && t.after.tags.Keys == db.tags.Keys
      && forall n :: n in db.tags ==> t.after.tags[n] == db.tags[n] + multiset(tags[..k])[n]
  {
    FirstMissingIs(db.tags, tags, k);
  }

  /** When the owner row is missing the handler throws after the tag loop: every tag keeps its
      increment, nothing else changes, and the callback is never called. */
  lemma CreatePostMissingOwner(db: Db, title: string, body: string, tags: seq<string>, ownerId: Option<UserId>,
                               approved: bool, newId: ObjectId, now: Time)
    requires |tags| <= MaxTags
    requires forall i :: 0 <= i < |tags| ==> tags[i] in db.tags
    requires ownerId.None? || ownerId.value !in db.users
    ensures var t := CreatePost(db, title, body, tags, ownerId, approved, newId, now);
      && t.out == NoCallback
      && t.after == db.(tags := Bump(db.tags, tags))
  {
    FirstMissingIs(db.tags, tags, |tags|);
    assert tags[..|tags|] == tags;
  }

  /** A successful create saves the post under the new id with one "asked" activity by the
      owner's name, clears `approved` when the body mentions "img", drops the list cache and
      raises the owner's `question_count` by exactly one. */
  lemma CreatePostSucceeds(db: Db, title: string, body: string, tags: seq<string>, ownerId: Option<UserId>,
                           approved: bool, newId: ObjectId, now: Time)
    requires |tags| <= MaxTags
    requires forall i :: 0 <= i < |tags| ==> tags[i] in db.tags
    requires ownerId.Some? && ownerId.value in db.users
    requires newId !in db.posts
    ensures var t := CreatePost(db, title, body, tags, ownerId, approved, newId, now);
      && t.out.Ok?
      && var p := t.out.value;
      && p.id == newId && p.title == title && p.body == body && p.tags == tags && p.ownerId == ownerId
      && (p.approved <==> approved && !exists i :: OccursAt(body, ImageMarker, i))
      && p.activities == [Activity(now, "asked", Name(db.users[ownerId.value].fullName), "")]
      && p.answers == [] && p.comment == [] && p.score == 0 && p.viewCount == 0 && !p.answerApproved
      && t.after.posts == db.posts[newId := p]
      && t.after.order == db.order + [newId]
      && t.after.tags == Bump(db.tags, tags)
      && PostsKey !in t.after.cache && t.after.cache == db.cache - {PostsKey}
      && t.after.users.Keys == db.users.Keys
      && CounterOf(t.after.users[ownerId.value], QuestionCount) == CounterOf(db.users[ownerId.value], QuestionCount) + 1
      && forall u, c :: u in db.users && (u != ownerId.value || c != QuestionCount) ==>
           CounterOf(t.after.users[u], c) == CounterOf(db.users[u], c)
  {
    FirstMissingIs(db.tags, tags, |tags|);
    assert tags[..|tags|] == tags;
  }

  /** With distinct tag names that all exist, every named tag's `questionCount` rises by
      exactly one and every other tag's stays as it was. */
  lemma DistinctTagsCountedOnce(tags: map<string, nat>, names: seq<string>)
    requires forall i, j :: 0 <= i < j < |names| ==> names[i] != names[j]
    ensures forall n :: n in tags ==> Bump(tags, names)[n] == tags[n] + (if n in names then 1 else 0)
  {
    forall n | n in tags ensures multiset(names)[n] == if n in names then 1 else 0 {
      DistinctCount(names, n);
    }
  }

  lemma {:induction false} DistinctCount(names: seq<string>, n: string)
    requires forall i, j :: 0 <= i < j < |names| ==> names[i] != names[j]
    ensures multiset(names)[n] == if n in names then 1 else 0
  {
    if names != [] {
      assert names == [names[0]] + names[1..];
      DistinctCount(names[1..], n);
      if names[0] == n {
        forall j | 0 <= j < |names[1..]| ensures names[1..][j] != n {
          assert names[1..][j] == names[j + 1];
        }
      }
    }
  }

  // ----- the list handlers -----

  /** The four list handlers; none of them reads or writes the cache. */
  datatype Listing = Interesting | Hot | TopScore | TopUnanswered

  function ListingKey(l: Listing): SortKey {
    match l
    case Interesting => LastModified
    case Hot => ViewCount
    case TopScore => Score
    case TopUnanswered => Score
  }

  /** The documents a listing's query matches: all of them, or (top-unanswered) those whose
      first answer does not exist. */
  function Candidates(db: Db, l: Listing): seq<Post>
    requires Valid(db)
  {
    if l == TopUnanswered then Filter(Snapshot(db), (p: Post) => p.answers == []) else Snapshot(db)
  }

  /** The first page of a listing's ranking. */
  function Page(db: Db, l: Listing): seq<Post>
    requires Valid(db)
  {
    Top(Candidates(db, l), ListingKey(l))
  }

  /** What a list handler hands to its callback. */
  function ListPosts(db: Db, l: Listing): seq<PostWithOwner>
    requires Valid(db)
  {
    Join(db.users, Page(db, l))
  }

  /** A listing holds at most twenty stored posts, ranked by its key, each paired with its
      owner's data; top-unanswered lists only posts without answers; of the page the query
      returned, exactly the posts without a known owner are skipped. */
  lemma ListPostsSpec(db: Db, l: Listing)
    requires Valid(db)
    ensures var r := ListPosts(db, l);
      && |r| <= PageSize
      && JoinedRankedDesc(r, ListingKey(l))
      && (forall e :: e in r ==> e.post in Snapshot(db) && OwnerOf(db.users, e.post) == Some(e.ownerData))
      && (l == TopUnanswered ==> forall e :: e in r ==> e.post.answers == [])
      && (forall p :: p in Page(db, l) && OwnerOf(db.users, p).Some? ==> PostWithOwner(p, OwnerOf(db.users, p).value) in r)
  {
    var page := Page(db, l);
    JoinKeepsRank(db.users, page, ListingKey(l));
    forall e | e in ListPosts(db, l)
      ensures e.post in Candidates(db, l)
    {
      assert e.post in multiset(page);
    }
  }

  /** The cache plays no part in a listing. */
  lemma ListPostsIgnoresCache(db: Db, l: Listing, cache: map<string, CacheValue>)
    requires Valid(db)
    ensures Valid(db.(cache := cache))
    ensures ListPosts(db.(cache := cache), l) == ListPosts(db, l)
  {
  }

  // ----- getPostById and getPostByTag -----

  /** `getPostById`: raise the stored view count, then join the owner and store the result
      under the shared cache key. The reply is the document as it was before the increment
      (the update does not ask for the new document). A missing post throws before any
      change; a missing owner throws after the increment. */
  function GetPostById(db: Db, id: ObjectId): Transition<PostWithOwner> {
    if id !in db.posts then
      Transition(db, Err(Raised(PostNotFound)))
    else
      var p := db.posts[id];
      var viewed := db.(posts := db.posts[id := p.(viewCount := p.viewCount + 1)]);
      match OwnerOf(db.users, p)
      case None => Transition(viewed, Err(Raised(OwnerNotFound)))
      case Some(o) =>
        var e := PostWithOwner(p, o);
        Transition(viewed.(cache := db.cache[PostsKey := CachedPost(e)]), Ok(e))
  }

  lemma GetPostByIdEffect(db: Db, id: ObjectId)
    requires id in db.posts
    ensures var t := GetPostById(db, id);
      && t.after.posts == db.posts[id := db.posts[id].(viewCount := db.posts[id].viewCount + 1)]
      && t.after.users == db.users && t.after.tags == db.tags && t.after.order == db.order
      && (OwnerOf(db.users, db.posts[id]).Some? <==> t.out.Ok?)
      && (t.out.Ok? ==>
            && t.out.value.post == db.posts[id]
            && t.out.value.ownerData == OwnerOf(db.users, db.posts[id]).value
            && t.after.cache == db.cache[PostsKey := CachedPost(t.out.value)])
      && (!t.out.Ok? ==> t.out == Err(Raised(OwnerNotFound)) && t.after.cache == db.cache)
  {
  }

  /** Reading a post that is not stored reports the error and changes nothing. */
  lemma GetPostByIdMissing(db: Db, id: ObjectId)
    requires id !in db.posts
    ensures GetPostById(db, id) == Transition(db, Err(Raised(PostNotFound)))
  {
  }

  /** Two reads of the same post raise its view count by exactly two; the second reply
      carries the count after the first read. */
  lemma {:induction false} ViewedTwice(db: Db, id: ObjectId)
    requires id in db.posts
    ensures var t1 := GetPostById(db, id);
      var t2 := GetPostById(t1.after, id);
      && t2.after.posts[id].viewCount == db.posts[id].viewCount + 2
      && (t2.out.Ok? ==> t2.out.value.post.viewCount == db.posts[id].viewCount + 1)
      && (t2.out.Ok? ==> t2.after.cache[PostsKey] == CachedPost(t2.out.value))
  {
    var t1 := GetPostById(db, id);
    assert t1.after.posts[id] == db.posts[id].(viewCount := db.posts[id].viewCount + 1);
    assert t1.after.users == db.users;
  }

  /** `getPostByTag`: every stored post whose tags contain the name, in natural order, with no
      owner join and no change to any table or the cache. */
  function PostsByTag(db: Db, tagname: string): seq<Post>
    requires Valid(db)
  {
    Filter(Snapshot(db), (p: Post) => tagname in p.tags)
  }

  lemma PostsByTagSpec(db: Db, tagname: string)
    requires Valid(db)
    ensures forall p :: p in PostsByTag(db, tagname) <==> p in Snapshot(db) && tagname in p.tags
    ensures forall id :: id in db.posts && tagname in db.posts[id].tags ==> db.posts[id] in PostsByTag(db, tagname)
  {
  }

  // ----- addAnswer -----

  function NewAnswer(questionId: ObjectId, body: string, ownerId: UserId, answerId: ObjectId, now: Time): Answer {
    Answer(answerId, body, false, questionId, ownerId, [Activity(now, "answered", UserRef(ownerId), "")], 0, [], now, now)
  }

  function AnswerActivity(ownerId: UserId, now: Time): Activity {
    Activity(now, "answer", UserRef(ownerId), "answer added to othe question")
  }

  /** `addAnswer`: one update pushes the answer and a question activity; then the answerer's
      `answer_count` is raised whether or not the question was found. The cache is untouched. */
  function AddAnswer(db: Db, questionId: ObjectId, body: string, ownerId: UserId, answerId: ObjectId, now: Time)
    : Transition<UpdateResult>
  {
    var counted := db.(users := Adjust(db.users, ownerId, AnswerCount, 1));
    if questionId in db.posts then
      var p := db.posts[questionId];
      var p' := p.(answers := p.answers + [NewAnswer(questionId, body, ownerId, answerId, now)],
                   activities := p.activities + [AnswerActivity(ownerId, now)]);
      Transition(counted.(posts := db.posts[questionId := p']), Ok(Matched(true)))
    else
      Transition(counted, Ok(NotMatched))
  }

  lemma AddAnswerEffect(db: Db, questionId: ObjectId, body: string, ownerId: UserId, answerId: ObjectId, now: Time)
    ensures var t := AddAnswer(db, questionId, body, ownerId, answerId, now);
      && t.out == Ok(if questionId in db.posts then Matched(true) else NotMatched)
      && t.after.posts.Keys == db.posts.Keys
      && (forall id :: id in db.posts && id != questionId ==> t.after.posts[id] == db.posts[id])
      && (questionId in db.posts ==>
            var p, q := db.posts[questionId], t.after.posts[questionId];
            && q == p.(answers := q.answers, activities := q.activities)
            && |q.answers| == |p.answers| + 1 && q.answers[..|p.answers|] == p.answers
            && var a := q.answers[|p.answers|];
            && a.id == answerId && a.score == 0 && !a.isAccepted && a.comments == [] && a.ownerId == ownerId
            && a.body == body && a.questionId == questionId
            && a.activity == [Activity(now, "answered", UserRef(ownerId), "")]
            && q.activities == p.activities + [Activity(now, "answer", UserRef(ownerId), "answer added to othe question")])
      && t.after.order == db.order && t.after.tags == db.tags && t.after.cache == db.cache
      && t.after.users == Adjust(db.users, ownerId, AnswerCount, 1)
  {
  }

  // ----- addComment and addCommentToAnswer -----

  function CommentActivity(comment: string, userName: string, now: Time): Activity {
    Activity(now, "comment", Name(userName), comment)
  }

  /** `addComment`: push the comment and a "comment" activity onto the post, then raise the
      commenter's `comment_count` and drop the list cache. A payload without `userId` makes the
      counter update throw after the push: the cache is kept and the callback never runs. */
  function AddComment(db: Db, parentId: ObjectId, comment: string, userId: Option<UserId>, userName: string,
                      commentId: ObjectId, now: Time): Transition<UpdateResult>
  {
    var comm := Comment(commentId, comment, userName, now);
    var pushed := if parentId in db.posts then
                    var p := db.posts[parentId];
                    db.(posts := db.posts[parentId := p.(comment := p.comment + [comm],
                                                         activities := p.activities + [CommentActivity(comment, userName, now)])])
                  else db;
    var result := if parentId in db.posts then Matched(true) else NotMatched;
    match userId
    case None => Transition(pushed, NoCallback)
    case Some(id) =>
      Transition(pushed.(users := Adjust(db.users, id, CommentCount, 1), cache := db.cache - {PostsKey}), Ok(result))
  }

  /** The comment lands on the post whether or not the payload names the commenter; with a
      commenter the reply reports the match, the commenter's `comment_count` rises by one and
      the list cache is dropped, and without one there is no reply and no other change. */
  lemma AddCommentEffect(db: Db, parentId: ObjectId, comment: string, userId: Option<UserId>, userName: string,
                         commentId: ObjectId, now: Time)
    ensures var t := AddComment(db, parentId, comment, userId, userName, commentId, now);
      && t.out == (if userId.None? then NoCallback else Ok(if parentId in db.posts then Matched(true) else NotMatched))
      && t.after.posts.Keys == db.posts.Keys
      && (forall id :: id in db.posts && id != parentId ==> t.after.posts[id] == db.posts[id])
      && (parentId in db.posts ==>
            var p, q := db.posts[parentId], t.after.posts[parentId];
            && q == p.(comment := q.comment, activities := q.activities)
            && q.comment == p.comment + [Comment(commentId, comment, userName, now)]
            && q.activities == p.activities + [Activity(now, "comment", Name(userName), comment)])
      && t.after.cache == (if userId.None? then db.cache else db.cache - {PostsKey})
      && t.after.users == (if userId.None? then db.users else Adjust(db.users, userId.value, CommentCount, 1))
      && t.after.order == db.order && t.after.tags == db.tags
  {
  }

  /** Without a commenter id the handler stops after the push: the posts end as they would with
      one, and the users, the tags and the cache are as before. */
  lemma CommentWithoutUser(db: Db, parentId: ObjectId, comment: string, u: UserId, userName: string,
                           commentId: ObjectId, now: Time)
    ensures var t := AddComment(db, parentId, comment, None, userName, commentId, now);
      var s := AddComment(db, parentId, comment, Some(u), userName, commentId, now);
      && t.out == NoCallback && s.out.Ok?
      && t.after == db.(posts := s.after.posts)
      && PostsKey !in s.after.cache && (PostsKey in db.cache ==> PostsKey in t.after.cache)
  {
  }

  /** `addCommentToAnswer`: push the comment and the activity onto the first answer with that
      id (the question's own log is untouched), then raise the commenter's `comment_count` and
      drop the list cache; without `userId` the counter update throws after the push. */
  function AddCommentToAnswer(db: Db, questionId: ObjectId, answerId: ObjectId, comment: string, userId: Option<UserId>,
                              userName: string, commentId: ObjectId, now: Time): Transition<UpdateResult>
  {
    var comm := Comment(commentId, comment, userName, now);
    var found := if questionId in db.posts then AnswerIndex(db.posts[questionId].answers, answerId) else None;
    var pushed := if found.Some? then
                    var p := db.posts[questionId];
                    var a := p.answers[found.value];
                    var a' := a.(comments := a.comments + [comm], activity := a.activity + [CommentActivity(comment, userName, now)]);
                    db.(posts := db.posts[questionId := p.(answers := p.answers[found.value := a'])])
                  else db;
    var result := if found.Some? then Matched(true) else NotMatched;
    match userId
    case None => Transition(pushed, NoCallback)
    case Some(id) =>
      Transition(pushed.(users := Adjust(db.users, id, CommentCount, 1), cache := db.cache - {PostsKey}), Ok(result))
  }

  lemma AddCommentToAnswerEffect(db: Db, questionId: ObjectId, answerId: ObjectId, comment: string, userId: Option<UserId>,
                                 userName: string, commentId: ObjectId, now: Time, i: nat)
    requires questionId in db.posts
    requires i < |db.posts[questionId].answers| && db.posts[questionId].answers[i].id == answerId
    requires forall j :: 0 <= j < i ==> db.posts[questionId].answers[j].id != answerId
    ensures var t := AddCommentToAnswer(db, questionId, answerId, comment, userId, userName, commentId, now);
      var p, q := db.posts[questionId], t.after.posts[questionId];
      && t.out == (if userId.None? then NoCallback else Ok(Matched(true)))
      && q == p.(answers := q.answers)
      && |q.answers| == |p.answers|
      && (forall j :: 0 <= j < |p.answers| && j != i ==> q.answers[j] == p.answers[j])
      && q.answers[i] == p.answers[i].(comments := q.answers[i].comments, activity := q.answers[i].activity)
      && q.answers[i].comments == p.answers[i].comments + [Comment(commentId, comment, userName, now)]
      && q.answers[i].activity == p.answers[i].activity + [Activity(now, "comment", Name(userName), comment)]
      && q.activities == p.activities
      && t.after.posts == db.posts[questionId := q]
      && t.after.cache == (if userId.None? then db.cache else db.cache - {PostsKey})
      && t.after.users == (if userId.None? then db.users else Adjust(db.users, userId.value, CommentCount, 1))
      && t.after.tags == db.tags && t.after.order == db.order
  {
    AnswerIndexIsFirst(db.posts[questionId].answers, answerId, i);
  }

  /** When no answer of the question has that id (or there is no such question) no post
      changes, yet with a commenter the `comment_count` still rises and the cache is dropped. */
  lemma AddCommentToAnswerNoMatch(db: Db, questionId: ObjectId, answerId: ObjectId, comment: string, userId: Option<UserId>,
                                  userName: string, commentId: ObjectId, now: Time)
    requires questionId in db.posts ==> forall j :: 0 <= j < |db.posts[questionId].answers| ==> db.posts[questionId].answers[j].id != answerId
    ensures var t := AddCommentToAnswer(db, questionId, answerId, comment, userId, userName, commentId, now);
      && t.out == (if userId.None? then NoCallback else Ok(NotMatched))
      && t.after.posts == db.posts && t.after.tags == db.tags && t.after.order == db.order
      && t.after.cache == (if userId.None? then db.cache else db.cache - {PostsKey})
      && t.after.users == (if userId.None? then db.users else Adjust(db.users, userId.value, CommentCount, 1))
  {
  }

  /** A comment added to a post is in the post the next read returns, with its text and author. */
  lemma CommentThenView(db: Db, parentId: ObjectId, comment: string, userId: Option<UserId>, userName: string,
                        commentId: ObjectId, now: Time)
    requires parentId in db.posts
    requires OwnerOf(db.users, db.posts[parentId]).Some?
    ensures var t1 := AddComment(db, parentId, comment, userId, userName, commentId, now);
      var t2 := GetPostById(t1.after, parentId);
      && t2.out.Ok?
      && var c := t2.out.value.post.comment;
      && |c| > 0 && c[|c| - 1].comment == comment && c[|c| - 1].userName == userName
      && c[..|c| - 1] == db.posts[parentId].comment
  {
    var t1 := AddComment(db, parentId, comment, userId, userName, commentId, now);
    var p := db.posts[parentId];
    assert t1.after.posts[parentId].ownerId == p.ownerId;
    assert t1.after.users.Keys == db.users.Keys;
  }

  // ----- voteQuestion and voteAnswer -----

  /** The voter's counter a vote changes: one more upvote for 1, one fewer downvote otherwise. */
  function VoterCounter(value: int): Counter {
    if value == 1 then Upvotes else Downvotes
  }

  function Sign(value: int): int {
    if value == 1 then 1 else -1
  }

  /** `voteQuestion`: add `value` to the question's score, re-read its owner id, change the
      voter's counter, then (if the owner id could be read) the owner's reputation by 10. */
  function VoteQuestion(db: Db, userId: UserId, questionId: ObjectId, value: int): Transition<UpdateResult> {
    var scored := if questionId in db.posts then
                    db.posts[questionId := db.posts[questionId].(score := db.posts[questionId].score + value)]
                  else db.posts;
    var result := if questionId in db.posts then Matched(value != 0) else NotMatched;
    var voted := Adjust(db.users, userId, VoterCounter(value), Sign(value));
    if questionId !in db.posts || db.posts[questionId].ownerId.None? then
      Transition(db.(posts := scored, users := voted), NoCallback)
    else
      var owner := db.posts[questionId].ownerId.value;
      Transition(db.(posts := scored, users := Adjust(voted, owner, Reputation, 10 * Sign(value))), Ok(result))
  }

  /** A vote moves the question's score by exactly `value`; the voter's upvotes rise by one
      (value 1) or downvotes fall by one (any other value); the owner's reputation moves by 10
      in the vote's direction; no other counter, post, tag or cache entry changes. */
  lemma VoteQuestionEffect(db: Db, userId: UserId, questionId: ObjectId, value: int)
    requires questionId in db.posts && db.posts[questionId].ownerId.Some?
    ensures var t := VoteQuestion(db, userId, questionId, value);
      var owner := db.posts[questionId].ownerId.value;
      && t.out == Ok(Matched(value != 0))
      && t.after.posts == db.posts[questionId := db.posts[questionId].(score := db.posts[questionId].score + value)]
      && t.after.users.Keys == db.users.Keys
      && (forall u, c :: u in db.users ==>
            CounterOf(t.after.users[u], c) == CounterOf(db.users[u], c)
              + Delta(u, c, userId, VoterCounter(value), Sign(value))
              + Delta(u, c, owner, Reputation, 10 * Sign(value)))
      && t.after.tags == db.tags && t.after.cache == db.cache && t.after.order == db.order
  {
  }

  /** A vote on a missing question still changes the voter's counter, then throws. */
  lemma VoteQuestionMissing(db: Db, userId: UserId, questionId: ObjectId, value: int)
    requires questionId !in db.posts
    ensures VoteQuestion(db, userId, questionId, value)
      == Transition(db.(users := Adjust(db.users, userId, VoterCounter(value), Sign(value))), NoCallback)
  {
  }

  /** A vote on a stored question without an owner id moves the score and the voter's counter,
      then throws on the owner's reputation: no callback. */
  lemma VoteQuestionNoOwner(db: Db, userId: UserId, questionId: ObjectId, value: int)
    requires questionId in db.posts && db.posts[questionId].ownerId.None?
    ensures var p := db.posts[questionId];
      VoteQuestion(db, userId, questionId, value)
        == Transition(db.(posts := db.posts[questionId := p.(score := p.score + value)],
                          users := Adjust(db.users, userId, VoterCounter(value), Sign(value))), NoCallback)
  {
  }

  /** An upvote followed by a downvote from the same voter restores the score and the owner's
      reputation, but leaves the voter with one more upvote and one downvote fewer. */
  lemma {:induction false} UpvoteThenDownvote(db: Db, userId: UserId, questionId: ObjectId)
    requires questionId in db.posts && db.posts[questionId].ownerId.Some?
    requires userId in db.users
    ensures var owner := db.posts[questionId].ownerId.value;
      var t2 := VoteQuestion(VoteQuestion(db, userId, questionId, 1).after, userId, questionId, -1);
      && t2.after.posts[questionId] == db.posts[questionId]
      && (owner in db.users ==> CounterOf(t2.after.users[owner], Reputation) == CounterOf(db.users[owner], Reputation))
      && CounterOf(t2.after.users[userId], Upvotes) == CounterOf(db.users[userId], Upvotes) + 1
      && CounterOf(t2.after.users[userId], Downvotes) == CounterOf(db.users[userId], Downvotes) - 1
  {
    var owner := db.posts[questionId].ownerId.value;
    var p := db.posts[questionId];
    var t1 := VoteQuestion(db, userId, questionId, 1);
    var u1 := Adjust(Adjust(db.users, userId, Upvotes, 1), owner, Reputation, 10);
    assert t1.after == db.(posts := db.posts[questionId := p.(score := p.score + 1)], users := u1);
    var u2 := Adjust(Adjust(u1, userId, Downvotes, -1), owner, Reputation, -10);
    assert VoteQuestion(t1.after, userId, questionId, -1).after.users == u2;
    VoteRoundTrip(db.users, userId, owner);
  }

  lemma VoteRoundTrip(users: map<UserId, User>, voter: UserId, owner: UserId)
    requires voter in users
    ensures var u1 := Adjust(Adjust(users, voter, Upvotes, 1), owner, Reputation, 10);
      var u2 := Adjust(Adjust(u1, voter, Downvotes, -1), owner, Reputation, -10);
      && (owner in users ==> CounterOf(u2[owner], Reputation) == CounterOf(users[owner], Reputation))
      && CounterOf(u2[voter], Upvotes) == CounterOf(users[voter], Upvotes) + 1
      && CounterOf(u2[voter], Downvotes) == CounterOf(users[voter], Downvotes) - 1
  {
  }

  /** `voteAnswer`: add `value` to the score of the first answer with that id, re-read the
      question, change the voter's counter, then the QUESTION owner's reputation by 5. The
      re-read finds nothing (and the handler throws) when the question or the answer is missing. */
  function VoteAnswer(db: Db, userId: UserId, questionId: ObjectId, answerId: ObjectId, value: int)
    : Transition<UpdateResult>
  {
    var voted := Adjust(db.users, userId, VoterCounter(value), Sign(value));
    if questionId !in db.posts then
      Transition(db.(users := voted), NoCallback)
    else
      var p := db.posts[questionId];
      match AnswerIndex(p.answers, answerId)
      case None => Transition(db.(users := voted), NoCallback)
      case Some(i) =>
        var p' := p.(answers := p.answers[i := p.answers[i].(score := p.answers[i].score + value)]);
        var scored := db.(posts := db.posts[questionId := p']);
        match p.ownerId
        case None => Transition(scored.(users := voted), NoCallback)
        case Some(owner) =>
          Transition(scored.(users := Adjust(voted, owner, Reputation, 5 * Sign(value))), Ok(Matched(value != 0)))
  }

  /** An answer vote moves that answer's score by exactly `value` and the reputation of the
      question's owner (not the answer's) by 5 in the vote's direction. */
  lemma VoteAnswerEffect(db: Db, userId: UserId, questionId: ObjectId, answerId: ObjectId, value: int, i: nat)
    requires questionId in db.posts && db.posts[questionId].ownerId.Some?
    requires i < |db.posts[questionId].answers| && db.posts[questionId].answers[i].id == answerId
    requires forall j :: 0 <= j < i ==> db.posts[questionId].answers[j].id != answerId
    ensures var t := VoteAnswer(db, userId, questionId, answerId, value);
      var p := db.posts[questionId];
      var owner := p.ownerId.value;
      && t.out == Ok(Matched(value != 0))
      && t.after.posts == db.posts[questionId := p.(answers := p.answers[i := p.answers[i].(score := p.answers[i].score + value)])]
      && t.after.users.Keys == db.users.Keys
      && (forall u, c :: u in db.users ==>
            CounterOf(t.after.users[u], c) == CounterOf(db.users[u], c)
              + Delta(u, c, userId, VoterCounter(value), Sign(value))
              + Delta(u, c, owner, Reputation, 5 * Sign(value)))
      && t.after.tags == db.tags && t.after.cache == db.cache && t.after.order == db.order
  {
    AnswerIndexIsFirst(db.posts[questionId].answers, answerId, i);
  }

  /** A vote on an answer the question does not have (or on a missing question) changes no
      score, still changes the voter's counter, then throws. */
  lemma VoteAnswerMissing(db: Db, userId: UserId, questionId: ObjectId, answerId: ObjectId, value: int)
    requires questionId in db.posts ==>
      forall j :: 0 <= j < |db.posts[questionId].answers| ==> db.posts[questionId].answers[j].id != answerId
    ensures VoteAnswer(db, userId, questionId, answerId, value)
      == Transition(db.(users := Adjust(db.users, userId, VoterCounter(value), Sign(value))), NoCallback)
  {
  }

  /** An answer vote on a question without an owner id moves the answer's score and the voter's
      counter, then throws on the owner's reputation: no callback. */
  lemma VoteAnswerNoOwner(db: Db, userId: UserId, questionId: ObjectId, answerId: ObjectId, value: int, i: nat)
    requires questionId in db.posts && db.posts[questionId].ownerId.None?
    requires i < |db.posts[questionId].answers| && db.posts[questionId].answers[i].id == answerId
    requires forall j :: 0 <= j < i ==> db.posts[questionId].answers[j].id != answerId
    ensures var p := db.posts[questionId];
      VoteAnswer(db, userId, questionId, answerId, value)
        == Transition(db.(posts := db.posts[questionId := p.(answers := p.answers[i := p.answers[i].(score := p.answers[i].score + value)])],
                          users := Adjust(db.users, userId, VoterCounter(value), Sign(value))), NoCallback)
  {
    AnswerIndexIsFirst(db.posts[questionId].answers, answerId, i);
  }

  // ----- markAccepted -----

  function AcceptedActivity(now: Time): Activity {
    Activity(now, "answer accepted", Name(""), "marked answer as approved")
  }

  function ApprovedActivity(now: Time): Activity {
    Activity(now, "Approved", Name(""), "marked answer as approved")
  }

  /** `markAccepted`: find the question holding the answer (throwing, with nothing changed, when
      there is none); mark the answer accepted and the question answer-approved; give the
      answer's owner 15 reputation; log one activity on the question and one on the answer.
      Nothing checks for an earlier acceptance. */
  function MarkAccepted(db: Db, questionId: ObjectId, answerId: ObjectId, now: Time): Transition<UpdateResult> {
    if questionId !in db.posts then
      Transition(db, NoCallback)
    else
      var p := db.posts[questionId];
      match AnswerIndex(p.answers, answerId)
      case None => Transition(db, NoCallback)
      case Some(i) =>
        var a := p.answers[i];
        var a' := a.(isAccepted := true, activity := a.activity + [ApprovedActivity(now)]);
        var p' := p.(answers := p.answers[i := a'], answerApproved := true,
                     activities := p.activities + [AcceptedActivity(now)]);
        Transition(db.(posts := db.posts[questionId := p'], users := Adjust(db.users, a.ownerId, Reputation, 15)),
                   Ok(Matched(!a.isAccepted)))
  }

  lemma MarkAcceptedMissing(db: Db, questionId: ObjectId, answerId: ObjectId, now: Time)
    requires questionId !in db.posts || forall j :: 0 <= j < |db.posts[questionId].answers| ==> db.posts[questionId].answers[j].id != answerId
    ensures MarkAccepted(db, questionId, answerId, now) == Transition(db, NoCallback)
  {
  }

  lemma MarkAcceptedEffect(db: Db, questionId: ObjectId, answerId: ObjectId, now: Time, i: nat)
    requires questionId in db.posts
    requires i < |db.posts[questionId].answers| && db.posts[questionId].answers[i].id == answerId
    requires forall j :: 0 <= j < i ==> db.posts[questionId].answers[j].id != answerId
    ensures var t := MarkAccepted(db, questionId, answerId, now);
      var p, q := db.posts[questionId], t.after.posts[questionId];
      var a := p.answers[i];
      && t.out == Ok(Matched(!a.isAccepted))
      && q.answerApproved && q.answers[i].isAccepted
      && q.activities == p.activities + [Activity(now, "answer accepted", Name(""), "marked answer as approved")]
      && q.answers[i].activity == a.activity + [Activity(now, "Approved", Name(""), "marked answer as approved")]
      && q.answers[i] == a.(isAccepted := true, activity := q.answers[i].activity)
      && |q.answers| == |p.answers| && (forall j :: 0 <= j < |p.answers| && j != i ==> q.answers[j] == p.answers[j])
      && q == p.(answers := q.answers, answerApproved := true, activities := q.activities)
      && t.after.posts == db.posts[questionId := q]
      && t.after.users == Adjust(db.users, a.ownerId, Reputation, 15)
      && t.after.tags == db.tags && t.after.cache == db.cache && t.after.order == db.order
  {
    AnswerIndexIsFirst(db.posts[questionId].answers, answerId, i);
  }

  /** Accepting the same answer twice succeeds twice: the answer owner gains 30 reputation, the
      question and the answer each log two activities, and the second update reports no
      modification. */
  lemma {:induction false} AcceptTwice(db: Db, questionId: ObjectId, answerId: ObjectId, now1: Time, now2: Time, i: nat)
    requires questionId in db.posts
    requires i < |db.posts[questionId].answers| && db.posts[questionId].answers[i].id == answerId
    requires forall j :: 0 <= j < i ==> db.posts[questionId].answers[j].id != answerId
    ensures var t1 := MarkAccepted(db, questionId, answerId, now1);
      var t2 := MarkAccepted(t1.after, questionId, answerId, now2);
      var p, q := db.posts[questionId], t2.after.posts[questionId];
      var owner := p.answers[i].ownerId;
      && t1.out.Ok? && t2.out == Ok(UpdateResult(1, 0))
      && q.activities == p.activities + [AcceptedActivity(now1), AcceptedActivity(now2)]
      && q.answers[i].activity == p.answers[i].activity + [ApprovedActivity(now1), ApprovedActivity(now2)]
      && (owner in db.users ==> CounterOf(t2.after.users[owner], Reputation) == CounterOf(db.users[owner], Reputation) + 30)
  {
    var t1 := MarkAccepted(db, questionId, answerId, now1);
    MarkAcceptedEffect(db, questionId, answerId, now1, i);
    var q1 := t1.after.posts[questionId];
    assert q1.answers[i].ownerId == db.posts[questionId].answers[i].ownerId;
    MarkAcceptedEffect(t1.after, questionId, answerId, now2, i);
  }

  /** Two different answers of one question can both be accepted: nothing keeps acceptance
      exclusive. */
  lemma {:induction false} AcceptTwoAnswers(db: Db, questionId: ObjectId, id1: ObjectId, id2: ObjectId, now: Time, i: nat, j: nat)
    requires questionId in db.posts
    requires i < |db.posts[questionId].answers| && db.posts[questionId].answers[i].id == id1
    requires forall k :: 0 <= k < i ==> db.posts[questionId].answers[k].id != id1
    requires j < |db.posts[questionId].answers| && db.posts[questionId].answers[j].id == id2
    requires forall k :: 0 <= k < j ==> db.posts[questionId].answers[k].id != id2
    requires id1 != id2
    ensures var t1 := MarkAccepted(db, questionId, id1, now);
      var t2 := MarkAccepted(t1.after, questionId, id2, now);
      var q := t2.after.posts[questionId];
      && t1.out.Ok? && t2.out.Ok?
      && q.answers[i].isAccepted && q.answers[j].isAccepted && i != j
  {
    var t1 := MarkAccepted(db, questionId, id1, now);
    MarkAcceptedEffect(db, questionId, id1, now, i);
    var q1 := t1.after.posts[questionId];
    assert q1.answers[j].id == id2;
    assert forall k :: 0 <= k < j ==> q1.answers[k].id != id2 by {
      forall k | 0 <= k < j ensures q1.answers[k].id != id2 {
        if k != i { assert q1.answers[k] == db.posts[questionId].answers[k]; }
      }
    }
    MarkAcceptedEffect(t1.after, questionId, id2, now, j);
  }
}
