/** The entities the post handlers read and write: the post documents with their nested
    answers, comments and activity logs, the user and tag rows, the cache, and the outcome
    a handler reports through its callback. */
module Domain {

  type ObjectId = string
  type UserId = int
  /** A wall-clock instant; handlers receive it as a parameter instead of calling `new Date()`. */
  type Time = int

  datatype Option<+T> = None | Some(value: T)

  /** Who an activity names: the answer handlers record the user id, the others a name. */
  datatype Actor = Name(name: string) | UserRef(id: UserId)

  /** One entry of an append-only activity log (the source calls `actor` `by`, a Dafny keyword). */
  datatype Activity = Activity(when: Time, what: string, actor: Actor, comment: string)

  datatype Comment = Comment(id: ObjectId, comment: string, userName: string, createdAt: Time)

  datatype Answer = Answer(
    id: ObjectId,
    body: string,
    isAccepted: bool,
    questionId: ObjectId,
    ownerId: UserId,
    activity: seq<Activity>,
    score: int,
    comments: seq<Comment>,
    createdAt: Time,
    updatedAt: Time)

  /** A question document. `ownerId` is `None` when the document has no owner id. */
  datatype Post = Post(
    id: ObjectId,
    title: string,
    body: string,
    tags: seq<string>,
    ownerId: Option<UserId>,
    approved: bool,
    score: int,
    viewCount: int,
    answerApproved: bool,
    answers: seq<Answer>,
    comment: seq<Comment>,
    activities: seq<Activity>,
    lastModifiedAt: Time)

  /** A row of the user table; counters are plain integers (a downvote decrements one). */
  datatype User = User(
    fullName: string,
    picture: string,
    reputation: int,
    questionCount: int,
    answerCount: int,
    commentCount: int,
    upvotes: int,
    downvotes: int)

  /** The attributes `full_name`, `reputation` and `picture` that the read handlers fetch. */
  datatype OwnerData = OwnerData(fullName: string, reputation: int, picture: string)

  datatype PostWithOwner = PostWithOwner(post: Post, ownerData: OwnerData)

  /** What the single-post read stores under the cache key (serialisation is abstracted away). */
  datatype CacheValue = CachedPost(entry: PostWithOwner)

  /** The counts a document-store `updateOne` reports. */
  datatype UpdateResult = UpdateResult(matchedCount: nat, modifiedCount: nat)

  /** The exceptions a read handler catches and hands to its callback. */
  datatype Fault = PostNotFound | OwnerNotFound

  datatype Failure = Message(text: string) | Raised(fault: Fault)

  /** How a handler ends: `cb(null, value)`, `cb(error, null)`, or a `catch` that returns
      without calling the callback at all. */
  datatype Outcome<+T> = Ok(value: T) | Err(failure: Failure) | NoCallback

  datatype Counter = QuestionCount | AnswerCount | CommentCount | Upvotes | Downvotes | Reputation

  /** The three tables and the cache. `order` is the natural order of the post collection,
      the order in which an unsorted `find` returns documents. */
  datatype Db = Db(
    posts: map<ObjectId, Post>,
    order: seq<ObjectId>,
    users: map<UserId, User>,
    tags: map<string, nat>,
    cache: map<string, CacheValue>)

  /** The state after a handler and what it reported. */
  datatype Transition<+T> = Transition(after: Db, out: Outcome<T>)

  /** The only cache key any handler touches. */
  const PostsKey: string := "posts"
  const MaxTags: nat := 5
  const PageSize: nat := 20

  ghost predicate Valid(db: Db) {
    && (forall i :: 0 <= i < |db.order| ==> db.order[i] in db.posts)
    && (forall id :: id in db.posts ==> id in db.order)
    && (forall i, j :: 0 <= i < j < |db.order| ==> db.order[i] != db.order[j])
    && (forall id :: id in db.posts ==> db.posts[id].id == id)
  }

  /** The whole post collection in natural order, as `find({})` returns it. */
  function Snapshot(db: Db): (s: seq<Post>)
    requires Valid(db)
    ensures |s| == |db.order|
    ensures forall i :: 0 <= i < |s| ==> s[i] == db.posts[db.order[i]]
    ensures forall id :: id in db.posts ==> db.posts[id] in s
  {
    var s := seq(|db.order|, i requires 0 <= i < |db.order| => db.posts[db.order[i]]);
    assert forall id :: id in db.posts ==> db.posts[id] in s by {
      forall id | id in db.posts ensures db.posts[id] in s {
        var i :| 0 <= i < |db.order| && db.order[i] == id;
        assert s[i] == db.posts[id];
      }
    }
    s
  }

  function CounterOf(u: User, c: Counter): int {
    match c
    case QuestionCount => u.questionCount
    case AnswerCount => u.answerCount
    case CommentCount => u.commentCount
    case Upvotes => u.upvotes
    case Downvotes => u.downvotes
    case Reputation => u.reputation
  }

  function WithCounter(u: User, c: Counter, v: int): (r: User)
    ensures CounterOf(r, c) == v
    ensures forall d :: d != c ==> CounterOf(r, d) == CounterOf(u, d)
    ensures r.fullName == u.fullName && r.picture == u.picture
  {
    match c
    case QuestionCount => u.(questionCount := v)
    case AnswerCount => u.(answerCount := v)
    case CommentCount => u.(commentCount := v)
    case Upvotes => u.(upvotes := v)
    case Downvotes => u.(downvotes := v)
    case Reputation => u.(reputation := v)
  }

  /** The change one counter adjustment makes to user `u`'s counter `d`. */
  function Delta(u: UserId, d: Counter, id: UserId, c: Counter, delta: int): int {
    if u == id && d == c then delta else 0
  }

  /** `User.increment(c, {by: delta, where: {id}})` (`decrement` is a negative `delta`): the row with
      that id changes one counter; when no row has that id the update matches nothing. */
  function Adjust(users: map<UserId, User>, id: UserId, c: Counter, delta: int): (r: map<UserId, User>)
    ensures r.Keys == users.Keys
    ensures forall u, d :: u in users ==> CounterOf(r[u], d) == CounterOf(users[u], d) + Delta(u, d, id, c, delta)
    ensures forall u :: u in users ==> r[u].fullName == users[u].fullName && r[u].picture == users[u].picture
  {
    if id in users then users[id := WithCounter(users[id], c, CounterOf(users[id], c) + delta)] else users
  }

  function OwnerView(u: User): OwnerData {
    OwnerData(u.fullName, u.reputation, u.picture)
  }

  /** The owner join of the read handlers: nothing when the post has no owner id or the
      user table has no such row. */
  function OwnerOf(users: map<UserId, User>, p: Post): (r: Option<OwnerData>)
    ensures r.Some? <==> p.ownerId.Some? && p.ownerId.value in users
    ensures r.Some? ==> r.value == OwnerView(users[p.ownerId.value])
  {
    match p.ownerId
    case None => None
    case Some(id) => if id in users then Some(OwnerView(users[id])) else None
  }

  /** The element a positional update `answers.$` addresses: the first answer with that id. */
  function AnswerIndex(answers: seq<Answer>, id: ObjectId): (r: Option<nat>)
    ensures r.Some? ==> r.value < |answers| && answers[r.value].id == id
    ensures r.Some? ==> forall j :: 0 <= j < r.value ==> answers[j].id != id
    ensures r.None? <==> forall j :: 0 <= j < |answers| ==> answers[j].id != id
  {
    if answers == [] then None
    else if answers[0].id == id then Some(0)
    else match AnswerIndex(answers[1..], id)
      case None => None
      case Some(k) => Some(k + 1)
  }

  /** The positional update addresses answer `i` exactly when `i` is the first with that id. */
  lemma {:induction false} AnswerIndexIsFirst(answers: seq<Answer>, id: ObjectId, i: nat)
    requires i < |answers| && answers[i].id == id
    requires forall j :: 0 <= j < i ==> answers[j].id != id
    ensures AnswerIndex(answers, id) == Some(i)
  {
    if i > 0 {
      AnswerIndexIsFirst(answers[1..], id, i - 1);
    }
  }
}
