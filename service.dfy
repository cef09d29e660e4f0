/** The post service as the running program sees it: one object holding the post collection,
    the user and tag tables and the cache, with one method per command handler. Each method
    issues the store calls in the handler's order, and is proved to end in exactly the state
    and outcome that the matching function of `Handlers` describes. */
module Service {
  import opened Domain
  import opened Text
  import opened Ranking
  import H = Handlers
  import History

  /** The database calls of the list handlers' loop: look up each post's owner and keep the
      posts whose owner exists, in the order the query returned them. */
  method JoinOwners(users: map<UserId, User>, ranked: seq<Post>) returns (joined: seq<PostWithOwner>)
    ensures joined == Join(users, ranked)
  {
    joined := [];
    var i := 0;
    while i < |ranked|
      invariant 0 <= i <= |ranked|
      invariant joined == Join(users, ranked[..i])
    {
      var post := ranked[i];
      assert ranked[..i + 1][..i] == ranked[..i];
      if post.ownerId.Some? && post.ownerId.value in users {
        var owner := users[post.ownerId.value];
        joined := joined + [PostWithOwner(post, OwnerView(owner))];
      }
      i := i + 1;
    }
    assert ranked[..i] == ranked;
  }

  /** One more occurrence of an existing tag raises exactly that tag's counter by one. */
  lemma BumpOneMore(tags: map<string, nat>, names: seq<string>, n: string)
    requires n in tags
    ensures H.Bump(tags, names + [n]) == H.Bump(tags, names)[n := H.Bump(tags, names)[n] + 1]
  {
    assert multiset(names + [n]) == multiset(names) + multiset{n};
  }

  class PostService {
    var posts: map<ObjectId, Post>
    var order: seq<ObjectId>
    var users: map<UserId, User>
    var tags: map<string, nat>
    var cache: map<string, CacheValue>

    function State(): Db
      reads this
    {
      Db(posts, order, users, tags, cache)
    }

    ghost predicate Valid()
      reads this
    {
      Domain.Valid(State())
    }

    constructor (initial: Db)
      requires Domain.Valid(initial)
      ensures State() == initial
      ensures Valid()
    {
      posts := initial.posts;
      order := initial.order;
      users := initial.users;
      tags := initial.tags;
      cache := initial.cache;
    }

    /** `User.increment` / `User.decrement` on one counter of one row (a negative `delta`
        decrements); an id with no row changes nothing. */
    method Increment(id: UserId, c: Counter, delta: int)
      modifies this
      ensures users == Adjust(old(users), id, c, delta)
      ensures posts == old(posts) && order == old(order) && tags == old(tags) && cache == old(cache)
    {
      if id in users {
        users := users[id := WithCounter(users[id], c, CounterOf(users[id], c) + delta)];
      }
    }

    /** The tag loop of `createPost`: for each name in turn, stop at the first one with no
        tag row, otherwise raise that tag's `questionCount`. Returns where it stopped. */
    method CountTags(names: seq<string>) returns (k: nat)
      modifies this
      ensures k == H.FirstMissing(old(tags), names)
      ensures tags == H.Bump(old(tags), names[..k])
      ensures posts == old(posts) && order == old(order) && users == old(users) && cache == old(cache)
    {
      k := 0;
      while k < |names|
        invariant k <= |names|
        invariant forall j :: 0 <= j < k ==> names[j] in old(tags)
        invariant tags == H.Bump(old(tags), names[..k])
        invariant posts == old(posts) && order == old(order) && users == old(users) && cache == old(cache)
      {
        var name := names[k];
        if name !in tags {
          break;
        }
        BumpOneMore(old(tags), names[..k], name);
        assert names[..k + 1] == names[..k] + [name];
        tags := tags[name := tags[name] + 1];
        k := k + 1;
      }
      H.FirstMissingIs(old(tags), names, k);
    }

    method CreatePost(title: string, body: string, tagNames: seq<string>, ownerId: Option<UserId>,
                      approved: bool, newId: ObjectId, now: Time) returns (out: Outcome<Post>)
      modifies this
      ensures Transition(State(), out) == H.CreatePost(old(State()), title, body, tagNames, ownerId, approved, newId, now)
    {
      if |tagNames| > MaxTags {
        return Err(Message(H.TooManyTags));
      }
      var approvedFlag := if Includes(body, H.ImageMarker) then false else approved;
      var k := CountTags(tagNames);
      if k < |tagNames| {
        return Err(Message(H.TagNotPresent));
      }
      assert tagNames[..k] == tagNames;
      if ownerId.None? || ownerId.value !in users {
        return NoCallback;
      }
      var owner := users[ownerId.value];
      var post := Post(newId, title, body, tagNames, ownerId, approvedFlag, 0, 0, false, [], [],
                       [Activity(now, "asked", Name(owner.fullName), "")], now);
      if newId in posts {
        return NoCallback;
      }
      posts := posts[newId := post];
      order := order + [newId];
      cache := cache - {PostsKey};
      Increment(ownerId.value, QuestionCount, 1);
      return Ok(post);
    }

    method GetInterestingPosts() returns (out: Outcome<seq<PostWithOwner>>)
      requires Valid()
      ensures out == Ok(H.ListPosts(State(), H.Interesting))
    {
      var joined := JoinOwners(users, H.Page(State(), H.Interesting));
      return Ok(joined);
    }

    method GetHotPosts() returns (out: Outcome<seq<PostWithOwner>>)
      requires Valid()
      ensures out == Ok(H.ListPosts(State(), H.Hot))
    {
      var joined := JoinOwners(users, H.Page(State(), H.Hot));
      return Ok(joined);
    }

    method GetTopScorePosts() returns (out: Outcome<seq<PostWithOwner>>)
      requires Valid()
      ensures out == Ok(H.ListPosts(State(), H.TopScore))
    {
      var joined := JoinOwners(users, H.Page(State(), H.TopScore));
      return Ok(joined);
    }

    method GetTopUnansweredPosts() returns (out: Outcome<seq<PostWithOwner>>)
      requires Valid()
      ensures out == Ok(H.ListPosts(State(), H.TopUnanswered))
    {
      var joined := JoinOwners(users, H.Page(State(), H.TopUnanswered));
      return Ok(joined);
    }

    method GetPostById(id: ObjectId) returns (out: Outcome<PostWithOwner>)
      modifies this
      ensures Transition(State(), out) == H.GetPostById(old(State()), id)
    {
      if id !in posts {
        return Err(Raised(PostNotFound));
      }
      var post := posts[id];
      posts := posts[id := post.(viewCount := post.viewCount + 1)];
      if post.ownerId.None? || post.ownerId.value !in users {
        return Err(Raised(OwnerNotFound));
      }
      var entry := PostWithOwner(post, OwnerView(users[post.ownerId.value]));
      cache := cache[PostsKey := CachedPost(entry)];
      return Ok(entry);
    }

    method GetPostByTag(tagname: string) returns (out: Outcome<seq<Post>>)
      requires Valid()
      ensures out == Ok(H.PostsByTag(State(), tagname))
    {
      return Ok(H.PostsByTag(State(), tagname));
    }

    method AddAnswer(questionId: ObjectId, body: string, ownerId: UserId, answerId: ObjectId, now: Time)
      returns (out: Outcome<UpdateResult>)
      modifies this
      ensures Transition(State(), out) == H.AddAnswer(old(State()), questionId, body, ownerId, answerId, now)
    {
      var answer := Answer(answerId, body, false, questionId, ownerId,
                           [Activity(now, "answered", UserRef(ownerId), "")], 0, [], now, now);
      var activity := Activity(now, "answer", UserRef(ownerId), "answer added to othe question");
      var result := H.NotMatched;
      if questionId in posts {
        var p := posts[questionId];
        posts := posts[questionId := p.(answers := p.answers + [answer], activities := p.activities + [activity])];
        result := H.Matched(true);
      }
      Increment(ownerId, AnswerCount, 1);
      return Ok(result);
    }

    method AddComment(parentId: ObjectId, comment: string, userId: Option<UserId>, userName: string,
                      commentId: ObjectId, now: Time) returns (out: Outcome<UpdateResult>)
      modifies this
      ensures Transition(State(), out) == H.AddComment(old(State()), parentId, comment, userId, userName, commentId, now)
    {
      var comm := Comment(commentId, comment, userName, now);
      var activity := Activity(now, "comment", Name(userName), comment);
      var result := H.NotMatched;
      if parentId in posts {
        var p := posts[parentId];
        posts := posts[parentId := p.(comment := p.comment + [comm], activities := p.activities + [activity])];
        result := H.Matched(true);
      }
      if userId.None? {
        return NoCallback;
      }
      Increment(userId.value, CommentCount, 1);
      cache := cache - {PostsKey};
      return Ok(result);
    }

    method AddCommentToAnswer(questionId: ObjectId, answerId: ObjectId, comment: string, userId: Option<UserId>,
                              userName: string, commentId: ObjectId, now: Time) returns (out: Outcome<UpdateResult>)
      modifies this
      ensures Transition(State(), out)
        == H.AddCommentToAnswer(old(State()), questionId, answerId, comment, userId, userName, commentId, now)
    {
      var comm := Comment(commentId, comment, userName, now);
      var activity := Activity(now, "comment", Name(userName), comment);
      var result := H.NotMatched;
      if questionId in posts {
        var p := posts[questionId];
        var found := AnswerIndex(p.answers, answerId);
        if found.Some? {
          var i := found.value;
          var a := p.answers[i];
          var a' := a.(comments := a.comments + [comm], activity := a.activity + [activity]);
          posts := posts[questionId := p.(answers := p.answers[i := a'])];
          result := H.Matched(true);
        }
      }
      if userId.None? {
        return NoCallback;
      }
      Increment(userId.value, CommentCount, 1);
      cache := cache - {PostsKey};
      return Ok(result);
    }

    method VoteQuestion(userId: UserId, questionId: ObjectId, value: int) returns (out: Outcome<UpdateResult>)
      modifies this
      ensures Transition(State(), out) == H.VoteQuestion(old(State()), userId, questionId, value)
    {
      var result := H.NotMatched;
      if questionId in posts {
        var p := posts[questionId];
        posts := posts[questionId := p.(score := p.score + value)];
        result := H.Matched(value != 0);
      }
      var postOwner := if questionId in posts then Some(posts[questionId].ownerId) else None;
      if value == 1 {
        Increment(userId, Upvotes, 1);
      } else {
        Increment(userId, Downvotes, -1);
      }
      if postOwner.None? || postOwner.value.None? {
        return NoCallback;
      }
      if value == 1 {
        Increment(postOwner.value.value, Reputation, 10);
      } else {
        Increment(postOwner.value.value, Reputation, -10);
      }
      return Ok(result);
    }

    method VoteAnswer(userId: UserId, questionId: ObjectId, answerId: ObjectId, value: int)
      returns (out: Outcome<UpdateResult>)
      modifies this
      ensures Transition(State(), out) == H.VoteAnswer(old(State()), userId, questionId, answerId, value)
    {
      var result := H.NotMatched;
      var postOwner: Option<Option<UserId>> := None;
      if questionId in posts {
        var p := posts[questionId];
        var found := AnswerIndex(p.answers, answerId);
        if found.Some? {
          var i := found.value;
          posts := posts[questionId := p.(answers := p.answers[i := p.answers[i].(score := p.answers[i].score + value)])];
          result := H.Matched(value != 0);
          postOwner := Some(p.ownerId);
        }
      }
      if value == 1 {
        Increment(userId, Upvotes, 1);
      } else {
        Increment(userId, Downvotes, -1);
      }
      if postOwner.None? || postOwner.value.None? {
        return NoCallback;
      }
      if value == 1 {
        Increment(postOwner.value.value, Reputation, 5);
      } else {
        Increment(postOwner.value.value, Reputation, -5);
      }
      return Ok(result);
    }

    method MarkAccepted(questionId: ObjectId, answerId: ObjectId, now: Time) returns (out: Outcome<UpdateResult>)
      modifies this
      ensures Transition(State(), out) == H.MarkAccepted(old(State()), questionId, answerId, now)
    {
      if questionId !in posts {
        return NoCallback;
      }
      var found := AnswerIndex(posts[questionId].answers, answerId);
      if found.None? {
        return NoCallback;
      }
      var i := found.value;
      var accepted := posts[questionId].answers[i];
      var p := posts[questionId];
      ghost var p0, posts0 := p, posts;
      posts := posts[questionId := p.(answers := p.answers[i := p.answers[i].(isAccepted := true)])];
      var result := H.Matched(!accepted.isAccepted);
      posts := posts[questionId := posts[questionId].(answerApproved := true)];
      Increment(accepted.ownerId, Reputation, 15);
      p := posts[questionId];
      posts := posts[questionId := p.(activities := p.activities + [H.AcceptedActivity(now)])];
      p := posts[questionId];
      assert p.answers[i] == accepted.(isAccepted := true);
      posts := posts[questionId := p.(answers := p.answers[i := p.answers[i].(activity := p.answers[i].activity + [H.ApprovedActivity(now)])])];
      assert posts[questionId].answers
        == p0.answers[i := accepted.(isAccepted := true, activity := accepted.activity + [H.ApprovedActivity(now)])];
      assert posts == posts0[questionId := posts[questionId]];
      return Ok(result);
    }

    /** Runs one state-changing command; whatever the command, the service stays consistent. */
    method Handle(c: History.Command)
      requires Valid()
      modifies this
      ensures State() == History.Apply(old(State()), c)
      ensures Valid()
    {
      History.StepKeepsValid(State(), c);
      match c
      case AddPost(title, body, tagNames, ownerId, approved, newId, now) =>
        var _ := CreatePost(title, body, tagNames, ownerId, approved, newId, now);
      case GetSinglePost(id) =>
        var _ := GetPostById(id);
      case AddAnswer(questionId, body, answererId, answerId, now) =>
        var _ := AddAnswer(questionId, body, answererId, answerId, now);
      case AddComment(parentId, comment, userId, userName, commentId, now) =>
        var _ := AddComment(parentId, comment, userId, userName, commentId, now);
      case AddCommentAnswer(questionId, answerId, comment, userId, userName, commentId, now) =>
        var _ := AddCommentToAnswer(questionId, answerId, comment, userId, userName, commentId, now);
      case VoteQuestion(userId, questionId, value) =>
        var _ := VoteQuestion(userId, questionId, value);
      case VoteAnswer(userId, questionId, answerId, value) =>
        var _ := VoteAnswer(userId, questionId, answerId, value);
      case MarkAccepted(questionId, answerId, now) =>
        var _ := MarkAccepted(questionId, answerId, now);
    }
  }
}
