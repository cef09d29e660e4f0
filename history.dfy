/** What holds across any sequence of handler calls: posts are never removed, every log and
    comment list only grows, an accepted answer stays accepted, tag counters never fall, and
    no handler creates or deletes a user or tag row. */
module History {
  import opened Domain
  import H = Handlers

  ghost predicate AnswerEvolves(a: Answer, b: Answer) {
    && a.id == b.id && a.body == b.body && a.ownerId == b.ownerId && a.questionId == b.questionId
    && a.comments <= b.comments
    && a.activity <= b.activity
    && (a.isAccepted ==> b.isAccepted)
  }

  ghost predicate PostEvolves(p: Post, q: Post) {
    && p.id == q.id && p.title == q.title && p.body == q.body && p.tags == q.tags
    && p.ownerId == q.ownerId && p.approved == q.approved
    && |p.answers| <= |q.answers|
    && (forall i :: 0 <= i < |p.answers| ==> AnswerEvolves(p.answers[i], q.answers[i]))
    && p.comment <= q.comment
    && p.activities <= q.activities
    && (p.answerApproved ==> q.answerApproved)
    && p.viewCount <= q.viewCount
  }

  ghost predicate Evolves(db: Db, db': Db) {
    && db.order <= db'.order
    && (forall id :: id in db.posts ==> id in db'.posts && PostEvolves(db.posts[id], db'.posts[id]))
    && db'.users.Keys == db.users.Keys
    && db'.tags.Keys == db.tags.Keys
    && (forall t :: t in db.tags ==> db.tags[t] <= db'.tags[t])
  }

  /** The state-changing handlers with their arguments (the list and by-tag reads change nothing). */
  datatype Command =
    | AddPost(title: string, body: string, tags: seq<string>, ownerId: Option<UserId>, approved: bool,
              newId: ObjectId, now: Time)
    | GetSinglePost(id: ObjectId)
    | AddAnswer(questionId: ObjectId, body: string, answererId: UserId, answerId: ObjectId, now: Time)
    | AddComment(parentId: ObjectId, comment: string, commenterId: Option<UserId>, userName: string, commentId: ObjectId, now: Time)
    | AddCommentAnswer(questionId: ObjectId, answerId: ObjectId, comment: string, commenterId: Option<UserId>, userName: string,
                       commentId: ObjectId, now: Time)
    | VoteQuestion(userId: UserId, questionId: ObjectId, value: int)
    | VoteAnswer(userId: UserId, questionId: ObjectId, answerId: ObjectId, value: int)
    | MarkAccepted(questionId: ObjectId, answerId: ObjectId, now: Time)

  function Apply(db: Db, c: Command): Db {
    match c
    case AddPost(title, body, tags, ownerId, approved, newId, now) =>
      H.CreatePost(db, title, body, tags, ownerId, approved, newId, now).after
    case GetSinglePost(id) => H.GetPostById(db, id).after
    case AddAnswer(questionId, body, answererId, answerId, now) =>
      H.AddAnswer(db, questionId, body, answererId, answerId, now).after
    case AddComment(parentId, comment, userId, userName, commentId, now) =>
      H.AddComment(db, parentId, comment, userId, userName, commentId, now).after
    case AddCommentAnswer(questionId, answerId, comment, userId, userName, commentId, now) =>
      H.AddCommentToAnswer(db, questionId, answerId, comment, userId, userName, commentId, now).after
    case VoteQuestion(userId, questionId, value) => H.VoteQuestion(db, userId, questionId, value).after
    case VoteAnswer(userId, questionId, answerId, value) => H.VoteAnswer(db, userId, questionId, answerId, value).after
    case MarkAccepted(questionId, answerId, now) => H.MarkAccepted(db, questionId, answerId, now).after
  }

  function Run(db: Db, cs: seq<Command>): Db
    decreases |cs|
  {
    if cs == [] then db else Run(Apply(db, cs[0]), cs[1..])
  }

  /** The handler neither adds nor removes a document and leaves the natural order alone. */
  ghost predicate KeepsDocuments(db: Db, db': Db) {
    db'.order == db.order && db'.posts.Keys == db.posts.Keys
  }

  lemma EvolvesReflexive(db: Db)
    ensures Evolves(db, db)
  {
  }

  lemma EvolvesTransitive(a: Db, b: Db, c: Db)
    requires Evolves(a, b) && Evolves(b, c)
    ensures Evolves(a, c)
  {
    forall id | id in a.posts ensures PostEvolves(a.posts[id], c.posts[id]) {
      var p, q, r := a.posts[id], b.posts[id], c.posts[id];
      forall i | 0 <= i < |p.answers| ensures AnswerEvolves(p.answers[i], r.answers[i]) {
        assert AnswerEvolves(p.answers[i], q.answers[i]);
        assert AnswerEvolves(q.answers[i], r.answers[i]);
      }
    }
  }

  /** Replacing one post by a post it evolves into evolves the whole state. */
  lemma UpdatePostEvolves(db: Db, id: ObjectId, q: Post)
    requires id in db.posts && PostEvolves(db.posts[id], q)
    ensures Evolves(db, db.(posts := db.posts[id := q]))
  {
  }

  /** Replacing answer `i` by an answer it evolves into evolves the post. */
  lemma UpdateAnswerEvolves(p: Post, i: nat, b: Answer)
    requires i < |p.answers| && AnswerEvolves(p.answers[i], b)
    ensures PostEvolves(p, p.(answers := p.answers[i := b]))
  {
  }

  lemma AppendAnswerEvolves(p: Post, b: Answer)
    ensures PostEvolves(p, p.(answers := p.answers + [b]))
  {
  }

  lemma CreatePostEvolves(db: Db, title: string, body: string, tags: seq<string>, ownerId: Option<UserId>,
                          approved: bool, newId: ObjectId, now: Time)
    ensures Evolves(db, H.CreatePost(db, title, body, tags, ownerId, approved, newId, now).after)
  {
    var after := H.CreatePost(db, title, body, tags, ownerId, approved, newId, now).after;
    if after.posts == db.posts {
      assert after.order == db.order && after.users == db.users;
    } else {
      assert newId !in db.posts && after.posts == db.posts[newId := after.posts[newId]];
      assert after.order == db.order + [newId];
    }
    assert after.tags.Keys == db.tags.Keys;
  }

  lemma GetPostByIdEvolves(db: Db, id: ObjectId)
    ensures Evolves(db, H.GetPostById(db, id).after)
    ensures KeepsDocuments(db, H.GetPostById(db, id).after)
  {
    var after := H.GetPostById(db, id).after;
    assert after.users == db.users && after.tags == db.tags && after.order == db.order;
    if id in db.posts {
      var p := db.posts[id];
      assert after.posts == db.posts[id := p.(viewCount := p.viewCount + 1)];
      UpdatePostEvolves(db, id, p.(viewCount := p.viewCount + 1));
    } else {
      assert after == db;
      EvolvesReflexive(db);
    }
  }

  lemma AddAnswerEvolves(db: Db, questionId: ObjectId, body: string, answererId: UserId, answerId: ObjectId, now: Time)
    ensures Evolves(db, H.AddAnswer(db, questionId, body, answererId, answerId, now).after)
    ensures KeepsDocuments(db, H.AddAnswer(db, questionId, body, answererId, answerId, now).after)
  {
    if questionId in db.posts {
      var p := db.posts[questionId];
      var a := H.NewAnswer(questionId, body, answererId, answerId, now);
      AppendAnswerEvolves(p, a);
      var p' := p.(answers := p.answers + [a], activities := p.activities + [H.AnswerActivity(answererId, now)]);
      UpdatePostEvolves(db, questionId, p');
    }
  }

  lemma AddCommentEvolves(db: Db, parentId: ObjectId, comment: string, userId: Option<UserId>, userName: string,
                          commentId: ObjectId, now: Time)
    ensures Evolves(db, H.AddComment(db, parentId, comment, userId, userName, commentId, now).after)
    ensures KeepsDocuments(db, H.AddComment(db, parentId, comment, userId, userName, commentId, now).after)
  {
    if parentId in db.posts {
      var p := db.posts[parentId];
      var p' := p.(comment := p.comment + [Comment(commentId, comment, userName, now)],
                   activities := p.activities + [H.CommentActivity(comment, userName, now)]);
      UpdatePostEvolves(db, parentId, p');
    }
  }

  lemma AddCommentToAnswerEvolves(db: Db, questionId: ObjectId, answerId: ObjectId, comment: string, userId: Option<UserId>,
                                  userName: string, commentId: ObjectId, now: Time)
    ensures Evolves(db, H.AddCommentToAnswer(db, questionId, answerId, comment, userId, userName, commentId, now).after)
    ensures KeepsDocuments(db, H.AddCommentToAnswer(db, questionId, answerId, comment, userId, userName, commentId, now).after)
  {
    if questionId in db.posts {
      var p := db.posts[questionId];
      var r := AnswerIndex(p.answers, answerId);
      if r.Some? {
        var a := p.answers[r.value];
        var a' := a.(comments := a.comments + [Comment(commentId, comment, userName, now)],
                     activity := a.activity + [H.CommentActivity(comment, userName, now)]);
        UpdateAnswerEvolves(p, r.value, a');
        UpdatePostEvolves(db, questionId, p.(answers := p.answers[r.value := a']));
      }
    }
  }

  lemma VoteQuestionEvolves(db: Db, userId: UserId, questionId: ObjectId, value: int)
    ensures Evolves(db, H.VoteQuestion(db, userId, questionId, value).after)
    ensures KeepsDocuments(db, H.VoteQuestion(db, userId, questionId, value).after)
  {
    var after := H.VoteQuestion(db, userId, questionId, value).after;
    assert after.tags == db.tags && after.order == db.order && after.users.Keys == db.users.Keys;
    if questionId in db.posts {
      var p := db.posts[questionId];
      assert after.posts == db.posts[questionId := p.(score := p.score + value)];
      UpdatePostEvolves(db, questionId, p.(score := p.score + value));
    } else {
      assert after.posts == db.posts;
    }
  }

  /** Where an answer vote can change a document: only in the score of the addressed answer. */
  lemma VoteAnswerFrame(db: Db, userId: UserId, questionId: ObjectId, answerId: ObjectId, value: int)
    ensures var after := H.VoteAnswer(db, userId, questionId, answerId, value).after;
      && after.tags == db.tags && after.order == db.order && after.users.Keys == db.users.Keys
      && (questionId !in db.posts || AnswerIndex(db.posts[questionId].answers, answerId).None? ==> after.posts == db.posts)
      && (questionId in db.posts && AnswerIndex(db.posts[questionId].answers, answerId).Some? ==>
            var p := db.posts[questionId];
            var i := AnswerIndex(p.answers, answerId).value;
            after.posts == db.posts[questionId := p.(answers := p.answers[i := p.answers[i].(score := p.answers[i].score + value)])])
  {
    var t := H.VoteAnswer(db, userId, questionId, answerId, value);
    if questionId in db.posts {
      var p := db.posts[questionId];
      match AnswerIndex(p.answers, answerId)
      case None =>
        assert t.after.posts == db.posts;
      case Some(i) =>
        var p' := p.(answers := p.answers[i := p.answers[i].(score := p.answers[i].score + value)]);
        assert t.after.posts == db.posts[questionId := p'];
    }
  }

  lemma VoteAnswerEvolves(db: Db, userId: UserId, questionId: ObjectId, answerId: ObjectId, value: int)
    ensures Evolves(db, H.VoteAnswer(db, userId, questionId, answerId, value).after)
    ensures KeepsDocuments(db, H.VoteAnswer(db, userId, questionId, answerId, value).after)
  {
    VoteAnswerFrame(db, userId, questionId, answerId, value);
    if questionId in db.posts && AnswerIndex(db.posts[questionId].answers, answerId).Some? {
      var p := db.posts[questionId];
      var i := AnswerIndex(p.answers, answerId).value;
      var a := p.answers[i];
      UpdateAnswerEvolves(p, i, a.(score := a.score + value));
      UpdatePostEvolves(db, questionId, p.(answers := p.answers[i := a.(score := a.score + value)]));
    }
  }

  lemma MarkAcceptedEvolves(db: Db, questionId: ObjectId, answerId: ObjectId, now: Time)
    ensures Evolves(db, H.MarkAccepted(db, questionId, answerId, now).after)
    ensures KeepsDocuments(db, H.MarkAccepted(db, questionId, answerId, now).after)
  {
    if questionId in db.posts {
      var p := db.posts[questionId];
      var r := AnswerIndex(p.answers, answerId);
      if r.Some? {
        var a := p.answers[r.value];
        var a' := a.(isAccepted := true, activity := a.activity + [H.ApprovedActivity(now)]);
        UpdateAnswerEvolves(p, r.value, a');
        var p' := p.(answers := p.answers[r.value := a'], answerApproved := true,
                     activities := p.activities + [H.AcceptedActivity(now)]);
        UpdatePostEvolves(db, questionId, p');
      }
    }
  }

  lemma StepEvolves(db: Db, c: Command)
    ensures Evolves(db, Apply(db, c))
  {
    match c
    case AddPost(title, body, tags, ownerId, approved, newId, now) =>
      CreatePostEvolves(db, title, body, tags, ownerId, approved, newId, now);
    case GetSinglePost(id) => GetPostByIdEvolves(db, id);
    case AddAnswer(questionId, body, answererId, answerId, now) =>
      AddAnswerEvolves(db, questionId, body, answererId, answerId, now);
    case AddComment(parentId, comment, userId, userName, commentId, now) =>
      AddCommentEvolves(db, parentId, comment, userId, userName, commentId, now);
    case AddCommentAnswer(questionId, answerId, comment, userId, userName, commentId, now) =>
      AddCommentToAnswerEvolves(db, questionId, answerId, comment, userId, userName, commentId, now);
    case VoteQuestion(userId, questionId, value) => VoteQuestionEvolves(db, userId, questionId, value);
    case VoteAnswer(userId, questionId, answerId, value) => VoteAnswerEvolves(db, userId, questionId, answerId, value);
    case MarkAccepted(questionId, answerId, now) => MarkAcceptedEvolves(db, questionId, answerId, now);
  }

  /** Only the create handler adds a document, and only under an id not taken yet; every
      other handler keeps the ids and replaces a document by one with the same id. */
  lemma CreatePostKeepsValid(db: Db, title: string, body: string, tags: seq<string>, ownerId: Option<UserId>,
                             approved: bool, newId: ObjectId, now: Time)
    requires Valid(db)
    ensures Valid(H.CreatePost(db, title, body, tags, ownerId, approved, newId, now).after)
  {
    var after := H.CreatePost(db, title, body, tags, ownerId, approved, newId, now).after;
    if after.posts == db.posts {
      assert after.order == db.order;
    } else {
      var p := after.posts[newId];
      assert newId !in db.posts && p.id == newId;
      assert after.posts == db.posts[newId := p] && after.order == db.order + [newId];
      AppendKeepsValid(db, after, p);
    }
  }

  /** Saving a document under a fresh id at the end of the natural order keeps the state consistent. */
  lemma AppendKeepsValid(db: Db, db': Db, p: Post)
    requires Valid(db) && p.id !in db.posts
    requires db'.posts == db.posts[p.id := p] && db'.order == db.order + [p.id]
    ensures Valid(db')
  {
    forall i, j | 0 <= i < j < |db'.order| ensures db'.order[i] != db'.order[j] {
      if j == |db.order| {
        assert db.order[i] in db.posts;
      }
    }
  }

  /** A state that only evolved and kept its documents is still consistent. */
  lemma KeepingDocumentsKeepsValid(db: Db, db': Db)
    requires Valid(db) && Evolves(db, db') && KeepsDocuments(db, db')
    ensures Valid(db')
  {
    forall id | id in db'.posts ensures db'.posts[id].id == id {
      assert PostEvolves(db.posts[id], db'.posts[id]);
    }
  }

  lemma GetPostByIdKeepsValid(db: Db, id: ObjectId)
    requires Valid(db)
    ensures Valid(H.GetPostById(db, id).after)
  {
    GetPostByIdEvolves(db, id);
    KeepingDocumentsKeepsValid(db, H.GetPostById(db, id).after);
  }

  lemma AddAnswerKeepsValid(db: Db, questionId: ObjectId, body: string, answererId: UserId, answerId: ObjectId,
                            now: Time)
    requires Valid(db)
    ensures Valid(H.AddAnswer(db, questionId, body, answererId, answerId, now).after)
  {
    AddAnswerEvolves(db, questionId, body, answererId, answerId, now);
    KeepingDocumentsKeepsValid(db, H.AddAnswer(db, questionId, body, answererId, answerId, now).after);
  }

  lemma AddCommentKeepsValid(db: Db, parentId: ObjectId, comment: string, userId: Option<UserId>, userName: string,
                             commentId: ObjectId, now: Time)
    requires Valid(db)
    ensures Valid(H.AddComment(db, parentId, comment, userId, userName, commentId, now).after)
  {
    AddCommentEvolves(db, parentId, comment, userId, userName, commentId, now);
    KeepingDocumentsKeepsValid(db, H.AddComment(db, parentId, comment, userId, userName, commentId, now).after);
  }

  lemma AddCommentToAnswerKeepsValid(db: Db, questionId: ObjectId, answerId: ObjectId, comment: string,
                                     userId: Option<UserId>, userName: string, commentId: ObjectId, now: Time)
    requires Valid(db)
    ensures Valid(H.AddCommentToAnswer(db, questionId, answerId, comment, userId, userName, commentId, now).after)
  {
    AddCommentToAnswerEvolves(db, questionId, answerId, comment, userId, userName, commentId, now);
    KeepingDocumentsKeepsValid(db, H.AddCommentToAnswer(db, questionId, answerId, comment, userId, userName, commentId, now).after);
  }

  lemma VoteQuestionKeepsValid(db: Db, userId: UserId, questionId: ObjectId, value: int)
    requires Valid(db)
    ensures Valid(H.VoteQuestion(db, userId, questionId, value).after)
  {
    VoteQuestionEvolves(db, userId, questionId, value);
    KeepingDocumentsKeepsValid(db, H.VoteQuestion(db, userId, questionId, value).after);
  }

  lemma VoteAnswerKeepsValid(db: Db, userId: UserId, questionId: ObjectId, answerId: ObjectId, value: int)
    requires Valid(db)
    ensures Valid(H.VoteAnswer(db, userId, questionId, answerId, value).after)
  {
    VoteAnswerEvolves(db, userId, questionId, answerId, value);
    KeepingDocumentsKeepsValid(db, H.VoteAnswer(db, userId, questionId, answerId, value).after);
  }

  lemma MarkAcceptedKeepsValid(db: Db, questionId: ObjectId, answerId: ObjectId, now: Time)
    requires Valid(db)
    ensures Valid(H.MarkAccepted(db, questionId, answerId, now).after)
  {
    MarkAcceptedEvolves(db, questionId, answerId, now);
    KeepingDocumentsKeepsValid(db, H.MarkAccepted(db, questionId, answerId, now).after);
  }

  lemma StepKeepsValid(db: Db, c: Command)
    requires Valid(db)
    ensures Valid(Apply(db, c))
  {
    match c
    case AddPost(title, body, tags, ownerId, approved, newId, now) =>
      CreatePostKeepsValid(db, title, body, tags, ownerId, approved, newId, now);
    case GetSinglePost(id) =>
      GetPostByIdKeepsValid(db, id);
    case AddAnswer(questionId, body, answererId, answerId, now) =>
      AddAnswerKeepsValid(db, questionId, body, answererId, answerId, now);
    case AddComment(parentId, comment, userId, userName, commentId, now) =>
      AddCommentKeepsValid(db, parentId, comment, userId, userName, commentId, now);
    case AddCommentAnswer(questionId, answerId, comment, userId, userName, commentId, now) =>
      AddCommentToAnswerKeepsValid(db, questionId, answerId, comment, userId, userName, commentId, now);
    case VoteQuestion(userId, questionId, value) =>
      VoteQuestionKeepsValid(db, userId, questionId, value);
    case VoteAnswer(userId, questionId, answerId, value) =>
      VoteAnswerKeepsValid(db, userId, questionId, answerId, value);
    case MarkAccepted(questionId, answerId, now) =>
      MarkAcceptedKeepsValid(db, questionId, answerId, now);
  }

  /** Any sequence of handler calls keeps the store consistent and only lets it grow. */
  lemma {:induction false} RunEvolves(db: Db, cs: seq<Command>)
    requires Valid(db)
    ensures Valid(Run(db, cs)) && Evolves(db, Run(db, cs))
    decreases |cs|
  {
    if cs == [] {
      EvolvesReflexive(db);
    } else {
      var db1 := Apply(db, cs[0]);
      StepKeepsValid(db, cs[0]);
      StepEvolves(db, cs[0]);
      RunEvolves(db1, cs[1..]);
      EvolvesTransitive(db, db1, Run(db1, cs[1..]));
    }
  }

  /** An answer once accepted is accepted after any later calls, and its question stays
      answer-approved if it was: acceptance has no way back. */
  lemma AcceptedStaysAccepted(db: Db, cs: seq<Command>, questionId: ObjectId, i: nat)
    requires Valid(db)
    requires questionId in db.posts && i < |db.posts[questionId].answers|
    requires db.posts[questionId].answers[i].isAccepted
    ensures questionId in Run(db, cs).posts
    ensures var q := Run(db, cs).posts[questionId];
      && i < |q.answers| && q.answers[i].isAccepted && q.answers[i].id == db.posts[questionId].answers[i].id
      && (db.posts[questionId].answerApproved ==> q.answerApproved)
  {
    RunEvolves(db, cs);
    assert AnswerEvolves(db.posts[questionId].answers[i], Run(db, cs).posts[questionId].answers[i]);
  }
}
