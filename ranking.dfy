/** The document-store queries behind the list handlers (`find`, `sort`, `limit`, a filter)
    and the owner join that the handlers run over the documents they get back. */
module Ranking {
  import opened Domain

  /** The sort fields of the list handlers, each sorted descending. */
  datatype SortKey = LastModified | ViewCount | Score

  function KeyOf(p: Post, k: SortKey): int {
    match k
    case LastModified => p.lastModifiedAt
    case ViewCount => p.viewCount
    case Score => p.score
  }

  ghost predicate RankedDesc(ps: seq<Post>, k: SortKey) {
    forall i, j :: 0 <= i < j < |ps| ==> KeyOf(ps[i], k) >= KeyOf(ps[j], k)
  }

  ghost predicate JoinedRankedDesc(r: seq<PostWithOwner>, k: SortKey) {
    forall i, j :: 0 <= i < j < |r| ==> KeyOf(r[i].post, k) >= KeyOf(r[j].post, k)
  }

  /** Places `p` in front of the first entry that does not outrank it, so that among equal
      keys the earlier document stays first. */
  function Insert(p: Post, ps: seq<Post>, k: SortKey): (r: seq<Post>)
    requires RankedDesc(ps, k)
    ensures |r| == |ps| + 1
    ensures RankedDesc(r, k)
    ensures multiset(r) == multiset(ps) + multiset{p}
    ensures forall x :: x in r <==> x == p || x in ps
  {
    if ps == [] || KeyOf(ps[0], k) <= KeyOf(p, k) then
      [p] + ps
    else
      var rest := Insert(p, ps[1..], k);
      assert ps == [ps[0]] + ps[1..];
      InsertAfterHead(ps[0], p, ps[1..], rest, k);
      [ps[0]] + rest
  }

  lemma InsertAfterHead(h: Post, p: Post, tail: seq<Post>, rest: seq<Post>, k: SortKey)
    requires RankedDesc([h] + tail, k) && RankedDesc(rest, k)
    requires KeyOf(p, k) < KeyOf(h, k)
    requires forall x :: x in rest ==> x == p || x in tail
    ensures RankedDesc([h] + rest, k)
  {
    forall x | x in rest ensures KeyOf(h, k) >= KeyOf(x, k) {
      if x != p {
        var i :| 0 <= i < |tail| && tail[i] == x;
        assert ([h] + tail)[0] == h && ([h] + tail)[i + 1] == x;
      }
    }
    forall i, j | 0 <= i < j < |[h] + rest|
      ensures KeyOf(([h] + rest)[i], k) >= KeyOf(([h] + rest)[j], k)
    {
      if i > 0 {
        assert ([h] + rest)[i] == rest[i - 1] && ([h] + rest)[j] == rest[j - 1];
      } else {
        assert ([h] + rest)[j] in rest;
      }
    }
  }

  /** `sort({key: -1})`: a descending, stable ordering of the documents. */
  function SortDesc(ps: seq<Post>, k: SortKey): (r: seq<Post>)
    ensures |r| == |ps|
    ensures RankedDesc(r, k)
    ensures multiset(r) == multiset(ps)
  {
    if ps == [] then []
    else
      assert ps == [ps[0]] + ps[1..];
      Insert(ps[0], SortDesc(ps[1..], k), k)
  }

  /** `sort({key: -1}).limit(20)`: the first page of the ranking. Every document that is
      left out (a copy more in `ps` than in the page) ranks no higher than anything kept. */
  function Top(ps: seq<Post>, k: SortKey): (r: seq<Post>)
    ensures |r| == if |ps| < PageSize then |ps| else PageSize
    ensures RankedDesc(r, k)
    ensures multiset(r) <= multiset(ps)
    ensures forall q, x :: x in r && multiset(r)[q] < multiset(ps)[q] ==> KeyOf(x, k) >= KeyOf(q, k)
  {
    var s := SortDesc(ps, k);
    var n := if |ps| < PageSize then |ps| else PageSize;
    TopSplit(ps, s, n, k);
    s[..n]
  }

  /** Cutting a ranking of `ps` after `n` entries keeps it ranked, and whatever is cut off
      ranks no higher than what is kept. */
  lemma TopSplit(ps: seq<Post>, s: seq<Post>, n: nat, k: SortKey)
    requires n <= |s| && RankedDesc(s, k) && multiset(s) == multiset(ps)
    ensures RankedDesc(s[..n], k)
    ensures multiset(s[..n]) <= multiset(ps)
    ensures forall q, x :: x in s[..n] && multiset(s[..n])[q] < multiset(ps)[q] ==> KeyOf(x, k) >= KeyOf(q, k)
  {
    assert s == s[..n] + s[n..];
    assert multiset(s) == multiset(s[..n]) + multiset(s[n..]);
    forall q, x | x in s[..n] && multiset(s[..n])[q] < multiset(s)[q]
      ensures KeyOf(x, k) >= KeyOf(q, k)
    {
      assert q in multiset(s[n..]);
      var j :| 0 <= j < |s[n..]| && s[n..][j] == q;
      var i :| 0 <= i < n && s[..n][i] == x;
      assert s[i] == x && s[n + j] == q;
    }
  }

  /** `find(query)` without a sort: the documents that satisfy `keep`, in natural order. */
  function Filter(ps: seq<Post>, keep: Post -> bool): (r: seq<Post>)
    ensures forall p :: p in r <==> p in ps && keep(p)
    ensures multiset(r) <= multiset(ps)
  {
    if ps == [] then []
    else
      assert ps == [ps[0]] + ps[1..];
      (if keep(ps[0]) then [ps[0]] else []) + Filter(ps[1..], keep)
  }

  /** Filtering keeps natural order: the matches of a concatenation are the matches of its
      first part followed by those of its second. */
  lemma {:induction false} FilterAppend(a: seq<Post>, b: seq<Post>, keep: Post -> bool)
    ensures Filter(a + b, keep) == Filter(a, keep) + Filter(b, keep)
  {
    if a == [] {
      assert a + b == b;
    } else {
      assert (a + b)[1..] == a[1..] + b;
      FilterAppend(a[1..], b, keep);
    }
  }

  /** The handlers' loop over the ranked documents: a post with no owner id, or whose owner
      is not in the user table, is skipped; every other post is paired with its owner's data. */
  function Join(users: map<UserId, User>, ps: seq<Post>): (r: seq<PostWithOwner>)
    ensures |r| <= |ps|
    ensures forall e :: e in r ==> e.post in ps && OwnerOf(users, e.post) == Some(e.ownerData)
    ensures forall p :: p in ps && OwnerOf(users, p).Some? ==> PostWithOwner(p, OwnerOf(users, p).value) in r
  {
    if ps == [] then []
    else
      var init := Join(users, ps[..|ps| - 1]);
      var last := ps[|ps| - 1];
      assert ps == ps[..|ps| - 1] + [last];
      match OwnerOf(users, last)
      case None => init
      case Some(o) => init + [PostWithOwner(last, o)]
  }

  /** The join keeps the order of the documents it is given. */
  lemma {:induction false} JoinAppend(users: map<UserId, User>, a: seq<Post>, b: seq<Post>)
    ensures Join(users, a + b) == Join(users, a) + Join(users, b)
    decreases |b|
  {
    if b == [] {
      assert a + b == a;
    } else {
      var b' := b[..|b| - 1];
      assert (a + b)[..|a + b| - 1] == a + b';
      assert (a + b)[|a + b| - 1] == b[|b| - 1];
      JoinAppend(users, a, b');
    }
  }

  /** A ranked list of documents stays ranked once joined with owners. */
  lemma {:induction false} JoinKeepsRank(users: map<UserId, User>, ps: seq<Post>, k: SortKey)
    requires RankedDesc(ps, k)
    ensures JoinedRankedDesc(Join(users, ps), k)
    decreases |ps|
  {
    if ps != [] {
      var init := ps[..|ps| - 1];
      var last := ps[|ps| - 1];
      assert RankedDesc(init, k);
      JoinKeepsRank(users, init, k);
      var r0 := Join(users, init);
      forall e | e in r0 ensures KeyOf(e.post, k) >= KeyOf(last, k) {
        var i :| 0 <= i < |init| && init[i] == e.post;
      }
    }
  }
}
