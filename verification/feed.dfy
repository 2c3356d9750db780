/**
 * The home feed (views/FeedView.tsx): posts and questions tagged with their
 * kind, concatenated posts first, then sorted newest first by the stable
 * `Array.prototype.sort` with the comparator `b.createdAt - a.createdAt`.
 * The sort is modelled as a stable insertion sort, which orders exactly as
 * any stable sort with that comparator does.
 */
module Feed {
  import opened Types

  /** A feed entry: the kind tag and the original object. */
  datatype Item = PostItem(post: Post) | QuestionItem(question: Question)
  {
    function CreatedAt(): int {
      match this
      case PostItem(p) => p.createdAt
      case QuestionItem(q) => q.createdAt
    }
  }

  /** `[...posts.map(...), ...questions.map(...)]`, before sorting. */
  function Tagged(posts: seq<Post>, questions: seq<Question>): (r: seq<Item>)
    ensures |r| == |posts| + |questions|
  {
    seq(|posts|, i requires 0 <= i < |posts| => PostItem(posts[i]))
    + seq(|questions|, i requires 0 <= i < |questions| => QuestionItem(questions[i]))
  }

  /** Newest first. */
  predicate Newest(s: seq<Item>) {
    forall i, j :: 0 <= i < j < |s| ==> s[i].CreatedAt() >= s[j].CreatedAt()
  }

  /** Place `x` after every entry at least as new, before the first older one. */
  function Insert(x: Item, s: seq<Item>): (r: seq<Item>)
    ensures multiset(r) == multiset(s) + multiset{x}
    decreases |s|
  {
    if s == [] then [x]
    else if s[0].CreatedAt() >= x.CreatedAt() then
      assert s == [s[0]] + s[1..];
      [s[0]] + Insert(x, s[1..])
    else
      [x] + s
  }

  /** No entry is newer than `b`. */
  predicate NoNewerThan(s: seq<Item>, b: int) {
    forall i :: 0 <= i < |s| ==> s[i].CreatedAt() <= b
  }

  /** Insertion adds no entry newer than the bound. */
  lemma {:induction false} InsertNoNewer(x: Item, s: seq<Item>, b: int)
    requires NoNewerThan(s, b) && x.CreatedAt() <= b
    ensures NoNewerThan(Insert(x, s), b)
    decreases |s|
  {
    if s != [] && s[0].CreatedAt() >= x.CreatedAt() {
      InsertNoNewer(x, s[1..], b);
      assert Insert(x, s) == [s[0]] + Insert(x, s[1..]);
    }
  }

  /** An entry at least as new as a newest-first list can head it. */
  lemma NewestCons(y: Item, t: seq<Item>)
    requires Newest(t) && NoNewerThan(t, y.CreatedAt())
    ensures Newest([y] + t)
  {
    var r := [y] + t;
    forall i, j | 0 <= i < j < |r|
      ensures r[i].CreatedAt() >= r[j].CreatedAt()
    {
      assert r[j] == t[j - 1];
      if i > 0 {
        assert r[i] == t[i - 1];
      }
    }
  }

  /** Insertion keeps a list newest first. */
  lemma {:induction false} InsertNewest(x: Item, s: seq<Item>)
    requires Newest(s)
    ensures Newest(Insert(x, s))
    decreases |s|
  {
    if s == [] {
      assert Insert(x, s) == [x];
    } else if s[0].CreatedAt() >= x.CreatedAt() {
      NewestTail(s);
      InsertNewest(x, s[1..]);
      InsertNoNewer(x, s[1..], s[0].CreatedAt());
      NewestCons(s[0], Insert(x, s[1..]));
      assert Insert(x, s) == [s[0]] + Insert(x, s[1..]);
    } else {
      NewestTail(s);
      NewestCons(x, s);
      assert Insert(x, s) == [x] + s;
    }
  }

  /** The sort, inserting the entries in input order. */
  function SortNewest(items: seq<Item>): (r: seq<Item>)
    ensures multiset(r) == multiset(items)
    ensures Newest(r)
    decreases |items|
  {
    if items == [] then []
    else
      var init := items[..|items| - 1];
      assert items == init + [items[|items| - 1]];
      InsertNewest(items[|items| - 1], SortNewest(init));
      Insert(items[|items| - 1], SortNewest(init))
  }

  /** The `combined` list. */
  function Combined(posts: seq<Post>, questions: seq<Question>): seq<Item> {
    SortNewest(Tagged(posts, questions))
  }

  /** The entries at time `k`, in order. */
  function At(s: seq<Item>, k: int): (r: seq<Item>)
    ensures |r| <= |s|
    decreases |s|
  {
    if s == [] then []
    else (if s[0].CreatedAt() == k then [s[0]] else []) + At(s[1..], k)
  }

  lemma {:induction false} AtAppend(a: seq<Item>, b: seq<Item>, k: int)
    ensures At(a + b, k) == At(a, k) + At(b, k)
    decreases |a|
  {
    if a != [] {
      assert (a + b)[1..] == a[1..] + b;
      AtAppend(a[1..], b, k);
    } else {
      assert a + b == b;
    }
  }

  /** Nothing in a list of older entries is at time `k`. */
  lemma {:induction false} AtNone(s: seq<Item>, k: int)
    requires forall i :: 0 <= i < |s| ==> s[i].CreatedAt() < k
    ensures At(s, k) == []
    decreases |s|
  {
    if s != [] {
      AtNone(s[1..], k);
    }
  }

  lemma NewestTail(s: seq<Item>)
    requires Newest(s) && s != []
    ensures Newest(s[1..])
    ensures forall i :: 0 <= i < |s| ==> s[i].CreatedAt() <= s[0].CreatedAt()
  {
    forall i, j | 0 <= i < j < |s[1..]|
      ensures s[1..][i].CreatedAt() >= s[1..][j].CreatedAt()
    {
      assert s[1..][i] == s[i + 1] && s[1..][j] == s[j + 1];
    }
  }

  /** The entries at time `k` of a list with a known head. */
  lemma AtCons(y: Item, s: seq<Item>, k: int)
    ensures At([y] + s, k) == (if y.CreatedAt() == k then [y] else []) + At(s, k)
  {
    assert ([y] + s)[1..] == s;
  }

  /** Inserting in front of older entries. */
  lemma AtInsertFront(x: Item, s: seq<Item>, k: int)
    requires Newest(s)
    requires s != [] && s[0].CreatedAt() < x.CreatedAt()
    ensures At(Insert(x, s), k) == At(s, k) + (if x.CreatedAt() == k then [x] else [])
  {
    assert Insert(x, s) == [x] + s;
    AtCons(x, s, k);
    if x.CreatedAt() == k {
      NewestTail(s);
      AtNone(s, k);
    }
  }

  /** Inserting into a newest-first list puts `x` after the entries already at its time. */
  lemma {:induction false} AtInsert(x: Item, s: seq<Item>, k: int)
    requires Newest(s)
    ensures At(Insert(x, s), k) == At(s, k) + (if x.CreatedAt() == k then [x] else [])
    decreases |s|
  {
    if s == [] {
      AtCons(x, [], k);
    } else if s[0].CreatedAt() >= x.CreatedAt() {
      NewestTail(s);
      AtInsert(x, s[1..], k);
      assert Insert(x, s) == [s[0]] + Insert(x, s[1..]);
      AtCons(s[0], Insert(x, s[1..]), k);
      assert s == [s[0]] + s[1..];
      AtCons(s[0], s[1..], k);
    } else {
      AtInsertFront(x, s, k);
    }
  }

  /** The sort is stable: at every time, the entries keep their input order. */
  lemma {:induction false} SortStable(items: seq<Item>, k: int)
    ensures At(SortNewest(items), k) == At(items, k)
    decreases |items|
  {
    if items != [] {
      var init, x := items[..|items| - 1], items[|items| - 1];
      assert items == init + [x];
      assert SortNewest(items) == Insert(x, SortNewest(init));
      SortStable(init, k);
      AtInsert(x, SortNewest(init), k);
      AtAppend(init, [x], k);
      assert At([x], k) == (if x.CreatedAt() == k then [x] else []) + At([], k);
    }
  }

  /**
   * The feed holds every post and every question exactly once, tagged with
   * its kind, newest first; among entries created at the same time, the
   * posts come first, in their order, then the questions, in theirs.
   */
  lemma CombinedSpec(posts: seq<Post>, questions: seq<Question>, k: int)
    ensures var r := Combined(posts, questions);
      && |r| == |posts| + |questions|
      && multiset(r) == multiset(Tagged(posts, questions))
      && Newest(r)
      && At(r, k) == At(Tagged(posts, []), k) + At(Tagged([], questions), k)
  {
    var t := Tagged(posts, questions);
    var r := SortNewest(t);
    assert |r| == |t| by {
      assert |multiset(r)| == |multiset(t)|;
    }
    SortStable(t, k);
    TaggedSplit(posts, questions);
    AtAppend(Tagged(posts, []), Tagged([], questions), k);
  }

  /** The tagged list is the tagged posts followed by the tagged questions. */
  lemma TaggedSplit(posts: seq<Post>, questions: seq<Question>)
    ensures Tagged(posts, questions) == Tagged(posts, []) + Tagged([], questions)
  {
    var ps := seq(|posts|, i requires 0 <= i < |posts| => PostItem(posts[i]));
    var qs := seq(|questions|, i requires 0 <= i < |questions| => QuestionItem(questions[i]));
    var none: seq<Post> := [];
    var noq: seq<Question> := [];
    assert Tagged(posts, noq) == ps + [];
    assert Tagged(none, questions) == [] + qs;
  }

  /** Every post and every question is in the feed, wrapped in its own kind. */
  lemma EveryEntryShown(posts: seq<Post>, questions: seq<Question>)
    ensures forall p :: p in posts ==> PostItem(p) in Combined(posts, questions)
    ensures forall q :: q in questions ==> QuestionItem(q) in Combined(posts, questions)
  {
    var t := Tagged(posts, questions);
    forall p | p in posts
      ensures PostItem(p) in Combined(posts, questions)
    {
      var i :| 0 <= i < |posts| && posts[i] == p;
      assert t[i] == PostItem(p);
      assert PostItem(p) in multiset(t);
    }
    forall q | q in questions
      ensures QuestionItem(q) in Combined(posts, questions)
    {
      var i :| 0 <= i < |questions| && questions[i] == q;
      assert t[|posts| + i] == QuestionItem(q);
      assert QuestionItem(q) in multiset(t);
    }
  }
}
