/**
 * The content entities of the app (lib/types.ts). Optional counters, flags
 * and reply lists are stored as 0, false and [] when absent: every reader in
 * the source writes `x||0`, `!x` or `x||[]`, so nothing distinguishes the two.
 */
module Types {
  import opened Wrappers

  /** A reply under a post comment; its own `replies` hold the second level. */
  datatype Reply = Reply(
    id: string,
    author: string,
    authorEmail: string,
    authorAvatar: string,
    text: string,
    createdAt: int,
    stars: int,
    reports: int,
    replies: seq<Reply>)

  datatype Comment = Comment(
    id: string,
    author: string,
    authorEmail: string,
    authorAvatar: string,
    authorType: Option<string>,
    text: string,
    createdAt: int,
    reactions: map<string, int>,
    userReaction: Option<string>,
    reports: int,
    stars: int,
    replies: seq<Reply>,
    flagged: bool,
    moderationReasons: seq<string>)

  datatype Post = Post(
    id: string,
    title: string,
    body: string,
    mediaUrl: Option<string>,
    media: Option<seq<string>>,
    price: Option<string>,
    category: Option<string>,
    author: string,
    authorEmail: string,
    authorAvatar: string,
    authorType: string,
    createdAt: int,
    stars: int,
    reports: int,
    comments: seq<Comment>,
    flagged: bool,
    moderationReasons: seq<string>)

  /** A reply under an answer; its own `replies` hold the second level. */
  datatype AnswerReply = AnswerReply(
    id: string,
    author: string,
    authorEmail: string,
    authorAvatar: string,
    text: string,
    createdAt: int,
    stars: int,
    reports: int,
    useful: int,
    usefulByUser: bool,
    replies: seq<AnswerReply>)

  datatype Answer = Answer(
    id: string,
    author: string,
    authorEmail: string,
    authorAvatar: string,
    text: string,
    createdAt: int,
    reports: int,
    stars: int,
    useful: int,
    usefulByUser: bool,
    replies: seq<AnswerReply>,
    flagged: bool,
    moderationReasons: seq<string>)

  datatype Question = Question(
    id: string,
    title: string,
    details: Option<string>,
    author: string,
    authorEmail: string,
    authorAvatar: string,
    createdAt: int,
    useful: int,
    usefulByUser: bool,
    reports: int,
    stars: int,
    answers: seq<Answer>,
    flagged: bool,
    moderationReasons: seq<string>)

  datatype Business = Business(
    name: string,
    category: Option<string>,
    website: Option<string>,
    bio: Option<string>,
    avatar: Option<string>,
    email: Option<string>)

  /** The signed-in user as the hooks see it (`sessionUser`). */
  datatype SessionUser = SessionUser(
    email: string,
    name: string,
    userType: string,
    category: Option<string>,
    avatar: Option<string>)

  /** The profile being edited in the app shell (`profile` state). */
  datatype Profile = Profile(
    profileType: string,
    name: string,
    category: string,
    website: string,
    bio: string,
    avatar: string)

  /** `Math.max(0, n + (up ? 1 : -1))`: the clamped one-step counter move every toggle uses. */
  function Bump(n: int, up: bool): (r: int)
    ensures r >= 0
    ensures up && n >= -1 ==> r == n + 1
    ensures !up && n >= 1 ==> r == n - 1
    ensures !up && n <= 1 ==> r == 0
  {
    var m := n + (if up then 1 else -1);
    if m > 0 then m else 0
  }

  /** Up then down, or down then up from a positive count, returns to the start. */
  lemma BumpRoundTrip(n: int, up: bool)
    requires up ==> n >= 0
    requires !up ==> n >= 1
    ensures Bump(Bump(n, up), !up) == n
  {
  }

  /** `xs.map(x => pick(x) ? f(x) : x)`: the update every hook applies at each level of a content tree. */
  function MapWhere<T>(xs: seq<T>, pick: T -> bool, f: T -> T): (r: seq<T>)
    ensures |r| == |xs|
    ensures forall i :: 0 <= i < |xs| && !pick(xs[i]) ==> r[i] == xs[i]
    ensures forall i :: 0 <= i < |xs| && pick(xs[i]) ==> r[i] == f(xs[i])
  {
    seq(|xs|, i requires 0 <= i < |xs| => if pick(xs[i]) then f(xs[i]) else xs[i])
  }

  /** `sessionUser?.name || 'User'`. */
  function AuthorName(u: Option<SessionUser>): (r: string)
    ensures r != ""
    ensures u.Some? && u.value.name != "" ==> r == u.value.name
  {
    if u.Some? then Or(u.value.name, "User") else "User"
  }

  /** `sessionUser?.email || ''`. */
  function EmailOf(u: Option<SessionUser>): (r: string)
    ensures u.Some? ==> r == u.value.email
    ensures u.None? ==> r == ""
  {
    if u.Some? then u.value.email else ""
  }

  /** `sessionUser?.avatar || ''`. */
  function AuthorAvatar(u: Option<SessionUser>): (r: string)
    ensures u.Some? && Truthy(u.value.avatar) ==> r == u.value.avatar.value
  {
    if u.Some? then OrElse(u.value.avatar, "") else ""
  }

  /** `xs.filter(x => !drop(x))`: the removal every optimistic rollback performs. */
  function Without<T>(xs: seq<T>, drop: T -> bool): (r: seq<T>)
    ensures |r| <= |xs|
    ensures forall i :: 0 <= i < |r| ==> r[i] in xs && !drop(r[i])
    decreases |xs|
  {
    if xs == [] then []
    else (if drop(xs[0]) then [] else [xs[0]]) + Without(xs[1..], drop)
  }

  /** Removing what nothing matches changes nothing. */
  lemma {:induction false} WithoutNone<T>(xs: seq<T>, drop: T -> bool)
    requires forall i :: 0 <= i < |xs| ==> !drop(xs[i])
    ensures Without(xs, drop) == xs
    decreases |xs|
  {
    if xs != [] {
      WithoutNone(xs[1..], drop);
    }
  }

  /** The filter works element by element: filtering a concatenation concatenates the filtered parts. */
  lemma {:induction false} WithoutAppend<T>(xs: seq<T>, ys: seq<T>, drop: T -> bool)
    ensures Without(xs + ys, drop) == Without(xs, drop) + Without(ys, drop)
    decreases |xs|
  {
    if xs == [] {
      assert xs + ys == ys;
    } else {
      assert (xs + ys)[0] == xs[0];
      assert (xs + ys)[1..] == xs[1..] + ys;
      WithoutAppend(xs[1..], ys, drop);
    }
  }

  /** The filter keeps exactly the members nothing drops. */
  lemma {:induction false} WithoutMembers<T>(xs: seq<T>, drop: T -> bool)
    ensures forall x :: x in Without(xs, drop) <==> x in xs && !drop(x)
    decreases |xs|
  {
    if xs != [] {
      WithoutMembers(xs[1..], drop);
      assert xs == [xs[0]] + xs[1..];
    }
  }

  /**
   * An optimistic insertion of `x` at the front is undone by the rollback's
   * filter exactly when nothing already present matches what `x` matches.
   */
  lemma RollbackAfterPrepend<T>(x: T, xs: seq<T>, drop: T -> bool)
    requires drop(x)
    requires forall i :: 0 <= i < |xs| ==> !drop(xs[i])
    ensures Without([x] + xs, drop) == xs
  {
    assert ([x] + xs)[1..] == xs;
    WithoutNone(xs, drop);
  }

  /** The same for an optimistic insertion at the end. */
  lemma {:induction false} RollbackAfterAppend<T>(xs: seq<T>, x: T, drop: T -> bool)
    requires drop(x)
    requires forall i :: 0 <= i < |xs| ==> !drop(xs[i])
    ensures Without(xs + [x], drop) == xs
    decreases |xs|
  {
    if xs == [] {
      assert Without([x][1..], drop) == [];
    } else {
      assert (xs + [x])[1..] == xs[1..] + [x];
      RollbackAfterAppend(xs[1..], x, drop);
    }
  }
}
