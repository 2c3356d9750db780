/**
 * Restoring a signed-in user's stored marks onto the loaded content
 * (app/BurmaTown.tsx, the session effect): star counts, useful marks on
 * questions and answer replies, and comment reactions. The effect is guarded
 * by a flag that is set once and never cleared, so it applies at most once
 * while the shell is mounted.
 */
module Hydration {
  import opened Wrappers
  import opened Types
  import opened Storage

  /** `stars || (mark ? 1 : 0)`. */
  function RestoreStars(stars: int, mark: bool): (r: int)
    ensures !mark ==> r == stars
    ensures mark ==> r == (if stars == 0 then 1 else stars)
  {
    if stars != 0 then stars else if mark then 1 else 0
  }

  /** The stored reaction of a comment, `""` when there is none. */
  function StoredReaction(a: UserActions, id: string): string {
    if id in a.commentReactions then a.commentReactions[id] else ""
  }

  /** `(reactions[k] || 0) + 1`. */
  function AddReaction(reactions: map<string, int>, k: string): (r: map<string, int>)
    ensures k in r && r[k] == (if k in reactions then reactions[k] else 0) + 1
    ensures forall j :: j != k ==> (j in r <==> j in reactions) && (j in r ==> r[j] == reactions[j])
  {
    reactions[k := (if k in reactions then reactions[k] else 0) + 1]
  }

  function HydrateReply(r: Reply, a: UserActions): Reply {
    r.(stars := RestoreStars(r.stars, Marked(a.replyStars, r.id)))
  }

  /** Stars on the comment and its first-level replies, then its stored reaction if none is shown. */
  function HydrateComment(c: Comment, a: UserActions): (r: Comment)
    ensures r.stars == RestoreStars(c.stars, Marked(a.commentStars, c.id))
    ensures |r.replies| == |c.replies|
    ensures forall i :: 0 <= i < |c.replies| ==> r.replies[i] == HydrateReply(c.replies[i], a)
    ensures var cr := StoredReaction(a, c.id);
      if cr != "" && c.userReaction.None?
      then r.userReaction == Some(cr) && r.reactions == AddReaction(c.reactions, cr)
      else r.userReaction == c.userReaction && r.reactions == c.reactions
    ensures r == c.(stars := r.stars, replies := r.replies, userReaction := r.userReaction, reactions := r.reactions)
  {
    var cr := StoredReaction(a, c.id);
    var c1 := c.(stars := RestoreStars(c.stars, Marked(a.commentStars, c.id)),
                 replies := seq(|c.replies|, i requires 0 <= i < |c.replies| => HydrateReply(c.replies[i], a)));
    if cr != "" && c.userReaction.None? then c1.(userReaction := Some(cr), reactions := AddReaction(c.reactions, cr))
    else c1
  }

  function HydratePost(p: Post, a: UserActions): (r: Post)
    ensures r.stars == RestoreStars(p.stars, Marked(a.postStars, p.id))
    ensures |r.comments| == |p.comments|
    ensures forall i :: 0 <= i < |p.comments| ==> r.comments[i] == HydrateComment(p.comments[i], a)
    ensures r == p.(stars := r.stars, comments := r.comments)
  {
    p.(stars := RestoreStars(p.stars, Marked(a.postStars, p.id)),
       comments := seq(|p.comments|, i requires 0 <= i < |p.comments| => HydrateComment(p.comments[i], a)))
  }

  /** The `setPosts` updaters of the effect, over the whole list. */
  function HydratePosts(ps: seq<Post>, a: UserActions): (r: seq<Post>)
    ensures |r| == |ps|
    ensures forall i :: 0 <= i < |ps| ==> r[i] == HydratePost(ps[i], a)
  {
    seq(|ps|, i requires 0 <= i < |ps| => HydratePost(ps[i], a))
  }

  /**
   * A stored useful mark adds one only when the item is not already shown as
   * marked; afterwards it is shown as marked.
   */
  function UsefulNested(r: AnswerReply, a: UserActions): (r': AnswerReply)
    ensures r'.usefulByUser == (r.usefulByUser || Marked(a.answerReplyUseful, r.id))
    ensures r'.useful == r.useful + (if Marked(a.answerReplyUseful, r.id) && !r.usefulByUser then 1 else 0)
    ensures r' == r.(useful := r'.useful, usefulByUser := r'.usefulByUser)
  {
    if Marked(a.answerReplyUseful, r.id) && !r.usefulByUser then r.(usefulByUser := true, useful := r.useful + 1)
    else r
  }

  /** A first-level answer reply: its own useful mark, then those of its nested replies. */
  function HydrateAnswerReply(r: AnswerReply, a: UserActions): (r': AnswerReply)
    ensures r'.usefulByUser == (r.usefulByUser || Marked(a.answerReplyUseful, r.id))
    ensures r'.useful == r.useful + (if Marked(a.answerReplyUseful, r.id) && !r.usefulByUser then 1 else 0)
    ensures |r'.replies| == |r.replies|
    ensures forall i :: 0 <= i < |r.replies| ==> r'.replies[i] == UsefulNested(r.replies[i], a)
    ensures r' == r.(useful := r'.useful, usefulByUser := r'.usefulByUser, replies := r'.replies)
  {
    var base := UsefulNested(r, a);
    base.(replies := seq(|r.replies|, i requires 0 <= i < |r.replies| => UsefulNested(r.replies[i], a)))
  }

  /** An answer: its stars and its replies' useful marks; its own useful mark is left alone. */
  function HydrateAnswer(x: Answer, a: UserActions): (r: Answer)
    ensures r.stars == RestoreStars(x.stars, Marked(a.answerStars, x.id))
    ensures |r.replies| == |x.replies|
    ensures forall i :: 0 <= i < |x.replies| ==> r.replies[i] == HydrateAnswerReply(x.replies[i], a)
    ensures r == x.(stars := r.stars, replies := r.replies)
  {
    x.(stars := RestoreStars(x.stars, Marked(a.answerStars, x.id)),
       replies := seq(|x.replies|, i requires 0 <= i < |x.replies| => HydrateAnswerReply(x.replies[i], a)))
  }

  function HydrateQuestion(q: Question, a: UserActions): (r: Question)
    ensures r.stars == RestoreStars(q.stars, Marked(a.questionStars, q.id))
    ensures r.usefulByUser == (q.usefulByUser || Marked(a.questionUseful, q.id))
    ensures r.useful == q.useful + (if Marked(a.questionUseful, q.id) && !q.usefulByUser then 1 else 0)
    ensures |r.answers| == |q.answers|
    ensures forall i :: 0 <= i < |q.answers| ==> r.answers[i] == HydrateAnswer(q.answers[i], a)
    ensures r == q.(stars := r.stars, useful := r.useful, usefulByUser := r.usefulByUser, answers := r.answers)
  {
    var useful := Marked(a.questionUseful, q.id) && !q.usefulByUser;
    q.(stars := RestoreStars(q.stars, Marked(a.questionStars, q.id)),
       useful := if useful then q.useful + 1 else q.useful,
       usefulByUser := if useful then true else q.usefulByUser,
       answers := seq(|q.answers|, i requires 0 <= i < |q.answers| => HydrateAnswer(q.answers[i], a)))
  }

  /** The `setQuestions` updaters of the effect, over the whole list. */
  function HydrateQuestions(qs: seq<Question>, a: UserActions): (r: seq<Question>)
    ensures |r| == |qs|
    ensures forall i :: 0 <= i < |qs| ==> r[i] == HydrateQuestion(qs[i], a)
  {
    seq(|qs|, i requires 0 <= i < |qs| => HydrateQuestion(qs[i], a))
  }

  /** The content the shell holds, with the once-only flag (`actionsAppliedRef`). */
  datatype Shell = Shell(posts: seq<Post>, questions: seq<Question>, applied: bool)

  /** The session effect: hydrate from the signed-in user's stored actions, unless there is none or it already ran. */
  function Hydrate(s: Shell, user: Option<SessionUser>, st: Store): (r: Shell)
    ensures user.None? || s.applied ==> r == s
    ensures user.Some? ==> r.applied
    ensures user.Some? && !s.applied ==>
      var a := GetUserActions(st, user.value.email);
      r.posts == HydratePosts(s.posts, a) && r.questions == HydrateQuestions(s.questions, a)
  {
    if user.None? || s.applied then s
    else
      var a := GetUserActions(st, user.value.email);
      Shell(HydratePosts(s.posts, a), HydrateQuestions(s.questions, a), true)
  }

  /** Once the effect has run, no later session, user or store hydrates again. */
  lemma HydrateAtMostOnce(s: Shell, user: Option<SessionUser>, st: Store, user': Option<SessionUser>, st': Store)
    ensures var h := Hydrate(s, user, st);
      h.applied ==> Hydrate(h, user', st') == h
  {
  }

  // ------------------------------------------------ applying twice is harmless

  lemma RestoreStarsTwice(stars: int, mark: bool)
    ensures RestoreStars(RestoreStars(stars, mark), mark) == RestoreStars(stars, mark)
  {
  }

  lemma HydrateCommentTwice(c: Comment, a: UserActions)
    ensures HydrateComment(HydrateComment(c, a), a) == HydrateComment(c, a)
  {
    var h := HydrateComment(c, a);
    var hh := HydrateComment(h, a);
    assert hh.replies == h.replies;
  }

  lemma HydratePostTwice(p: Post, a: UserActions)
    ensures HydratePost(HydratePost(p, a), a) == HydratePost(p, a)
  {
    var h := HydratePost(p, a);
    var hh := HydratePost(h, a);
    forall i | 0 <= i < |h.comments|
      ensures hh.comments[i] == h.comments[i]
    {
      HydrateCommentTwice(p.comments[i], a);
    }
    assert hh.comments == h.comments;
  }

  lemma HydrateAnswerReplyTwice(r: AnswerReply, a: UserActions)
    ensures HydrateAnswerReply(HydrateAnswerReply(r, a), a) == HydrateAnswerReply(r, a)
  {
    var h := HydrateAnswerReply(r, a);
    var hh := HydrateAnswerReply(h, a);
    assert hh.replies == h.replies;
  }

  lemma HydrateAnswerTwice(x: Answer, a: UserActions)
    ensures HydrateAnswer(HydrateAnswer(x, a), a) == HydrateAnswer(x, a)
  {
    var h := HydrateAnswer(x, a);
    var hh := HydrateAnswer(h, a);
    forall i | 0 <= i < |h.replies|
      ensures hh.replies[i] == h.replies[i]
    {
      HydrateAnswerReplyTwice(x.replies[i], a);
    }
    assert hh.replies == h.replies;
  }

  lemma HydrateQuestionTwice(q: Question, a: UserActions)
    ensures HydrateQuestion(HydrateQuestion(q, a), a) == HydrateQuestion(q, a)
  {
    var h := HydrateQuestion(q, a);
    var hh := HydrateQuestion(h, a);
    forall i | 0 <= i < |h.answers|
      ensures hh.answers[i] == h.answers[i]
    {
      HydrateAnswerTwice(q.answers[i], a);
    }
    assert hh.answers == h.answers;
  }

  /**
   * The restoring updaters are idempotent: every count they raise also sets
   * the mark or reaction that stops them from raising it again, so even
   * without the once-only flag a repeated run would change nothing.
   */
  lemma HydrationIdempotent(ps: seq<Post>, qs: seq<Question>, a: UserActions)
    ensures HydratePosts(HydratePosts(ps, a), a) == HydratePosts(ps, a)
    ensures HydrateQuestions(HydrateQuestions(qs, a), a) == HydrateQuestions(qs, a)
  {
    forall i | 0 <= i < |ps|
      ensures HydratePosts(HydratePosts(ps, a), a)[i] == HydratePosts(ps, a)[i]
    {
      HydratePostTwice(ps[i], a);
    }
    forall i | 0 <= i < |qs|
      ensures HydrateQuestions(HydrateQuestions(qs, a), a)[i] == HydrateQuestions(qs, a)[i]
    {
      HydrateQuestionTwice(qs[i], a);
    }
  }

  /** The useful mark of an answer itself is never restored: its count and flag are left as loaded. */
  lemma AnswerUsefulNotRestored(qs: seq<Question>, a: UserActions)
    ensures var r := HydrateQuestions(qs, a);
      forall i, j :: 0 <= i < |qs| && 0 <= j < |qs[i].answers| ==>
        r[i].answers[j].useful == qs[i].answers[j].useful
        && r[i].answers[j].usefulByUser == qs[i].answers[j].usefulByUser
  {
  }
}
