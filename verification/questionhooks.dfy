/**
 * The question-side hook (hooks/useQuestions.ts): asking and answering,
 * stars, "useful" marks, replies under answers, and reports. The shape
 * follows the post-side hook; the differences are that answer replies carry
 * a useful count, several callbacks reach second-level replies, the report
 * throttle has no test bypass, and reports on answer replies are not
 * throttled at all.
 */
module QuestionHooks {
  import opened Wrappers
  import opened Types
  import opened Storage
  import opened Validation
  import opened Adapters
  import opened Throttle
  import opened HookEnv
  import Optimistic

  datatype State = State(questions: seq<Question>, store: Store, stamps: Timestamps)

  /** Which counter a callback moves on an answer or an answer reply. */
  datatype Counter = StarCount | ReportCount | UsefulMark

  /**
   * The one-step change of a counter: stars and reports move by one, clamped
   * at 0; a useful toggle also negates `usefulByUser`, whichever way the count moves.
   */
  function TouchReply(x: AnswerReply, c: Counter, up: bool): (r: AnswerReply)
    ensures r.id == x.id && r.replies == x.replies && r.text == x.text
  {
    match c
    case StarCount => x.(stars := Bump(x.stars, up))
    case ReportCount => x.(reports := Bump(x.reports, up))
    case UsefulMark => x.(useful := Bump(x.useful, up), usefulByUser := !x.usefulByUser)
  }

  function TouchAnswer(a: Answer, c: Counter, up: bool): (r: Answer)
    ensures r.id == a.id && r.replies == a.replies && r.text == a.text
  {
    match c
    case StarCount => a.(stars := Bump(a.stars, up))
    case ReportCount => a.(reports := Bump(a.reports, up))
    case UsefulMark => a.(useful := Bump(a.useful, up), usefulByUser := !a.usefulByUser)
  }

  /** The counter's value before the move. */
  function ReplyCount(x: AnswerReply, c: Counter): int {
    match c
    case StarCount => x.stars
    case ReportCount => x.reports
    case UsefulMark => x.useful
  }

  function AnswerCount(a: Answer, c: Counter): int {
    match c
    case StarCount => a.stars
    case ReportCount => a.reports
    case UsefulMark => a.useful
  }

  /** Moving a counter one way then the other restores the item, when the count allowed the first move. */
  lemma TouchReplyTwice(x: AnswerReply, c: Counter, up: bool)
    requires ReplyCount(x, c) >= (if up then 0 else 1)
    ensures TouchReply(TouchReply(x, c, up), c, !up) == x
  {
    BumpRoundTrip(ReplyCount(x, c), up);
  }

  lemma TouchAnswerTwice(a: Answer, c: Counter, up: bool)
    requires AnswerCount(a, c) >= (if up then 0 else 1)
    ensures TouchAnswer(TouchAnswer(a, c, up), c, !up) == a
  {
    BumpRoundTrip(AnswerCount(a, c), up);
  }

  // ---------------------------------------------------------------------------
  // Shapes of the tree updates
  // ---------------------------------------------------------------------------

  /** Only questions `qid` may change, and only in their answers. */
  ghost predicate AnswersOnly(before: seq<Question>, after: seq<Question>, qid: string) {
    |after| == |before| &&
    forall i :: 0 <= i < |before| ==>
      after[i] == if before[i].id == qid then before[i].(answers := after[i].answers) else before[i]
  }

  /** Only answers `answerId` may change, and only in their replies. */
  ghost predicate AnswerRepliesOnly(before: seq<Answer>, after: seq<Answer>, answerId: string) {
    |after| == |before| &&
    forall j :: 0 <= j < |before| ==>
      after[j] == if before[j].id == answerId then before[j].(replies := after[j].replies) else before[j]
  }

  /** Answers `answerId` have the counter moved; no other answer changes. */
  ghost predicate AnswerTouched(before: seq<Answer>, after: seq<Answer>, answerId: string, c: Counter, up: bool) {
    |after| == |before| &&
    forall j :: 0 <= j < |before| ==>
      after[j] == if before[j].id == answerId then TouchAnswer(before[j], c, up) else before[j]
  }

  /**
   * A matching first-level reply has the counter moved; any other
   * first-level reply has its matching second-level replies' counters moved.
   */
  ghost predicate ReplyTouched(before: seq<AnswerReply>, after: seq<AnswerReply>, replyId: string, c: Counter, up: bool) {
    |after| == |before| &&
    forall k :: 0 <= k < |before| ==>
      if before[k].id == replyId then after[k] == TouchReply(before[k], c, up)
      else
        && after[k] == before[k].(replies := after[k].replies)
        && |after[k].replies| == |before[k].replies|
        && forall m :: 0 <= m < |before[k].replies| ==>
             after[k].replies[m] ==
               if before[k].replies[m].id == replyId then TouchReply(before[k].replies[m], c, up)
               else before[k].replies[m]
  }

  /** The answer-reply update shared by `toggleAnswerReplyUseful`, `starAnswerReply` and `reportAnswerReply`. */
  function TouchInReplies(replies: seq<AnswerReply>, replyId: string, c: Counter, up: bool): (r: seq<AnswerReply>)
    ensures ReplyTouched(replies, r, replyId, c, up)
  {
    MapWhere(replies, (x: AnswerReply) => true,
      (x: AnswerReply) => if x.id == replyId then TouchReply(x, c, up)
                          else x.(replies := MapWhere(x.replies, (n: AnswerReply) => n.id == replyId,
                                                      (n: AnswerReply) => TouchReply(n, c, up))))
  }

  /** Apply `f` to the answers `answerId` of the questions `qid`. */
  function InAnswer(qs: seq<Question>, qid: string, answerId: string, f: Answer -> Answer): (r: seq<Question>)
    ensures AnswersOnly(qs, r, qid)
    ensures forall i :: 0 <= i < |qs| && qs[i].id == qid ==>
      && |r[i].answers| == |qs[i].answers|
      && forall j :: 0 <= j < |qs[i].answers| ==>
           r[i].answers[j] == if qs[i].answers[j].id == answerId then f(qs[i].answers[j]) else qs[i].answers[j]
  {
    MapWhere(qs, (q: Question) => q.id == qid,
             (q: Question) => q.(answers := MapWhere(q.answers, (a: Answer) => a.id == answerId, f)))
  }

  // ---------------------------------------------------------------------------
  // Asking and answering
  // ---------------------------------------------------------------------------

  /** The question `askQuestion` puts at the front. */
  function NewQuestion(env: Env, title: string, details: Option<string>): Question {
    var safeDetails := if Truthy(details) then Some(Sanitize(env, details.value)) else None;
    ModerateQuestion(RemoteCreateQuestion(env.apiSet, Sanitize(env, title), safeDetails, env.user,
                                          env.now, env.freshId, env.serverId))
  }

  /** `askQuestion({title, details})`. */
  function AskQuestion(st: State, env: Env, title: string, details: Option<string>): (r: Outcome<State>)
    ensures var v := ValidateQuestion(title, details);
      !v.ok ==> r == Outcome(st, [Toast(OrElse(FirstError(v), "Invalid question"), "error")])
    ensures ValidateQuestion(title, details).ok ==>
      && r.effects == [] && r.state.store == st.store && r.state.stamps == st.stamps
      && |r.state.questions| == |st.questions| + 1 && r.state.questions[1..] == st.questions
      && var q := r.state.questions[0];
         && q.title == Sanitize(env, title)
         && (Truthy(details) ==> q.details == Some(Sanitize(env, details.value)))
         && (!Truthy(details) ==> q.details == None)
         && q.answers == [] && q.stars == 0 && q.reports == 0 && q.useful == 0 && !q.usefulByUser
         && q.createdAt == env.now
         && (env.apiSet && env.serverId.Some? ==> q.id == env.serverId.value)
         && (!env.apiSet || env.serverId.None? ==> q.id == env.freshId)
         && q.authorEmail == EmailOf(env.user)
         && (env.user.None? ==> q.author == "User" && q.authorAvatar == "")
         && (env.user.Some? && env.user.value.name != "" ==> q.author == env.user.value.name)
         && var m := ModerateText(Some(q.title));
            && (q.flagged <==> m.flagged)
            && q.moderationReasons == (if m.flagged then m.reasons else [])
    ensures ValidateQuestion(title, details).ok ==> r.state.questions[0] == NewQuestion(env, title, details)
  {
    var v := ValidateQuestion(title, details);
    if !v.ok then Outcome(st, [Toast(OrElse(FirstError(v), "Invalid question"), "error")])
    else
      var q := NewQuestion(env, title, details);
      var qs := Optimistic.Settle(st.questions, (xs: seq<Question>) => [q] + xs,
                                  (xs: seq<Question>) => Without(xs, (x: Question) => x.id == q.id),
                                  Optimistic.Returns);
      Outcome(State(qs, st.store, st.stamps), [])
  }

  /** The answer `answerQuestion` appends; its id is the one the adapter's create call returns. */
  function NewAnswer(env: Env, text: string): (a: Answer)
    ensures a.id == CreatedId(env.apiSet, env.serverId, env.freshId)
    ensures a.text == Sanitize(env, text) && a.createdAt == env.now
    ensures a.stars == 0 && a.reports == 0 && a.useful == 0 && !a.usefulByUser && a.replies == []
  {
    ModerateAnswer(Answer(CreatedId(env.apiSet, env.serverId, env.freshId), AuthorName(env.user),
                          EmailOf(env.user), AuthorAvatar(env.user), Sanitize(env, text), env.now,
                          0, 0, 0, false, [], false, []))
  }

  /** `answerQuestion(qid, text)`: the adapter receives the sanitized text. */
  function AnswerQuestion(st: State, env: Env, qid: string, text: string): (r: Outcome<State>)
    ensures var v := ValidateAnswer(text);
      !v.ok ==> r == Outcome(st, [Toast(OrElse(FirstError(v), "Invalid answer"), "error")])
    ensures ValidateAnswer(text).ok ==>
      && r.effects == [CreateAnswerCall(qid, Sanitize(env, text))]
      && r.state.store == st.store && r.state.stamps == st.stamps
      && AnswersOnly(st.questions, r.state.questions, qid)
      && forall i :: 0 <= i < |st.questions| && st.questions[i].id == qid ==>
           r.state.questions[i].answers == st.questions[i].answers + [NewAnswer(env, text)]
  {
    var v := ValidateAnswer(text);
    if !v.ok then Outcome(st, [Toast(OrElse(FirstError(v), "Invalid answer"), "error")])
    else
      var a := NewAnswer(env, text);
      var apply := (xs: seq<Question>) =>
        MapWhere(xs, (q: Question) => q.id == qid, (q: Question) => q.(answers := q.answers + [a]));
      var undo := (xs: seq<Question>) =>
        MapWhere(xs, (q: Question) => q.id == qid,
                 (q: Question) => q.(answers := Without(q.answers, (x: Answer) => x.id == a.id)));
      var qs := Optimistic.Settle(st.questions, apply, undo, Optimistic.Returns);
      Outcome(State(qs, st.store, st.stamps), [CreateAnswerCall(qid, Sanitize(env, text))])
  }

  /** Were the answer's remote step to fail, the rollback would restore the answers, provided the id was new. */
  lemma AnswerRollbackRestores(answers: seq<Answer>, a: Answer)
    requires forall j :: 0 <= j < |answers| ==> answers[j].id != a.id
    ensures Without(answers + [a], (x: Answer) => x.id == a.id) == answers
  {
    RollbackAfterAppend(answers, a, (x: Answer) => x.id == a.id);
  }

  // ---------------------------------------------------------------------------
  // Stars and useful marks
  // ---------------------------------------------------------------------------

  /** `toggleQuestionStar(qid)`. */
  function ToggleQuestionStar(st: State, env: Env, qid: string): (r: Outcome<State>)
    ensures env.user.None? ==> r == Outcome(st, [])
    ensures env.user.Some? ==>
      var email := env.user.value.email;
      var was := Marked(GetUserActions(st.store, email).questionStars, qid);
      && Marked(GetUserActions(r.state.store, email).questionStars, qid) == !was
      && (var a := GetUserActions(st.store, email);
            StoredAs(st.store, r.state.store, email, a.(questionStars := ToggleFlag(a.questionStars, qid))))
      && |r.state.questions| == |st.questions|
      && (forall i :: 0 <= i < |st.questions| ==>
            r.state.questions[i] == if st.questions[i].id == qid
                                    then st.questions[i].(stars := Bump(st.questions[i].stars, !was))
                                    else st.questions[i])
      && r.state.stamps == st.stamps
      && r.effects == [RecordAction("questionStar", [("qid", PStr(qid)), ("added", PBool(!was))]),
                       Persist(Engagement(Star, "question", qid, None, !was))]
  {
    if env.user.None? then Outcome(st, [])
    else
      var email := env.user.value.email;
      var updater := (u: UserActions) => u.(questionStars := ToggleFlag(u.questionStars, qid));
      var upd := UpdateUserActions(st.store, email, updater);
      UpdateStored(st.store, email, updater);
      var added := Marked(upd.next.questionStars, qid);
      var qs := MapWhere(st.questions, (q: Question) => q.id == qid, (q: Question) => q.(stars := Bump(q.stars, added)));
      Outcome(State(qs, upd.store, st.stamps),
              [RecordAction("questionStar", [("qid", PStr(qid)), ("added", PBool(added))]),
               Persist(Engagement(Star, "question", qid, None, added))])
  }

  /** `toggleAnswerStar(qid, answerId)`. */
  function ToggleAnswerStar(st: State, env: Env, qid: string, answerId: string): (r: Outcome<State>)
    ensures env.user.None? ==> r == Outcome(st, [])
    ensures env.user.Some? ==>
      var email := env.user.value.email;
      var was := Marked(GetUserActions(st.store, email).answerStars, answerId);
      && Marked(GetUserActions(r.state.store, email).answerStars, answerId) == !was
      && (var a := GetUserActions(st.store, email);
            StoredAs(st.store, r.state.store, email, a.(answerStars := ToggleFlag(a.answerStars, answerId))))
      && (forall k :: k != answerId ==>
            Marked(GetUserActions(r.state.store, email).answerStars, k) == Marked(GetUserActions(st.store, email).answerStars, k))
      && AnswersOnly(st.questions, r.state.questions, qid)
      && (forall i :: 0 <= i < |st.questions| && st.questions[i].id == qid ==>
            AnswerTouched(st.questions[i].answers, r.state.questions[i].answers, answerId, StarCount, !was))
      && r.state.stamps == st.stamps
      && r.effects == [RecordAction("answerStar", [("qid", PStr(qid)), ("answerId", PStr(answerId)), ("added", PBool(!was))]),
                       Persist(Engagement(Star, "answer", answerId, Some(qid), !was))]
  {
    if env.user.None? then Outcome(st, [])
    else
      var email := env.user.value.email;
      var updater := (u: UserActions) => u.(answerStars := ToggleFlag(u.answerStars, answerId));
      var upd := UpdateUserActions(st.store, email, updater);
      UpdateStored(st.store, email, updater);
      var added := Marked(upd.next.answerStars, answerId);
      var qs := InAnswer(st.questions, qid, answerId, (a: Answer) => TouchAnswer(a, StarCount, added));
      Outcome(State(qs, upd.store, st.stamps),
              [RecordAction("answerStar", [("qid", PStr(qid)), ("answerId", PStr(answerId)), ("added", PBool(added))]),
               Persist(Engagement(Star, "answer", answerId, Some(qid), added))])
  }

  /**
   * `toggleUsefulAnswer(qid, answerId)`: the count follows the stored mark,
   * while `usefulByUser` is negated on every call, whatever the mark says.
   */
  function ToggleUsefulAnswer(st: State, env: Env, qid: string, answerId: string): (r: Outcome<State>)
    ensures env.user.None? ==> r == Outcome(st, [])
    ensures env.user.Some? ==>
      var email := env.user.value.email;
      var was := Marked(GetUserActions(st.store, email).answerUseful, answerId);
      && Marked(GetUserActions(r.state.store, email).answerUseful, answerId) == !was
      && (var a := GetUserActions(st.store, email);
            StoredAs(st.store, r.state.store, email, a.(answerUseful := ToggleFlag(a.answerUseful, answerId))))
      && AnswersOnly(st.questions, r.state.questions, qid)
      && (forall i :: 0 <= i < |st.questions| && st.questions[i].id == qid ==>
            AnswerTouched(st.questions[i].answers, r.state.questions[i].answers, answerId, UsefulMark, !was))
      && r.state.stamps == st.stamps
      && r.effects == [RecordAction("answerUseful", [("qid", PStr(qid)), ("answerId", PStr(answerId)), ("added", PBool(!was))]),
                       Persist(Engagement(Useful, "answer", answerId, Some(qid), !was))]
  {
    if env.user.None? then Outcome(st, [])
    else
      var email := env.user.value.email;
      var updater := (u: UserActions) => u.(answerUseful := ToggleFlag(u.answerUseful, answerId));
      var upd := UpdateUserActions(st.store, email, updater);
      UpdateStored(st.store, email, updater);
      var added := Marked(upd.next.answerUseful, answerId);
      var qs := InAnswer(st.questions, qid, answerId, (a: Answer) => TouchAnswer(a, UsefulMark, added));
      Outcome(State(qs, upd.store, st.stamps),
              [RecordAction("answerUseful", [("qid", PStr(qid)), ("answerId", PStr(answerId)), ("added", PBool(added))]),
               Persist(Engagement(Useful, "answer", answerId, Some(qid), added))])
  }

  // ---------------------------------------------------------------------------
  // Replies under answers
  // ---------------------------------------------------------------------------

  /** The reply `addAnswerReply` and `addNestedAnswerReply` append. */
  function NewAnswerReply(env: Env, text: string): (x: AnswerReply)
    ensures x.id == env.freshId && x.text == Sanitize(env, text) && x.createdAt == env.now
    ensures x.stars == 0 && x.reports == 0 && x.useful == 0 && !x.usefulByUser && x.replies == []
  {
    AnswerReply(env.freshId, AuthorName(env.user), EmailOf(env.user), AuthorAvatar(env.user),
                Sanitize(env, text), env.now, 0, 0, 0, false, [])
  }

  /** `addAnswerReply(qid, answerId, text)`: signed-in only. */
  function AddAnswerReply(st: State, env: Env, qid: string, answerId: string, text: string): (r: Outcome<State>)
    ensures env.user.None? ==> r == Outcome(st, [])
    ensures r.effects == [] && r.state.store == st.store && r.state.stamps == st.stamps
    ensures env.user.Some? ==>
      && AnswersOnly(st.questions, r.state.questions, qid)
      && forall i :: 0 <= i < |st.questions| && st.questions[i].id == qid ==>
           && AnswerRepliesOnly(st.questions[i].answers, r.state.questions[i].answers, answerId)
           && forall j :: 0 <= j < |st.questions[i].answers| && st.questions[i].answers[j].id == answerId ==>
                r.state.questions[i].answers[j].replies == st.questions[i].answers[j].replies + [NewAnswerReply(env, text)]
  {
    if env.user.None? then Outcome(st, [])
    else
      var reply := NewAnswerReply(env, text);
      var qs := InAnswer(st.questions, qid, answerId, (a: Answer) => a.(replies := a.replies + [reply]));
      Outcome(State(qs, st.store, st.stamps), [])
  }

  /** `addNestedAnswerReply(qid, answerId, parentReplyId, text)`: signed-in only. */
  function AddNestedAnswerReply(st: State, env: Env, qid: string, answerId: string, parentReplyId: string,
                                text: string): (r: Outcome<State>)
    ensures env.user.None? ==> r == Outcome(st, [])
    ensures r.effects == [] && r.state.store == st.store && r.state.stamps == st.stamps
    ensures env.user.Some? ==>
      && AnswersOnly(st.questions, r.state.questions, qid)
      && forall i :: 0 <= i < |st.questions| && st.questions[i].id == qid ==>
           && AnswerRepliesOnly(st.questions[i].answers, r.state.questions[i].answers, answerId)
           && forall j :: 0 <= j < |st.questions[i].answers| && st.questions[i].answers[j].id == answerId ==>
                var before := st.questions[i].answers[j].replies;
                var after := r.state.questions[i].answers[j].replies;
                && |after| == |before|
                && forall k :: 0 <= k < |before| ==>
                     after[k] == if before[k].id == parentReplyId
                                 then before[k].(replies := before[k].replies + [NewAnswerReply(env, text)])
                                 else before[k]
  {
    if env.user.None? then Outcome(st, [])
    else
      var nested := NewAnswerReply(env, text);
      var qs := InAnswer(st.questions, qid, answerId,
        (a: Answer) => a.(replies := MapWhere(a.replies, (x: AnswerReply) => x.id == parentReplyId,
                                              (x: AnswerReply) => x.(replies := x.replies + [nested]))));
      Outcome(State(qs, st.store, st.stamps), [])
  }

  /** `toggleAnswerReplyUseful(qid, answerId, replyId)`: the first-level reply with the id, else matching second-level ones. */
  function ToggleAnswerReplyUseful(st: State, env: Env, qid: string, answerId: string, replyId: string): (r: Outcome<State>)
    ensures env.user.None? ==> r == Outcome(st, [])
    ensures env.user.Some? ==>
      var email := env.user.value.email;
      var was := Marked(GetUserActions(st.store, email).answerReplyUseful, replyId);
      && Marked(GetUserActions(r.state.store, email).answerReplyUseful, replyId) == !was
      && (var a := GetUserActions(st.store, email);
            StoredAs(st.store, r.state.store, email, a.(answerReplyUseful := ToggleFlag(a.answerReplyUseful, replyId))))
      && AnswersOnly(st.questions, r.state.questions, qid)
      && (forall i :: 0 <= i < |st.questions| && st.questions[i].id == qid ==>
            && AnswerRepliesOnly(st.questions[i].answers, r.state.questions[i].answers, answerId)
            && forall j :: 0 <= j < |st.questions[i].answers| && st.questions[i].answers[j].id == answerId ==>
                 ReplyTouched(st.questions[i].answers[j].replies, r.state.questions[i].answers[j].replies, replyId, UsefulMark, !was))
      && r.state.stamps == st.stamps
      && r.effects == [RecordAction("answerReplyUseful", [("qid", PStr(qid)), ("answerId", PStr(answerId)),
                                                          ("replyId", PStr(replyId)), ("added", PBool(!was))]),
                       Persist(Engagement(Useful, "answerReply", replyId, Some(answerId), !was))]
  {
    if env.user.None? then Outcome(st, [])
    else
      var email := env.user.value.email;
      var updater := (u: UserActions) => u.(answerReplyUseful := ToggleFlag(u.answerReplyUseful, replyId));
      var upd := UpdateUserActions(st.store, email, updater);
      UpdateStored(st.store, email, updater);
      var added := Marked(upd.next.answerReplyUseful, replyId);
      var qs := InAnswer(st.questions, qid, answerId,
                         (a: Answer) => a.(replies := TouchInReplies(a.replies, replyId, UsefulMark, added)));
      Outcome(State(qs, upd.store, st.stamps),
              [RecordAction("answerReplyUseful", [("qid", PStr(qid)), ("answerId", PStr(answerId)),
                                                  ("replyId", PStr(replyId)), ("added", PBool(added))]),
               Persist(Engagement(Useful, "answerReply", replyId, Some(answerId), added))])
  }

  /** `starAnswerReply(qid, answerId, replyId)`: same targeting as the useful toggle. */
  function StarAnswerReply(st: State, env: Env, qid: string, answerId: string, replyId: string): (r: Outcome<State>)
    ensures env.user.None? ==> r == Outcome(st, [])
    ensures env.user.Some? ==>
      var email := env.user.value.email;
      var was := Marked(GetUserActions(st.store, email).answerReplyStars, replyId);
      && Marked(GetUserActions(r.state.store, email).answerReplyStars, replyId) == !was
      && (var a := GetUserActions(st.store, email);
            StoredAs(st.store, r.state.store, email, a.(answerReplyStars := ToggleFlag(a.answerReplyStars, replyId))))
      && AnswersOnly(st.questions, r.state.questions, qid)
      && (forall i :: 0 <= i < |st.questions| && st.questions[i].id == qid ==>
            && AnswerRepliesOnly(st.questions[i].answers, r.state.questions[i].answers, answerId)
            && forall j :: 0 <= j < |st.questions[i].answers| && st.questions[i].answers[j].id == answerId ==>
                 ReplyTouched(st.questions[i].answers[j].replies, r.state.questions[i].answers[j].replies, replyId, StarCount, !was))
      && r.state.stamps == st.stamps
      && r.effects == [RecordAction("answerReplyStar", [("qid", PStr(qid)), ("answerId", PStr(answerId)),
                                                        ("replyId", PStr(replyId)), ("added", PBool(!was))]),
                       Persist(Engagement(Star, "answerReply", replyId, Some(answerId), !was))]
  {
    if env.user.None? then Outcome(st, [])
    else
      var email := env.user.value.email;
      var updater := (u: UserActions) => u.(answerReplyStars := ToggleFlag(u.answerReplyStars, replyId));
      var upd := UpdateUserActions(st.store, email, updater);
      UpdateStored(st.store, email, updater);
      var added := Marked(upd.next.answerReplyStars, replyId);
      var qs := InAnswer(st.questions, qid, answerId,
                         (a: Answer) => a.(replies := TouchInReplies(a.replies, replyId, StarCount, added)));
      Outcome(State(qs, upd.store, st.stamps),
              [RecordAction("answerReplyStar", [("qid", PStr(qid)), ("answerId", PStr(answerId)),
                                                ("replyId", PStr(replyId)), ("added", PBool(added))]),
               Persist(Engagement(Star, "answerReply", replyId, Some(answerId), added))])
  }

  // ---------------------------------------------------------------------------
  // Reports
  // ---------------------------------------------------------------------------

  /** An optional argument as a payload member: `undefined` when it is not passed. */
  function Optional(o: Option<string>): (v: PayloadValue)
    ensures o.None? <==> v == PUndefined
  {
    if o.Some? then PStr(o.value) else PUndefined
  }

  /** The throttle key of `reportQuestion`: the answer's when an answer id is given, else the question's. */
  function ReportKey(qid: string, answerId: Option<string>): string {
    if Truthy(answerId) then "answer:" + answerId.value else "question:" + qid
  }

  /**
   * `reportQuestion(qid, answerId?)`: throttled without any test bypass;
   * reports the answer when an answer id is given, else the question.
   */
  function ReportQuestion(st: State, env: Env, qid: string, answerId: Option<string>): (r: Outcome<State>)
    ensures var d := CanReport(st.stamps, ReportKey(qid, answerId), env.now, false);
      && (!d.allowed ==> r == Outcome(st, [Toast(WaitMessage, "info")]))
      && (d.allowed && env.user.None? ==> r == Outcome(st.(stamps := d.stamps), []))
      && (d.allowed && env.user.Some? && !Truthy(answerId) ==>
            var email := env.user.value.email;
            var was := Marked(Flagset(GetUserActions(st.store, email).reports.questions), qid);
            && Marked(Flagset(GetUserActions(r.state.store, email).reports.questions), qid) == !was
            && (var a := GetUserActions(st.store, email);
                  StoredAs(st.store, r.state.store, email, a.(reports := a.reports.(questions := Some(ToggleFlag(Flagset(a.reports.questions), qid))))))
            && |r.state.questions| == |st.questions|
            && (forall i :: 0 <= i < |st.questions| ==>
                  r.state.questions[i] == if st.questions[i].id == qid
                                          then st.questions[i].(reports := Bump(st.questions[i].reports, !was))
                                          else st.questions[i])
            && r.state.stamps == d.stamps
            && |r.effects| == 2 && r.effects[0] == RecordAction("questionReport", [("qid", PStr(qid)), ("answerId", Optional(answerId)), ("removed", PBool(was))])
            && r.effects[1] == Persist(Engagement(Report, "question", qid, None, !was)))
      && (d.allowed && env.user.Some? && Truthy(answerId) ==>
            var email := env.user.value.email;
            var aid := answerId.value;
            var was := Marked(Flagset(GetUserActions(st.store, email).reports.answers), aid);
            && Marked(Flagset(GetUserActions(r.state.store, email).reports.answers), aid) == !was
            && (var a := GetUserActions(st.store, email);
                  StoredAs(st.store, r.state.store, email, a.(reports := a.reports.(answers := Some(ToggleFlag(Flagset(a.reports.answers), aid))))))
            && AnswersOnly(st.questions, r.state.questions, qid)
            && (forall i :: 0 <= i < |st.questions| && st.questions[i].id == qid ==>
                  AnswerTouched(st.questions[i].answers, r.state.questions[i].answers, aid, ReportCount, !was))
            && r.state.stamps == d.stamps
            && |r.effects| == 2 && r.effects[0] == RecordAction("questionReport", [("qid", PStr(qid)), ("answerId", Optional(answerId)), ("removed", PBool(was))])
            && r.effects[1] == Persist(Engagement(Report, "answer", aid, Some(qid), !was)))
    ensures |r.effects| <= 2
  {
    var d := CanReport(st.stamps, ReportKey(qid, answerId), env.now, false);
    if !d.allowed then Outcome(st, [Toast(WaitMessage, "info")])
    else if env.user.None? then Outcome(st.(stamps := d.stamps), [])
    else if !Truthy(answerId) then ReportWholeQuestion(st, env.user.value.email, qid, d.stamps, Optional(answerId))
    else ReportAnswer(st, env.user.value.email, qid, answerId.value, d.stamps, Optional(answerId))
  }

  /** The question branch of `reportQuestion`, once the throttle and the sign-in check passed. */
  function ReportWholeQuestion(st: State, email: string, qid: string, stamps: Timestamps, answerArg: PayloadValue)
    : (r: Outcome<State>)
    ensures var was := Marked(Flagset(GetUserActions(st.store, email).reports.questions), qid);
      && Marked(Flagset(GetUserActions(r.state.store, email).reports.questions), qid) == !was
      && (var a := GetUserActions(st.store, email);
            StoredAs(st.store, r.state.store, email, a.(reports := a.reports.(questions := Some(ToggleFlag(Flagset(a.reports.questions), qid))))))
      && |r.state.questions| == |st.questions|
      && (forall i :: 0 <= i < |st.questions| ==>
            r.state.questions[i] == if st.questions[i].id == qid
                                    then st.questions[i].(reports := Bump(st.questions[i].reports, !was))
                                    else st.questions[i])
      && r.state.stamps == stamps
      && r.effects == [RecordAction("questionReport", [("qid", PStr(qid)), ("answerId", answerArg), ("removed", PBool(was))]),
                       Persist(Engagement(Report, "question", qid, None, !was))]
  {
    var updater := (u: UserActions) =>
      u.(reports := u.reports.(questions := Some(ToggleFlag(Flagset(u.reports.questions), qid))));
    var upd := UpdateUserActions(st.store, email, updater);
    UpdateStored(st.store, email, updater);
    var removed := !Marked(Flagset(upd.next.reports.questions), qid);
    var qs := MapWhere(st.questions, (q: Question) => q.id == qid,
                       (q: Question) => q.(reports := Bump(q.reports, !removed)));
    Outcome(State(qs, upd.store, stamps),
            [RecordAction("questionReport", [("qid", PStr(qid)), ("answerId", answerArg), ("removed", PBool(removed))]),
             Persist(Engagement(Report, "question", qid, None, !removed))])
  }

  /** The answer branch of `reportQuestion`. */
  function ReportAnswer(st: State, email: string, qid: string, aid: string, stamps: Timestamps, answerArg: PayloadValue)
    : (r: Outcome<State>)
    ensures var was := Marked(Flagset(GetUserActions(st.store, email).reports.answers), aid);
      && Marked(Flagset(GetUserActions(r.state.store, email).reports.answers), aid) == !was
      && (var a := GetUserActions(st.store, email);
            StoredAs(st.store, r.state.store, email, a.(reports := a.reports.(answers := Some(ToggleFlag(Flagset(a.reports.answers), aid))))))
      && AnswersOnly(st.questions, r.state.questions, qid)
      && (forall i :: 0 <= i < |st.questions| && st.questions[i].id == qid ==>
            AnswerTouched(st.questions[i].answers, r.state.questions[i].answers, aid, ReportCount, !was))
      && r.state.stamps == stamps
      && r.effects == [RecordAction("questionReport", [("qid", PStr(qid)), ("answerId", answerArg), ("removed", PBool(was))]),
                       Persist(Engagement(Report, "answer", aid, Some(qid), !was))]
  {
    var updater := (u: UserActions) =>
      u.(reports := u.reports.(answers := Some(ToggleFlag(Flagset(u.reports.answers), aid))));
    var upd := UpdateUserActions(st.store, email, updater);
    UpdateStored(st.store, email, updater);
    var removed := !Marked(Flagset(upd.next.reports.answers), aid);
    var qs := InAnswer(st.questions, qid, aid, (a: Answer) => TouchAnswer(a, ReportCount, !removed));
    Outcome(State(qs, upd.store, stamps),
            [RecordAction("questionReport", [("qid", PStr(qid)), ("answerId", answerArg), ("removed", PBool(removed))]),
             Persist(Engagement(Report, "answer", aid, Some(qid), !removed))])
  }

  /** `reportAnswerReply(qid, answerId, replyId)`: not throttled. */
  function ReportAnswerReply(st: State, env: Env, qid: string, answerId: string, replyId: string): (r: Outcome<State>)
    ensures r.state.stamps == st.stamps
    ensures env.user.None? ==> r == Outcome(st, [])
    ensures env.user.Some? ==>
      var email := env.user.value.email;
      var was := Marked(Flagset(GetUserActions(st.store, email).reports.answerReplies), replyId);
      && Marked(Flagset(GetUserActions(r.state.store, email).reports.answerReplies), replyId) == !was
      && (var a := GetUserActions(st.store, email);
            StoredAs(st.store, r.state.store, email, a.(reports := a.reports.(answerReplies := Some(ToggleFlag(Flagset(a.reports.answerReplies), replyId))))))
      && AnswersOnly(st.questions, r.state.questions, qid)
      && (forall i :: 0 <= i < |st.questions| && st.questions[i].id == qid ==>
            && AnswerRepliesOnly(st.questions[i].answers, r.state.questions[i].answers, answerId)
            && forall j :: 0 <= j < |st.questions[i].answers| && st.questions[i].answers[j].id == answerId ==>
                 ReplyTouched(st.questions[i].answers[j].replies, r.state.questions[i].answers[j].replies, replyId, ReportCount, !was))
      && r.effects == [RecordAction("answerReplyReport", [("qid", PStr(qid)), ("answerId", PStr(answerId)),
                                                          ("replyId", PStr(replyId)), ("removed", PBool(was))]),
                       Persist(Engagement(Report, "answerReply", replyId, Some(answerId), !was))]
  {
    if env.user.None? then Outcome(st, [])
    else
      var email := env.user.value.email;
      var updater := (u: UserActions) =>
        u.(reports := u.reports.(answerReplies := Some(ToggleFlag(Flagset(u.reports.answerReplies), replyId))));
      var upd := UpdateUserActions(st.store, email, updater);
      UpdateStored(st.store, email, updater);
      var removed := !Marked(Flagset(upd.next.reports.answerReplies), replyId);
      var qs := InAnswer(st.questions, qid, answerId,
                         (a: Answer) => a.(replies := TouchInReplies(a.replies, replyId, ReportCount, !removed)));
      Outcome(State(qs, upd.store, st.stamps),
              [RecordAction("answerReplyReport", [("qid", PStr(qid)), ("answerId", PStr(answerId)),
                                                  ("replyId", PStr(replyId)), ("removed", PBool(removed))]),
               Persist(Engagement(Report, "answerReply", replyId, Some(answerId), !removed))])
  }

  // ---------------------------------------------------------------------------
  // Round trips and keys
  // ---------------------------------------------------------------------------

  /** Every reply the update would move, at either level, can move by `up` and back. */
  ghost predicate RepliesCanMove(rs: seq<AnswerReply>, replyId: string, c: Counter, up: bool) {
    && (forall k :: 0 <= k < |rs| && rs[k].id == replyId ==> ReplyCount(rs[k], c) >= (if up then 0 else 1))
    && (forall k, m :: (0 <= k < |rs| && rs[k].id != replyId && 0 <= m < |rs[k].replies|
                        && rs[k].replies[m].id == replyId) ==> ReplyCount(rs[k].replies[m], c) >= (if up then 0 else 1))
  }

  lemma ReplyTouchedTwice(r0: seq<AnswerReply>, r1: seq<AnswerReply>, r2: seq<AnswerReply>, replyId: string, c: Counter, up: bool)
    requires ReplyTouched(r0, r1, replyId, c, up) && ReplyTouched(r1, r2, replyId, c, !up)
    requires RepliesCanMove(r0, replyId, c, up)
    ensures r2 == r0
  {
    forall k | 0 <= k < |r0|
      ensures r2[k] == r0[k]
    {
      if r0[k].id == replyId {
        TouchReplyTwice(r0[k], c, up);
      } else {
        forall m | 0 <= m < |r0[k].replies|
          ensures r2[k].replies[m] == r0[k].replies[m]
        {
          if r0[k].replies[m].id == replyId {
            TouchReplyTwice(r0[k].replies[m], c, up);
          }
        }
      }
    }
  }

  lemma AnswerTouchedTwice(a0: seq<Answer>, a1: seq<Answer>, a2: seq<Answer>, answerId: string, c: Counter, up: bool)
    requires AnswerTouched(a0, a1, answerId, c, up) && AnswerTouched(a1, a2, answerId, c, !up)
    requires forall j :: 0 <= j < |a0| && a0[j].id == answerId ==> AnswerCount(a0[j], c) >= (if up then 0 else 1)
    ensures a2 == a0
  {
    forall j | 0 <= j < |a0|
      ensures a2[j] == a0[j]
    {
      if a0[j].id == answerId {
        TouchAnswerTwice(a0[j], c, up);
      }
    }
  }

  lemma AnswersOnlyTwice(q0: seq<Question>, q1: seq<Question>, q2: seq<Question>, qid: string)
    requires AnswersOnly(q0, q1, qid) && AnswersOnly(q1, q2, qid)
    requires forall i :: 0 <= i < |q0| && q0[i].id == qid ==> q2[i].answers == q0[i].answers
    ensures q2 == q0
  {
    assert forall i :: 0 <= i < |q0| ==> q2[i] == q0[i];
  }

  lemma AnswerRepliesOnlyTwice(a0: seq<Answer>, a1: seq<Answer>, a2: seq<Answer>, answerId: string)
    requires AnswerRepliesOnly(a0, a1, answerId) && AnswerRepliesOnly(a1, a2, answerId)
    requires forall j :: 0 <= j < |a0| && a0[j].id == answerId ==> a2[j].replies == a0[j].replies
    ensures a2 == a0
  {
    assert forall j :: 0 <= j < |a0| ==> a2[j] == a0[j];
  }

  /**
   * Starring an answer twice gives back the same questions and the same mark
   * (tests/hooks.test.tsx: 0, then 1, then 0), provided every matching
   * answer's count is at least 1 when it was already starred.
   */
  lemma ToggleAnswerStarTwice(st: State, env: Env, qid: string, answerId: string)
    requires env.user.Some?
    requires var was := Marked(GetUserActions(st.store, env.user.value.email).answerStars, answerId);
      forall i, j :: 0 <= i < |st.questions| && st.questions[i].id == qid && 0 <= j < |st.questions[i].answers|
                     && st.questions[i].answers[j].id == answerId ==>
        st.questions[i].answers[j].stars >= (if was then 1 else 0)
    ensures var r2 := ToggleAnswerStar(ToggleAnswerStar(st, env, qid, answerId).state, env, qid, answerId);
      && r2.state.questions == st.questions
      && (forall k :: Marked(GetUserActions(r2.state.store, env.user.value.email).answerStars, k)
                   == Marked(GetUserActions(st.store, env.user.value.email).answerStars, k))
  {
    var email := env.user.value.email;
    var r1 := ToggleAnswerStar(st, env, qid, answerId);
    var r2 := ToggleAnswerStar(r1.state, env, qid, answerId);
    var was := Marked(GetUserActions(st.store, email).answerStars, answerId);
    forall i | 0 <= i < |st.questions| && st.questions[i].id == qid
      ensures r2.state.questions[i].answers == st.questions[i].answers
    {
      AnswerTouchedTwice(st.questions[i].answers, r1.state.questions[i].answers, r2.state.questions[i].answers,
                         answerId, StarCount, !was);
    }
    AnswersOnlyTwice(st.questions, r1.state.questions, r2.state.questions, qid);
  }

  /** All answer replies the reply-level callbacks would move, under answers `answerId` of questions `qid`. */
  ghost predicate TreeCanMove(qs: seq<Question>, qid: string, answerId: string, replyId: string, c: Counter, up: bool) {
    forall i, j :: 0 <= i < |qs| && qs[i].id == qid && 0 <= j < |qs[i].answers| && qs[i].answers[j].id == answerId ==>
      RepliesCanMove(qs[i].answers[j].replies, replyId, c, up)
  }

  /** Two reply-level updates, the second undoing the first, restore the questions. */
  lemma ReplyUpdatesCancel(q0: seq<Question>, q1: seq<Question>, q2: seq<Question>, qid: string, answerId: string,
                           replyId: string, c: Counter, up: bool)
    requires AnswersOnly(q0, q1, qid) && AnswersOnly(q1, q2, qid)
    requires forall i :: 0 <= i < |q0| && q0[i].id == qid ==>
      && AnswerRepliesOnly(q0[i].answers, q1[i].answers, answerId)
      && forall j :: 0 <= j < |q0[i].answers| && q0[i].answers[j].id == answerId ==>
           ReplyTouched(q0[i].answers[j].replies, q1[i].answers[j].replies, replyId, c, up)
    requires forall i :: 0 <= i < |q1| && q1[i].id == qid ==>
      && AnswerRepliesOnly(q1[i].answers, q2[i].answers, answerId)
      && forall j :: 0 <= j < |q1[i].answers| && q1[i].answers[j].id == answerId ==>
           ReplyTouched(q1[i].answers[j].replies, q2[i].answers[j].replies, replyId, c, !up)
    requires TreeCanMove(q0, qid, answerId, replyId, c, up)
    ensures q2 == q0
  {
    forall i | 0 <= i < |q0| && q0[i].id == qid
      ensures q2[i].answers == q0[i].answers
    {
      var a0, a1, a2 := q0[i].answers, q1[i].answers, q2[i].answers;
      forall j | 0 <= j < |a0| && a0[j].id == answerId
        ensures a2[j].replies == a0[j].replies
      {
        ReplyTouchedTwice(a0[j].replies, a1[j].replies, a2[j].replies, replyId, c, up);
      }
      AnswerRepliesOnlyTwice(a0, a1, a2, answerId);
    }
    AnswersOnlyTwice(q0, q1, q2, qid);
  }

  /**
   * Marking an answer reply useful twice gives back the same questions
   * (tests/hooks.test.tsx: 0, then 1, then 0): the count returns and
   * `usefulByUser` is negated back.
   */
  lemma ToggleAnswerReplyUsefulTwice(st: State, env: Env, qid: string, answerId: string, replyId: string)
    requires env.user.Some?
    requires TreeCanMove(st.questions, qid, answerId, replyId, UsefulMark,
                         !Marked(GetUserActions(st.store, env.user.value.email).answerReplyUseful, replyId))
    ensures var r2 := ToggleAnswerReplyUseful(ToggleAnswerReplyUseful(st, env, qid, answerId, replyId).state,
                                              env, qid, answerId, replyId);
      r2.state.questions == st.questions
  {
    var r1 := ToggleAnswerReplyUseful(st, env, qid, answerId, replyId);
    var r2 := ToggleAnswerReplyUseful(r1.state, env, qid, answerId, replyId);
    ReplyUpdatesCancel(st.questions, r1.state.questions, r2.state.questions, qid, answerId, replyId, UsefulMark,
                       !Marked(GetUserActions(st.store, env.user.value.email).answerReplyUseful, replyId));
  }

  /** Reporting an answer reply twice gives back the same questions (tests/hooks.test.tsx: 1, then 0). */
  lemma ReportAnswerReplyTwice(st: State, env: Env, qid: string, answerId: string, replyId: string)
    requires env.user.Some?
    requires TreeCanMove(st.questions, qid, answerId, replyId, ReportCount,
                         !Marked(Flagset(GetUserActions(st.store, env.user.value.email).reports.answerReplies), replyId))
    ensures var r2 := ReportAnswerReply(ReportAnswerReply(st, env, qid, answerId, replyId).state,
                                        env, qid, answerId, replyId);
      r2.state.questions == st.questions
  {
    var r1 := ReportAnswerReply(st, env, qid, answerId, replyId);
    var r2 := ReportAnswerReply(r1.state, env, qid, answerId, replyId);
    ReplyUpdatesCancel(st.questions, r1.state.questions, r2.state.questions, qid, answerId, replyId, ReportCount,
                       !Marked(Flagset(GetUserActions(st.store, env.user.value.email).reports.answerReplies), replyId));
  }

  /** Reporting an answer and reporting a question never share a throttle key. */
  lemma ReportKeysSeparate(qid: string, qid2: string, answerId: string)
    requires answerId != ""
    ensures ReportKey(qid, Some(answerId)) != ReportKey(qid2, None)
  {
    assert ReportKey(qid, Some(answerId))[0] == 'a';
    assert ReportKey(qid2, None)[0] == 'q';
  }
}
