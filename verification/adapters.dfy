/**
 * The persistence adapters (lib/adapters.ts): how the local adapter builds a
 * new post or question, how the remote adapter picks the id it returns, which
 * adapter is chosen, and how engagement events and action-log entries enter
 * their queues. HTTP calls are abstract: each is represented by what the
 * server answered (`Some(id)`) or by `None` when the call failed.
 */
module Adapters {
  import opened Wrappers
  import opened Types
  import opened BatchQueue

  datatype EngagementKind = Star | Report | Useful

  /** The argument of `persistEngagement`. */
  datatype Engagement = Engagement(
    kind: EngagementKind,
    entityType: string,
    entityId: string,
    parentId: Option<string>,
    added: bool)

  /** A value in a `recordUserAction` payload; `PUndefined` is a property holding `undefined`. */
  datatype PayloadValue = PStr(s: string) | PBool(b: bool) | PUndefined

  type Payload = seq<(string, PayloadValue)>

  datatype ActionLogItem = ActionLogItem(actionType: string, payload: Payload, ts: int)

  datatype AdapterKind = LocalAdapter | RemoteAdapter

  /** `chooseAdapter()`. */
  function ChooseAdapter(apiSet: bool): (r: AdapterKind)
    ensures r == RemoteAdapter <==> apiSet
  {
    if apiSet then RemoteAdapter else LocalAdapter
  }

  /** The fields `createPost` receives: the form's values, the profile, the signed-in user. */
  datatype PostInput = PostInput(
    title: string,
    body: string,
    media: Option<seq<string>>,
    mediaUrl: Option<string>,
    price: Option<string>,
    profile: Profile,
    sessionUser: Option<SessionUser>)

  /** `localAdapter.createPost`: the new post as built on the client. */
  function LocalCreatePost(input: PostInput, now: int, freshId: string): (p: Post)
    ensures p.id == freshId && p.title == input.title && p.body == input.body
    ensures p.media == input.media && p.mediaUrl == input.mediaUrl && p.price == input.price
    ensures p.author == (if input.profile.name != "" then input.profile.name else "User")
    ensures p.authorEmail == EmailOf(input.sessionUser)
    ensures p.authorType == input.profile.profileType && p.createdAt == now
    ensures p.stars == 0 && p.reports == 0 && p.comments == [] && !p.flagged
  {
    Post(freshId, input.title, input.body, input.mediaUrl, input.media, input.price, None,
         Or(input.profile.name, "User"), EmailOf(input.sessionUser), Or(input.profile.avatar, ""),
         input.profile.profileType, now, 0, 0, [], false, [])
  }

  /**
   * `remoteAdapter.createPost`: without an API, the local post; otherwise the
   * locally built post, carrying the server's id when the server answered.
   */
  function RemoteCreatePost(apiSet: bool, input: PostInput, now: int, freshId: string, saved: Option<string>): (p: Post)
    ensures p.(id := freshId) == LocalCreatePost(input, now, freshId)
    ensures apiSet && saved.Some? ==> p.id == saved.value
    ensures !apiSet || saved.None? ==> p.id == freshId
  {
    var temp := LocalCreatePost(input, now, freshId);
    if apiSet && saved.Some? then temp.(id := saved.value) else temp
  }

  /** `localAdapter.createQuestion`. */
  function LocalCreateQuestion(title: string, details: Option<string>, user: Option<SessionUser>,
                               now: int, freshId: string): (q: Question)
    ensures q.id == freshId && q.title == title && q.details == details && q.createdAt == now
    ensures user.None? ==> q.author == "User" && q.authorEmail == "" && q.authorAvatar == ""
    ensures user.Some? && user.value.name != "" ==> q.author == user.value.name
    ensures q.useful == 0 && !q.usefulByUser && q.reports == 0 && q.stars == 0 && q.answers == []
  {
    var name := if user.Some? then user.value.name else "";
    var avatar := if user.Some? then user.value.avatar else None;
    Question(freshId, title, details, Or(name, "User"), EmailOf(user), OrElse(avatar, ""),
             now, 0, false, 0, 0, [], false, [])
  }

  /** `remoteAdapter.createQuestion`, with the same id rule as posts. */
  function RemoteCreateQuestion(apiSet: bool, title: string, details: Option<string>, user: Option<SessionUser>,
                                now: int, freshId: string, saved: Option<string>): (q: Question)
    ensures q.(id := freshId) == LocalCreateQuestion(title, details, user, now, freshId)
    ensures apiSet && saved.Some? ==> q.id == saved.value
    ensures !apiSet || saved.None? ==> q.id == freshId
  {
    var temp := LocalCreateQuestion(title, details, user, now, freshId);
    if apiSet && saved.Some? then temp.(id := saved.value) else temp
  }

  /**
   * The id `createComment`, `createReply` and `createAnswer` return: the
   * server's when an API is configured and it answered, else a fresh one.
   */
  function CreatedId(apiSet: bool, created: Option<string>, freshId: string): (id: string)
    ensures apiSet && created.Some? ==> id == created.value
    ensures !apiSet || created.None? ==> id == freshId
  {
    if apiSet && created.Some? then created.value else freshId
  }

  /** Without an API every create call returns what the local adapter builds. */
  lemma NoApiIsLocal(input: PostInput, now: int, freshId: string, saved: Option<string>)
    ensures RemoteCreatePost(false, input, now, freshId, saved) == LocalCreatePost(input, now, freshId)
  {
  }

  /** `remoteAdapter.persistEngagement(e)`. */
  function PersistEngagement(q: QState<Engagement>, e: Engagement): (r: QState<Engagement>)
    requires q.kind == Engagements
    ensures !q.api ==> r == q
    ensures q.api ==> r.queue == q.queue + [e] && r.events == q.events + [Pending(|q.queue| + 1)]
  {
    Push(q, e)
  }

  /** `remoteAdapter.recordUserAction(type, payload)` at time `now`. */
  function RecordUserAction(q: QState<ActionLogItem>, actionType: string, payload: Payload, now: int): (r: QState<ActionLogItem>)
    requires q.kind == ActionLog
    ensures !q.api ==> r == q
    ensures q.api ==> r.queue == q.queue + [ActionLogItem(actionType, payload, now)] && r.timerPending
  {
    Push(q, ActionLogItem(actionType, payload, now))
  }

  /** The adapter calls a hook makes, in order, besides its state change. */
  datatype Effect =
    | Toast(message: string, level: string)
    | RecordAction(actionType: string, payload: Payload)
    | Persist(e: Engagement)
    | CreateCommentCall(postId: string, text: string)
    | CreateReplyCall(postId: string, commentId: string, text: string)
    | CreateAnswerCall(questionId: string, text: string)

  /** Deliver a hook's effects to the two queues, in order; toasts and create calls leave them alone. */
  function Deliver(effects: seq<Effect>, eq: QState<Engagement>, aq: QState<ActionLogItem>, now: int)
    : (r: (QState<Engagement>, QState<ActionLogItem>))
    requires eq.kind == Engagements && aq.kind == ActionLog
    ensures r.0.kind == Engagements && r.1.kind == ActionLog
    ensures r.0.api == eq.api && r.1.api == aq.api
    ensures !eq.api ==> r.0 == eq
    ensures !aq.api ==> r.1 == aq
    ensures eq.api ==> r.0.queue == eq.queue + Persisted(effects)
    ensures aq.api ==> r.1.queue == aq.queue + Recorded(effects, now)
    decreases |effects|
  {
    if effects == [] then (eq, aq)
    else
      var f := effects[0];
      var eq' := if f.Persist? then PersistEngagement(eq, f.e) else eq;
      var aq' := if f.RecordAction? then RecordUserAction(aq, f.actionType, f.payload, now) else aq;
      var r := Deliver(effects[1..], eq', aq', now);
      QueueStep(eq.queue, eq'.queue, r.0.queue, if f.Persist? then [f.e] else [], Persisted(effects[1..]));
      QueueStep(aq.queue, aq'.queue, r.1.queue,
                if f.RecordAction? then [ActionLogItem(f.actionType, f.payload, now)] else [], Recorded(effects[1..], now));
      r
  }

  /** Two appends in a row are one append of both parts. */
  lemma QueueStep<X>(q: seq<X>, q': seq<X>, q'': seq<X>, head: seq<X>, tail: seq<X>)
    ensures q' == q + head && q'' == q' + tail ==> q'' == q + (head + tail)
  {
  }

  /** The engagements the effects persist, in order. */
  function Persisted(effects: seq<Effect>): seq<Engagement>
    decreases |effects|
  {
    if effects == [] then []
    else (if effects[0].Persist? then [effects[0].e] else []) + Persisted(effects[1..])
  }

  /** The action-log items the effects record at time `now`, in order. */
  function Recorded(effects: seq<Effect>, now: int): seq<ActionLogItem>
    decreases |effects|
  {
    if effects == [] then []
    else
      (if effects[0].RecordAction? then [ActionLogItem(effects[0].actionType, effects[0].payload, now)] else [])
      + Recorded(effects[1..], now)
  }
}
