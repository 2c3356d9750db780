/**
 * Browser-storage persistence (lib/storage.ts) over an abstract key-value
 * store. JSON encoding is not modelled: an entry is either a value of the
 * shape its writer stores, or `Unreadable` (the key holds the empty string,
 * text that does not parse, or a value of another shape).
 */
module Storage {
  import opened Wrappers

  /** A `Record<string, boolean>`: a key is marked when present and `true`. */
  type Flags = map<string, bool>

  predicate Marked(m: Flags, k: string) {
    k in m && m[k]
  }

  /**
   * The membership flip every toggle's updater performs: delete the key when
   * it is marked, otherwise set it to `true`.
   */
  function ToggleFlag(m: Flags, k: string): (r: Flags)
    ensures Marked(r, k) == !Marked(m, k)
    ensures forall j :: j != k ==> (j in r <==> j in m)
    ensures forall j :: j != k && j in r ==> r[j] == m[j]
  {
    if Marked(m, k) then m - {k} else m[k := true]
  }

  /** Flipping twice restores the membership of every key. */
  lemma ToggleTwice(m: Flags, k: string)
    ensures forall j :: Marked(ToggleFlag(ToggleFlag(m, k), k), j) == Marked(m, j)
  {
  }

  /** `{...x}` of a possibly absent record. */
  function Flagset(o: Option<Flags>): Flags {
    o.GetOr(map[])
  }

  /** The `reports` record; a stored copy may lack any of its members. */
  datatype Reports = Reports(
    posts: Option<Flags>,
    comments: Option<Flags>,
    questions: Option<Flags>,
    answers: Option<Flags>,
    replies: Option<Flags>,
    answerReplies: Option<Flags>)

  /** The per-user record of engagement marks (`UserActions`), as readers see it after the overlay. */
  datatype UserActions = UserActions(
    postReactions: map<string, string>,
    commentReactions: map<string, string>,
    questionUseful: Flags,
    answerUseful: Flags,
    postStars: Flags,
    commentStars: Flags,
    replyStars: Flags,
    questionStars: Flags,
    answerStars: Flags,
    answerReplyStars: Flags,
    answerReplyUseful: Flags,
    savedPosts: Flags,
    savedQuestions: Flags,
    follows: Flags,
    reports: Reports)

  /** A stored record: any top-level member may be missing. */
  datatype StoredActions = StoredActions(
    postReactions: Option<map<string, string>>,
    commentReactions: Option<map<string, string>>,
    questionUseful: Option<Flags>,
    answerUseful: Option<Flags>,
    postStars: Option<Flags>,
    commentStars: Option<Flags>,
    replyStars: Option<Flags>,
    questionStars: Option<Flags>,
    answerStars: Option<Flags>,
    answerReplyStars: Option<Flags>,
    answerReplyUseful: Option<Flags>,
    savedPosts: Option<Flags>,
    savedQuestions: Option<Flags>,
    follows: Option<Flags>,
    reports: Option<Reports>)

  datatype SessionRec = SessionRec(email: string, token: Option<string>)

  datatype StoredUser = StoredUser(
    id: string,
    email: string,
    password: string,
    name: string,
    userType: string,
    category: Option<string>,
    website: Option<string>,
    bio: Option<string>,
    avatar: Option<string>)

  datatype Entry =
    | Unreadable
    | UsersValue(users: seq<StoredUser>)
    | SessionValue(session: Option<SessionRec>)
    | ActionsValue(actions: StoredActions)

  type Store = map<string, Entry>

  const UsersKey: string := "bt_users"
  const SessionKey: string := "bt_session"
  const ActionsPrefix: string := "bt_actions_"

  function ActionsKey(email: string): string {
    ActionsPrefix + email
  }

  /** Action keys are distinct per email and never collide with the users or session keys. */
  lemma ActionsKeysDistinct(e1: string, e2: string)
    ensures ActionsKey(e1) == ActionsKey(e2) <==> e1 == e2
    ensures ActionsKey(e1) != UsersKey && ActionsKey(e1) != SessionKey
  {
    assert ActionsKey(e1)[3] == 'a';
    if ActionsKey(e1) == ActionsKey(e2) {
      assert e1 == ActionsKey(e1)[|ActionsPrefix|..];
    }
  }

  function LoadUsers(st: Store): (r: seq<StoredUser>)
    ensures UsersKey !in st ==> r == []
    ensures UsersKey in st && st[UsersKey].UsersValue? ==> r == st[UsersKey].users
    ensures UsersKey in st && !st[UsersKey].UsersValue? ==> r == []
  {
    if UsersKey in st && st[UsersKey].UsersValue? then st[UsersKey].users else []
  }

  function SaveUsers(st: Store, users: seq<StoredUser>): (r: Store)
    ensures LoadUsers(r) == users
    ensures forall k :: k != UsersKey ==> (k in r <==> k in st)
    ensures forall k :: k != UsersKey && k in st ==> r[k] == st[k]
  {
    st[UsersKey := UsersValue(users)]
  }

  function LoadSession(st: Store): (r: Option<SessionRec>)
    ensures SessionKey !in st ==> r == None
    ensures SessionKey in st && !st[SessionKey].SessionValue? ==> r == None
  {
    if SessionKey in st && st[SessionKey].SessionValue? then st[SessionKey].session else None
  }

  /** `saveSession`; the change event it dispatches is not modelled. */
  function SaveSession(st: Store, s: Option<SessionRec>): (r: Store)
    ensures LoadSession(r) == s
    ensures forall k :: k != SessionKey ==> (k in r <==> k in st)
    ensures forall k :: k != SessionKey && k in st ==> r[k] == st[k]
  {
    st[SessionKey := SessionValue(s)]
  }

  function ClearSession(st: Store): (r: Store)
    ensures LoadSession(r) == None
    ensures SessionKey !in r
    ensures forall k :: k != SessionKey ==> (k in r <==> k in st)
    ensures forall k :: k != SessionKey && k in st ==> r[k] == st[k]
  {
    st - {SessionKey}
  }

  /** Saving then clearing the session reads back as signed out, whatever was saved. */
  lemma SaveThenClear(st: Store, s: Option<SessionRec>)
    ensures LoadSession(ClearSession(SaveSession(st, s))) == None
  {
  }

  function DefaultReports(): Reports {
    Reports(Some(map[]), Some(map[]), Some(map[]), Some(map[]), Some(map[]), None)
  }

  /** A flag map in which no key is set. */
  predicate NoneMarked(m: Flags) {
    forall k :: k in m ==> !m[k]
  }

  function DefaultUserActions(): (r: UserActions)
    ensures forall k :: k !in r.postReactions && k !in r.commentReactions
    ensures NoneMarked(r.questionUseful) && NoneMarked(r.answerUseful)
    ensures NoneMarked(r.postStars) && NoneMarked(r.commentStars) && NoneMarked(r.replyStars)
    ensures NoneMarked(r.questionStars) && NoneMarked(r.answerStars)
    ensures NoneMarked(r.answerReplyStars) && NoneMarked(r.answerReplyUseful)
    ensures NoneMarked(r.savedPosts) && NoneMarked(r.savedQuestions) && NoneMarked(r.follows)
    ensures r.reports.posts.Some? && NoneMarked(r.reports.posts.value)
    ensures r.reports.comments.Some? && NoneMarked(r.reports.comments.value)
    ensures r.reports.questions.Some? && NoneMarked(r.reports.questions.value)
    ensures r.reports.answers.Some? && NoneMarked(r.reports.answers.value)
    ensures r.reports.replies.Some? && NoneMarked(r.reports.replies.value)
    ensures r.reports.answerReplies == None
  {
    UserActions(map[], map[], map[], map[], map[], map[], map[], map[], map[], map[], map[],
                map[], map[], map[], DefaultReports())
  }

  /** `{ ...base, ...stored }`: members present in the stored record win, at the top level only. */
  function Overlay(base: UserActions, s: StoredActions): UserActions {
    UserActions(
      s.postReactions.GetOr(base.postReactions),
      s.commentReactions.GetOr(base.commentReactions),
      s.questionUseful.GetOr(base.questionUseful),
      s.answerUseful.GetOr(base.answerUseful),
      s.postStars.GetOr(base.postStars),
      s.commentStars.GetOr(base.commentStars),
      s.replyStars.GetOr(base.replyStars),
      s.questionStars.GetOr(base.questionStars),
      s.answerStars.GetOr(base.answerStars),
      s.answerReplyStars.GetOr(base.answerReplyStars),
      s.answerReplyUseful.GetOr(base.answerReplyUseful),
      s.savedPosts.GetOr(base.savedPosts),
      s.savedQuestions.GetOr(base.savedQuestions),
      s.follows.GetOr(base.follows),
      s.reports.GetOr(base.reports))
  }

  /** What `JSON.stringify` of a full record stores: every member present. */
  function Serialize(a: UserActions): StoredActions {
    StoredActions(
      Some(a.postReactions), Some(a.commentReactions), Some(a.questionUseful),
      Some(a.answerUseful), Some(a.postStars), Some(a.commentStars), Some(a.replyStars),
      Some(a.questionStars), Some(a.answerStars), Some(a.answerReplyStars),
      Some(a.answerReplyUseful), Some(a.savedPosts), Some(a.savedQuestions),
      Some(a.follows), Some(a.reports))
  }

  function GetUserActions(st: Store, email: string): (r: UserActions)
    ensures ActionsKey(email) !in st ==> r == DefaultUserActions()
    ensures ActionsKey(email) in st && !st[ActionsKey(email)].ActionsValue? ==> r == DefaultUserActions()
    ensures ActionsKey(email) in st && st[ActionsKey(email)].ActionsValue? ==>
      var s := st[ActionsKey(email)].actions;
      var d := DefaultUserActions();
      && (s.postReactions.Some? ==> r.postReactions == s.postReactions.value) && (s.postReactions.None? ==> r.postReactions == d.postReactions)
      && (s.commentReactions.Some? ==> r.commentReactions == s.commentReactions.value) && (s.commentReactions.None? ==> r.commentReactions == d.commentReactions)
      && (s.questionUseful.Some? ==> r.questionUseful == s.questionUseful.value) && (s.questionUseful.None? ==> r.questionUseful == d.questionUseful)
      && (s.answerUseful.Some? ==> r.answerUseful == s.answerUseful.value) && (s.answerUseful.None? ==> r.answerUseful == d.answerUseful)
      && (s.postStars.Some? ==> r.postStars == s.postStars.value) && (s.postStars.None? ==> r.postStars == d.postStars)
      && (s.commentStars.Some? ==> r.commentStars == s.commentStars.value) && (s.commentStars.None? ==> r.commentStars == d.commentStars)
      && (s.replyStars.Some? ==> r.replyStars == s.replyStars.value) && (s.replyStars.None? ==> r.replyStars == d.replyStars)
      && (s.questionStars.Some? ==> r.questionStars == s.questionStars.value) && (s.questionStars.None? ==> r.questionStars == d.questionStars)
      && (s.answerStars.Some? ==> r.answerStars == s.answerStars.value) && (s.answerStars.None? ==> r.answerStars == d.answerStars)
      && (s.answerReplyStars.Some? ==> r.answerReplyStars == s.answerReplyStars.value) && (s.answerReplyStars.None? ==> r.answerReplyStars == d.answerReplyStars)
      && (s.answerReplyUseful.Some? ==> r.answerReplyUseful == s.answerReplyUseful.value) && (s.answerReplyUseful.None? ==> r.answerReplyUseful == d.answerReplyUseful)
      && (s.savedPosts.Some? ==> r.savedPosts == s.savedPosts.value) && (s.savedPosts.None? ==> r.savedPosts == d.savedPosts)
      && (s.savedQuestions.Some? ==> r.savedQuestions == s.savedQuestions.value) && (s.savedQuestions.None? ==> r.savedQuestions == d.savedQuestions)
      && (s.follows.Some? ==> r.follows == s.follows.value) && (s.follows.None? ==> r.follows == d.follows)
      && (s.reports.Some? ==> r.reports == s.reports.value) && (s.reports.None? ==> r.reports == d.reports)
  {
    var key := ActionsKey(email);
    if key in st && st[key].ActionsValue? then Overlay(DefaultUserActions(), st[key].actions)
    else DefaultUserActions()
  }

  datatype Updated = Updated(store: Store, next: UserActions)

  /**
   * `updateUserActions`: apply the updater to the current record, store the
   * result in full under the email's key and return it. The change event it
   * dispatches is not modelled.
   */
  function UpdateUserActions(st: Store, email: string, updater: UserActions -> UserActions): (r: Updated)
    ensures r.next == updater(GetUserActions(st, email))
    ensures ActionsKey(email) in r.store && r.store[ActionsKey(email)] == ActionsValue(Serialize(r.next))
    ensures forall k :: k != ActionsKey(email) ==> (k in r.store <==> k in st)
    ensures forall k :: k != ActionsKey(email) && k in st ==> r.store[k] == st[k]
  {
    var next := updater(GetUserActions(st, email));
    Updated(st[ActionsKey(email) := ActionsValue(Serialize(next))], next)
  }

  /** A later read of the same email returns exactly what the update stored. */
  lemma UpdateThenGet(st: Store, email: string, updater: UserActions -> UserActions)
    ensures GetUserActions(UpdateUserActions(st, email, updater).store, email)
            == UpdateUserActions(st, email, updater).next
  {
  }

  /** Updating one email's actions leaves other emails, the users list and the session as they were. */
  lemma UpdateIsolated(st: Store, email: string, other: string, updater: UserActions -> UserActions)
    requires other != email
    ensures var st' := UpdateUserActions(st, email, updater).store;
      && GetUserActions(st', other) == GetUserActions(st, other)
      && LoadUsers(st') == LoadUsers(st)
      && LoadSession(st') == LoadSession(st)
  {
    ActionsKeysDistinct(email, other);
    ActionsKeysDistinct(email, email);
  }

  /**
   * `st'` is `st` after storing `next` as the actions of `email`: that email reads back
   * `next`, and every other email's actions, the users list and the session read as before.
   */
  ghost predicate StoredAs(st: Store, st': Store, email: string, next: UserActions) {
    && GetUserActions(st', email) == next
    && (forall e :: e != email ==> GetUserActions(st', e) == GetUserActions(st, e))
    && LoadUsers(st') == LoadUsers(st)
    && LoadSession(st') == LoadSession(st)
  }

  /** `updateUserActions` stores exactly the updated record and nothing else. */
  lemma {:induction false} UpdateStored(st: Store, email: string, updater: UserActions -> UserActions)
    ensures StoredAs(st, UpdateUserActions(st, email, updater).store, email, updater(GetUserActions(st, email)))
  {
    var st' := UpdateUserActions(st, email, updater).store;
    UpdateThenGet(st, email, updater);
    forall e | e != email
      ensures GetUserActions(st', e) == GetUserActions(st, e)
    {
      UpdateIsolated(st, email, e, updater);
    }
    ActionsKeysDistinct(email, email);
  }
}
