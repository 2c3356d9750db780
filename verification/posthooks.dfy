/**
 * The post-side hook (hooks/usePosts.ts): creating posts, comments and
 * replies, starring, and reporting. Each callback is a function from the
 * hook's state (the post list, the browser store holding the per-user action
 * records, the report throttle's timestamps) and its environment (the
 * signed-in user, the clock, the next generated id, what the server answers)
 * to the new state and the adapter calls and toasts it makes, in order.
 */
module PostHooks {
  import opened Wrappers
  import opened Types
  import opened Storage
  import opened Validation
  import opened Adapters
  import opened Throttle
  import opened HookEnv
  import Optimistic

  datatype State = State(posts: seq<Post>, store: Store, stamps: Timestamps)

  // ---------------------------------------------------------------------------
  // Shapes of the tree updates the callbacks perform
  // ---------------------------------------------------------------------------

  /** Only posts `postId` may change, and only in their comments. */
  ghost predicate CommentsOnly(before: seq<Post>, after: seq<Post>, postId: string) {
    |after| == |before| &&
    forall i :: 0 <= i < |before| ==>
      after[i] == if before[i].id == postId then before[i].(comments := after[i].comments) else before[i]
  }

  /** Only comments `commentId` may change, and only in their replies. */
  ghost predicate RepliesOnly(before: seq<Comment>, after: seq<Comment>, commentId: string) {
    |after| == |before| &&
    forall j :: 0 <= j < |before| ==>
      after[j] == if before[j].id == commentId then before[j].(replies := after[j].replies) else before[j]
  }

  /** Posts `postId` have their stars moved one step, nothing else changes. */
  ghost predicate PostStarred(before: seq<Post>, after: seq<Post>, postId: string, up: bool) {
    |after| == |before| &&
    forall i :: 0 <= i < |before| ==>
      after[i] == if before[i].id == postId then before[i].(stars := Bump(before[i].stars, up)) else before[i]
  }

  ghost predicate PostReported(before: seq<Post>, after: seq<Post>, postId: string, up: bool) {
    |after| == |before| &&
    forall i :: 0 <= i < |before| ==>
      after[i] == if before[i].id == postId then before[i].(reports := Bump(before[i].reports, up)) else before[i]
  }

  ghost predicate CommentStarred(before: seq<Comment>, after: seq<Comment>, commentId: string, up: bool) {
    |after| == |before| &&
    forall j :: 0 <= j < |before| ==>
      after[j] == if before[j].id == commentId then before[j].(stars := Bump(before[j].stars, up)) else before[j]
  }

  ghost predicate CommentReported(before: seq<Comment>, after: seq<Comment>, commentId: string, up: bool) {
    |after| == |before| &&
    forall j :: 0 <= j < |before| ==>
      after[j] == if before[j].id == commentId then before[j].(reports := Bump(before[j].reports, up)) else before[j]
  }

  /** First-level replies `replyId` have their stars moved; second-level replies are not looked at. */
  ghost predicate ReplyStarred(before: seq<Reply>, after: seq<Reply>, replyId: string, up: bool) {
    |after| == |before| &&
    forall k :: 0 <= k < |before| ==>
      after[k] == if before[k].id == replyId then before[k].(stars := Bump(before[k].stars, up)) else before[k]
  }

  /**
   * A matching first-level reply has its report count moved; any other
   * first-level reply has its matching second-level replies' counts moved.
   */
  ghost predicate ReplyReported(before: seq<Reply>, after: seq<Reply>, replyId: string, up: bool) {
    |after| == |before| &&
    forall k :: 0 <= k < |before| ==>
      if before[k].id == replyId then after[k] == before[k].(reports := Bump(before[k].reports, up))
      else
        && after[k] == before[k].(replies := after[k].replies)
        && |after[k].replies| == |before[k].replies|
        && forall m :: 0 <= m < |before[k].replies| ==>
             after[k].replies[m] ==
               if before[k].replies[m].id == replyId
               then before[k].replies[m].(reports := Bump(before[k].replies[m].reports, up))
               else before[k].replies[m]
  }

  // ---------------------------------------------------------------------------
  // Creating content
  // ---------------------------------------------------------------------------

  /** The post `createPost` puts at the front of the feed. */
  function NewPost(env: Env, title: string, body: string, media: Option<seq<string>>, mediaUrl: Option<string>,
                   price: Option<string>, profile: Profile): Post
  {
    var input := PostInput(Sanitize(env, title), Sanitize(env, body), media, mediaUrl, price, profile, env.user);
    ModeratePost(RemoteCreatePost(env.apiSet, input, env.now, env.freshId, env.serverId))
  }

  /** `createPost(p)`: validate, sanitize, build through the adapter, moderate, prepend. */
  function CreatePost(st: State, env: Env, title: string, body: string, media: Option<seq<string>>,
                      mediaUrl: Option<string>, price: Option<string>, profile: Profile): (r: Outcome<State>)
    ensures var v := ValidatePost(title, body);
      !v.ok ==> r == Outcome(st, [Toast(OrElse(FirstError(v), "Invalid post"), "error")])
    ensures ValidatePost(title, body).ok ==>
      && r.effects == []
      && r.state.store == st.store && r.state.stamps == st.stamps
      && |r.state.posts| == |st.posts| + 1 && r.state.posts[1..] == st.posts
      && var p := r.state.posts[0];
         && p.title == Sanitize(env, title) && p.body == Sanitize(env, body)
         && p.createdAt == env.now && p.stars == 0 && p.reports == 0 && p.comments == []
         && p.authorEmail == EmailOf(env.user)
         && (env.apiSet && env.serverId.Some? ==> p.id == env.serverId.value)
         && (!env.apiSet || env.serverId.None? ==> p.id == env.freshId)
         && p.media == media && p.mediaUrl == mediaUrl && p.price == price
         && p.author == (if profile.name != "" then profile.name else "User")
         && p.authorAvatar == profile.avatar && p.authorType == profile.profileType
         && var m := ModerateText(Some(Inspected(Some(p.body), None, Some(p.title))));
            && (p.flagged <==> m.flagged)
            && p.moderationReasons == (if m.flagged then m.reasons else [])
    ensures ValidatePost(title, body).ok ==>
      r.state.posts[0] == NewPost(env, title, body, media, mediaUrl, price, profile)
  {
    var v := ValidatePost(title, body);
    if !v.ok then Outcome(st, [Toast(OrElse(FirstError(v), "Invalid post"), "error")])
    else
      var temp := NewPost(env, title, body, media, mediaUrl, price, profile);
      var posts := Optimistic.Settle(st.posts, (ps: seq<Post>) => [temp] + ps,
                                     (ps: seq<Post>) => Without(ps, (x: Post) => x.id == temp.id),
                                     Optimistic.Returns);
      Outcome(State(posts, st.store, st.stamps), [])
  }

  /** Were the creation's remote step to fail, the rollback would restore the feed, provided the id was new. */
  lemma CreatePostRollbackRestores(posts: seq<Post>, temp: Post)
    requires forall i :: 0 <= i < |posts| ==> posts[i].id != temp.id
    ensures Optimistic.Settle(posts, (ps: seq<Post>) => [temp] + ps,
                              (ps: seq<Post>) => Without(ps, (x: Post) => x.id == temp.id),
                              Optimistic.Throws) == posts
  {
    RollbackAfterPrepend(temp, posts, (x: Post) => x.id == temp.id);
  }

  /** The comment `addComment` appends. */
  function NewComment(env: Env, text: string): Comment {
    var authorType := if env.user.Some? then Some(env.user.value.userType) else None;
    ModerateComment(Comment(env.freshId, AuthorName(env.user), EmailOf(env.user), AuthorAvatar(env.user),
                            authorType, Sanitize(env, text), env.now, map["like" := 0, "love" := 0], None,
                            0, 0, [], false, []))
  }

  /** `addComment(postId, text)`; the remote call receives the text as typed, and its failure is swallowed. */
  function AddComment(st: State, env: Env, postId: string, text: string): (r: Outcome<State>)
    ensures var v := ValidateComment(text);
      !v.ok ==> r == Outcome(st, [Toast(OrElse(FirstError(v), "Invalid comment"), "error")])
    ensures ValidateComment(text).ok ==>
      && r.effects == [CreateCommentCall(postId, text)]
      && r.state.store == st.store && r.state.stamps == st.stamps
      && CommentsOnly(st.posts, r.state.posts, postId)
      && forall i :: 0 <= i < |st.posts| && st.posts[i].id == postId ==>
           r.state.posts[i].comments == st.posts[i].comments + [NewComment(env, text)]
  {
    var v := ValidateComment(text);
    if !v.ok then Outcome(st, [Toast(OrElse(FirstError(v), "Invalid comment"), "error")])
    else
      var c := NewComment(env, text);
      var apply := (ps: seq<Post>) =>
        MapWhere(ps, (p: Post) => p.id == postId, (p: Post) => p.(comments := p.comments + [c]));
      var undo := (ps: seq<Post>) =>
        MapWhere(ps, (p: Post) => p.id == postId,
                 (p: Post) => p.(comments := Without(p.comments, (x: Comment) => x.id == c.id)));
      var posts := Optimistic.Settle(st.posts, apply, undo, Swallowed(env.createCall));
      Outcome(State(posts, st.store, st.stamps), [CreateCommentCall(postId, text)])
  }

  /** The reply `addReply` appends. */
  function NewReply(env: Env, text: string): (r: Reply)
    ensures r.text == Sanitize(env, text) && r.id == env.freshId
    ensures r.stars == 0 && r.reports == 0 && r.replies == []
  {
    Reply(env.freshId, AuthorName(env.user), EmailOf(env.user), AuthorAvatar(env.user),
          Sanitize(env, text), env.now, 0, 0, [])
  }

  /** `addReply(postId, commentId, text)`: no sign-in or validation guard; failures are swallowed. */
  function AddReply(st: State, env: Env, postId: string, commentId: string, text: string): (r: Outcome<State>)
    ensures r.effects == [CreateReplyCall(postId, commentId, text)]
    ensures r.state.store == st.store && r.state.stamps == st.stamps
    ensures CommentsOnly(st.posts, r.state.posts, postId)
    ensures forall i :: 0 <= i < |st.posts| && st.posts[i].id == postId ==>
      && RepliesOnly(st.posts[i].comments, r.state.posts[i].comments, commentId)
      && forall j :: 0 <= j < |st.posts[i].comments| && st.posts[i].comments[j].id == commentId ==>
           r.state.posts[i].comments[j].replies == st.posts[i].comments[j].replies + [NewReply(env, text)]
  {
    var reply := NewReply(env, text);
    var apply := (ps: seq<Post>) =>
      MapWhere(ps, (p: Post) => p.id == postId,
               (p: Post) => p.(comments := MapWhere(p.comments, (c: Comment) => c.id == commentId,
                                                    (c: Comment) => c.(replies := c.replies + [reply]))));
    var undo := (ps: seq<Post>) =>
      MapWhere(ps, (p: Post) => p.id == postId,
               (p: Post) => p.(comments := MapWhere(p.comments, (c: Comment) => c.id == commentId,
                                                    (c: Comment) => c.(replies := Without(c.replies, (x: Reply) => x.id == reply.id)))));
    var posts := Optimistic.Settle(st.posts, apply, undo, Swallowed(env.createCall));
    Outcome(State(posts, st.store, st.stamps), [CreateReplyCall(postId, commentId, text)])
  }

  /** `addReplyToReply(postId, commentId, parentReplyId, text)`: signed-in only, no remote call. */
  function AddReplyToReply(st: State, env: Env, postId: string, commentId: string, parentReplyId: string,
                           text: string): (r: Outcome<State>)
    ensures env.user.None? ==> r == Outcome(st, [])
    ensures r.effects == [] && r.state.store == st.store && r.state.stamps == st.stamps
    ensures env.user.Some? ==>
      && CommentsOnly(st.posts, r.state.posts, postId)
      && forall i :: 0 <= i < |st.posts| && st.posts[i].id == postId ==>
        && RepliesOnly(st.posts[i].comments, r.state.posts[i].comments, commentId)
        && forall j :: 0 <= j < |st.posts[i].comments| && st.posts[i].comments[j].id == commentId ==>
          var before := st.posts[i].comments[j].replies;
          var after := r.state.posts[i].comments[j].replies;
          && |after| == |before|
          && forall k :: 0 <= k < |before| ==>
               after[k] == if before[k].id == parentReplyId
                           then before[k].(replies := before[k].replies + [NewReply(env, text)])
                           else before[k]
  {
    if env.user.None? then Outcome(st, [])
    else
      var nested := NewReply(env, text);
      var posts := MapWhere(st.posts, (p: Post) => p.id == postId,
        (p: Post) => p.(comments := MapWhere(p.comments, (c: Comment) => c.id == commentId,
          (c: Comment) => c.(replies := MapWhere(c.replies, (x: Reply) => x.id == parentReplyId,
            (x: Reply) => x.(replies := x.replies + [nested]))))));
      Outcome(State(posts, st.store, st.stamps), [])
  }

  // ---------------------------------------------------------------------------
  // Stars
  // ---------------------------------------------------------------------------

  /** `toggleStarPost(postId)`. */
  function ToggleStarPost(st: State, env: Env, postId: string): (r: Outcome<State>)
    ensures env.user.None? ==> r == Outcome(st, [])
    ensures env.user.Some? ==>
      var email := env.user.value.email;
      var was := Marked(GetUserActions(st.store, email).postStars, postId);
      && Marked(GetUserActions(r.state.store, email).postStars, postId) == !was
      && (var a := GetUserActions(st.store, email);
            StoredAs(st.store, r.state.store, email, a.(postStars := ToggleFlag(a.postStars, postId))))
      && (forall k :: k != postId ==> Marked(GetUserActions(r.state.store, email).postStars, k) == Marked(GetUserActions(st.store, email).postStars, k))
      && PostStarred(st.posts, r.state.posts, postId, !was)
      && r.state.stamps == st.stamps
      && r.effects == [RecordAction("postStar", [("postId", PStr(postId)), ("added", PBool(!was))]),
                       Persist(Engagement(Star, "post", postId, None, !was))]
  {
    if env.user.None? then Outcome(st, [])
    else
      var email := env.user.value.email;
      var updater := (a: UserActions) => a.(postStars := ToggleFlag(a.postStars, postId));
      var upd := UpdateUserActions(st.store, email, updater);
      UpdateStored(st.store, email, updater);
      var added := Marked(upd.next.postStars, postId);
      var posts := MapWhere(st.posts, (p: Post) => p.id == postId, (p: Post) => p.(stars := Bump(p.stars, added)));
      Outcome(State(posts, upd.store, st.stamps),
              [RecordAction("postStar", [("postId", PStr(postId)), ("added", PBool(added))]),
               Persist(Engagement(Star, "post", postId, None, added))])
  }

  /** `toggleCommentStar(postId, commentId)`: the mark is kept per comment id. */
  function ToggleCommentStar(st: State, env: Env, postId: string, commentId: string): (r: Outcome<State>)
    ensures env.user.None? ==> r == Outcome(st, [])
    ensures env.user.Some? ==>
      var email := env.user.value.email;
      var was := Marked(GetUserActions(st.store, email).commentStars, commentId);
      && Marked(GetUserActions(r.state.store, email).commentStars, commentId) == !was
      && (var a := GetUserActions(st.store, email);
            StoredAs(st.store, r.state.store, email, a.(commentStars := ToggleFlag(a.commentStars, commentId))))
      && (forall k :: k != commentId ==> Marked(GetUserActions(r.state.store, email).commentStars, k) == Marked(GetUserActions(st.store, email).commentStars, k))
      && CommentsOnly(st.posts, r.state.posts, postId)
      && (forall i :: 0 <= i < |st.posts| && st.posts[i].id == postId ==>
            CommentStarred(st.posts[i].comments, r.state.posts[i].comments, commentId, !was))
      && r.state.stamps == st.stamps
      && r.effects == [RecordAction("commentStar", [("postId", PStr(postId)), ("commentId", PStr(commentId)),
                                                    ("added", PBool(!was))]),
                       Persist(Engagement(Star, "comment", commentId, Some(postId), !was))]
  {
    if env.user.None? then Outcome(st, [])
    else
      var email := env.user.value.email;
      var updater := (a: UserActions) => a.(commentStars := ToggleFlag(a.commentStars, commentId));
      var upd := UpdateUserActions(st.store, email, updater);
      UpdateStored(st.store, email, updater);
      var added := Marked(upd.next.commentStars, commentId);
      var posts := MapWhere(st.posts, (p: Post) => p.id == postId,
        (p: Post) => p.(comments := MapWhere(p.comments, (c: Comment) => c.id == commentId,
                                             (c: Comment) => c.(stars := Bump(c.stars, added)))));
      Outcome(State(posts, upd.store, st.stamps),
              [RecordAction("commentStar", [("postId", PStr(postId)), ("commentId", PStr(commentId)),
                                            ("added", PBool(added))]),
               Persist(Engagement(Star, "comment", commentId, Some(postId), added))])
  }

  /** `toggleReplyStar(postId, commentId, replyId)`: first-level replies only. */
  function ToggleReplyStar(st: State, env: Env, postId: string, commentId: string, replyId: string): (r: Outcome<State>)
    ensures env.user.None? ==> r == Outcome(st, [])
    ensures env.user.Some? ==>
      var email := env.user.value.email;
      var was := Marked(GetUserActions(st.store, email).replyStars, replyId);
      && Marked(GetUserActions(r.state.store, email).replyStars, replyId) == !was
      && (var a := GetUserActions(st.store, email);
            StoredAs(st.store, r.state.store, email, a.(replyStars := ToggleFlag(a.replyStars, replyId))))
      && (forall k :: k != replyId ==> Marked(GetUserActions(r.state.store, email).replyStars, k) == Marked(GetUserActions(st.store, email).replyStars, k))
      && CommentsOnly(st.posts, r.state.posts, postId)
      && (forall i :: 0 <= i < |st.posts| && st.posts[i].id == postId ==>
            && RepliesOnly(st.posts[i].comments, r.state.posts[i].comments, commentId)
            && forall j :: 0 <= j < |st.posts[i].comments| && st.posts[i].comments[j].id == commentId ==>
                 ReplyStarred(st.posts[i].comments[j].replies, r.state.posts[i].comments[j].replies, replyId, !was))
      && r.state.stamps == st.stamps
      && r.effects == [RecordAction("replyStar", [("postId", PStr(postId)), ("commentId", PStr(commentId)),
                                                  ("replyId", PStr(replyId)), ("added", PBool(!was))]),
                       Persist(Engagement(Star, "reply", replyId, Some(commentId), !was))]
  {
    if env.user.None? then Outcome(st, [])
    else
      var email := env.user.value.email;
      var updater := (a: UserActions) => a.(replyStars := ToggleFlag(a.replyStars, replyId));
      var upd := UpdateUserActions(st.store, email, updater);
      UpdateStored(st.store, email, updater);
      var added := Marked(upd.next.replyStars, replyId);
      var posts := MapWhere(st.posts, (p: Post) => p.id == postId,
        (p: Post) => p.(comments := MapWhere(p.comments, (c: Comment) => c.id == commentId,
          (c: Comment) => c.(replies := MapWhere(c.replies, (x: Reply) => x.id == replyId,
                                                 (x: Reply) => x.(stars := Bump(x.stars, added)))))));
      Outcome(State(posts, upd.store, st.stamps),
              [RecordAction("replyStar", [("postId", PStr(postId)), ("commentId", PStr(commentId)),
                                          ("replyId", PStr(replyId)), ("added", PBool(added))]),
               Persist(Engagement(Star, "reply", replyId, Some(commentId), added))])
  }

  // ---------------------------------------------------------------------------
  // Reports
  // ---------------------------------------------------------------------------

  /** `reportPost(postId)`: the throttle is consulted before the sign-in check, so a guest's report still records the time. */
  function ReportPost(st: State, env: Env, postId: string): (r: Outcome<State>)
    ensures var d := CanReport(st.stamps, "post:" + postId, env.now, env.testMode);
      && (!d.allowed ==> r == Outcome(st, [Toast(WaitMessage, "info")]))
      && (d.allowed && env.user.None? ==> r == Outcome(st.(stamps := d.stamps), []))
      && (d.allowed && env.user.Some? ==>
            var email := env.user.value.email;
            var was := Marked(Flagset(GetUserActions(st.store, email).reports.posts), postId);
            && Marked(Flagset(GetUserActions(r.state.store, email).reports.posts), postId) == !was
            && (var a := GetUserActions(st.store, email);
                  StoredAs(st.store, r.state.store, email, a.(reports := a.reports.(posts := Some(ToggleFlag(Flagset(a.reports.posts), postId))))))
            && PostReported(st.posts, r.state.posts, postId, !was)
            && r.state.stamps == d.stamps
            && r.effects == [RecordAction("postReport", [("postId", PStr(postId)), ("removed", PBool(was))]),
                             Persist(Engagement(Report, "post", postId, None, !was))])
  {
    var d := CanReport(st.stamps, "post:" + postId, env.now, env.testMode);
    if !d.allowed then Outcome(st, [Toast(WaitMessage, "info")])
    else if env.user.None? then Outcome(st.(stamps := d.stamps), [])
    else
      var email := env.user.value.email;
      var updater := (a: UserActions) =>
        a.(reports := a.reports.(posts := Some(ToggleFlag(Flagset(a.reports.posts), postId))));
      var upd := UpdateUserActions(st.store, email, updater);
      UpdateStored(st.store, email, updater);
      var removed := !Marked(Flagset(upd.next.reports.posts), postId);
      var posts := MapWhere(st.posts, (p: Post) => p.id == postId,
                            (p: Post) => p.(reports := Bump(p.reports, !removed)));
      Outcome(State(posts, upd.store, d.stamps),
              [RecordAction("postReport", [("postId", PStr(postId)), ("removed", PBool(removed))]),
               Persist(Engagement(Report, "post", postId, None, !removed))])
  }

  /** `reportComment(postId, commentId)`, throttled per comment id. */
  function ReportComment(st: State, env: Env, postId: string, commentId: string): (r: Outcome<State>)
    ensures var d := CanReport(st.stamps, "comment:" + commentId, env.now, env.testMode);
      && (!d.allowed ==> r == Outcome(st, [Toast(WaitMessage, "info")]))
      && (d.allowed && env.user.None? ==> r == Outcome(st.(stamps := d.stamps), []))
      && (d.allowed && env.user.Some? ==>
            var email := env.user.value.email;
            var was := Marked(Flagset(GetUserActions(st.store, email).reports.comments), commentId);
            && Marked(Flagset(GetUserActions(r.state.store, email).reports.comments), commentId) == !was
            && (var a := GetUserActions(st.store, email);
                  StoredAs(st.store, r.state.store, email, a.(reports := a.reports.(comments := Some(ToggleFlag(Flagset(a.reports.comments), commentId))))))
            && CommentsOnly(st.posts, r.state.posts, postId)
            && (forall i :: 0 <= i < |st.posts| && st.posts[i].id == postId ==>
                  CommentReported(st.posts[i].comments, r.state.posts[i].comments, commentId, !was))
            && r.state.stamps == d.stamps
            && r.effects == [RecordAction("commentReport", [("postId", PStr(postId)), ("commentId", PStr(commentId)),
                                                            ("removed", PBool(was))]),
                             Persist(Engagement(Report, "comment", commentId, Some(postId), !was))])
  {
    var d := CanReport(st.stamps, "comment:" + commentId, env.now, env.testMode);
    if !d.allowed then Outcome(st, [Toast(WaitMessage, "info")])
    else if env.user.None? then Outcome(st.(stamps := d.stamps), [])
    else
      var email := env.user.value.email;
      var updater := (a: UserActions) =>
        a.(reports := a.reports.(comments := Some(ToggleFlag(Flagset(a.reports.comments), commentId))));
      var upd := UpdateUserActions(st.store, email, updater);
      UpdateStored(st.store, email, updater);
      var removed := !Marked(Flagset(upd.next.reports.comments), commentId);
      var posts := MapWhere(st.posts, (p: Post) => p.id == postId,
        (p: Post) => p.(comments := MapWhere(p.comments, (c: Comment) => c.id == commentId,
                                             (c: Comment) => c.(reports := Bump(c.reports, !removed)))));
      Outcome(State(posts, upd.store, d.stamps),
              [RecordAction("commentReport", [("postId", PStr(postId)), ("commentId", PStr(commentId)),
                                              ("removed", PBool(removed))]),
               Persist(Engagement(Report, "comment", commentId, Some(postId), !removed))])
  }

  /** The reply-level update of `reportReply`: a first-level match, else matches one level down. */
  function ReportInReplies(replies: seq<Reply>, replyId: string, up: bool): (r: seq<Reply>)
    ensures ReplyReported(replies, r, replyId, up)
  {
    MapWhere(replies, (x: Reply) => true,
      (x: Reply) => if x.id == replyId then x.(reports := Bump(x.reports, up))
                    else x.(replies := MapWhere(x.replies, (n: Reply) => n.id == replyId,
                                                (n: Reply) => n.(reports := Bump(n.reports, up)))))
  }

  /** `reportReply(postId, commentId, replyId)`, throttled per reply id; reaches second-level replies. */
  function ReportReply(st: State, env: Env, postId: string, commentId: string, replyId: string): (r: Outcome<State>)
    ensures var d := CanReport(st.stamps, "reply:" + replyId, env.now, env.testMode);
      && (!d.allowed ==> r == Outcome(st, [Toast(WaitMessage, "info")]))
      && (d.allowed && env.user.None? ==> r == Outcome(st.(stamps := d.stamps), []))
      && (d.allowed && env.user.Some? ==>
            var email := env.user.value.email;
            var was := Marked(Flagset(GetUserActions(st.store, email).reports.replies), replyId);
            && Marked(Flagset(GetUserActions(r.state.store, email).reports.replies), replyId) == !was
            && (var a := GetUserActions(st.store, email);
                  StoredAs(st.store, r.state.store, email, a.(reports := a.reports.(replies := Some(ToggleFlag(Flagset(a.reports.replies), replyId))))))
            && CommentsOnly(st.posts, r.state.posts, postId)
            && (forall i :: 0 <= i < |st.posts| && st.posts[i].id == postId ==>
                  && RepliesOnly(st.posts[i].comments, r.state.posts[i].comments, commentId)
                  && forall j :: 0 <= j < |st.posts[i].comments| && st.posts[i].comments[j].id == commentId ==>
                       ReplyReported(st.posts[i].comments[j].replies, r.state.posts[i].comments[j].replies, replyId, !was))
            && r.state.stamps == d.stamps
            && r.effects == [RecordAction("replyReport", [("postId", PStr(postId)), ("commentId", PStr(commentId)),
                                                          ("replyId", PStr(replyId)), ("removed", PBool(was))]),
                             Persist(Engagement(Report, "reply", replyId, Some(commentId), !was))])
  {
    var d := CanReport(st.stamps, "reply:" + replyId, env.now, env.testMode);
    if !d.allowed then Outcome(st, [Toast(WaitMessage, "info")])
    else if env.user.None? then Outcome(st.(stamps := d.stamps), [])
    else
      var email := env.user.value.email;
      var updater := (a: UserActions) =>
        a.(reports := a.reports.(replies := Some(ToggleFlag(Flagset(a.reports.replies), replyId))));
      var upd := UpdateUserActions(st.store, email, updater);
      UpdateStored(st.store, email, updater);
      var removed := !Marked(Flagset(upd.next.reports.replies), replyId);
      var posts := MapWhere(st.posts, (p: Post) => p.id == postId,
        (p: Post) => p.(comments := MapWhere(p.comments, (c: Comment) => c.id == commentId,
                                             (c: Comment) => c.(replies := ReportInReplies(c.replies, replyId, !removed)))));
      Outcome(State(posts, upd.store, d.stamps),
              [RecordAction("replyReport", [("postId", PStr(postId)), ("commentId", PStr(commentId)),
                                            ("replyId", PStr(replyId)), ("removed", PBool(removed))]),
               Persist(Engagement(Report, "reply", replyId, Some(commentId), !removed))])
  }

  // ---------------------------------------------------------------------------
  // Round trips and the throttle
  // ---------------------------------------------------------------------------

  /** Two updates of the same shape whose second restores every matching post's comments restore the list. */
  lemma CommentsOnlyTwice(p0: seq<Post>, p1: seq<Post>, p2: seq<Post>, postId: string)
    requires CommentsOnly(p0, p1, postId) && CommentsOnly(p1, p2, postId)
    requires forall i :: 0 <= i < |p0| && p0[i].id == postId ==> p2[i].comments == p0[i].comments
    ensures p2 == p0
  {
    assert forall i :: 0 <= i < |p0| ==> p2[i] == p0[i];
  }

  lemma RepliesOnlyTwice(c0: seq<Comment>, c1: seq<Comment>, c2: seq<Comment>, commentId: string)
    requires RepliesOnly(c0, c1, commentId) && RepliesOnly(c1, c2, commentId)
    requires forall j :: 0 <= j < |c0| && c0[j].id == commentId ==> c2[j].replies == c0[j].replies
    ensures c2 == c0
  {
    assert forall j :: 0 <= j < |c0| ==> c2[j] == c0[j];
  }

  /** Starring a comment one way then the other restores it, when the count was consistent with the mark. */
  lemma CommentStarredTwice(c0: seq<Comment>, c1: seq<Comment>, c2: seq<Comment>, commentId: string, up: bool)
    requires CommentStarred(c0, c1, commentId, up) && CommentStarred(c1, c2, commentId, !up)
    requires forall j :: 0 <= j < |c0| && c0[j].id == commentId ==> c0[j].stars >= (if up then 0 else 1)
    ensures c2 == c0
  {
    forall j | 0 <= j < |c0|
      ensures c2[j] == c0[j]
    {
      if c0[j].id == commentId {
        BumpRoundTrip(c0[j].stars, up);
      }
    }
  }

  /**
   * Toggling a comment's star twice gives back the same posts and the same
   * mark (tests/hooks.test.tsx: 0, then 1, then 0), provided every matching
   * comment's count is at least 1 when the comment was already starred.
   */
  lemma ToggleCommentStarTwice(st: State, env: Env, postId: string, commentId: string)
    requires env.user.Some?
    requires var was := Marked(GetUserActions(st.store, env.user.value.email).commentStars, commentId);
      forall i, j :: 0 <= i < |st.posts| && st.posts[i].id == postId && 0 <= j < |st.posts[i].comments|
                     && st.posts[i].comments[j].id == commentId ==>
        st.posts[i].comments[j].stars >= (if was then 1 else 0)
    ensures var r1 := ToggleCommentStar(st, env, postId, commentId);
      var r2 := ToggleCommentStar(r1.state, env, postId, commentId);
      && r2.state.posts == st.posts
      && (forall k :: Marked(GetUserActions(r2.state.store, env.user.value.email).commentStars, k)
                   == Marked(GetUserActions(st.store, env.user.value.email).commentStars, k))
      && r1.effects[1].e.added == !r2.effects[1].e.added
  {
    var email := env.user.value.email;
    var r1 := ToggleCommentStar(st, env, postId, commentId);
    var r2 := ToggleCommentStar(r1.state, env, postId, commentId);
    var was := Marked(GetUserActions(st.store, email).commentStars, commentId);
    forall i | 0 <= i < |st.posts| && st.posts[i].id == postId
      ensures r2.state.posts[i].comments == st.posts[i].comments
    {
      CommentStarredTwice(st.posts[i].comments, r1.state.posts[i].comments, r2.state.posts[i].comments, commentId, !was);
    }
    CommentsOnlyTwice(st.posts, r1.state.posts, r2.state.posts, postId);
  }

  /** Toggling a post's star twice gives back the same posts and the same mark. */
  lemma ToggleStarPostTwice(st: State, env: Env, postId: string)
    requires env.user.Some?
    requires var was := Marked(GetUserActions(st.store, env.user.value.email).postStars, postId);
      forall i :: 0 <= i < |st.posts| && st.posts[i].id == postId ==> st.posts[i].stars >= (if was then 1 else 0)
    ensures var r2 := ToggleStarPost(ToggleStarPost(st, env, postId).state, env, postId);
      && r2.state.posts == st.posts
      && (forall k :: Marked(GetUserActions(r2.state.store, env.user.value.email).postStars, k)
                   == Marked(GetUserActions(st.store, env.user.value.email).postStars, k))
  {
    var email := env.user.value.email;
    var r1 := ToggleStarPost(st, env, postId);
    var r2 := ToggleStarPost(r1.state, env, postId);
    var was := Marked(GetUserActions(st.store, email).postStars, postId);
    forall i | 0 <= i < |st.posts|
      ensures r2.state.posts[i] == st.posts[i]
    {
      if st.posts[i].id == postId {
        BumpRoundTrip(st.posts[i].stars, !was);
      }
    }
  }

  /** `toggleReplyStar` never changes a second-level reply. */
  lemma ReplyStarKeepsNested(st: State, env: Env, postId: string, commentId: string, replyId: string)
    requires env.user.Some?
    ensures var r := ToggleReplyStar(st, env, postId, commentId, replyId);
      forall i, j, k :: 0 <= i < |st.posts| && 0 <= j < |st.posts[i].comments|
                        && 0 <= k < |st.posts[i].comments[j].replies| ==>
        && j < |r.state.posts[i].comments| && k < |r.state.posts[i].comments[j].replies|
        && r.state.posts[i].comments[j].replies[k].replies == st.posts[i].comments[j].replies[k].replies
  {
    var r := ToggleReplyStar(st, env, postId, commentId, replyId);
    forall i, j, k | 0 <= i < |st.posts| && 0 <= j < |st.posts[i].comments|
                     && 0 <= k < |st.posts[i].comments[j].replies|
      ensures j < |r.state.posts[i].comments| && k < |r.state.posts[i].comments[j].replies|
      ensures r.state.posts[i].comments[j].replies[k].replies == st.posts[i].comments[j].replies[k].replies
    {
      if st.posts[i].id == postId && st.posts[i].comments[j].id == commentId {
        assert ReplyStarred(st.posts[i].comments[j].replies, r.state.posts[i].comments[j].replies, replyId, !Marked(GetUserActions(st.store, env.user.value.email).replyStars, replyId));
      }
    }
  }

  /** Reporting a reply one way then the other restores both levels, when every count was consistent with the mark. */
  lemma ReplyReportedTwice(r0: seq<Reply>, r1: seq<Reply>, r2: seq<Reply>, replyId: string, up: bool)
    requires ReplyReported(r0, r1, replyId, up) && ReplyReported(r1, r2, replyId, !up)
    requires forall k :: 0 <= k < |r0| && r0[k].id == replyId ==> r0[k].reports >= (if up then 0 else 1)
    requires forall k, m :: (0 <= k < |r0| && r0[k].id != replyId && 0 <= m < |r0[k].replies|
                             && r0[k].replies[m].id == replyId) ==> r0[k].replies[m].reports >= (if up then 0 else 1)
    ensures r2 == r0
  {
    forall k | 0 <= k < |r0|
      ensures r2[k] == r0[k]
    {
      if r0[k].id == replyId {
        BumpRoundTrip(r0[k].reports, up);
      } else {
        forall m | 0 <= m < |r0[k].replies|
          ensures r2[k].replies[m] == r0[k].replies[m]
        {
          if r0[k].replies[m].id == replyId {
            BumpRoundTrip(r0[k].replies[m].reports, up);
          }
        }
      }
    }
  }

  /**
   * Under the test environment, reporting a reply twice gives back the same
   * posts (tests/hooks.test.tsx: 1, then 0), provided the counts were
   * consistent with the report mark.
   */
  lemma ReportReplyTwice(st: State, env: Env, postId: string, commentId: string, replyId: string)
    requires env.user.Some? && env.testMode
    requires var up := !Marked(Flagset(GetUserActions(st.store, env.user.value.email).reports.replies), replyId);
      forall i, j :: 0 <= i < |st.posts| && st.posts[i].id == postId && 0 <= j < |st.posts[i].comments|
                     && st.posts[i].comments[j].id == commentId ==>
        var rs := st.posts[i].comments[j].replies;
        && (forall k :: 0 <= k < |rs| && rs[k].id == replyId ==> rs[k].reports >= (if up then 0 else 1))
        && (forall k, m :: (0 <= k < |rs| && rs[k].id != replyId && 0 <= m < |rs[k].replies|
                            && rs[k].replies[m].id == replyId) ==> rs[k].replies[m].reports >= (if up then 0 else 1))
    ensures var r2 := ReportReply(ReportReply(st, env, postId, commentId, replyId).state, env, postId, commentId, replyId);
      r2.state.posts == st.posts
  {
    var email := env.user.value.email;
    var r1 := ReportReply(st, env, postId, commentId, replyId);
    var r2 := ReportReply(r1.state, env, postId, commentId, replyId);
    var up := !Marked(Flagset(GetUserActions(st.store, email).reports.replies), replyId);
    forall i | 0 <= i < |st.posts| && st.posts[i].id == postId
      ensures r2.state.posts[i].comments == st.posts[i].comments
    {
      var c0, c1, c2 := st.posts[i].comments, r1.state.posts[i].comments, r2.state.posts[i].comments;
      forall j | 0 <= j < |c0| && c0[j].id == commentId
        ensures c2[j].replies == c0[j].replies
      {
        ReplyReportedTwice(c0[j].replies, c1[j].replies, c2[j].replies, replyId, up);
      }
      RepliesOnlyTwice(c0, c1, c2, commentId);
    }
    CommentsOnlyTwice(st.posts, r1.state.posts, r2.state.posts, postId);
  }

  /**
   * Outside the test environment, a second report of the same post within
   * 3000 ms of an accepted one is refused with a toast and changes nothing.
   */
  lemma ReportPostThrottled(st: State, env: Env, later: Env, postId: string)
    requires !env.testMode && !later.testMode
    requires CanReport(st.stamps, "post:" + postId, env.now, false).allowed
    requires env.now <= later.now < env.now + WindowMs
    ensures var r1 := ReportPost(st, env, postId);
      ReportPost(r1.state, later, postId) == Outcome(r1.state, [Toast(WaitMessage, "info")])
  {
    RefusedWithinWindow(st.stamps, "post:" + postId, env.now, later.now);
  }

  /** A guest's accepted report still starts the throttle window for that key. */
  lemma GuestReportStartsWindow(st: State, env: Env, postId: string)
    requires env.user.None? && !env.testMode
    requires CanReport(st.stamps, "post:" + postId, env.now, false).allowed
    ensures var r := ReportPost(st, env, postId);
      && r.state.posts == st.posts && r.state.store == st.store && r.effects == []
      && r.state.stamps == st.stamps["post:" + postId := env.now]
  {
  }
}
