/**
 * What the two content hooks (hooks/usePosts.ts, hooks/useQuestions.ts)
 * share: the environment a callback reads, the shape of its result, the
 * sanitizer call, and the throttle's refusal message.
 */
module HookEnv {
  import opened Wrappers
  import opened Types
  import opened Adapters
  import Security
  import Optimistic

  /**
   * What a callback reads besides its state: `sessionUser`, `Date.now()`,
   * the next `uid()`, the id the server gives a created item (absent when the
   * call failed), whether an API is configured, the two HTML strippers,
   * whether `NODE_ENV` is `test`, and how an adapter create call ends.
   */
  datatype Env = Env(
    user: Option<SessionUser>,
    now: int,
    freshId: string,
    serverId: Option<string>,
    apiSet: bool,
    strip: Security.Strippers,
    testMode: bool,
    createCall: Optimistic.Behaviour)

  /** A callback's new state and the adapter calls and toasts it makes, in order. */
  datatype Outcome<S> = Outcome(state: S, effects: seq<Effect>)

  const WaitMessage: string := "Please wait before reporting again"

  /** `sanitizeHtml(s)` with the default length cap. */
  function Sanitize(env: Env, s: string): (r: string)
    ensures |r| <= Security.DefaultMaxLen
    ensures s == "" ==> r == ""
  {
    Security.SanitizeHtml(env.strip, s, Security.DefaultMaxLen)
  }

  /** `try { await call } catch {}`: the remote closure resolves however the call ends. */
  function Swallowed(call: Optimistic.Behaviour): Optimistic.Behaviour {
    Optimistic.Returns
  }

  /**
   * A swallowed remote call never makes `optimisticUpdate` roll back or
   * reject (unless `onFinally` throws), so the local update always stays.
   */
  lemma SwallowedKeepsLocal<S, T>(call: Optimistic.Behaviour, st: S, apply: S -> S, undo: S -> S, snapshot: T,
                                  rollback: Optimistic.Behaviour, onError: Optimistic.Handler,
                                  onFinally: Optimistic.Handler)
    ensures var run := Optimistic.OptimisticUpdate(Optimistic.Returns, snapshot, Swallowed(call), rollback, onError, onFinally);
      && Optimistic.Rollback !in run.trace
      && (onFinally != Optimistic.Present(Optimistic.Throws) ==> !run.rejects)
    ensures Optimistic.Settle(st, apply, undo, Swallowed(call)) == apply(st)
  {
    Optimistic.SuccessKeepsLocal(Optimistic.Returns, snapshot, rollback, onError, onFinally);
    Optimistic.SettleFollowsTrace(st, apply, undo, snapshot, Swallowed(call), rollback, onError, onFinally);
  }
}
