/**
 * The optimistic-update combinator (lib/optimistic.ts): apply locally, await
 * the remote call, roll back and report on failure, and always finish. The
 * callbacks are abstract; each either returns or throws, and the model
 * records the order in which they are invoked.
 */
module Optimistic {

  /** How a supplied callback ends. */
  datatype Behaviour = Returns | Throws

  /** An optional callback (`onError?`, `onFinally?`). */
  datatype Handler = Absent | Present(ends: Behaviour)

  /** One invocation of a callback, in the order the combinator makes them. */
  datatype Call<S> = ApplyLocal | Remote | Rollback | OnError(snapshot: S) | OnFinally

  /** The invocations made, and whether the returned promise rejects. */
  datatype Run<S> = Run(trace: seq<Call<S>>, rejects: bool)

  function Count<T(==)>(s: seq<T>, x: T): (n: nat)
    ensures n <= |s|
    ensures n == 0 <==> x !in s
    decreases |s|
  {
    if s == [] then 0 else (if s[0] == x then 1 else 0) + Count(s[1..], x)
  }

  lemma {:induction false} CountAppend<T>(a: seq<T>, b: seq<T>, x: T)
    ensures Count(a + b, x) == Count(a, x) + Count(b, x)
    decreases |a|
  {
    if a != [] {
      assert (a + b)[1..] == a[1..] + b;
      CountAppend(a[1..], b, x);
    } else {
      assert a + b == b;
    }
  }

  /** The `catch` block: roll back, then hand the snapshot to `onError`; the result is whether it throws. */
  function CatchBlock<S>(snapshot: S, rollback: Behaviour, onError: Handler): (r: (seq<Call<S>>, bool))
    ensures |r.0| >= 1 && r.0[0] == Rollback
    ensures Rollback !in r.0[1..]
  {
    if rollback == Throws then ([Rollback], true)
    else match onError
      case Absent => ([Rollback], false)
      case Present(e) => ([Rollback, OnError(snapshot)], e == Throws)
  }

  /**
   * `optimisticUpdate(applyLocal, remote, onError, onFinally)`, where
   * `applyLocal` ends as `apply` and yields `snapshot`.
   */
  function OptimisticUpdate<S>(apply: Behaviour, snapshot: S, remote: Behaviour, rollback: Behaviour,
                               onError: Handler, onFinally: Handler): (r: Run<S>)
    ensures |r.trace| >= 1 && r.trace[0] == ApplyLocal
    ensures apply == Throws ==> r == Run([ApplyLocal], true)
  {
    if apply == Throws then Run([ApplyLocal], true)
    else
      var (caught, pending) :=
        if remote == Throws then CatchBlock(snapshot, rollback, onError) else ([], false);
      var (fin, finThrows) :=
        match onFinally
        case Absent => ([], false)
        case Present(f) => ([OnFinally], f == Throws);
      Run([ApplyLocal, Remote] + caught + fin, pending || finThrows)
  }

  /** `applyLocal` runs exactly once, first, and `remote` runs right after it. */
  lemma ApplyOnceBeforeRemote<S>(snapshot: S, remote: Behaviour, rollback: Behaviour, onError: Handler, onFinally: Handler)
    ensures var t := OptimisticUpdate(Returns, snapshot, remote, rollback, onError, onFinally).trace;
      |t| >= 2 && t[0] == ApplyLocal && t[1] == Remote && ApplyLocal !in t[1..]
  {
  }

  /** When the remote call resolves, nothing is rolled back and `onError` is not called. */
  lemma SuccessKeepsLocal<S>(apply: Behaviour, snapshot: S, rollback: Behaviour, onError: Handler, onFinally: Handler)
    ensures var t := OptimisticUpdate(apply, snapshot, Returns, rollback, onError, onFinally).trace;
      Rollback !in t && OnError(snapshot) !in t
  {
  }

  /** When the remote call rejects, `rollback` runs exactly once, and `onError` then receives the snapshot. */
  lemma FailureRollsBackOnce<S>(snapshot: S, rollback: Behaviour, onError: Handler, onFinally: Handler)
    ensures var t := OptimisticUpdate(Returns, snapshot, Throws, rollback, onError, onFinally).trace;
      && Count(t, Rollback) == 1
      && t[2] == Rollback
      && (rollback == Returns && onError.Present? ==> t[3] == OnError(snapshot))
  {
    var caught := CatchBlock(snapshot, rollback, onError).0;
    var fin: seq<Call<S>> := if onFinally.Present? then [OnFinally] else [];
    var head: seq<Call<S>> := [ApplyLocal, Remote];
    assert OptimisticUpdate(Returns, snapshot, Throws, rollback, onError, onFinally).trace == head + caught + fin;
    CountAppend(head, caught, Rollback);
    CountAppend(head + caught, fin, Rollback);
    assert Count(head, Rollback) == 0;
    CatchRollsBackOnce(snapshot, rollback, onError);
  }

  /** The `catch` block calls `rollback` exactly once. */
  lemma CatchRollsBackOnce<S>(snapshot: S, rollback: Behaviour, onError: Handler)
    ensures Count(CatchBlock(snapshot, rollback, onError).0, Rollback) == 1
  {
    var caught := CatchBlock(snapshot, rollback, onError).0;
    assert caught == [Rollback] + caught[1..];
    CountAppend([Rollback], caught[1..], Rollback);
  }

  /** A supplied `onFinally` runs exactly once, last, on both paths. */
  lemma FinallyOnceLast<S>(snapshot: S, remote: Behaviour, rollback: Behaviour, onError: Handler, f: Behaviour)
    ensures var t := OptimisticUpdate(Returns, snapshot, remote, rollback, onError, Present(f)).trace;
      Count(t, OnFinally) == 1 && t[|t| - 1] == OnFinally
  {
    var (caught, _) := if remote == Throws then CatchBlock(snapshot, rollback, onError) else ([], false);
    var head: seq<Call<S>> := [ApplyLocal, Remote];
    CountAppend(head, caught, OnFinally);
    CountAppend(head + caught, [OnFinally], OnFinally);
    assert Count(head, OnFinally) == 0;
    assert OnFinally !in caught;
  }

  /** A remote failure does not escape when the rollback and the handlers themselves do not throw. */
  lemma FailureContained<S>(snapshot: S, remote: Behaviour, onError: Handler, onFinally: Handler)
    requires onError != Present(Throws) && onFinally != Present(Throws)
    ensures !OptimisticUpdate(Returns, snapshot, remote, Returns, onError, onFinally).rejects
  {
  }

  /** The local state once the update settles: the applied state, rolled back if the remote call failed. */
  function Settle<S>(st: S, apply: S -> S, undo: S -> S, remote: Behaviour): S {
    if remote == Throws then undo(apply(st)) else apply(st)
  }

  /**
   * `Settle` follows the combinator's run: the local state is rolled back
   * exactly when the run invoked `rollback`.
   */
  lemma SettleFollowsTrace<S, T>(st: S, apply: S -> S, undo: S -> S, snapshot: T, remote: Behaviour,
                                 rollback: Behaviour, onError: Handler, onFinally: Handler)
    ensures var t := OptimisticUpdate(Returns, snapshot, remote, rollback, onError, onFinally).trace;
      Settle(st, apply, undo, remote) == if Rollback in t then undo(apply(st)) else apply(st)
  {
    if remote == Throws {
      FailureRollsBackOnce(snapshot, rollback, onError, onFinally);
    } else {
      SuccessKeepsLocal(Returns, snapshot, rollback, onError, onFinally);
    }
  }
}
