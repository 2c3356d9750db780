/**
 * The two persisted send queues of the remote adapter (lib/adapters.ts): the
 * engagement queue and the action-log queue. Both enqueue at the tail,
 * arm at most one flush timer, drain the whole queue into one batch when the
 * timer fires, retry a batch at most five times, and put a batch they give up
 * on back at the front. Time is an explicit "timer fires" step; a batch in
 * flight stays in `flights` until a "settle" step reports how its attempts
 * went, so events pushed meanwhile are visible.
 */
module BatchQueue {
  import opened Security

  const MaxAttempts: nat := 5
  /** Timer delays in milliseconds: 300 for engagements, 500 for the action log. */
  const EngagementDelayMs: nat := 300
  const ActionLogDelayMs: nat := 500

  // ----- one attempt -----

  /** How a statement ends: normally, or by throwing. */
  datatype Completion = Normal | Abrupt

  /** `try { s } catch {}`. */
  function TryCatch(c: Completion): Completion {
    Normal
  }

  /** Statements run in order; the first that throws ends the block by throwing. */
  function Block(cs: seq<Completion>): (r: Completion)
    ensures r == Normal <==> forall i :: 0 <= i < |cs| ==> cs[i] == Normal
    decreases |cs|
  {
    if cs == [] then Normal
    else if cs[0] == Abrupt then Abrupt
    else Block(cs[1..])
  }

  /** The sequential fallback: each item's send wrapped in its own `try {} catch {}`. */
  function Fallback(sends: seq<Completion>): (r: Completion)
  {
    Block(seq(|sends|, i requires 0 <= i < |sends| => TryCatch(sends[i])))
  }

  /** Because every send is caught, the fallback block always completes, however the sends end. */
  lemma FallbackCompletes(sends: seq<Completion>)
    ensures Fallback(sends) == Normal
  {
  }

  /** Without the per-item `catch` the fallback would throw as soon as one send throws. */
  lemma UncaughtFallbackThrows(sends: seq<Completion>, i: nat)
    requires i < |sends| && sends[i] == Abrupt
    ensures Block(sends) == Abrupt
  {
  }

  /**
   * One attempt: the batch call succeeding, or else the fallback block
   * completing (after which the code sets its success flag).
   */
  function AttemptSucceeds(batchOk: bool, sends: seq<Completion>): bool {
    batchOk || Fallback(sends) == Normal
  }

  lemma AttemptAlwaysSucceeds(batchOk: bool, sends: seq<Completion>)
    ensures AttemptSucceeds(batchOk, sends)
  {
    FallbackCompletes(sends);
  }

  // ----- the retry loop -----

  datatype RetryResult = RetryResult(success: bool, tries: nat)

  /**
   * `while(!success && attempt < 5)` from attempt `k`, where `ok(k)` says
   * whether attempt `k` succeeds.
   */
  function RetryFrom(ok: nat -> bool, k: nat): (r: RetryResult)
    requires k < MaxAttempts
    ensures k < r.tries <= MaxAttempts
    ensures r.success ==> ok(r.tries - 1)
    ensures !r.success ==> r.tries == MaxAttempts
    ensures forall j :: k <= j < r.tries - 1 ==> !ok(j)
    ensures !r.success ==> forall j :: k <= j < MaxAttempts ==> !ok(j)
    decreases MaxAttempts - k
  {
    if ok(k) then RetryResult(true, k + 1)
    else if k + 1 == MaxAttempts then RetryResult(false, MaxAttempts)
    else RetryFrom(ok, k + 1)
  }

  function Retry(ok: nat -> bool): (r: RetryResult)
    ensures 1 <= r.tries <= MaxAttempts
    ensures r.success <==> exists j :: 0 <= j < MaxAttempts && ok(j)
    ensures r.success ==> ok(r.tries - 1) && forall j :: 0 <= j < r.tries - 1 ==> !ok(j)
  {
    RetryFrom(ok, 0)
  }

  /** When the first attempt succeeds, the loop stops after it. */
  lemma FirstAttemptWins(ok: nat -> bool)
    requires ok(0)
    ensures Retry(ok) == RetryResult(true, 1)
  {
  }

  // ----- the queue state machine -----

  datatype Kind = Engagements | ActionLog

  /** The window events each queue dispatches. */
  datatype Event =
    | Pending(count: nat)
    | Flushed(count: nat, manual: bool)
    | FlushFailed(count: nat, manual: bool)
    | ActionLogFailed(size: nat)

  datatype Flight<T> = Flight(batch: seq<T>, manual: bool)

  /**
   * `queue` is the in-memory array, `persisted` its stored copy, `timerPending`
   * whether a flush timer is armed. `received`, `sent` and `dropped` record
   * what entered the queue, what a successful flush delivered, and what a
   * timer flush discarded because no API is configured.
   */
  datatype QState<T> = QState(
    kind: Kind,
    api: bool,
    queue: seq<T>,
    persisted: seq<T>,
    timerPending: bool,
    flights: seq<Flight<T>>,
    backoff: Backoff,
    events: seq<Event>,
    received: seq<T>,
    sent: seq<T>,
    dropped: seq<T>)

  /** The module-level state after loading the stored queue. */
  function Init<T>(kind: Kind, api: bool, stored: seq<T>): (s: QState<T>)
    ensures s.queue == stored && s.persisted == stored && !s.timerPending && s.flights == []
    ensures s.backoff.attempt == 0
  {
    var b := if kind == Engagements then NewBackoff(800, 8000) else NewBackoff(500, 6000);
    QState(kind, api, stored, stored, false, [], b, [], stored, [], [])
  }

  /** `scheduleFlush` / `scheduleActionLogFlush`: arm the timer unless one is armed. */
  function Schedule<T>(s: QState<T>): (r: QState<T>)
    ensures s.timerPending ==> r == s
    ensures r.timerPending
    ensures r.(timerPending := s.timerPending) == s
  {
    if s.timerPending then s else s.(timerPending := true)
  }

  /**
   * `persistEngagement` / `recordUserAction`: without an API nothing happens;
   * otherwise append at the tail, save, announce the pending count (the
   * engagement queue only) and schedule a flush.
   */
  function Push<T>(s: QState<T>, x: T): (r: QState<T>)
    ensures !s.api ==> r == s
    ensures s.api ==> r.queue == s.queue + [x] && r.persisted == r.queue && r.timerPending
    ensures s.api ==> r.flights == s.flights && r.sent == s.sent && r.received == s.received + [x]
    ensures s.api && s.kind == Engagements ==> r.events == s.events + [Pending(|r.queue|)]
    ensures s.api && s.kind == ActionLog ==> r.events == s.events
  {
    if !s.api then s
    else
      var q := s.queue + [x];
      var ev := if s.kind == Engagements then s.events + [Pending(|q|)] else s.events;
      Schedule(s.(queue := q, persisted := q, events := ev, received := s.received + [x]))
  }

  /** `getPendingEngagements()`. */
  function PendingCount<T>(s: QState<T>): nat {
    |s.queue|
  }

  /** The count a push announces is what a later `getPendingEngagements()` returns. */
  lemma PendingMatches<T>(s: QState<T>, x: T)
    requires s.api && s.kind == Engagements
    ensures var r := Push(s, x); r.events[|r.events| - 1] == Pending(PendingCount(r))
  {
  }

  /**
   * The timer callback: splice the whole queue into one batch, save the now
   * empty queue, disarm the timer; without an API the batch is discarded, an
   * empty batch is not sent, otherwise it goes in flight.
   */
  function TimerFires<T>(s: QState<T>): (r: QState<T>)
    ensures !s.timerPending ==> r == s
    ensures s.timerPending ==> r.queue == [] && r.persisted == [] && !r.timerPending
    ensures s.timerPending && s.api && s.queue != [] ==> r.flights == s.flights + [Flight(s.queue, false)]
    ensures s.timerPending && (!s.api || s.queue == []) ==> r.flights == s.flights
    ensures s.timerPending && !s.api ==> r.dropped == s.dropped + s.queue
    ensures r.events == s.events && r.sent == s.sent
  {
    if !s.timerPending then s
    else
      var batch := s.queue;
      var t := s.(queue := [], persisted := [], timerPending := false);
      if !s.api then t.(dropped := s.dropped + batch)
      else if batch == [] then t
      else t.(flights := s.flights + [Flight(batch, false)])
  }

  /** `flushEngagements()`: the same splice, started by hand, and only when there is something to send. */
  function ManualFlush<T>(s: QState<T>): (r: QState<T>)
    requires s.kind == Engagements
    ensures !s.api || s.queue == [] ==> r == s
    ensures s.api && s.queue != [] ==> r.queue == [] && r.persisted == [] && r.flights == s.flights + [Flight(s.queue, true)]
    ensures r.timerPending == s.timerPending
  {
    if !s.api || s.queue == [] then s
    else s.(queue := [], persisted := [], flights := s.flights + [Flight(s.queue, true)])
  }

  function RemoveAt<X>(xs: seq<X>, i: nat): (r: seq<X>)
    requires i < |xs|
    ensures |r| == |xs| - 1
    ensures forall j :: 0 <= j < i ==> r[j] == xs[j]
    ensures forall j :: i <= j < |r| ==> r[j] == xs[j + 1]
  {
    xs[..i] + xs[i + 1..]
  }

  /**
   * The retry loop of flight `i` ends. On success the batch is delivered,
   * the backoff reset, and the engagement queue reports the batch size. On
   * give-up after five attempts (five backoff steps) the batch goes back at the
   * front, ahead of anything queued meanwhile, and a failure event is sent.
   */
  function Settle<T>(s: QState<T>, i: nat, ok: nat -> bool): (r: QState<T>)
    ensures i >= |s.flights| ==> r == s
    ensures i < |s.flights| ==> |r.flights| == |s.flights| - 1
    ensures i < |s.flights| && Retry(ok).success ==>
      && r.sent == s.sent + s.flights[i].batch && r.queue == s.queue && r.backoff.attempt == 0
    ensures i < |s.flights| && !Retry(ok).success ==>
      && r.queue == s.flights[i].batch + s.queue && r.persisted == r.queue && r.sent == s.sent
      && r.backoff.attempt == s.backoff.attempt + MaxAttempts
  {
    if i >= |s.flights| then s
    else
      var f := s.flights[i];
      var rest := RemoveAt(s.flights, i);
      if Retry(ok).success then
        var ev := if s.kind == Engagements then s.events + [Flushed(|f.batch|, f.manual)] else s.events;
        s.(flights := rest, sent := s.sent + f.batch, backoff := Reset(s.backoff), events := ev)
      else
        var q := f.batch + s.queue;
        var ev := if s.kind == Engagements then s.events + [FlushFailed(|f.batch|, f.manual)]
                  else s.events + [ActionLogFailed(|f.batch|)];
        s.(flights := rest, queue := q, persisted := q,
           backoff := s.backoff.(attempt := s.backoff.attempt + MaxAttempts), events := ev)
  }

  /**
   * With the real attempts (batch call, else the caught sequential fallback)
   * every flight of either queue succeeds on its first try: the batch is
   * delivered, and on the engagement queue one flush event carries its size.
   */
  lemma RealFlushSucceeds<T>(s: QState<T>, i: nat, batchOk: nat -> bool, sends: nat -> seq<Completion>)
    requires i < |s.flights|
    ensures var ok := (k: nat) => AttemptSucceeds(batchOk(k), sends(k));
      && Retry(ok) == RetryResult(true, 1)
      && Settle(s, i, ok).sent == s.sent + s.flights[i].batch
      && Settle(s, i, ok).queue == s.queue
      && (s.kind == Engagements ==>
            Settle(s, i, ok).events == s.events + [Flushed(|s.flights[i].batch|, s.flights[i].manual)])
      && (s.kind == ActionLog ==> Settle(s, i, ok).events == s.events)
  {
    var ok := (k: nat) => AttemptSucceeds(batchOk(k), sends(k));
    AttemptAlwaysSucceeds(batchOk(0), sends(0));
    FirstAttemptWins(ok);
  }

  // ----- invariants -----

  function Flat<T>(fs: seq<Flight<T>>): seq<T>
    decreases |fs|
  {
    if fs == [] then [] else fs[0].batch + Flat(fs[1..])
  }

  lemma {:induction false} FlatConcat<T>(a: seq<Flight<T>>, b: seq<Flight<T>>)
    ensures Flat(a + b) == Flat(a) + Flat(b)
    decreases |a|
  {
    if a == [] {
      assert a + b == b;
    } else {
      assert (a + b)[1..] == a[1..] + b;
      FlatConcat(a[1..], b);
    }
  }

  /** The stored copy mirrors the in-memory queue. */
  ghost predicate Mirrored<T>(s: QState<T>) {
    s.persisted == s.queue
  }

  /** Every event that entered the queue is queued, in flight, delivered or dropped, exactly once. */
  ghost predicate Accounted<T>(s: QState<T>) {
    multiset(s.received) == multiset(s.queue) + multiset(Flat(s.flights)) + multiset(s.sent) + multiset(s.dropped)
  }

  lemma InitAccounted<T>(kind: Kind, api: bool, stored: seq<T>)
    ensures Accounted(Init(kind, api, stored)) && Mirrored(Init(kind, api, stored))
  {
  }

  lemma PushPreserves<T>(s: QState<T>, x: T)
    requires Accounted(s) && Mirrored(s)
    ensures Accounted(Push(s, x)) && Mirrored(Push(s, x))
  {
  }

  lemma TimerPreserves<T>(s: QState<T>)
    requires Accounted(s) && Mirrored(s)
    ensures Accounted(TimerFires(s)) && Mirrored(TimerFires(s))
  {
    if s.timerPending && s.api && s.queue != [] {
      FlatConcat(s.flights, [Flight(s.queue, false)]);
      assert Flat([Flight(s.queue, false)]) == s.queue;
    }
  }

  lemma ManualPreserves<T>(s: QState<T>)
    requires s.kind == Engagements
    requires Accounted(s) && Mirrored(s)
    ensures Accounted(ManualFlush(s)) && Mirrored(ManualFlush(s))
  {
    if s.api && s.queue != [] {
      FlatConcat(s.flights, [Flight(s.queue, true)]);
      assert Flat([Flight(s.queue, true)]) == s.queue;
    }
  }

  lemma FlatSingle<T>(f: Flight<T>)
    ensures Flat([f]) == f.batch
  {
    assert [f][1..] == [];
  }

  /** The in-flight items of a list split around one flight. */
  lemma FlatAround<T>(pre: seq<Flight<T>>, f: Flight<T>, post: seq<Flight<T>>)
    ensures Flat(pre + [f] + post) == Flat(pre) + f.batch + Flat(post)
  {
    FlatConcat(pre + [f], post);
    FlatConcat(pre, [f]);
    FlatSingle(f);
  }

  /** Taking flight `i` out removes exactly its batch from what is in flight. */
  lemma FlatRemove<T>(fs: seq<Flight<T>>, i: nat)
    requires i < |fs|
    ensures multiset(Flat(fs)) == multiset(Flat(RemoveAt(fs, i))) + multiset(fs[i].batch)
  {
    var pre, f, post := fs[..i], fs[i], fs[i + 1..];
    assert fs == pre + [f] + post;
    FlatAround(pre, f, post);
    assert RemoveAt(fs, i) == pre + post;
    FlatConcat(pre, post);
    var a, b, c := Flat(pre), f.batch, Flat(post);
    assert multiset(a + b + c) == multiset(a) + multiset(b) + multiset(c);
    assert multiset(a + c) == multiset(a) + multiset(c);
  }

  lemma SettlePreserves<T>(s: QState<T>, i: nat, ok: nat -> bool)
    requires Accounted(s) && Mirrored(s)
    ensures Accounted(Settle(s, i, ok)) && Mirrored(Settle(s, i, ok))
  {
    if i < |s.flights| {
      var r := Settle(s, i, ok);
      var b := s.flights[i].batch;
      FlatRemove(s.flights, i);
      assert r.flights == RemoveAt(s.flights, i);
      assert r.received == s.received && r.dropped == s.dropped;
      if Retry(ok).success {
        assert multiset(r.sent) == multiset(s.sent) + multiset(b);
      } else {
        assert multiset(r.queue) == multiset(b) + multiset(s.queue);
      }
    }
  }
}
