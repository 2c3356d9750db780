/**
 * The per-key report throttle (`canReport` in hooks/usePosts.ts and
 * hooks/useQuestions.ts): a report on a key is refused when the last accepted
 * one on that key was less than the window ago; an accepted one records the
 * time. The post-side copy is switched off under the test environment.
 */
module Throttle {

  /** The last accepted report time per key; a missing key reads as 0. */
  type Timestamps = map<string, int>

  const WindowMs: int := 3000

  datatype Decision = Decision(allowed: bool, stamps: Timestamps)

  function Last(t: Timestamps, key: string): int {
    if key in t then t[key] else 0
  }

  /** `canReport(key)` at time `now`; `bypass` is the `NODE_ENV === 'test'` short cut. */
  function CanReport(t: Timestamps, key: string, now: int, bypass: bool): (r: Decision)
    ensures bypass ==> r == Decision(true, t)
    ensures !bypass ==> (r.allowed <==> now - Last(t, key) >= WindowMs)
    ensures !bypass && r.allowed ==> r.stamps == t[key := now]
    ensures !r.allowed ==> r.stamps == t
  {
    if bypass then Decision(true, t)
    else if now - Last(t, key) < WindowMs then Decision(false, t)
    else Decision(true, t[key := now])
  }

  /** After an accepted report, the same key is refused for the rest of the window. */
  lemma RefusedWithinWindow(t: Timestamps, key: string, now: int, later: int)
    requires CanReport(t, key, now, false).allowed
    requires now <= later < now + WindowMs
    ensures !CanReport(CanReport(t, key, now, false).stamps, key, later, false).allowed
  {
  }

  /** Once the window has passed, the key is accepted again. */
  lemma AllowedAfterWindow(t: Timestamps, key: string, now: int, later: int)
    requires CanReport(t, key, now, false).allowed
    requires later >= now + WindowMs
    ensures CanReport(CanReport(t, key, now, false).stamps, key, later, false).allowed
  {
  }

  /** Keys are throttled independently. */
  lemma KeysIndependent(t: Timestamps, key: string, other: string, now: int, later: int)
    requires key != other
    ensures CanReport(CanReport(t, key, now, false).stamps, other, later, false).allowed
            == CanReport(t, other, later, false).allowed
  {
  }
}
