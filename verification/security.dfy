/**
 * Client-side guards (lib/security.ts): the length behaviour of the HTML
 * sanitizer, entity escaping, recursive redaction of sensitive keys, and the
 * attempt counter of the backoff controller.
 */
module Security {
  import opened Text

  /**
   * The two regular-expression removals of `sanitizeHtml` (script blocks,
   * then quoted `on*=` handler attributes), kept abstract.
   */
  datatype Strippers = Strippers(scripts: string -> string, handlers: string -> string)

  /** Both removals only ever delete text, so neither lengthens its input. */
  ghost predicate Shrinking(z: Strippers) {
    (forall s :: |z.scripts(s)| <= |s|) && (forall s :: |z.handlers(s)| <= |s|)
  }

  const DefaultMaxLen: nat := 8000

  /** `sanitizeHtml(input, maxLen)`. */
  function SanitizeHtml(z: Strippers, input: string, maxLen: nat): (r: string)
    ensures input == "" ==> r == ""
    ensures |r| <= maxLen
    ensures input != "" ==> IsPrefix(r, z.handlers(z.scripts(input)))
    ensures input != "" && |z.handlers(z.scripts(input))| <= maxLen ==> r == z.handlers(z.scripts(input))
    ensures Shrinking(z) ==> |r| <= |input|
  {
    if input == "" then ""
    else
      var out := z.handlers(z.scripts(input));
      if |out| > maxLen then out[..maxLen] else out
  }

  /** Text the removals leave alone and that fits the limit comes back as it was. */
  lemma SanitizeKeepsCleanText(z: Strippers, input: string, maxLen: nat)
    requires z.scripts(input) == input && z.handlers(input) == input
    requires |input| <= maxLen
    ensures SanitizeHtml(z, input, maxLen) == input
  {
  }

  /** The characters `escapeHtml` rewrites. */
  predicate Special(c: char) {
    c == '&' || c == '<' || c == '>' || c == '"'
  }

  function EscapeChar(c: char): (r: string)
    ensures r != []
    ensures !Special(c) ==> r == [c]
    ensures '<' !in r && '>' !in r && '"' !in r
  {
    match c
    case '&' => "&amp;"
    case '<' => "&lt;"
    case '>' => "&gt;"
    case '"' => "&quot;"
    case _ => [c]
  }

  /** `escapeHtml(s)`: each special character becomes its entity. */
  function EscapeHtml(s: string): (r: string)
    ensures |r| >= |s|
    ensures '<' !in r && '>' !in r && '"' !in r
    ensures (forall i :: 0 <= i < |s| ==> !Special(s[i])) ==> r == s
    decreases |s|
  {
    if s == [] then ""
    else
      var rest := EscapeHtml(s[1..]);
      assert (forall i :: 0 <= i < |s| ==> !Special(s[i])) ==> forall i :: 0 <= i < |s[1..]| ==> !Special(s[1..][i]);
      assert (forall i :: 0 <= i < |s| ==> !Special(s[i])) ==> EscapeChar(s[0]) == [s[0]];
      assert [s[0]] + s[1..] == s;
      EscapeChar(s[0]) + rest
  }

  /** The decoder of the four entities; any other '&' is taken literally. */
  function Unescape(s: string): string
    decreases |s|
  {
    if s == [] then ""
    else if IsPrefix("&amp;", s) then "&" + Unescape(s[5..])
    else if IsPrefix("&lt;", s) then "<" + Unescape(s[4..])
    else if IsPrefix("&gt;", s) then ">" + Unescape(s[4..])
    else if IsPrefix("&quot;", s) then "\"" + Unescape(s[6..])
    else [s[0]] + Unescape(s[1..])
  }

  lemma UnescapeStep(c: char, rest: string)
    ensures Unescape(EscapeChar(c) + rest) == [c] + Unescape(rest)
  {
    var e := EscapeChar(c) + rest;
    if c == '&' {
      UnescapeEntity(e, "&amp;", rest);
    } else if c == '<' {
      assert !IsPrefix("&amp;", e) by { assert e[1] == 'l'; }
      UnescapeEntity(e, "&lt;", rest);
    } else if c == '>' {
      assert !IsPrefix("&amp;", e) && !IsPrefix("&lt;", e) by { assert e[1] == 'g'; }
      UnescapeEntity(e, "&gt;", rest);
    } else if c == '"' {
      assert !IsPrefix("&amp;", e) && !IsPrefix("&lt;", e) && !IsPrefix("&gt;", e) by { assert e[1] == 'q'; }
      UnescapeEntity(e, "&quot;", rest);
    } else {
      assert e[0] == c && e[1..] == rest;
      assert !IsPrefix("&amp;", e) && !IsPrefix("&lt;", e) && !IsPrefix("&gt;", e) && !IsPrefix("&quot;", e);
    }
  }

  lemma UnescapeEntity(e: string, entity: string, rest: string)
    requires e == entity + rest
    ensures IsPrefix(entity, e) && e[|entity|..] == rest
  {
    assert e[..|entity|] == entity;
  }

  /** Escaping loses nothing: decoding the entities gives the input back. */
  lemma {:induction false} EscapeRoundTrip(s: string)
    ensures Unescape(EscapeHtml(s)) == s
    decreases |s|
  {
    if s != [] {
      UnescapeStep(s[0], EscapeHtml(s[1..]));
      EscapeRoundTrip(s[1..]);
      assert [s[0]] + s[1..] == s;
    }
  }

  /** A JSON-like value as `scrubObject` sees it. */
  datatype Value =
    | Null
    | Undefined
    | Bool(b: bool)
    | Num(n: int)
    | Str(s: string)
    | Arr(items: seq<Value>)
    | Obj(fields: seq<(string, Value)>)

  const SensitiveKeys: seq<string> := ["password", "token", "authorization"]

  const Redacted: Value := Str("[REDACTED]")

  predicate Sensitive(k: string) {
    Lower(k) in SensitiveKeys
  }

  /** `scrubObject(v)`: copy arrays and objects, replacing every sensitive key's value. */
  function Scrub(v: Value): (r: Value)
    ensures !v.Arr? && !v.Obj? ==> r == v
    ensures v.Arr? ==> r.Arr? && |r.items| == |v.items|
    ensures v.Obj? ==> r.Obj? && |r.fields| == |v.fields|
    ensures v.Obj? ==> forall i :: 0 <= i < |v.fields| ==> r.fields[i].0 == v.fields[i].0
    ensures v.Obj? ==> forall i :: 0 <= i < |v.fields| && Sensitive(v.fields[i].0) ==> r.fields[i].1 == Redacted
    ensures v.Arr? ==> forall i :: 0 <= i < |v.items| ==> r.items[i] == Scrub(v.items[i])
    ensures v.Obj? ==> forall i :: 0 <= i < |v.fields| && !Sensitive(v.fields[i].0) ==> r.fields[i].1 == Scrub(v.fields[i].1)
    decreases v
  {
    match v
    case Arr(items) => Arr(seq(|items|, i requires 0 <= i < |items| => Scrub(items[i])))
    case Obj(fields) =>
      Obj(seq(|fields|, i requires 0 <= i < |fields| =>
        (fields[i].0, if Sensitive(fields[i].0) then Redacted else Scrub(fields[i].1))))
    case _ => v
  }

  /** No sensitive key anywhere holds anything but the redaction marker. */
  predicate Clean(v: Value)
    decreases v
  {
    match v
    case Arr(items) => forall i :: 0 <= i < |items| ==> Clean(items[i])
    case Obj(fields) =>
      forall i :: 0 <= i < |fields| ==>
        (Sensitive(fields[i].0) ==> fields[i].1 == Redacted) && Clean(fields[i].1)
    case _ => true
  }

  /** After scrubbing, no sensitive key at any depth keeps its value. */
  lemma {:induction false} ScrubCleans(v: Value)
    ensures Clean(Scrub(v))
    decreases v
  {
    match v
    case Arr(items) =>
      forall i | 0 <= i < |items| ensures Clean(Scrub(v).items[i]) {
        ScrubCleans(items[i]);
      }
    case Obj(fields) =>
      forall i | 0 <= i < |fields| ensures Clean(Scrub(v).fields[i].1) {
        if !Sensitive(fields[i].0) {
          ScrubCleans(fields[i].1);
        }
      }
    case _ =>
  }

  /** Scrubbing is idempotent. */
  lemma {:induction false} ScrubIdempotent(v: Value)
    ensures Scrub(Scrub(v)) == Scrub(v)
    decreases v
  {
    match v
    case Arr(items) =>
      forall i | 0 <= i < |items| ensures Scrub(Scrub(items[i])) == Scrub(items[i]) {
        ScrubIdempotent(items[i]);
      }
    case Obj(fields) =>
      forall i | 0 <= i < |fields| && !Sensitive(fields[i].0)
        ensures Scrub(Scrub(fields[i].1)) == Scrub(fields[i].1)
      {
        ScrubIdempotent(fields[i].1);
      }
    case _ =>
  }

  /** No object at any depth has a sensitive key. */
  predicate NoSensitiveKey(v: Value)
    decreases v
  {
    match v
    case Arr(items) => forall i :: 0 <= i < |items| ==> NoSensitiveKey(items[i])
    case Obj(fields) => forall i :: 0 <= i < |fields| ==> !Sensitive(fields[i].0) && NoSensitiveKey(fields[i].1)
    case _ => true
  }

  /** Scrubbing changes nothing but sensitive values: a value without sensitive keys comes back as it was. */
  lemma {:induction false} ScrubKeepsPlain(v: Value)
    requires NoSensitiveKey(v)
    ensures Scrub(v) == v
    decreases v
  {
    match v
    case Arr(items) =>
      forall i | 0 <= i < |items| ensures Scrub(items[i]) == items[i] {
        ScrubKeepsPlain(items[i]);
      }
      assert Scrub(v).items == items;
    case Obj(fields) =>
      forall i | 0 <= i < |fields| ensures Scrub(v).fields[i] == fields[i] {
        ScrubKeepsPlain(fields[i].1);
      }
      assert Scrub(v).fields == fields;
    case _ =>
  }

  /** The attempt counter of `BackoffController` and its constructor parameters. */
  datatype Backoff = Backoff(attempt: nat, baseMs: nat, maxMs: nat)

  function NewBackoff(baseMs: nat, maxMs: nat): (b: Backoff)
    ensures b.attempt == 0 && b.baseMs == baseMs && b.maxMs == maxMs
  {
    Backoff(0, baseMs, maxMs)
  }

  function Reset(b: Backoff): (r: Backoff)
    ensures r.attempt == 0
    ensures r.baseMs == b.baseMs && r.maxMs == b.maxMs
  {
    b.(attempt := 0)
  }

  function Pow2(n: nat): (r: nat)
    ensures r >= 1
  {
    if n == 0 then 1 else 2 * Pow2(n - 1)
  }

  lemma {:induction false} Pow2Monotone(a: nat, b: nat)
    requires a <= b
    ensures Pow2(a) <= Pow2(b)
    decreases b - a
  {
    if a < b {
      Pow2Monotone(a, b - 1);
    }
  }

  /** `Math.min(maxMs, baseMs * 2^attempt)`, the delay before jitter. */
  function RawDelay(baseMs: nat, maxMs: nat, attempt: nat): (d: nat)
    ensures d <= maxMs
    ensures baseMs * Pow2(attempt) <= maxMs ==> d == baseMs * Pow2(attempt)
  {
    var d := baseMs * Pow2(attempt);
    if d < maxMs then d else maxMs
  }

  datatype Step = Step(next: Backoff, delay: nat)

  /** `nextDelay()` without jitter: the delay for the current attempt, and the counter moved on by one. */
  function NextDelay(b: Backoff): (r: Step)
    ensures r.next.attempt == b.attempt + 1
    ensures r.next.baseMs == b.baseMs && r.next.maxMs == b.maxMs
    ensures r.delay <= b.maxMs
    ensures b.attempt == 0 && b.baseMs <= b.maxMs ==> r.delay == b.baseMs
  {
    Step(b.(attempt := b.attempt + 1), RawDelay(b.baseMs, b.maxMs, b.attempt))
  }

  /** Later attempts never wait less than earlier ones. */
  lemma DelayMonotone(baseMs: nat, maxMs: nat, a1: nat, a2: nat)
    requires a1 <= a2
    ensures RawDelay(baseMs, maxMs, a1) <= RawDelay(baseMs, maxMs, a2)
  {
    Pow2Monotone(a1, a2);
    assert baseMs * Pow2(a1) <= baseMs * Pow2(a2) by {
      var p1, p2 := Pow2(a1), Pow2(a2);
      assert baseMs * (p2 - p1) >= 0;
    }
  }

  /** The engagement queue's controller (800 ms base, 8000 ms cap) waits 800, 1600, 3200, 6400, then 8000. */
  lemma EngagementDelays()
    ensures RawDelay(800, 8000, 0) == 800
    ensures RawDelay(800, 8000, 1) == 1600
    ensures RawDelay(800, 8000, 2) == 3200
    ensures RawDelay(800, 8000, 3) == 6400
    ensures RawDelay(800, 8000, 4) == 8000
  {
    assert Pow2(4) == 16 by {
      assert Pow2(1) == 2;
      assert Pow2(2) == 4;
      assert Pow2(3) == 8;
    }
  }
}
