/**
 * The JavaScript string primitives the source relies on: `trim`, ASCII
 * `toLowerCase`/`toUpperCase`, `startsWith`/`endsWith`/`includes`,
 * `split` on one character, `slice`, and global literal replacement.
 */
module Text {

  /** The characters `String.prototype.trim` removes: ECMAScript WhiteSpace and LineTerminator. */
  predicate IsSpace(c: char) {
    || c == '\t' || c == '\n' || c == '\U{B}' || c == '\U{C}' || c == '\r' || c == ' '
    || c == '\U{A0}' || c == '\U{1680}' || ('\U{2000}' <= c <= '\U{200A}')
    || c == '\U{2028}' || c == '\U{2029}' || c == '\U{202F}' || c == '\U{205F}'
    || c == '\U{3000}' || c == '\U{FEFF}'
  }

  /** A string made only of whitespace (the empty string included). */
  predicate Blank(s: string) {
    forall i :: 0 <= i < |s| ==> IsSpace(s[i])
  }

  /** Number of leading whitespace characters. */
  function LeadingSpaces(s: string): (n: nat)
    ensures n <= |s|
    ensures Blank(s[..n])
    ensures n < |s| ==> !IsSpace(s[n])
    decreases |s|
  {
    if s != [] && IsSpace(s[0]) then
      var m := LeadingSpaces(s[1..]);
      assert s[1..][..m] == s[1..m + 1];
      1 + m
    else 0
  }

  /** Number of trailing whitespace characters. */
  function TrailingSpaces(s: string): (n: nat)
    ensures n <= |s|
    ensures Blank(s[|s| - n..])
    ensures n == |s| ==> Blank(s)
    ensures n < |s| ==> !IsSpace(s[|s| - n - 1])
    decreases |s|
  {
    if s != [] && IsSpace(s[|s| - 1]) then
      var m := TrailingSpaces(s[..|s| - 1]);
      TrailingStep(s, m);
      1 + m
    else 0
  }

  /** One more trailing whitespace character in front of a blank suffix of `m` characters. */
  lemma TrailingStep(s: string, m: nat)
    requires s != [] && IsSpace(s[|s| - 1]) && m < |s|
    requires Blank(s[..|s| - 1][|s| - 1 - m..])
    requires m < |s| - 1 ==> !IsSpace(s[..|s| - 1][|s| - 1 - m - 1])
    ensures Blank(s[|s| - (1 + m)..])
    ensures 1 + m == |s| ==> Blank(s)
    ensures 1 + m < |s| ==> !IsSpace(s[|s| - (1 + m) - 1])
  {
    var t := s[..|s| - 1];
    assert s[|s| - (1 + m)..] == t[|t| - m..] + [s[|s| - 1]];
    if 1 + m == |s| {
      assert s[|s| - (1 + m)..] == s;
    }
  }

  /** `s.trim()`. */
  function Trim(s: string): (r: string)
    ensures |r| <= |s|
    ensures r != [] ==> !IsSpace(r[0]) && !IsSpace(r[|r| - 1])
  {
    var a := s[LeadingSpaces(s)..];
    a[..|a| - TrailingSpaces(a)]
  }

  /** Trimming leaves nothing exactly when the string is blank. */
  lemma TrimEmptyIffBlank(s: string)
    ensures Trim(s) == [] <==> Blank(s)
  {
    var k := LeadingSpaces(s);
    if k < |s| {
      TrimNonBlank(s);
    } else {
      assert s[..k] == s;
    }
  }

  /** A string with a non-whitespace character trims to something non-empty. */
  lemma TrimNonBlank(s: string)
    requires LeadingSpaces(s) < |s|
    ensures Trim(s) != [] && !Blank(s)
  {
    var k := LeadingSpaces(s);
    assert !IsSpace(s[k]);
    var a := s[k..];
    assert a[0] == s[k];
    var m := TrailingSpaces(a);
    assert m < |a|;
    assert Trim(s) == a[..|a| - m];
  }

  /** A string whose first and last characters are not whitespace is its own trim. */
  lemma TrimOfTrimmed(s: string)
    requires s == [] || (!IsSpace(s[0]) && !IsSpace(s[|s| - 1]))
    ensures Trim(s) == s
  {
    if s != [] {
      assert LeadingSpaces(s) == 0;
      assert TrailingSpaces(s) == 0;
    }
  }

  /** ASCII `toLowerCase` of one character. */
  function LowerChar(c: char): char {
    if 'A' <= c <= 'Z' then (c as int + 32) as char else c
  }

  /** ASCII `toUpperCase` of one character. */
  function UpperChar(c: char): char {
    if 'a' <= c <= 'z' then (c as int - 32) as char else c
  }

  /** `s.toLowerCase()`, restricted to the ASCII letters. */
  function Lower(s: string): (r: string)
    ensures |r| == |s|
    ensures forall i :: 0 <= i < |s| ==> r[i] == LowerChar(s[i])
  {
    seq(|s|, i requires 0 <= i < |s| => LowerChar(s[i]))
  }

  /**
   * `s.toUpperCase()`: the ASCII letters, plus the one special casing that
   * changes the length of a Latin-1 string, 'ß' becoming "SS".
   */
  function Upper(s: string): (r: string)
    ensures |r| >= |s|
    decreases |s|
  {
    if s == [] then ""
    else (if s[0] == 'ß' then "SS" else [UpperChar(s[0])]) + Upper(s[1..])
  }

  /** Upper-casing a string without 'ß' keeps its length. */
  lemma {:induction false} UpperKeepsLength(s: string)
    requires 'ß' !in s
    ensures |Upper(s)| == |s|
    decreases |s|
  {
    if s != [] {
      UpperKeepsLength(s[1..]);
    }
  }

  predicate IsPrefix(p: string, s: string) {
    |p| <= |s| && s[..|p|] == p
  }

  predicate IsSuffix(p: string, s: string) {
    |p| <= |s| && s[|s| - |p|..] == p
  }

  /** `s.includes(w)`. */
  predicate Contains(s: string, w: string)
    decreases |s|
  {
    IsPrefix(w, s) || (s != [] && Contains(s[1..], w))
  }

  /** A substring found at a position is contained. */
  lemma {:induction false} ContainsAt(s: string, w: string, i: nat)
    requires i + |w| <= |s| && s[i..i + |w|] == w
    ensures Contains(s, w)
    decreases i
  {
    if i > 0 {
      assert s[1..][i - 1..i - 1 + |w|] == s[i..i + |w|];
      ContainsAt(s[1..], w, i - 1);
    }
  }

  /** Every string contains the empty string. */
  lemma ContainsEmpty(s: string)
    ensures Contains(s, "")
  {
    assert IsPrefix("", s);
  }

  /** `s.split(sep)` for a one-character separator. */
  function Split(s: string, sep: char): (r: seq<string>)
    ensures |r| >= 1
    ensures forall i :: 0 <= i < |r| ==> sep !in r[i]
    decreases |s|
  {
    if s == [] then [""]
    else
      var rest := Split(s[1..], sep);
      if s[0] == sep then [""] + rest
      else [[s[0]] + rest[0]] + rest[1..]
  }

  /** `s.split(sep)[0]`: the text before the first `sep`, or all of `s` when there is none. */
  function Before(s: string, sep: char): (r: string)
    ensures sep !in r && IsPrefix(r, s)
  {
    SplitHead(s, sep);
    Split(s, sep)[0]
  }

  /** Splitting `a + [sep] + b` where `a` has no separator gives `a` followed by the pieces of `b`. */
  lemma {:induction false} SplitAtFirst(a: string, sep: char, b: string)
    requires sep !in a
    ensures Split(a + [sep] + b, sep) == [a] + Split(b, sep)
    decreases |a|
  {
    var s := a + [sep] + b;
    if a == [] {
      assert s == [sep] + b;
      assert s[1..] == b;
    } else {
      assert s[1..] == a[1..] + [sep] + b;
      assert sep !in a[1..] by { assert a == [a[0]] + a[1..]; }
      SplitAtFirst(a[1..], sep, b);
      assert [a[0]] + a[1..] == a;
    }
  }

  /** The first piece of a split is the prefix before the first separator, non-empty when the string does not start with one. */
  lemma {:induction false} SplitHead(s: string, sep: char)
    ensures IsPrefix(Split(s, sep)[0], s)
    ensures s != [] && s[0] != sep ==> Split(s, sep)[0] != [] && Split(s, sep)[0][0] == s[0]
    decreases |s|
  {
    if s != [] {
      SplitHead(s[1..], sep);
      if s[0] != sep {
        var p := Split(s[1..], sep)[0];
        assert s == [s[0]] + s[1..];
        assert ([s[0]] + p) == s[..|p| + 1];
      }
    }
  }

  /** `pieces.join(sep)`. */
  function JoinWith(pieces: seq<string>, sep: string): string
    decreases |pieces|
  {
    if pieces == [] then ""
    else if |pieces| == 1 then pieces[0]
    else pieces[0] + sep + JoinWith(pieces[1..], sep)
  }

  /** Splitting on a character and joining with it gives the string back. */
  lemma {:induction false} SplitJoin(s: string, sep: char)
    ensures JoinWith(Split(s, sep), [sep]) == s
    decreases |s|
  {
    if s != [] {
      var rest := Split(s[1..], sep);
      SplitJoin(s[1..], sep);
      if s[0] == sep {
        assert Split(s, sep) == [""] + rest;
        assert JoinWith([""] + rest, [sep]) == "" + [sep] + JoinWith(rest, [sep]);
        assert s == [s[0]] + s[1..];
      } else {
        var r := Split(s, sep);
        assert r == [[s[0]] + rest[0]] + rest[1..];
        if |rest| == 1 {
          assert JoinWith(r, [sep]) == [s[0]] + rest[0];
        } else {
          assert r[1..] == rest[1..];
          assert JoinWith(rest, [sep]) == rest[0] + [sep] + JoinWith(rest[1..], [sep]);
        }
        assert s == [s[0]] + s[1..];
      }
    }
  }

  /** A string without the separator splits into itself alone. */
  lemma {:induction false} SplitWithoutSeparator(s: string, sep: char)
    requires sep !in s
    ensures Split(s, sep) == [s]
    decreases |s|
  {
    if s != [] {
      SplitWithoutSeparator(s[1..], sep);
      assert [s[0]] + s[1..] == s;
    }
  }

  /** `s.replace(new RegExp(pat, 'g'), rep)` for a pattern that matches itself literally. */
  function ReplaceAll(s: string, pat: string, rep: string): string
    requires pat != ""
    decreases |s|
  {
    if |s| < |pat| then s
    else if s[..|pat|] == pat then rep + ReplaceAll(s[|pat|..], pat, rep)
    else [s[0]] + ReplaceAll(s[1..], pat, rep)
  }

  /** Replacing a pattern that does not occur is the identity. */
  lemma {:induction false} ReplaceAbsent(s: string, pat: string, rep: string)
    requires pat != ""
    requires !Contains(s, pat)
    ensures ReplaceAll(s, pat, rep) == s
    decreases |s|
  {
    if |s| >= |pat| {
      assert !IsPrefix(pat, s);
      ReplaceAbsent(s[1..], pat, rep);
      assert [s[0]] + s[1..] == s;
    }
  }

  /**
   * Left-to-right replacement: text before the first occurrence is kept, the
   * occurrence becomes `rep`, and replacement continues after it.
   */
  lemma {:induction false} ReplaceFirst(u: string, pat: string, w: string, rep: string)
    requires pat != ""
    requires pat[0] !in u
    ensures ReplaceAll(u + pat + w, pat, rep) == u + rep + ReplaceAll(w, pat, rep)
    decreases |u|
  {
    var s := u + pat + w;
    if u == [] {
      assert s == pat + w;
      assert s[..|pat|] == pat;
      assert s[|pat|..] == w;
    } else {
      assert s[0] == u[0];
      assert s[..|pat|][0] != pat[0];
      assert s[1..] == u[1..] + pat + w;
      assert pat[0] !in u[1..] by {
        assert u == [u[0]] + u[1..];
      }
      ReplaceFirst(u[1..], pat, w, rep);
      calc {
        ReplaceAll(s, pat, rep);
        [s[0]] + ReplaceAll(s[1..], pat, rep);
        [u[0]] + (u[1..] + rep + ReplaceAll(w, pat, rep));
        { assert [u[0]] + u[1..] == u; }
        u + rep + ReplaceAll(w, pat, rep);
      }
    }
  }
}
