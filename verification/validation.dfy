/**
 * Client-side validation and banned-word moderation (lib/validation.ts).
 * Every validator checks minimums on the trimmed text and maxima on the raw
 * length, emitting at most one error per field.
 */
module Validation {
  import opened Wrappers
  import opened Text
  import opened Types

  datatype ValidationResult = ValidationResult(ok: bool, errors: seq<string>)

  const PostTitleMax: nat := 120
  const PostBodyMax: nat := 4000
  const QuestionTitleMax: nat := 120
  const QuestionDetailsMax: nat := 5000
  const QuestionTitleMin: nat := 3
  const CommentTextMax: nat := 1000
  const AnswerTextMax: nat := 4000

  /** `limit(str, max)`: present, non-empty and at most `max` characters. */
  predicate WithinLimit(s: string, max: nat) {
    s != "" && |s| <= max
  }

  /** `min(str, n)`: present, non-empty, and at least `n` characters once trimmed. */
  predicate AtLeast(s: string, n: nat) {
    s != "" && |Trim(s)| >= n
  }

  /** A minimum of one trimmed character is exactly "not blank". */
  lemma AtLeastOneIffNotBlank(s: string)
    ensures AtLeast(s, 1) <==> !Blank(s)
  {
    TrimEmptyIffBlank(s);
  }

  /**
   * The one-field rule every validator applies: the "required" message when
   * the minimum fails, else the "too long" message when the maximum fails,
   * else nothing.
   */
  function FieldErrors(s: string, minLen: nat, max: nat, required: string, tooLong: string): (r: seq<string>)
    requires minLen >= 1
    ensures |r| <= 1
    ensures r == [] <==> |Trim(s)| >= minLen && |s| <= max
    ensures !AtLeast(s, minLen) ==> r == [required]
    ensures AtLeast(s, minLen) && |s| > max ==> r == [tooLong]
  {
    if !AtLeast(s, minLen) then [required]
    else if !WithinLimit(s, max) then [tooLong]
    else []
  }

  function Result(errors: seq<string>): (r: ValidationResult)
    ensures r.ok <==> r.errors == []
    ensures r.errors == errors
  {
    ValidationResult(|errors| == 0, errors)
  }

  function ValidatePost(title: string, body: string): (r: ValidationResult)
    ensures r.ok <==> r.errors == []
    ensures r.ok <==> !Blank(title) && |title| <= PostTitleMax && !Blank(body) && |body| <= PostBodyMax
    ensures |r.errors| <= 2
    ensures Blank(title) ==> r.errors[0] == "Title is required"
    ensures !Blank(title) && |title| > PostTitleMax ==> r.errors[0] == "Title too long (> 120 chars)"
    ensures Blank(body) ==> r.errors[|r.errors| - 1] == "Body is required"
    ensures !Blank(body) && |body| > PostBodyMax ==> r.errors[|r.errors| - 1] == "Body too long (> 4000 chars)"
  {
    AtLeastOneIffNotBlank(title);
    AtLeastOneIffNotBlank(body);
    TrimEmptyIffBlank(title);
    TrimEmptyIffBlank(body);
    Result(FieldErrors(title, 1, PostTitleMax, "Title is required", "Title too long (> 120 chars)")
           + FieldErrors(body, 1, PostBodyMax, "Body is required", "Body too long (> 4000 chars)"))
  }

  function ValidateQuestion(title: string, details: Option<string>): (r: ValidationResult)
    ensures r.ok <==> r.errors == []
    ensures r.ok <==> |Trim(title)| >= QuestionTitleMin && |title| <= QuestionTitleMax
                      && (Truthy(details) ==> |details.value| <= QuestionDetailsMax)
    ensures |r.errors| <= 2
    ensures |Trim(title)| < QuestionTitleMin ==> r.errors[0] == "Title must be at least 3 chars"
    ensures !Truthy(details) ==> |r.errors| <= 1
  {
    var detailErrors :=
      if Truthy(details) && !WithinLimit(details.value, QuestionDetailsMax)
      then ["Details too long (> 5000 chars)"] else [];
    Result(FieldErrors(title, QuestionTitleMin, QuestionTitleMax,
                       "Title must be at least 3 chars", "Title too long (> 120 chars)")
           + detailErrors)
  }

  function ValidateComment(text: string): (r: ValidationResult)
    ensures r.ok <==> r.errors == []
    ensures r.ok <==> !Blank(text) && |text| <= CommentTextMax
    ensures |r.errors| <= 1
    ensures Blank(text) ==> r.errors == ["Comment text required"]
  {
    AtLeastOneIffNotBlank(text);
    TrimEmptyIffBlank(text);
    Result(FieldErrors(text, 1, CommentTextMax, "Comment text required", "Comment too long (> 1000 chars)"))
  }

  function ValidateAnswer(text: string): (r: ValidationResult)
    ensures r.ok <==> r.errors == []
    ensures r.ok <==> !Blank(text) && |text| <= AnswerTextMax
    ensures |r.errors| <= 1
    ensures Blank(text) ==> r.errors == ["Answer text required"]
  {
    AtLeastOneIffNotBlank(text);
    TrimEmptyIffBlank(text);
    Result(FieldErrors(text, 1, AnswerTextMax, "Answer text required", "Answer too long (> 4000 chars)"))
  }

  /** `firstError`: the first message, absent when there is none. */
  function FirstError(v: ValidationResult): (r: Option<string>)
    ensures r.None? <==> v.errors == []
    ensures r.Some? ==> r.value == v.errors[0] && r.value in v.errors
  {
    if v.errors == [] then None else Some(v.errors[0])
  }

  /** A failing validator always has a first error to show. */
  lemma FailureHasFirstError(title: string, body: string)
    ensures !ValidatePost(title, body).ok ==> FirstError(ValidatePost(title, body)).Some?
  {
  }

  /** The boundary: exactly 120 characters passes, 121 fails. */
  lemma PostTitleBoundary(title: string, body: string)
    requires !Blank(title) && !Blank(body) && |body| <= PostBodyMax
    ensures |title| == 120 ==> ValidatePost(title, body).ok
    ensures |title| == 121 ==> !ValidatePost(title, body).ok
  {
  }

  /** The banned-token list, in the order its reasons are reported. */
  const BannedWords: seq<string> := ["badword", "offensive"]

  const BannedPrefix: string := "Contains banned word: "

  datatype ModerationResult = ModerationResult(flagged: bool, reasons: seq<string>)

  /** The words of `words` that `lower` contains, in list order. */
  function Hits(lower: string, words: seq<string>): (r: seq<string>)
    ensures |r| <= |words|
    ensures forall w :: w in r <==> w in words && Contains(lower, w)
    decreases |words|
  {
    if words == [] then []
    else (if Contains(lower, words[0]) then [words[0]] else []) + Hits(lower, words[1..])
  }

  function Reasons(hits: seq<string>): (r: seq<string>)
    ensures |r| == |hits|
    ensures forall i :: 0 <= i < |hits| ==> r[i] == BannedPrefix + hits[i]
  {
    seq(|hits|, i requires 0 <= i < |hits| => BannedPrefix + hits[i])
  }

  /** `moderateText`: flag the text when its lower-case form contains a banned word. */
  function ModerateText(text: Option<string>): (r: ModerationResult)
    ensures !Truthy(text) ==> r == ModerationResult(false, [])
    ensures r.flagged <==> r.reasons != []
  {
    if !Truthy(text) then ModerationResult(false, [])
    else
      var hits := Hits(Lower(text.value), BannedWords);
      if hits != [] then ModerationResult(true, Reasons(hits)) else ModerationResult(false, [])
  }

  /**
   * Reference statement of moderation in terms of the two banned words: one
   * reason per word found, "badword" before "offensive".
   */
  lemma ModerateTextSpec(s: string)
    requires s != ""
    ensures var l := Lower(s);
      && (ModerateText(Some(s)).flagged <==> Contains(l, "badword") || Contains(l, "offensive"))
      && ModerateText(Some(s)).reasons
         == (if Contains(l, "badword") then [BannedPrefix + "badword"] else [])
            + (if Contains(l, "offensive") then [BannedPrefix + "offensive"] else [])
  {
    var l := Lower(s);
    assert BannedWords[1..] == ["offensive"];
    assert BannedWords[1..][1..] == [];
    var h := Hits(l, BannedWords);
    assert h == (if Contains(l, "badword") then ["badword"] else [])
                + (if Contains(l, "offensive") then ["offensive"] else []);
  }

  /** Matching ignores ASCII case: "BADWORD" is flagged like "badword". */
  lemma ModerationIgnoresCase()
    ensures ModerateText(Some("This has BADWORD in it")).flagged
  {
    var s := "This has BADWORD in it";
    var l := Lower(s);
    assert l[9..16] == "badword";
    ContainsAt(l, "badword", 9);
    ModerateTextSpec(s);
  }

  /** The text `attachModeration` inspects: the first truthy of body, text, title, else "". */
  function Inspected(body: Option<string>, text: Option<string>, title: Option<string>): (r: string)
    ensures Truthy(body) ==> r == body.value
    ensures !Truthy(body) && Truthy(text) ==> r == text.value
    ensures !Truthy(body) && !Truthy(text) && Truthy(title) ==> r == title.value
    ensures !Truthy(body) && !Truthy(text) && !Truthy(title) ==> r == ""
  {
    OrElse(body, OrElse(text, OrElse(title, "")))
  }

  /** `attachModeration` on a post: its body is inspected, or its title when the body is empty. */
  function ModeratePost(p: Post): (r: Post)
    ensures var m := ModerateText(Some(Inspected(Some(p.body), None, Some(p.title))));
      && (m.flagged ==> r.flagged && r.moderationReasons == m.reasons)
      && (!m.flagged ==> r == p)
    ensures r.(flagged := p.flagged, moderationReasons := p.moderationReasons) == p
  {
    var m := ModerateText(Some(Inspected(Some(p.body), None, Some(p.title))));
    if m.flagged then p.(flagged := true, moderationReasons := m.reasons) else p
  }

  /** `attachModeration` on a comment: its text is inspected. */
  function ModerateComment(c: Comment): (r: Comment)
    ensures var m := ModerateText(Some(c.text));
      && (m.flagged ==> r.flagged && r.moderationReasons == m.reasons)
      && (!m.flagged ==> r == c)
    ensures r.(flagged := c.flagged, moderationReasons := c.moderationReasons) == c
  {
    var m := ModerateText(Some(Inspected(None, Some(c.text), None)));
    if m.flagged then c.(flagged := true, moderationReasons := m.reasons) else c
  }

  /** `attachModeration` on a question: only its title is inspected (details are not). */
  function ModerateQuestion(q: Question): (r: Question)
    ensures var m := ModerateText(Some(q.title));
      && (m.flagged ==> r.flagged && r.moderationReasons == m.reasons)
      && (!m.flagged ==> r == q)
    ensures r.(flagged := q.flagged, moderationReasons := q.moderationReasons) == q
  {
    var m := ModerateText(Some(Inspected(None, None, Some(q.title))));
    if m.flagged then q.(flagged := true, moderationReasons := m.reasons) else q
  }

  /** `attachModeration` on an answer: its text is inspected. */
  function ModerateAnswer(a: Answer): (r: Answer)
    ensures var m := ModerateText(Some(a.text));
      && (m.flagged ==> r.flagged && r.moderationReasons == m.reasons)
      && (!m.flagged ==> r == a)
    ensures r.(flagged := a.flagged, moderationReasons := a.moderationReasons) == a
  {
    var m := ModerateText(Some(Inspected(None, Some(a.text), None)));
    if m.flagged then a.(flagged := true, moderationReasons := m.reasons) else a
  }

  /** Moderating twice is moderating once. */
  lemma ModerationIdempotent(p: Post, c: Comment, q: Question, a: Answer)
    ensures ModeratePost(ModeratePost(p)) == ModeratePost(p)
    ensures ModerateComment(ModerateComment(c)) == ModerateComment(c)
    ensures ModerateQuestion(ModerateQuestion(q)) == ModerateQuestion(q)
    ensures ModerateAnswer(ModerateAnswer(a)) == ModerateAnswer(a)
  {
  }
}
