/**
 * The post form (components/CreatePost.tsx): which fields a submission
 * needs, the title and payload handed to `onCreate`, what the form holds
 * afterwards, and the media list with its cap of ten items. File reading is
 * abstract: a selection is the list of data URLs the reads produced, with
 * `""` for a read that failed.
 */
module CreatePostForm {
  import opened Wrappers
  import opened Text
  import opened Types
  import Helpers
  import Optimistic

  const MaxMedia: nat := 10
  const BusinessTitleMax: nat := 120

  /** The form's fields. */
  datatype Form = Form(title: string, body: string, media: seq<string>)

  /** The argument of `onCreate`. */
  datatype Submission = Submission(title: string, body: string, media: Option<seq<string>>)

  /** What a press of the send button leaves behind. */
  datatype Submitted = Submitted(form: Form, error: Option<string>, call: Option<Submission>, toast: string)

  /** `s.split(/\n+/)[0]`: the text before the first line break. */
  function FirstLine(s: string): string {
    Before(s, '\n')
  }

  /** The message shown when required fields are missing, if any are. */
  function MissingField(isBusiness: bool, f: Form): (r: Option<string>)
    ensures isBusiness ==> (r.Some? <==> Blank(f.body))
    ensures !isBusiness ==> (r.Some? <==> Blank(f.title) || Blank(f.body))
    ensures isBusiness && r.Some? ==> r.value == "Description is required."
    ensures !isBusiness && Blank(f.title) ==> r == Some("Title is required.")
    ensures !isBusiness && !Blank(f.title) && Blank(f.body) ==> r == Some("Body is required.")
  {
    TrimEmptyIffBlank(f.title);
    TrimEmptyIffBlank(f.body);
    if isBusiness then (if Trim(f.body) == "" then Some("Description is required.") else None)
    else if Trim(f.title) == "" then Some("Title is required.")
    else if Trim(f.body) == "" then Some("Body is required.")
    else None
  }

  /** `computedTitle`: a business post is titled by its description's first line, others by their title. */
  function ComputedTitle(isBusiness: bool, f: Form): string {
    if isBusiness then Or(Helpers.Take(FirstLine(Trim(f.body)), BusinessTitleMax), "Post")
    else Trim(f.title)
  }

  /** `handleSubmit` for a profile of type `profileType`, where `onCreate` ends as `created`. */
  function Submit(profileType: string, f: Form, created: Optimistic.Behaviour): (r: Submitted)
    ensures r.call.None? <==> MissingField(profileType == "business", f).Some?
    ensures r.call.None? ==>
      (r.form == f && r.error == MissingField(profileType == "business", f)
       && r.toast == "Please fill required fields")
    ensures r.call.Some? ==>
      (r.error.None?
       && r.call.value.body == Trim(f.body)
       && r.call.value.title == ComputedTitle(profileType == "business", f)
       && (r.call.value.media.Some? <==> f.media != [])
       && (f.media != [] ==> r.call.value.media.value == f.media))
    ensures r.call.Some? && created == Optimistic.Returns ==> r.form == Form("", "", []) && r.toast == "Post created"
    ensures r.call.Some? && created == Optimistic.Throws ==> r.form == f && r.toast == "Failed to create post"
  {
    var isBusiness := profileType == "business";
    match MissingField(isBusiness, f)
    case Some(e) => Submitted(f, Some(e), None, "Please fill required fields")
    case None =>
      var call := Submission(ComputedTitle(isBusiness, f), Trim(f.body), if f.media != [] then Some(f.media) else None);
      if created == Optimistic.Returns then Submitted(Form("", "", []), None, Some(call), "Post created")
      else Submitted(f, None, Some(call), "Failed to create post")
  }

  /**
   * A business post's title is the start of the trimmed description's first
   * line: never empty, at most 120 characters, without line breaks. So the
   * `'Post'` fallback can never be taken once the description is required.
   */
  lemma BusinessTitle(f: Form)
    requires !Blank(f.body)
    ensures var t := ComputedTitle(true, f);
      t != "" && |t| <= BusinessTitleMax && '\n' !in t && IsPrefix(t, Trim(f.body))
    ensures ComputedTitle(true, f) == Helpers.Take(FirstLine(Trim(f.body)), BusinessTitleMax)
  {
    var b := Trim(f.body);
    TrimEmptyIffBlank(f.body);
    assert b != [] && !IsSpace(b[0]);
    SplitHead(b, '\n');
    var line := FirstLine(b);
    assert line != [];
    var t := Helpers.Take(line, BusinessTitleMax);
    assert t != [] by {
      assert |t| == |line| || |t| == BusinessTitleMax;
    }
    assert forall i :: 0 <= i < |t| ==> t[i] == line[i];
    assert forall i :: 0 <= i < |line| ==> line[i] == b[i];
  }

  /** Every submission that reaches `onCreate` has a non-empty title and body. */
  lemma SubmissionNonEmpty(profileType: string, f: Form, created: Optimistic.Behaviour)
    ensures var r := Submit(profileType, f, created);
      r.call.Some? ==> r.call.value.title != "" && r.call.value.body != ""
  {
    TrimEmptyIffBlank(f.title);
    TrimEmptyIffBlank(f.body);
    if profileType == "business" && !Blank(f.body) {
      BusinessTitle(f);
    }
  }

  // ------------------------------------------------------------------ media

  /** `xs.filter(Boolean)`: the reads that succeeded. */
  function Succeeded(xs: seq<string>): (r: seq<string>)
    ensures forall s :: s in r <==> s in xs && s != ""
    ensures |r| <= |xs|
  {
    WithoutMembers(xs, (s: string) => s == "");
    Without(xs, (s: string) => s == "")
  }

  /** The file-input handler: read at most the remaining slots' worth, drop failed reads, cap at ten. */
  function AddMedia(current: seq<string>, loaded: seq<string>): (r: seq<string>)
    ensures |current| <= MaxMedia ==> |r| <= MaxMedia
    ensures |r| >= |current| && r[..|current|] == current
    ensures forall i :: |current| <= i < |r| ==> r[i] != "" && r[i] in loaded
    ensures loaded == [] || |current| >= MaxMedia ==> r == current
    ensures |current| < MaxMedia ==>
      r == current + Succeeded(loaded[..if |loaded| < MaxMedia - |current| then |loaded| else MaxMedia - |current|])
  {
    if loaded == [] then current
    else
      var remaining: int := MaxMedia as int - |current|;
      if remaining <= 0 then current
      else
        var limited := loaded[..if |loaded| < remaining then |loaded| else remaining];
        var added := Succeeded(limited);
        var all := current + added;
        assert |all| <= MaxMedia;
        assert forall i :: |current| <= i < |all| ==> all[i] == added[i - |current|];
        Helpers.Take(all, MaxMedia)
  }

  /** `list.filter((_, idx) => idx !== i)`, walking the list with its indices from `from`. */
  function DropIndex(list: seq<string>, i: int, from: int): (r: seq<string>)
    decreases |list|
  {
    if list == [] then []
    else (if from == i then [] else [list[0]]) + DropIndex(list[1..], i, from + 1)
  }

  /** Removing the media at `i`. */
  function RemoveMedia(list: seq<string>, i: int): seq<string> {
    DropIndex(list, i, 0)
  }

  lemma {:induction false} DropIndexOutside(list: seq<string>, i: int, from: int)
    requires i < from || i >= from + |list|
    ensures DropIndex(list, i, from) == list
    decreases |list|
  {
    if list != [] {
      DropIndexOutside(list[1..], i, from + 1);
      assert list == [list[0]] + list[1..];
    }
  }

  lemma {:induction false} DropIndexAt(list: seq<string>, i: int, from: int)
    requires from <= i < from + |list|
    ensures DropIndex(list, i, from) == list[..i - from] + list[i - from + 1..]
    decreases |list|
  {
    if from == i {
      DropIndexOutside(list[1..], i, from + 1);
    } else {
      DropIndexAt(list[1..], i, from + 1);
      assert list[..i - from] == [list[0]] + list[1..][..i - from - 1];
      assert list[i - from + 1..] == list[1..][i - from..];
    }
  }

  /** Removing at a valid index drops exactly that item and keeps the rest in order; any other index changes nothing. */
  lemma RemoveMediaSpec(list: seq<string>, i: int)
    ensures 0 <= i < |list| ==> RemoveMedia(list, i) == list[..i] + list[i + 1..]
    ensures 0 <= i < |list| ==> |RemoveMedia(list, i)| == |list| - 1
    ensures !(0 <= i < |list|) ==> RemoveMedia(list, i) == list
  {
    if 0 <= i < |list| {
      DropIndexAt(list, i, 0);
    } else {
      DropIndexOutside(list, i, 0);
    }
  }
}
