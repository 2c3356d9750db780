/**
 * Small pure helpers (lib/helpers.ts): avatar initials and the media-URL
 * classifiers. `initials` is modelled twice: as written, where the slice to
 * two characters comes before upper-casing, and corrected, upper-casing first.
 */
module Helpers {
  import opened Wrappers
  import opened Text

  /** `s.slice(0, n)`. */
  function Take<T>(s: seq<T>, n: nat): (r: seq<T>)
    ensures |r| <= n && |r| <= |s|
    ensures r == s[..|r|]
    ensures |s| <= n ==> r == s
  {
    if |s| <= n then s else s[..n]
  }

  /** `pieces.map(s => s[0]).join("")`: the first character of every non-empty piece, in order. */
  function Firsts(pieces: seq<string>): (r: string)
    ensures |r| <= |pieces|
    ensures (forall i :: 0 <= i < |pieces| ==> pieces[i] != "") ==> |r| == |pieces|
    decreases |pieces|
  {
    if pieces == [] then ""
    else (if pieces[0] == "" then "" else [pieces[0][0]]) + Firsts(pieces[1..])
  }

  /** The words `initials` looks at: the name, or "??" when it is absent or empty, split on single spaces. */
  function Words(name: Option<string>): (r: seq<string>)
    ensures |r| >= 1
  {
    Split(OrElse(name, "??"), ' ')
  }

  /** `initials(name)` as written: two characters are kept, then upper-cased. */
  function InitialsAsWritten(name: Option<string>): (r: string)
    ensures |r| >= |Take(Firsts(Words(name)), 2)|
  {
    Upper(Take(Firsts(Words(name)), 2))
  }

  /** Upper-casing "ß" yields "SS", so the as-written helper returns four characters for "ß ß". */
  lemma InitialsAsWrittenTooLong()
    ensures InitialsAsWritten(Some("ß ß")) == "SSSS"
    ensures |InitialsAsWritten(Some("ß ß"))| > 2
  {
    SplitAtFirst("ß", ' ', "ß");
    SplitWithoutSeparator("ß", ' ');
    assert Words(Some("ß ß")) == ["ß", "ß"];
    assert Firsts(["ß", "ß"]) == "ßß";
    assert Upper("ßß") == "SS" + Upper("ß");
  }

  /** `initials(name)` with the length bound it is meant to keep: upper-case, then keep two characters. */
  function Initials(name: Option<string>): (r: string)
    ensures |r| <= 2
    ensures IsPrefix(r, Upper(Firsts(Words(name))))
  {
    Take(Upper(Firsts(Words(name))), 2)
  }

  /** Where the first two initials have no 'ß', the two definitions agree. */
  lemma {:induction false} InitialsAgree(name: Option<string>)
    requires 'ß' !in Take(Firsts(Words(name)), 2)
    ensures InitialsAsWritten(name) == Initials(name)
  {
    var f := Firsts(Words(name));
    var t := Take(f, 2);
    UpperKeepsLength(t);
    UpperPrefix(t, f[|t|..]);
    assert t + f[|t|..] == f;
  }

  /** Upper-casing distributes over concatenation. */
  lemma {:induction false} UpperPrefix(a: string, b: string)
    ensures Upper(a + b) == Upper(a) + Upper(b)
    decreases |a|
  {
    if a != [] {
      assert (a + b)[1..] == a[1..] + b;
      UpperPrefix(a[1..], b);
    } else {
      assert a + b == b;
    }
  }

  /** An absent or empty name has the single initial "?", since "??" is one word. */
  lemma InitialsOfNoName()
    ensures Initials(None) == "?"
    ensures Initials(Some("")) == "?"
    ensures InitialsAsWritten(None) == "?"
  {
    SplitWithoutSeparator("??", ' ');
    assert Firsts(["??"]) == "?";
    assert Upper("?") == "?" + Upper("");
  }

  /** Two space-separated words give their upper-cased first letters: "Myo Min" gives "MM". */
  lemma InitialsOfTwoWords(a: string, b: string)
    requires a != "" && b != "" && ' ' !in a && ' ' !in b
    requires a[0] != 'ß' && b[0] != 'ß'
    ensures Initials(Some(a + " " + b)) == [UpperChar(a[0]), UpperChar(b[0])]
  {
    SplitAtFirst(a, ' ', b);
    SplitWithoutSeparator(b, ' ');
    assert Words(Some(a + " " + b)) == [a, b];
    assert Firsts([a, b]) == [a[0], b[0]];
    assert Upper([a[0], b[0]]) == [UpperChar(a[0])] + Upper([b[0]]);
  }

  /** Lower-casing distributes over concatenation. */
  lemma LowerConcat(a: string, b: string)
    ensures Lower(a + b) == Lower(a) + Lower(b)
  {
  }

  const VideoPrefix: string := "data:video/"
  const ImagePrefix: string := "data:image/"
  const VideoExtensions: seq<string> := [".mp4", ".webm", ".ogg"]
  const ImageExtensions: seq<string> := [".png", ".jpg", ".jpeg", ".gif", ".webp", ".avif"]

  /** Some extension of the list ends the (lower-cased) URL. */
  predicate EndsWithAny(u: string, exts: seq<string>) {
    exists i :: 0 <= i < |exts| && IsSuffix(exts[i], u)
  }

  /** `isVideoUrl(url)`: the case-insensitive regular expressions as prefix and suffix tests. */
  predicate IsVideoUrl(url: Option<string>)
    ensures url == None || url == Some("") ==> !IsVideoUrl(url)
  {
    Truthy(url) && (IsPrefix(VideoPrefix, Lower(url.value)) || EndsWithAny(Lower(url.value), VideoExtensions))
  }

  /** `isImageUrl(url)`. */
  predicate IsImageUrl(url: Option<string>)
    ensures url == None || url == Some("") ==> !IsImageUrl(url)
  {
    Truthy(url) && (IsPrefix(ImagePrefix, Lower(url.value)) || EndsWithAny(Lower(url.value), ImageExtensions))
  }

  /** Any URL ending in a video extension, in any letter case, is a video. */
  lemma VideoByExtension(u: string, ext: string, i: nat)
    requires i < |VideoExtensions| && Lower(ext) == VideoExtensions[i]
    ensures IsVideoUrl(Some(u + ext))
  {
    LowerConcat(u, ext);
    var l := Lower(u + ext);
    assert l[|l| - |ext|..] == Lower(ext);
  }

  /** Any URL ending in an image extension, in any letter case, is an image. */
  lemma ImageByExtension(u: string, ext: string, i: nat)
    requires i < |ImageExtensions| && Lower(ext) == ImageExtensions[i]
    ensures IsImageUrl(Some(u + ext))
  {
    LowerConcat(u, ext);
    var l := Lower(u + ext);
    assert l[|l| - |ext|..] == Lower(ext);
  }

  /** Data URLs are classified by their media type, in any letter case. */
  lemma ByDataPrefix(p: string, rest: string)
    ensures Lower(p) == VideoPrefix ==> IsVideoUrl(Some(p + rest))
    ensures Lower(p) == ImagePrefix ==> IsImageUrl(Some(p + rest))
  {
    LowerConcat(p, rest);
    var l := Lower(p + rest);
    assert l[..|p|] == Lower(p);
  }

  /** A data URL of type video that ends in ".png" is both a video and an image. */
  lemma VideoAndImageOverlap()
    ensures IsVideoUrl(Some("data:video/a.png")) && IsImageUrl(Some("data:video/a.png"))
  {
    ByDataPrefix("data:video/", "a.png");
    ImageByExtension("data:video/a", ".png", 0);
    assert "data:video/a" + ".png" == "data:video/a.png";
    assert "data:video/" + "a.png" == "data:video/a.png";
  }
}
