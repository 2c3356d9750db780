/**
 * The derivations of the application shell (app/BurmaTown.tsx): the mapping
 * between route paths and tabs, the resolution of a creator from an email,
 * the de-duplicated and searchable business directory, and the list of the
 * signed-in user's followers. Rendering and navigation side effects are not
 * modelled; each derivation is a function of the state it reads.
 */
module App {
  import opened Wrappers
  import opened Text
  import opened Types
  import opened Storage

  // ---------------------------------------------------------------- routing

  datatype Tab = FeedTab | QaTab | BizTab | ProfileTab | CreatorTab

  /** The segment naming a tab in a path. */
  function TabName(t: Tab): string {
    match t
    case FeedTab => "feed"
    case QaTab => "qa"
    case BizTab => "biz"
    case ProfileTab => "profile"
    case CreatorTab => "creator"
  }

  /** The tab a first path segment selects; anything unrecognised is the feed. */
  function TabOf(seg: string): (t: Tab)
    ensures t != FeedTab <==> seg in ["qa", "biz", "profile", "creator"]
    ensures t != FeedTab ==> TabName(t) == seg
  {
    if seg == "qa" then QaTab
    else if seg == "biz" then BizTab
    else if seg == "profile" then ProfileTab
    else if seg == "creator" then CreatorTab
    else FeedTab
  }

  /** `s.replace(/\/+$/, "")`. */
  function StripTrailingSlashes(s: string): (r: string)
    ensures |r| <= |s| && r == s[..|r|]
    ensures r == [] || r[|r| - 1] != '/'
    ensures forall i :: |r| <= i < |s| ==> s[i] == '/'
    decreases |s|
  {
    if s != [] && s[|s| - 1] == '/' then StripTrailingSlashes(s[..|s| - 1]) else s
  }

  /** `pathToTab(path)`: the first segment of the path with its trailing slashes removed. */
  function PathToTab(path: Option<string>): Tab {
    var parts := Split(StripTrailingSlashes(OrElse(path, "/")), '/');
    var seg := if |parts| > 1 then Or(parts[1], "feed") else "feed";
    TabOf(seg)
  }

  /** The path `goTab` navigates to. */
  function GoTabPath(t: Tab): (p: string)
    ensures p != [] && p[0] == '/'
  {
    if t == FeedTab then "/" else "/" + TabName(t)
  }

  /** A path made only of slashes, the empty path and no path at all select the feed. */
  lemma SlashesOnlyIsFeed(p: string)
    requires forall i :: 0 <= i < |p| ==> p[i] == '/'
    ensures PathToTab(Some(p)) == FeedTab
    ensures PathToTab(None) == FeedTab
  {
    assert StripTrailingSlashes("/") == "";
    var q := OrElse(Some(p), "/");
    assert StripTrailingSlashes(q) == [];
  }

  /**
   * The first segment alone decides the tab: `/seg`, `/seg/`, and `/seg/rest`
   * for any rest all select `TabOf(seg)`.
   */
  lemma FirstSegmentDecides(seg: string, rest: string)
    requires seg != [] && '/' !in seg
    ensures PathToTab(Some("/" + seg)) == TabOf(seg)
    ensures PathToTab(Some("/" + seg + "/" + rest)) == TabOf(seg)
  {
    FirstSegmentOf(seg, "");
    assert "/" + seg + "" == "/" + seg;
    FirstSegmentOf(seg, "/" + rest);
    assert "/" + seg + ("/" + rest) == "/" + seg + "/" + rest;
  }

  /** Stripping trailing slashes from `"/" + seg + tail` keeps the segment and leaves a slash-led tail. */
  lemma StripKeepsSegment(seg: string, tail: string) returns (w: string)
    requires seg != [] && '/' !in seg
    requires tail == [] || tail[0] == '/'
    ensures StripTrailingSlashes("/" + seg + tail) == "/" + seg + w
    ensures w == [] || w[0] == '/'
  {
    var s := "/" + seg + tail;
    var r := StripTrailingSlashes(s);
    assert s[|seg|] == seg[|seg| - 1];
    assert |r| > |seg|;
    w := r[|seg| + 1..];
    assert r[..|seg| + 1] == s[..|seg| + 1] == "/" + seg;
    assert r == r[..|seg| + 1] + w;
    if w != [] {
      assert w[0] == s[|seg| + 1] == tail[0];
    }
  }

  /** The first piece of `seg + w` split at slashes is `seg` when `w` starts a new segment. */
  lemma FirstPiece(seg: string, w: string)
    requires '/' !in seg
    requires w == [] || w[0] == '/'
    ensures Split(seg + w, '/')[0] == seg
  {
    if w == [] {
      assert seg + w == seg;
      SplitWithoutSeparator(seg, '/');
    } else {
      assert seg + w == seg + ['/'] + w[1..];
      SplitAtFirst(seg, '/', w[1..]);
    }
  }

  /** The second piece of `"/" + seg + w` split at slashes is `seg` when `w` starts a new segment. */
  lemma SecondPiece(seg: string, w: string)
    requires '/' !in seg
    requires w == [] || w[0] == '/'
    ensures |Split("/" + seg + w, '/')| > 1 && Split("/" + seg + w, '/')[1] == seg
  {
    var t := seg + w;
    var empty: string := [];
    assert "/" + seg + w == empty + ['/'] + t;
    SplitAtFirst(empty, '/', t);
    FirstPiece(seg, w);
  }

  /** The segment of `"/" + seg + tail`, where `tail` is empty or starts a new segment. */
  lemma FirstSegmentOf(seg: string, tail: string)
    requires seg != [] && '/' !in seg
    requires tail == [] || tail[0] == '/'
    ensures PathToTab(Some("/" + seg + tail)) == TabOf(seg)
  {
    var w := StripKeepsSegment(seg, tail);
    SecondPiece(seg, w);
  }

  /** Trailing slashes never change the tab. */
  lemma TrailingSlashIgnored(p: string)
    ensures PathToTab(Some(p + "/")) == PathToTab(Some(p))
  {
    assert (p + "/")[..|p + "/"| - 1] == p;
    if p == [] {
      assert StripTrailingSlashes("/") == "";
    }
  }

  /** The path `goTab` builds for a tab leads back to that tab. */
  lemma GoTabRoundTrip(t: Tab)
    ensures PathToTab(Some(GoTabPath(t))) == t
  {
    if t == FeedTab {
      SlashesOnlyIsFeed("/");
    } else {
      FirstSegmentDecides(TabName(t), "");
    }
  }

  // ------------------------------------------------------- creator resolver

  /** The creator shown on a creator page. */
  datatype Creator = Creator(name: string, email: string, avatar: Option<string>)

  /** `xs.findIndex(pick)`, absent as `None`. */
  function FindFirst<T>(xs: seq<T>, pick: T -> bool): (r: Option<nat>)
    ensures r.Some? ==> r.value < |xs| && pick(xs[r.value])
    ensures r.Some? ==> forall j :: 0 <= j < r.value ==> !pick(xs[j])
    ensures r.None? ==> forall j :: 0 <= j < |xs| ==> !pick(xs[j])
    decreases |xs|
  {
    if xs == [] then None
    else if pick(xs[0]) then Some(0)
    else match FindFirst(xs[1..], pick)
      case None => None
      case Some(i) => Some(i + 1)
  }

  /** `email.split('@')[0]`. */
  function LocalPart(email: string): string {
    Before(email, '@')
  }

  /** The local part is what precedes the first '@', or the whole address without one. */
  lemma LocalPartOf(user: string, domain: string)
    requires '@' !in user
    ensures LocalPart(user + "@" + domain) == user
    ensures '@' !in domain ==> LocalPart(user + domain) == user + domain
  {
    SplitAtFirst(user, '@', domain);
    if '@' !in domain {
      SplitWithoutSeparator(user + domain, '@');
    }
  }

  /** `useCreatorResolver(email, posts, questions)`. */
  function ResolveCreator(email: Option<string>, posts: seq<Post>, questions: seq<Question>): (r: Option<Creator>)
    ensures r.None? <==> !Truthy(email)
    ensures r.Some? ==> r.value.email == email.value
    ensures Truthy(email) ==>
      forall i :: (0 <= i < |posts| && posts[i].authorEmail == email.value
                   && forall j :: 0 <= j < i ==> posts[j].authorEmail != email.value) ==>
        r.value == Creator(posts[i].author, email.value, Some(posts[i].authorAvatar))
    ensures (Truthy(email) && forall j :: 0 <= j < |posts| ==> posts[j].authorEmail != email.value) ==>
      forall i :: (0 <= i < |questions| && questions[i].authorEmail == email.value
                   && forall j :: 0 <= j < i ==> questions[j].authorEmail != email.value) ==>
        r.value == Creator(questions[i].author, email.value, Some(questions[i].authorAvatar))
    ensures (Truthy(email)
             && (forall j :: 0 <= j < |posts| ==> posts[j].authorEmail != email.value)
             && (forall j :: 0 <= j < |questions| ==> questions[j].authorEmail != email.value)) ==>
      r.value == Creator(Or(LocalPart(email.value), email.value), email.value, None)
  {
    if !Truthy(email) then None
    else
      var e := email.value;
      match FindFirst(posts, (p: Post) => p.authorEmail == e)
      case Some(i) => Some(Creator(posts[i].author, posts[i].authorEmail, Some(posts[i].authorAvatar)))
      case None =>
        match FindFirst(questions, (q: Question) => q.authorEmail == e)
        case Some(i) => Some(Creator(questions[i].author, questions[i].authorEmail, Some(questions[i].authorAvatar)))
        case None => Some(Creator(Or(LocalPart(e), e), e, None))
  }

  /** A creator known only by address is named after the part before '@', or the whole address when that part is empty. */
  lemma UnknownCreatorName(user: string, domain: string)
    requires '@' !in user
    ensures ResolveCreator(Some(user + "@" + domain), [], []).value.name == (if user != "" then user else user + "@" + domain)
  {
    LocalPartOf(user, domain);
  }

  // ------------------------------------------------------ business directory

  /** The signed-in profile as a directory entry (`{...profile, name}`); a profile carries no email. */
  function ProfileBusiness(profile: Profile): Business {
    Business(profile.name, Some(profile.category), Some(profile.website), Some(profile.bio), Some(profile.avatar), None)
  }

  /** The entry derived from a business post: the post's category if truthy, the rest from the profile. */
  function PostBusiness(p: Post, profile: Profile): Business {
    Business(p.author, if Truthy(p.category) then p.category else Some(profile.category),
             Some(profile.website), Some(profile.bio), Some(p.authorAvatar), Some(p.authorEmail))
  }

  function UserBusiness(u: StoredUser): Business {
    Business(u.name, u.category, u.website, u.bio, u.avatar, Some(u.email))
  }

  /** Entries from the posts written as a business, in post order. */
  function PostBusinesses(posts: seq<Post>, profile: Profile): (r: seq<Business>)
    ensures |r| <= |posts|
    ensures forall p :: p in posts && p.authorType == "business" ==> PostBusiness(p, profile) in r
    ensures forall b :: b in r ==> exists p :: p in posts && p.authorType == "business" && b == PostBusiness(p, profile)
    decreases |posts|
  {
    if posts == [] then []
    else
      var rest := PostBusinesses(posts[1..], profile);
      assert forall x :: x in posts ==> x == posts[0] || x in posts[1..];
      assert forall x :: x in posts[1..] ==> x in posts;
      (if posts[0].authorType == "business" then [PostBusiness(posts[0], profile)] else []) + rest
  }

  /** Entries from the registered business users, in registration order. */
  function UserBusinesses(users: seq<StoredUser>): (r: seq<Business>)
    ensures |r| <= |users|
    ensures forall u :: u in users && u.userType == "business" ==> UserBusiness(u) in r
    ensures forall b :: b in r ==> exists u :: u in users && u.userType == "business" && b == UserBusiness(u)
    decreases |users|
  {
    if users == [] then []
    else
      var rest := UserBusinesses(users[1..]);
      assert forall x :: x in users ==> x == users[0] || x in users[1..];
      assert forall x :: x in users[1..] ==> x in users;
      (if users[0].userType == "business" then [UserBusiness(users[0])] else []) + rest
  }

  /** Everything pushed before de-duplication: the profile, then the posts, then the users. */
  function BusinessCandidates(profile: Profile, posts: seq<Post>, st: Store): seq<Business> {
    (if profile.profileType == "business" then [ProfileBusiness(profile)] else [])
    + PostBusinesses(posts, profile) + UserBusinesses(LoadUsers(st))
  }

  /** The index of the first entry named `n`, or `|bs|` when there is none. */
  function FirstAt(bs: seq<Business>, n: string): (k: nat)
    ensures k <= |bs|
    ensures k < |bs| ==> bs[k].name == n
    ensures forall j :: 0 <= j < k ==> bs[j].name != n
    decreases |bs|
  {
    if bs == [] then 0 else if bs[0].name == n then 0 else 1 + FirstAt(bs[1..], n)
  }

  /** The last entry named `n`. */
  function LastNamed(bs: seq<Business>, n: string): Option<Business>
    decreases |bs|
  {
    if bs == [] then None
    else if bs[|bs| - 1].name == n then Some(bs[|bs| - 1])
    else LastNamed(bs[..|bs| - 1], n)
  }

  /** `map.set(x.name, x)` on the insertion-ordered values of a `Map`. */
  function Put(acc: seq<Business>, x: Business): seq<Business> {
    var k := FirstAt(acc, x.name);
    if k < |acc| then acc[k := x] else acc + [x]
  }

  /** `Array.from(map.values())` after setting every entry in order. */
  function DedupByName(bs: seq<Business>): seq<Business>
    decreases |bs|
  {
    if bs == [] then [] else Put(DedupByName(bs[..|bs| - 1]), bs[|bs| - 1])
  }

  /** The `businesses` list. */
  function Businesses(profile: Profile, posts: seq<Post>, st: Store): seq<Business> {
    DedupByName(BusinessCandidates(profile, posts, st))
  }

  predicate DistinctNames(bs: seq<Business>) {
    forall i, j :: 0 <= i < j < |bs| ==> bs[i].name != bs[j].name
  }

  /** The first index of a name is unchanged by appending, unless the name was absent. */
  lemma {:induction false} FirstAtSnoc(bs: seq<Business>, x: Business, n: string)
    ensures FirstAt(bs, n) < |bs| ==> FirstAt(bs + [x], n) == FirstAt(bs, n)
    ensures FirstAt(bs, n) == |bs| && x.name == n ==> FirstAt(bs + [x], n) == |bs|
    decreases |bs|
  {
    if bs != [] {
      assert (bs + [x])[1..] == bs[1..] + [x];
      FirstAtSnoc(bs[1..], x, n);
    }
  }

  /** The first index of a name depends only on the names, position by position. */
  lemma {:induction false} FirstAtSameNames(xs: seq<Business>, ys: seq<Business>, n: string)
    requires |xs| == |ys|
    requires forall i :: 0 <= i < |xs| ==> xs[i].name == ys[i].name
    ensures FirstAt(xs, n) == FirstAt(ys, n)
    decreases |xs|
  {
    if xs != [] {
      FirstAtSameNames(xs[1..], ys[1..], n);
    }
  }

  /** Every name of `r` occurs in `bs`. */
  predicate NamesFrom(bs: seq<Business>, r: seq<Business>) {
    forall i :: 0 <= i < |r| ==> FirstAt(bs, r[i].name) < |bs|
  }

  /** Every name of `bs` occurs in `r`. */
  predicate NamesKept(bs: seq<Business>, r: seq<Business>) {
    forall k :: 0 <= k < |bs| ==> FirstAt(r, bs[k].name) < |r|
  }

  /** Each entry of `r` is the last one of `bs` under its name. */
  predicate LastWins(bs: seq<Business>, r: seq<Business>) {
    forall i :: 0 <= i < |r| ==> LastNamed(bs, r[i].name) == Some(r[i])
  }

  /** The entries of `r` follow the order of their names' first occurrences in `bs`. */
  predicate FirstOrder(bs: seq<Business>, r: seq<Business>) {
    forall i, j :: 0 <= i < j < |r| ==> FirstAt(bs, r[i].name) < FirstAt(bs, r[j].name)
  }

  /** What `Map.set` promises about insertion-ordered values. */
  predicate MapValues(bs: seq<Business>, r: seq<Business>) {
    DistinctNames(r) && NamesFrom(bs, r) && NamesKept(bs, r) && LastWins(bs, r) && FirstOrder(bs, r)
  }

  /** Appending an entry leaves the first occurrence of every earlier name where it was. */
  lemma FirstAtOfInit(init: seq<Business>, x: Business)
    ensures forall n :: FirstAt(init, n) < |init| ==> FirstAt(init + [x], n) == FirstAt(init, n)
    ensures forall n :: n != x.name ==> LastNamed(init + [x], n) == LastNamed(init, n)
    ensures LastNamed(init + [x], x.name) == Some(x)
  {
    forall n | FirstAt(init, n) < |init|
      ensures FirstAt(init + [x], n) == FirstAt(init, n)
    {
      FirstAtSnoc(init, x, n);
    }
    assert (init + [x])[..|init|] == init;
  }

  /** Overwriting an entry with one of the same name keeps every name where it was. */
  lemma OverwriteKeepsNames(acc: seq<Business>, k: nat, x: Business)
    requires k < |acc| && acc[k].name == x.name
    ensures forall i :: 0 <= i < |acc| ==> acc[k := x][i].name == acc[i].name
    ensures forall n :: FirstAt(acc[k := x], n) == FirstAt(acc, n)
  {
    forall n
      ensures FirstAt(acc[k := x], n) == FirstAt(acc, n)
    {
      FirstAtSameNames(acc[k := x], acc, n);
    }
  }

  /** Setting a name already present overwrites its entry in place. */
  lemma PutReplaces(init: seq<Business>, x: Business, acc: seq<Business>)
    requires MapValues(init, acc)
    requires FirstAt(acc, x.name) < |acc|
    ensures MapValues(init + [x], Put(acc, x))
  {
    var k := FirstAt(acc, x.name);
    assert Put(acc, x) == acc[k := x];
    OverwriteKeepsNames(acc, k, x);
    FirstAtOfInit(init, x);
    ReplaceKept(init, x, acc, k);
    ReplaceLastWins(init, x, acc, k);
  }

  lemma ReplaceKept(init: seq<Business>, x: Business, acc: seq<Business>, k: nat)
    requires NamesKept(init, acc)
    requires k < |acc| && acc[k].name == x.name
    requires forall n :: FirstAt(acc[k := x], n) == FirstAt(acc, n)
    ensures NamesKept(init + [x], acc[k := x])
  {
    var bs := init + [x];
    forall kk | 0 <= kk < |bs|
      ensures FirstAt(acc[k := x], bs[kk].name) < |acc|
    {
      if kk < |init| {
        assert bs[kk] == init[kk];
      }
    }
  }

  lemma ReplaceLastWins(init: seq<Business>, x: Business, acc: seq<Business>, k: nat)
    requires LastWins(init, acc) && DistinctNames(acc)
    requires k < |acc| && acc[k].name == x.name
    requires forall n :: n != x.name ==> LastNamed(init + [x], n) == LastNamed(init, n)
    requires LastNamed(init + [x], x.name) == Some(x)
    ensures LastWins(init + [x], acc[k := x])
  {
    var r := acc[k := x];
    forall i | 0 <= i < |r|
      ensures LastNamed(init + [x], r[i].name) == Some(r[i])
    {
      if i != k {
        assert r[i] == acc[i] && acc[i].name != acc[k].name;
      }
    }
  }

  /** Setting a new name appends its entry. */
  lemma PutAppends(init: seq<Business>, x: Business, acc: seq<Business>)
    requires MapValues(init, acc)
    requires FirstAt(acc, x.name) == |acc|
    ensures MapValues(init + [x], Put(acc, x))
  {
    assert Put(acc, x) == acc + [x];
    FirstAtOfInit(init, x);
    assert FirstAt(init, x.name) == |init|;
    FirstAtSnoc(init, x, x.name);
    FirstAtOfInit(acc, x);
    FirstAtSnoc(acc, x, x.name);
    AppendDistinct(acc, x);
    AppendFrom(init, x, acc);
    AppendKept(init, x, acc);
    AppendLastWins(init, x, acc);
    AppendOrder(init, x, acc);
  }

  lemma AppendDistinct(acc: seq<Business>, x: Business)
    requires DistinctNames(acc) && FirstAt(acc, x.name) == |acc|
    ensures DistinctNames(acc + [x])
  {
    var r := acc + [x];
    forall i, j | 0 <= i < j < |r|
      ensures r[i].name != r[j].name
    {
      assert r[i] == acc[i];
      if j < |acc| {
        assert r[j] == acc[j];
      }
    }
  }

  lemma AppendFrom(init: seq<Business>, x: Business, acc: seq<Business>)
    requires NamesFrom(init, acc)
    requires FirstAt(init, x.name) == |init|
    ensures NamesFrom(init + [x], acc + [x])
  {
    var r := acc + [x];
    forall i | 0 <= i < |r|
      ensures FirstAt(init + [x], r[i].name) < |init| + 1
    {
      if i < |acc| {
        assert r[i] == acc[i];
        FirstAtSnoc(init, x, acc[i].name);
      } else {
        FirstAtSnoc(init, x, x.name);
      }
    }
  }

  lemma AppendKept(init: seq<Business>, x: Business, acc: seq<Business>)
    requires NamesKept(init, acc)
    requires FirstAt(acc, x.name) == |acc|
    ensures NamesKept(init + [x], acc + [x])
  {
    var bs := init + [x];
    forall kk | 0 <= kk < |bs|
      ensures FirstAt(acc + [x], bs[kk].name) < |acc| + 1
    {
      if kk < |init| {
        assert bs[kk] == init[kk];
        FirstAtSnoc(acc, x, init[kk].name);
      } else {
        FirstAtSnoc(acc, x, x.name);
      }
    }
  }

  lemma AppendLastWins(init: seq<Business>, x: Business, acc: seq<Business>)
    requires LastWins(init, acc) && FirstAt(acc, x.name) == |acc|
    requires forall n :: n != x.name ==> LastNamed(init + [x], n) == LastNamed(init, n)
    requires LastNamed(init + [x], x.name) == Some(x)
    ensures LastWins(init + [x], acc + [x])
  {
    var r := acc + [x];
    forall i | 0 <= i < |r|
      ensures LastNamed(init + [x], r[i].name) == Some(r[i])
    {
      if i < |acc| {
        assert r[i] == acc[i];
      }
    }
  }

  /** One pair of positions of `AppendOrder`. */
  lemma AppendOrderPair(init: seq<Business>, x: Business, acc: seq<Business>, i: nat, j: nat)
    requires FirstOrder(init, acc) && NamesFrom(init, acc)
    requires FirstAt(init, x.name) == |init|
    requires i < j <= |acc|
    ensures FirstAt(init + [x], (acc + [x])[i].name) < FirstAt(init + [x], (acc + [x])[j].name)
  {
    var r := acc + [x];
    assert r[i] == acc[i];
    var a := FirstAt(init, acc[i].name);
    assert a < |init|;
    FirstAtSnoc(init, x, acc[i].name);
    if j < |acc| {
      assert r[j] == acc[j];
      assert a < FirstAt(init, acc[j].name);
      FirstAtSnoc(init, x, acc[j].name);
    } else {
      assert r[j] == x;
      FirstAtSnoc(init, x, x.name);
    }
  }

  lemma AppendOrder(init: seq<Business>, x: Business, acc: seq<Business>)
    requires FirstOrder(init, acc) && NamesFrom(init, acc)
    requires FirstAt(init, x.name) == |init|
    ensures FirstOrder(init + [x], acc + [x])
  {
    forall i, j | 0 <= i < j < |acc + [x]|
      ensures FirstAt(init + [x], (acc + [x])[i].name) < FirstAt(init + [x], (acc + [x])[j].name)
    {
      AppendOrderPair(init, x, acc, i, j);
    }
  }

  /**
   * The de-duplicated list names each input name exactly once, in the order
   * of the names' first occurrences, and each entry is the last one pushed
   * under its name.
   */
  lemma {:induction false} DedupByNameSpec(bs: seq<Business>)
    ensures MapValues(bs, DedupByName(bs))
    decreases |bs|
  {
    if bs != [] {
      var init, x := bs[..|bs| - 1], bs[|bs| - 1];
      assert bs == init + [x];
      DedupByNameSpec(init);
      var acc := DedupByName(init);
      if FirstAt(acc, x.name) < |acc| {
        PutReplaces(init, x, acc);
      } else {
        PutAppends(init, x, acc);
      }
    }
  }

  /** The business directory names each business once, keeping the last data pushed for it. */
  lemma BusinessesDistinct(profile: Profile, posts: seq<Post>, st: Store)
    ensures DistinctNames(Businesses(profile, posts, st))
    ensures var r := Businesses(profile, posts, st);
      forall i :: 0 <= i < |r| ==> LastNamed(BusinessCandidates(profile, posts, st), r[i].name) == Some(r[i])
  {
    DedupByNameSpec(BusinessCandidates(profile, posts, st));
  }

  /** `[b.name, b.category || ""].some(x => x.toLowerCase().includes(q))` for the lower-cased query `q`. */
  predicate MatchesQuery(b: Business, q: string) {
    Contains(Lower(b.name), q) || Contains(Lower(OrElse(b.category, "")), q)
  }

  /** `filteredBusinesses`. */
  function FilterBusinesses(bs: seq<Business>, query: string): (r: seq<Business>)
    ensures |r| <= |bs|
    ensures forall b :: b in r <==> b in bs && MatchesQuery(b, Lower(query))
  {
    var q := Lower(query);
    WithoutMembers(bs, (b: Business) => !MatchesQuery(b, q));
    Without(bs, (b: Business) => !MatchesQuery(b, q))
  }

  /**
   * The search keeps the directory order: a single business stays exactly when it
   * matches, and filtering two runs of the directory concatenates their results.
   */
  lemma FilterKeepsOrder(bs: seq<Business>, cs: seq<Business>, b: Business, query: string)
    ensures FilterBusinesses([b], query) == if MatchesQuery(b, Lower(query)) then [b] else []
    ensures FilterBusinesses(bs + cs, query) == FilterBusinesses(bs, query) + FilterBusinesses(cs, query)
  {
    var q := Lower(query);
    assert [b][1..] == [];
    WithoutAppend(bs, cs, (x: Business) => !MatchesQuery(x, q));
  }

  /** An empty query keeps the whole directory, in order. */
  lemma EmptyQueryKeepsAll(bs: seq<Business>)
    ensures FilterBusinesses(bs, "") == bs
  {
    forall b: Business
      ensures MatchesQuery(b, Lower(""))
    {
      ContainsEmpty(Lower(b.name));
    }
    WithoutNone(bs, (b: Business) => !MatchesQuery(b, Lower("")));
  }

  /** The case of the query does not matter. */
  lemma QueryCaseIgnored(bs: seq<Business>, query: string)
    ensures FilterBusinesses(bs, Lower(query)) == FilterBusinesses(bs, query)
  {
    assert Lower(Lower(query)) == Lower(query);
  }

  // -------------------------------------------------------------- followers

  /** An entry of the follower list. */
  datatype Person = Person(email: string, name: string, avatar: Option<string>, personType: string)

  function Emails(ps: seq<Person>): set<string> {
    set i | 0 <= i < |ps| :: ps[i].email
  }

  /** Whether the actions stored for `email` mark `me` as followed. */
  predicate FollowsMe(st: Store, me: string, email: string) {
    Marked(GetUserActions(st, email).follows, me)
  }

  /** `pushIf` over the candidates in order: keep a follower of `me` whose email is not yet seen. */
  function Collect(cs: seq<Person>, st: Store, me: string, seen: set<string>): seq<Person>
    decreases |cs|
  {
    if cs == [] then []
    else if cs[0].email !in seen && FollowsMe(st, me, cs[0].email) then
      [cs[0]] + Collect(cs[1..], st, me, seen + {cs[0].email})
    else Collect(cs[1..], st, me, seen)
  }

  /** `r` holds followers from `cs` only, none already seen, each email once, and every unseen follower's email. */
  predicate CollectedFrom(cs: seq<Person>, st: Store, me: string, seen: set<string>, r: seq<Person>) {
    && (forall i :: 0 <= i < |r| ==> r[i] in cs && FollowsMe(st, me, r[i].email) && r[i].email !in seen)
    && (forall i, j :: 0 <= i < j < |r| ==> r[i].email != r[j].email)
    && (forall c :: c in cs && FollowsMe(st, me, c.email) && c.email !in seen ==> c.email in Emails(r))
  }

  /** Taking a follower whose email is unseen extends a collection of the rest. */
  lemma CollectTake(c: Person, cs: seq<Person>, st: Store, me: string, seen: set<string>, rest: seq<Person>)
    requires c.email !in seen && FollowsMe(st, me, c.email)
    requires CollectedFrom(cs, st, me, seen + {c.email}, rest)
    ensures CollectedFrom([c] + cs, st, me, seen, [c] + rest)
  {
    var r := [c] + rest;
    forall i | 0 <= i < |r|
      ensures r[i] in [c] + cs && FollowsMe(st, me, r[i].email) && r[i].email !in seen
    {
      if i > 0 {
        assert r[i] == rest[i - 1];
      }
    }
    forall i, j | 0 <= i < j < |r|
      ensures r[i].email != r[j].email
    {
      assert r[j] == rest[j - 1];
      if i > 0 {
        assert r[i] == rest[i - 1];
      }
    }
    forall x | x in [c] + cs && FollowsMe(st, me, x.email) && x.email !in seen
      ensures x.email in Emails(r)
    {
      assert r[0] == c;
      if x.email != c.email {
        assert x in cs;
        assert x.email in Emails(rest);
        var k :| 0 <= k < |rest| && rest[k].email == x.email;
        assert r[k + 1] == rest[k];
      }
    }
  }

  /** Skipping a candidate that is seen or not a follower keeps a collection of the rest. */
  lemma CollectSkip(c: Person, cs: seq<Person>, st: Store, me: string, seen: set<string>, rest: seq<Person>)
    requires !(c.email !in seen && FollowsMe(st, me, c.email))
    requires CollectedFrom(cs, st, me, seen, rest)
    ensures CollectedFrom([c] + cs, st, me, seen, rest)
  {
    forall i | 0 <= i < |rest|
      ensures rest[i] in [c] + cs
    {
      assert rest[i] in cs;
    }
    forall x | x in [c] + cs && FollowsMe(st, me, x.email) && x.email !in seen
      ensures x.email in Emails(rest)
    {
      assert x in cs;
    }
  }

  /**
   * The collected list takes followers only, skips emails already seen, holds
   * each email once, and holds every unseen follower's email.
   */
  lemma {:induction false} CollectSpec(cs: seq<Person>, st: Store, me: string, seen: set<string>)
    ensures CollectedFrom(cs, st, me, seen, Collect(cs, st, me, seen))
    decreases |cs|
  {
    if cs != [] {
      var c := cs[0];
      assert cs == [c] + cs[1..];
      if c.email !in seen && FollowsMe(st, me, c.email) {
        CollectSpec(cs[1..], st, me, seen + {c.email});
        CollectTake(c, cs[1..], st, me, seen, Collect(cs[1..], st, me, seen + {c.email}));
      } else {
        CollectSpec(cs[1..], st, me, seen);
        CollectSkip(c, cs[1..], st, me, seen, Collect(cs[1..], st, me, seen));
      }
    }
  }

  function UserPerson(u: StoredUser): Person {
    Person(u.email, u.name, u.avatar, u.userType)
  }

  /** Authors of posts with a non-empty email, in post order. */
  function PostAuthors(posts: seq<Post>): (r: seq<Person>)
    ensures forall p :: p in posts && p.authorEmail != "" ==>
      Person(p.authorEmail, p.author, Some(p.authorAvatar), p.authorType) in r
    decreases |posts|
  {
    if posts == [] then []
    else
      var p := posts[0];
      assert forall x :: x in posts ==> x == p || x in posts[1..];
      (if p.authorEmail != "" then [Person(p.authorEmail, p.author, Some(p.authorAvatar), p.authorType)] else [])
      + PostAuthors(posts[1..])
  }

  /** Authors of questions with a non-empty email, as general users. */
  function QuestionAuthors(questions: seq<Question>): (r: seq<Person>)
    ensures forall q :: q in questions && q.authorEmail != "" ==>
      Person(q.authorEmail, q.author, Some(q.authorAvatar), "general") in r
    decreases |questions|
  {
    if questions == [] then []
    else
      var q := questions[0];
      assert forall x :: x in questions ==> x == q || x in questions[1..];
      (if q.authorEmail != "" then [Person(q.authorEmail, q.author, Some(q.authorAvatar), "general")] else [])
      + QuestionAuthors(questions[1..])
  }

  /** Everyone `followerList` considers, in the order it considers them. */
  function FollowerCandidates(users: seq<StoredUser>, posts: seq<Post>, questions: seq<Question>): (cs: seq<Person>)
    ensures forall u :: u in users ==> UserPerson(u) in cs
    ensures forall p :: p in posts && p.authorEmail != "" ==>
      Person(p.authorEmail, p.author, Some(p.authorAvatar), p.authorType) in cs
    ensures forall q :: q in questions && q.authorEmail != "" ==>
      Person(q.authorEmail, q.author, Some(q.authorAvatar), "general") in cs
    ensures |cs| == |users| + |PostAuthors(posts)| + |QuestionAuthors(questions)|
    ensures forall i :: 0 <= i < |users| ==> cs[i] == UserPerson(users[i])
    ensures cs[|users|..|users| + |PostAuthors(posts)|] == PostAuthors(posts)
    ensures cs[|users| + |PostAuthors(posts)|..] == QuestionAuthors(questions)
  {
    var us := seq(|users|, i requires 0 <= i < |users| => UserPerson(users[i]));
    assert forall u :: u in users ==> UserPerson(u) in us by {
      forall u | u in users ensures UserPerson(u) in us {
        var i :| 0 <= i < |users| && users[i] == u;
        assert us[i] == UserPerson(u);
      }
    }
    us + PostAuthors(posts) + QuestionAuthors(questions)
  }

  /** `followerList`: registered users first, then post authors, then question authors. */
  function FollowerList(user: Option<SessionUser>, st: Store, posts: seq<Post>, questions: seq<Question>)
    : (r: seq<Person>)
    ensures user.None? ==> r == []
    ensures forall i, j :: 0 <= i < j < |r| ==> r[i].email != r[j].email
    ensures user.Some? ==> forall i :: 0 <= i < |r| ==> FollowsMe(st, user.value.email, r[i].email)
    ensures user.Some? ==> forall u :: u in LoadUsers(st) && FollowsMe(st, user.value.email, u.email) ==>
      u.email in Emails(r)
    ensures user.Some? ==> forall p :: p in posts && p.authorEmail != "" && FollowsMe(st, user.value.email, p.authorEmail) ==>
      p.authorEmail in Emails(r)
    ensures user.Some? ==> forall q :: q in questions && q.authorEmail != "" && FollowsMe(st, user.value.email, q.authorEmail) ==>
      q.authorEmail in Emails(r)
  {
    if user.None? then []
    else
      var cs := FollowerCandidates(LoadUsers(st), posts, questions);
      var none: set<string> := {};
      var r := Collect(cs, st, user.value.email, none);
      CollectSpec(cs, st, user.value.email, none);
      r
  }
}
