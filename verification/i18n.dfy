/**
 * The message lookup `t(key, vars)` of the i18n provider (lib/i18n.tsx):
 * active language, then English, then the key itself, followed by
 * `{name}` placeholder substitution in the order the variables are given.
 */
module I18n {
  import opened Wrappers
  import opened Text

  type Messages = map<string, string>

  const En: Messages := map[
    "app.loading" := "Loading application\U{2026}",
    "toast.action.failed" := "Action sync failed",
    "post.comment.placeholder" := "Add a comment",
    "auth.signin" := "Sign In",
    "auth.signup" := "Sign Up",
    "auth.signout" := "Sign out",
    "auth.email" := "Email",
    "auth.password" := "Password",
    "auth.fullname" := "Full Name",
    "auth.accountType" := "Account Type",
    "auth.invalid" := "Invalid credentials",
    "auth.signupFailed" := "Sign up failed",
    "nav.feed" := "Feed",
    "nav.qa" := "Q&A",
    "nav.biz" := "Businesses",
    "nav.profile" := "Profile",
    "cta.getStarted" := "Get started",
    "cta.guestBrowse" := "Guests can browse everything. Sign in to post, react, and comment.",
    "cta.signupSignin" := "Sign up / Sign in",
    "brand.name" := "Burma Town"
  ]

  /** The partial Burmese catalog. */
  const Mm: Messages := map[
    "app.loading" := "အပ်အား ဖွင့်နေသည်…",
    "auth.signin" := "ဝင်ရန်",
    "auth.signup" := "စာရင်းသွင်းရန်",
    "auth.signout" := "ထွက်ရန်",
    "nav.feed" := "ဖတ်ရှု",
    "nav.qa" := "မေးမြန်း",
    "nav.biz" := "လုပ်ငန်းများ",
    "nav.profile" := "ပရိုဖိုင်",
    "cta.getStarted" := "စတင်ရန်",
    "cta.guestBrowse" := "ဧည့်သည်များအနေဖြင့် ကြည့်ရှုလို့ရပါသည်။ ဝင်ရောက်မှ ပို့စ်၊ တုံ့ပြန်နိုင်ပါသည်။",
    "cta.signupSignin" := "စာရင်းသွင်း / ဝင်",
    "brand.name" := "ဗမာတောင်း"
  ]

  const Catalogs: map<string, Messages> := map["en" := En, "mm" := Mm]

  /** `catalogs[lang][key]`, absent when the language or the key is missing. */
  function Entry(lang: string, key: string): (r: Option<string>)
    ensures r.Some? <==> lang in Catalogs && key in Catalogs[lang]
    ensures r.Some? ==> r.value == Catalogs[lang][key]
  {
    if lang in Catalogs && key in Catalogs[lang] then Some(Catalogs[lang][key]) else None
  }

  /** The message before substitution: the first truthy of the active entry, the English entry, the key. */
  function Message(lang: string, key: string): (r: string)
    ensures Truthy(Entry(lang, key)) ==> r == Catalogs[lang][key]
    ensures !Truthy(Entry(lang, key)) && key in En && En[key] != "" ==> r == En[key]
    ensures !Truthy(Entry(lang, key)) && (key !in En || En[key] == "") ==> r == key
  {
    OrElse(Entry(lang, key), OrElse(Entry("en", key), key))
  }

  /**
   * Replace every `{k}` by `v` for each entry in turn, later entries seeing
   * earlier results. The value is inserted literally: the `$` patterns that
   * `replace` expands in a replacement string are not modelled.
   */
  function Substitute(msg: string, vars: seq<(string, string)>): string
    decreases |vars|
  {
    if vars == [] then msg
    else Substitute(ReplaceAll(msg, Placeholder(vars[0].0), vars[0].1), vars[1..])
  }

  function Placeholder(name: string): (r: string)
    ensures r != "" && r[0] == '{' && r[|r| - 1] == '}'
  {
    "{" + name + "}"
  }

  /** `t(key, vars)` in language `lang`; `vars` is absent when the caller passes none. */
  function T(lang: string, key: string, vars: Option<seq<(string, string)>>): (r: string)
    ensures vars.None? ==> r == Message(lang, key)
  {
    var msg := Message(lang, key);
    if vars.Some? then Substitute(msg, vars.value) else msg
  }

  /** A language without a catalog reads the English catalog. */
  lemma UnknownLanguageIsEnglish(lang: string, key: string)
    requires lang !in Catalogs
    ensures T(lang, key, None) == T("en", key, None)
  {
  }

  /** `mm` has no "auth.email", so it falls back to English; a key in neither catalog is returned as is. */
  lemma FallbackExamples()
    ensures T("mm", "auth.email", None) == "Email"
    ensures T("mm", "nav.feed", None) == Mm["nav.feed"]
    ensures T("mm", "no.such.key", None) == "no.such.key"
  {
    assert "auth.email" !in Mm;
    assert "no.such.key" !in Mm && "no.such.key" !in En;
  }

  /** Substitution leaves the message untouched when none of the named placeholders occurs in it. */
  lemma {:induction false} SubstituteAbsent(msg: string, vars: seq<(string, string)>)
    requires forall i :: 0 <= i < |vars| ==> !Contains(msg, Placeholder(vars[i].0))
    ensures Substitute(msg, vars) == msg
    decreases |vars|
  {
    if vars != [] {
      ReplaceAbsent(msg, Placeholder(vars[0].0), vars[0].1);
      SubstituteAbsent(msg, vars[1..]);
    }
  }

  /**
   * One variable, one occurrence: the text before the placeholder (holding no
   * '{') and after it (holding no further occurrence) is kept, the placeholder
   * becomes the value.
   */
  lemma SubstituteOne(u: string, name: string, w: string, v: string)
    requires '{' !in u
    requires !Contains(w, Placeholder(name))
    ensures Substitute(u + Placeholder(name) + w, [(name, v)]) == u + v + w
  {
    var p := Placeholder(name);
    ReplaceFirst(u, p, w, v);
    ReplaceAbsent(w, p, v);
    assert [(name, v)][1..] == [];
  }
}
