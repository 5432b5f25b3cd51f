/**
 * The older option parser (options.ts), which the renderer uses. Its pattern `(\w+)=(\w+)`
 * is global but not anchored, so a `word=word` anywhere in the text is a directive, and it
 * knows neither `riverWidth` nor `riverColour`.
 */
module LegacyOptions {
  import opened Text
  import opened Numbers
  import opened Wrappers
  import opened OptionValues
  import opened PluginSettings

  /** The names read with `Number()`: `terrainIconSize` is not among them. */
  const NumberKeys: set<string> := {"size", "margin", "coordOffset", "coordSize", "iconSize"}

  /** The record before any directive: the settings, with an empty `key`. */
  function InitialOptions(st: Settings): Options {
    map[
      "key" := Str(""),
      "orientation" := Str(st.orientation),
      "offset" := Str(st.offset),
      "terrainKey" := Str(st.terrainKey),
      "iconKey" := Str(st.iconKey),
      "size" := Num(Finite(st.size)),
      "margin" := Num(Finite(st.margin)),
      "coordOffset" := Num(Finite(st.coordOffset)),
      "coordSize" := Num(Finite(st.coordSize)),
      "iconSize" := Num(Finite(st.iconSize)),
      "terrainIconSize" := Num(Finite(st.terrainIconSize))]
  }

  /** One match of `(\w+)=(\w+)`: the two captures and where the match ends. */
  datatype KeyValueMatch = KeyValueMatch(key: string, value: string, end: nat)

  /** The match moved `d` characters to the right. */
  function Shifted(m: Option<KeyValueMatch>, d: nat): Option<KeyValueMatch> {
    match m
    case None => None
    case Some(km) => Some(km.(end := km.end + d))
  }

  /**
   * The match at the very start of `u`. A shorter first `\w+` would be followed by a word
   * character rather than `=`, so only the longest runs can match.
   */
  function KeyValueAt(u: string): (r: Option<KeyValueMatch>)
    ensures r.Some? ==> 0 < r.value.end <= |u|
  {
    var j := RunEnd(u, 0, IsWordChar);
    if 0 < j && j < |u| && u[j] == '=' then
      var k := RunEnd(u, j + 1, IsWordChar);
      if j + 1 < k then Some(KeyValueMatch(u[..j], u[j + 1..k], k)) else None
    else None
  }

  /** The leftmost match in `u`; a search from position `i` of a text is the search in its suffix from `i`. */
  function FirstKeyValue(u: string): (r: Option<KeyValueMatch>)
    ensures r.Some? ==> 0 < r.value.end <= |u|
    decreases |u|
  {
    if u == [] then None
    else
      match KeyValueAt(u)
      case Some(m) => Some(m)
      case None => Shifted(FirstKeyValue(u[1..]), 1)
  }

  /** Every match in `u`, in text order: what `matchAll` yields, each search resuming at the last match's end. */
  function KeyValues(u: string): seq<Directive>
    decreases |u|
  {
    match FirstKeyValue(u)
    case None => []
    case Some(m) => [(m.key, m.value)] + KeyValues(u[m.end..])
  }

  /** The directives of a source text, in text order. */
  function Directives(source: string): seq<Directive> {
    KeyValues(source)
  }

  /** The options `getOptions` returns for a source text. */
  function OptionsOf(source: string, st: Settings): Options {
    ApplyAll(InitialOptions(st), NumberKeys, Directives(source))
  }

  /** `getOptions`: the settings overwritten, match by match in text order. */
  method GetOptions(source: string, st: Settings) returns (options: Options)
    ensures options == OptionsOf(source, st)
  {
    var ds := Directives(source);
    ghost var init := InitialOptions(st);
    options := InitialOptions(st);
    var i := 0;
    while i < |ds|
      invariant 0 <= i <= |ds|
      invariant options == ApplyAll(init, NumberKeys, ds[..i])
    {
      var (key, value) := ds[i];
      ghost var before := options;
      if key in NumberKeys {
        options := options[key := Num(NumberOf(value))];
      } else {
        options := options[key := Str(value)];
      }
      assert options == Apply(before, NumberKeys, ds[i]);
      assert ds[..i + 1][..i] == ds[..i];
      i := i + 1;
    }
    assert ds[..i] == ds;
  }

  /** Every match is a word, `=`, and a word. */
  lemma {:induction false} DirectivesAreWords(u: string)
    ensures forall d :: d in KeyValues(u) ==> IsWord(d.0) && IsWord(d.1)
    decreases |u|
  {
    FirstKeyValueIsWords(u);
    match FirstKeyValue(u)
    case None =>
    case Some(m) => DirectivesAreWords(u[m.end..]);
  }

  lemma {:induction false} FirstKeyValueIsWords(u: string)
    ensures FirstKeyValue(u).Some? ==> IsWord(FirstKeyValue(u).value.key) && IsWord(FirstKeyValue(u).value.value)
    decreases |u|
  {
    if u != [] && KeyValueAt(u).None? {
      FirstKeyValueIsWords(u[1..]);
    }
  }

  /**
   * A directive in the middle of a line is found: text before it without `=` that ends in a
   * non-word character yields nothing, and scanning resumes after the value.
   */
  lemma MidLineDirectiveFound(p: string, k: string, v: string, t: string)
    requires forall j :: 0 <= j < |p| ==> p[j] != '='
    requires p == [] || !IsWordChar(p[|p| - 1])
    requires IsWord(k) && IsWord(v)
    requires t == [] || !IsWordChar(t[0])
    ensures Directives(p + k + "=" + v + t) == [(k, v)] + KeyValues(t)
  {
    var d := k + "=" + v;
    Assoc(p, k, "=");
    Assoc(p, k + "=", v);
    Assoc(p, d, t);
    FoundAfterPrefix(p, d + t, KeyValueMatch(k, v, |d|), t);
  }

  /** A text whose first match is `m`, behind a prefix the search passes over. */
  lemma FoundAfterPrefix(p: string, rest: string, m: KeyValueMatch, t: string)
    requires forall j :: 0 <= j < |p| ==> p[j] != '='
    requires p == [] || !IsWordChar(p[|p| - 1])
    requires IsWord(m.key) && IsWord(m.value)
    requires rest == m.key + "=" + m.value + t && m.end == |m.key| + 1 + |m.value|
    requires t == [] || !IsWordChar(t[0])
    ensures KeyValues(p + rest) == [(m.key, m.value)] + KeyValues(t)
  {
    var s := p + rest;
    var e := |p| + m.end;
    DirectiveAt(m.key, m.value, t);
    SkipPrefix(p, rest);
    FirstAfterPrefix(p, rest, m);
    Assoc(p, m.key + "=" + m.value, t);
    DropPrefix(p + (m.key + "=" + m.value), t);
    KeyValuesStep(s);
  }

  lemma FirstAfterPrefix(p: string, rest: string, m: KeyValueMatch)
    requires KeyValueAt(rest) == Some(m)
    requires FirstKeyValue(p + rest) == Shifted(FirstKeyValue(rest), |p|)
    ensures FirstKeyValue(p + rest) == Some(m.(end := |p| + m.end))
  {
    FirstKeyValueHere(rest);
  }

  lemma FirstKeyValueHere(u: string)
    requires KeyValueAt(u).Some?
    ensures FirstKeyValue(u) == KeyValueAt(u)
  {
  }

  /** After a match, the search resumes at its end. */
  lemma KeyValuesStep(u: string)
    requires FirstKeyValue(u).Some?
    ensures var m := FirstKeyValue(u).value;
      KeyValues(u) == [(m.key, m.value)] + KeyValues(u[m.end..])
  {
  }

  /** The search passes over a prefix without `=` that ends in a non-word character. */
  lemma {:induction false} SkipPrefix(p: string, rest: string)
    requires forall j :: 0 <= j < |p| ==> p[j] != '='
    requires p == [] || !IsWordChar(p[|p| - 1])
    ensures FirstKeyValue(p + rest) == Shifted(FirstKeyValue(rest), |p|)
    decreases |p|
  {
    if p == [] {
      assert p + rest == rest;
      ShiftedByZero(FirstKeyValue(rest));
    } else {
      NothingStartsInPrefix(p, rest);
      DropFirst(p, rest);
      if |p| > 1 {
        assert p[1..][|p| - 2] == p[|p| - 1];
      }
      SkipPrefix(p[1..], rest);
      ShiftedTwice(FirstKeyValue(rest), |p| - 1, 1);
    }
  }

  lemma ShiftedByZero(m: Option<KeyValueMatch>)
    ensures Shifted(m, 0) == m
  {
  }

  lemma ShiftedTwice(m: Option<KeyValueMatch>, a: nat, b: nat)
    ensures Shifted(Shifted(m, a), b) == Shifted(m, a + b)
  {
  }

  /** No match starts at the front of a non-empty prefix without `=` ending in a non-word character. */
  lemma NothingStartsInPrefix(p: string, rest: string)
    requires forall j :: 0 <= j < |p| ==> p[j] != '='
    requires p != [] && !IsWordChar(p[|p| - 1])
    ensures KeyValueAt(p + rest) == None
  {
    var u := p + rest;
    assert u[|p| - 1] == p[|p| - 1];
    var j := RunEnd(u, 0, IsWordChar);
    assert j < |p|;
    assert u[j] == p[j];
  }

  /** A word, `=`, and a word, followed by a non-word character or the end, match whole. */
  lemma DirectiveAt(k: string, v: string, t: string)
    requires IsWord(k) && IsWord(v)
    requires t == [] || !IsWordChar(t[0])
    ensures KeyValueAt(k + "=" + v + t) == Some(KeyValueMatch(k, v, |k| + 1 + |v|))
  {
    var u := k + "=" + v + t;
    var b := |k|;
    var c := b + 1 + |v|;
    assert forall j :: 0 <= j < b ==> u[j] == k[j];
    assert u[b] == '=';
    RunEndIs(u, 0, IsWordChar, b);
    assert forall j :: b + 1 <= j < c ==> u[j] == v[j - b - 1];
    assert c < |u| ==> u[c] == t[0];
    RunEndIs(u, b + 1, IsWordChar, c);
    assert u[..b] == k;
    assert u[b + 1..c] == v;
  }

  /** The text fields hold text and the number fields numbers (possibly NaN). */
  predicate Typed(options: Options) {
    && Get(options, "key").Str? && Get(options, "orientation").Str? && Get(options, "offset").Str?
    && Get(options, "terrainKey").Str? && Get(options, "iconKey").Str?
    && Get(options, "size").Num? && Get(options, "margin").Num? && Get(options, "coordOffset").Num?
    && Get(options, "coordSize").Num? && Get(options, "iconSize").Num?
  }

  /** Whatever the directives, the options stay typed. */
  lemma FieldKinds(source: string, st: Settings)
    ensures Typed(OptionsOf(source, st))
  {
    TextFieldsStayText(source, st);
    NumberFieldsStayNumbers(source, st);
  }

  lemma TextFieldsStayText(source: string, st: Settings)
    ensures var o := OptionsOf(source, st);
      && Get(o, "key").Str? && Get(o, "orientation").Str? && Get(o, "offset").Str?
      && Get(o, "terrainKey").Str? && Get(o, "iconKey").Str?
  {
    var init, ds := InitialOptions(st), Directives(source);
    KindsKept(init, NumberKeys, ds, "key");
    KindsKept(init, NumberKeys, ds, "orientation");
    KindsKept(init, NumberKeys, ds, "offset");
    KindsKept(init, NumberKeys, ds, "terrainKey");
    KindsKept(init, NumberKeys, ds, "iconKey");
  }

  lemma NumberFieldsStayNumbers(source: string, st: Settings)
    ensures var o := OptionsOf(source, st);
      && Get(o, "size").Num? && Get(o, "margin").Num? && Get(o, "coordOffset").Num?
      && Get(o, "coordSize").Num? && Get(o, "iconSize").Num?
  {
    var init, ds := InitialOptions(st), Directives(source);
    KindsKept(init, NumberKeys, ds, "size");
    KindsKept(init, NumberKeys, ds, "margin");
    KindsKept(init, NumberKeys, ds, "coordOffset");
    KindsKept(init, NumberKeys, ds, "coordSize");
    KindsKept(init, NumberKeys, ds, "iconSize");
  }

  /** Text without `=` that starts with a non-word character adds no directive when appended. */
  lemma {:induction false} AppendingTextWithoutDirectives(s: string, t: string)
    requires |t| > 0 && !IsWordChar(t[0])
    requires forall j :: 0 <= j < |t| ==> t[j] != '='
    ensures Directives(s + t) == Directives(s)
    decreases |s|
  {
    FirstKeyValueOfExtension(s, t);
    match FirstKeyValue(s)
    case None =>
    case Some(m) =>
      assert (s + t)[m.end..] == s[m.end..] + t;
      AppendingTextWithoutDirectives(s[m.end..], t);
  }

  /** The leftmost match in `s + t` is the leftmost match in `s`. */
  lemma {:induction false} FirstKeyValueOfExtension(s: string, t: string)
    requires |t| > 0 && !IsWordChar(t[0])
    requires forall j :: 0 <= j < |t| ==> t[j] != '='
    ensures FirstKeyValue(s + t) == FirstKeyValue(s)
    decreases |s|
  {
    if s == [] {
      assert s + t == t;
      NoMatchInTail(t);
    } else {
      KeyValueAtOfExtension(s, t);
      assert (s + t)[1..] == s[1..] + t;
      FirstKeyValueOfExtension(s[1..], t);
    }
  }

  lemma KeyValueAtOfExtension(u: string, t: string)
    requires |t| > 0 && !IsWordChar(t[0]) && t[0] != '='
    ensures KeyValueAt(u + t) == KeyValueAt(u)
  {
    var w := u + t;
    assert w[|u|] == t[0];
    WordRunOfExtension(u, t, 0);
    var j := RunEnd(u, 0, IsWordChar);
    if j < |u| {
      assert w[j] == u[j];
    }
    if 0 < j && j < |u| && u[j] == '=' {
      WordRunOfExtension(u, t, j + 1);
      var k := RunEnd(u, j + 1, IsWordChar);
      assert w[..j] == u[..j];
      assert w[j + 1..k] == u[j + 1..k];
    }
  }

  /** A word run in `s` stops before `t`, whose first character is no word character. */
  lemma WordRunOfExtension(s: string, t: string, i: nat)
    requires i <= |s|
    requires |t| > 0 && !IsWordChar(t[0])
    ensures RunEnd(s + t, i, IsWordChar) == RunEnd(s, i, IsWordChar)
  {
    var u := s + t;
    var e := RunEnd(s, i, IsWordChar);
    assert forall j :: i <= j < e ==> u[j] == s[j];
    assert e < |s| ==> u[e] == s[e];
    assert e == |s| ==> u[e] == t[0];
    RunEndIs(u, i, IsWordChar, e);
  }

  /** No match in a text without `=`. */
  lemma {:induction false} NoMatchInTail(t: string)
    requires forall j :: 0 <= j < |t| ==> t[j] != '='
    ensures FirstKeyValue(t) == None
    decreases |t|
  {
    if t != [] {
      var j := RunEnd(t, 0, IsWordChar);
      assert KeyValueAt(t) == None;
      NoMatchInTail(t[1..]);
    }
  }

  /** `terrainIconSize` is not a number key here: the last directive naming it stores its text. */
  lemma TerrainIconSizeIsText(source: string, st: Settings, i: nat)
    requires i < |Directives(source)| && Directives(source)[i].0 == "terrainIconSize"
    requires forall j :: i < j < |Directives(source)| ==> Directives(source)[j].0 != "terrainIconSize"
    ensures Get(OptionsOf(source, st), "terrainIconSize") == Str(Directives(source)[i].1)
  {
    LastDirectiveWins(InitialOptions(st), NumberKeys, Directives(source), i);
  }

  /** The last directive naming a field decides it; a number key receives `Number(value)`. */
  lemma LastDirectiveDecides(source: string, st: Settings, i: nat)
    requires i < |Directives(source)|
    requires forall j :: i < j < |Directives(source)| ==> Directives(source)[j].0 != Directives(source)[i].0
    ensures var (k, v) := Directives(source)[i];
      Get(OptionsOf(source, st), k) == (if k in NumberKeys then Num(NumberOf(v)) else Str(v))
  {
    LastDirectiveWins(InitialOptions(st), NumberKeys, Directives(source), i);
  }

  /** A field no directive names keeps its settings value; `riverWidth` and `riverColour` stay undefined. */
  lemma UnnamedFieldsKeepSettings(source: string, st: Settings, k: string)
    requires forall i :: 0 <= i < |Directives(source)| ==> Directives(source)[i].0 != k
    ensures Get(OptionsOf(source, st), k) == Get(InitialOptions(st), k)
    ensures k == "key" ==> Get(OptionsOf(source, st), k) == Str("")
    ensures k == "riverWidth" || k == "riverColour" ==> Get(OptionsOf(source, st), k) == Undefined
  {
    UnnamedKeysKept(InitialOptions(st), NumberKeys, Directives(source), k);
  }
}
