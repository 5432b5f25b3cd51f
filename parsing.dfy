/**
 * The line-anchored directive parser (parsing.ts): `name=value` options, `river:` lines,
 * `overlay:` and `border:` tag styles. Every pattern there is `^...$` with the `m` flag and
 * a body that cannot cross a line terminator, so each is a test on one whole line.
 */
module Parsing {
  import opened Text
  import opened Numbers
  import opened Wrappers
  import opened Patterns
  import opened HexCoords
  import opened OptionValues
  import opened PluginSettings

  /** The results of a whole-line pattern on the lines `ls`, in order, skipping the lines it rejects. */
  function MatchLines<T>(ls: seq<string>, f: string -> Option<T>): (ms: seq<T>)
    ensures |ms| <= |ls|
  {
    if ls == [] then []
    else
      (match f(ls[0]) case Some(m) => [m] case None => []) + MatchLines(ls[1..], f)
  }

  /** `matchAll` of a whole-line pattern over a source text. */
  function MatchAllLines<T>(source: string, f: string -> Option<T>): seq<T> {
    MatchLines(Lines(source), f)
  }

  /** A text assembled from lines is matched line by line. */
  lemma MatchAllOfJoin<T>(ls: seq<string>, f: string -> Option<T>)
    requires |ls| >= 1 && forall i :: 0 <= i < |ls| ==> OnOneLine(ls[i])
    ensures MatchAllLines(JoinLines(ls), f) == MatchLines(ls, f)
  {
    LinesOfJoin(ls);
  }

  /** Every match comes from one line, and a line yields a match exactly when the pattern accepts it. */
  lemma {:induction false} MatchLinesMember<T>(ls: seq<string>, f: string -> Option<T>, m: T)
    ensures m in MatchLines(ls, f) <==> exists i :: 0 <= i < |ls| && f(ls[i]) == Some(m)
  {
    if ls != [] {
      MatchLinesMember(ls[1..], f, m);
      if exists i :: 0 <= i < |ls| && f(ls[i]) == Some(m) {
        var i :| 0 <= i < |ls| && f(ls[i]) == Some(m);
        if i > 0 { assert ls[1..][i - 1] == ls[i]; }
      }
      if exists i :: 0 <= i < |ls[1..]| && f(ls[1..][i]) == Some(m) {
        var i :| 0 <= i < |ls[1..]| && f(ls[1..][i]) == Some(m);
        assert ls[i + 1] == ls[1..][i];
      }
    }
  }

  // ---------------------------------------------------------------- options

  /** The names read with `Number()`. */
  const NumberKeys: set<string> :=
    {"size", "margin", "coordOffset", "coordSize", "iconSize", "terrainIconSize", "riverWidth"}

  /** The record before any directive: the settings, with an empty `key`. */
  function InitialOptions(st: Settings): Options {
    map[
      "key" := Str(""),
      "orientation" := Str(st.orientation),
      "offset" := Str(st.offset),
      "terrainKey" := Str(st.terrainKey),
      "iconKey" := Str(st.iconKey),
      "size" := Num(Finite(st.size)),
      "margin" := Num(Finite(st.margin)),
      "coordOffset" := Num(Finite(st.coordOffset)),
      "coordSize" := Num(Finite(st.coordSize)),
      "iconSize" := Num(Finite(st.iconSize)),
      "terrainIconSize" := Num(Finite(st.terrainIconSize)),
      "riverWidth" := Num(Finite(st.riverWidth)),
      "riverColour" := Str(st.riverColour)]
  }

  /** `^(\w+)=(\w+)$` on one line. A word holds no `=`, so the first `=` is the split point. */
  function KeyValueLine(l: string): Option<Directive> {
    var e := IndexOf(l, '=');
    if e < |l| && IsWord(l[..e]) && IsWord(l[e + 1..]) then Some((l[..e], l[e + 1..])) else None
  }

  /** A line is a directive exactly when it is a word, `=`, and a word, with nothing around them. */
  lemma KeyValueLineIff(l: string, k: string, v: string)
    ensures KeyValueLine(l) == Some((k, v)) <==> l == k + "=" + v && IsWord(k) && IsWord(v)
  {
    if l == k + "=" + v && IsWord(k) && IsWord(v) {
      assert forall j :: 0 <= j < |k| ==> l[j] == k[j];
      assert l[|k|] == '=';
      IndexOfFirst(l, '=', |k|);
      assert l[..|k|] == k;
      assert l[|k| + 1..] == v;
    }
    if KeyValueLine(l) == Some((k, v)) {
      var e := IndexOf(l, '=');
      assert l == l[..e] + "=" + l[e + 1..];
    }
  }

  /** Text after the value, on the same line, makes the line no directive. */
  lemma TrailingTextIsIgnored(k: string, v: string, t: string)
    requires IsWord(k) && IsWord(v) && |t| > 0 && !IsWordChar(t[0])
    ensures KeyValueLine(k + "=" + v + t) == None
  {
    var l := k + "=" + v + t;
    assert forall j :: 0 <= j < |k| ==> l[j] == k[j];
    IndexOfFirst(l, '=', |k|);
    assert l[|k| + 1..] == v + t;
    assert (v + t)[|v|] == t[0];
  }

  /** Text before the name that holds a non-word character, and no `=`, makes the line no directive. */
  lemma LeadingTextIsIgnored(p: string, k: string, v: string)
    requires (exists j :: 0 <= j < |p| && !IsWordChar(p[j])) && (forall j :: 0 <= j < |p| ==> p[j] != '=')
    requires IsWord(k) && IsWord(v)
    ensures KeyValueLine(p + k + "=" + v) == None
  {
    var l := p + k + "=" + v;
    assert forall j :: 0 <= j < |p| ==> l[j] == p[j];
    assert forall j :: |p| <= j < |p| + |k| ==> l[j] == k[j - |p|];
    IndexOfFirst(l, '=', |p| + |k|);
    var j :| 0 <= j < |p| && !IsWordChar(p[j]);
    assert l[..|p| + |k|][j] == p[j];
  }

  /** The directives of a source text, in text order. */
  function Directives(source: string): seq<Directive> {
    MatchAllLines(source, KeyValueLine)
  }

  /** The options `getOptions` returns for a source text. */
  function OptionsOf(source: string, st: Settings): Options {
    ApplyAll(InitialOptions(st), NumberKeys, Directives(source))
  }

  /** `getOptions`: the settings overwritten, directive by directive in text order. */
  method GetOptions(source: string, st: Settings) returns (options: Options)
    ensures options == OptionsOf(source, st)
  {
    var ds := Directives(source);
    ghost var init := InitialOptions(st);
    options := InitialOptions(st);
    var i := 0;
    while i < |ds|
      invariant 0 <= i <= |ds|
      invariant options == ApplyAll(init, NumberKeys, ds[..i])
    {
      var (key, value) := ds[i];
      ghost var before := options;
      if key in NumberKeys {
        options := options[key := Num(NumberOf(value))];
      } else {
        options := options[key := Str(value)];
      }
      assert options == Apply(before, NumberKeys, ds[i]);
      assert ds[..i + 1][..i] == ds[..i];
      i := i + 1;
    }
    assert ds[..i] == ds;
  }

  /** A field no directive names keeps its settings value; `key` stays empty. */
  lemma UnnamedFieldsKeepSettings(source: string, st: Settings, k: string)
    requires forall i :: 0 <= i < |Directives(source)| ==> Directives(source)[i].0 != k
    ensures Get(OptionsOf(source, st), k) == Get(InitialOptions(st), k)
    ensures k == "key" ==> Get(OptionsOf(source, st), k) == Str("")
  {
    UnnamedKeysKept(InitialOptions(st), NumberKeys, Directives(source), k);
  }

  /**
   * The last directive line naming a field decides it: `Number(value)` for the seven number
   * keys, the raw text for any other name, known or not.
   */
  lemma LastDirectiveDecides(source: string, st: Settings, i: nat)
    requires i < |Directives(source)|
    requires forall j :: i < j < |Directives(source)| ==> Directives(source)[j].0 != Directives(source)[i].0
    ensures var (k, v) := Directives(source)[i];
      Get(OptionsOf(source, st), k) == (if k in NumberKeys then Num(NumberOf(v)) else Str(v))
  {
    LastDirectiveWins(InitialOptions(st), NumberKeys, Directives(source), i);
  }

  /** The record starts with the seven number fields and six text fields. */
  lemma InitialFields(st: Settings)
    ensures InitialOptions(st).Keys
         == NumberKeys + {"key", "orientation", "offset", "terrainKey", "iconKey", "riverColour"}
    ensures forall k :: k in NumberKeys ==> InitialOptions(st)[k].Num?
  {
  }

  /** The fields of the result are the declared ones plus every directive name. */
  lemma OptionFields(source: string, st: Settings)
    ensures OptionsOf(source, st).Keys
         == InitialOptions(st).Keys + set i | 0 <= i < |Directives(source)| :: Directives(source)[i].0
  {
    KeysOfApplyAll(InitialOptions(st), NumberKeys, Directives(source));
  }

  /** A source of lines holds one directive per line that is exactly `word=word`, in order. */
  lemma DirectivesOfLines(ls: seq<string>)
    requires |ls| >= 1 && forall i :: 0 <= i < |ls| ==> OnOneLine(ls[i])
    ensures Directives(JoinLines(ls)) == MatchLines(ls, KeyValueLine)
  {
    MatchAllOfJoin(ls, KeyValueLine);
  }

  // ---------------------------------------------------------------- rivers

  datatype River = River(width: Value, coords: seq<OffsetCoordinates>)

  /** The `(\d+)\.(\d+)` tokens of a path, in order, as (col, row). */
  function PathCoords(path: string): (cs: seq<OffsetCoordinates>)
    ensures |cs| == |AllPairs(path, '.')|
    ensures forall i :: 0 <= i < |cs| ==> cs[i].col >= 0 && cs[i].row >= 0
  {
    var ps := AllPairs(path, '.');
    seq(|ps|, i requires 0 <= i < |ps| => OffsetCoordinates(ps[i].0, ps[i].1))
  }

  /**
   * `^river:(?:(\d+):)?(.*)$` on one line, case-insensitively. The optional group is greedy:
   * it is taken when the text after `river:` starts with digits followed by `:`.
   */
  function RiverLine(l: string, options: Options): Option<River> {
    if !StartsWithCI(l, "river:") then None
    else
      var rest := l[6..];
      var e := RunEnd(rest, 0, IsDigit);
      var (rawWidth, path) := if 0 < e < |rest| && rest[e] == ':' then (Some(rest[..e]), rest[e + 1..]) else (None, rest);
      Some(River(AsNumber(rawWidth, Get(options, "riverWidth")), PathCoords(path)))
  }

  /** `getRivers`: one river per `river:` line, in text order. */
  function GetRivers(source: string, options: Options): seq<River> {
    MatchAllLines(source, l => RiverLine(l, options))
  }

  /** A river line with a width reads back that width and its path's coordinates. */
  lemma RiverLineWithWidth(keyword: string, w: nat, ps: seq<(nat, nat)>, options: Options)
    requires |keyword| == 6 && StartsWithCI(keyword, "river:")
    ensures RiverLine(keyword + NatToDecimal(w) + ":" + FormatPairs(ps, '.'), options)
         == Some(River(Num(Finite(w as real)), PathOfPairs(ps)))
  {
    var digits := NatToDecimal(w);
    var path := FormatPairs(ps, '.');
    var rest := digits + ":" + path;
    var l := keyword + rest;
    assert keyword + digits + ":" + path == l;
    assert StartsWithCI(l, "river:") by {
      assert forall i :: 0 <= i < 6 ==> l[i] == keyword[i];
    }
    assert l[6..] == rest;
    WidthPrefix(digits, path);
    RiverLineOfWidth(l, RunEnd(rest, 0, IsDigit), options);
    NumberOfDigits(digits);
    AllPairsOfFormat(ps, '.');
  }

  /** The river match, read off the width run and the colon after it. */
  lemma RiverLineOfWidth(l: string, e: nat, options: Options)
    requires StartsWithCI(l, "river:")
    requires e == RunEnd(l[6..], 0, IsDigit) && 0 < e < |l[6..]| && l[6..][e] == ':'
    ensures RiverLine(l, options)
         == Some(River(AsNumber(Some(l[6..][..e]), Get(options, "riverWidth")), PathCoords(l[6..][e + 1..])))
  {
  }

  /** Digits and a colon in front of a path are the width group. */
  lemma WidthPrefix(digits: string, path: string)
    requires |digits| > 0 && AllDigits(digits)
    ensures var rest := digits + ":" + path;
      var e := RunEnd(rest, 0, IsDigit);
      e == |digits| && rest[e] == ':' && rest[..e] == digits && rest[e + 1..] == path
  {
    var rest := digits + ":" + path;
    assert forall j :: 0 <= j < |digits| ==> rest[j] == digits[j];
    RunEndIs(rest, 0, IsDigit, |digits|);
    assert rest[..|digits|] == digits;
    assert rest[|digits| + 1..] == path;
  }

  /** A river line without a width takes `riverWidth` from the options. */
  lemma RiverLineWithoutWidth(keyword: string, ps: seq<(nat, nat)>, options: Options)
    requires |keyword| == 6 && StartsWithCI(keyword, "river:")
    ensures RiverLine(keyword + FormatPairs(ps, '.'), options)
         == Some(River(Get(options, "riverWidth"), PathOfPairs(ps)))
  {
    var path := FormatPairs(ps, '.');
    var l := keyword + path;
    assert StartsWithCI(l, "river:") by {
      assert forall i :: 0 <= i < 6 ==> l[i] == keyword[i];
    }
    assert l[6..] == path;
    FormatAvoids(ps, '.', ':');
    var e := RunEnd(path, 0, IsDigit);
    assert e < |path| ==> path[e] != ':';
    AllPairsOfFormat(ps, '.');
  }

  function PathOfPairs(ps: seq<(nat, nat)>): seq<OffsetCoordinates> {
    seq(|ps|, i requires 0 <= i < |ps| => OffsetCoordinates(ps[i].0, ps[i].1))
  }

  // ---------------------------------------------------------------- overlays and borders

  /** The captures of `^<keyword>(#\w+):(\w+)(?::([\d\.]+))?$`: the tag with its `#`, a word, an optional amount. */
  datatype TagStyle = TagStyle(tag: string, style: string, amount: Option<string>)

  /** `[\d\.]+` */
  predicate IsNumeral(s: string) {
    |s| > 0 && forall i :: 0 <= i < |s| ==> IsDigit(s[i]) || s[i] == '.'
  }

  /** The tag-style pattern on one line; `keyword` is `overlay:` or `border:`, matched case-insensitively. */
  function TagStyleLine(l: string, keyword: string): Option<TagStyle> {
    if !StartsWithCI(l, keyword) then None else TagStyleBody(l[|keyword|..])
  }

  /** `(#\w+):(\w+)(?::([\d\.]+))?$` on the text after the keyword. */
  function TagStyleBody(rest: string): Option<TagStyle> {
    if |rest| < 2 || rest[0] != '#' then None
    else
      var t := RunEnd(rest, 1, IsWordChar);
      if t == 1 || t == |rest| || rest[t] != ':' then None
      else
        var f := RunEnd(rest, t + 1, IsWordChar);
        if f == t + 1 then None
        else if f == |rest| then Some(TagStyle(rest[..t], rest[t + 1..f], None))
        else if rest[f] == ':' && IsNumeral(rest[f + 1..]) then Some(TagStyle(rest[..t], rest[t + 1..f], Some(rest[f + 1..])))
        else None
  }

  datatype Overlay = Overlay(tag: string, fill: string, opacity: Value)

  datatype Border = Border(tag: string, colour: string, thickness: Value)

  function OverlayLine(l: string): Option<Overlay> {
    match TagStyleLine(l, "overlay:")
    case None => None
    case Some(ts) => Some(Overlay(ts.tag, ts.style, AsNumber(ts.amount, Num(Finite(0.4)))))
  }

  function BorderLine(l: string): Option<Border> {
    match TagStyleLine(l, "border:")
    case None => None
    case Some(ts) => Some(Border(ts.tag, ts.style, AsNumber(ts.amount, Num(Finite(1.0)))))
  }

  /** `getOverlays`: one entry per `overlay:` line, in text order. */
  function GetOverlays(source: string): seq<Overlay> {
    MatchAllLines(source, OverlayLine)
  }

  /** `getBorders`: one entry per `border:` line, in text order. */
  function GetBorders(source: string): seq<Border> {
    MatchAllLines(source, BorderLine)
  }

  /** The line a tag style is written as. */
  function FormatTagStyle(keyword: string, tag: string, style: string, amount: Option<string>): string {
    keyword + "#" + tag + ":" + style + (match amount case None => "" case Some(a) => ":" + a)
  }

  /** A written tag style reads back whole, the `#` kept on the tag. */
  lemma TagStyleRoundTrip(keyword: string, tag: string, style: string, amount: Option<string>)
    requires StartsWithCI(keyword, keyword)
    requires IsWord(tag) && IsWord(style) && (amount.Some? ==> IsNumeral(amount.value))
    ensures TagStyleLine(FormatTagStyle(keyword, tag, style, amount), keyword)
         == Some(TagStyle("#" + tag, style, amount))
  {
    var tail := match amount case None => "" case Some(a) => ":" + a;
    var rest := "#" + tag + ":" + style + tail;
    assert FormatTagStyle(keyword, tag, style, amount) == keyword + rest;
    KeywordStripped(keyword, rest);
    TagStyleBodyRoundTrip(tag, style, amount);
  }

  /** A line that starts with the keyword is matched on the text after it. */
  lemma KeywordStripped(keyword: string, rest: string)
    requires StartsWithCI(keyword, keyword)
    ensures TagStyleLine(keyword + rest, keyword) == TagStyleBody(rest)
  {
    var l := keyword + rest;
    assert StartsWithCI(l, keyword) by {
      forall i | 0 <= i < |keyword| ensures Lower(l[i]) == keyword[i] {
        assert l[i] == keyword[i];
      }
    }
    DropPrefix(keyword, rest);
  }

  lemma TagStyleBodyRoundTrip(tag: string, style: string, amount: Option<string>)
    requires IsWord(tag) && IsWord(style) && (amount.Some? ==> IsNumeral(amount.value))
    ensures var tail := match amount case None => "" case Some(a) => ":" + a;
      TagStyleBody("#" + tag + ":" + style + tail) == Some(TagStyle("#" + tag, style, amount))
  {
    var tail := match amount case None => "" case Some(a) => ":" + a;
    var head := "#" + tag + ":";
    var rest := head + style + tail;
    TagRun(tag, style + tail);
    assert rest == "#" + tag + (":" + (style + tail));
    var t := RunEnd(rest, 1, IsWordChar);
    assert t == 1 + |tag| && rest[t] == ':' && rest[..t] == "#" + tag;
    WordRunAt(head, style, tail);
    var f := RunEnd(rest, t + 1, IsWordChar);
    assert f == |head| + |style| && rest[t + 1..f] == style;
    assert rest[0] == '#';
    if amount.Some? {
      AfterColon(rest, f, amount.value);
    } else {
      assert f == |rest|;
    }
    TagStyleBodyOfRuns(rest, t, f, amount);
  }

  /** The body match, read off the two runs and what follows them. */
  lemma TagStyleBodyOfRuns(rest: string, t: nat, f: nat, amount: Option<string>)
    requires |rest| >= 2 && rest[0] == '#'
    requires t == RunEnd(rest, 1, IsWordChar) && 1 < t < |rest| && rest[t] == ':'
    requires f == RunEnd(rest, t + 1, IsWordChar) && t + 1 < f
    requires amount.None? ==> f == |rest|
    requires amount.Some? ==> f < |rest| && rest[f] == ':' && rest[f + 1..] == amount.value && IsNumeral(amount.value)
    ensures TagStyleBody(rest) == Some(TagStyle(rest[..t], rest[t + 1..f], amount))
  {
  }

  /** Where the rest of a text is `:` and `a`, the character there is the colon and `a` follows it. */
  lemma AfterColon(s: string, f: nat, a: string)
    requires f <= |s| && s[f..] == ":" + a
    ensures f < |s| && s[f] == ':' && s[f + 1..] == a
  {
    assert s[f..][0] == s[f];
    assert s[f..][1..] == s[f + 1..];
  }

  /** `#`, a word, then `:` and more: the tag run ends at the colon. */
  lemma TagRun(tag: string, more: string)
    requires IsWord(tag)
    ensures var rest := "#" + tag + (":" + more);
      && RunEnd(rest, 1, IsWordChar) == 1 + |tag|
      && rest[1 + |tag|] == ':' && rest[..1 + |tag|] == "#" + tag
  {
    WordRunAt("#", tag, ":" + more);
    var rest := "#" + tag + (":" + more);
    assert rest[..1 + |tag|] == "#" + tag;
  }

  /** An overlay without an opacity, or with one that is no number such as `1.2.3`, is drawn at 0.4. */
  lemma OverlayOpacityDefault(tag: string, fill: string)
    requires IsWord(tag) && IsWord(fill)
    ensures OverlayLine(FormatTagStyle("overlay:", tag, fill, None)) == Some(Overlay("#" + tag, fill, Num(Finite(0.4))))
    ensures OverlayLine(FormatTagStyle("overlay:", tag, fill, Some("1.2.3"))) == Some(Overlay("#" + tag, fill, Num(Finite(0.4))))
  {
    TagStyleRoundTrip("overlay:", tag, fill, None);
    TagStyleRoundTrip("overlay:", tag, fill, Some("1.2.3"));
    NumberOfTwoPoints("1.2.3", 1, 3);
  }

  /** A border thickness given as digits is that number; without one the thickness is 1. */
  lemma BorderThickness(tag: string, colour: string, n: nat)
    requires IsWord(tag) && IsWord(colour)
    ensures BorderLine(FormatTagStyle("border:", tag, colour, None)) == Some(Border("#" + tag, colour, Num(Finite(1.0))))
    ensures BorderLine(FormatTagStyle("border:", tag, colour, Some(NatToDecimal(n))))
         == Some(Border("#" + tag, colour, Num(Finite(n as real))))
  {
    TagStyleRoundTrip("border:", tag, colour, None);
    TagStyleRoundTrip("border:", tag, colour, Some(NatToDecimal(n)));
    NumberOfDigits(NatToDecimal(n));
  }
}
