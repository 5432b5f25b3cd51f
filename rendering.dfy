/**
 * The data side of `renderHexMap` (rendering.ts): options, layout, the cells read from the
 * notes' frontmatter, the view box tracked over their corners, and the rivers.
 */
module Rendering {
  import opened Text
  import opened Numbers
  import opened Wrappers
  import opened Patterns
  import opened HexCoords
  import opened Points
  import opened Maths
  import opened Orientations
  import opened Layouts
  import opened OptionValues
  import opened PluginSettings
  import opened Coords
  import opened Extents
  import Legacy = LegacyOptions
  import Parsing

  // ---------------------------------------------------------------- setup

  /** `orientation === "flat"` selects the flat tiling; anything else the pointy one. */
  function OrientationOf(m: Maths, v: Value): Orientation {
    if v == Str("flat") then Flat(m) else Pointy(m)
  }

  /** `offset === "even"` gives 1; anything else -1. */
  function OffsetOf(v: Value): (offset: Parity)
    ensures offset == 1 <==> v == Str("even")
  {
    if v == Str("even") then 1 else -1
  }

  // ---------------------------------------------------------------- cells

  /** A note: its frontmatter, when it has one, and its name and path. */
  datatype FileRecord = FileRecord(frontmatter: Option<map<string, FmValue>>, basename: string, path: string)

  /** One drawn cell: centre, offset coordinates, polygon corners and the note it stands for. */
  datatype Cell = Cell(
    centre: Point, col: int, row: int, corners: seq<Point>,
    name: string, path: string, terrain: Option<FmValue>, icon: Option<FmValue>)

  /** The names under which a note's frontmatter is read. */
  datatype Keys = Keys(key: string, terrainKey: string, iconKey: string)

  /** Frontmatter field read: None is `undefined`. */
  function Field(fm: map<string, FmValue>, k: string): Option<FmValue> {
    if k in fm then Some(fm[k]) else None
  }

  /** `getCoords` of a field that may be `undefined`. */
  function FieldCoords(v: Option<FmValue>): Option<seq<OffsetCoordinates>> {
    match v
    case None => None
    case Some(x) => CoordsOf(x)
  }

  /** The cell of one coordinate pair of a note. */
  function CellOf(l: Layout, m: Maths, offset: Parity, fm: map<string, FmValue>, keys: Keys,
                  file: FileRecord, co: OffsetCoordinates): Cell
  {
    var hex := FromQOffsetCoordinates(offset, co);
    Cell(ToPixel(l, hex), co.col, co.row, GetPolygonCorners(l, m, hex),
         file.basename, file.path, Field(fm, keys.terrainKey), Field(fm, keys.iconKey))
  }

  /** The cells of one note: none without frontmatter or readable coordinates, else one per pair. */
  function FileCells(l: Layout, m: Maths, offset: Parity, keys: Keys, file: FileRecord): seq<Cell> {
    match file.frontmatter
    case None => []
    case Some(fm) =>
      match FieldCoords(Field(fm, keys.key))
      case None => []
      case Some(cs) => seq(|cs|, i requires 0 <= i < |cs| => CellOf(l, m, offset, fm, keys, file, cs[i]))
  }

  /** The `flatMap` over the notes, in order. */
  function Cells(l: Layout, m: Maths, offset: Parity, keys: Keys, files: seq<FileRecord>): seq<Cell> {
    Flatten(seq(|files|, i requires 0 <= i < |files| => FileCells(l, m, offset, keys, files[i])))
  }

  /** The corners in the order `hexConverter` sees them: cell by cell, corner 0 to 5. */
  function AllCorners(cells: seq<Cell>): seq<Point> {
    Flatten(seq(|cells|, i requires 0 <= i < |cells| => cells[i].corners))
  }

  /** Each pair read from a note becomes one cell, centred on its hex, with that hex's polygon. */
  lemma FileCellsFollowCoords(l: Layout, m: Maths, offset: Parity, keys: Keys, file: FileRecord,
                              fm: map<string, FmValue>, cs: seq<OffsetCoordinates>)
    requires file.frontmatter == Some(fm) && FieldCoords(Field(fm, keys.key)) == Some(cs)
    ensures var cells := FileCells(l, m, offset, keys, file);
      && |cells| == |cs|
      && forall i :: 0 <= i < |cs| ==>
           var hex := FromQOffsetCoordinates(offset, cs[i]);
           && cells[i].centre == ToPixel(l, hex)
           && cells[i].corners == GetPolygonCorners(l, m, hex)
           && cells[i].col == cs[i].col && cells[i].row == cs[i].row
           && cells[i].name == file.basename && cells[i].path == file.path
  {
  }

  /** A note without frontmatter, or whose coordinate field reads as `undefined`, adds no cell. */
  lemma SilentNotesAddNothing(l: Layout, m: Maths, offset: Parity, keys: Keys, files: seq<FileRecord>, file: FileRecord)
    requires file.frontmatter.None? || FieldCoords(Field(file.frontmatter.value, keys.key)).None?
    ensures Cells(l, m, offset, keys, files + [file]) == Cells(l, m, offset, keys, files)
  {
    var all := files + [file];
    var xs := seq(|all|, i requires 0 <= i < |all| => FileCells(l, m, offset, keys, all[i]));
    var ys := seq(|files|, i requires 0 <= i < |files| => FileCells(l, m, offset, keys, files[i]));
    assert xs[..|xs| - 1] == ys;
    assert xs[|xs| - 1] == [];
  }

  /** Every cell's polygon has six corners, so six points per cell go through `hexConverter`. */
  lemma {:induction false} SixCornersPerCell(cells: seq<Cell>, l: Layout, m: Maths)
    requires forall i :: 0 <= i < |cells| ==> |cells[i].corners| == 6
    ensures |AllCorners(cells)| == 6 * |cells|
  {
    if cells != [] {
      var init := cells[..|cells| - 1];
      SixCornersPerCell(init, l, m);
      var xs := seq(|cells|, i requires 0 <= i < |cells| => cells[i].corners);
      assert xs[..|xs| - 1] == seq(|init|, i requires 0 <= i < |init| => init[i].corners);
    }
  }

  // ---------------------------------------------------------------- fill

  /** `settings.terrain[terrain ?? "Unknown"]?.bg ?? "#222222"`. */
  function Fill(terrains: map<string, TerrainSettings>, terrain: Option<FmValue>): string {
    var name := match terrain
      case None => Some("Unknown")
      case Some(FNull) => Some("Unknown")
      case Some(FString(s)) => Some(s)
      case Some(_) => None;
    if name.Some? && name.value in terrains then terrains[name.value].bg else "#222222"
  }

  /** A named terrain takes its background colour; a missing or null one is looked up as `Unknown`. */
  lemma FillRules(terrains: map<string, TerrainSettings>, terrain: Option<FmValue>)
    ensures forall s :: terrain == Some(FString(s)) && s in terrains ==> Fill(terrains, terrain) == terrains[s].bg
    ensures forall s :: terrain == Some(FString(s)) && s !in terrains ==> Fill(terrains, terrain) == "#222222"
    ensures (terrain.None? || terrain == Some(FNull)) ==>
      Fill(terrains, terrain) == (if "Unknown" in terrains then terrains["Unknown"].bg else "#222222")
  {
  }

  // ---------------------------------------------------------------- rivers

  /** One match of the river pattern: the width capture, the path capture (None when undefined), the match end. */
  datatype RiverMatch = RiverMatch(rawWidth: Option<string>, path: Option<string>, end: nat)

  /**
   * `river:(?:(\d+):)?(.*)*` at position `i`, case-insensitively. The outer `*` of `(.*)*`
   * rejects an iteration that matches nothing, so when the line ends right after the prefix
   * the path group takes no iteration and stays undefined.
   */
  function RiverAt(s: string, i: nat): (r: Option<RiverMatch>)
    requires i <= |s|
    ensures r.Some? ==> i < r.value.end <= |s|
  {
    if !StartsWithCI(s[i..], "river:") then None
    else
      var a := i + 6;
      var e := RunEnd(s, a, IsDigit);
      var b := if a < e && e < |s| && s[e] == ':' then e + 1 else a;
      var le := LineEnd(s, b);
      Some(RiverMatch(if b > a then Some(s[a..e]) else None, if le > b then Some(s[b..le]) else None, le))
  }

  /** The leftmost river match at or after `from`. */
  function FirstRiver(s: string, from: nat): (r: Option<RiverMatch>)
    requires from <= |s|
    ensures r.Some? ==> from < r.value.end <= |s|
    decreases |s| - from
  {
    if from == |s| then None
    else
      match RiverAt(s, from)
      case Some(m) => Some(m)
      case None => FirstRiver(s, from + 1)
  }

  /** Every river match from `from` on, in text order. */
  function RiverMatches(s: string, from: nat): seq<RiverMatch>
    requires from <= |s|
    decreases |s| - from
  {
    match FirstRiver(s, from)
    case None => []
    case Some(m) => [m] + RiverMatches(s, m.end)
  }

  /** The river of one match; the path of a match without one is read as empty. */
  function RiverOf(m: RiverMatch, options: Options): Parsing.River {
    Parsing.River(AsNumber(m.rawWidth, Get(options, "riverWidth")), Parsing.PathCoords(m.path.GetOr("")))
  }

  /** The rivers drawn, and whether the generator threw before finishing. */
  datatype RiverRun = RiverRun(rivers: seq<Parsing.River>, threw: bool)

  /**
   * `getRivers` as written: a match whose path capture is undefined makes `path.matchAll`
   * throw a TypeError, so no river from that match on is drawn.
   */
  function GetRiversAsWritten(ms: seq<RiverMatch>, options: Options): RiverRun {
    if ms == [] then RiverRun([], false)
    else if ms[0].path.None? then RiverRun([], true)
    else
      var rest := GetRiversAsWritten(ms[1..], options);
      RiverRun([RiverOf(ms[0], options)] + rest.rivers, rest.threw)
  }

  /** `getRivers` as intended: one river per match, a match with nothing after the prefix having no coordinates. */
  function GetRivers(ms: seq<RiverMatch>, options: Options): seq<Parsing.River> {
    seq(|ms|, i requires 0 <= i < |ms| => RiverOf(ms[i], options))
  }

  /** A `river:` at the end of the text throws in the code as written. */
  lemma BareRiverThrows(p: string, options: Options)
    ensures GetRiversAsWritten(RiverMatches(p + "river:", |p|), options).threw
    ensures GetRivers(RiverMatches(p + "river:", |p|), options) == [Parsing.River(Get(options, "riverWidth"), [])]
  {
    var s := p + "river:";
    assert s[|p|..] == "river:";
    assert LineEnd(s, |s|) == |s|;
    assert RiverAt(s, |p|) == Some(RiverMatch(None, None, |s|));
    assert RiverMatches(s, |p|) == [RiverMatch(None, None, |s|)];
    assert AllPairs("", '.') == [];
  }

  /** When every match has a path, the code as written draws every river, exactly as intended. */
  lemma {:induction false} AsWrittenAgreesWhenPathsPresent(ms: seq<RiverMatch>, options: Options)
    requires forall i :: 0 <= i < |ms| ==> ms[i].path.Some?
    ensures GetRiversAsWritten(ms, options) == RiverRun(GetRivers(ms, options), false)
  {
    if ms != [] {
      AsWrittenAgreesWhenPathsPresent(ms[1..], options);
    }
  }

  /**
   * The code as written draws the intended rivers up to the first match without a path,
   * and throws exactly when there is such a match.
   */
  lemma {:induction false} AsWrittenIsPrefix(ms: seq<RiverMatch>, options: Options)
    ensures var run := GetRiversAsWritten(ms, options);
      && |run.rivers| <= |ms|
      && run.rivers == GetRivers(ms, options)[..|run.rivers|]
      && (forall i :: 0 <= i < |run.rivers| ==> ms[i].path.Some?)
      && (run.threw <==> |run.rivers| < |ms|)
      && (run.threw ==> ms[|run.rivers|].path.None?)
  {
    if ms != [] && ms[0].path.Some? {
      var tail := ms[1..];
      AsWrittenIsPrefix(tail, options);
      var rest := GetRiversAsWritten(tail, options);
      var rivers := [RiverOf(ms[0], options)] + rest.rivers;
      assert GetRiversAsWritten(ms, options) == RiverRun(rivers, rest.threw);
      forall i | 1 <= i < |rivers| ensures rivers[i] == RiverOf(ms[i], options) && ms[i].path.Some? {
        assert rest.rivers[i - 1] == GetRivers(tail, options)[i - 1];
        assert tail[i - 1] == ms[i];
      }
      assert rivers == GetRivers(ms, options)[..|rivers|];
    }
  }

  // ---------------------------------------------------------------- what a river match captures

  /**
   * `river:W:P` at `i`, in any letter case, with `W` digits and `P` running to the line end:
   * width `W`, path `P` unless it is empty, and the match ends at the line end.
   */
  lemma RiverAtWithWidth(s: string, i: nat, w: string, path: string)
    requires i + 7 + |w| + |path| <= |s| && StartsWithCI(s[i..], "river:")
    requires |w| > 0 && AllDigits(w) && s[i + 6..i + 6 + |w|] == w && s[i + 6 + |w|] == ':'
    requires s[i + 7 + |w|..i + 7 + |w| + |path|] == path && OnOneLine(path)
    requires i + 7 + |w| + |path| == |s| || IsLineTerminator(s[i + 7 + |w| + |path|])
    ensures RiverAt(s, i) == Some(RiverMatch(Some(w), if path == [] then None else Some(path), i + 7 + |w| + |path|))
  {
    var a := i + 6;
    var e := a + |w|;
    forall j | a <= j < e ensures IsDigit(s[j]) {
      assert s[j] == s[a..e][j - a];
    }
    RunEndIs(s, a, IsDigit, e);
    PathToLineEnd(s, e + 1, path);
    RiverFrom(s, i, e, e + 1, e + 1 + |path|, Some(w), path);
  }

  /**
   * `river:P` at `i`, where `P` runs to the line end and does not open with digits and a colon:
   * no width, path `P` unless it is empty, and the match ends at the line end.
   */
  lemma RiverAtWithoutWidth(s: string, i: nat, path: string)
    requires i + 6 + |path| <= |s| && StartsWithCI(s[i..], "river:")
    requires s[i + 6..i + 6 + |path|] == path && OnOneLine(path)
    requires i + 6 + |path| == |s| || IsLineTerminator(s[i + 6 + |path|])
    requires !OpensWithWidth(path)
    ensures RiverAt(s, i) == Some(RiverMatch(None, if path == [] then None else Some(path), i + 6 + |path|))
  {
    var a := i + 6;
    var e := NoWidthRun(s, a, path);
    PathToLineEnd(s, a, path);
    RiverFrom(s, i, e, a, a + |path|, None, path);
  }

  /** `path` opens with digits and a colon, which the pattern reads as a width. */
  predicate OpensWithWidth(path: string) {
    var d := RunEnd(path, 0, IsDigit);
    0 < d < |path| && path[d] == ':'
  }

  /** Digits opening a path that are not followed by a colon are no width: the path starts where they do. */
  lemma NoWidthRun(s: string, a: nat, path: string) returns (e: nat)
    requires a + |path| <= |s| && s[a..a + |path|] == path
    requires a + |path| == |s| || IsLineTerminator(s[a + |path|])
    requires !OpensWithWidth(path)
    ensures RunEnd(s, a, IsDigit) == e && !(a < e && e < |s| && s[e] == ':')
  {
    var d := RunEnd(path, 0, IsDigit);
    e := a + d;
    forall j | a <= j < a + d ensures IsDigit(s[j]) {
      assert s[j] == path[j - a];
    }
    if d < |path| {
      assert s[a + d] == path[d];
    }
    RunEndIs(s, a, IsDigit, a + d);
  }

  /** Text on one line that reaches a terminator or the end is where `.*` from its start stops. */
  lemma PathToLineEnd(s: string, b: nat, path: string)
    requires b + |path| <= |s| && s[b..b + |path|] == path && OnOneLine(path)
    requires b + |path| == |s| || IsLineTerminator(s[b + |path|])
    ensures LineEnd(s, b) == b + |path|
  {
    forall j | b <= j < b + |path| ensures !IsLineTerminator(s[j]) {
      assert s[j] == path[j - b];
    }
    LineEndIs(s, b, b + |path|);
  }

  /** A match whose positions are known, with the width and path captures given as text. */
  lemma RiverFrom(s: string, i: nat, e: nat, b: nat, le: nat, w: Option<string>, path: string)
    requires i <= |s| && StartsWithCI(s[i..], "river:")
    requires e == RunEnd(s, i + 6, IsDigit)
    requires b == if i + 6 < e && e < |s| && s[e] == ':' then e + 1 else i + 6
    requires le == LineEnd(s, b) && b <= le && s[b..le] == path
    requires w == if b > i + 6 then Some(s[i + 6..e]) else None
    ensures RiverAt(s, i) == Some(RiverMatch(w, if path == [] then None else Some(path), le))
  {
    RiverAtIs(s, i, e, b, le);
  }

  /** `river:3` is no width and the path `3`. */
  lemma RiverThreeIsAPath()
    ensures RiverAt("river:3", 0) == Some(RiverMatch(None, Some("3"), 7))
  {
    assert RunEnd("3", 0, IsDigit) == 1;
    RiverAtWithoutWidth("river:3", 0, "3");
  }

  /** `River:12:a b` is width `12` and path `a b`. */
  lemma RiverWithWidthExample()
    ensures RiverAt("River:12:a b", 0) == Some(RiverMatch(Some("12"), Some("a b"), 12))
  {
    var s := "River:12:a b";
    assert StartsWithCI(s[0..], "river:");
    assert s[6..8] == "12";
    assert s[9..12] == "a b";
    RiverAtWithWidth(s, 0, "12", "a b");
  }

  /** The pattern is not anchored: the search passes over text in which no `river:` begins. */
  lemma {:induction false} FirstRiverSkips(s: string, from: nat, i: nat)
    requires from <= i < |s| && StartsWithCI(s[i..], "river:")
    requires forall j :: from <= j < i ==> !StartsWithCI(s[j..], "river:")
    ensures FirstRiver(s, from) == RiverAt(s, i) && RiverAt(s, i).Some?
    decreases i - from
  {
    if from < i {
      FirstRiverSkips(s, from + 1, i);
    }
  }

  /** A `river:` behind text with no `r` in it, such as `x river:a`, is the first match. */
  lemma MidLineRiverFound(s: string, i: nat)
    requires i < |s| && StartsWithCI(s[i..], "river:")
    requires forall j :: 0 <= j < i ==> Lower(s[j]) != 'r'
    ensures FirstRiver(s, 0) == RiverAt(s, i) && RiverAt(s, i).Some?
  {
    forall j | 0 <= j < i ensures !StartsWithCI(s[j..], "river:") {
      assert s[j..][0] == s[j];
    }
    FirstRiverSkips(s, 0, i);
  }

  /** The captures of a river match: the width text and the path text. */
  function Captures(ms: seq<RiverMatch>): (cs: seq<(Option<string>, Option<string>)>)
    ensures |cs| == |ms|
  {
    if ms == [] then [] else [(ms[0].rawWidth, ms[0].path)] + Captures(ms[1..])
  }

  /** The captures of the first river match in one line, if any. */
  function LineCaptures(l: string): Option<(Option<string>, Option<string>)> {
    match FirstRiver(l, 0)
    case None => None
    case Some(m) => Some((m.rawWidth, m.path))
  }

  /** The same match, moved `d` characters to the right. */
  function MovedBy(r: Option<RiverMatch>, d: nat): Option<RiverMatch> {
    match r
    case None => None
    case Some(m) => Some(m.(end := m.end + d))
  }

  /**
   * A text made of lines, with any line breaks between them (`"\n"`, `"\r\n"`, ...), yields one river
   * match per line holding a `river:`, in line order, each capturing what the first `river:` of its line
   * captures: `.*` stops at the line end.
   */
  lemma RiverMatchesOfLines(ls: seq<string>, ts: seq<string>)
    requires |ls| >= 1 && forall i :: 0 <= i < |ls| ==> OnOneLine(ls[i])
    requires |ts| == |ls| - 1 && forall k :: 0 <= k < |ts| ==> IsLineBreak(ts[k])
    ensures Captures(RiverMatches(JoinLinesBy(ls, ts), 0)) == Parsing.MatchLines(ls, LineCaptures)
  {
    var s := JoinLinesBy(ls, ts);
    assert s[0..] == s;
    RiverMatchesFrom(s, 0, ls, ts);
  }

  /** `RiverMatchesOfLines` from the start `off` of any line of the text. */
  lemma {:induction false} RiverMatchesFrom(s: string, off: nat, ls: seq<string>, ts: seq<string>)
    requires |ls| >= 1 && forall i :: 0 <= i < |ls| ==> OnOneLine(ls[i])
    requires |ts| == |ls| - 1 && forall k :: 0 <= k < |ts| ==> IsLineBreak(ts[k])
    requires off <= |s| && s[off..] == JoinLinesBy(ls, ts)
    ensures Captures(RiverMatches(s, off)) == Parsing.MatchLines(ls, LineCaptures)
    decreases |ls|
  {
    var head := match LineCaptures(ls[0]) case Some(c) => [c] case None => [];
    var stop := off + |ls[0]|;
    assert Captures(RiverMatches(s, off)) == head + Captures(RiverMatches(s, stop)) by {
      LineOfJoin(s, off, ls, ts);
      RiverMatchesOverLine(s, off, ls[0]);
    }
    assert Captures(RiverMatches(s, stop)) == Parsing.MatchLines(ls[1..], LineCaptures) by {
      LineOfJoin(s, off, ls, ts);
      MatchesAfterLine(s, off, ls, ts);
    }
    assert Parsing.MatchLines(ls, LineCaptures) == head + Parsing.MatchLines(ls[1..], LineCaptures);
  }

  /** The matches from the start of a line: the line's own, then those after it. */
  lemma RiverMatchesOverLine(s: string, off: nat, l: string)
    requires off + |l| <= |s| && s[off..off + |l|] == l && OnOneLine(l)
    requires off + |l| == |s| || IsLineTerminator(s[off + |l|])
    ensures Captures(RiverMatches(s, off))
         == (match LineCaptures(l) case Some(c) => [c] case None => []) + Captures(RiverMatches(s, off + |l|))
  {
    FirstRiverOverLine(s, off, l);
    MatchesOverFirst(s, off, off + |l|, l);
  }

  /** The first match from the start of a line is the line's own, ending at its end, or one after it. */
  lemma FirstRiverOverLine(s: string, off: nat, l: string)
    requires off + |l| <= |s| && s[off..off + |l|] == l && OnOneLine(l)
    requires off + |l| == |s| || IsLineTerminator(s[off + |l|])
    ensures FirstRiver(s, off) == match FirstRiver(l, 0)
      case Some(m) => Some(m.(end := off + |l|))
      case None => FirstRiver(s, off + |l|)
  {
    FirstRiverInLine(s, off, l, 0);
    LineRiverEndsAtLineEnd(l, 0);
  }

  lemma MatchesOverFirst(s: string, off: nat, stop: nat, l: string)
    requires off <= stop <= |s|
    requires FirstRiver(s, off) == match FirstRiver(l, 0)
      case Some(m) => Some(m.(end := stop))
      case None => FirstRiver(s, stop)
    ensures Captures(RiverMatches(s, off))
         == (match LineCaptures(l) case Some(c) => [c] case None => []) + Captures(RiverMatches(s, stop))
  {
    match FirstRiver(l, 0)
    case Some(m) =>
      var m' := m.(end := stop);
      assert RiverMatches(s, off) == [m'] + RiverMatches(s, stop);
      assert ([m'] + RiverMatches(s, stop))[1..] == RiverMatches(s, stop);
    case None =>
      if FirstRiver(s, stop).None? {
        assert RiverMatches(s, off) == [];
      }
  }

  /** After the first line, the matches are those of the remaining lines. */
  lemma {:induction false} MatchesAfterLine(s: string, off: nat, ls: seq<string>, ts: seq<string>)
    requires |ls| >= 1 && forall i :: 0 <= i < |ls| ==> OnOneLine(ls[i])
    requires |ts| == |ls| - 1 && forall k :: 0 <= k < |ts| ==> IsLineBreak(ts[k])
    requires off + |ls[0]| <= |s|
    requires |ls| == 1 ==> off + |ls[0]| == |s|
    requires |ls| > 1 ==> off + |ls[0]| + |ts[0]| <= |s| && s[off + |ls[0]|..off + |ls[0]| + |ts[0]|] == ts[0]
                          && s[off + |ls[0]| + |ts[0]|..] == JoinLinesBy(ls[1..], ts[1..])
    ensures Captures(RiverMatches(s, off + |ls[0]|)) == Parsing.MatchLines(ls[1..], LineCaptures)
    decreases |ls|, 0
  {
    var stop := off + |ls[0]|;
    if |ls| == 1 {
      assert ls[1..] == [];
    } else {
      MatchesOverBreak(s, stop, ts[0]);
      forall i | 0 <= i < |ls[1..]| ensures OnOneLine(ls[1..][i]) {
        assert ls[1..][i] == ls[i + 1];
      }
      forall k | 0 <= k < |ts[1..]| ensures IsLineBreak(ts[1..][k]) {
        assert ts[1..][k] == ts[k + 1];
      }
      RiverMatchesFrom(s, stop + |ts[0]|, ls[1..], ts[1..]);
    }
  }

  /** No match starts inside a line break, so the matches from its start are those from its end. */
  lemma MatchesOverBreak(s: string, i: nat, t: string)
    requires i + |t| <= |s| && s[i..i + |t|] == t && IsLineBreak(t)
    ensures RiverMatches(s, i) == RiverMatches(s, i + |t|)
  {
    forall k | i <= k < i + |t| ensures IsLineTerminator(s[k]) {
      assert s[k] == t[k - i];
    }
    MatchesOverTerminators(s, i, i + |t|);
  }

  lemma {:induction false} MatchesOverTerminators(s: string, i: nat, j: nat)
    requires i <= j <= |s| && forall k :: i <= k < j ==> IsLineTerminator(s[k])
    ensures RiverMatches(s, i) == RiverMatches(s, j)
    decreases j - i
  {
    if i < j {
      NoRiverAtTerminator(s, i);
      assert FirstRiver(s, i) == FirstRiver(s, i + 1);
      MatchesOverTerminators(s, i + 1, j);
    }
  }

  /** No match starts at a line terminator. */
  lemma NoRiverAtTerminator(s: string, i: nat)
    requires i < |s| && IsLineTerminator(s[i])
    ensures RiverAt(s, i) == None
  {
    assert s[i..][0] == s[i];
  }

  /** The first line of a text of lines, and what follows it. */
  lemma LineOfJoin(s: string, off: nat, ls: seq<string>, ts: seq<string>)
    requires |ls| >= 1 && |ts| == |ls| - 1
    requires off <= |s| && s[off..] == JoinLinesBy(ls, ts)
    ensures off + |ls[0]| <= |s| && s[off..off + |ls[0]|] == ls[0]
    ensures |ls| == 1 ==> off + |ls[0]| == |s|
    ensures |ls| > 1 ==> off + |ls[0]| + |ts[0]| <= |s| && s[off + |ls[0]|..off + |ls[0]| + |ts[0]|] == ts[0]
                         && s[off + |ls[0]| + |ts[0]|..] == JoinLinesBy(ls[1..], ts[1..])
  {
    var l := ls[0];
    if |ls| > 1 {
      var t := ts[0];
      var rest := JoinLinesBy(ls[1..], ts[1..]);
      assert s[off..] == l + t + rest;
      assert s[off..][..|l|] == l;
      assert s[off + |l|..off + |l| + |t|] == s[off..][|l|..|l| + |t|];
      assert s[off..][|l|..|l| + |t|] == t;
      assert s[off + |l| + |t|..] == s[off..][|l| + |t|..];
      assert s[off..][|l| + |t|..] == rest;
    } else {
      assert s[off..] == l;
    }
  }

  /** Within a line, the search in the text is the search in the line, moved to where the line starts. */
  lemma {:induction false} FirstRiverInLine(s: string, off: nat, l: string, j: nat)
    requires off + |l| <= |s| && s[off..off + |l|] == l && OnOneLine(l)
    requires off + |l| == |s| || IsLineTerminator(s[off + |l|])
    requires j <= |l|
    ensures FirstRiver(l, j).Some? ==> FirstRiver(s, off + j) == MovedBy(FirstRiver(l, j), off)
    ensures FirstRiver(l, j).None? ==> FirstRiver(s, off + j) == FirstRiver(s, off + |l|)
    decreases |l| - j
  {
    if j < |l| {
      RiverAtInLine(s, off, l, j);
      if RiverAt(l, j).None? {
        FirstRiverInLine(s, off, l, j + 1);
      }
    }
  }

  /** A match inside a line ends at the end of the line. */
  lemma {:induction false} LineRiverEndsAtLineEnd(l: string, j: nat)
    requires OnOneLine(l) && j <= |l|
    ensures FirstRiver(l, j).Some? ==> FirstRiver(l, j).value.end == |l|
    decreases |l| - j
  {
    if j < |l| {
      if RiverAt(l, j).Some? {
        var a := j + 6;
        var e := RunEnd(l, a, IsDigit);
        var b := if a < e && e < |l| && l[e] == ':' then e + 1 else a;
        LineEndIs(l, b, |l|);
      } else {
        LineRiverEndsAtLineEnd(l, j + 1);
      }
    }
  }

  /** Matching at a position of a line reads only that line. */
  lemma RiverAtInLine(s: string, off: nat, l: string, j: nat)
    requires off + |l| <= |s| && s[off..off + |l|] == l && OnOneLine(l)
    requires off + |l| == |s| || IsLineTerminator(s[off + |l|])
    requires j < |l|
    ensures RiverAt(s, off + j) == MovedBy(RiverAt(l, j), off)
  {
    KeywordInLine(s, off, l, j);
    if StartsWithCI(l[j..], "river:") {
      KeywordRiverInLine(s, off, l, j);
    }
  }

  /** Where a line holds the keyword, the match in the text is the match in the line, moved. */
  lemma KeywordRiverInLine(s: string, off: nat, l: string, j: nat)
    requires off + |l| <= |s| && s[off..off + |l|] == l && OnOneLine(l)
    requires off + |l| == |s| || IsLineTerminator(s[off + |l|])
    requires j < |l| && StartsWithCI(l[j..], "river:") && StartsWithCI(s[off + j..], "river:")
    ensures RiverAt(s, off + j) == MovedBy(RiverAt(l, j), off)
  {
    var e, b := PositionsInLine(s, off, l, j);
    SameRiverInLine(s, off, l, j, e, b);
  }

  /** Where the width run, the path and the line end fall, in the line and in the text. */
  lemma PositionsInLine(s: string, off: nat, l: string, j: nat) returns (e: nat, b: nat)
    requires off + |l| <= |s| && s[off..off + |l|] == l && OnOneLine(l)
    requires off + |l| == |s| || IsLineTerminator(s[off + |l|])
    requires j + 6 <= |l|
    ensures j + 6 <= e <= |l| && j + 6 <= b <= |l|
    ensures e == RunEnd(l, j + 6, IsDigit) && off + e == RunEnd(s, off + j + 6, IsDigit)
    ensures b == if j + 6 < e && e < |l| && l[e] == ':' then e + 1 else j + 6
    ensures off + b == if off + j + 6 < off + e && off + e < |s| && s[off + e] == ':' then off + e + 1 else off + j + 6
    ensures LineEnd(l, b) == |l| && LineEnd(s, off + b) == off + |l|
    ensures s[off + j + 6..off + e] == l[j + 6..e] && s[off + b..off + |l|] == l[b..|l|]
  {
    var a := j + 6;
    e := RunEnd(l, a, IsDigit);
    DigitsInLine(s, off, l, a);
    b := if a < e && e < |l| && l[e] == ':' then e + 1 else a;
    if e < |l| {
      assert s[off + e] == l[e];
    }
    LineEndInLine(s, off, l, b);
    LineEndIs(l, b, |l|);
    SliceInLine(s, off, l, a, e);
    SliceInLine(s, off, l, b, |l|);
  }

  /** Captures read from the same characters in the line and in the text give the same match, moved. */
  lemma SameRiverInLine(s: string, off: nat, l: string, j: nat, e: nat, b: nat)
    requires off + |l| <= |s| && j + 6 <= e <= |l| && j + 6 <= b <= |l|
    requires StartsWithCI(l[j..], "river:") && StartsWithCI(s[off + j..], "river:")
    requires e == RunEnd(l, j + 6, IsDigit) && off + e == RunEnd(s, off + j + 6, IsDigit)
    requires b == if j + 6 < e && e < |l| && l[e] == ':' then e + 1 else j + 6
    requires off + b == if off + j + 6 < off + e && off + e < |s| && s[off + e] == ':' then off + e + 1 else off + j + 6
    requires LineEnd(l, b) == |l| && LineEnd(s, off + b) == off + |l|
    requires s[off + j + 6..off + e] == l[j + 6..e] && s[off + b..off + |l|] == l[b..|l|]
    ensures RiverAt(s, off + j) == MovedBy(RiverAt(l, j), off)
  {
    RiverAtIs(l, j, e, b, |l|);
    var w := if b > j + 6 then Some(l[j + 6..e]) else None;
    var p := if |l| > b then Some(l[b..|l|]) else None;
    MovedMatch(s, off + j, off + e, off + b, off + |l|, RiverAt(l, j), w, p, off);
  }

  /** A match in `s` whose captures are given, compared with one ending `off` earlier. */
  lemma MovedMatch(s: string, i: nat, e: nat, b: nat, le: nat, r: Option<RiverMatch>, w: Option<string>, p: Option<string>, off: nat)
    requires i <= |s| && StartsWithCI(s[i..], "river:")
    requires e == RunEnd(s, i + 6, IsDigit)
    requires b == if i + 6 < e && e < |s| && s[e] == ':' then e + 1 else i + 6
    requires le == LineEnd(s, b) && off <= le
    requires w == (if b > i + 6 then Some(s[i + 6..e]) else None) && p == (if le > b then Some(s[b..le]) else None)
    requires r == Some(RiverMatch(w, p, le - off))
    ensures RiverAt(s, i) == MovedBy(r, off)
  {
    RiverAtIs(s, i, e, b, le);
  }

  /** `RiverAt` with its intermediate positions named. */
  lemma RiverAtIs(s: string, i: nat, e: nat, b: nat, le: nat)
    requires i <= |s| && StartsWithCI(s[i..], "river:")
    requires e == RunEnd(s, i + 6, IsDigit)
    requires b == if i + 6 < e && e < |s| && s[e] == ':' then e + 1 else i + 6
    requires le == LineEnd(s, b)
    ensures i + 6 <= e <= |s| && i + 6 <= b <= le <= |s|
    ensures RiverAt(s, i) == Some(RiverMatch(if b > i + 6 then Some(s[i + 6..e]) else None, if le > b then Some(s[b..le]) else None, le))
  {
  }

  /** The keyword starts at a position of a line exactly when it starts there in the text. */
  lemma KeywordInLine(s: string, off: nat, l: string, j: nat)
    requires off + |l| <= |s| && s[off..off + |l|] == l && OnOneLine(l)
    requires off + |l| == |s| || IsLineTerminator(s[off + |l|])
    requires j < |l|
    ensures StartsWithCI(s[off + j..], "river:") <==> StartsWithCI(l[j..], "river:")
  {
    var i := off + j;
    if j + 6 <= |l| {
      forall k | 0 <= k < 6 ensures s[i..][k] == l[j..][k] {
        assert s[i + k] == s[off..off + |l|][j + k];
      }
    } else if off + |l| < |s| {
      var k := |l| - j;
      assert s[i..][k] == s[off + |l|];
      assert Lower(s[i..][k]) != "river:"[k];
    }
  }

  /** A digit run inside a line ends at the same place in the line and in the text. */
  lemma DigitsInLine(s: string, off: nat, l: string, a: nat)
    requires off + |l| <= |s| && s[off..off + |l|] == l && OnOneLine(l)
    requires off + |l| == |s| || IsLineTerminator(s[off + |l|])
    requires a <= |l|
    ensures RunEnd(s, off + a, IsDigit) == off + RunEnd(l, a, IsDigit)
  {
    var e := RunEnd(l, a, IsDigit);
    forall k | off + a <= k < off + e ensures IsDigit(s[k]) {
      assert s[k] == l[k - off];
    }
    if e < |l| {
      assert s[off + e] == l[e];
    }
    RunEndIs(s, off + a, IsDigit, off + e);
  }

  /** From inside a line, `.*` in the text stops at the end of that line. */
  lemma LineEndInLine(s: string, off: nat, l: string, b: nat)
    requires off + |l| <= |s| && s[off..off + |l|] == l && OnOneLine(l)
    requires off + |l| == |s| || IsLineTerminator(s[off + |l|])
    requires b <= |l|
    ensures LineEnd(s, off + b) == off + |l|
  {
    forall k | off + b <= k < off + |l| ensures !IsLineTerminator(s[k]) {
      assert s[k] == l[k - off];
    }
    LineEndIs(s, off + b, off + |l|);
  }

  /** A slice of a line is the same slice of the text, moved. */
  lemma SliceInLine(s: string, off: nat, l: string, x: nat, y: nat)
    requires off + |l| <= |s| && s[off..off + |l|] == l
    requires x <= y <= |l|
    ensures s[off + x..off + y] == l[x..y]
  {
    forall k | 0 <= k < y - x ensures s[off + x..off + y][k] == l[x..y][k] {
      assert s[off + x + k] == l[x + k];
    }
  }

  // ---------------------------------------------------------------- the render

  datatype Polygon = Polygon(points: seq<Point>, fill: string, name: string, path: string)

  datatype Polyline = Polyline(width: Value, points: seq<Point>)

  datatype Outcome =
    | NoKey(message: string)
    | NonNumeric
    | Drawn(viewBox: ViewBox, polygons: seq<Polygon>, rivers: seq<Polyline>, riverColour: Value)

  const NoKeyMessage := "ERROR: no key=xxx given"

  function PolygonsOf(cells: seq<Cell>, terrains: map<string, TerrainSettings>): (ps: seq<Polygon>)
    ensures |ps| == |cells|
    ensures forall i :: 0 <= i < |cells| ==>
      ps[i] == Polygon(cells[i].corners, Fill(terrains, cells[i].terrain), cells[i].name, cells[i].path)
  {
    seq(|cells|, i requires 0 <= i < |cells| => Polygon(cells[i].corners, Fill(terrains, cells[i].terrain), cells[i].name, cells[i].path))
  }

  /** River points go through `toPixel` only, never through `hexConverter`. */
  function PolylinesOf(rivers: seq<Parsing.River>, l: Layout, offset: Parity): (ps: seq<Polyline>)
    ensures |ps| == |rivers|
  {
    seq(|rivers|, i requires 0 <= i < |rivers| =>
      Polyline(rivers[i].width,
        seq(|rivers[i].coords|, j requires 0 <= j < |rivers[i].coords| =>
          ToPixel(l, FromQOffsetCoordinates(offset, rivers[i].coords[j])))))
  }

  /** The layout the options ask for: `size` both ways, centred on the origin. */
  function LayoutOf(m: Maths, options: Options): Layout
    requires Legacy.Typed(options) && Get(options, "size").n.Finite?
  {
    var size := Get(options, "size").n.value;
    Layout(OrientationOf(m, Get(options, "orientation")), Point(size, size))
  }

  function KeysOf(options: Options): Keys
    requires Legacy.Typed(options)
  {
    Keys(Get(options, "key").s, Get(options, "terrainKey").s, Get(options, "iconKey").s)
  }

  /**
   * What `renderHexMap` draws from its options, the river matches of its source and the notes:
   * the error text when no key is named, and otherwise the view box, the cells and the rivers.
   */
  function Draw(m: Maths, st: Settings, options: Options, matches: seq<RiverMatch>, files: seq<FileRecord>): (out: Outcome)
    requires Legacy.Typed(options)
    ensures out.NoKey? <==> Get(options, "key") == Str("")
    ensures out.NonNumeric? <==> Get(options, "key") != Str("") && (Get(options, "size").n.NaN? || Get(options, "margin").n.NaN?)
  {
    if Falsy(Get(options, "key")) then NoKey(NoKeyMessage)
    else if Get(options, "size").n.NaN? || Get(options, "margin").n.NaN? then NonNumeric
    else
      var l := LayoutOf(m, options);
      var offset := OffsetOf(Get(options, "offset"));
      var cells := Cells(l, m, offset, KeysOf(options), files);
      Drawn(ViewBoxOf(ExtentTracked(AllCorners(cells)), Get(options, "margin").n.value),
            PolygonsOf(cells, st.terrain),
            PolylinesOf(GetRivers(matches, options), l, offset),
            Get(options, "riverColour"))
  }

  /** What `renderHexMap` draws for a source block, the settings and the notes of the vault. */
  function Render(m: Maths, st: Settings, source: string, files: seq<FileRecord>): Outcome {
    Legacy.FieldKinds(source, st);
    Draw(m, st, Legacy.OptionsOf(source, st), RiverMatches(source, 0), files)
  }

  /** The extent of the corners, known to be a tracked state. */
  function ExtentTracked(ps: seq<Point>): (b: Box)
    ensures b == Extent(ps) && Tracked(b)
  {
    ExtentIsTracked(ps);
    Extent(ps)
  }

  /** The corners go through one `CoordManager`, in order; its view box is read afterwards. */
  method TrackCorners(corners: seq<Point>, margin: real) returns (vb: ViewBox)
    ensures vb == ViewBoxOf(ExtentTracked(corners), margin)
  {
    var cm := new CoordManager(margin);
    var i := 0;
    while i < |corners|
      invariant 0 <= i <= |corners|
      invariant cm.Valid() && cm.Submitted == corners[..i] && cm.margin == margin
    {
      var _ := cm.HexConverter(corners[i]);
      assert corners[..i + 1] == corners[..i] + [corners[i]];
      i := i + 1;
    }
    assert corners[..i] == corners;
    vb := cm.CurrentViewBox();
  }

  /** `renderHexMap`: read the options, stop without a key, then track the corners and draw. */
  method RenderHexMap(m: Maths, st: Settings, source: string, files: seq<FileRecord>) returns (out: Outcome)
    ensures out == Render(m, st, source, files)
  {
    var options := Legacy.GetOptions(source, st);
    Legacy.FieldKinds(source, st);
    assert Legacy.Typed(options);
    var matches := RiverMatches(source, 0);
    assert Render(m, st, source, files) == Draw(m, st, options, matches, files);
    if Falsy(Get(options, "key")) {
      return NoKey(NoKeyMessage);
    }
    if Get(options, "size").n.NaN? || Get(options, "margin").n.NaN? {
      return NonNumeric;
    }
    var l := LayoutOf(m, options);
    var offset := OffsetOf(Get(options, "offset"));
    var cells := Cells(l, m, offset, KeysOf(options), files);
    var viewBox := TrackCorners(AllCorners(cells), Get(options, "margin").n.value);
    var rivers := GetRivers(matches, options);
    out := Drawn(viewBox, PolygonsOf(cells, st.terrain), PolylinesOf(rivers, l, offset), Get(options, "riverColour"));
  }

  /** Rendering stops with the error message exactly when no `key=` directive names a key. */
  lemma NoKeyIffKeyEmpty(m: Maths, st: Settings, source: string, files: seq<FileRecord>)
    ensures Render(m, st, source, files).NoKey? <==> Get(Legacy.OptionsOf(source, st), "key") == Str("")
    ensures Render(m, st, source, files).NoKey? ==> Render(m, st, source, files).message == NoKeyMessage
  {
    Legacy.FieldKinds(source, st);
  }

  /** Every drawn corner lies inside the view box, at least the margin away from its edges. */
  lemma CornersInsideViewBox(m: Maths, st: Settings, options: Options, matches: seq<RiverMatch>,
                             files: seq<FileRecord>, pg: nat, c: nat)
    requires Legacy.Typed(options) && Draw(m, st, options, matches, files).Drawn?
    requires pg < |Draw(m, st, options, matches, files).polygons|
    requires c < |Draw(m, st, options, matches, files).polygons[pg].points|
    ensures var out := Draw(m, st, options, matches, files);
      var p := out.polygons[pg].points[c];
      var margin := Get(options, "margin").n.value;
      && out.viewBox.left.Fin? && out.viewBox.top.Fin? && out.viewBox.width.Fin? && out.viewBox.height.Fin?
      && out.viewBox.left.v + margin <= p.x <= out.viewBox.left.v + out.viewBox.width.v - margin
      && out.viewBox.top.v + margin <= p.y <= out.viewBox.top.v + out.viewBox.height.v - margin
  {
    var out := Draw(m, st, options, matches, files);
    var cells := Cells(LayoutOf(m, options), m, OffsetOf(Get(options, "offset")), KeysOf(options), files);
    var corners := AllCorners(cells);
    var margin := Get(options, "margin").n.value;
    assert out.polygons == PolygonsOf(cells, st.terrain);
    assert out.viewBox == ViewBoxOf(Extent(corners), margin);
    var k := CornerIndex(cells, pg, c);
    ViewBoxHoldsPoints(corners, margin);
    assert corners[k] == out.polygons[pg].points[c];
  }

  /** The corner `c` of cell `pg` is among all corners, at some position. */
  lemma {:induction false} CornerIndex(cells: seq<Cell>, pg: nat, c: nat) returns (k: nat)
    requires pg < |cells| && c < |cells[pg].corners|
    ensures k < |AllCorners(cells)| && AllCorners(cells)[k] == cells[pg].corners[c]
  {
    var init := cells[..|cells| - 1];
    var xs := seq(|cells|, i requires 0 <= i < |cells| => cells[i].corners);
    assert xs[..|xs| - 1] == seq(|init|, i requires 0 <= i < |init| => init[i].corners);
    assert AllCorners(cells) == AllCorners(init) + cells[|cells| - 1].corners;
    if pg == |cells| - 1 {
      k := |AllCorners(init)| + c;
    } else {
      k := CornerIndex(init, pg, c);
    }
  }

  /** The view box and the cells do not depend on the rivers. */
  lemma BoxIgnoresRivers(m: Maths, st: Settings, options: Options, ms: seq<RiverMatch>, ns: seq<RiverMatch>, files: seq<FileRecord>)
    requires Legacy.Typed(options)
    ensures var a, b := Draw(m, st, options, ms, files), Draw(m, st, options, ns, files);
      && a.Drawn? == b.Drawn?
      && (a.Drawn? ==> a.viewBox == b.viewBox && a.polygons == b.polygons && a.riverColour == b.riverColour)
  {
  }

  /**
   * Rivers never widen the view box: appending a river line, which holds no `=`, to the
   * source leaves the options, the cells and so the view box as they were.
   */
  lemma RiversDoNotWidenViewBox(m: Maths, st: Settings, source: string, files: seq<FileRecord>, ps: seq<(nat, nat)>)
    ensures var longer := source + "\nriver:" + FormatPairs(ps, '.');
      var a, b := Render(m, st, source, files), Render(m, st, longer, files);
      && a.Drawn? == b.Drawn?
      && (a.Drawn? ==> a.viewBox == b.viewBox && a.polygons == b.polygons)
  {
    var longer := source + "\nriver:" + FormatPairs(ps, '.');
    RiverLineAddsNoDirective(source, ps);
    var o := Legacy.OptionsOf(source, st);
    assert Legacy.OptionsOf(longer, st) == o;
    Legacy.FieldKinds(source, st);
    BoxIgnoresRivers(m, st, o, RiverMatches(source, 0), RiverMatches(longer, 0), files);
    assert Render(m, st, source, files) == Draw(m, st, o, RiverMatches(source, 0), files);
    assert Render(m, st, longer, files) == Draw(m, st, o, RiverMatches(longer, 0), files);
  }

  /** A river line on a line of its own holds no directive. */
  lemma RiverLineAddsNoDirective(source: string, ps: seq<(nat, nat)>)
    ensures Legacy.Directives(source + "\nriver:" + FormatPairs(ps, '.')) == Legacy.Directives(source)
  {
    var t := "\nriver:" + FormatPairs(ps, '.');
    FormatAvoids(ps, '.', '=');
    assert forall j :: 0 <= j < |t| ==> t[j] != '=' by {
      forall j | 0 <= j < |t| ensures t[j] != '=' {
        if j >= 7 { assert t[j] == FormatPairs(ps, '.')[j - 7]; }
      }
    }
    assert source + "\nriver:" + FormatPairs(ps, '.') == source + t;
    Legacy.AppendingTextWithoutDirectives(source, t);
  }
}
