/**
 * Reading cell coordinates from a frontmatter value: `toInt` and `getCoords` (rendering.ts,
 * with the identical copy in parsing.ts, whose missing `toInt` import is the one rendering.ts defines).
 */
module Coords {
  import opened Text
  import opened Numbers
  import opened Wrappers
  import opened Patterns
  import opened HexCoords

  /** A parsed frontmatter value. Objects are opaque: no rule of the reader looks inside them. */
  datatype FmValue =
    | FArray(items: seq<FmValue>)
    | FString(s: string)
    | FNumber(n: real)
    | FBool(b: bool)
    | FNull
    | FObject

  /**
   * `Number(v)`. An array converts through its text: `[]` is "", one element is that
   * element's text (empty for null), and two or more are joined by `,`, which no number holds.
   */
  function ToNumber(v: FmValue): Number {
    match v
    case FNumber(n) => Finite(n)
    case FString(s) => NumberOf(s)
    case FBool(b) => Finite(if b then 1.0 else 0.0)
    case FNull => Finite(0.0)
    case FObject => NaN
    case FArray(items) =>
      if |items| == 0 then Finite(0.0)
      else if |items| > 1 then NaN
      else match items[0]
        case FNull => Finite(0.0)
        case FBool(_) => NaN
        case _ => ToNumber(items[0])
  }

  /** `toInt`: `Number(v)` when it has no fractional part, NaN (here None) otherwise. */
  function ToInt(v: FmValue): Option<int> {
    match ToNumber(v)
    case NaN => None
    case Finite(x) => if (x.Floor as real) < x then None else Some(x.Floor)
  }

  /** `toInt` keeps exactly the integer-valued numbers. */
  lemma ToIntIff(v: FmValue, i: int)
    ensures ToInt(v) == Some(i) <==> ToNumber(v) == Finite(i as real)
  {
  }

  /** A value with a fractional part is rejected. */
  lemma ToIntRejectsFractions(v: FmValue, x: real)
    requires ToNumber(v) == Finite(x) && x.Floor as real != x
    ensures ToInt(v) == None
  {
  }

  /** `Number()` of a stored digit string is its value, so `toInt` of a `\d+` capture always succeeds. */
  lemma ToIntOfDigits(n: nat)
    ensures ToInt(FString(NatToDecimal(n))) == Some(n)
  {
    NumberOfDecimal(n);
  }

  /** The sequences of `xs`, concatenated in order. */
  function Flatten<T>(xs: seq<seq<T>>): seq<T> {
    if xs == [] then [] else Flatten(xs[..|xs| - 1]) + xs[|xs| - 1]
  }

  /** The first `(\d+)\.(\d+)` match of a string, else its first `(\d+),(\d+)` match. */
  function StringCoords(s: string): Option<seq<OffsetCoordinates>> {
    match FirstPair(s, '.')
    case Some(m) => Some([OffsetCoordinates(m.first, m.second)])
    case None =>
      match FirstPair(s, ',')
      case Some(m) => Some([OffsetCoordinates(m.first, m.second)])
      case None => None
  }

  /** What `getCoords(v)` returns; None is `undefined`. */
  function CoordsOf(v: FmValue): Option<seq<OffsetCoordinates>>
    decreases v
  {
    match v
    case FArray(items) =>
      if |items| == 2 && ToInt(items[0]).Some? && ToInt(items[1]).Some? then
        Some([OffsetCoordinates(ToInt(items[0]).value, ToInt(items[1]).value)])
      else
        Some(Flatten(seq(|items|, i requires 0 <= i < |items| => CoordsOf(items[i]).GetOr([]))))
    case FString(s) => StringCoords(s)
    case _ => None
  }

  /** `getCoords`: a pair of integers is one cell; any other array collects its items' cells in order. */
  method GetCoords(v: FmValue) returns (r: Option<seq<OffsetCoordinates>>)
    ensures r == CoordsOf(v)
    decreases v
  {
    if v.FArray? {
      var items := v.items;
      if |items| == 2 {
        var col, row := ToInt(items[0]), ToInt(items[1]);
        if col.Some? && row.Some? {
          return Some([OffsetCoordinates(col.value, row.value)]);
        }
      }
      ghost var results := seq(|items|, i requires 0 <= i < |items| => CoordsOf(items[i]).GetOr([]));
      var parsed := [];
      var i := 0;
      while i < |items|
        invariant 0 <= i <= |items|
        invariant parsed == Flatten(results[..i])
      {
        var result := GetCoords(items[i]);
        assert results[i] == result.GetOr([]);
        FlattenSnoc(results, i);
        if result.Some? {
          parsed := parsed + result.value;
        }
        i := i + 1;
      }
      assert results[..i] == results;
      return Some(parsed);
    }
    if v.FString? {
      var dotMatch := FirstPair(v.s, '.');
      if dotMatch.Some? {
        return Some([OffsetCoordinates(dotMatch.value.first, dotMatch.value.second)]);
      }
      var commaMatch := FirstPair(v.s, ',');
      if commaMatch.Some? {
        return Some([OffsetCoordinates(commaMatch.value.first, commaMatch.value.second)]);
      }
    }
    return None;
  }

  lemma FlattenSnoc<T>(xs: seq<seq<T>>, i: nat)
    requires i < |xs|
    ensures Flatten(xs[..i + 1]) == Flatten(xs[..i]) + xs[i]
  {
    assert xs[..i + 1][..i] == xs[..i];
  }

  /** An array always yields a list, possibly empty; numbers, booleans, null and objects yield nothing. */
  lemma DefinedExactlyForArraysAndMatchingStrings(v: FmValue)
    ensures v.FArray? ==> CoordsOf(v).Some?
    ensures !v.FArray? && !v.FString? ==> CoordsOf(v) == None
    ensures v.FString? ==> (CoordsOf(v).Some? <==> FirstPair(v.s, '.').Some? || FirstPair(v.s, ',').Some?)
  {
  }

  /** A string yields at most one cell, and its coordinates are non-negative. */
  lemma StringCellsAreNatural(s: string, cs: seq<OffsetCoordinates>)
    requires CoordsOf(FString(s)) == Some(cs)
    ensures |cs| == 1 && cs[0].col >= 0 && cs[0].row >= 0
  {
  }

  /** Two integer-valued numbers are one cell, negative ones included. */
  lemma PairOfIntegers(col: int, row: int)
    ensures CoordsOf(FArray([FNumber(col as real), FNumber(row as real)])) == Some([OffsetCoordinates(col, row)])
  {
    assert ToInt(FNumber(col as real)) == Some(col);
    assert ToInt(FNumber(row as real)) == Some(row);
  }

  /** A cell written `col.row` is read back, whatever follows it that is not a digit. */
  lemma DotCellRoundTrip(p: (nat, nat), rest: string)
    requires rest == [] || !IsDigit(rest[0])
    ensures CoordsOf(FString(FormatPair(p, '.') + rest)) == Some([OffsetCoordinates(p.0, p.1)])
  {
    PairAtFormat(p, '.', rest);
  }

  /** A cell written `col,row`, with no `.` in the string, is read back. */
  lemma CommaCellRoundTrip(p: (nat, nat))
    ensures CoordsOf(FString(FormatPair(p, ','))) == Some([OffsetCoordinates(p.0, p.1)])
  {
    var s := FormatPair(p, ',');
    var a, b := NatToDecimal(p.0), NatToDecimal(p.1);
    assert s == a + [','] + b;
    assert forall j :: 0 <= j < |s| ==> s[j] != '.' by {
      forall j | 0 <= j < |s| ensures s[j] != '.' {
        if j < |a| { assert s[j] == a[j]; } else if j > |a| { assert s[j] == b[j - |a| - 1]; }
      }
    }
    NoSeparatorNoPair(s, '.');
    PairAtFormat(p, ',', "");
    assert s + "" == s;
  }

  /** No match of `(\d+)<sep>(\d+)` in a string without `sep`. */
  lemma {:induction false} NoSeparatorNoPair(s: string, sep: char)
    requires forall j :: 0 <= j < |s| ==> s[j] != sep
    ensures FirstPair(s, sep) == None
    decreases |s|
  {
    if s != [] {
      var j := RunEnd(s, 0, IsDigit);
      assert PairAt(s, sep) == None;
      NoSeparatorNoPair(s[1..], sep);
    }
  }

  /** The cells of a list of `col.row` strings, other than a list of two, are the written cells in order. */
  lemma CellListRoundTrip(ps: seq<(nat, nat)>)
    requires |ps| != 2
    ensures var items := seq(|ps|, i requires 0 <= i < |ps| => FString(FormatPair(ps[i], '.')));
      CoordsOf(FArray(items)) == Some(seq(|ps|, i requires 0 <= i < |ps| => OffsetCoordinates(ps[i].0, ps[i].1)))
  {
    var items := seq(|ps|, i requires 0 <= i < |ps| => FString(FormatPair(ps[i], '.')));
    var results := seq(|items|, i requires 0 <= i < |items| => CoordsOf(items[i]).GetOr([]));
    var cells := seq(|ps|, i requires 0 <= i < |ps| => OffsetCoordinates(ps[i].0, ps[i].1));
    forall i | 0 <= i < |ps| ensures results[i] == [cells[i]] {
      DotCellRoundTrip(ps[i], "");
      assert FormatPair(ps[i], '.') + "" == FormatPair(ps[i], '.');
    }
    FlattenSingletons(results, cells);
  }

  lemma {:induction false} FlattenSingletons<T>(xs: seq<seq<T>>, ys: seq<T>)
    requires |xs| == |ys| && forall i :: 0 <= i < |xs| ==> xs[i] == [ys[i]]
    ensures Flatten(xs) == ys
  {
    if xs != [] {
      FlattenSingletons(xs[..|xs| - 1], ys[..|ys| - 1]);
      assert ys == ys[..|ys| - 1] + [ys[|ys| - 1]];
    }
  }

  /**
   * Two `col.0` strings convert to integers, so the list is read as the single pair of
   * their whole parts rather than as two cells.
   */
  lemma TwoWholeCellStringsAreOnePair(a: nat, b: nat)
    ensures CoordsOf(FArray([FString(NatToDecimal(a) + ".0"), FString(NatToDecimal(b) + ".0")]))
         == Some([OffsetCoordinates(a, b)])
  {
    WholeDecimalIsInteger(a);
    WholeDecimalIsInteger(b);
  }

  lemma WholeDecimalIsInteger(n: nat)
    ensures ToInt(FString(NatToDecimal(n) + ".0")) == Some(n)
  {
    var d := NatToDecimal(n);
    NumberOfPointed(d, "0");
    assert d + "." + "0" == d + ".0";
    assert DigitsValue("0") == 0;
    assert NumberOf(d + ".0") == Finite(n as real);
  }
}
