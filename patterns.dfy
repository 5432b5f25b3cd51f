/**
 * The coordinate patterns `(\d+)\.(\d+)` and `(\d+),(\d+)` as explicit scanners: a match
 * at a position, the leftmost match (`exec`), and all matches in order (`matchAll`).
 */
module Patterns {
  import opened Text
  import opened Numbers
  import opened Wrappers

  /** One match of `(\d+)<sep>(\d+)`: the two captured numbers and where the match ends. */
  datatype PairMatch = PairMatch(first: nat, second: nat, end: nat)

  /** The match moved `d` characters to the right. */
  function Shifted(m: Option<PairMatch>, d: nat): Option<PairMatch> {
    match m
    case None => None
    case Some(pm) => Some(pm.(end := pm.end + d))
  }

  /**
   * The match at the very start of `u`. Both `\d+` are greedy, and a shorter first run
   * would be followed by a digit rather than `sep`, so the longest runs are the only candidates.
   */
  function PairAt(u: string, sep: char): (r: Option<PairMatch>)
    ensures r.Some? ==> 0 < r.value.end <= |u|
  {
    var j := RunEnd(u, 0, IsDigit);
    if 0 < j && j < |u| && u[j] == sep then
      var k := RunEnd(u, j + 1, IsDigit);
      if j + 1 < k then Some(PairMatch(DigitsValue(u[..j]), DigitsValue(u[j + 1..k]), k)) else None
    else None
  }

  /** The leftmost match in `u`: what `exec` returns; a search from a later position is the search in that suffix. */
  function FirstPair(u: string, sep: char): (r: Option<PairMatch>)
    ensures r.Some? ==> 0 < r.value.end <= |u|
    decreases |u|
  {
    if u == [] then None
    else
      match PairAt(u, sep)
      case Some(m) => Some(m)
      case None => Shifted(FirstPair(u[1..], sep), 1)
  }

  /** Every match in `u`, in text order: what `matchAll` yields. */
  function AllPairs(u: string, sep: char): seq<(nat, nat)>
    decreases |u|
  {
    match FirstPair(u, sep)
    case None => []
    case Some(m) => [(m.first, m.second)] + AllPairs(u[m.end..], sep)
  }

  /** A pair written the way the patterns read it: digits, `sep`, digits. */
  function FormatPair(p: (nat, nat), sep: char): string {
    NatToDecimal(p.0) + [sep] + NatToDecimal(p.1)
  }

  /** Pairs written one after another, separated by single spaces. */
  function FormatPairs(ps: seq<(nat, nat)>, sep: char): string {
    if ps == [] then "" else if |ps| == 1 then FormatPair(ps[0], sep)
    else FormatPair(ps[0], sep) + " " + FormatPairs(ps[1..], sep)
  }

  /** Written pairs hold digits, the separator and spaces only, so no other character. */
  lemma {:induction false} FormatAvoids(ps: seq<(nat, nat)>, sep: char, c: char)
    requires c != sep && c != ' ' && !IsDigit(c)
    ensures forall j :: 0 <= j < |FormatPairs(ps, sep)| ==> FormatPairs(ps, sep)[j] != c
  {
    if ps != [] {
      var a, b := NatToDecimal(ps[0].0), NatToDecimal(ps[0].1);
      assert forall j :: 0 <= j < |a| ==> IsDigit(a[j]);
      assert forall j :: 0 <= j < |b| ==> IsDigit(b[j]);
      var head := FormatPair(ps[0], sep);
      assert head == a + [sep] + b;
      assert forall j :: 0 <= j < |head| ==> head[j] != c;
      if |ps| > 1 {
        FormatAvoids(ps[1..], sep, c);
        var tail := FormatPairs(ps[1..], sep);
        assert FormatPairs(ps, sep) == head + " " + tail;
      }
    }
  }

  /** Scanning reads back exactly the pairs that were written, in order. */
  lemma {:induction false} AllPairsOfFormat(ps: seq<(nat, nat)>, sep: char)
    requires !IsDigit(sep) && sep != ' '
    ensures AllPairs(FormatPairs(ps, sep), sep) == ps
  {
    if |ps| == 1 {
      var head := FormatPair(ps[0], sep);
      PairAtFormat(ps[0], sep, "");
      assert head + "" == head;
      AllPairsStep(head, sep);
      assert head[|head|..] == [];
    } else if |ps| > 1 {
      var head, tail := FormatPair(ps[0], sep), FormatPairs(ps[1..], sep);
      AllPairsOfFormatted(ps[0], tail, sep);
      AllPairsOfFormat(ps[1..], sep);
      assert ps == [ps[0]] + ps[1..];
    }
  }

  /** After a match, scanning resumes at its end. */
  lemma AllPairsStep(u: string, sep: char)
    requires FirstPair(u, sep).Some?
    ensures var m := FirstPair(u, sep).value;
      AllPairs(u, sep) == [(m.first, m.second)] + AllPairs(u[m.end..], sep)
  {
  }

  /** A written pair, a space, then more text: the pair, then the matches of the text. */
  lemma AllPairsOfFormatted(p: (nat, nat), tail: string, sep: char)
    requires !IsDigit(sep) && sep != ' '
    ensures AllPairs(FormatPair(p, sep) + " " + tail, sep) == [p] + AllPairs(tail, sep)
  {
    var head := FormatPair(p, sep);
    Assoc(head, " ", tail);
    var s := head + (" " + tail);
    PairAtFormat(p, sep, " " + tail);
    AllPairsStep(s, sep);
    DropPrefix(head, " " + tail);
    AllPairsAfterSpace(tail, sep);
  }

  /** A leading space is skipped. */
  lemma AllPairsAfterSpace(tail: string, sep: char)
    ensures AllPairs(" " + tail, sep) == AllPairs(tail, sep)
  {
    var s := " " + tail;
    assert PairAt(s, sep) == None;
    assert s[1..] == tail;
    assert FirstPair(s, sep) == Shifted(FirstPair(tail, sep), 1);
    match FirstPair(tail, sep)
    case None =>
    case Some(m) =>
      AllPairsStep(s, sep);
      AllPairsStep(tail, sep);
      assert s[m.end + 1..] == tail[m.end..];
  }

  /** A written pair followed by a non-digit is matched whole at the start. */
  lemma PairAtFormat(p: (nat, nat), sep: char, rest: string)
    requires !IsDigit(sep)
    requires rest == [] || !IsDigit(rest[0])
    ensures var s := FormatPair(p, sep) + rest;
      FirstPair(s, sep) == Some(PairMatch(p.0, p.1, |FormatPair(p, sep)|))
  {
    var s := FormatPair(p, sep) + rest;
    PairAtOfFormat(p, sep, rest);
    FirstPairHere(s, sep);
  }

  lemma FirstPairHere(u: string, sep: char)
    requires PairAt(u, sep).Some?
    ensures FirstPair(u, sep) == PairAt(u, sep)
  {
  }

  lemma PairAtOfFormat(p: (nat, nat), sep: char, rest: string)
    requires !IsDigit(sep)
    requires rest == [] || !IsDigit(rest[0])
    ensures PairAt(FormatPair(p, sep) + rest, sep) == Some(PairMatch(p.0, p.1, |FormatPair(p, sep)|))
  {
    var a, b := NatToDecimal(p.0), NatToDecimal(p.1);
    var s := a + [sep] + b + rest;
    assert FormatPair(p, sep) + rest == s;
    var more := [sep] + b + rest;
    Assoc(a, [sep], b);
    Assoc(a, [sep] + b, rest);
    assert [] + a == a;
    DigitRunAt([], a, more);
    DigitRunAt(a + [sep], b, rest);
    assert s[|a|] == more[0] == sep;
    PairAtOfRuns(s, sep, |a|, |a| + 1 + |b|);
  }

  /** The match at the start, read off the two digit runs and the separator between them. */
  lemma PairAtOfRuns(u: string, sep: char, j: nat, k: nat)
    requires j == RunEnd(u, 0, IsDigit) && 0 < j < |u| && u[j] == sep
    requires k == RunEnd(u, j + 1, IsDigit) && j + 1 < k
    ensures PairAt(u, sep) == Some(PairMatch(DigitsValue(u[..j]), DigitsValue(u[j + 1..k]), k))
  {
  }
}
