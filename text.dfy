/**
 * Character classes and line structure of JavaScript regular expressions, as the
 * directive and coordinate patterns of the plugin use them (no `u` flag).
 */
module Text {

  /** `\d` */
  predicate IsDigit(c: char) { '0' <= c <= '9' }

  predicate AllDigits(s: string) { forall i :: 0 <= i < |s| ==> IsDigit(s[i]) }

  /** `\w`: ASCII letters, digits and the underscore. */
  predicate IsWordChar(c: char) { 'a' <= c <= 'z' || 'A' <= c <= 'Z' || IsDigit(c) || c == '_' }

  /** A non-empty run of `\w` characters, what `\w+` matches. */
  predicate IsWord(s: string) { |s| > 0 && forall i :: 0 <= i < |s| ==> IsWordChar(s[i]) }

  /** The line terminators: where `^` and `$` match under the `m` flag, and what `.` never matches. */
  predicate IsLineTerminator(c: char) { c == '\n' || c == '\r' || c == '\U{2028}' || c == '\U{2029}' }

  predicate OnOneLine(s: string) { forall i :: 0 <= i < |s| ==> !IsLineTerminator(s[i]) }

  /** The case folding of a non-unicode `i` pattern, restricted to ASCII letters. */
  function Lower(c: char): char {
    if 'A' <= c <= 'Z' then (c as int + 32) as char else c
  }

  /** `s` begins with `lit` (given in lower case) when compared case-insensitively. */
  predicate StartsWithCI(s: string, lit: string) {
    |lit| <= |s| && forall i :: 0 <= i < |lit| ==> Lower(s[i]) == lit[i]
  }

  /** Index of the first `c` in `s`, or `|s|` when there is none. */
  function IndexOf(s: string, c: char): (k: nat)
    ensures k <= |s|
    ensures k < |s| ==> s[k] == c
    ensures forall j :: 0 <= j < k ==> s[j] != c
  {
    if s == [] then 0
    else if s[0] == c then 0
    else 1 + IndexOf(s[1..], c)
  }

  /**
   * End of the longest run of characters satisfying `inRun` that starts at `i`:
   * what a greedy `\d+` or `\w+` consumes from there.
   */
  function RunEnd(s: string, i: nat, inRun: char -> bool): (e: nat)
    requires i <= |s|
    ensures i <= e <= |s|
    ensures forall j :: i <= j < e ==> inRun(s[j])
    ensures e < |s| ==> !inRun(s[e])
    decreases |s| - i
  {
    if i == |s| || !inRun(s[i]) then i else RunEnd(s, i + 1, inRun)
  }

  /** Index of the first line terminator at or after `i`, or `|s|`: where `.*` stops. */
  function LineEnd(s: string, i: nat): (e: nat)
    requires i <= |s|
    ensures i <= e <= |s|
    ensures e < |s| ==> IsLineTerminator(s[e])
    ensures OnOneLine(s[i..e])
  {
    RunEnd(s, i, c => !IsLineTerminator(c))
  }

  /**
   * The lines of `s`, split at every line terminator. Under the `m` flag a pattern
   * `^...$` whose body cannot cross a terminator matches exactly the lines it matches whole.
   */
  function Lines(s: string): (ls: seq<string>)
    ensures |ls| >= 1
    ensures forall i :: 0 <= i < |ls| ==> OnOneLine(ls[i])
    decreases |s|
  {
    var e := LineEnd(s, 0);
    if e == |s| then [s] else [s[..e]] + Lines(s[e + 1..])
  }

  /** `ls` joined with newlines. */
  function JoinLines(ls: seq<string>): string
    requires |ls| >= 1
  {
    if |ls| == 1 then ls[0] else ls[0] + "\n" + JoinLines(ls[1..])
  }

  /** A line break as it may appear in a note: one or more terminators, such as `"\n"` or `"\r\n"`. */
  predicate IsLineBreak(t: string) {
    |t| > 0 && forall i :: 0 <= i < |t| ==> IsLineTerminator(t[i])
  }

  /** `ls` joined with the breaks `ts`, the `k`-th break between lines `k` and `k + 1`. */
  function JoinLinesBy(ls: seq<string>, ts: seq<string>): string
    requires |ls| >= 1 && |ts| == |ls| - 1
  {
    if |ls| == 1 then ls[0] else ls[0] + ts[0] + JoinLinesBy(ls[1..], ts[1..])
  }

  /** Splitting lines undoes joining them, when no line holds a terminator. */
  lemma {:induction false} LinesOfJoin(ls: seq<string>)
    requires |ls| >= 1
    requires forall i :: 0 <= i < |ls| ==> OnOneLine(ls[i])
    ensures Lines(JoinLines(ls)) == ls
  {
    var s := JoinLines(ls);
    var l := ls[0];
    if |ls| == 1 {
      assert s == l;
      LineEndOfLine(l, "");
      assert l + "" == l;
    } else {
      var rest := JoinLines(ls[1..]);
      assert s == l + ("\n" + rest);
      LineEndOfLine(l, "\n" + rest);
      assert s[..|l|] == l;
      assert s[|l| + 1..] == rest;
      assert Lines(s) == [l] + Lines(rest);
      LinesOfJoin(ls[1..]);
      assert ls == [l] + ls[1..];
    }
  }

  /** On a line followed by a terminator (or nothing), the line ends where the line does. */
  lemma LineEndOfLine(l: string, t: string)
    requires OnOneLine(l)
    requires t == [] || IsLineTerminator(t[0])
    ensures LineEnd(l + t, 0) == |l|
  {
    RunEndIs(l + t, 0, c => !IsLineTerminator(c), |l|);
  }

  /** A run that stops at `e` ends at `e`. */
  lemma {:induction false} RunEndIs(s: string, i: nat, inRun: char -> bool, e: nat)
    requires i <= e <= |s|
    requires forall j :: i <= j < e ==> inRun(s[j])
    requires e < |s| ==> !inRun(s[e])
    ensures RunEnd(s, i, inRun) == e
    decreases e - i
  {
    if i < e {
      RunEndIs(s, i + 1, inRun, e);
    }
  }

  /** Dropping the first element of a concatenation drops it from the first part. */
  lemma DropFirst<T>(a: seq<T>, b: seq<T>)
    requires a != []
    ensures (a + b)[1..] == a[1..] + b
  {
  }

  /** Dropping the first part of a concatenation leaves the second. */
  lemma DropPrefix<T>(a: seq<T>, b: seq<T>)
    ensures (a + b)[|a|..] == b
  {
  }

  lemma Assoc<T>(a: seq<T>, b: seq<T>, c: seq<T>)
    ensures (a + b) + c == a + (b + c)
  {
  }

  /** A word followed by a non-word character, or by nothing, is one whole `\w+` run. */
  lemma WordRunAt(p: string, w: string, t: string)
    requires IsWord(w) && (t == [] || !IsWordChar(t[0]))
    ensures var s := p + w + t;
      && RunEnd(s, |p|, IsWordChar) == |p| + |w|
      && s[|p|..|p| + |w|] == w && s[|p| + |w|..] == t
  {
    RunOver(p, w, t, IsWordChar);
    MiddleOf(p, w, t);
  }

  /** Decimal digits followed by a non-digit, or by nothing, are one whole `\d+` run. */
  lemma DigitRunAt(p: string, w: string, t: string)
    requires |w| > 0 && AllDigits(w) && (t == [] || !IsDigit(t[0]))
    ensures var s := p + w + t;
      && RunEnd(s, |p|, IsDigit) == |p| + |w|
      && s[|p|..|p| + |w|] == w && s[|p| + |w|..] == t
  {
    RunOver(p, w, t, IsDigit);
    MiddleOf(p, w, t);
  }

  /** A run over the middle part of `p + w + t` stops where `t` starts. */
  lemma RunOver(p: string, w: string, t: string, inRun: char -> bool)
    requires forall i :: 0 <= i < |w| ==> inRun(w[i])
    requires t == [] || !inRun(t[0])
    ensures RunEnd(p + w + t, |p|, inRun) == |p| + |w|
  {
    var s := p + w + t;
    forall j | |p| <= j < |p| + |w| ensures inRun(s[j]) {
      assert s[j] == w[j - |p|];
    }
    RunEndIs(s, |p|, inRun, |p| + |w|);
  }

  /** The middle and the end of a three-part concatenation. */
  lemma MiddleOf<T>(p: seq<T>, w: seq<T>, t: seq<T>)
    ensures (p + w + t)[|p|..|p| + |w|] == w && (p + w + t)[|p| + |w|..] == t
  {
  }

  /** A line followed by a terminator, or by nothing, is where `.*` stops, and is read whole. */
  lemma LineAt(p: string, l: string, t: string)
    requires OnOneLine(l) && (t == [] || IsLineTerminator(t[0]))
    ensures var s := p + l + t;
      && LineEnd(s, |p|) == |p| + |l|
      && s[|p|..|p| + |l|] == l
  {
    RunOver(p, l, t, c => !IsLineTerminator(c));
    MiddleOf(p, l, t);
  }

  /** `.*` from `i` stops at `e` when no terminator comes before `e` and one (or the end) is at `e`. */
  lemma LineEndIs(s: string, i: nat, e: nat)
    requires i <= e <= |s|
    requires forall j :: i <= j < e ==> !IsLineTerminator(s[j])
    requires e < |s| ==> IsLineTerminator(s[e])
    ensures LineEnd(s, i) == e
  {
    RunEndIs(s, i, c => !IsLineTerminator(c), e);
  }
}
