/**
 * The options record that both versions of `getOptions` build. The source assigns any
 * matched name to it, not only the declared fields, so it is a dictionary from names to
 * JavaScript values; reading a name it lacks gives `undefined`.
 */
module OptionValues {
  import opened Text
  import opened Numbers
  import opened Wrappers

  datatype Value = Str(s: string) | Num(n: Number) | Undefined

  type Options = map<string, Value>

  /** A matched `name=value` directive. */
  type Directive = (string, string)

  /** Property read: `undefined` for a name that was never assigned. */
  function Get(opts: Options, k: string): Value {
    if k in opts then opts[k] else Undefined
  }

  /** The values JavaScript's `!` treats as false. */
  predicate Falsy(v: Value) {
    v == Undefined || v == Str("") || v == Num(NaN) || v == Num(Finite(0.0))
  }

  /** What a directive stores: `Number(value)` under a number key, the raw text under any other. */
  function Stored(numberKeys: set<string>, d: Directive): Value {
    if d.0 in numberKeys then Num(NumberOf(d.1)) else Str(d.1)
  }

  /** One pass of the directive loop: the named field is overwritten. */
  function Apply(opts: Options, numberKeys: set<string>, d: Directive): Options {
    opts[d.0 := Stored(numberKeys, d)]
  }

  /** The directive loop over `ds`, in order. */
  function ApplyAll(opts: Options, numberKeys: set<string>, ds: seq<Directive>): Options
    decreases |ds|
  {
    if ds == [] then opts
    else Apply(ApplyAll(opts, numberKeys, ds[..|ds| - 1]), numberKeys, ds[|ds| - 1])
  }

  /** A number key always receives a number, any other name the text it was given. */
  lemma StoredKinds(numberKeys: set<string>, d: Directive)
    ensures Stored(numberKeys, d).Num? <==> d.0 in numberKeys
    ensures d.0 !in numberKeys ==> Stored(numberKeys, d) == Str(d.1)
  {
  }

  /** A name that no directive mentions keeps its starting value. */
  lemma {:induction false} UnnamedKeysKept(opts: Options, numberKeys: set<string>, ds: seq<Directive>, k: string)
    requires forall i :: 0 <= i < |ds| ==> ds[i].0 != k
    ensures Get(ApplyAll(opts, numberKeys, ds), k) == Get(opts, k)
    decreases |ds|
  {
    if ds != [] {
      UnnamedKeysKept(opts, numberKeys, ds[..|ds| - 1], k);
    }
  }

  /** The last directive naming a key decides its value. */
  lemma {:induction false} LastDirectiveWins(opts: Options, numberKeys: set<string>, ds: seq<Directive>, i: nat)
    requires i < |ds|
    requires forall j :: i < j < |ds| ==> ds[j].0 != ds[i].0
    ensures Get(ApplyAll(opts, numberKeys, ds), ds[i].0) == Stored(numberKeys, ds[i])
    decreases |ds|
  {
    if i < |ds| - 1 {
      var init := ds[..|ds| - 1];
      assert init[i] == ds[i];
      LastDirectiveWins(opts, numberKeys, init, i);
    }
  }

  /** The fields afterwards are the starting fields plus every name a directive mentions. */
  lemma {:induction false} KeysOfApplyAll(opts: Options, numberKeys: set<string>, ds: seq<Directive>)
    ensures ApplyAll(opts, numberKeys, ds).Keys == opts.Keys + set i | 0 <= i < |ds| :: ds[i].0
    decreases |ds|
  {
    if ds != [] {
      var init := ds[..|ds| - 1];
      KeysOfApplyAll(opts, numberKeys, init);
      var named := set i | 0 <= i < |ds| :: ds[i].0;
      var namedInit := set i | 0 <= i < |init| :: init[i].0;
      assert named == namedInit + {ds[|ds| - 1].0} by {
        forall k | k in named ensures k in namedInit + {ds[|ds| - 1].0} {
          var i :| 0 <= i < |ds| && ds[i].0 == k;
          if i < |init| { assert init[i] == ds[i]; }
        }
        forall k | k in namedInit ensures k in named {
          var i :| 0 <= i < |init| && init[i].0 == k;
          assert ds[i] == init[i];
        }
      }
    }
  }

  /** A number key that starts as a number stays one; a text field outside the number keys stays text. */
  lemma {:induction false} KindsKept(opts: Options, numberKeys: set<string>, ds: seq<Directive>, k: string)
    requires k in opts
    ensures k in numberKeys && opts[k].Num? ==> Get(ApplyAll(opts, numberKeys, ds), k).Num?
    ensures k !in numberKeys && opts[k].Str? ==> Get(ApplyAll(opts, numberKeys, ds), k).Str?
    decreases |ds|
  {
    if ds != [] {
      KindsKept(opts, numberKeys, ds[..|ds| - 1], k);
    }
  }

  /** `asNumber(raw, default)` (tools.ts): the number `raw` denotes, or `default` when it denotes none. */
  function AsNumber(raw: Option<string>, default: Value): Value {
    if raw.Some? && NumberOf(raw.value).Finite? then Num(NumberOf(raw.value)) else default
  }

  /** A numeral is read as its value; a missing or malformed one gives the default. */
  lemma AsNumberCases(raw: Option<string>, default: Value)
    ensures raw.Some? && |raw.value| > 0 && AllDigits(raw.value)
      ==> AsNumber(raw, default) == Num(Finite(DigitsValue(raw.value) as real))
    ensures raw.None? ==> AsNumber(raw, default) == default
  {
    if raw.Some? && |raw.value| > 0 && AllDigits(raw.value) {
      NumberOfDigits(raw.value);
    }
  }
}
