/** What numbers look like to the numeric comparison of sort(1): numerals and their values. */
module SortNumeral {
  import opened SortNumeric

  /** The text is these digits. */
  ghost predicate Spells(t: Text, ds: seq<nat>) {
    |t| == |ds| && forall k :: 0 <= k < |ds| ==> ds[k] < 10 && t[k] == '0' as int + ds[k]
  }

  /** The number with these digits. */
  function Number(ds: seq<nat>): nat {
    if ds == [] then 0 else 10 * Number(ds[..|ds| - 1]) + ds[|ds| - 1]
  }

  function Spaces(n: nat): (t: Text)
    ensures |t| == n && forall k :: 0 <= k < n ==> t[k] == ' ' as int
  {
    if n == 0 then [] else [' ' as int] + Spaces(n - 1)
  }

  /** A separator if there is one, blanks, a sign, digits and digits after a point. */
  function Numeral(tab: int, n: nat, neg: bool, d: Text, f: Text): Text {
    (if tab != 0 then [tab] else []) + Spaces(n) + (if neg then ['-' as int] else []) + d + ['.' as int] + f
  }

  lemma {:induction false} NumberSplit(ds: seq<nat>)
    requires ds != []
    ensures Number(ds) == ds[0] * Pow10(|ds| - 1) + Number(ds[1..])
    decreases |ds|
  {
    var init := ds[..|ds| - 1];
    if init != [] {
      NumberSplit(init);
      assert init[1..] == ds[1..][..|ds| - 2];
      TenTimes(ds[0], Pow10(|ds| - 2), Number(init[1..]));
    } else {
      assert Number(ds) == ds[0] && ds[1..] == [];
    }
  }

  lemma TenTimes(d: nat, p: nat, r: nat)
    ensures 10 * (d * p + r) == d * (10 * p) + 10 * r
  {
  }

  lemma {:induction false} IntNumber(t: Text, ds: seq<nat>)
    requires Spells(t, ds)
    ensures IntValue(t) == Number(ds)
  {
    if ds != [] {
      NumberSplit(ds);
      IntNumber(t[1..], ds[1..]);
    }
  }

  lemma {:induction false} FracNumber(t: Text, ds: seq<nat>)
    requires Spells(t, ds)
    ensures FracValue(t) == Number(ds) as real / Pow10(|ds|) as real
  {
    if ds != [] {
      NumberSplit(ds);
      FracNumber(t[1..], ds[1..]);
      Tenth(ds[0], Number(ds[1..]), Pow10(|ds| - 1));
    }
  }

  lemma Tenth(d: nat, r: nat, p: nat)
    requires p > 0
    ensures (d as real + r as real / p as real) / 10.0 == (d * p + r) as real / (10 * p) as real
  {
    var x, y, z := d as real, r as real, p as real;
    assert (d * p + r) as real == x * z + y;
    assert (10 * p) as real == 10.0 * z;
    assert x + y / z == (x * z + y) / z;
  }

  lemma {:induction false} BlanksSkipped(s: Text, i: nat, n: nat)
    requires i + n <= |s| && (forall k :: i <= k < i + n ==> s[k] == ' ' as int) && !IsBlank(Peek(s, i + n))
    ensures SkipBlanks(s, i) == i + n
    decreases n
  {
    if n > 0 { BlanksSkipped(s, i + 1, n - 1); }
  }

  lemma {:induction false} DigitsSkipped(s: Text, i: nat, n: nat)
    requires i + n <= |s| && (forall k :: i <= k < i + n ==> IsDigit(s[k])) && !IsDigit(Peek(s, i + n))
    ensures DigitsEnd(s, i) == i + n
    decreases n
  {
    if n > 0 { DigitsSkipped(s, i + 1, n - 1); }
  }

  /** `x` stands in `s` at `i`. */
  ghost predicate Stands(s: Text, i: nat, x: Text) {
    i + |x| <= |s| && forall k :: 0 <= k < |x| ==> s[i + k] == x[k]
  }

  lemma StandsConcat(s: Text, i: nat, x: Text, y: Text)
    requires Stands(s, i, x + y)
    ensures Stands(s, i, x) && Stands(s, i + |x|, y)
  {
    assert forall k :: 0 <= k < |x| ==> (x + y)[k] == x[k];
    assert forall k :: 0 <= k < |y| ==> (x + y)[|x| + k] == y[k];
  }

  lemma StandsHere(s: Text, i: nat, x: Text)
    requires Stands(s, i, x) && x != []
    ensures i < |s| && s[i] == x[0]
  {
    assert s[i + 0] == x[0];
  }

  /** The line is made of these parts. */
  ghost predicate Written(s: Text, tab: int, n: nat, neg: bool, d: Text, f: Text, rest: Text) {
    var a := if tab != 0 then 1 else 0;
    var c := if neg then a + n + 1 else a + n;
    && (tab != 0 ==> Stands(s, 0, [tab])) && Stands(s, a, Spaces(n)) && (neg ==> Stands(s, a + n, ['-' as int]))
    && HasDigits(s, c, d, f, rest)
  }

  ghost predicate HasDigits(s: Text, c: nat, d: Text, f: Text, rest: Text) {
    && Stands(s, c, d) && Stands(s, c + |d|, ['.' as int]) && Stands(s, c + |d| + 1, f)
    && Stands(s, c + |d| + 1 + |f|, rest) && |s| == c + |d| + 1 + |f| + |rest|
  }

  lemma NumeralParts(tab: int, n: nat, neg: bool, d: Text, f: Text, rest: Text)
    ensures Written(Numeral(tab, n, neg, d, f) + rest, tab, n, neg, d, f, rest)
  {
    hide Stands, Spaces;
    var t, m := if tab != 0 then [tab] else [], if neg then ['-' as int] else [];
    var s := Numeral(tab, n, neg, d, f) + rest;
    StandsSelf(s);
    StandsConcat(s, 0, t + Spaces(n) + m + d + ['.' as int] + f, rest);
    StandsConcat(s, 0, t + Spaces(n) + m + d + ['.' as int], f);
    StandsConcat(s, 0, t + Spaces(n) + m + d, ['.' as int]);
    StandsConcat(s, 0, t + Spaces(n) + m, d);
    StandsConcat(s, 0, t + Spaces(n), m);
    StandsConcat(s, 0, t, Spaces(n));
  }

  lemma StandsSelf(s: Text)
    ensures Stands(s, 0, s)
  {
  }

  lemma SpellsDigits(s: Text, i: nat, d: Text, ds: seq<nat>)
    requires Spells(d, ds) && Stands(s, i, d) && !IsDigit(Peek(s, i + |d|))
    ensures DigitsEnd(s, i) == i + |d| && s[i..i + |d|] == d
  {
    forall k | i <= k < i + |d|
      ensures IsDigit(s[k])
    {
      assert s[i + (k - i)] == d[k - i];
    }
    DigitsSkipped(s, i, |d|);
  }

  /** What the blanks stop at. */
  lemma AfterBlanks(s: Text, b: nat, neg: bool, d: Text, f: Text, rest: Text, ds: seq<nat>)
    requires Spells(d, ds) && (neg ==> Stands(s, b, ['-' as int])) && (!neg ==> HasDigits(s, b, d, f, rest))
    ensures b < |s| && !IsBlank(s[b]) && (s[b] == '-' as int <==> neg)
  {
    hide Stands;
    StandsHere(s, b, if neg then ['-' as int] else if d != [] then d else ['.' as int]);
  }

  /** The parts of a line that starts with a numeral. */
  lemma NumeralLayout(s: Text, tab: int, n: nat, neg: bool, d: Text, f: Text, rest: Text, ds: seq<nat>, fs: seq<nat>)
    requires Spells(d, ds) && Spells(f, fs) && (rest == [] || !('0' as int <= rest[0] <= '9' as int))
    requires Written(s, tab, n, neg, d, f, rest)
    ensures var l := LayoutOf(s, tab); l.neg == neg && s[l.start..l.point] == d && s[l.frac..l.end] == f
  {
    hide SkipBlanks, DigitsEnd, Spaces, Spells, Stands, LayoutOf, HasDigits;
    var b := if tab != 0 then 1 + n else n;
    var c := if neg then b + 1 else b;
    if tab != 0 { StandsHere(s, 0, [tab]); }
    DigitParts(s, c, d, f, rest, ds, fs);
    AfterBlanks(s, b, neg, d, f, rest, ds);
    SpacesSkipped(s, b - n, n);
    LayoutIs(s, tab, b, neg, c + |d|);
  }

  lemma DigitParts(s: Text, c: nat, d: Text, f: Text, rest: Text, ds: seq<nat>, fs: seq<nat>)
    requires Spells(d, ds) && Spells(f, fs) && (rest == [] || !('0' as int <= rest[0] <= '9' as int))
    requires HasDigits(s, c, d, f, rest)
    ensures var p := c + |d|;
            && p + 1 + |f| <= |s| && DigitsEnd(s, c) == p && s[c..p] == d && s[p] == '.' as int
            && DigitsEnd(s, p + 1) == p + 1 + |f| && s[p + 1..p + 1 + |f|] == f
  {
    hide DigitsEnd, Spells, Stands;
    StandsHere(s, c + |d|, ['.' as int]);
    SpellsDigits(s, c, d, ds);
    if rest != [] { StandsHere(s, c + |d| + 1 + |f|, rest); }
    SpellsDigits(s, c + |d| + 1, f, fs);
  }

  lemma LayoutIs(s: Text, tab: int, b: nat, neg: bool, p: nat)
    requires tab != 0 ==> |s| > 0 && s[0] == tab
    requires b < p < |s| || (b == p < |s| && !neg)
    requires SkipBlanks(s, if tab != 0 then 1 else 0) == b && (s[b] == '-' as int <==> neg)
    requires DigitsEnd(s, if neg then b + 1 else b) == p && s[p] == '.' as int
    ensures LayoutOf(s, tab) == Layout(neg, if neg then b + 1 else b, p, p + 1, DigitsEnd(s, p + 1))
  {
    hide SkipBlanks, DigitsEnd;
  }

  lemma SpacesSkipped(s: Text, a: nat, n: nat)
    requires Stands(s, a, Spaces(n)) && !IsBlank(Peek(s, a + n))
    ensures SkipBlanks(s, a) == a + n
  {
    forall k | a <= k < a + n
      ensures s[k] == ' ' as int
    {
      assert s[a + (k - a)] == Spaces(n)[k - a];
    }
    BlanksSkipped(s, a, n);
  }

  /** A line that starts with a numeral is worth the number it writes, whatever follows it. */
  lemma NumeralValue(tab: int, n: nat, neg: bool, d: Text, f: Text, rest: Text, ds: seq<nat>, fs: seq<nat>)
    requires Spells(d, ds) && Spells(f, fs) && (rest == [] || !('0' as int <= rest[0] <= '9' as int))
    ensures var m := Number(ds) as real + Number(fs) as real / Pow10(|fs|) as real;
            Value(Numeral(tab, n, neg, d, f) + rest, tab) == if neg then -m else m
  {
    hide LayoutOf, IntValue, FracValue, Numeral, Number, Spells, Written;
    NumeralParts(tab, n, neg, d, f, rest);
    NumeralLayout(Numeral(tab, n, neg, d, f) + rest, tab, n, neg, d, f, rest, ds, fs);
    IntNumber(d, ds);
    FracNumber(f, fs);
  }
}
