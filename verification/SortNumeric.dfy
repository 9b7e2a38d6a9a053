/**
 The numeric comparison of sort(1).  It never forms a number: two digit strings
 of any length are compared from their low ends, then their fractions from
 their high ends.  Here it is proved to order lines by the decimal values they
 start with.
 */
module SortNumeric {
  import opened Dictionary
  import opened SortQuick

  /** A line without its newline, as character codes. */
  type Text = seq<int>

  const NEWLINE := 10
  const MINUS := 45
  const POINT := 46
  const ZERO := 48

  /** The character at position `i`, the newline at the end of the line. */
  function Peek(s: Text, i: nat): int {
    if i < |s| then s[i] else NEWLINE
  }

  predicate IsBlank(c: int) {
    c == 32 || c == 9
  }

  predicate IsDigit(c: int) {
    ZERO <= c <= ZERO + 9
  }

  // ----- the number at the start of a line -----

  function SkipBlanks(s: Text, i: nat): (k: nat)
    requires i <= |s|
    ensures i <= k <= |s| && !IsBlank(Peek(s, k))
    decreases |s| - i
  {
    if i < |s| && IsBlank(s[i]) then SkipBlanks(s, i + 1) else i
  }

  function DigitsEnd(s: Text, i: nat): (k: nat)
    requires i <= |s|
    ensures i <= k <= |s| && !IsDigit(Peek(s, k)) && forall q :: i <= q < k ==> IsDigit(s[q])
    decreases |s| - i
  {
    if i < |s| && IsDigit(s[i]) then DigitsEnd(s, i + 1) else i
  }

  /** Where the digits start, whether a minus sign precedes them, and where the integer part and the fraction end. */
  datatype Layout = Layout(neg: bool, start: nat, point: nat, frac: nat, end: nat)

  function LayoutOf(s: Text, tab: int): (l: Layout)
    ensures l.start <= l.point <= l.frac <= l.end <= |s|
    ensures forall q :: l.start <= q < l.point || l.frac <= q < l.end ==> IsDigit(s[q])
  {
    var i := SkipBlanks(s, if tab != 0 && |s| > 0 && s[0] == tab then 1 else 0);
    var neg := Peek(s, i) == MINUS;
    var start := if neg then i + 1 else i;
    var point := DigitsEnd(s, start);
    var frac := if Peek(s, point) == POINT then point + 1 else point;
    Layout(neg, start, point, frac, DigitsEnd(s, frac))
  }

  ghost predicate Digits(d: Text) {
    forall i :: 0 <= i < |d| ==> IsDigit(d[i])
  }

  function Pow10(n: nat): (p: nat)
    ensures p >= 1
  {
    if n == 0 then 1 else 10 * Pow10(n - 1)
  }

  /** The value of a string of digits, most significant first. */
  function IntValue(d: Text): int {
    if d == [] then 0 else (d[0] - ZERO) * Pow10(|d| - 1) + IntValue(d[1..])
  }

  /** The value of the digits after the point. */
  function FracValue(d: Text): real {
    if d == [] then 0.0 else ((d[0] - ZERO) as real + FracValue(d[1..])) / 10.0
  }

  function Magnitude(s: Text, tab: int): real {
    var l := LayoutOf(s, tab);
    IntValue(s[l.start..l.point]) as real + FracValue(s[l.frac..l.end])
  }

  /** The decimal value at the start of the line. */
  function Value(s: Text, tab: int): real {
    if LayoutOf(s, tab).neg then -Magnitude(s, tab) else Magnitude(s, tab)
  }

  function Sign(x: real): int {
    if x < 0.0 then -1 else if x > 0.0 then 1 else 0
  }

  function SignOf(c: int): int {
    if c < 0 then -1 else if c > 0 then 1 else 0
  }

  // ----- digit strings -----

  lemma RestDigits(d: Text)
    requires Digits(d) && d != []
    ensures Digits(d[1..]) && IsDigit(d[0])
  {
    forall i | 0 <= i < |d| - 1
      ensures IsDigit(d[1..][i])
    {
      assert d[1..][i] == d[i + 1];
    }
  }

  lemma IntFirst(d: Text)
    requires d != []
    ensures IntValue(d) == (d[0] - ZERO) * Pow10(|d| - 1) + IntValue(d[1..])
  {
  }

  lemma FracFirst(d: Text)
    requires d != []
    ensures FracValue(d) == ((d[0] - ZERO) as real + FracValue(d[1..])) / 10.0
  {
  }

  lemma {:induction false} IntBounds(d: Text)
    requires Digits(d)
    ensures 0 <= IntValue(d) < Pow10(|d|)
  {
    hide Digits;
    if d != [] {
      RestDigits(d);
      IntBounds(d[1..]);
      DigitScaled(d[0] - ZERO, Pow10(|d| - 1));
    }
  }

  lemma DigitScaled(c: int, p: int)
    requires 0 <= c <= 9 && p >= 1
    ensures 0 <= c * p <= 9 * p
  {
  }

  /** Some of the first k digits is not zero. */
  ghost predicate Nonzero(d: Text, k: nat)
    requires k <= |d|
  {
    exists i :: 0 <= i < k && d[i] != ZERO
  }

  lemma NonzeroRest(d: Text, k: nat)
    requires 0 < k <= |d|
    ensures Nonzero(d, k) <==> d[0] != ZERO || Nonzero(d[1..], k - 1)
  {
    var e := d[1..];
    if Nonzero(d, k) && d[0] == ZERO {
      var i :| 0 <= i < k && d[i] != ZERO;
      assert e[i - 1] != ZERO;
    }
    if Nonzero(e, k - 1) {
      var i :| 0 <= i < k - 1 && e[i] != ZERO;
      assert d[i + 1] != ZERO;
    }
  }

  /** Leading digits that are all zero add nothing; otherwise they outweigh what follows. */
  lemma {:induction false} HighDigits(d: Text, k: nat)
    requires Digits(d) && k <= |d|
    ensures if Nonzero(d, k) then IntValue(d) >= Pow10(|d| - k) else IntValue(d) == IntValue(d[k..])
    decreases k
  {
    hide Digits, IntValue, Pow10, Nonzero;
    if k == 0 {
      assert !Nonzero(d, 0) by { NoneNonzero(d); }
      assert d[0..] == d;
    } else {
      RestDigits(d);
      NonzeroRest(d, k);
      IntFirst(d);
      assert d[1..][k - 1..] == d[k..];
      if d[0] != ZERO {
        IntBounds(d[1..]);
        Pow10Grows(|d| - k, |d| - 1);
        DigitAtLeast(d[0] - ZERO, Pow10(|d| - 1));
      } else {
        HighDigits(d[1..], k - 1);
        assert (d[0] - ZERO) * Pow10(|d| - 1) == 0;
      }
    }
  }

  lemma NoneNonzero(d: Text)
    ensures !Nonzero(d, 0)
  {
  }

  lemma DigitAtLeast(c: int, p: int)
    requires c >= 1 && p >= 0
    ensures c * p >= p
  {
  }

  lemma {:induction false} Pow10Grows(m: nat, n: nat)
    requires m <= n
    ensures Pow10(m) <= Pow10(n)
  {
    if m < n { Pow10Grows(m, n - 1); }
  }

  /** Of two strings of one length the first difference decides. */
  lemma IntCompare(d: Text, e: Text)
    requires Digits(d) && Digits(e) && |d| == |e| > 0
    ensures d[0] < e[0] ==> IntValue(d) < IntValue(e)
    ensures d[0] == e[0] ==> IntValue(e) - IntValue(d) == IntValue(e[1..]) - IntValue(d[1..])
  {
    hide Digits, IntValue, Pow10;
    RestDigits(d);
    RestDigits(e);
    IntBounds(d[1..]);
    IntBounds(e[1..]);
    IntFirst(d);
    IntFirst(e);
    if d[0] < e[0] {
      StepApart(d[0] - ZERO, e[0] - ZERO, Pow10(|d| - 1));
    }
  }

  lemma StepApart(a: int, b: int, p: int)
    requires a < b && p >= 0
    ensures a * p + p <= b * p
  {
    assert b * p == (a + 1) * p + (b - a - 1) * p;
    assert (b - a - 1) * p >= 0;
  }

  lemma {:induction false} FracBounds(d: Text)
    requires Digits(d)
    ensures 0.0 <= FracValue(d) < 1.0
    ensures FracValue(d) == 0.0 <==> !Nonzero(d, |d|)
  {
    hide Digits, FracValue, Nonzero;
    if d == [] {
      NoFraction();
      NoneNonzero(d);
    } else {
      RestDigits(d);
      FracFirst(d);
      NonzeroRest(d, |d|);
      FracBounds(d[1..]);
    }
  }

  /** Digits c and e before the fractions f and g. */
  lemma TenthsCompare(c: int, e: int, f: real, g: real)
    requires 0.0 <= f < 1.0 && 0.0 <= g < 1.0
    ensures c < e ==> (c as real + f) / 10.0 < (e as real + g) / 10.0
    ensures c == e ==> Sign((e as real + g) / 10.0 - (c as real + f) / 10.0) == Sign(g - f)
  {
    if c < e { assert c as real + 1.0 <= e as real; }
  }

  lemma FracCompare(d: Text, e: Text)
    requires Digits(d) && Digits(e) && d != [] && e != []
    ensures d[0] < e[0] ==> FracValue(d) < FracValue(e)
    ensures d[0] == e[0] ==> Sign(FracValue(e) - FracValue(d)) == Sign(FracValue(e[1..]) - FracValue(d[1..]))
  {
    hide Digits, FracValue, Sign;
    RestDigits(d);
    RestDigits(e);
    FracBounds(d[1..]);
    FracBounds(e[1..]);
    FracFirst(d);
    FracFirst(e);
    TenthsCompare(d[0] - ZERO, e[0] - ZERO, FracValue(d[1..]), FracValue(e[1..]));
  }

  // ----- the comparison -----

  /** Compare two digit strings from the low end until one of them ends: the sign of the highest difference. */
  method LowDigits(x: Text, xs: nat, xe: nat, y: Text, ys: nat, ye: nat) returns (a: int, i: nat, j: nat)
    requires xs <= xe <= |x| && ys <= ye <= |y| && Digits(x[xs..xe]) && Digits(y[ys..ye])
    ensures xs <= i && ys <= j && (i == xs || j == ys) && xe - i == ye - j >= 0
    ensures SignOf(a) == SignOf(IntValue(y[j..ye]) - IntValue(x[i..xe]))
  {
    hide IntValue, Digits;
    a, i, j := 0, xe, ye;
    NoDigits();
    assert x[i..xe] == [] && y[j..ye] == [];
    while i > xs && j > ys
      invariant xs <= i && ys <= j && xe - i == ye - j >= 0
      invariant SignOf(a) == SignOf(IntValue(y[j..ye]) - IntValue(x[i..xe]))
    {
      FirstDigit(x, i - 1, xe);
      FirstDigit(y, j - 1, ye);
      SubDigits(x, xs, xe, i - 1);
      SubDigits(y, ys, ye, j - 1);
      IntCompare(x[i - 1..xe], y[j - 1..ye]);
      IntCompare(y[j - 1..ye], x[i - 1..xe]);
      i, j := i - 1, j - 1;
      var b := y[j] - x[i];
      if b != 0 {
        a := b;
      }
    }
  }

  lemma FirstDigit(s: Text, lo: nat, hi: nat)
    requires lo < hi <= |s|
    ensures s[lo..hi][0] == s[lo] && s[lo..hi][1..] == s[lo + 1..hi]
  {
  }

  lemma NoDigits()
    ensures IntValue([]) == 0
  {
  }

  lemma SubDigits(s: Text, lo: nat, hi: nat, k: nat)
    requires lo <= k <= hi <= |s| && Digits(s[lo..hi])
    ensures Digits(s[k..hi])
  {
    forall i | 0 <= i < hi - k
      ensures IsDigit(s[k..hi][i])
    {
      assert s[k..hi][i] == s[lo..hi][k - lo + i];
    }
  }

  /** Whether a digit of s[lo..k] differs from zero. */
  method AnyNonzero(s: Text, lo: nat, k: nat) returns (found: bool)
    requires lo <= k <= |s|
    ensures found <==> exists i :: lo <= i < k && s[i] != ZERO
  {
    var i := k;
    while i > lo
      invariant lo <= i <= k
      invariant forall q :: i <= q < k ==> s[q] == ZERO
    {
      i := i - 1;
      if s[i] != ZERO {
        return true;
      }
    }
    found := false;
  }

  lemma NonzeroPart(s: Text, lo: nat, k: nat, hi: nat)
    requires lo <= k <= hi <= |s|
    ensures Nonzero(s[lo..hi], k - lo) <==> exists i :: lo <= i < k && s[i] != ZERO
  {
    var d := s[lo..hi];
    assert forall i :: 0 <= i < |d| ==> d[i] == s[lo + i];
    if i :| lo <= i < k && s[i] != ZERO { assert d[i - lo] != ZERO; }
  }

  lemma HighPart(s: Text, lo: nat, k: nat, hi: nat)
    requires lo <= k <= hi <= |s| && Digits(s[lo..hi])
    ensures Digits(s[k..hi])
    ensures (forall i :: lo <= i < k ==> s[i] == ZERO) ==> IntValue(s[lo..hi]) == IntValue(s[k..hi])
    ensures (exists i :: lo <= i < k && s[i] != ZERO) ==> IntValue(s[lo..hi]) >= Pow10(hi - k)
  {
    hide Digits, IntValue, Pow10, Nonzero;
    SubDigits(s, lo, hi, k);
    HighDigits(s[lo..hi], k - lo);
    NonzeroPart(s, lo, k, hi);
    assert s[lo..hi][k - lo..] == s[k..hi];
  }

  method ScanBlanks(s: Text, i: nat) returns (k: nat)
    requires i <= |s|
    ensures k == SkipBlanks(s, i)
  {
    k := i;
    while IsBlank(Peek(s, k))
      invariant k <= |s| && SkipBlanks(s, k) == SkipBlanks(s, i)
      decreases |s| - k
    {
      k := k + 1;
    }
  }

  method ScanDigits(s: Text, i: nat) returns (k: nat)
    requires i <= |s|
    ensures k == DigitsEnd(s, i)
  {
    k := i;
    while k < |s| && IsDigit(s[k])
      invariant i <= k <= |s| && DigitsEnd(s, k) == DigitsEnd(s, i)
    {
      k := k + 1;
    }
  }

  /** Skip blanks and a minus sign and find the end of the integer part. */
  method ScanInteger(s: Text, tab: int) returns (neg: bool, start: nat, point: nat)
    ensures var l := LayoutOf(s, tab); neg == l.neg && start == l.start && point == l.point
  {
    hide SkipBlanks, DigitsEnd;
    start := 0;
    if tab != 0 && start < |s| && s[start] == tab {
      start := start + 1;
    }
    start := ScanBlanks(s, start);
    neg := Peek(s, start) == MINUS;
    if neg {
      start := start + 1;
    }
    point := ScanDigits(s, start);
  }

  lemma FracStep(x: Text, i: nat, xe: nat, y: Text, j: nat, ye: nat)
    requires i < xe <= |x| && forall q :: i <= q < xe ==> IsDigit(x[q])
    requires j < ye <= |y| && forall q :: j <= q < ye ==> IsDigit(y[q])
    ensures var sign := Sign(FracValue(y[j..ye]) - FracValue(x[i..xe]));
            if x[i] != y[j] then sign == SignOf(y[j] - x[i])
            else sign == Sign(FracValue(y[j + 1..ye]) - FracValue(x[i + 1..xe]))
  {
    hide FracValue, Digits;
    DigitsOf(x, i, xe);
    DigitsOf(y, j, ye);
    FirstDigit(x, i, xe);
    FirstDigit(y, j, ye);
    FracCompare(x[i..xe], y[j..ye]);
    FracCompare(y[j..ye], x[i..xe]);
  }

  /**
   Compare two fractions digit by digit: the difference of the first unequal
   digits, and where the common digits end.
   */
  method CommonFraction(x: Text, xf: nat, y: Text, yf: nat) returns (a: int, i: nat, j: nat)
    requires xf <= |x| && yf <= |y|
    ensures var xe, ye := DigitsEnd(x, xf), DigitsEnd(y, yf);
            && xf <= i <= xe && yf <= j <= ye
            && (a != 0 ==> SignOf(a) == Sign(FracValue(y[yf..ye]) - FracValue(x[xf..xe])))
            && (a == 0 ==> i == xe || j == ye)
            && (a == 0 ==>
                  Sign(FracValue(y[yf..ye]) - FracValue(x[xf..xe])) == Sign(FracValue(y[j..ye]) - FracValue(x[i..xe])))
  {
    hide FracValue, Sign;
    ghost var xe, ye := DigitsEnd(x, xf), DigitsEnd(y, yf);
    a, i, j := 0, xf, yf;
    while i < |x| && IsDigit(x[i]) && j < |y| && IsDigit(y[j])
      invariant xf <= i <= xe && yf <= j <= ye && DigitsEnd(x, i) == xe && DigitsEnd(y, j) == ye
      invariant Sign(FracValue(y[yf..ye]) - FracValue(x[xf..xe])) == Sign(FracValue(y[j..ye]) - FracValue(x[i..xe]))
    {
      FracStep(x, i, xe, y, j, ye);
      a := y[j] - x[i];
      if a != 0 {
        return;
      }
      i, j := i + 1, j + 1;
    }
  }

  /** Whether a digit other than zero follows at `i`. */
  method AnyDigitNonzero(s: Text, i: nat) returns (found: bool)
    requires i <= |s|
    ensures found <==> FracValue(s[i..DigitsEnd(s, i)]) > 0.0
    ensures !found ==> FracValue(s[i..DigitsEnd(s, i)]) == 0.0
  {
    ghost var e := DigitsEnd(s, i);
    FracBounds(s[i..e]);
    hide FracValue;
    var k := i;
    while k < |s| && IsDigit(s[k])
      invariant i <= k <= e && DigitsEnd(s, k) == e
      invariant forall q :: i <= q < k ==> s[q] == ZERO
    {
      if s[k] != ZERO {
        assert s[i..e][k - i] == s[k];
        return true;
      }
      k := k + 1;
    }
    found := false;
  }

  // ----- putting the parts together -----

  function Signed(neg: bool, m: real): real {
    if neg then -m else m
  }

  lemma SameSigns(neg: bool, mx: real, my: real)
    ensures Sign(Signed(neg, my) - Signed(neg, mx)) == (if neg then -1 else 1) * Sign(my - mx)
  {
  }

  lemma OppositeSigns(neg: bool, mx: real, my: real)
    requires mx >= 0.0 && my >= 0.0 && mx + my > 0.0
    ensures Sign(Signed(!neg, my) - Signed(neg, mx)) == if neg then 1 else -1
  {
  }

  /** Different integer parts decide whatever the fractions are. */
  lemma IntegersDecide(ix: int, iy: int, fx: real, fy: real)
    requires 0.0 <= fx < 1.0 && 0.0 <= fy < 1.0
    ensures ix != iy ==> Sign((iy as real + fy) - (ix as real + fx)) == SignOf(iy - ix)
    ensures ix == iy ==> Sign((iy as real + fy) - (ix as real + fx)) == Sign(fy - fx)
  {
    if ix < iy { assert ix as real + 1.0 <= iy as real; }
    if iy < ix { assert iy as real + 1.0 <= ix as real; }
  }

  /** Compare the integer parts of two numbers; 0 if they leave the order open. */
  method CompareIntegers(x: Text, y: Text, l: Layout, m: Layout, sa: int, sb: int) returns (c: int)
    requires l.start <= l.point <= |x| && m.start <= m.point <= |y|
    requires Digits(x[l.start..l.point]) && Digits(y[m.start..m.point])
    requires (sa == 1 || sa == -1) && (sb == 1 || sb == -1)
    ensures var ix, iy := IntValue(x[l.start..l.point]), IntValue(y[m.start..m.point]);
            && ix >= 0 && iy >= 0
            && SignOf(c) == IntegerOrder(sa, sb, ix, iy)
  {
    hide IntValue, Digits;
    var a, i, j := 0, l.point, m.point;
    IntBounds(x[l.start..l.point]);
    IntBounds(y[m.start..m.point]);
    NoDigits();
    if sa == sb {
      a, i, j := LowDigits(x, l.start, l.point, y, m.start, m.point);
    }
    HighPart(x, l.start, i, l.point);
    HighPart(y, m.start, j, m.point);
    IntBounds(x[i..l.point]);
    IntBounds(y[j..m.point]);
    assert i == l.point ==> x[i..l.point] == [];
    assert j == m.point ==> y[j..m.point] == [];
    var highX := AnyNonzero(x, l.start, i);
    if highX {
      return -sa;
    }
    var highY := AnyNonzero(y, m.start, j);
    if highY {
      return sb;
    }
    c := a * sa;
  }

  /** What the comparison of the integer parts should say. */
  function IntegerOrder(sa: int, sb: int, ix: int, iy: int): int {
    if sa == sb then sa * SignOf(iy - ix) else if ix != 0 then -sa else if iy != 0 then sb else 0
  }

  /** What the comparison of the fractions should say. */
  function FractionOrder(sa: int, sb: int, fx: real, fy: real): int {
    if sa == sb then sa * Sign(fy - fx) else if fx > 0.0 then -sa else if fy > 0.0 then sb else 0
  }

  function Turned(neg: bool, rflg: int): int {
    if neg then -rflg else rflg
  }

  lemma ValueIs(s: Text, tab: int, l: Layout)
    requires l == LayoutOf(s, tab)
    ensures Value(s, tab) == Signed(l.neg, IntValue(s[l.start..l.point]) as real + FracValue(s[l.frac..l.end]))
  {
    hide IntValue, FracValue, LayoutOf;
  }

  /** The integer parts decide unless they leave the order open; then the fractions do. */
  lemma PartsDecide(nx: bool, ny: bool, ix: int, iy: int, fx: real, fy: real, rflg: int)
    requires ix >= 0 && iy >= 0 && 0.0 <= fx < 1.0 && 0.0 <= fy < 1.0 && (rflg == 1 || rflg == -1)
    ensures var sa, sb := Turned(nx, rflg), Turned(ny, rflg);
            var c := IntegerOrder(sa, sb, ix, iy);
            (if c != 0 then c else FractionOrder(sa, sb, fx, fy))
            == rflg * Sign(Signed(ny, iy as real + fy) - Signed(nx, ix as real + fx))
  {
    hide Signed;
    Verdict(nx, ny, ix, iy, fx, fy);
  }

  /** The numeric comparison of whole lines: the sign of the difference of their values, reversed by `rflg`. */
  method NumericCompare(x: Text, y: Text, rflg: int, tab: int) returns (c: int)
    requires rflg == 1 || rflg == -1
    ensures SignOf(c) == rflg * Sign(Value(y, tab) - Value(x, tab))
  {
    hide LayoutOf, IntValue, FracValue, Digits, Value, Sign, Signed, IntegerOrder, FractionOrder, DigitsEnd;
    ghost var l, m := LayoutOf(x, tab), LayoutOf(y, tab);
    var nx, xs, xp := ScanInteger(x, tab);
    var ny, ys, yp := ScanInteger(y, tab);
    var sa := Turned(nx, rflg);
    var sb := Turned(ny, rflg);
    LayoutParts(x, tab);
    LayoutParts(y, tab);
    FracBounds(x[l.frac..l.end]);
    FracBounds(y[m.frac..m.end]);
    ValueIs(x, tab, l);
    ValueIs(y, tab, m);
    c := CompareIntegers(x, y, Layout(nx, xs, xp, xp, xp), Layout(ny, ys, yp, yp, yp), sa, sb);
    PartsDecide(nx, ny, IntValue(x[xs..xp]), IntValue(y[ys..yp]),
                FracValue(x[l.frac..l.end]), FracValue(y[m.frac..m.end]), rflg);
    if c != 0 {
      return;
    }
    var xf := if Peek(x, xp) == POINT then xp + 1 else xp;
    var yf := if Peek(y, yp) == POINT then yp + 1 else yp;
    c := CompareFractions(x, y, xf, yf, sa, sb);
  }

  /** Compare two fractions; 0 if they leave the order open. */
  method CompareFractions(x: Text, y: Text, xf: nat, yf: nat, sa: int, sb: int) returns (c: int)
    requires xf <= |x| && yf <= |y| && (sa == 1 || sa == -1) && (sb == 1 || sb == -1)
    ensures var fx, fy := FracValue(x[xf..DigitsEnd(x, xf)]), FracValue(y[yf..DigitsEnd(y, yf)]);
            SignOf(c) == FractionOrder(sa, sb, fx, fy)
  {
    hide FracValue;
    var i, j := xf, yf;
    if sa == sb {
      var a;
      a, i, j := CommonFraction(x, xf, y, yf);
      if a != 0 {
        return a * sa;
      }
    }
    RestOfDigits(x, xf, i);
    RestOfDigits(y, yf, j);
    NoFraction();
    var restX := AnyDigitNonzero(x, i);
    if restX {
      return -sa;
    }
    var restY := AnyDigitNonzero(y, j);
    if restY {
      return sb;
    }
    c := 0;
  }

  lemma NoFraction()
    ensures FracValue([]) == 0.0
  {
  }

  lemma {:induction false} RestOfDigits(s: Text, f: nat, i: nat)
    requires f <= |s| && f <= i <= DigitsEnd(s, f)
    ensures DigitsEnd(s, i) == DigitsEnd(s, f)
    ensures i == DigitsEnd(s, f) ==> s[i..DigitsEnd(s, f)] == []
    decreases i - f
  {
    if f < i { RestOfDigits(s, f + 1, i); }
  }

  lemma DigitsOf(s: Text, lo: nat, hi: nat)
    requires lo <= hi <= |s| && forall q :: lo <= q < hi ==> IsDigit(s[q])
    ensures Digits(s[lo..hi])
  {
  }

  lemma LayoutParts(s: Text, tab: int)
    ensures var l := LayoutOf(s, tab);
            && Digits(s[l.start..l.point]) && Digits(s[l.frac..l.end])
            && l.frac == (if Peek(s, l.point) == POINT then l.point + 1 else l.point)
            && l.frac <= |s| && l.end == DigitsEnd(s, l.frac)
  {
    hide SkipBlanks, DigitsEnd, Digits;
    var l := LayoutOf(s, tab);
    DigitsOf(s, l.start, l.point);
    DigitsOf(s, l.frac, l.end);
  }

  /** What the signs and the parts of two numbers say about their order. */
  lemma Verdict(nx: bool, ny: bool, ix: int, iy: int, fx: real, fy: real)
    requires ix >= 0 && iy >= 0 && 0.0 <= fx < 1.0 && 0.0 <= fy < 1.0
    ensures var v := Sign(Signed(ny, iy as real + fy) - Signed(nx, ix as real + fx));
            var s := if nx then -1 else 1;
            && (nx == ny ==> v == s * (if ix != iy then SignOf(iy - ix) else Sign(fy - fx)))
            && (nx != ny ==> v == if ix == 0 && iy == 0 && fx == 0.0 && fy == 0.0 then 0 else -s)
  {
    IntegersDecide(ix, iy, fx, fy);
    SameSigns(nx, ix as real + fx, iy as real + fy);
    if nx != ny && !(ix == 0 && iy == 0 && fx == 0.0 && fy == 0.0) {
      OppositeSigns(nx, ix as real + fx, iy as real + fy);
    }
  }

  // ----- the order of lines -----

  /** A line has no newline inside. */
  type LineText = s: Text | NEWLINE !in s

  /** The comparison by characters: positive if `x` comes first. */
  function PlainOrder(x: LineText, y: LineText): int {
    if x == [] && y == [] then 0
    else if x == [] then 1
    else if y == [] then -1
    else if x[0] == y[0] then PlainOrder(x[1..], y[1..])
    else if y[0] > x[0] then 1
    else -1
  }

  /** In a dictionary of character codes, line x stands before line y. */
  ghost predicate Before(x: Text, y: Text) {
    Precedes((c: int) => c, x, y)
  }

  /** The comparison by characters is the order of a dictionary. */
  lemma {:induction false} PlainOrderBefore(x: LineText, y: LineText)
    ensures PlainOrder(x, y) > 0 <==> Before(x, y)
    ensures PlainOrder(x, y) == 0 <==> x == y
  {
    if x == [] || y == [] || x[0] != y[0] {
      FirstDiffers((c: int) => c, x, y);
    } else {
      PlainOrderBefore(x[1..], y[1..]);
      FirstEqual((c: int) => c, x, y);
      assert x == [x[0]] + x[1..] && y == [y[0]] + y[1..];
    }
  }

  method PlainCompare(x: LineText, y: LineText, rflg: int) returns (c: int)
    ensures c == rflg * PlainOrder(x, y)
  {
    var i := 0;
    while Peek(x, i) == Peek(y, i)
      invariant i <= |x| && i <= |y|
      invariant PlainOrder(x[i..], y[i..]) == PlainOrder(x, y)
      decreases |x| - i
    {
      if Peek(x, i) == NEWLINE {
        AtEnd(x, i);
        AtEnd(y, i);
        return 0;
      }
      assert i < |x| && i < |y|;
      assert x[i..][1..] == x[i + 1..] && y[i..][1..] == y[i + 1..];
      i := i + 1;
    }
    AtEnd(x, i);
    AtEnd(y, i);
    c := if Peek(x, i) == NEWLINE then rflg
         else if Peek(y, i) == NEWLINE then -rflg
         else if Peek(y, i) > Peek(x, i) then rflg
         else -rflg;
  }

  lemma AtEnd(s: LineText, i: nat)
    requires i <= |s|
    ensures Peek(s, i) == NEWLINE <==> i == |s|
  {
    if i < |s| { assert s[i] in s; }
  }

  /** The comparison on whole lines: by value, then, unless output is to be unique, by characters. */
  function LineOrder(x: LineText, y: LineText, rflg: int, tab: int, uflg: bool): int {
    var c := rflg * Sign(Value(y, tab) - Value(x, tab));
    if c != 0 || uflg then c else rflg * PlainOrder(x, y)
  }

  method Compare(x: LineText, y: LineText, rflg: int, tab: int, uflg: bool) returns (c: int)
    requires rflg == 1 || rflg == -1
    ensures SignOf(c) == LineOrder(x, y, rflg, tab, uflg)
  {
    hide Value;
    c := NumericCompare(x, y, rflg, tab);
    if c == 0 && !uflg {
      c := PlainCompare(x, y, rflg);
      PlainSign(x, y);
    }
  }

  lemma {:induction false} PlainSign(x: LineText, y: LineText)
    ensures -1 <= PlainOrder(x, y) <= 1
    ensures PlainOrder(y, x) == -PlainOrder(x, y)
  {
    if x != [] && y != [] && x[0] == y[0] { PlainSign(x[1..], y[1..]); }
  }

  lemma {:induction false} PlainTransitive(x: LineText, y: LineText, z: LineText)
    requires PlainOrder(x, y) >= 0 && PlainOrder(y, z) >= 0
    ensures PlainOrder(x, z) >= 0
    ensures PlainOrder(x, y) > 0 || PlainOrder(y, z) > 0 ==> PlainOrder(x, z) > 0
  {
    if x != [] && y != [] && z != [] && x[0] == y[0] == z[0] { PlainTransitive(x[1..], y[1..], z[1..]); }
  }

  /** The comparison is a total preorder, as the quicksort demands. */
  lemma LineOrderIsPreorder(rflg: int, tab: int, uflg: bool)
    requires rflg == 1 || rflg == -1
    ensures IsPreorder((x: LineText, y: LineText) => LineOrder(x, y, rflg, tab, uflg))
  {
    hide Value;
    var cmp := (x: LineText, y: LineText) => LineOrder(x, y, rflg, tab, uflg);
    forall x, y
      ensures cmp(x, y) < 0 <==> cmp(y, x) > 0
    {
      PlainSign(x, y);
    }
    forall x, y, z | cmp(x, y) <= 0 && cmp(y, z) <= 0
      ensures cmp(x, z) <= 0
    {
      OrderTransitive(x, y, z, rflg, tab, uflg);
    }
  }

  lemma OrderTransitive(x: LineText, y: LineText, z: LineText, rflg: int, tab: int, uflg: bool)
    requires rflg == 1 || rflg == -1
    requires LineOrder(x, y, rflg, tab, uflg) <= 0 && LineOrder(y, z, rflg, tab, uflg) <= 0
    ensures LineOrder(x, z, rflg, tab, uflg) <= 0
  {
    hide Value, PlainOrder;
    PlainSign(x, y);
    PlainSign(y, z);
    PlainSign(x, z);
    if PlainOrder(x, y) >= 0 && PlainOrder(y, z) >= 0 { PlainTransitive(x, y, z); }
    if PlainOrder(y, x) >= 0 && PlainOrder(z, y) >= 0 { PlainTransitive(z, y, x); }
  }
}
