/**
 Smallest prime factors by Dijkstra's algorithm: the number is held in a mixed
 radix whose bases f, f+1, f+2, ... move up by one at every step, so that the
 lowest digit is its remainder modulo f.
 */
module Factor {

  // ----- divisibility -----

  ghost predicate Divides(d: int, n: int) {
    exists k :: n == Times(d, k)
  }

  function Times(d: int, k: int): int {
    d * k
  }

  ghost predicate IsPrime(p: int) {
    p >= 2 && forall m :: 2 <= m < p ==> !Divides(m, p)
  }

  /** No number in 2..f-1 divides `n`. */
  ghost predicate NoneBelow(n: int, f: int) {
    forall m :: 2 <= m < f ==> !Divides(m, n)
  }

  ghost predicate IsSmallestPrimeFactor(p: int, n: int) {
    IsPrime(p) && Divides(p, n) && NoneBelow(n, p)
  }

  lemma DividesTransitive(a: int, b: int, c: int)
    requires Divides(a, b) && Divides(b, c)
    ensures Divides(a, c)
  {
    var k :| b == Times(a, k);
    var l :| c == Times(b, l);
    assert c == a * k * l == Times(a, k * l);
  }

  /** The first divisor found is prime. */
  lemma LeastDivisorIsPrime(p: int, n: int)
    requires p >= 2 && Divides(p, n) && NoneBelow(n, p)
    ensures IsPrime(p)
  {
    forall m | 2 <= m < p
      ensures !Divides(m, p)
    {
      if Divides(m, p) { DividesTransitive(m, p, n); }
    }
  }

  /** A number below (f+1)^2 without divisors up to f is prime. */
  lemma FewDigitsPrime(n: int, f: int)
    requires f >= 2 && 2 <= n < (f + 1) * (f + 1) && NoneBelow(n, f + 1)
    ensures IsPrime(n)
  {
    forall m | 2 <= m < n
      ensures !Divides(m, n)
    {
      if Divides(m, n) {
        var k :| n == Times(m, k);
        CofactorBounds(n, m, k);
        assert n == Times(k, m);
        assert Divides(k, n);
        assert m >= f + 1 && k >= f + 1;
        Grows(f + 1, f + 1, m, k);
      }
    }
  }

  lemma CofactorBounds(n: int, m: int, k: int)
    requires 2 <= m < n && n == m * k
    ensures k >= 2
  {
    Scaled(m, k, 1);
  }

  lemma Scaled(a: int, x: int, y: int)
    requires a >= 0
    ensures x <= y ==> a * x <= a * y
  {
  }

  lemma Grows(a: int, b: int, m: int, k: int)
    requires 0 <= a <= m && 0 <= b <= k
    ensures a * b <= m * k
  {
    assert a * b <= m * b;
    assert m * b <= m * k;
  }

  // ----- mixed radix -----

  /** The number with digits `d`, least significant first, in the radices f, f+1, f+2, ... */
  ghost function Value(d: seq<int>, f: int): int {
    if d == [] then 0 else d[0] + f * Value(d[1..], f + 1)
  }

  /** The same with `x` for the value of the digits beyond `d`. */
  ghost function Onto(d: seq<int>, f: int, x: int): int {
    if d == [] then x else d[0] + f * Onto(d[1..], f + 1, x)
  }

  ghost predicate InRange(d: seq<int>, f: int) {
    forall i :: 0 <= i < |d| ==> 0 <= d[i] < f + i
  }

  ghost function Head(d: seq<int>): int {
    if d == [] then 0 else d[0]
  }

  /**
   The value, in the radices g+i, g+i+1, ..., of digits that stand at positions
   i, i+1, ... and are still those of the radices one lower.
   */
  ghost function Shifted(d: seq<int>, i: int, g: int): int {
    if d == [] then 0
    else d[0] - (i + 1) * Head(d[1..]) + (g + i) * Shifted(d[1..], i + 1, g)
  }

  /** Moving every radix up by one. */
  lemma {:induction false} ShiftedValue(d: seq<int>, i: int, f: int)
    ensures Shifted(d, i, f + 1) == Value(d, f + i) - i * (if d == [] then 0 else Value(d[1..], f + i + 1))
  {
    if d != [] {
      var e := d[1..];
      ShiftedValue(e, i + 1, f);
      if e == [] {
        assert Shifted(e, i + 1, f + 1) == 0 && Value(e, f + i + 1) == 0;
      } else {
        var v, w := Value(e, f + i + 1), Value(e[1..], f + i + 2);
        assert v == e[0] + (f + i + 1) * w;
        Regroup(d[0], e[0], i, f, v, w);
      }
    }
  }

  lemma Regroup(a: int, b: int, i: int, f: int, v: int, w: int)
    requires v == b + (f + i + 1) * w
    ensures a - (i + 1) * b + (f + 1 + i) * (v - (i + 1) * w) == a + (f + i) * v - i * v
  {
    calc {
      (f + 1 + i) * (v - (i + 1) * w);
      (f + 1 + i) * v - (i + 1) * ((f + i + 1) * w);
      (f + 1 + i) * v - (i + 1) * (v - b);
    }
  }

  lemma {:induction false} OntoSnoc(d: seq<int>, c: int, f: int, x: int)
    ensures Onto(d + [c], f, x) == Onto(d, f, c + (f + |d|) * x)
  {
    if d == [] {
      assert ([c])[1..] == [];
    } else {
      assert (d + [c])[1..] == d[1..] + [c];
      OntoSnoc(d[1..], c, f + 1, x);
    }
  }

  lemma {:induction false} OntoValue(d: seq<int>, c: int, f: int)
    ensures Onto(d, f, c) == Value(d + [c], f)
  {
    if d == [] {
      assert [c][1..] == [];
    } else {
      assert (d + [c])[1..] == d[1..] + [c];
      OntoValue(d[1..], c, f + 1);
    }
  }

  /** A number that is not negative has no negative leading digit. */
  lemma {:induction false} OntoSign(d: seq<int>, f: int, x: int)
    requires f >= 1 && InRange(d, f) && x < 0
    ensures Onto(d, f, x) < 0
  {
    if d != [] {
      assert InRange(d[1..], f + 1) by {
        forall i | 0 <= i < |d[1..]| ensures 0 <= d[1..][i] < f + 1 + i { assert d[i + 1] == d[1..][i]; }
      }
      OntoSign(d[1..], f + 1, x);
      var y := Onto(d[1..], f + 1, x);
      assert f * y <= f * -1;
    }
  }

  /** A leading zero adds nothing. */
  lemma LeadingZero(d: seq<int>, f: int)
    ensures Value(d + [0], f) == Value(d, f)
  {
    OntoValue(d, 0, f);
    OntoZero(d, f);
  }

  lemma {:induction false} OntoZero(d: seq<int>, f: int)
    ensures Onto(d, f, 0) == Value(d, f)
  {
    if d != [] { OntoZero(d[1..], f + 1); }
  }

  // ----- what the digits say about divisors -----

  /** The lowest digit decides whether f divides the number. */
  lemma LowestDigit(d: seq<int>, f: int)
    requires f >= 2 && d != [] && 0 <= d[0] < f
    ensures Divides(f, Value(d, f)) <==> d[0] == 0
  {
    var v := Value(d[1..], f + 1);
    if d[0] == 0 {
      assert Value(d, f) == Times(f, v);
    }
    if Divides(f, Value(d, f)) {
      var k :| Value(d, f) == Times(f, k);
      assert d[0] == f * (k - v);
      Scaled(f, 1, k - v);
      Scaled(f, k - v, -1);
    }
  }

  /** One or two digits in the radices f, f+1 stay below (f+1)^2. */
  lemma TwoDigits(d: seq<int>, f: int)
    requires f >= 2 && 1 <= |d| <= 2 && InRange(d, f)
    ensures Value(d, f) < (f + 1) * (f + 1)
  {
    assert (f + 1) * (f + 1) == f * f + 2 * f + 1;
    if |d| == 1 {
      assert d[1..] == [];
      Scaled(f, 0, f);
    } else {
      assert d[1..] == [d[1]] && [d[1]][1..] == [];
      assert Value(d[1..], f + 1) == d[1];
      Scaled(f, d[1], f);
    }
  }

  /** A number with three or more digits exceeds f. */
  lemma ThreeDigits(d: seq<int>, f: int)
    requires f >= 2 && |d| >= 3 && InRange(d, f) && d[|d| - 1] != 0
    ensures Value(d, f) > f
  {
    InRangeRest(d, f);
    InRangeRest(d[1..], f + 1);
    LeadingDigit(d[1..][1..], f + 2);
    Scaled(f + 1, 1, Value(d[1..][1..], f + 2));
    Scaled(f, 2, Value(d[1..], f + 1));
  }

  lemma InRangeRest(d: seq<int>, f: int)
    requires d != [] && InRange(d, f)
    ensures InRange(d[1..], f + 1)
  {
    forall i | 0 <= i < |d[1..]|
      ensures 0 <= d[1..][i] < f + 1 + i
    {
      assert d[1..][i] == d[i + 1];
    }
  }

  lemma {:induction false} LeadingDigit(d: seq<int>, f: int)
    requires f >= 1 && d != [] && InRange(d, f) && d[|d| - 1] != 0
    ensures Value(d, f) >= 1
  {
    if |d| > 1 {
      InRangeRest(d, f);
      LeadingDigit(d[1..], f + 1);
      Scaled(f, 1, Value(d[1..], f + 1));
    }
  }

  // ----- the algorithm -----

  function Factorial(n: nat): (r: nat)
    ensures r >= 1
  {
    if n == 0 then 1 else n * Factorial(n - 1)
  }

  lemma FactorialStep(n: nat)
    requires n > 0
    ensures Factorial(n) == n * Factorial(n - 1)
  {
  }

  /** A 32-bit number has at most 12 digits in the radices 2, 3, 4, ... */
  lemma {:induction false} FactorialBound(n: nat)
    requires n >= 13
    ensures Factorial(n) >= 0x8000_0000
  {
    if n == 13 {
      assert Factorial(12) == 479001600 by {
        assert Factorial(6) == 720;
        assert Factorial(9) == 362880;
      }
    } else {
      FactorialBound(n - 1);
      Scaled(Factorial(n - 1), 1, n);
    }
  }

  const DIGITS := 24

  /** The digits of N in the radices 2, 3, 4, ...; all of them fit in the array. */
  method Expand(N: int, val: array<int>) returns (hib: int)
    requires 0 < N < 0x8000_0000 && val.Length == DIGITS
    modifies val
    ensures 0 <= hib < DIGITS
    ensures InRange(val[..hib + 1], 2) && val[hib] != 0 && Value(val[..hib + 1], 2) == N
  {
    hide InRange, Onto, Value, Factorial;
    hib := -1;
    var x, y := N, 2;
    assert val[..0] == [];
    ExpandStart(N);
    while x != 0
      invariant -1 <= hib <= 11 && y == hib + 3 && x >= 0
      invariant Onto(val[..hib + 1], 2, x) == N
      invariant x * Factorial(hib + 2) <= N
      invariant InRange(val[..hib + 1], 2)
      invariant x == 0 ==> hib >= 0 && val[hib] != 0
      decreases x
    {
      ghost var before := val[..hib + 1];
      ghost var q := x / y;
      ExpandRoom(x, y, N);
      hib := hib + 1;
      val[hib] := x % y;
      assert val[..hib + 1] == before + [x % y];
      InRangeSnoc(before, x % y, 2);
      OntoSnoc(before, x % y, 2, q);
      x := x / y;
      y := y + 1;
    }
    OntoZero(val[..hib + 1], 2);
  }

  lemma ExpandStart(N: int)
    ensures InRange([], 2) && Onto([], 2, N) == N && Factorial(1) == 1
  {
  }

  lemma InRangeSnoc(d: seq<int>, c: int, f: int)
    requires InRange(d, f) && 0 <= c < f + |d|
    ensures InRange(d + [c], f)
  {
  }

  lemma DivMod(x: int, y: int)
    requires 0 < x && 2 <= y
    ensures x == x % y + y * (x / y) && 0 <= x % y < y && 0 <= x / y < x
  {
    var q := x / y;
    if q >= x {
      Scaled(y, x, q);
      Scaled(x, 2, y);
      assert false;
    }
  }

  lemma Reordered(q: int, y: int, u: int)
    ensures q * (y * u) == (y * q) * u
  {
  }

  /** One digit is split off: the rest is smaller and there is room for it. */
  lemma ExpandRoom(x: int, y: int, N: int)
    requires 0 < x && 2 <= y && N < 0x8000_0000 && x * Factorial(y - 1) <= N
    ensures y <= 13
    ensures x == x % y + y * (x / y) && 0 <= x % y < y && 0 <= x / y < x
    ensures x / y * Factorial(y) <= N
    ensures x / y == 0 ==> x % y != 0
  {
    hide Factorial;
    FactorialStep(y);
    var u := Factorial(y - 1);
    if y >= 14 {
      FactorialBound(y - 1);
      Scaled(u, 1, x);
      assert false;
    }
    DivMod(x, y);
    Reordered(x / y, y, u);
    Scaled(u, y * (x / y), x);
  }

  // ----- moving the radix -----

  /** A digit and what the digits beyond it are worth. */
  ghost function Weighed(c: int, radix: int, x: int): int {
    c + radix * x
  }

  /** Borrowing one from the digits beyond. */
  lemma Borrowed(c: int, radix: int, x: int)
    ensures Weighed(c + radix, radix, x - 1) == Weighed(c, radix, x)
  {
  }

  /** Taking one from the first digit takes one from the value. */
  lemma BorrowStep(d: seq<int>, i: int, g: int)
    requires d != []
    ensures Shifted(d[0 := d[0] - 1], i, g) == Shifted(d, i, g) - 1
  {
    assert d[0 := d[0] - 1][1..] == d[1..];
  }

  /** Bring digit `i` into its new radix, borrowing from the next one while it is below 0. */
  method Settle(val: array<int>, i: nat, hib: int, g: int)
    requires i < hib < val.Length && g >= 3
    requires val[i] < g - 1 + i && 0 <= val[i + 1] < g + i
    modifies val
    ensures val[..i] == old(val[..i]) && forall k :: i + 2 <= k < val.Length ==> val[k] == old(val[k])
    ensures 0 <= val[i] < g + i && val[i + 1] < g + i
    ensures Weighed(val[i], g + i, Shifted(val[i + 1..hib + 1], i + 1, g)) == old(Shifted(val[i..hib + 1], i, g))
  {
    hide Weighed, Shifted;
    ghost var n := hib + 1;
    var j := i + 1;
    SplitDigit(val[i..n], i, g);
    assert val[i..n][1..] == val[j..n];
    assert j * val[j] >= 0;
    val[i] := val[i] - j * val[j];
    assert val[j..n] == old(val[j..n]);
    while val[i] < 0
      invariant val[..i] == old(val[..i]) && forall k :: i + 2 <= k < val.Length ==> val[k] == old(val[k])
      invariant val[i] < g + i && val[j] < g + i
      invariant Weighed(val[i], g + i, Shifted(val[j..n], j, g)) == old(Shifted(val[i..n], i, g))
      decreases -val[i]
    {
      ghost var rest := val[j..n];
      Borrowed(val[i], g + i, Shifted(rest, j, g));
      val[i] := val[i] + (g + i);
      val[j] := val[j] - 1;
      assert val[j..n] == rest[0 := rest[0] - 1];
      BorrowStep(rest, j, g);
    }
  }

  lemma SplitDigit(d: seq<int>, i: int, g: int)
    requires |d| >= 2
    ensures Shifted(d, i, g) == Weighed(d[0] - (i + 1) * d[1], g + i, Shifted(d[1..], i + 1, g))
  {
  }

  /**
   The digits stand in the radices g-1, g, ...; bring them into the radices
   g, g+1, ... in place.
   */
  method MoveUp(val: array<int>, hib: int, g: int, ghost N: int)
    requires 1 <= hib < val.Length && g >= 3 && N > 0
    requires InRange(val[..hib + 1], g - 1) && Value(val[..hib + 1], g - 1) == N
    modifies val
    ensures InRange(val[..hib + 1], g) && Value(val[..hib + 1], g) == N
  {
    hide Value, Onto, Shifted, Weighed;
    ghost var n := hib + 1;
    ShiftedValue(val[..n], 0, g - 1);
    OntoNothing(g, N);
    assert val[0..n] == val[..n] && val[..0] == [];
    assert forall k :: 0 <= k <= hib ==> val[..n][k] == val[k];
    var i := 0;
    while i != hib
      invariant 0 <= i <= hib
      invariant Onto(val[..i], g, Shifted(val[i..n], i, g)) == N
      invariant forall k :: 0 <= k < i ==> 0 <= val[k] < g + k
      invariant val[i] < g - 1 + i
      invariant forall k :: i < k <= hib ==> 0 <= val[k] < g - 1 + k
    {
      ghost var low := val[..i];
      var j := i + 1;
      Settle(val, i, hib, g);
      assert forall k :: 0 <= k < i ==> val[..i][k] == low[k];
      assert val[..j] == low + [val[i]];
      OntoWeighed(low, val[i], g, Shifted(val[j..n], j, g));
      i := j;
    }
    assert val[hib..n] == [val[hib]];
    OneDigit(val[hib], hib, g);
    assert val[..n] == val[..hib] + [val[hib]];
    OntoValue(val[..hib], val[hib], g);
    if val[hib] < 0 {
      OntoSign(val[..hib], g, val[hib]);
    }
  }

  lemma OntoNothing(f: int, x: int)
    ensures Onto([], f, x) == x
  {
  }

  lemma OneDigit(c: int, i: int, g: int)
    ensures Shifted([c], i, g) == c
  {
    assert [c][1..] == [];
  }

  lemma OntoWeighed(d: seq<int>, c: int, f: int, x: int)
    ensures Onto(d + [c], f, x) == Onto(d, f, Weighed(c, f + |d|, x))
  {
    OntoSnoc(d, c, f, x);
  }

  // ----- factors -----

  /** The smallest prime factor of `N`, 1 for 1. */
  method SmallestFactor(N: int) returns (p: int)
    requires 0 < N < 0x8000_0000
    ensures N == 1 ==> p == 1
    ensures N > 1 ==> IsSmallestPrimeFactor(p, N)
  {
    hide Value, InRange, Divides, IsPrime;
    var val := new int[DIGITS];
    var hib := Expand(N, val);
    var f := 2;
    while val[0] != 0 && hib > 1
      invariant 2 <= f && 0 <= hib < DIGITS
      invariant InRange(val[..hib + 1], f) && Value(val[..hib + 1], f) == N && val[hib] != 0
      invariant NoneBelow(N, f)
      decreases N - f
    {
      NotLowest(val[..hib + 1], f, N);
      ThreeDigits(val[..hib + 1], f);
      f := f + 1;
      MoveUp(val, hib, f, N);
      hib := Trim(val, hib, f, N);
    }
    FirstInRange(val[..hib + 1], f);
    LowestDigit(val[..hib + 1], f);
    if val[0] == 0 {
      p := f;
      LeastDivisorIsPrime(f, N);
      DivisorBound(f, N);
    } else {
      p := N;
      NotLowest(val[..hib + 1], f, N);
      TwoDigits(val[..hib + 1], f);
      if N > 1 {
        FewDigitsPrime(N, f);
        PrimeIsOwnFactor(N);
      }
    }
  }

  /** Drop leading zeros. */
  method Trim(val: array<int>, hib: int, f: int, ghost N: int) returns (h: int)
    requires 0 <= hib < val.Length && N > 0
    requires InRange(val[..hib + 1], f) && Value(val[..hib + 1], f) == N
    ensures 0 <= h <= hib && val[h] != 0
    ensures InRange(val[..h + 1], f) && Value(val[..h + 1], f) == N
  {
    hide InRange, Value;
    h := hib;
    while val[h] == 0
      invariant 0 <= h <= hib
      invariant InRange(val[..h + 1], f) && Value(val[..h + 1], f) == N
      decreases h
    {
      assert val[..h + 1] == val[..h] + [0];
      LeadingZero(val[..h], f);
      InRangeInit(val[..h], 0, f);
      if h == 0 { NoDigits(val[..h], f); }
      h := h - 1;
    }
  }

  lemma InRangeInit(d: seq<int>, c: int, f: int)
    requires InRange(d + [c], f)
    ensures InRange(d, f)
  {
    assert forall i :: 0 <= i < |d| ==> (d + [c])[i] == d[i];
  }

  lemma NoDigits(d: seq<int>, f: int)
    requires |d| == 0
    ensures Value(d, f) == 0
  {
  }

  lemma FirstInRange(d: seq<int>, f: int)
    requires d != [] && InRange(d, f)
    ensures 0 <= d[0] < f
  {
  }

  lemma NotLowest(d: seq<int>, f: int, N: int)
    requires f >= 2 && d != [] && InRange(d, f) && Value(d, f) == N && d[0] != 0 && NoneBelow(N, f)
    ensures NoneBelow(N, f + 1)
  {
    FirstInRange(d, f);
    LowestDigit(d, f);
  }

  lemma PrimeIsOwnFactor(p: int)
    requires IsPrime(p)
    ensures IsSmallestPrimeFactor(p, p)
  {
    assert p == Times(p, 1);
  }

  ghost function Product(s: seq<int>): int {
    if s == [] then 1 else Product(s[..|s| - 1]) * s[|s| - 1]
  }

  ghost predicate Nondecreasing(s: seq<int>) {
    forall i, j :: 0 <= i < j < |s| ==> s[i] <= s[j]
  }

  /** All prime factors of `n`, smallest first; 1 for 1. */
  method PrintFactors(n: int) returns (out: seq<int>)
    requires 0 < n < 0x8000_0000
    ensures n == 1 ==> out == [1]
    ensures n > 1 ==> (forall i :: 0 <= i < |out| ==> IsPrime(out[i])) && Nondecreasing(out) && Product(out) == n
  {
    hide IsPrime, Divides;
    if n == 1 {
      return [1];
    }
    out := [];
    var m := n;
    while m != 1
      invariant 0 < m <= n
      invariant forall i :: 0 <= i < |out| ==> IsPrime(out[i]) && NoneBelow(m, out[i])
      invariant Nondecreasing(out) && Product(out) * m == n
      decreases m
    {
      var prime := SmallestFactor(m);
      SplitFactor(prime, m, out);
      assert (out + [prime])[..|out|] == out;
      MulAssoc(Product(out), prime, m / prime);
      out := out + [prime];
      m := m / prime;
    }
  }

  lemma MulAssoc(a: int, b: int, c: int)
    ensures a * (b * c) == (a * b) * c
  {
  }

  lemma SplitFactor(p: int, m: int, out: seq<int>)
    requires m > 1 && IsSmallestPrimeFactor(p, m)
    requires forall i :: 0 <= i < |out| ==> IsPrime(out[i]) && NoneBelow(m, out[i])
    ensures m == p * (m / p) && 0 < m / p < m
    ensures NoneBelow(m / p, p)
    ensures forall i :: 0 <= i < |out| ==> out[i] <= p && NoneBelow(m / p, out[i])
  {
    var k :| m == Times(p, k);
    QuotientIs(m, p, k);
    assert m == Times(k, p);
    assert Divides(k, m);
    forall d | 2 <= d && Divides(d, k)
      ensures Divides(d, m)
    {
      DividesTransitive(d, k, m);
    }
  }

  lemma QuotientIs(m: int, p: int, k: int)
    requires m > 1 && p >= 2 && m == p * k
    ensures m / p == k && 0 < k < m
  {
    var q, r := m / p, m % p;
    assert p * q + r == m && 0 <= r < p;
    assert p * (k - q) == r;
    Scaled(p, 1, k - q);
    Scaled(p, k - q, -1);
    Scaled(p, k, 0);
    Scaled(k, 2, p);
  }

  lemma DivisorBound(d: int, n: int)
    requires d >= 1 && n >= 1 && Divides(d, n)
    ensures d <= n
  {
    var k :| n == Times(d, k);
    Scaled(d, k, 0);
    Scaled(d, 1, k);
  }
}
