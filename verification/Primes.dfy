/**
 primes(6): the primes from a start on, by a sieve of 8000 numbers at a time whose
 trial factors come from a wheel that leaves out multiples of 2, 3, 5 and 7.
 */
module Primes {
  import opened Factor

  const TABBITS := 8000

  // ----- the wheel -----

  /** The difference between the trial factor at position i of the wheel and the next one. */
  function FacTab(i: int): int {
    if i == 0 then 10 else if i == 1 then 2 else if i == 2 then 4 else if i == 3 then 2 else if i == 4 then 4
    else if i == 5 then 6 else if i == 6 then 2 else if i == 7 then 6 else if i == 8 then 4
    else if i == 9 then 2 else if i == 10 then 4 else if i == 11 then 6 else if i == 12 then 6
    else if i == 13 then 2 else if i == 14 then 6 else if i == 15 then 4 else if i == 16 then 2
    else if i == 17 then 6 else if i == 18 then 4 else if i == 19 then 6 else if i == 20 then 8
    else if i == 21 then 4 else if i == 22 then 2 else if i == 23 then 4 else if i == 24 then 2
    else if i == 25 then 4 else if i == 26 then 8 else if i == 27 then 6 else if i == 28 then 4
    else if i == 29 then 6 else if i == 30 then 2 else if i == 31 then 4 else if i == 32 then 6
    else if i == 33 then 2 else if i == 34 then 6 else if i == 35 then 6 else if i == 36 then 4
    else if i == 37 then 2 else if i == 38 then 4 else if i == 39 then 6 else if i == 40 then 2
    else if i == 41 then 6 else if i == 42 then 4 else if i == 43 then 2 else if i == 44 then 4
    else if i == 45 then 2 else if i == 46 then 10 else if i == 47 then 2
    else 0
  }

  /** The residue modulo 210 of the trial factors at position i. */
  function Residue(i: int): int {
    if i == 0 then 1 else if i == 1 then 11 else if i == 2 then 13 else if i == 3 then 17 else if i == 4 then 19
    else if i == 5 then 23 else if i == 6 then 29 else if i == 7 then 31 else if i == 8 then 37
    else if i == 9 then 41 else if i == 10 then 43 else if i == 11 then 47 else if i == 12 then 53
    else if i == 13 then 59 else if i == 14 then 61 else if i == 15 then 67 else if i == 16 then 71
    else if i == 17 then 73 else if i == 18 then 79 else if i == 19 then 83 else if i == 20 then 89
    else if i == 21 then 97 else if i == 22 then 101 else if i == 23 then 103 else if i == 24 then 107
    else if i == 25 then 109 else if i == 26 then 113 else if i == 27 then 121 else if i == 28 then 127
    else if i == 29 then 131 else if i == 30 then 137 else if i == 31 then 139 else if i == 32 then 143
    else if i == 33 then 149 else if i == 34 then 151 else if i == 35 then 157 else if i == 36 then 163
    else if i == 37 then 167 else if i == 38 then 169 else if i == 39 then 173 else if i == 40 then 179
    else if i == 41 then 181 else if i == 42 then 187 else if i == 43 then 191 else if i == 44 then 193
    else if i == 45 then 197 else if i == 46 then 199 else if i == 47 then 209
    else 211
  }

  predicate Coprime(n: int) {
    n % 2 != 0 && n % 3 != 0 && n % 5 != 0 && n % 7 != 0
  }

  lemma WheelStep(i: int)
    requires 0 <= i < 48
    ensures Residue(i) + FacTab(i) == Residue(i + 1) && FacTab(i) > 0
  {
  }

  lemma ResidueOdd(i: int)
    requires 0 <= i < 48
    ensures Residue(i) % 2 == 1 && FacTab(i) <= 10
  {
  }

  /** The numbers two, four, six or eight after a trial factor that the wheel skips. */
  lemma Skipped2(i: int)
    requires 0 <= i < 48 && 2 < FacTab(i)
    ensures !Coprime(Residue(i) + 2)
  {
  }

  lemma Skipped4(i: int)
    requires 0 <= i < 48 && 4 < FacTab(i)
    ensures !Coprime(Residue(i) + 4)
  {
  }

  lemma Skipped6(i: int)
    requires 0 <= i < 48 && 6 < FacTab(i)
    ensures !Coprime(Residue(i) + 6)
  {
  }

  lemma Skipped8(i: int)
    requires 0 <= i < 48 && 8 < FacTab(i)
    ensures !Coprime(Residue(i) + 8)
  {
  }

  /** The wheel skips no number that is coprime to 210. */
  lemma WheelGap(i: int, d: int)
    requires 0 <= i < 48 && 0 < d < FacTab(i)
    ensures !Coprime(Residue(i) + d)
  {
    hide FacTab, Residue;
    ResidueOdd(i);
    if d == 2 {
      Skipped2(i);
    } else if d == 4 {
      Skipped4(i);
    } else if d == 6 {
      Skipped6(i);
    } else if d == 8 {
      Skipped8(i);
    } else {
      assert (Residue(i) + d) % 2 == 0;
    }
  }

  lemma Mod2(n: int, j: int)
    ensures (n + 2 * j) % 2 == n % 2
  {
  }

  lemma Mod3(n: int, j: int)
    ensures (n + 3 * j) % 3 == n % 3
  {
  }

  lemma Mod5(n: int, j: int)
    ensures (n + 5 * j) % 5 == n % 5
  {
  }

  lemma Mod7(n: int, j: int)
    ensures (n + 7 * j) % 7 == n % 7
  {
  }

  lemma Turned(n: int, k: int)
    ensures Coprime(n + 210 * k) <==> Coprime(n)
  {
    Mod2(n, 105 * k);
    Mod3(n, 70 * k);
    Mod5(n, 42 * k);
    Mod7(n, 30 * k);
  }

  // ----- multiples -----

  lemma Multiple(f: int, k: int)
    ensures Divides(f, f * k)
  {
    assert f * k == Times(f, k);
  }

  lemma NextMultiple(f: int, n: int)
    requires Divides(f, n)
    ensures Divides(f, n + f)
  {
    var k :| n == Times(f, k);
    assert n + f == Times(f, k + 1);
  }

  lemma NoneBetween(f: int, n: int, m: int)
    requires f > 0 && Divides(f, n) && n < m < n + f
    ensures !Divides(f, m)
  {
    if Divides(f, m) {
      var k :| n == Times(f, k);
      var j :| m == Times(f, j);
      if j <= k { Scaled(f, j, k); } else { Scaled(f, k + 1, j); }
    }
  }

  lemma ModDivides(f: int, n: int)
    requires f > 0
    ensures n % f == 0 <==> Divides(f, n)
  {
    if n % f == 0 {
      assert n == Times(f, n / f);
    }
    if Divides(f, n) && n % f != 0 {
      assert n - n % f == Times(f, n / f);
      NoneBetween(f, n - n % f, n);
    }
  }

  // ----- primality from the wheel -----

  /** Every trial factor up to v is tried: 3, 5, 7 and the numbers coprime to 210. */
  ghost predicate Untouched(n: int, v: int) {
    && !Divides(3, n) && !Divides(5, n) && !Divides(7, n)
    && forall f :: 11 <= f <= v && Coprime(f) ==> !Divides(f, n)
  }

  lemma PrimeIsCoprime(p: int)
    requires IsPrime(p) && p > 7
    ensures Coprime(p) && p >= 11
  {
    ModDivides(2, p);
    ModDivides(3, p);
    ModDivides(5, p);
    ModDivides(7, p);
  }

  lemma {:induction false} UntouchedNoneBelow(n: int, v: int, f: int)
    requires Untouched(n, v) && n % 2 == 1 && 2 <= f <= v + 1
    ensures NoneBelow(n, f)
    decreases f
  {
    if f > 2 {
      UntouchedNoneBelow(n, v, f - 1);
      var g := f - 1;
      if Divides(g, n) {
        LeastDivisorIsPrime(g, n);
        ModDivides(2, n);
        ModDivides(2, g);
        if g > 7 { PrimeIsCoprime(g); } else if g == 4 || g == 6 { DividesTransitive(2, g, n); }
      }
    }
  }

  /** An odd number no trial factor up to its root divides is prime. */
  lemma UntouchedIsPrime(n: int, v: int)
    requires Untouched(n, v) && n % 2 == 1 && 2 <= n < (v + 1) * (v + 1) && v >= 2
    ensures IsPrime(n)
  {
    UntouchedNoneBelow(n, v, v + 1);
    FewDigitsPrime(n, v);
  }

  // ----- lists of primes -----

  /** The primes from lo up to hi, in order. */
  ghost predicate ListsPrimes(out: seq<int>, lo: int, hi: int) {
    && (forall i, j :: 0 <= i < j < |out| ==> out[i] < out[j])
    && (forall x :: x in out <==> lo <= x < hi && IsPrime(x))
  }

  lemma ListMore(out: seq<int>, lo: int, n: int)
    requires ListsPrimes(out, lo, n) && lo <= n
    ensures ListsPrimes(if IsPrime(n) then out + [n] else out, lo, n + 1)
  {
    hide IsPrime;
    var more := if IsPrime(n) then out + [n] else out;
    forall i, j | 0 <= i < j < |more|
      ensures more[i] < more[j]
    {
      assert more[i] in out;
    }
    forall x
      ensures x in more <==> lo <= x < n + 1 && IsPrime(x)
    {
    }
  }

  lemma EvenNotPrime(n: int)
    requires n > 2 && n % 2 == 0
    ensures !IsPrime(n)
  {
    ModDivides(2, n);
  }

  // ----- primes below one hundred -----

  function Pt(i: int): int {
    if i == 0 then 2 else if i == 1 then 3 else if i == 2 then 5 else if i == 3 then 7 else if i == 4 then 11
    else if i == 5 then 13 else if i == 6 then 17 else if i == 7 then 19 else if i == 8 then 23
    else if i == 9 then 29 else if i == 10 then 31 else if i == 11 then 37 else if i == 12 then 41
    else if i == 13 then 43 else if i == 14 then 47 else if i == 15 then 53 else if i == 16 then 59
    else if i == 17 then 61 else if i == 18 then 67 else if i == 19 then 71 else if i == 20 then 73
    else if i == 21 then 79 else if i == 22 then 83 else if i == 23 then 89 else if i == 24 then 97
    else 100
  }

  lemma PtStep(i: int)
    requires 0 <= i < 25
    ensures 2 <= Pt(i) < Pt(i + 1) <= 100 && (Pt(i) <= 7 || Coprime(Pt(i)))
  {
  }

  lemma PtOdd(i: int)
    requires 0 <= i < 25
    ensures (i > 0 ==> Pt(i) % 2 == 1) && (i == 0 ==> Pt(i) == 2 && Pt(i + 1) == 3) && Pt(i + 1) <= Pt(i) + 8
    ensures (Pt(i) == 3 ==> Pt(i + 1) == 5) && (Pt(i) == 5 ==> Pt(i + 1) == 7)
  {
  }

  lemma PtSkip2(i: int)
    requires 0 < i < 25 && Pt(i) + 2 < Pt(i + 1)
    ensures !Coprime(Pt(i) + 2) && Pt(i) + 2 > 7
  {
  }

  lemma PtSkip4(i: int)
    requires 0 < i < 25 && Pt(i) + 4 < Pt(i + 1)
    ensures !Coprime(Pt(i) + 4) && Pt(i) + 4 > 7
  {
  }

  lemma PtSkip6(i: int)
    requires 0 < i < 25 && Pt(i) + 6 < Pt(i + 1)
    ensures !Coprime(Pt(i) + 6) && Pt(i) + 6 > 7
  {
  }

  lemma EvenNotCoprime(x: int)
    requires x % 2 == 0
    ensures !Coprime(x)
  {
  }

  lemma PtGap(i: int, x: int)
    requires 0 <= i < 25 && Pt(i) < x < Pt(i + 1)
    ensures !Coprime(x) && x > 3 && (x <= 7 ==> x == 4 || x == 6)
  {
    hide Pt, Coprime;
    PtOdd(i);
    if x == Pt(i) + 2 {
      PtSkip2(i);
    } else if x == Pt(i) + 4 {
      PtSkip4(i);
    } else if x == Pt(i) + 6 {
      PtSkip6(i);
    } else {
      PtStep(i);
      PtEven(i, x);
      EvenNotCoprime(x);
    }
  }

  lemma PtEven(i: int, x: int)
    requires 0 <= i < 25 && Pt(i) < x < Pt(i + 1) && x != Pt(i) + 2 && x != Pt(i) + 4 && x != Pt(i) + 6
    ensures x % 2 == 0 && x > 3 && (x <= 7 ==> x == 4 || x == 6)
  {
    hide Pt;
    PtOdd(i);
    PtStep(i);
    assert x - Pt(i) == 1 || x - Pt(i) == 3 || x - Pt(i) == 5 || x - Pt(i) == 7;
  }

  lemma Seeds(x: int)
    ensures x == 2 || x == 3 || x == 5 || x == 7 ==> IsPrime(x)
  {
    forall m | 2 <= m < x <= 7 && x != 4 && x != 6
      ensures !Divides(m, x)
    {
      ModDivides(m, x);
      assert m == 2 || m == 3 || m == 4 || m == 5 || m == 6;
    }
  }

  lemma SmallPrime(x: int)
    requires 2 <= x < 121
    ensures x > 7 ==> (IsPrime(x) <==> Coprime(x))
    ensures x == 2 || x == 3 || x == 5 || x == 7 ==> IsPrime(x)
    ensures x == 4 || x == 6 ==> !IsPrime(x)
  {
    ModDivides(2, x);
    ModDivides(3, x);
    ModDivides(5, x);
    ModDivides(7, x);
    if x > 7 && Coprime(x) {
      UntouchedIsPrime(x, 10);
    }
    Seeds(x);
  }

  // ----- the program -----

  /** The number at offset i of the sieve is a multiple of the factor. */
  ghost predicate Hits(factor: int, start: int, i: int) {
    Divides(factor, start + i)
  }

  lemma HitsOnce(factor: int, start: int, off: int, i: int)
    requires factor > 0 && Hits(factor, start, off) && off < i < off + factor
    ensures !Hits(factor, start, i)
  {
    NoneBetween(factor, start + off, start + i);
  }

  lemma HitsNext(factor: int, start: int, off: int)
    requires Hits(factor, start, off)
    ensures Hits(factor, start, off + factor)
  {
    NextMultiple(factor, start + off);
  }

  /** The offset of the first multiple. */
  method FirstOffset(start: nat, factor: nat) returns (off: int)
    requires factor > 0
    ensures 0 <= off && Hits(factor, start, off) && forall i :: 0 <= i < off ==> !Hits(factor, start, i)
  {
    var quot := start / factor;
    off := quot * factor - start;
    Multiple(factor, quot);
    assert start + off == factor * quot && start % factor == start - factor * quot;
    assert Hits(factor, start, off);
    ghost var low := off;
    if off < 0 {
      HitsNext(factor, start, off);
      off := off + factor;
    }
    forall i | 0 <= i < off
      ensures !Hits(factor, start, i)
    {
      HitsOnce(factor, start, low, i);
    }
  }

  /** Insert all multiples of a factor into the sieve. */
  method Sieve(table: array<bool>, start: nat, factor: nat)
    requires table.Length == TABBITS && factor > 0
    modifies table
    ensures forall i :: 0 <= i < TABBITS ==> table[i] == (old(table[i]) || Hits(factor, start, i))
  {
    hide Hits;
    var off := FirstOffset(start, factor);
    while off < TABBITS
      invariant 0 <= off && Hits(factor, start, off)
      invariant forall i :: 0 <= i < TABBITS ==> table[i] == (old(table[i]) || (i < off && Hits(factor, start, i)))
      decreases TABBITS - off
    {
      table[off] := true;
      forall i | off < i < off + factor
        ensures !Hits(factor, start, i)
      {
        HitsOnce(factor, start, off, i);
      }
      HitsNext(factor, start, off);
      off := off + factor;
    }
  }

  /** The greatest number whose square is at most n. */
  method Root(n: nat) returns (v: nat)
    ensures v * v <= n < (v + 1) * (v + 1)
  {
    v := 0;
    while (v + 1) * (v + 1) <= n
      invariant v * v <= n
      decreases n - v
    {
      v := v + 1;
    }
  }

  /** Bits are set exactly where some factor tried before f divides the number. */
  ghost predicate Sieved(table: seq<bool>, start: int, f: int) {
    && |table| == TABBITS
    && forall i :: 0 <= i < TABBITS ==>
         (table[i] <==> Hits(3, start, i) || Hits(5, start, i) || Hits(7, start, i) || TriedBelow(f, start, i))
  }

  ghost predicate TriedBelow(f: int, start: int, i: int) {
    exists m :: 11 <= m < f && Coprime(m) && Hits(m, start, i)
  }

  lemma TriedMore(f: int, g: int, start: int, i: int)
    requires 11 <= f < g && Coprime(f) && forall m :: f < m < g ==> !Coprime(m)
    ensures TriedBelow(g, start, i) <==> TriedBelow(f, start, i) || Hits(f, start, i)
  {
    hide Coprime, Hits;
  }

  /** A factor at position i of the wheel, and the next one. */
  ghost predicate AtWheel(f: int, i: int) {
    0 <= i < 48 && f >= 11 && exists k :: f == Residue(i) + 210 * k
  }

  lemma NextFactor(f: int, i: int)
    requires AtWheel(f, i)
    ensures Coprime(f) && FacTab(i) > 0 && AtWheel(f + FacTab(i), if i + 1 >= 48 then 0 else i + 1)
    ensures forall m :: f < m < f + FacTab(i) ==> !Coprime(m)
  {
    hide FacTab, Residue, Coprime;
    var k :| f == Residue(i) + 210 * k;
    WheelStep(i);
    ResidueCoprime(i);
    Turned(Residue(i), k);
    LastResidue();
    if i == 47 {
      assert f + FacTab(i) == Residue(0) + 210 * (k + 1);
    } else {
      assert f + FacTab(i) == Residue(i + 1) + 210 * k;
    }
    forall m | f < m < f + FacTab(i)
      ensures !Coprime(m)
    {
      WheelGap(i, m - f);
      Turned(Residue(i) + (m - f), k);
    }
  }

  lemma ResidueCoprime(i: int)
    requires 0 <= i < 48
    ensures Coprime(Residue(i))
  {
  }

  lemma LastResidue()
    ensures Residue(0) == 1 && Residue(1) == 11 && Residue(48) == 211
  {
  }

  lemma FirstFactor()
    ensures AtWheel(11, 1)
  {
    LastResidue();
    assert 11 == Residue(1) + 210 * 0;
  }

  lemma SievedStart(table: seq<bool>, start: int)
    requires |table| == TABBITS
    requires forall i :: 0 <= i < TABBITS ==>
               (table[i] <==> Hits(3, start, i) || Hits(5, start, i) || Hits(7, start, i))
    ensures Sieved(table, start, 11)
  {
    hide Hits;
  }

  lemma SievedMore(before: seq<bool>, table: seq<bool>, start: int, f: int, g: int)
    requires Sieved(before, start, f) && |table| == TABBITS && 11 <= f < g && Coprime(f)
    requires forall m :: f < m < g ==> !Coprime(m)
    requires forall i :: 0 <= i < TABBITS ==> table[i] == (before[i] || Hits(f, start, i))
    ensures Sieved(table, start, g)
  {
    hide Hits, TriedBelow, Coprime;
    forall i | 0 <= i < TABBITS
      ensures table[i] <==> Hits(3, start, i) || Hits(5, start, i) || Hits(7, start, i) || TriedBelow(g, start, i)
    {
      TriedMore(f, g, start, i);
    }
  }

  lemma RootSmall(start: int, v: int)
    requires start >= 99 && v >= 0 && v * v <= start + TABBITS < (v + 1) * (v + 1)
    ensures 11 <= v < start
  {
    if v < 11 { Grows(v + 1, v + 1, 11, 11); }
    if v >= start {
      Grows(start, start, v, v);
      Scaled(start, 99, start);
    }
  }

  /** A bit tells whether its number has a divisor up to v. */
  lemma SieveDone(table: seq<bool>, start: int, v: int, f: int, i: int)
    requires Sieved(table, start, f) && 11 <= v < f && 0 <= i < TABBITS && (start + i) % 2 == 1
    requires forall m :: v < m < f ==> !Coprime(m)
    ensures table[i] <==> !NoneBelow(start + i, v + 1)
  {
    hide Coprime, Divides;
    var n := start + i;
    if table[i] {
      if Hits(3, start, i) {
        assert Divides(3, n);
      } else if Hits(5, start, i) {
        assert Divides(5, n);
      } else if Hits(7, start, i) {
        assert Divides(7, n);
      } else {
        var m :| 11 <= m < f && Coprime(m) && Hits(m, start, i);
        assert Divides(m, n) && m <= v;
      }
    } else {
      assert !Hits(3, start, i) && !Hits(5, start, i) && !Hits(7, start, i);
      forall m | 11 <= m <= v && Coprime(m)
        ensures !Divides(m, n)
      {
        assert !TriedBelow(f, start, i);
        assert Hits(m, start, i) <==> Divides(m, n);
      }
      UntouchedNoneBelow(n, v, v + 1);
    }
  }

  // ----- which factors are enough -----

  /** A prime that divides a product divides the first factor, if the second is smaller. */
  lemma {:induction false} PrimeDivides(d: int, p: int, x: int)
    requires IsPrime(d) && 0 < x < d && Divides(d, p * x)
    ensures Divides(d, p)
    decreases x
  {
    hide IsPrime;
    if x > 1 {
      var q, y := d / x, d % x;
      if y == 0 {
        assert d == Times(x, q);
        assert Divides(x, d);
        NotPrime(d, x);
      } else {
        var k :| p * x == Times(d, k);
        Remainder(d, p, x, q, y, k);
        PrimeDivides(d, p, y);
      }
    }
  }

  lemma NotPrime(d: int, x: int)
    requires 2 <= x < d && Divides(x, d)
    ensures !IsPrime(d)
  {
  }

  lemma Remainder(d: int, p: int, x: int, q: int, y: int, k: int)
    requires d == x * q + y && p * x == d * k
    ensures Divides(d, p * y)
  {
    assert p * y == p * d - p * (x * q);
    assert p * (x * q) == (p * x) * q == (d * k) * q == d * (k * q);
    assert p * d == d * p;
    assert p * y == d * p - d * (k * q) == d * (p - k * q) == Times(d, p - k * q);
  }

  /** The square of a prime has no smaller divisors. */
  lemma SquareOfPrime(p: int)
    requires IsPrime(p)
    ensures NoneBelow(p * p, p) && !IsPrime(p * p)
  {
    hide IsPrime;
    forall m | 2 <= m < p
      ensures !Divides(m, p * p)
    {
      if Divides(m, p * p) { NoSmallDivisor(p, m); }
    }
    assert p >= 2 by { AtLeastTwo(p); }
    assert p * p == Times(p, p);
    Grows(2, p, p, p);
    NotPrime(p * p, p);
  }

  lemma AtLeastTwo(p: int)
    requires IsPrime(p)
    ensures p >= 2
  {
  }

  lemma {:induction false} NoSmallDivisor(p: int, m: int)
    requires IsPrime(p) && 2 <= m < p
    ensures !Divides(m, p * p)
    decreases m
  {
    hide IsPrime;
    forall l | 2 <= l < m
      ensures !Divides(l, p * p)
    {
      NoSmallDivisor(p, l);
    }
    if Divides(m, p * p) {
      LeastDivisorIsPrime(m, p * p);
      var k :| p * p == Times(m, k);
      var q, r := p / m, p % m;
      if r == 0 {
        assert p == Times(m, q);
      } else {
        Reduced(m, p, q, r, k);
        PrimeDivides(m, p, r);
      }
      NotPrime(p, m);
    }
  }

  lemma Reduced(m: int, p: int, q: int, r: int, k: int)
    requires p == m * q + r && p * p == m * k
    ensures Divides(m, p * r)
  {
    assert p * r == p * p - p * (m * q);
    assert p * (m * q) == m * (p * q);
    assert p * r == m * k - m * (p * q) == m * (k - p * q) == Times(m, k - p * q);
  }

  /** All bits of a block are right. */
  ghost predicate AllRight(start: int, v: int) {
    forall i :: 0 <= i < TABBITS && i % 2 == 0 ==> (NoneBelow(start + i, v + 1) <==> IsPrime(start + i))
  }

  function Square(n: int): int {
    n * n
  }

  /** The only number that can go wrong if v is the root or one less. */
  ghost predicate SquareMissed(start: int, v: int) {
    IsPrime(v + 1) && start <= Square(v + 1) < start + TABBITS
  }

  lemma PrimeUntouched(n: int, v: int)
    requires IsPrime(n) && v < n
    ensures NoneBelow(n, v + 1)
  {
  }

  /** A number that is not found out is prime or the square of the next factor. */
  lemma NotFoundOut(n: int, v: int)
    requires NoneBelow(n, v + 1) && n % 2 == 1 && 2 <= n && v >= 2 && n + 1 < Square(v + 2)
    ensures IsPrime(n) || (IsPrime(v + 1) && n == Square(v + 1))
  {
    hide IsPrime;
    var p := v + 1;
    if n < p * p {
      FewDigitsPrime(n, v);
    } else if Divides(p, n) {
      LeastDivisorIsPrime(p, n);
      var k :| n == Times(p, k);
      Cofactor(n, p, k);
    } else {
      assert NoneBelow(n, p + 1);
      FewDigitsPrime(n, p);
    }
  }

  lemma Cofactor(n: int, p: int, k: int)
    requires p >= 3 && n == p * k && n % 2 == 1 && p * p <= n && n + 1 < Square(p + 1)
    ensures k == p
  {
    hide Square;
    Neighbours(p);
    if k < p {
      Scaled(p, k, p - 1);
    } else if k > p + 1 {
      Scaled(p, p + 2, k);
    } else if k == p + 1 {
      EvenProduct(p);
    }
  }

  lemma Neighbours(p: int)
    ensures p * (p - 1) == p * p - p && p * (p + 2) == p * p + 2 * p && Square(p + 1) == p * p + 2 * p + 1
  {
  }

  lemma EvenProduct(p: int)
    ensures p * (p + 1) % 2 == 0
  {
    var q := p / 2;
    if p == 2 * q {
      MulAssoc(2, q, p + 1);
      Even(p * (p + 1), q * (p + 1));
    } else {
      assert p + 1 == 2 * (q + 1);
      MulAssoc(2, q + 1, p);
      Even(p * (p + 1), (q + 1) * p);
    }
  }

  lemma Even(n: int, h: int)
    requires n == 2 * h
    ensures n % 2 == 0
  {
  }

  /** With the root or one less, all bits are right exactly when the square of the next factor is not missed. */
  lemma RightIff(start: int, v: int)
    requires start % 2 == 1 && 11 <= v < start && start + TABBITS < Square(v + 2)
    ensures AllRight(start, v) <==> !SquareMissed(start, v)
  {
    hide IsPrime, NoneBelow, SquareMissed, AllRight, Square;
    if SquareMissed(start, v) { MissedIsWrong(start, v); } else { OthersRight(start, v); }
  }

  lemma MissedIsWrong(start: int, v: int)
    requires start % 2 == 1 && v >= 2 && SquareMissed(start, v)
    ensures !AllRight(start, v)
  {
    hide IsPrime, NoneBelow;
    SquareOfPrime(v + 1);
    OddSquare(v + 1);
    WrongAt(start, v, Square(v + 1));
  }

  lemma WrongAt(start: int, v: int, n: int)
    requires start % 2 == 1 && n % 2 == 1 && start <= n < start + TABBITS && NoneBelow(n, v + 1) && !IsPrime(n)
    ensures !AllRight(start, v)
  {
    hide IsPrime, NoneBelow;
    var i := n - start;
    assert i % 2 == 0 && start + i == n;
  }

  lemma OthersRight(start: int, v: int)
    requires start % 2 == 1 && 11 <= v < start && start + TABBITS < Square(v + 2) && !SquareMissed(start, v)
    ensures AllRight(start, v)
  {
    hide IsPrime, NoneBelow, Square;
    forall i | 0 <= i < TABBITS && i % 2 == 0
      ensures NoneBelow(start + i, v + 1) <==> IsPrime(start + i)
    {
      if IsPrime(start + i) { PrimeUntouched(start + i, v); }
      if NoneBelow(start + i, v + 1) { NotFoundOut(start + i, v); }
    }
  }

  lemma OddSquare(p: int)
    requires IsPrime(p) && p > 2
    ensures p * p % 2 == 1
  {
    ModDivides(2, p);
    var q := p / 2;
    assert p == 2 * q + 1;
    assert p * p == 2 * (q * p + q) + 1;
  }

  /** Clear the sieve and insert the multiples of 3, 5 and 7. */
  method StartSieve(table: array<bool>, start: nat)
    requires table.Length == TABBITS
    modifies table
    ensures Sieved(table[..], start, 11)
  {
    hide Hits, Sieved;
    for i := 0 to TABBITS
      invariant forall k :: 0 <= k < i ==> !table[k]
    {
      table[i] := false;
    }
    Sieve(table, start, 3);
    Sieve(table, start, 5);
    Sieve(table, start, 7);
    SievedStart(table[..], start);
  }

  /** Insert the multiples of the trial factors on the wheel up to v; the next factor is beyond v. */
  method RunWheel(table: array<bool>, start: nat, v: nat) returns (factor: nat)
    requires table.Length == TABBITS && Sieved(table[..], start, 11) && v >= 11
    modifies table
    ensures Sieved(table[..], start, factor) && factor > v && forall m :: v < m < factor ==> !Coprime(m)
  {
    hide Hits, FacTab, AtWheel, Sieved, Coprime;
    factor := 11;
    var fp := 1;
    FirstFactor();
    while true
      invariant AtWheel(factor, fp) && Sieved(table[..], start, factor) && 11 <= factor <= v
      decreases v - factor
    {
      ghost var before := table[..];
      Sieve(table, start, factor);
      NextFactor(factor, fp);
      SievedMore(before, table[..], start, factor, factor + FacTab(fp));
      factor := factor + FacTab(fp);
      fp := if fp + 1 >= 48 then 0 else fp + 1;
      if factor > v { break; }
    }
  }

  /**
   Fill the sieve for the numbers from an odd start on, with trial factors up to
   v: bits are set for the odd numbers that have a divisor up to v.
   */
  method FillSieve(table: array<bool>, start: nat, v: nat)
    requires table.Length == TABBITS && start % 2 == 1 && v >= 11
    modifies table
    ensures forall i :: 0 <= i < TABBITS && i % 2 == 0 ==> (table[i] <==> !NoneBelow(start + i, v + 1))
  {
    hide NoneBelow, Sieved, Coprime;
    StartSieve(table, start);
    var factor := RunWheel(table, start, v);
    forall i | 0 <= i < TABBITS && i % 2 == 0
      ensures table[i] <==> !NoneBelow(start + i, v + 1)
    {
      SieveDone(table[..], start, v, factor, i);
    }
  }

  /** With the exact root no square is missed: bits are set for the composite ones among the odd numbers. */
  lemma RootRight(start: int, v: int)
    requires start % 2 == 1 && start >= 99 && v >= 0 && v * v <= start + TABBITS < (v + 1) * (v + 1)
    ensures 11 <= v < start && AllRight(start, v)
  {
    hide IsPrime, NoneBelow;
    RootSmall(start, v);
    Grows(v + 1, v + 1, v + 2, v + 2);
    RightIff(start, v);
  }

  /** Print the primes of one sieve. */
  method PrintBlock(table: array<bool>, start0: nat, out0: seq<int>, ghost lo: int) returns (out: seq<int>, start: nat)
    requires table.Length == TABBITS && start0 % 2 == 1 && start0 >= 99 && lo <= start0 && ListsPrimes(out0, lo, start0)
    requires forall i :: 0 <= i < TABBITS && i % 2 == 0 ==> (table[i] <==> !IsPrime(start0 + i))
    ensures start == start0 + TABBITS && ListsPrimes(out, lo, start)
  {
    hide IsPrime, ListsPrimes;
    out, start := out0, start0;
    var i := 0;
    while i < TABBITS
      invariant 0 <= i <= TABBITS && i % 2 == 0 && start == start0 + i && ListsPrimes(out, lo, start)
    {
      ListMore(out, lo, start);
      if !table[i] { out := out + [start]; }
      EvenNotPrime(start + 1);
      ListMore(out, lo, start + 1);
      start := start + 2;
      i := i + 2;
    }
  }

  /** Print the primes below one hundred from a start on. */
  method PrintSmall(start: nat) returns (out: seq<int>)
    requires start <= 97
    ensures ListsPrimes(out, start, 100)
  {
    hide IsPrime, Pt, ListsPrimes;
    out := [];
    var fp := 0;
    ghost var n: int := start;
    NoPrimes(start);
    PtEnds();
    while Pt(fp) < start
      invariant 0 <= fp < 25 && (fp > 0 ==> Pt(fp - 1) < start)
      decreases 25 - fp
    {
      fp := fp + 1;
      PtStep(fp - 1);
    }
    ghost var from := fp;
    while true
      invariant 0 <= fp < 25 && n <= Pt(fp) && n >= start && ListsPrimes(out, start, n)
      invariant fp == 0 ==> n == start
      invariant fp > 0 ==> Pt(fp - 1) < n
      decreases 25 - fp
    {
      n := SkipTo(out, start, n, fp);
      PtPrime(fp);
      ListMore(out, start, n);
      out := out + [Pt(fp)];
      n := n + 1;
      PtStep(fp);
      fp := fp + 1;
      if fp == 25 { break; }
    }
    n := SkipTo(out, start, n, 25);
  }

  lemma NoPrimes(lo: int)
    ensures ListsPrimes([], lo, lo)
  {
  }

  lemma PtEnds()
    ensures Pt(0) == 2 && Pt(24) == 97 && Pt(25) == 100
  {
  }

  lemma PtPrime(i: int)
    requires 0 <= i < 25
    ensures IsPrime(Pt(i))
  {
    PtStep(i);
    SmallPrime(Pt(i));
  }

  /** There is no prime from n up to the next one of the table. */
  lemma SkipTo(out: seq<int>, lo: int, n: int, i: int) returns (m: int)
    requires ListsPrimes(out, lo, n) && 0 <= i <= 25 && lo <= n <= Pt(i) && (i > 0 ==> Pt(i - 1) < n)
    ensures m == Pt(i) && ListsPrimes(out, lo, m)
  {
    hide IsPrime, Pt, ListsPrimes;
    m := n;
    PtEnds();
    while m < Pt(i)
      invariant n <= m <= Pt(i) && ListsPrimes(out, lo, m)
    {
      if i == 0 {
        BelowTwo(m);
      } else {
        PtGap(i - 1, m);
        PtStep(i - 1);
        SmallPrime(m);
      }
      ListMore(out, lo, m);
      m := m + 1;
    }
  }

  lemma BelowTwo(n: int)
    requires n < 2
    ensures !IsPrime(n)
  {
  }

  /** Print the primes from a start on, through a number of sieves: all of them, in order. */
  method PrintPrimes(start0: nat, blocks: nat) returns (out: seq<int>, start: nat)
    ensures ListsPrimes(out, start0, start) && (blocks > 0 ==> start >= start0 + TABBITS * blocks - 1)
  {
    hide IsPrime, ListsPrimes, AllRight, NoneBelow;
    out, start := [], start0;
    NoPrimes(start0);
    if start <= 97 {
      out := PrintSmall(start);
      start := 100;
    }
    if start % 2 == 0 {
      EvenNotPrime(start);
      ListMore(out, start0, start);
    }
    NextOdd(start);
    start := start / 2 * 2 + 1;
    var table := new bool[TABBITS];
    for i := 0 to blocks
      invariant ListsPrimes(out, start0, start) && start % 2 == 1 && start >= 99 && start >= start0 + TABBITS * i
    {
      var v := Root(start + TABBITS);
      RootRight(start, v);
      FillSieve(table, start, v);
      BlockRight(table[..], start, v);
      out, start := PrintBlock(table, start, out, start0);
    }
  }

  lemma NextOdd(n: int)
    ensures n / 2 * 2 + 1 == (if n % 2 == 0 then n + 1 else n) && (n / 2 * 2 + 1) % 2 == 1
  {
  }

  lemma BlockRight(table: seq<bool>, start: int, v: int)
    requires |table| == TABBITS && AllRight(start, v)
    requires forall i :: 0 <= i < TABBITS && i % 2 == 0 ==> (table[i] <==> !NoneBelow(start + i, v + 1))
    ensures forall i :: 0 <= i < TABBITS && i % 2 == 0 ==> (table[i] <==> !IsPrime(start + i))
  {
    hide IsPrime, NoneBelow;
  }
}
