/**
 The in-place quicksort of sort(1): three-way partitioning around a pivot that
 grows as equal lines are met, recursion on the smaller side only, and, for
 unique output, blanking of all but the first of equal lines.
 */
module SortQuick {

  /** A line in the array to be sorted; a blanked line is not written out. */
  datatype Line<T> = Line(text: T, kept: bool)

  /** What a comparison must be: a total preorder with three outcomes. */
  ghost predicate IsPreorder<T(!new)>(cmp: (T, T) -> int) {
    && (forall x, y :: cmp(x, y) < 0 <==> cmp(y, x) > 0)
    && (forall x, y, z :: cmp(x, y) <= 0 && cmp(y, z) <= 0 ==> cmp(x, z) <= 0)
  }

  // ----- consequences for three outcomes -----

  lemma Reflexive<T(!new)>(cmp: (T, T) -> int, x: T)
    requires IsPreorder(cmp)
    ensures cmp(x, x) == 0
  {
  }

  lemma Symmetric<T(!new)>(cmp: (T, T) -> int, x: T, y: T)
    requires IsPreorder(cmp)
    ensures cmp(x, y) == 0 <==> cmp(y, x) == 0
    ensures cmp(x, y) < 0 <==> cmp(y, x) > 0
    ensures cmp(x, y) > 0 <==> cmp(y, x) < 0
  {
  }

  /** Equivalent lines compare alike with any third. */
  lemma SameSide<T(!new)>(cmp: (T, T) -> int, x: T, p: T, q: T)
    requires IsPreorder(cmp) && cmp(p, q) == 0
    ensures cmp(x, p) < 0 <==> cmp(x, q) < 0
    ensures cmp(x, p) == 0 <==> cmp(x, q) == 0
    ensures cmp(x, p) > 0 <==> cmp(x, q) > 0
  {
    Symmetric(cmp, p, q);
    Symmetric(cmp, x, p);
    Symmetric(cmp, x, q);
  }

  lemma Chained<T(!new)>(cmp: (T, T) -> int, x: T, y: T, z: T)
    requires IsPreorder(cmp) && cmp(x, y) <= 0 && cmp(y, z) <= 0
    ensures cmp(x, z) <= 0 && (cmp(x, y) < 0 || cmp(y, z) < 0 ==> cmp(x, z) < 0)
  {
    Symmetric(cmp, x, y);
    Symmetric(cmp, y, z);
    Symmetric(cmp, x, z);
    assert cmp(x, z) <= 0;
    if cmp(x, z) == 0 {
      assert cmp(z, x) <= 0;
      assert cmp(y, x) <= 0;
      assert cmp(z, y) <= 0;
    }
  }

  // ----- exchanges -----

  function Swapped<E>(s: seq<E>, i: nat, j: nat): seq<E>
    requires i < |s| && j < |s|
  {
    s[i := s[j]][j := s[i]]
  }

  /** The three-way exchange: p gets r's, r gets q's and q gets p's element. */
  function Rotated<E>(s: seq<E>, p: nat, q: nat, r: nat): seq<E>
    requires p < |s| && q < |s| && r < |s|
  {
    var s1 := s[p := s[r]];
    var s2 := s1[r := s1[q]];
    s2[q := s[p]]
  }

  /** `t` is a permutation of `s` that leaves everything outside lo..hi in place. */
  ghost predicate Permuted<E>(s: seq<E>, t: seq<E>, lo: nat, hi: nat) {
    && |s| == |t| && lo <= hi <= |s|
    && s[..lo] == t[..lo] && s[hi..] == t[hi..]
    && multiset(s) == multiset(t)
  }

  lemma PermutedTransitive<E>(s: seq<E>, t: seq<E>, u: seq<E>, lo: nat, hi: nat)
    requires Permuted(s, t, lo, hi) && Permuted(t, u, lo, hi)
    ensures Permuted(s, u, lo, hi)
  {
  }

  lemma SwappedPermutes<E>(s: seq<E>, i: nat, j: nat, lo: nat, hi: nat)
    requires lo <= i < hi <= |s| && lo <= j < hi
    ensures Permuted(s, Swapped(s, i, j), lo, hi)
  {
  }

  lemma RotatedPermutes<E>(s: seq<E>, p: nat, q: nat, r: nat, lo: nat, hi: nat)
    requires lo <= p < hi <= |s| && lo <= q < hi && lo <= r < hi && p != q && p != r
    ensures Permuted(s, Rotated(s, p, q, r), lo, hi)
  {
    hide Permuted;
    if q == r {
      assert Rotated(s, p, q, r) == Swapped(s, p, q);
      SwappedPermutes(s, p, q, lo, hi);
    } else {
      RotatedTwice(s, p, q, r);
      hide Swapped, Rotated;
      var t := Swapped(s, p, r);
      SwappedPermutes(s, p, r, lo, hi);
      SwappedPermutes(t, r, q, lo, hi);
      PermutedTransitive(s, t, Swapped(t, r, q), lo, hi);
    }
  }

  /** Three elements change places in two exchanges. */
  lemma RotatedTwice<E>(s: seq<E>, p: nat, q: nat, r: nat)
    requires p < |s| && q < |s| && r < |s| && p != q && p != r && q != r
    ensures |Swapped(s, p, r)| == |s| && Rotated(s, p, q, r) == Swapped(Swapped(s, p, r), r, q)
  {
  }

  method Swap<E>(a: array<E>, i: nat, j: nat, ghost lo: nat, ghost hi: nat)
    requires lo <= i < hi <= a.Length && lo <= j < hi
    modifies a
    ensures a[..] == Swapped(old(a[..]), i, j) && Permuted(old(a[..]), a[..], lo, hi)
  {
    SwappedPermutes(a[..], i, j, lo, hi);
    a[i], a[j] := a[j], a[i];
    assert a[..] == Swapped(old(a[..]), i, j);
  }

  method Rotate<E>(a: array<E>, p: nat, q: nat, r: nat, ghost lo: nat, ghost hi: nat)
    requires lo <= p < hi <= a.Length && lo <= q < hi && lo <= r < hi && p != q && p != r
    modifies a
    ensures a[..] == Rotated(old(a[..]), p, q, r) && Permuted(old(a[..]), a[..], lo, hi)
  {
    RotatedPermutes(a[..], p, q, r, lo, hi);
    var t := a[p];
    a[p] := a[r];
    a[r] := a[q];
    a[q] := t;
    assert a[..] == Rotated(old(a[..]), p, q, r);
  }

  // ----- partitioning -----

  /** lo..i is below the pivot `pv`, lp..hp (both included) is equivalent to it, and what follows j is above it. */
  ghost predicate Parted<T>(cmp: (T, T) -> int, s: seq<Line<T>>, pv: T, lo: nat, i: int, lp: int, hp: int, j: int,
                            hi: nat) {
    && lo <= i <= lp <= hp <= j < hi <= |s|
    && (forall k :: lo <= k < i ==> cmp(s[k].text, pv) < 0)
    && (forall k :: lp <= k <= hp ==> cmp(s[k].text, pv) == 0)
    && (forall k :: j < k < hi ==> cmp(s[k].text, pv) > 0)
  }

  lemma PartedStart<T(!new)>(cmp: (T, T) -> int, s: seq<Line<T>>, lo: nat, n: nat, hi: nat)
    requires IsPreorder(cmp) && lo <= n < hi <= |s|
    ensures Parted(cmp, s, s[n].text, lo, lo, n, n, hi - 1, hi)
  {
    Reflexive(cmp, s[n].text);
  }

  /** An equivalent line found on the left joins the pivots. */
  lemma LeftEqual<T>(cmp: (T, T) -> int, s: seq<Line<T>>, pv: T, lo: nat, i: int, lp: int, hp: int, j: int, hi: nat)
    requires Parted(cmp, s, pv, lo, i, lp, hp, j, hi) && i < lp && cmp(s[i].text, pv) == 0
    ensures Parted(cmp, Swapped(s, i, lp - 1), pv, lo, i, lp - 1, hp, j, hi)
  {
  }

  lemma LeftLess<T>(cmp: (T, T) -> int, s: seq<Line<T>>, pv: T, lo: nat, i: int, lp: int, hp: int, j: int, hi: nat)
    requires Parted(cmp, s, pv, lo, i, lp, hp, j, hi) && i < lp && cmp(s[i].text, pv) < 0
    ensures Parted(cmp, s, pv, lo, i + 1, lp, hp, j, hi)
  {
  }

  lemma RightEqual<T>(cmp: (T, T) -> int, s: seq<Line<T>>, pv: T, lo: nat, i: int, lp: int, hp: int, j: int, hi: nat)
    requires Parted(cmp, s, pv, lo, i, lp, hp, j, hi) && hp < j && cmp(s[j].text, pv) == 0
    ensures Parted(cmp, Swapped(s, hp + 1, j), pv, lo, i, lp, hp + 1, j, hi)
  {
  }

  /** A smaller line on the right while the left is done: the pivots move up by one. */
  lemma PivotsUp<T>(cmp: (T, T) -> int, s: seq<Line<T>>, pv: T, lo: nat, lp: int, hp: int, j: int, hi: nat)
    requires Parted(cmp, s, pv, lo, lp, lp, hp, j, hi) && hp < j && cmp(s[j].text, pv) < 0
    ensures Parted(cmp, Rotated(s, lp, hp + 1, j), pv, lo, lp + 1, lp + 1, hp + 1, j, hi)
  {
  }

  lemma Exchange<T>(cmp: (T, T) -> int, s: seq<Line<T>>, pv: T, lo: nat, i: int, lp: int, hp: int, j: int, hi: nat)
    requires Parted(cmp, s, pv, lo, i, lp, hp, j, hi) && i < lp && hp < j
    requires cmp(s[i].text, pv) > 0 && cmp(s[j].text, pv) < 0
    ensures Parted(cmp, Swapped(s, i, j), pv, lo, i + 1, lp, hp, j - 1, hi)
  {
  }

  lemma RightGreater<T>(cmp: (T, T) -> int, s: seq<Line<T>>, pv: T, lo: nat, i: int, lp: int, hp: int, j: int, hi: nat)
    requires Parted(cmp, s, pv, lo, i, lp, hp, j, hi) && hp < j && cmp(s[j].text, pv) > 0
    ensures Parted(cmp, s, pv, lo, i, lp, hp, j - 1, hi)
  {
  }

  /** A greater line on the left while the right is done: the pivots move down by one. */
  lemma PivotsDown<T>(cmp: (T, T) -> int, s: seq<Line<T>>, pv: T, lo: nat, i: int, lp: int, hp: int, hi: nat)
    requires Parted(cmp, s, pv, lo, i, lp, hp, hp, hi) && i < lp && cmp(s[i].text, pv) > 0
    ensures Parted(cmp, Rotated(s, hp, lp - 1, i), pv, lo, i, lp - 1, hp - 1, hp - 1, hi)
  {
  }

  lemma PartedBounds<T>(cmp: (T, T) -> int, s: seq<Line<T>>, pv: T, lo: nat, i: int, lp: int, hp: int, j: int, hi: nat)
    requires Parted(cmp, s, pv, lo, i, lp, hp, j, hi)
    ensures lo <= i <= lp <= hp <= j < hi <= |s| && cmp(s[lp].text, pv) == 0 && cmp(s[hp].text, pv) == 0
  {
  }

  lemma PermutedHere<E>(s: seq<E>, lo: nat, hi: nat)
    requires lo <= hi <= |s|
    ensures Permuted(s, s, lo, hi)
  {
  }

  /** Split lo..hi around the line in its middle. */
  method Partition<T(!new)>(cmp: (T, T) -> int, a: array<Line<T>>, lo: nat, hi: nat)
    returns (lp: nat, hp: nat, ghost pv: T)
    requires IsPreorder(cmp) && lo + 1 < hi <= a.Length
    modifies a
    ensures Permuted(old(a[..]), a[..], lo, hi)
    ensures Parted(cmp, a[..], pv, lo, lp, lp, hp, hp, hi)
  {
    hide IsPreorder, Permuted, Parted, Swapped, Rotated;
    ghost var was := a[..];
    lp := lo + (hi - lo) / 2;
    hp := lp;
    var i, j := lo, hi - 1;
    pv := a[lp].text;
    PartedStart(cmp, a[..], lo, lp, hi);
    PermutedHere(a[..], lo, hi);
    while true
      invariant Permuted(was, a[..], lo, hi)
      invariant Parted(cmp, a[..], pv, lo, i, lp, hp, j, hi)
      invariant lo <= i <= lp <= hp <= j < hi
      decreases lp - i + j - hp
    {
      ghost var s := a[..];
      var again := false;
      if i < lp {
        i, lp, again := FromTheLeft(cmp, a, lo, hi, i, lp, hp, j, pv);
        PermutedTransitive(was, s, a[..], lo, hi);
      }
      if again {
        continue;
      }
      s := a[..];
      i, lp, hp, j, again := FromTheRight(cmp, a, lo, hi, i, lp, hp, j, pv);
      PermutedTransitive(was, s, a[..], lo, hi);
      if again {
        continue;
      }
      if i == lp {
        break;
      }
      s := a[..];
      lp, hp := MovePivots(cmp, a, lo, hi, i, lp, hp, pv);
      PermutedTransitive(was, s, a[..], lo, hi);
      j := hp;
    }
  }

  /** Look at the leftmost line that is not yet in its part; a greater one is left where it is. */
  method FromTheLeft<T(!new)>(cmp: (T, T) -> int, a: array<Line<T>>, lo: nat, hi: nat,
                              i0: nat, lp0: nat, hp: nat, j: nat, ghost pv: T)
    returns (i: nat, lp: nat, again: bool)
    requires IsPreorder(cmp) && hi <= a.Length && Parted(cmp, a[..], pv, lo, i0, lp0, hp, j, hi)
    requires lo <= i0 < lp0 <= hp <= j < hi
    modifies a
    ensures Permuted(old(a[..]), a[..], lo, hi) && Parted(cmp, a[..], pv, lo, i, lp, hp, j, hi)
    ensures lo <= i <= lp <= hp
    ensures if again then lp - i < lp0 - i0 else i == i0 && lp == lp0 && cmp(a[i].text, pv) > 0
  {
    hide IsPreorder, Permuted, Parted, Swapped;
    ghost var s := a[..];
    PermutedHere(s, lo, hi);
    PartedBounds(cmp, s, pv, lo, i0, lp0, hp, j, hi);
    SameSide(cmp, a[i0].text, a[lp0].text, pv);
    i, lp, again := i0, lp0, true;
    var c := cmp(a[i].text, a[lp].text);
    if c == 0 {
      LeftEqual(cmp, s, pv, lo, i, lp, hp, j, hi);
      lp := lp - 1;
      Swap(a, i, lp, lo, hi);
    } else if c < 0 {
      LeftLess(cmp, s, pv, lo, i, lp, hp, j, hi);
      i := i + 1;
    } else {
      again := false;
    }
  }

  /** A greater line on the left while the right is done. */
  method MovePivots<T(!new)>(cmp: (T, T) -> int, a: array<Line<T>>, lo: nat, hi: nat,
                             i: nat, lp0: nat, hp0: nat, ghost pv: T)
    returns (lp: nat, hp: nat)
    requires hi <= a.Length && Parted(cmp, a[..], pv, lo, i, lp0, hp0, hp0, hi)
    requires lo <= i < lp0 <= hp0 < hi && cmp(a[i].text, pv) > 0
    modifies a
    ensures Permuted(old(a[..]), a[..], lo, hi) && Parted(cmp, a[..], pv, lo, i, lp, hp, hp, hi)
    ensures lo <= i <= lp <= hp < hi && lp < lp0
  {
    hide Permuted, Parted, Rotated;
    PivotsDown(cmp, a[..], pv, lo, i, lp0, hp0, hi);
    lp, hp := lp0 - 1, hp0 - 1;
    Rotate(a, hp0, lp, i, lo, hi);
  }

  /** Work down from the right end until it is done or a pair can be exchanged. */
  method FromTheRight<T(!new)>(cmp: (T, T) -> int, a: array<Line<T>>, lo: nat, hi: nat,
                               i0: nat, lp0: nat, hp0: nat, j0: nat, ghost pv: T)
    returns (i: nat, lp: nat, hp: nat, j: nat, again: bool)
    requires IsPreorder(cmp) && hi <= a.Length && Parted(cmp, a[..], pv, lo, i0, lp0, hp0, j0, hi)
    requires lo <= i0 <= lp0 <= hp0 <= j0 < hi && (i0 < lp0 ==> cmp(a[i0].text, pv) > 0)
    modifies a
    ensures Permuted(old(a[..]), a[..], lo, hi)
    ensures Parted(cmp, a[..], pv, lo, i, lp, hp, j, hi)
    ensures lo <= i <= lp <= hp <= j < hi
    ensures lp - i + j - hp <= lp0 - i0 + j0 - hp0
    ensures again ==> lp - i + j - hp < lp0 - i0 + j0 - hp0
    ensures !again ==> j == hp && (i < lp ==> cmp(a[i].text, pv) > 0)
  {
    hide IsPreorder, Permuted, Parted, Swapped, Rotated;
    i, lp, hp, j, again := i0, lp0, hp0, j0, false;
    PermutedHere(a[..], lo, hi);
    while j > hp && !again
      invariant Permuted(old(a[..]), a[..], lo, hi)
      invariant Parted(cmp, a[..], pv, lo, i, lp, hp, j, hi)
      invariant lo <= i <= lp <= hp <= j < hi
      invariant lp - i + j - hp <= lp0 - i0 + j0 - hp0
      invariant if again then lp - i + j - hp < lp0 - i0 + j0 - hp0 else i < lp ==> cmp(a[i].text, pv) > 0
      decreases j - hp
    {
      ghost var s := a[..];
      i, lp, hp, j, again := TakeRight(cmp, a, lo, hi, i, lp, hp, j, pv);
      PermutedTransitive(old(a[..]), s, a[..], lo, hi);
    }
  }

  /** Look at the rightmost line that is not yet in its part. */
  method TakeRight<T(!new)>(cmp: (T, T) -> int, a: array<Line<T>>, lo: nat, hi: nat,
                            i0: nat, lp0: nat, hp0: nat, j0: nat, ghost pv: T)
    returns (i: nat, lp: nat, hp: nat, j: nat, again: bool)
    requires IsPreorder(cmp) && hi <= a.Length && Parted(cmp, a[..], pv, lo, i0, lp0, hp0, j0, hi)
    requires lo <= i0 <= lp0 <= hp0 < j0 < hi && (i0 < lp0 ==> cmp(a[i0].text, pv) > 0)
    modifies a
    ensures Permuted(old(a[..]), a[..], lo, hi)
    ensures Parted(cmp, a[..], pv, lo, i, lp, hp, j, hi)
    ensures lo <= i <= lp <= hp <= j < hi && j - hp < j0 - hp0 && lp - i <= lp0 - i0
    ensures !again ==> i < lp ==> cmp(a[i].text, pv) > 0
  {
    hide IsPreorder, Permuted, Parted, Swapped, Rotated;
    i, lp, hp, j, again := i0, lp0, hp0, j0, false;
    ghost var s := a[..];
    PermutedHere(s, lo, hi);
    PartedBounds(cmp, s, pv, lo, i, lp, hp, j, hi);
    SameSide(cmp, a[j].text, a[hp].text, pv);
    Symmetric(cmp, a[hp].text, a[j].text);
    var c := cmp(a[hp].text, a[j].text);
    if c == 0 {
      RightEqual(cmp, s, pv, lo, i, lp, hp, j, hi);
      hp := hp + 1;
      Swap(a, hp, j, lo, hi);
      SwapKeeps(s, hp, j, i);
    } else if c < 0 {
      RightGreater(cmp, s, pv, lo, i, lp, hp, j, hi);
      j := j - 1;
    } else if i == lp {
      PivotsUp(cmp, s, pv, lo, lp, hp, j, hi);
      hp := hp + 1;
      Rotate(a, i, hp, j, lo, hi);
      lp := lp + 1;
      i := lp;
    } else {
      Exchange(cmp, s, pv, lo, i, lp, hp, j, hi);
      Swap(a, i, j, lo, hi);
      j := j - 1;
      i := i + 1;
      again := true;
    }
  }

  lemma SwapKeeps<E>(s: seq<E>, i: nat, j: nat, k: nat)
    requires i < |s| && j < |s| && k < |s| && k != i && k != j
    ensures Swapped(s, i, j)[k] == s[k]
  {
  }

  // ----- order of the texts -----

  function Texts<T>(s: seq<Line<T>>): (x: seq<T>)
    ensures |x| == |s| && forall i :: 0 <= i < |s| ==> x[i] == s[i].text
  {
    seq(|s|, i requires 0 <= i < |s| => s[i].text)
  }

  ghost predicate Sorted<T>(cmp: (T, T) -> int, x: seq<T>, lo: nat, hi: nat) {
    hi <= |x| && forall i, j :: lo <= i < j < hi ==> cmp(x[i], x[j]) <= 0
  }

  /**
   lo..hi is sorted but for the two parts l1..h1 and l2..h2; lines in one of
   these are strictly ordered with those outside it.
   */
  ghost predicate Arranged<T>(cmp: (T, T) -> int, x: seq<T>, lo: nat, hi: nat, l1: int, h1: int, l2: int, h2: int) {
    && hi <= |x|
    && forall i, j :: lo <= i < j < hi && !(l1 <= i && j < h1) && !(l2 <= i && j < h2) ==>
         && cmp(x[i], x[j]) <= 0
         && (l1 <= i < h1 || l1 <= j < h1 || l2 <= i < h2 || l2 <= j < h2 ==> cmp(x[i], x[j]) < 0)
  }

  /** An element of a permuted part comes from that part. */
  lemma PermutedFrom<E>(s: seq<E>, t: seq<E>, lo: nat, hi: nat, k: nat) returns (q: nat)
    requires Permuted(s, t, lo, hi) && lo <= k < hi
    ensures lo <= q < hi && t[k] == s[q]
  {
    SameMiddle(s, t, lo, hi);
    assert t[k] == t[lo..hi][k - lo];
    assert t[k] in multiset(t[lo..hi]);
    assert t[k] in s[lo..hi];
    q :| lo <= q < hi && s[q] == t[k];
  }

  lemma SameMiddle<E>(s: seq<E>, t: seq<E>, lo: nat, hi: nat)
    requires Permuted(s, t, lo, hi)
    ensures lo <= hi <= |s| == |t| && multiset(s[lo..hi]) == multiset(t[lo..hi])
  {
    MiddleMultiset(s, lo, hi);
    MiddleMultiset(t, lo, hi);
    assert s[..lo] == t[..lo] && s[hi..] == t[hi..];
  }

  lemma MiddleMultiset<E>(s: seq<E>, lo: nat, hi: nat)
    requires lo <= hi <= |s|
    ensures multiset(s[lo..hi]) == multiset(s) - multiset(s[..lo]) - multiset(s[hi..])
  {
    assert s == s[..lo] + s[lo..hi] + s[hi..];
  }

  /** Permuting an open part keeps the arrangement. */
  lemma ArrangedPermuted<T>(cmp: (T, T) -> int, x: seq<T>, y: seq<T>, lo: nat, hi: nat, l1: nat, h1: nat, l2: int,
                            h2: int)
    requires Arranged(cmp, x, lo, hi, l1, h1, l2, h2) && Permuted(x, y, l1, h1) && lo <= l1 <= h1 <= hi
    requires h1 <= l2 || h2 <= l1 || h2 <= l2
    ensures Arranged(cmp, y, lo, hi, l1, h1, l2, h2)
  {
    forall i, j | lo <= i < j < hi && !(l1 <= i && j < h1) && !(l2 <= i && j < h2)
      ensures cmp(y[i], y[j]) <= 0
      ensures l1 <= i < h1 || l1 <= j < h1 || l2 <= i < h2 || l2 <= j < h2 ==> cmp(y[i], y[j]) < 0
    {
      var i' := PermutedSource(x, y, l1, h1, i);
      var j' := PermutedSource(x, y, l1, h1, j);
    }
  }

  lemma PermutedSource<E>(s: seq<E>, t: seq<E>, lo: nat, hi: nat, k: nat) returns (q: nat)
    requires Permuted(s, t, lo, hi) && k < |s|
    ensures if lo <= k < hi then lo <= q < hi else q == k
    ensures q < |s| && t[k] == s[q]
  {
    if lo <= k < hi {
      q := PermutedFrom(s, t, lo, hi, k);
    } else {
      q := k;
      if k < lo { assert t[k] == t[..lo][k] == s[..lo][k]; } else { assert t[k] == t[hi..][k - hi] == s[hi..][k - hi]; }
    }
  }

  /** Partitioning the open part leaves one on either side of the pivots. */
  lemma ArrangedParted<T(!new)>(cmp: (T, T) -> int, s: seq<Line<T>>, pv: T, lo: nat, hi: nat, l: nat, h: nat,
                                lp: nat, hp: nat)
    requires IsPreorder(cmp) && lo <= l && h <= hi
    requires Arranged(cmp, Texts(s), lo, hi, l, h, h, h) && Parted(cmp, s, pv, l, lp, lp, hp, hp, h)
    ensures Arranged(cmp, Texts(s), lo, hi, l, lp, hp + 1, h)
  {
    var x := Texts(s);
    forall i, j | lo <= i < j < hi && !(l <= i && j < lp) && !(hp + 1 <= i && j < h)
      ensures cmp(x[i], x[j]) <= 0
      ensures l <= i < lp || l <= j < lp || hp + 1 <= i < h || hp + 1 <= j < h ==> cmp(x[i], x[j]) < 0
    {
      if l <= i && j < h {
        Symmetric(cmp, x[j], pv);
        Chained(cmp, x[i], pv, x[j]);
      }
    }
  }

  /** Sorting an open part closes it. */
  lemma ArrangedSorted<T>(cmp: (T, T) -> int, x: seq<T>, lo: nat, hi: nat, l1: int, h1: int, l2: nat, h2: nat)
    requires Arranged(cmp, x, lo, hi, l1, h1, l2, h2) && Sorted(cmp, x, l2, h2)
    requires h1 <= l2 || h2 <= l1
    ensures Arranged(cmp, x, lo, hi, l1, h1, h1, h1)
  {
  }

  lemma ArrangedSwap<T>(cmp: (T, T) -> int, x: seq<T>, lo: nat, hi: nat, l1: int, h1: int, l2: int, h2: int)
    requires Arranged(cmp, x, lo, hi, l1, h1, l2, h2)
    ensures Arranged(cmp, x, lo, hi, l2, h2, l1, h1)
  {
  }

  // ----- texts of permuted lines -----

  /** A sequence without the element at k. */
  ghost function Without<E>(t: seq<E>, k: nat): seq<E>
    requires k < |t|
  {
    t[..k] + t[k + 1..]
  }

  lemma TakenOut<E>(t: seq<E>, k: nat)
    requires k < |t|
    ensures |Without(t, k)| == |t| - 1 && multiset(Without(t, k)) == multiset(t) - multiset{t[k]}
    ensures multiset(t) == multiset(Without(t, k)) + multiset{t[k]}
  {
    assert t == t[..k] + [t[k]] + t[k + 1..];
  }

  lemma TextsTakenOut<T>(t: seq<Line<T>>, k: nat)
    requires k < |t|
    ensures multiset(Texts(t)) == multiset(Texts(Without(t, k))) + multiset{t[k].text}
  {
    TakenOut(Texts(t), k);
    assert Without(Texts(t), k) == Texts(Without(t, k));
  }

  lemma {:induction false} TextsMultiset<T>(s: seq<Line<T>>, t: seq<Line<T>>)
    requires multiset(s) == multiset(t)
    ensures multiset(Texts(s)) == multiset(Texts(t))
    decreases |s|, 1
  {
    assert |s| == |multiset(s)| == |multiset(t)| == |t|;
    if s == [] {
      assert s == t;
    } else {
      assert s[0] in multiset(t);
      var k :| 0 <= k < |t| && t[k] == s[0];
      OneTaken(s, t, k);
    }
  }

  lemma {:induction false} OneTaken<T>(s: seq<Line<T>>, t: seq<Line<T>>, k: nat)
    requires multiset(s) == multiset(t) && s != [] && k < |t| && t[k] == s[0]
    ensures multiset(Texts(s)) == multiset(Texts(t))
    decreases |s|, 0
  {
    hide Without;
    TakenOut(s, 0);
    TakenOut(t, k);
    TextsMultiset(Without(s, 0), Without(t, k));
    TextsTakenOut(s, 0);
    TextsTakenOut(t, k);
  }

  lemma TextsPermuted<T>(s: seq<Line<T>>, t: seq<Line<T>>, lo: nat, hi: nat)
    requires Permuted(s, t, lo, hi)
    ensures Permuted(Texts(s), Texts(t), lo, hi)
  {
    TextsMultiset(s, t);
    assert Texts(s)[..lo] == Texts(s[..lo]) && Texts(t)[..lo] == Texts(t[..lo]);
    assert Texts(s)[hi..] == Texts(s[hi..]) && Texts(t)[hi..] == Texts(t[hi..]);
  }

  lemma PermutedWiden<E>(s: seq<E>, t: seq<E>, l: nat, h: nat, lo: nat, hi: nat)
    requires Permuted(s, t, l, h) && lo <= l && h <= hi <= |s|
    ensures Permuted(s, t, lo, hi)
  {
    assert s[..lo] == s[..l][..lo] && t[..lo] == t[..l][..lo];
    assert s[hi..] == s[h..][hi - h..] && t[hi..] == t[h..][hi - h..];
  }

  // ----- blanking equal lines -----

  /** Of lo..hi exactly the first of each run of equivalent lines is kept. */
  ghost predicate Marked<T>(cmp: (T, T) -> int, s: seq<Line<T>>, lo: nat, hi: nat) {
    hi <= |s| && forall k :: lo <= k < hi ==> (s[k].kept <==> IsFirst(cmp, s, lo, k))
  }

  ghost predicate IsFirst<T>(cmp: (T, T) -> int, s: seq<Line<T>>, lo: nat, k: nat)
    requires k < |s|
  {
    k <= lo || cmp(s[k - 1].text, s[k].text) < 0
  }

  /** The same for lo..hi but for l1..h1 and l2..h2, where every line is still kept. */
  ghost predicate MarkedAround<T>(cmp: (T, T) -> int, s: seq<Line<T>>, lo: nat, hi: nat, l1: int, h1: int, l2: int,
                                  h2: int) {
    hi <= |s| && forall k :: lo <= k < hi ==>
      if l1 <= k < h1 || l2 <= k < h2 then s[k].kept else (s[k].kept <==> IsFirst(cmp, s, lo, k))
  }

  lemma MarkedPermuted<T>(cmp: (T, T) -> int, s: seq<Line<T>>, t: seq<Line<T>>, lo: nat, hi: nat, l: nat, h: nat)
    requires lo <= l < h <= hi && MarkedAround(cmp, s, lo, hi, l, h, h, h) && Permuted(s, t, l, h)
    requires Arranged(cmp, Texts(s), lo, hi, l, h, h, h) && Arranged(cmp, Texts(t), lo, hi, l, h, h, h)
    ensures MarkedAround(cmp, t, lo, hi, l, h, h, h)
  {
    hide Permuted, Arranged;
    PermutedSize(s, t, l, h);
    forall k | lo <= k < hi
      ensures if l <= k < h then t[k].kept else (t[k].kept <==> IsFirst(cmp, t, lo, k))
    {
      var q := PermutedSource(s, t, l, h, k);
      if !(l <= k < h) { FirstPermuted(cmp, s, t, lo, hi, l, h, k); }
    }
  }

  lemma PermutedSize<E>(s: seq<E>, t: seq<E>, lo: nat, hi: nat)
    requires Permuted(s, t, lo, hi)
    ensures |s| == |t|
  {
  }

  /** Outside the permuted part, a line is first of its class before and after. */
  lemma FirstPermuted<T>(cmp: (T, T) -> int, s: seq<Line<T>>, t: seq<Line<T>>, lo: nat, hi: nat, l: nat, h: nat, k: nat)
    requires lo <= l < h <= hi && Permuted(s, t, l, h) && lo <= k < hi <= |s| == |t| && !(l <= k < h)
    requires Arranged(cmp, Texts(s), lo, hi, l, h, h, h) && Arranged(cmp, Texts(t), lo, hi, l, h, h, h)
    ensures IsFirst(cmp, s, lo, k) <==> IsFirst(cmp, t, lo, k)
  {
    hide Permuted;
    var q := PermutedSource(s, t, l, h, k);
    if k == h {
      ArrangedAt(cmp, Texts(s), lo, hi, l, h, k);
      ArrangedAt(cmp, Texts(t), lo, hi, l, h, k);
    } else if k > lo {
      var q' := PermutedSource(s, t, l, h, k - 1);
    }
  }

  lemma ArrangedAt<T>(cmp: (T, T) -> int, x: seq<T>, lo: nat, hi: nat, l: nat, h: nat, k: nat)
    requires Arranged(cmp, x, lo, hi, l, h, h, h) && lo <= l < h == k < hi
    ensures cmp(x[k - 1], x[k]) < 0
  {
  }

  /** Blanking all pivots but the first marks them. */
  lemma MarkedBlanked<T>(cmp: (T, T) -> int, s: seq<Line<T>>, pv: T, lo: nat, hi: nat, l: nat, h: nat, lp: nat, hp: nat)
    requires lo <= l && h <= hi && MarkedAround(cmp, s, lo, hi, l, h, h, h)
    requires Parted(cmp, s, pv, l, lp, lp, hp, hp, h) && Arranged(cmp, Texts(s), lo, hi, l, lp, hp + 1, h)
    requires Arranged(cmp, Texts(s), lo, hi, l, h, h, h)
    requires forall k :: lp < k <= hp ==> cmp(s[k - 1].text, s[k].text) == 0
    ensures MarkedAround(cmp, Blanked(s, lp + 1, hp + 1), lo, hi, l, lp, hp + 1, h)
  {
    hide Arranged, Parted, Blanked;
    PartedBounds(cmp, s, pv, l, lp, lp, hp, hp, h);
    var t := Blanked(s, lp + 1, hp + 1);
    forall k | lo <= k < hi
      ensures if l <= k < lp || hp + 1 <= k < h then t[k].kept else (t[k].kept <==> IsFirst(cmp, t, lo, k))
    {
      MarkedBlankedAt(cmp, s, pv, lo, hi, l, h, lp, hp, k);
    }
  }

  lemma MarkedBlankedAt<T>(cmp: (T, T) -> int, s: seq<Line<T>>, pv: T, lo: nat, hi: nat, l: nat, h: nat, lp: nat,
                           hp: nat, k: nat)
    requires lo <= l && h <= hi <= |s| && lo <= k < hi && l <= lp <= hp < h
    requires if l <= k < h then s[k].kept else (s[k].kept <==> IsFirst(cmp, s, lo, k))
    requires Arranged(cmp, Texts(s), lo, hi, l, lp, hp + 1, h) && Arranged(cmp, Texts(s), lo, hi, l, h, h, h)
    requires lp < k <= hp ==> cmp(s[k - 1].text, s[k].text) == 0
    ensures |Blanked(s, lp + 1, hp + 1)| == |s|
    ensures var t := Blanked(s, lp + 1, hp + 1);
            if l <= k < lp || hp + 1 <= k < h then t[k].kept else (t[k].kept <==> IsFirst(cmp, t, lo, k))
  {
    var t := Blanked(s, lp + 1, hp + 1);
    var x := Texts(s);
    if k > lo {
      assert t[k].text == x[k] && t[k - 1].text == x[k - 1];
    }
  }

  /** Marking an open part as the recursive call does closes it. */
  lemma MarkedClosed<T>(cmp: (T, T) -> int, s: seq<Line<T>>, t: seq<Line<T>>, lo: nat, hi: nat, l1: int, h1: int,
                        l2: nat, h2: nat)
    requires MarkedAround(cmp, s, lo, hi, l1, h1, l2, h2) && Marked(cmp, t, l2, h2) && lo <= l2 <= h2 <= hi
    requires |t| == |s| && (h1 <= l2 || h2 <= l1)
    requires forall k :: 0 <= k < |s| && !(l2 <= k < h2) ==> t[k] == s[k]
    requires Arranged(cmp, Texts(s), lo, hi, l1, h1, l2, h2) && Arranged(cmp, Texts(t), lo, hi, l1, h1, l2, h2)
    ensures MarkedAround(cmp, t, lo, hi, l1, h1, h1, h1)
  {
    var x, y := Texts(s), Texts(t);
    forall k | lo <= k < hi
      ensures if l1 <= k < h1 then t[k].kept else (t[k].kept <==> IsFirst(cmp, t, lo, k))
    {
      if k > lo {
        assert s[k].text == x[k] && s[k - 1].text == x[k - 1];
        assert t[k].text == y[k] && t[k - 1].text == y[k - 1];
      }
    }
  }

  lemma MarkedSwap<T>(cmp: (T, T) -> int, s: seq<Line<T>>, lo: nat, hi: nat, l1: int, h1: int, l2: int, h2: int)
    requires MarkedAround(cmp, s, lo, hi, l1, h1, l2, h2)
    ensures MarkedAround(cmp, s, lo, hi, l2, h2, l1, h1)
  {
  }

  lemma PivotsEqual<T(!new)>(cmp: (T, T) -> int, s: seq<Line<T>>, pv: T, l: nat, lp: nat, hp: nat, h: nat)
    requires IsPreorder(cmp) && Parted(cmp, s, pv, l, lp, lp, hp, hp, h)
    ensures forall k :: lp < k <= hp ==> cmp(s[k - 1].text, s[k].text) == 0
  {
    forall k | lp < k <= hp
      ensures cmp(s[k - 1].text, s[k].text) == 0
    {
      assert cmp(s[k].text, pv) == 0;
      SameSide(cmp, s[k - 1].text, s[k].text, pv);
    }
  }

  function Blanked<T>(s: seq<Line<T>>, l: nat, h: nat): (t: seq<Line<T>>)
    requires l <= h <= |s|
    ensures |t| == |s| && forall k :: 0 <= k < |s| ==> t[k] == if l <= k < h then s[k].(kept := false) else s[k]
  {
    seq(|s|, k requires 0 <= k < |s| => if l <= k < h then s[k].(kept := false) else s[k])
  }

  method Blank<T>(a: array<Line<T>>, l: nat, h: nat)
    requires l <= h <= a.Length
    modifies a
    ensures a[..] == Blanked(old(a[..]), l, h)
  {
    var k := l;
    while k < h
      invariant l <= k <= h
      invariant a[..] == Blanked(old(a[..]), l, k)
    {
      a[k] := a[k].(kept := false);
      k := k + 1;
    }
  }

  // ----- the sort -----

  /** What QuSort establishes for lo..hi, given `was`. */
  ghost predicate SortedFrom<T>(cmp: (T, T) -> int, was: seq<Line<T>>, s: seq<Line<T>>, lo: nat, hi: nat, u: bool) {
    && Permuted(Texts(was), Texts(s), lo, hi)
    && Sorted(cmp, Texts(s), lo, hi)
    && |s| == |was| && (forall k :: 0 <= k < |s| && !(lo <= k < hi) ==> s[k] == was[k])
    && (!u ==> Permuted(was, s, lo, hi))
    && (u ==> Marked(cmp, s, lo, hi))
  }

  /** The same with the parts l1..h1 and l2..h2 still to be sorted. */
  ghost predicate SortedAround<T>(cmp: (T, T) -> int, was: seq<Line<T>>, s: seq<Line<T>>, lo: nat, hi: nat, u: bool,
                                  l1: nat, h1: nat, l2: nat, h2: nat) {
    && lo <= l1 <= h1 <= hi && lo <= l2 <= h2 <= hi && (h1 <= l2 || h2 <= l1)
    && Permuted(Texts(was), Texts(s), lo, hi)
    && Arranged(cmp, Texts(s), lo, hi, l1, h1, l2, h2)
    && |s| == |was| && (forall k :: 0 <= k < |s| && !(lo <= k < hi) ==> s[k] == was[k])
    && (!u ==> Permuted(was, s, lo, hi))
    && (u ==> MarkedAround(cmp, s, lo, hi, l1, h1, l2, h2))
  }

  lemma AroundStart<T>(cmp: (T, T) -> int, was: seq<Line<T>>, lo: nat, hi: nat, u: bool)
    requires lo <= hi <= |was| && (u ==> forall k :: lo <= k < hi ==> was[k].kept)
    ensures SortedAround(cmp, was, was, lo, hi, u, lo, hi, hi, hi)
  {
    PermutedHere(was, lo, hi);
    PermutedHere(Texts(was), lo, hi);
  }

  lemma AroundPermuted<T>(cmp: (T, T) -> int, was: seq<Line<T>>, s: seq<Line<T>>, t: seq<Line<T>>, lo: nat, hi: nat,
                          u: bool,
                          l: nat, h: nat)
    requires SortedAround(cmp, was, s, lo, hi, u, l, h, h, h) && Permuted(s, t, l, h) && l < h && hi <= |s|
    ensures SortedAround(cmp, was, t, lo, hi, u, l, h, h, h)
  {
    hide Permuted, Arranged, MarkedAround;
    TextsPermuted(s, t, l, h);
    ArrangedPermuted(cmp, Texts(s), Texts(t), lo, hi, l, h, h, h);
    PermutedWiden(Texts(s), Texts(t), l, h, lo, hi);
    PermutedTransitive(Texts(was), Texts(s), Texts(t), lo, hi);
    PermutedWiden(s, t, l, h, lo, hi);
    PermutedOutside(s, t, lo, hi);
    if u {
      MarkedPermuted(cmp, s, t, lo, hi, l, h);
    } else {
      PermutedTransitive(was, s, t, lo, hi);
    }
  }

  lemma PermutedOutside<E>(s: seq<E>, t: seq<E>, lo: nat, hi: nat)
    requires Permuted(s, t, lo, hi)
    ensures |s| == |t| && forall k :: 0 <= k < |s| && !(lo <= k < hi) ==> t[k] == s[k]
  {
    forall k | 0 <= k < |s| && !(lo <= k < hi)
      ensures t[k] == s[k]
    {
      var q := PermutedSource(s, t, lo, hi, k);
    }
  }

  lemma AroundParted<T(!new)>(cmp: (T, T) -> int, was: seq<Line<T>>, s: seq<Line<T>>, pv: T, lo: nat, hi: nat, u: bool,
                              l: nat, h: nat, lp: nat, hp: nat)
    requires IsPreorder(cmp) && SortedAround(cmp, was, s, lo, hi, u, l, h, h, h) && hi <= |s|
    requires Parted(cmp, s, pv, l, lp, lp, hp, hp, h)
    ensures l <= lp <= hp < h
    ensures SortedAround(cmp, was, if u then Blanked(s, lp + 1, hp + 1) else s, lo, hi, u, l, lp, hp + 1, h)
  {
    hide IsPreorder, Permuted, Arranged, MarkedAround, Parted;
    PartedBounds(cmp, s, pv, l, lp, lp, hp, hp, h);
    ArrangedParted(cmp, s, pv, lo, hi, l, h, lp, hp);
    if u {
      var t := Blanked(s, lp + 1, hp + 1);
      PivotsEqual(cmp, s, pv, l, lp, hp, h);
      MarkedBlanked(cmp, s, pv, lo, hi, l, h, lp, hp);
      assert Texts(t) == Texts(s);
    }
  }

  lemma AroundSwap<T>(cmp: (T, T) -> int, was: seq<Line<T>>, s: seq<Line<T>>, lo: nat, hi: nat, u: bool,
                      l1: nat, h1: nat, l2: nat, h2: nat)
    requires SortedAround(cmp, was, s, lo, hi, u, l1, h1, l2, h2)
    ensures SortedAround(cmp, was, s, lo, hi, u, l2, h2, l1, h1)
  {
    hide Permuted, Arranged, MarkedAround;
    ArrangedSwap(cmp, Texts(s), lo, hi, l1, h1, l2, h2);
    if u { MarkedSwap(cmp, s, lo, hi, l1, h1, l2, h2); }
  }

  /** One of the two parts has been sorted. */
  lemma AroundSorted<T>(cmp: (T, T) -> int, was: seq<Line<T>>, s: seq<Line<T>>, t: seq<Line<T>>, lo: nat, hi: nat,
                        u: bool,
                        l1: nat, h1: nat, l2: nat, h2: nat)
    requires SortedAround(cmp, was, s, lo, hi, u, l1, h1, l2, h2) && SortedFrom(cmp, s, t, l2, h2, u) && hi <= |s|
    ensures SortedAround(cmp, was, t, lo, hi, u, l1, h1, h1, h1)
  {
    hide Permuted, Arranged, MarkedAround, Sorted, Marked;
    ArrangedSwap(cmp, Texts(s), lo, hi, l1, h1, l2, h2);
    ArrangedPermuted(cmp, Texts(s), Texts(t), lo, hi, l2, h2, l1, h1);
    ArrangedSwap(cmp, Texts(t), lo, hi, l2, h2, l1, h1);
    ArrangedSorted(cmp, Texts(t), lo, hi, l1, h1, l2, h2);
    PermutedWiden(Texts(s), Texts(t), l2, h2, lo, hi);
    PermutedTransitive(Texts(was), Texts(s), Texts(t), lo, hi);
    if u {
      MarkedClosed(cmp, s, t, lo, hi, l1, h1, l2, h2);
    } else {
      PermutedWiden(s, t, l2, h2, lo, hi);
      PermutedTransitive(was, s, t, lo, hi);
    }
  }

  lemma AroundKept<T>(cmp: (T, T) -> int, was: seq<Line<T>>, s: seq<Line<T>>, lo: nat, hi: nat, u: bool,
                      l1: nat, h1: nat, l2: nat, h2: nat)
    requires SortedAround(cmp, was, s, lo, hi, u, l1, h1, l2, h2) && u
    ensures forall k :: l2 <= k < h2 && k < |s| ==> s[k].kept
  {
  }

  /** A part of at most one line is sorted. */
  lemma AroundDone<T>(cmp: (T, T) -> int, was: seq<Line<T>>, s: seq<Line<T>>, lo: nat, hi: nat, u: bool, l: nat, h: nat)
    requires SortedAround(cmp, was, s, lo, hi, u, l, h, h, h) && h - l <= 1
    ensures SortedFrom(cmp, was, s, lo, hi, u)
  {
    var x := Texts(s);
    forall i, j | lo <= i < j < hi
      ensures cmp(x[i], x[j]) <= 0
    {
      assert !(l <= i && j < h);
    }
    if u {
      forall k | lo <= k < hi
        ensures s[k].kept <==> IsFirst(cmp, s, lo, k)
      {
        if l <= k < h && lo < k {
          assert cmp(x[k - 1], x[k]) < 0;
        }
      }
    }
  }

  function Pow2(n: nat): nat {
    if n == 0 then 1 else 2 * Pow2(n - 1)
  }

  /**
   Sort lo..hi.  Recursion is on the smaller side, so its depth is bounded by
   the logarithm of the number of lines: `depth` decreases with every call.
   */
  method QuSort<T(!new)>(cmp: (T, T) -> int, a: array<Line<T>>, lo: nat, hi: nat, uflg: bool, ghost depth: nat)
    requires IsPreorder(cmp) && lo <= hi <= a.Length && hi - lo < Pow2(depth)
    requires uflg ==> forall k :: lo <= k < hi ==> a[k].kept
    modifies a
    ensures SortedFrom(cmp, old(a[..]), a[..], lo, hi, uflg)
    decreases depth
  {
    hide IsPreorder, Permuted, Parted, SortedAround, SortedFrom, Blanked;
    ghost var was := a[..];
    var l, h := lo, hi;
    AroundStart(cmp, was, lo, hi, uflg);
    while h - l > 1
      invariant lo <= l <= h <= hi
      invariant SortedAround(cmp, was, a[..], lo, hi, uflg, l, h, h, h)
      decreases h - l
    {
      ghost var s := a[..];
      var lp, hp;
      ghost var pv;
      lp, hp, pv := Partition(cmp, a, l, h);
      AroundPermuted(cmp, was, s, a[..], lo, hi, uflg, l, h);
      AroundParted(cmp, was, a[..], pv, lo, hi, uflg, l, h, lp, hp);
      if uflg {
        Blank(a, lp + 1, hp + 1);
      }
      s := a[..];
      AroundSwap(cmp, was, s, lo, hi, uflg, l, lp, hp + 1, h);
      if uflg {
        AroundKept(cmp, was, s, lo, hi, uflg, l, lp, hp + 1, h);
        AroundKept(cmp, was, s, lo, hi, uflg, hp + 1, h, l, lp);
      }
      if lp - l >= h - hp {
        QuSort(cmp, a, hp + 1, h, uflg, depth - 1);
        AroundSorted(cmp, was, s, a[..], lo, hi, uflg, l, lp, hp + 1, h);
        h := lp;
      } else {
        QuSort(cmp, a, l, lp, uflg, depth - 1);
        AroundSorted(cmp, was, s, a[..], lo, hi, uflg, hp + 1, h, l, lp);
        l := hp + 1;
      }
    }
    AroundDone(cmp, was, a[..], lo, hi, uflg, l, h);
  }

  /** With blanking, exactly one line of every class of equivalent lines is kept. */
  lemma OneKeptPerClass<T(!new)>(cmp: (T, T) -> int, was: seq<Line<T>>, s: seq<Line<T>>, lo: nat, hi: nat,
                                 k: nat) returns (q: nat)
    requires IsPreorder(cmp) && SortedFrom(cmp, was, s, lo, hi, true) && lo <= k < hi
    ensures lo <= q <= k && s[q].kept && cmp(s[q].text, s[k].text) == 0
    ensures forall i :: lo <= i < hi && s[i].kept && cmp(s[i].text, s[k].text) == 0 ==> i == q
    decreases k
  {
    hide IsPreorder, SortedFrom;
    SortedSize(cmp, was, s, lo, hi);
    if s[k].kept {
      q := k;
      KeptAlone(cmp, was, s, lo, hi, k);
    } else {
      BlankAfterSame(cmp, was, s, lo, hi, k);
      q := OneKeptPerClass(cmp, was, s, lo, hi, k - 1);
      forall i | lo <= i < hi
        ensures cmp(s[i].text, s[k - 1].text) == 0 <==> cmp(s[i].text, s[k].text) == 0
      {
        SameSide(cmp, s[i].text, s[k - 1].text, s[k].text);
      }
    }
  }

  lemma SortedSize<T>(cmp: (T, T) -> int, was: seq<Line<T>>, s: seq<Line<T>>, lo: nat, hi: nat)
    requires SortedFrom(cmp, was, s, lo, hi, true)
    ensures hi <= |s|
  {
  }

  /** A kept line is the only kept one of its class. */
  lemma KeptAlone<T(!new)>(cmp: (T, T) -> int, was: seq<Line<T>>, s: seq<Line<T>>, lo: nat, hi: nat, k: nat)
    requires IsPreorder(cmp) && SortedFrom(cmp, was, s, lo, hi, true) && lo <= k < hi && s[k].kept
    ensures cmp(s[k].text, s[k].text) == 0
    ensures forall i :: lo <= i < hi && s[i].kept && cmp(s[i].text, s[k].text) == 0 ==> i == k
  {
    hide IsPreorder, Permuted;
    var x := Texts(s);
    Reflexive(cmp, x[k]);
    forall i | lo <= i < hi && s[i].kept && cmp(s[i].text, s[k].text) == 0
      ensures i == k
    {
      if i < k { StrictBetween(cmp, x, lo, hi, i, k); }
      if k < i { Symmetric(cmp, x[i], x[k]); StrictBetween(cmp, x, lo, hi, k, i); }
    }
  }

  /** A blanked line is equivalent to the one before it. */
  lemma BlankAfterSame<T(!new)>(cmp: (T, T) -> int, was: seq<Line<T>>, s: seq<Line<T>>, lo: nat, hi: nat, k: nat)
    requires SortedFrom(cmp, was, s, lo, hi, true) && lo <= k < hi && !s[k].kept
    ensures lo < k && cmp(s[k - 1].text, s[k].text) == 0
  {
    hide Permuted;
    var x := Texts(s);
    assert lo < k ==> cmp(x[k - 1], x[k]) <= 0;
  }

  lemma StrictBetween<T(!new)>(cmp: (T, T) -> int, x: seq<T>, lo: nat, hi: nat, i: nat, k: nat)
    requires IsPreorder(cmp) && Sorted(cmp, x, lo, hi) && lo <= i < k < hi && cmp(x[k - 1], x[k]) < 0
    ensures cmp(x[i], x[k]) < 0
  {
    if i < k - 1 {
      Chained(cmp, x[i], x[k - 1], x[k]);
    }
  }
}
