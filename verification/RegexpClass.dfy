/**
 What a character class of a pattern stands for, in terms of its text: the
 characters that stand in it for themselves and those of its ranges, or with a
 circumflex all others.
 */
module RegexpClass {
  import opened RegexpSyntax
  import opened RegexpCode
  import opened RegexpParser

  /**
   In the class whose text starts at `a`, the minus sign at `x` makes a range: it
   is neither first nor last nor the end of a range itself.
   */
  predicate IsRange(pat: CStr, a: nat, x: nat)
    decreases x
  {
    a < x && x + 1 < |pat| && pat[x] == Char('-') && pat[x + 1] != Char(']') && !IsRange(pat, a, x - 1)
  }

  /** The class ends at `z`: the first bracket after its first character. */
  ghost predicate IsClose(pat: CStr, a: nat, z: nat) {
    a < z < |pat| && pat[z] == Char(']') && forall k :: a < k < z ==> pat[k] != Char(']')
  }

  /** Ranges run upward, and not to the greatest byte. */
  ghost predicate RangesRun(pat: CStr, a: nat, z: nat)
    requires z <= |pat|
  {
    forall x: nat :: a < x && x + 1 < z && IsRange(pat, a, x) ==> pat[x - 1] <= pat[x + 1] < 255
  }

  /** The text from `a` up to `z` names the character `c`, by itself or in a range. */
  ghost predicate Names(pat: CStr, a: nat, z: nat, c: Byte)
    requires z <= |pat|
  {
    || (exists x: nat :: a <= x < z && !IsRange(pat, a, x) && pat[x] == c)
    || (exists x: nat :: a < x && x + 1 < z && IsRange(pat, a, x) && pat[x - 1] <= c <= pat[x + 1])
  }

  lemma NamesOne(pat: CStr, a: nat, p: nat, c: Byte)
    requires a <= p < |pat| && !IsRange(pat, a, p) && (a < p ==> !IsRange(pat, a, p - 1))
    ensures Names(pat, a, p + 1, c) <==> Names(pat, a, p, c) || c == pat[p]
  {
    hide IsRange;
    if Names(pat, a, p + 1, c) && !(exists x: nat :: a <= x < p + 1 && !IsRange(pat, a, x) && pat[x] == c) {
      var x: nat :| a < x && x + 1 < p + 1 && IsRange(pat, a, x) && pat[x - 1] <= c <= pat[x + 1];
      RangeInside(pat, a, x);
    }
  }

  lemma RangeInside(pat: CStr, a: nat, x: nat)
    requires IsRange(pat, a, x)
    ensures a < x && x + 1 < |pat| && !IsRange(pat, a, x - 1) && !IsRange(pat, a, x + 1) && pat[x + 1] != Char(']')
  {
  }

  lemma NamesRange(pat: CStr, a: nat, p: nat, c: Byte)
    requires IsRange(pat, a, p)
    ensures 0 < p && p + 2 <= |pat|
    ensures Names(pat, a, p + 2, c) <==> Names(pat, a, p, c) || pat[p - 1] < c <= pat[p + 1] || c == pat[p + 1]
  {
    hide IsRange;
    RangeInside(pat, a, p);
    if Names(pat, a, p + 2, c) {
      if x: nat :| a <= x < p + 2 && !IsRange(pat, a, x) && pat[x] == c {
        assert x < p || x == p + 1;
      } else {
        var x: nat :| a < x && x + 1 < p + 2 && IsRange(pat, a, x) && pat[x - 1] <= c <= pat[x + 1];
        RangeInside(pat, a, x);
        assert x == p || x + 1 < p;
      }
    }
    if Names(pat, a, p, c) { NamesMore(pat, a, p, p + 2, c); }
  }

  lemma NamesMore(pat: CStr, a: nat, p: nat, q: nat, c: Byte)
    requires p <= q <= |pat| && Names(pat, a, p, c)
    ensures Names(pat, a, q, c)
  {
    hide IsRange;
  }

  /** How far a class is read: the characters collected are those named so far. */
  ghost predicate Collected(pat: CStr, a: nat, p: nat, acc: seq<Byte>) {
    && 0 < a <= p <= |pat| && (a < p ==> !IsRange(pat, a, p - 1))
    && (forall k :: a < k < p ==> pat[k] != Char(']')) && RangesRun(pat, a, p)
    && 0 !in acc && (forall c: Byte :: c in acc <==> Names(pat, a, p, c))
    && (acc == [] <==> p == a) && (p == a ==> Peek(pat, a) != Char(']') && Peek(pat, a) != Char('-'))
  }

  lemma CollectedOne(pat: CStr, a: nat, p: nat, acc: seq<Byte>)
    requires Collected(pat, a, p, acc) && p < |pat| && !IsRange(pat, a, p) && (a < p ==> pat[p] != Char(']'))
    ensures Collected(pat, a, p + 1, acc + [pat[p]])
  {
    hide IsRange, Names;
    assert pat[p] in pat;
    forall c: Byte
      ensures c in acc + [pat[p]] <==> Names(pat, a, p + 1, c)
    {
      NamesOne(pat, a, p, c);
    }
    forall x: nat | a < x && x + 1 < p + 1 && IsRange(pat, a, x)
      ensures pat[x - 1] <= pat[x + 1] < 255
    {
      RangeInside(pat, a, x);
      assert x != p - 1 && x + 1 < p;
    }
  }

  lemma CollectedRange(pat: CStr, a: nat, p: nat, acc: seq<Byte>)
    requires Collected(pat, a, p, acc) && IsRange(pat, a, p) && pat[p - 1] <= pat[p + 1] < 255
    ensures p + 2 <= |pat| && Collected(pat, a, p + 2, acc + Range(pat[p - 1] + 1, pat[p + 1]))
  {
    hide IsRange, Names;
    RangeInside(pat, a, p);
    IsMinus(pat, a, p);
    var more := Range(pat[p - 1] + 1, pat[p + 1]);
    forall c: Byte
      ensures c in acc + more <==> Names(pat, a, p + 2, c)
    {
      NamesRange(pat, a, p, c);
      NamesFirst(pat, a, p, pat[p - 1]);
    }
    forall x: nat | a < x && x + 1 < p + 2 && IsRange(pat, a, x)
      ensures pat[x - 1] <= pat[x + 1] < 255
    {
      RangeInside(pat, a, x);
      assert x == p || x + 1 < p;
    }
  }

  lemma IsMinus(pat: CStr, a: nat, p: nat)
    requires IsRange(pat, a, p)
    ensures pat[p] == Char('-')
  {
  }

  /** The character before a range is named. */
  lemma NamesFirst(pat: CStr, a: nat, p: nat, c: Byte)
    requires a < p <= |pat| && !IsRange(pat, a, p - 1) && pat[p - 1] == c
    ensures Names(pat, a, p, c)
  {
    hide IsRange;
    assert a <= p - 1 < p;
  }

  /** What is made of a class that starts at `a`: its characters are those it names, if its text is in order. */
  ghost predicate IsRead(pat: CStr, a: nat, kind: Kind, r: Outcome<Regex>) {
    if r.Ok? then
      && a < r.pos <= |pat| && IsClose(pat, a, r.pos - 1) && RangesRun(pat, a, r.pos - 1)
      && r.tree.Chars? && r.tree.kind == kind && forall c: Byte :: c in r.tree.cs <==> Names(pat, a, r.pos - 1, c)
    else forall z: nat :: IsClose(pat, a, z) ==> !RangesRun(pat, a, z)
  }

  lemma NeverClosed(pat: CStr, a: nat, kind: Kind, r: Outcome<Regex>)
    requires !r.Ok? && forall k :: a < k < |pat| ==> pat[k] != Char(']')
    ensures IsRead(pat, a, kind, r)
  {
  }

  lemma ClosedHere(pat: CStr, a: nat, p: nat, n: Pos, kind: Kind, acc: seq<Byte>)
    requires Collected(pat, a, p, acc) && a < p < |pat| && pat[p] == Char(']')
    ensures IsRead(pat, a, kind, Ok(p + 1, n, Chars(kind, acc)))
  {
    hide IsRange, Names, RangesRun;
  }

  /** What the rest of a class makes of the characters collected. */
  lemma {:induction false} ScanMeans(pat: CStr, a: nat, p: nat, n: Pos, kind: Kind, acc: seq<Byte>)
    requires Collected(pat, a, p, acc) && kind != Exactly
    ensures IsRead(pat, a, kind, ScanClass(pat, p, n, kind, acc))
    decreases |pat| - p
  {
    hide IsRange, Names, RangesRun, IsRead;
    var r := ScanClass(pat, p, n, kind, acc);
    if p == |pat| {
      NeverClosed(pat, a, kind, r);
    } else {
      var c := pat[p];
      assert c in pat;
      if c == Char(']') {
        ClosedHere(pat, a, p, n, kind, acc);
      } else if c == Char('-') && a < p && Peek(pat, p + 1) != 0 && Peek(pat, p + 1) != Char(']') {
        MakesRange(pat, a, p);
        var b, e := pat[p - 1], pat[p + 1];
        if b > e || e == 255 {
          RangeStops(pat, a, p, kind, r);
        } else {
          CollectedRange(pat, a, p, acc);
          ScanMeans(pat, a, p + 2, n, kind, acc + Range(b + 1, e));
        }
      } else {
        NoRange(pat, a, p);
        CollectedOne(pat, a, p, acc);
        ScanMeans(pat, a, p + 1, n, kind, acc + [c]);
      }
    }
  }

  lemma MakesRange(pat: CStr, a: nat, p: nat)
    requires a < p < |pat| && !IsRange(pat, a, p - 1) && pat[p] == Char('-')
    requires Peek(pat, p + 1) != 0 && Peek(pat, p + 1) != Char(']')
    ensures IsRange(pat, a, p) && p + 1 < |pat|
  {
  }

  lemma NoRange(pat: CStr, a: nat, p: nat)
    requires p < |pat|
    requires pat[p] != Char('-') || p <= a || Peek(pat, p + 1) == 0 || Peek(pat, p + 1) == Char(']')
    ensures !IsRange(pat, a, p)
  {
    if p + 1 < |pat| { assert pat[p + 1] in pat; }
  }

  lemma RangeStops(pat: CStr, a: nat, p: nat, kind: Kind, r: Outcome<Regex>)
    requires IsRange(pat, a, p) && 0 < p && p + 1 < |pat| && (pat[p - 1] > pat[p + 1] || pat[p + 1] == 255)
    requires !r.Ok? && forall k :: a < k < p ==> pat[k] != Char(']')
    ensures IsRead(pat, a, kind, r)
  {
    hide IsRange;
    RangeInside(pat, a, p);
    IsMinus(pat, a, p);
    forall z: nat | IsClose(pat, a, z)
      ensures !RangesRun(pat, a, z)
    {
      assert p + 1 < z;
    }
  }

  /** Where the text of a class starts, and whether it names what does not match. */
  function BodyAt(pat: CStr, p: nat): nat {
    if p < |pat| && pat[p] == Char('^') then p + 1 else p
  }

  lemma CollectedNone(pat: CStr, a: nat)
    requires 0 < a <= |pat| && Peek(pat, a) != Char(']') && Peek(pat, a) != Char('-')
    ensures Collected(pat, a, a, [])
  {
  }

  lemma CollectedFirst(pat: CStr, a: nat)
    requires 0 < a < |pat| && (pat[a] == Char(']') || pat[a] == Char('-'))
    ensures Collected(pat, a, a + 1, [pat[a]])
  {
    assert pat[a] in pat;
    forall c: Byte
      ensures c in [pat[a]] <==> Names(pat, a, a + 1, c)
    {
      assert !IsRange(pat, a, a);
    }
  }

  /**
   A class is accepted exactly if its bracket is closed and its ranges run upward
   below the greatest byte.  It matches one character: one that its text names or,
   after a circumflex, one that it does not name.
   */
  lemma ClassMeans(pat: CStr, p: nat, n: Pos)
    requires 0 < p <= |pat|
    ensures var r, a := ParseClass(pat, p, n), BodyAt(pat, p);
            if r.Ok? then
              && a < r.pos <= |pat| && IsClose(pat, a, r.pos - 1) && RangesRun(pat, a, r.pos - 1)
              && forall s, i: nat, k: nat ::
                   Matches(r.tree, s, i, k) <==> i < |s| && k == i + 1 && (Names(pat, a, r.pos - 1, s[i]) <==> a == p)
            else forall z: nat :: IsClose(pat, a, z) ==> !RangesRun(pat, a, z)
  {
    hide IsRange, Names, RangesRun, ScanClass, IsClose, Collected;
    var a := BodyAt(pat, p);
    var kind := if a == p then AnyOf else AnyBut;
    if Peek(pat, a) == Char(']') || Peek(pat, a) == Char('-') {
      CollectedFirst(pat, a);
      ScanMeans(pat, a, a + 1, n, kind, [pat[a]]);
    } else {
      CollectedNone(pat, a);
      ScanMeans(pat, a, a, n, kind, []);
    }
    var r := ParseClass(pat, p, n);
    if r.Ok? {
      KindMatches(r.tree.kind, r.tree.cs);
    }
  }

  lemma KindMatches(kind: Kind, cs: seq<Byte>)
    requires kind != Exactly
    ensures forall s, i: nat, k: nat ::
              Matches(Chars(kind, cs), s, i, k) <==> i < |s| && k == i + 1 && (s[i] in cs <==> kind == AnyOf)
  {
  }
}
