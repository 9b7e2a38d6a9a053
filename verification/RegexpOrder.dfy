/**
 The order in which runs of a program reach its end if the first choice is
 always tried first, and the proof that a compiled program keeps the order of
 the ways of its pattern, with the marks of the groups passed.
 */
module RegexpOrder {
  import opened RegexpSyntax
  import opened RegexpCode
  import opened RegexpWays
  import opened RegexpMachine
  import opened RegexpTermination

  /** The mark that a node makes at position `i`. */
  function MarksAt(op: Byte, i: nat): seq<Mark> {
    if OPEN < op < OPEN + 10 then [Mark(true, op - OPEN, i)]
    else if CLOSE < op < CLOSE + 10 then [Mark(false, op - CLOSE, i)]
    else []
  }

  /** Repetitions of the loop at node `n` lead from `i` to `m`. */
  ghost predicate LoopTo(p: seq<Byte>, s: seq<Byte>, n: nat, i: nat, m: nat)
    requires n < |p|
  {
    n + 6 <= |p| && ConsumesSome(p, s, Operand(n), MinTrips(p[n]), i, m)
  }

  ghost predicate CanConsume(p: seq<Byte>, s: seq<Byte>, n: nat, i: nat)
    requires IsNode(p, n)
  {
    exists m: nat :: Consumes(p, s, n, i, m)
  }

  /** Where a plain node leads, which is only one position. */
  ghost function ConsumedTo(p: seq<Byte>, s: seq<Byte>, n: nat, i: nat): (m: nat)
    requires IsNode(p, n) && CanConsume(p, s, n, i)
    ensures Consumes(p, s, n, i, m)
  {
    var m: nat :| Consumes(p, s, n, i, m);
    m
  }

  // ----- outcomes of a program in order -----

  /** The ways from node `n` and position `i` to the end of the program, within `k` nodes. */
  ghost function OutsIn(p: seq<Byte>, s: seq<Byte>, n: int, i: nat, k: nat): seq<Way>
    decreases k, 0
  {
    if k == 0 || !IsNode(p, n) then []
    else
      var op, next := p[n], Succ(p, n);
      if op == END then [Way(i, [])]
      else if op == BRANCH then
        OutsIn(p, s, n + 3, i, k - 1) + if IsBranch(p, next) then OutsIn(p, s, next, i, k - 1) else []
      else if op == STAR || op == PLUS then LoopOutsIn(p, s, n, i, |s|, k - 1)
      else if CanConsume(p, s, n, i) then After(MarksAt(op, i), OutsIn(p, s, next, ConsumedTo(p, s, n, i), k - 1))
      else []
  }

  /** The ways behind a loop, the most repetitions first, from position `m` down. */
  ghost function LoopOutsIn(p: seq<Byte>, s: seq<Byte>, n: nat, i: nat, m: nat, k: nat): seq<Way>
    requires IsNode(p, n)
    decreases k, m + 1
  {
    (if LoopTo(p, s, n, i, m) then OutsIn(p, s, Succ(p, n), m, k) else []) +
    if m == 0 then [] else LoopOutsIn(p, s, n, i, m - 1, k)
  }

  /** A plain node matches in one way at most. */
  lemma ConsumesOneWay(p: seq<Byte>, s: seq<Byte>, n: nat, i: nat, m: nat, m': nat)
    requires IsNode(p, n) && Consumes(p, s, n, i, m) && Consumes(p, s, n, i, m')
    ensures m == m'
  {
    if p[n] == EXACTLY { assert |s[i..m]| == |s[i..m']|; }
  }

  lemma OutsInHere(p: seq<Byte>, s: seq<Byte>, n: nat, i: nat, k: nat)
    requires k > 0 && IsNode(p, n)
    ensures var op, next, outs := p[n], Succ(p, n), OutsIn(p, s, n, i, k);
            && (op == END ==> outs == [Way(i, [])])
            && (op == BRANCH ==>
                  outs == OutsIn(p, s, n + 3, i, k - 1)
                          + if IsBranch(p, next) then OutsIn(p, s, next, i, k - 1) else [])
            && (op == STAR || op == PLUS ==> outs == LoopOutsIn(p, s, n, i, |s|, k - 1))
            && (IsPlain(op) && !CanConsume(p, s, n, i) ==> outs == [])
            && (IsPlain(op) && CanConsume(p, s, n, i) ==>
                  outs == After(MarksAt(op, i), OutsIn(p, s, next, ConsumedTo(p, s, n, i), k - 1)))
  {
    hide Succ, Consumes, After, MarksAt, LoopOutsIn;
  }

  lemma LoopToBound(p: seq<Byte>, s: seq<Byte>, n: nat, i: nat, k: nat)
    requires Ends(p, s, n, i, k) && (p[n] == STAR || p[n] == PLUS)
    ensures k > 0 && IsNode(p, n) && forall m: nat :: LoopTo(p, s, n, i, m) ==> Ends(p, s, Succ(p, n), m, k - 1)
  {
    hide Ends, Succ, ConsumesSome;
    BoundHere(p, s, n, i, k);
    LoopBound(p, s, n, i, k);
  }

  lemma {:induction false} OutsLonger(p: seq<Byte>, s: seq<Byte>, n: int, i: nat, k: nat, l: nat)
    requires Ends(p, s, n, i, k) && k <= l
    ensures OutsIn(p, s, n, i, k) == OutsIn(p, s, n, i, l)
    decreases k, 0
  {
    hide Succ, Ends, OutsIn, LoopTo, LoopOutsIn, After, MarksAt, CanConsume;
    BoundHere(p, s, n, i, k);
    OutsInHere(p, s, n, i, k);
    OutsInHere(p, s, n, i, l);
    var op, next := p[n], Succ(p, n);
    if op == BRANCH {
      BranchBound(p, s, n, i, k);
      OutsLonger(p, s, n + 3, i, k - 1, l - 1);
      if IsBranch(p, next) { OutsLonger(p, s, next, i, k - 1, l - 1); }
    } else if op == STAR || op == PLUS {
      LoopToBound(p, s, n, i, k);
      LoopOutsLonger(p, s, n, i, |s|, k - 1, l - 1);
    } else if op != END && CanConsume(p, s, n, i) {
      PlainBound(p, s, n, i, ConsumedTo(p, s, n, i), k);
      OutsLonger(p, s, next, ConsumedTo(p, s, n, i), k - 1, l - 1);
    }
  }

  lemma {:induction false} LoopOutsLonger(p: seq<Byte>, s: seq<Byte>, n: nat, i: nat, m: nat, k: nat, l: nat)
    requires IsNode(p, n) && k <= l
    requires forall m: nat :: LoopTo(p, s, n, i, m) ==> Ends(p, s, Succ(p, n), m, k)
    ensures LoopOutsIn(p, s, n, i, m, k) == LoopOutsIn(p, s, n, i, m, l)
    decreases k, m + 1
  {
    hide Succ, LoopTo;
    if LoopTo(p, s, n, i, m) { OutsLonger(p, s, Succ(p, n), m, k, l); }
    if m > 0 { LoopOutsLonger(p, s, n, i, m - 1, k, l); }
  }

  /** The ways from node `n` and position `i` to the end of the program. */
  ghost function Outs(p: seq<Byte>, s: seq<Byte>, n: int, i: nat): seq<Way> {
    if EndsSoon(p, s, n, i) then
      var k: nat :| Ends(p, s, n, i, k);
      OutsIn(p, s, n, i, k)
    else []
  }

  lemma OutsAre(p: seq<Byte>, s: seq<Byte>, n: int, i: nat, k: nat)
    requires Ends(p, s, n, i, k)
    ensures EndsSoon(p, s, n, i) && Outs(p, s, n, i) == OutsIn(p, s, n, i, k)
  {
    hide Ends, OutsIn;
    var l: nat :| Ends(p, s, n, i, l) && Outs(p, s, n, i) == OutsIn(p, s, n, i, l);
    if k <= l { OutsLonger(p, s, n, i, k, l); } else { OutsLonger(p, s, n, i, l, k); }
  }

  // ----- single nodes -----

  lemma OutsEnd(p: seq<Byte>, s: seq<Byte>, n: nat, i: nat)
    requires IsNode(p, n) && p[n] == END && i <= |s|
    ensures EndsSoon(p, s, n, i) && Outs(p, s, n, i) == [Way(i, [])]
  {
    assert Ends(p, s, n, i, 1);
    OutsAre(p, s, n, i, 1);
  }

  /** The ways from the next alternative, if there is one. */
  ghost function NextOuts(p: seq<Byte>, s: seq<Byte>, n: int, i: nat): seq<Way> {
    if IsBranch(p, n) then Outs(p, s, n, i) else []
  }

  lemma OutsBranch(p: seq<Byte>, s: seq<Byte>, n: nat, i: nat)
    requires EndsSoon(p, s, n, i) && IsNode(p, n) && p[n] == BRANCH
    ensures EndsSoon(p, s, n + 3, i) && (IsBranch(p, Succ(p, n)) ==> EndsSoon(p, s, Succ(p, n), i))
    ensures Outs(p, s, n, i) == Outs(p, s, n + 3, i) + NextOuts(p, s, Succ(p, n), i)
  {
    hide Succ, Outs;
    hide Ends, OutsIn;
    var k: nat :| Ends(p, s, n, i, k);
    BranchBound(p, s, n, i, k);
    OutsInHere(p, s, n, i, k);
    OutsAre(p, s, n, i, k);
    OutsAre(p, s, n + 3, i, k - 1);
    if IsBranch(p, Succ(p, n)) { OutsAre(p, s, Succ(p, n), i, k - 1); }
  }

  lemma OutsPlain(p: seq<Byte>, s: seq<Byte>, n: nat, i: nat, m: nat)
    requires EndsSoon(p, s, n, i) && IsNode(p, n) && IsPlain(p[n]) && Consumes(p, s, n, i, m)
    ensures EndsSoon(p, s, Succ(p, n), m)
    ensures Outs(p, s, n, i) == After(MarksAt(p[n], i), Outs(p, s, Succ(p, n), m))
  {
    hide Succ, Outs, Consumes, After;
    hide Ends, OutsIn;
    var k: nat :| Ends(p, s, n, i, k);
    PlainBound(p, s, n, i, m, k);
    OutsInHere(p, s, n, i, k);
    OutsAre(p, s, n, i, k);
    OutsAre(p, s, Succ(p, n), m, k - 1);
    ConsumesOneWay(p, s, n, i, m, ConsumedTo(p, s, n, i));
  }

  lemma OutsNone(p: seq<Byte>, s: seq<Byte>, n: nat, i: nat)
    requires EndsSoon(p, s, n, i) && IsNode(p, n) && IsPlain(p[n]) && forall m: nat :: !Consumes(p, s, n, i, m)
    ensures Outs(p, s, n, i) == []
  {
    hide Succ, Outs, Consumes, Ends, OutsIn;
    var k: nat :| Ends(p, s, n, i, k);
    BoundHere(p, s, n, i, k);
    OutsInHere(p, s, n, i, k);
    OutsAre(p, s, n, i, k);
  }

  /** A node that matches the empty string and makes no mark. */
  lemma OutsSilent(p: seq<Byte>, s: seq<Byte>, n: nat, i: nat)
    requires EndsSoon(p, s, n, i) && IsNode(p, n) && (p[n] == NOTHING || p[n] == BACK)
    ensures EndsSoon(p, s, Succ(p, n), i) && Outs(p, s, n, i) == Outs(p, s, Succ(p, n), i)
  {
    hide Succ, Outs, EndsSoon, After;
    SoonInside(p, s, n, i);
    OutsPlain(p, s, n, i, i);
    AfterNone(Outs(p, s, Succ(p, n), i));
  }

  lemma OutsMark(p: seq<Byte>, s: seq<Byte>, n: nat, i: nat)
    requires EndsSoon(p, s, n, i) && IsNode(p, n) && IsMark(p[n])
    ensures EndsSoon(p, s, Succ(p, n), i) && Outs(p, s, n, i) == After(MarksAt(p[n], i), Outs(p, s, Succ(p, n), i))
  {
    hide Succ, Outs, EndsSoon, After;
    SoonInside(p, s, n, i);
    OutsPlain(p, s, n, i, i);
  }

  lemma SoonInside(p: seq<Byte>, s: seq<Byte>, n: int, i: nat)
    requires EndsSoon(p, s, n, i)
    ensures i <= |s| && IsNode(p, n)
  {
  }

  /** The ways behind a loop, from position `m` down. */
  ghost function LoopOuts(p: seq<Byte>, s: seq<Byte>, n: nat, i: nat, m: nat): seq<Way>
    requires IsNode(p, n)
  {
    (if LoopTo(p, s, n, i, m) then Outs(p, s, Succ(p, n), m) else []) +
    if m == 0 then [] else LoopOuts(p, s, n, i, m - 1)
  }

  lemma {:induction false} LoopOutsAre(p: seq<Byte>, s: seq<Byte>, n: nat, i: nat, m: nat, k: nat)
    requires IsNode(p, n) && forall m: nat :: LoopTo(p, s, n, i, m) ==> Ends(p, s, Succ(p, n), m, k)
    ensures LoopOuts(p, s, n, i, m) == LoopOutsIn(p, s, n, i, m, k)
  {
    hide Succ, LoopTo, Outs, OutsIn;
    if LoopTo(p, s, n, i, m) { OutsAre(p, s, Succ(p, n), m, k); }
    if m > 0 { LoopOutsAre(p, s, n, i, m - 1, k); }
  }

  lemma OutsLoop(p: seq<Byte>, s: seq<Byte>, n: nat, i: nat)
    requires EndsSoon(p, s, n, i) && IsNode(p, n) && (p[n] == STAR || p[n] == PLUS)
    ensures forall m: nat :: LoopTo(p, s, n, i, m) ==> EndsSoon(p, s, Succ(p, n), m)
    ensures Outs(p, s, n, i) == LoopOuts(p, s, n, i, |s|)
  {
    hide Succ, Outs, LoopOuts, LoopOutsIn, LoopTo, Ends, OutsIn;
    var k: nat :| Ends(p, s, n, i, k);
    LoopToBound(p, s, n, i, k);
    OutsInHere(p, s, n, i, k);
    OutsAre(p, s, n, i, k);
    LoopOutsAre(p, s, n, i, |s|, k - 1);
  }

  /** The ways from node `x` and the positions `hi` down to `lo`. */
  ghost function Down(p: seq<Byte>, s: seq<Byte>, x: int, hi: int, lo: nat): seq<Way>
    decreases hi - lo
  {
    if hi < lo then [] else Outs(p, s, x, hi) + Down(p, s, x, hi - 1, lo)
  }

  lemma {:induction false} DownSnoc(p: seq<Byte>, s: seq<Byte>, x: int, hi: int, lo: nat)
    requires lo <= hi
    ensures Down(p, s, x, hi, lo) == Down(p, s, x, hi, lo + 1) + Outs(p, s, x, lo)
    decreases hi - lo
  {
    hide Outs;
    if lo < hi {
      DownSnoc(p, s, x, hi - 1, lo);
      assert (Outs(p, s, x, hi) + Down(p, s, x, hi - 1, lo + 1)) + Outs(p, s, x, lo)
          == Outs(p, s, x, hi) + (Down(p, s, x, hi - 1, lo + 1) + Outs(p, s, x, lo));
    } else {
      assert Down(p, s, x, hi - 1, lo) == [] && Down(p, s, x, hi, lo + 1) == [];
    }
  }

  lemma {:induction false} LoopDown(p: seq<Byte>, s: seq<Byte>, n: nat, i: nat, lo: nat, top: nat, m: nat)
    requires IsNode(p, n) && forall m: nat :: LoopTo(p, s, n, i, m) <==> lo <= m <= top
    ensures LoopOuts(p, s, n, i, m) == Down(p, s, Succ(p, n), if m < top then m else top, lo)
    decreases m
  {
    hide Succ, LoopTo, Outs;
    if m > 0 { LoopDown(p, s, n, i, lo, top, m - 1); }
    if m == 0 { assert Down(p, s, Succ(p, n), -1, lo) == []; }
  }

  // ----- ways through code and on -----

  /** Ways to node `x`, each followed by the ways on from there. */
  ghost function Onward(p: seq<Byte>, s: seq<Byte>, ways: seq<Way>, x: int): seq<Way> {
    if ways == [] then []
    else After(ways[0].marks, Outs(p, s, x, ways[0].end)) + Onward(p, s, ways[1..], x)
  }

  /** From node `n` and position `i`, the ways lead to node `x`, in this order. */
  ghost predicate Gives(p: seq<Byte>, s: seq<Byte>, n: int, i: nat, ways: seq<Way>, x: int) {
    && (forall k :: 0 <= k < |ways| ==> EndsSoon(p, s, x, ways[k].end))
    && Outs(p, s, n, i) == Onward(p, s, ways, x)
  }

  lemma {:induction false} OnwardConcat(p: seq<Byte>, s: seq<Byte>, a: seq<Way>, b: seq<Way>, x: int)
    ensures Onward(p, s, a + b, x) == Onward(p, s, a, x) + Onward(p, s, b, x)
    decreases |a|
  {
    hide Outs, After;
    if a == [] {
      assert a + b == b;
    } else {
      OnwardConcat(p, s, a[1..], b, x);
      assert (a + b)[1..] == a[1..] + b;
    }
  }

  lemma {:induction false} OnwardAfter(p: seq<Byte>, s: seq<Byte>, marks: seq<Mark>, ways: seq<Way>, x: int)
    ensures Onward(p, s, After(marks, ways), x) == After(marks, Onward(p, s, ways, x))
    decreases |ways|
  {
    hide Outs;
    if ways != [] {
      var w := ways[0];
      OnwardAfter(p, s, marks, ways[1..], x);
      AfterAfter(marks, w.marks, Outs(p, s, x, w.end));
      AfterConcat(marks, After(w.marks, Outs(p, s, x, w.end)), Onward(p, s, ways[1..], x));
      assert After(marks, ways)[1..] == After(marks, ways[1..]);
    }
  }

  lemma OnwardOne(p: seq<Byte>, s: seq<Byte>, w: Way, x: int)
    ensures Onward(p, s, [w], x) == After(w.marks, Outs(p, s, x, w.end))
  {
    hide Outs, After;
    assert [w][1..] == [];
    assert Onward(p, s, [], x) == [];
  }

  lemma {:induction false} AfterEnds(marks: seq<Mark>, ways: seq<Way>, k: nat)
    requires k < |ways|
    ensures After(marks, ways)[k].end == ways[k].end
  {
    if k > 0 { AfterEnds(marks, ways[1..], k - 1); }
  }

  lemma GivesConcat(p: seq<Byte>, s: seq<Byte>, n: int, i: nat, n1: int, a: seq<Way>, n2: int, b: seq<Way>, x: int)
    requires Gives(p, s, n1, i, a, x) && Gives(p, s, n2, i, b, x)
    requires Outs(p, s, n, i) == Outs(p, s, n1, i) + Outs(p, s, n2, i)
    ensures Gives(p, s, n, i, a + b, x)
  {
    hide Outs, Onward, EndsSoon;
    OnwardConcat(p, s, a, b, x);
  }

  lemma GivesHere(p: seq<Byte>, s: seq<Byte>, n: int, i: nat, x: int, k: nat)
    requires EndsSoon(p, s, x, k) && Outs(p, s, n, i) == Outs(p, s, x, k)
    ensures Gives(p, s, n, i, [Way(k, [])], x)
  {
    hide Outs, EndsSoon, Onward, After;
    OnwardOne(p, s, Way(k, []), x);
    AfterNone(Outs(p, s, x, k));
  }

  /** Ways through two pieces of code, one after the other. */
  ghost predicate GivesEach(p: seq<Byte>, s: seq<Byte>, mid: int, ways: seq<Way>, b: Regex, x: int) {
    forall k :: 0 <= k < |ways| ==> Gives(p, s, mid, ways[k].end, Ways(b, s, ways[k].end), x)
  }

  lemma {:induction false} OnwardThen(p: seq<Byte>, s: seq<Byte>, mid: int, ways: seq<Way>, b: Regex, x: int)
    requires GivesEach(p, s, mid, ways, b, x)
    ensures Onward(p, s, ways, mid) == Onward(p, s, ThenWays(ways, b, s), x)
    ensures forall k :: 0 <= k < |ThenWays(ways, b, s)| ==> EndsSoon(p, s, x, ThenWays(ways, b, s)[k].end)
    decreases |ways|
  {
    hide Outs, EndsSoon, Ways, After;
    if ways != [] {
      var w := ways[0];
      var z, rest := Ways(b, s, w.end), ThenWays(ways[1..], b, s);
      assert Gives(p, s, mid, w.end, z, x);
      EachRest(p, s, mid, ways, b, x);
      OnwardThen(p, s, mid, ways[1..], b, x);
      OnwardConcat(p, s, After(w.marks, z), rest, x);
      OnwardAfter(p, s, w.marks, z, x);
      AfterSoon(p, s, w.marks, z, x);
      hide Onward, Gives;
    }
  }

  lemma EachRest(p: seq<Byte>, s: seq<Byte>, mid: int, ways: seq<Way>, b: Regex, x: int)
    requires GivesEach(p, s, mid, ways, b, x) && ways != []
    ensures GivesEach(p, s, mid, ways[1..], b, x)
  {
    hide Gives;
    forall k | 0 <= k < |ways| - 1
      ensures Gives(p, s, mid, ways[1..][k].end, Ways(b, s, ways[1..][k].end), x)
    {
      assert ways[1..][k] == ways[k + 1];
    }
  }

  lemma AfterSoon(p: seq<Byte>, s: seq<Byte>, marks: seq<Mark>, ways: seq<Way>, x: int)
    requires forall k :: 0 <= k < |ways| ==> EndsSoon(p, s, x, ways[k].end)
    ensures forall k :: 0 <= k < |ways| ==> EndsSoon(p, s, x, After(marks, ways)[k].end)
  {
    hide EndsSoon;
    forall k | 0 <= k < |ways|
      ensures EndsSoon(p, s, x, After(marks, ways)[k].end)
    {
      AfterEnds(marks, ways, k);
    }
  }
}
