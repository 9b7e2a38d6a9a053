/**
 Compilation preserves order: from the start of a compiled program, the ways to
 its end are those of the pattern, in the same order and with the same marks.
 */
module RegexpPriority {
  import opened RegexpSyntax
  import opened RegexpCode
  import opened RegexpWays
  import opened RegexpMachine
  import opened RegexpTermination
  import opened RegexpOrder

  /** The ways through the code of `e` are the ways of `e`. */
  lemma {:induction false} CodeGives(p: seq<Byte>, s: seq<Byte>, lo: nat, e: Regex, d: nat, i: nat)
    requires WellFormed(e) && lo > 0 && At(p, lo, Code(e, d)) && Size(e) + d < SPAN && EndsSoon(p, s, lo, i)
    ensures Gives(p, s, lo, i, Ways(e, s, i), lo + Size(e) + d)
    decreases e, 1, 0
  {
    hide At, Code, Size, EndsSoon, Gives, HasWidth, IsPiece, Ways, StarWays, TripWays;
    match e
    case Leaf(_) => AtomGives(p, s, lo, e, d, i);
    case Chars(_, _) => AtomGives(p, s, lo, e, d, i);
    case Empty => EmptyGives(p, s, lo, d, i);
    case Group(no, a) => GroupGives(p, s, lo, no, a, d, i);
    case Star(r) =>
      LoopWays(r, s, i);
      if Simple(r) { SimpleGives(p, s, lo, e, d, i); } else { StarGives(p, s, lo, r, d, i); }
    case Plus(r) =>
      LoopWays(r, s, i);
      if Simple(r) { SimpleGives(p, s, lo, e, d, i); } else { PlusGives(p, s, lo, r, d, i); }
    case Opt(r) => OptGives(p, s, lo, r, d, i);
    case Cat(a, b) => CatGives(p, s, lo, a, b, d, i);
  }

  lemma LoopWays(r: Regex, s: seq<Byte>, i: nat)
    ensures Ways(Star(r), s, i) == StarWays(r, s, i) && Ways(Plus(r), s, i) == TripWays(r, s, i, Ways(r, s, i))
  {
    hide StarWays, TripWays;
  }

  // ----- atoms -----

  lemma AtomGives(p: seq<Byte>, s: seq<Byte>, lo: nat, e: Regex, d: nat, i: nat)
    requires WellFormed(e) && (e.Leaf? || e.Chars?) && lo > 0 && At(p, lo, Code(e, d)) && Size(e) + d < SPAN
    requires EndsSoon(p, s, lo, i)
    ensures Gives(p, s, lo, i, Ways(e, s, i), lo + Size(e) + d)
  {
    hide At, Code, Size, EndsSoon, Outs, Matches, Consumes, NextOffset, WellFormed, Onward, After;
    var m, x := AtomEnd(e, i), lo + Size(e) + d;
    AtomConsumes(p, s, lo, e, d, i, m);
    NoMark(p, s, lo, e, d, i);
    if Matches(e, s, i, m) {
      OutsPlain(p, s, lo, i, m);
      AfterNone(Outs(p, s, x, m));
      GivesHere(p, s, lo, i, x, m);
    } else {
      forall k: nat
        ensures !Consumes(p, s, lo, i, k)
      {
        AtomConsumes(p, s, lo, e, d, i, k);
        AtomOneEnd(e, s, i, k);
      }
      OutsNone(p, s, lo, i);
      OnwardNone(p, s, x);
    }
  }

  lemma OnwardNone(p: seq<Byte>, s: seq<Byte>, x: int)
    ensures Onward(p, s, [], x) == []
  {
  }

  lemma NoMark(p: seq<Byte>, s: seq<Byte>, lo: nat, e: Regex, d: nat, i: nat)
    requires WellFormed(e) && (e.Leaf? || e.Chars?) && lo > 0 && At(p, lo, Code(e, d)) && Size(e) + d < SPAN
    ensures lo + 3 <= |p| && MarksAt(p[lo], i) == []
  {
    hide At, Code, NextOffset;
    if e.Chars? { CharsAt(p, lo, e, d); } else { LeafAt(p, lo, e, d); }
  }

  lemma EmptyGives(p: seq<Byte>, s: seq<Byte>, lo: nat, d: nat, i: nat)
    requires lo > 0 && At(p, lo, Code(Empty, d)) && Size(Empty) + d < SPAN && EndsSoon(p, s, lo, i)
    ensures Gives(p, s, lo, i, Ways(Empty, s, i), lo + Size(Empty) + d)
  {
    hide At, Code, EndsSoon, Outs, NextOffset, Gives;
    CodeAtom(Empty, d);
    AtNode(p, lo, NOTHING, 3 + d);
    OutsSilent(p, s, lo, i);
    GivesHere(p, s, lo, i, lo + 3 + d, i);
  }

  // ----- concatenation and option -----

  lemma {:induction false} CatGives(p: seq<Byte>, s: seq<Byte>, lo: nat, a: Regex, b: Regex, d: nat, i: nat)
    requires WellFormed(Cat(a, b)) && lo > 0 && At(p, lo, Code(Cat(a, b), d)) && Size(Cat(a, b)) + d < SPAN
    requires EndsSoon(p, s, lo, i)
    ensures Gives(p, s, lo, i, Ways(Cat(a, b), s, i), lo + Size(Cat(a, b)) + d)
    decreases Cat(a, b), 0, 0
  {
    hide At, Code, Size, EndsSoon, Outs, IsPiece, Onward, Gives, Ways, ThenWays;
    CodeCat(a, b, d);
    AtConcat(p, lo, Code(a, 0), Code(b, d));
    var mid, x, ways := lo + Size(a), lo + Size(a) + Size(b) + d, Ways(a, s, i);
    CodeGives(p, s, lo, a, 0, i);
    forall k | 0 <= k < |ways|
      ensures Gives(p, s, mid, ways[k].end, Ways(b, s, ways[k].end), x)
    {
      GivesSoon(p, s, lo, i, ways, mid, k);
      CodeGives(p, s, mid, b, d, ways[k].end);
    }
    OnwardThen(p, s, mid, ways, b, x);
    OutsGive(p, s, lo, i, ways, mid, ThenWays(ways, b, s), x);
    CatWays(a, b, s, i);
  }

  lemma CatWays(a: Regex, b: Regex, s: seq<Byte>, i: nat)
    ensures Ways(Cat(a, b), s, i) == ThenWays(Ways(a, s, i), b, s)
  {
    hide ThenWays;
  }

  lemma {:induction false} OptGives(p: seq<Byte>, s: seq<Byte>, lo: nat, r: Regex, d: nat, i: nat)
    requires WellFormed(Opt(r)) && lo > 0 && At(p, lo, Code(Opt(r), d)) && Size(Opt(r)) + d < SPAN
    requires EndsSoon(p, s, lo, i)
    ensures Gives(p, s, lo, i, Ways(Opt(r), s, i), lo + Size(Opt(r)) + d)
    decreases r, 2, 0
  {
    hide At, Code, Size, EndsSoon, Outs, IsPiece, NextOffset, OptCode, Gives, Ways, HasWidth;
    CodeOpt(r, d);
    OptParts(p, lo, Code(r, 3), 3 + d);
    var b, x := lo + 3 + Size(r), lo + Size(Opt(r)) + d;
    TwoBranches(p, s, lo, b, i);
    CodeGives(p, s, lo + 3, r, 3, i);
    SilentOnward(p, s, lo + 3, i, Ways(r, s, i), b + 3);
    SkipGives(p, s, b, i, x);
    GivesConcat(p, s, lo, i, lo + 3, Ways(r, s, i), b, [Way(i, [])], x);
    OptWays(r, s, i);
  }

  lemma OptWays(r: Regex, s: seq<Byte>, i: nat)
    ensures Ways(Opt(r), s, i) == Ways(r, s, i) + [Way(i, [])]
  {
  }

  /** Two alternatives, the first at `n`, the other at `b`. */
  lemma TwoBranches(p: seq<Byte>, s: seq<Byte>, n: nat, b: nat, i: nat)
    requires EndsSoon(p, s, n, i) && IsNode(p, n) && p[n] == BRANCH && Succ(p, n) == b && IsBranch(p, b)
    ensures EndsSoon(p, s, n + 3, i) && EndsSoon(p, s, b, i)
    ensures Outs(p, s, n, i) == Outs(p, s, n + 3, i) + Outs(p, s, b, i)
  {
    hide EndsSoon, Outs, Succ, IsBranch;
    OutsBranch(p, s, n, i);
  }

  /** The last alternative at `b` is empty. */
  lemma SkipGives(p: seq<Byte>, s: seq<Byte>, b: nat, i: nat, x: int)
    requires EndsSoon(p, s, b, i) && IsNode(p, b) && p[b] == BRANCH && Succ(p, b) == b + 3
    requires IsNode(p, b + 3) && p[b + 3] == NOTHING && Succ(p, b + 3) == x
    ensures Gives(p, s, b, i, [Way(i, [])], x)
  {
    hide EndsSoon, Outs, Succ, Gives;
    OutsBranch(p, s, b, i);
    assert Outs(p, s, b + 3, i) + [] == Outs(p, s, b + 3, i);
    OutsSilent(p, s, b + 3, i);
    GivesHere(p, s, b, i, x, i);
  }

  /** Ways to a silent node are ways to the next one. */
  lemma SilentOnward(p: seq<Byte>, s: seq<Byte>, n: int, i: nat, ways: seq<Way>, y: nat)
    requires Gives(p, s, n, i, ways, y) && IsNode(p, y) && (p[y] == NOTHING || p[y] == BACK)
    ensures Gives(p, s, n, i, ways, Succ(p, y))
  {
    hide EndsSoon, Outs, Succ, Onward;
    forall k | 0 <= k < |ways|
      ensures EndsSoon(p, s, Succ(p, y), ways[k].end)
      ensures Outs(p, s, y, ways[k].end) == Outs(p, s, Succ(p, y), ways[k].end)
    {
      OutsSilent(p, s, y, ways[k].end);
    }
    OnwardSame(p, s, ways, y, Succ(p, y));
  }

  lemma {:induction false} OnwardSame(p: seq<Byte>, s: seq<Byte>, ways: seq<Way>, x: int, y: int)
    requires forall k :: 0 <= k < |ways| ==> Outs(p, s, x, ways[k].end) == Outs(p, s, y, ways[k].end)
    ensures Onward(p, s, ways, x) == Onward(p, s, ways, y)
    decreases |ways|
  {
    hide Outs, After;
    if ways != [] {
      assert ways[0] in ways;
      forall k | 0 <= k < |ways| - 1
        ensures Outs(p, s, x, ways[1..][k].end) == Outs(p, s, y, ways[1..][k].end)
      {
        assert ways[1..][k] == ways[k + 1];
      }
      OnwardSame(p, s, ways[1..], x, y);
    }
  }

  // ----- loops -----

  /** From node `mid` and wherever a trip ends, any number of trips lead on to `x`. */
  ghost predicate TripsGive(p: seq<Byte>, s: seq<Byte>, mid: int, i: nat, trips: seq<Way>, r: Regex, x: int) {
    forall k :: 0 <= k < |trips| ==>
      i < trips[k].end <= |s| && Gives(p, s, mid, trips[k].end, StarWays(r, s, trips[k].end), x)
  }

  lemma TripsRest(p: seq<Byte>, s: seq<Byte>, mid: int, i: nat, trips: seq<Way>, r: Regex, x: int)
    requires TripsGive(p, s, mid, i, trips, r, x) && trips != []
    ensures TripsGive(p, s, mid, i, trips[1..], r, x)
  {
    hide Gives, StarWays;
    forall k | 0 <= k < |trips| - 1
      ensures i < trips[1..][k].end <= |s|
      ensures Gives(p, s, mid, trips[1..][k].end, StarWays(r, s, trips[1..][k].end), x)
    {
      assert trips[1..][k] == trips[k + 1];
    }
  }

  lemma {:induction false} OnwardTrips(p: seq<Byte>, s: seq<Byte>, mid: int, i: nat, trips: seq<Way>, r: Regex, x: int)
    requires TripsGive(p, s, mid, i, trips, r, x)
    ensures Onward(p, s, trips, mid) == Onward(p, s, TripWays(r, s, i, trips), x)
    ensures forall k :: 0 <= k < |TripWays(r, s, i, trips)| ==> EndsSoon(p, s, x, TripWays(r, s, i, trips)[k].end)
    decreases |trips|
  {
    hide Outs, EndsSoon, StarWays, After;
    if trips != [] {
      var w := trips[0];
      var z, rest := StarWays(r, s, w.end), TripWays(r, s, i, trips[1..]);
      assert Gives(p, s, mid, w.end, z, x);
      TripsRest(p, s, mid, i, trips, r, x);
      OnwardTrips(p, s, mid, i, trips[1..], r, x);
      OnwardConcat(p, s, After(w.marks, z), rest, x);
      OnwardAfter(p, s, w.marks, z, x);
      AfterSoon(p, s, w.marks, z, x);
      hide Onward, Gives;
    }
  }

  /** Every trip leads to a later position. */
  lemma TripsForward(r: Regex, s: seq<Byte>, i: nat, k: nat)
    requires WellFormed(r) && HasWidth(r) && i <= |s| && k < |Ways(r, s, i)|
    ensures i < Ways(r, s, i)[k].end <= |s|
  {
    hide Matches, Ways, WellFormed, HasWidth;
    var m := Ways(r, s, i)[k].end;
    assert Leads(Ways(r, s, i), m);
    WaysMatch(r, s, i, m);
    HasWidthSound(r, s, i, m);
    MatchBounds(r, s, i, m);
  }

  lemma {:induction false} StarGives(p: seq<Byte>, s: seq<Byte>, lo: nat, r: Regex, d: nat, i: nat)
    requires WellFormed(Star(r)) && !Simple(r) && lo > 0 && At(p, lo, Code(Star(r), d)) && Size(Star(r)) + d < SPAN
    requires EndsSoon(p, s, lo, i)
    ensures Gives(p, s, lo, i, StarWays(r, s, i), lo + Size(Star(r)) + d)
    decreases r, 2, |s| - i
  {
    hide At, Code, Size, EndsSoon, Outs, IsPiece, NextOffset, StarCode, Gives, Ways, TripWays, Onward, HasWidth, Simple;
    CodeStar(r, d);
    StarParts(p, lo, Code(r, 0), 3 + d);
    var b, x, trips := lo + 3 + Size(r), lo + Size(Star(r)) + d, Ways(r, s, i);
    SoonInside(p, s, lo, i);
    TwoBranches(p, s, lo, b + 3, i);
    CodeGives(p, s, lo + 3, r, 0, i);
    forall k | 0 <= k < |trips|
      ensures i < trips[k].end <= |s| && Gives(p, s, b, trips[k].end, StarWays(r, s, trips[k].end), x)
    {
      TripsForward(r, s, i, k);
      GivesSoon(p, s, lo + 3, i, trips, b, k);
      OutsSilent(p, s, b, trips[k].end);
      StarGives(p, s, lo, r, d, trips[k].end);
      SameGives(p, s, lo, b, trips[k].end, StarWays(r, s, trips[k].end), x);
    }
    OnwardTrips(p, s, b, i, trips, r, x);
    OutsGive(p, s, lo + 3, i, trips, b, TripWays(r, s, i, trips), x);
    SkipGives(p, s, b + 3, i, x);
    GivesConcat(p, s, lo, i, lo + 3, TripWays(r, s, i, trips), b + 3, [Way(i, [])], x);
  }

  lemma GivesSoon(p: seq<Byte>, s: seq<Byte>, n: int, i: nat, ways: seq<Way>, x: int, k: nat)
    requires Gives(p, s, n, i, ways, x) && k < |ways|
    ensures EndsSoon(p, s, x, ways[k].end)
  {
    hide EndsSoon, Outs, Onward;
  }

  lemma SameGives(p: seq<Byte>, s: seq<Byte>, n: int, n': int, i: nat, ways: seq<Way>, x: int)
    requires Gives(p, s, n, i, ways, x) && Outs(p, s, n', i) == Outs(p, s, n, i)
    ensures Gives(p, s, n', i, ways, x)
  {
    hide EndsSoon, Outs, Onward;
  }

  lemma OutsGive(p: seq<Byte>, s: seq<Byte>, n: int, i: nat, ways: seq<Way>, mid: int, more: seq<Way>, x: int)
    requires Gives(p, s, n, i, ways, mid) && Onward(p, s, ways, mid) == Onward(p, s, more, x)
    requires forall k :: 0 <= k < |more| ==> EndsSoon(p, s, x, more[k].end)
    ensures Gives(p, s, n, i, more, x)
  {
    hide EndsSoon, Outs, Onward;
  }

  lemma {:induction false} PlusGives(p: seq<Byte>, s: seq<Byte>, lo: nat, r: Regex, d: nat, i: nat)
    requires WellFormed(Plus(r)) && !Simple(r) && lo > 0 && At(p, lo, Code(Plus(r), d)) && Size(Plus(r)) + d < SPAN
    requires EndsSoon(p, s, lo, i)
    ensures Gives(p, s, lo, i, TripWays(r, s, i, Ways(r, s, i)), lo + Size(Plus(r)) + d)
    decreases r, 2, |s| - i
  {
    hide At, Code, Size, EndsSoon, Outs, IsPiece, NextOffset, PlusCode, Gives, Ways, TripWays, Onward, HasWidth, Simple;
    CodePlus(r, d);
    PlusParts(p, lo, Code(r, 0), 3 + d);
    var b, x, trips := lo + Size(r), lo + Size(Plus(r)) + d, Ways(r, s, i);
    SoonInside(p, s, lo, i);
    CodeGives(p, s, lo, r, 0, i);
    forall k | 0 <= k < |trips|
      ensures i < trips[k].end <= |s| && Gives(p, s, b, trips[k].end, StarWays(r, s, trips[k].end), x)
    {
      var m := trips[k].end;
      TripsForward(r, s, i, k);
      GivesSoon(p, s, lo, i, trips, b, k);
      TwoBranches(p, s, b, b + 6, m);
      OutsSilent(p, s, b + 3, m);
      PlusGives(p, s, lo, r, d, m);
      SameGives(p, s, lo, b + 3, m, TripWays(r, s, m, Ways(r, s, m)), x);
      SkipGives(p, s, b + 6, m, x);
      GivesConcat(p, s, b, m, b + 3, TripWays(r, s, m, Ways(r, s, m)), b + 6, [Way(m, [])], x);
    }
    OnwardTrips(p, s, b, i, trips, r, x);
    OutsGive(p, s, lo, i, trips, b, TripWays(r, s, i, trips), x);
  }

  // ----- loops over one character -----

  /** Where the longest run of characters that match `r` ends. */
  ghost function RunEnd(r: Regex, s: seq<Byte>, i: nat): (k: nat)
    ensures i <= k && (i <= |s| ==> k <= |s|)
    decreases |s| - i
  {
    if i < |s| && Matches(r, s, i, i + 1) then RunEnd(r, s, i + 1) else i
  }

  /** The positions `hi` down to `lo`. */
  function Positions(hi: int, lo: nat): seq<Way>
    decreases hi - lo
  {
    if hi < lo then [] else [Way(hi, [])] + Positions(hi - 1, lo)
  }

  lemma {:induction false} PositionsSnoc(hi: int, lo: nat)
    requires lo <= hi
    ensures Positions(hi, lo) == Positions(hi, lo + 1) + [Way(lo, [])]
    decreases hi - lo
  {
    if lo < hi { PositionsSnoc(hi - 1, lo); }
  }

  lemma {:induction false} PositionsLead(hi: int, lo: nat, m: nat)
    ensures Leads(Positions(hi, lo), m) <==> lo <= m <= hi
    decreases hi - lo
  {
    hide Leads;
    if hi < lo {
      NoWays();
    } else {
      PositionsLead(hi - 1, lo, m);
      LeadsConcat([Way(hi, [])], Positions(hi - 1, lo), m);
      LeadsOne(Way(hi, []), m);
    }
  }

  lemma {:induction false} PositionsOnward(p: seq<Byte>, s: seq<Byte>, hi: int, lo: nat, x: int)
    ensures Onward(p, s, Positions(hi, lo), x) == Down(p, s, x, hi, lo)
    decreases hi - lo
  {
    hide Outs;
    if lo <= hi {
      PositionsOnward(p, s, hi - 1, lo, x);
      AfterNone(Outs(p, s, x, hi));
      assert Positions(hi, lo)[1..] == Positions(hi - 1, lo);
    }
  }

  lemma SimpleTrip(r: Regex, s: seq<Byte>, i: nat)
    requires Simple(r) && i <= |s|
    ensures TripWays(r, s, i, Ways(r, s, i)) == if Matches(r, s, i, i + 1) then StarWays(r, s, i + 1) else []
    ensures Matches(r, s, i, i + 1) ==> i < |s|
  {
    hide Matches, StarWays, After;
    if Matches(r, s, i, i + 1) {
      MatchBounds(r, s, i, i + 1);
      var w := Way(i + 1, []);
      assert Ways(r, s, i) == [w] && [w][1..] == [];
      AfterNone(StarWays(r, s, i + 1));
      assert TripWays(r, s, i, []) == [];
    } else {
      assert Ways(r, s, i) == [];
    }
  }

  /** The ways of a loop over one character, the longest first. */
  lemma {:induction false} SimpleStarWays(r: Regex, s: seq<Byte>, i: nat)
    requires Simple(r) && i <= |s|
    ensures StarWays(r, s, i) == Positions(RunEnd(r, s, i), i)
    ensures TripWays(r, s, i, Ways(r, s, i)) == Positions(RunEnd(r, s, i), i + 1)
    decreases |s| - i
  {
    hide Matches, Ways, TripWays, Simple;
    SimpleTrip(r, s, i);
    if Matches(r, s, i, i + 1) { SimpleStarWays(r, s, i + 1); }
    PositionsSnoc(RunEnd(r, s, i), i);
  }

  lemma SimpleGives(p: seq<Byte>, s: seq<Byte>, lo: nat, e: Regex, d: nat, i: nat)
    requires WellFormed(e) && (e.Star? || e.Plus?) && Simple(e.r)
    requires lo > 0 && At(p, lo, Code(e, d)) && Size(e) + d < SPAN && EndsSoon(p, s, lo, i)
    ensures Gives(p, s, lo, i, Ways(e, s, i), lo + Size(e) + d)
  {
    hide At, Code, Size, EndsSoon, Outs, Matches, NextOffset, WellFormed, Simple, StarWays, TripWays, Positions, Down;
    hide LoopOuts, Onward, RunEnd, ConsumesSome;
    var top, least, x := RunEnd(e.r, s, i), i + (if e.Plus? then 1 else 0), lo + Size(e) + d;
    SoonInside(p, s, lo, i);
    SimpleLoop(p, s, lo, e, d, i, i);
    SimpleStarWays(e.r, s, i);
    forall m: nat
      ensures LoopTo(p, s, lo, i, m) <==> least <= m <= top
    {
      SimpleLoop(p, s, lo, e, d, i, m);
      WaysMatch(e, s, i, m);
      PositionsLead(top, least, m);
    }
    SimpleDown(p, s, lo, i, least, top, x);
  }

  lemma SimpleDown(p: seq<Byte>, s: seq<Byte>, lo: nat, i: nat, least: nat, top: nat, x: nat)
    requires EndsSoon(p, s, lo, i) && IsNode(p, lo) && (p[lo] == STAR || p[lo] == PLUS) && Succ(p, lo) == x
    requires top <= |s| && forall m: nat :: LoopTo(p, s, lo, i, m) <==> least <= m <= top
    ensures Gives(p, s, lo, i, Positions(top, least), x)
  {
    hide EndsSoon, Outs, Succ, LoopTo, Onward, Positions, Down, LoopOuts;
    OutsLoop(p, s, lo, i);
    LoopDown(p, s, lo, i, least, top, |s|);
    PositionsOnward(p, s, top, least, x);
    forall k | 0 <= k < |Positions(top, least)|
      ensures EndsSoon(p, s, x, Positions(top, least)[k].end)
    {
      var m := Positions(top, least)[k].end;
      assert Leads(Positions(top, least), m);
      PositionsLead(top, least, m);
      assert LoopTo(p, s, lo, i, m);
    }
  }

  // ----- groups and alternatives -----

  lemma {:induction false} EnclosedOnward(p: seq<Byte>, s: seq<Byte>, no: nat, i: nat, ways: seq<Way>, y: int, x: int)
    requires forall k :: 0 <= k < |ways| ==>
               Outs(p, s, y, ways[k].end) == After([Mark(false, no, ways[k].end)], Outs(p, s, x, ways[k].end))
    ensures After([Mark(true, no, i)], Onward(p, s, ways, y)) == Onward(p, s, Enclosed(no, i, ways), x)
    decreases |ways|
  {
    hide Outs, After;
    if ways == [] {
      AfterNothing([Mark(true, no, i)]);
    } else {
      var w := ways[0];
      var open, close, outs := [Mark(true, no, i)], [Mark(false, no, w.end)], Outs(p, s, x, w.end);
      forall k | 0 <= k < |ways| - 1
        ensures var m := ways[1..][k].end; Outs(p, s, y, m) == After([Mark(false, no, m)], Outs(p, s, x, m))
      {
        assert ways[1..][k] == ways[k + 1];
      }
      EnclosedOnward(p, s, no, i, ways[1..], y, x);
      AfterConcat(open, After(w.marks, Outs(p, s, y, w.end)), Onward(p, s, ways[1..], y));
      AfterAfter(w.marks, close, outs);
      AfterAfter(open, w.marks + close, outs);
      assert open + (w.marks + close) == open + w.marks + close;
      assert Enclosed(no, i, ways)[1..] == Enclosed(no, i, ways[1..]);
    }
  }

  lemma {:induction false} EnclosedEnds(no: nat, i: nat, ways: seq<Way>, k: nat)
    requires k < |ways|
    ensures |Enclosed(no, i, ways)| == |ways| && Enclosed(no, i, ways)[k].end == ways[k].end
    decreases |ways|
  {
    if |ways| > 1 { EnclosedEnds(no, i, ways[1..], if k > 0 then k - 1 else 0); }
  }

  lemma {:induction false} GroupGives(p: seq<Byte>, s: seq<Byte>, lo: nat, no: nat, a: Alts, d: nat, i: nat)
    requires WellFormed(Group(no, a))
    requires lo > 0 && At(p, lo, Code(Group(no, a), d)) && Size(Group(no, a)) + d < SPAN && EndsSoon(p, s, lo, i)
    ensures Gives(p, s, lo, i, Ways(Group(no, a), s, i), lo + Size(Group(no, a)) + d)
    decreases a, 1, 0
  {
    hide At, Code, Size, AltsCode, NextOffset, AltsWellFormed, GroupCode, EndsSoon, Outs, Gives, AltsWays, Enclosed,
         After;
    CodeGroup(no, a, d);
    GroupParts(p, lo, no, AltsCode(a, 0, 0, Count(a)), 3 + d);
    var y, x, ways := lo + 3 + AltsSize(a), lo + Size(Group(no, a)) + d, AltsWays(a, s, i);
    OutsMark(p, s, lo, i);
    AltsGive(p, s, lo + 3, a, 0, 0, Count(a), i);
    assert Onward(p, s, ways, y) + [] == Onward(p, s, ways, y);
    CloseGives(p, s, lo, no, i, ways, y, x);
  }

  lemma CloseGives(p: seq<Byte>, s: seq<Byte>, lo: nat, no: nat, i: nat, ways: seq<Way>, y: nat, x: int)
    requires 1 <= no < 10 && IsNode(p, y) && p[y] == GroupOp(CLOSE, no) && Succ(p, y) == x
    requires forall k :: 0 <= k < |ways| ==> EndsSoon(p, s, y, ways[k].end)
    requires Outs(p, s, lo, i) == After([Mark(true, no, i)], Onward(p, s, ways, y))
    ensures Gives(p, s, lo, i, Enclosed(no, i, ways), x)
  {
    hide EndsSoon, Outs, Succ, Onward, After, Enclosed, GroupOp;
    forall k | 0 <= k < |ways|
      ensures EndsSoon(p, s, x, ways[k].end)
      ensures Outs(p, s, y, ways[k].end) == After([Mark(false, no, ways[k].end)], Outs(p, s, x, ways[k].end))
    {
      CloseHere(p, s, no, y, x, ways[k].end);
    }
    EnclosedOnward(p, s, no, i, ways, y, x);
    EnclosedSize(no, i, ways);
    forall k | 0 <= k < |ways|
      ensures EndsSoon(p, s, x, Enclosed(no, i, ways)[k].end)
    {
      EnclosedEnds(no, i, ways, k);
    }
  }

  lemma CloseHere(p: seq<Byte>, s: seq<Byte>, no: nat, y: nat, x: int, m: nat)
    requires 1 <= no < 10 && IsNode(p, y) && p[y] == GroupOp(CLOSE, no) && Succ(p, y) == x && EndsSoon(p, s, y, m)
    ensures EndsSoon(p, s, x, m) && Outs(p, s, y, m) == After([Mark(false, no, m)], Outs(p, s, x, m))
  {
    hide EndsSoon, Outs, Succ, After;
    OutsMark(p, s, y, m);
  }

  lemma {:induction false} EnclosedSize(no: nat, i: nat, ways: seq<Way>)
    ensures |Enclosed(no, i, ways)| == |ways|
  {
    if ways != [] { EnclosedSize(no, i, ways[1..]); }
  }

  /** From node `n` and position `i`, the ways lead to node `x`; after them comes the alternative at `y`, if any. */
  ghost predicate GivesThen(p: seq<Byte>, s: seq<Byte>, n: int, i: nat, ways: seq<Way>, x: int, y: int) {
    && (forall k :: 0 <= k < |ways| ==> EndsSoon(p, s, x, ways[k].end))
    && (IsBranch(p, y) ==> EndsSoon(p, s, y, i))
    && Outs(p, s, n, i) == Onward(p, s, ways, x) + NextOuts(p, s, y, i)
  }

  /** The alternatives one after the other. */
  lemma {:induction false} AltsGive(p: seq<Byte>, s: seq<Byte>, lo: nat, a: Alts, dBranch: nat, dBody: nat, c: nat,
                                    i: nat)
    requires AltsWellFormed(a) && c >= Count(a)
    requires lo > 0 && At(p, lo, AltsCode(a, dBranch, dBody, c)) && AltsSize(a) + dBranch + dBody < SPAN
    requires EndsSoon(p, s, lo, i)
    ensures GivesThen(p, s, lo, i, AltsWays(a, s, i), lo + AltsSize(a) + dBody, lo + AltsSize(a) + dBranch)
    decreases a, 0, 0
  {
    hide At, Code, Size, AltsCode, WellFormed, Branched, EndsSoon, Outs, Onward, Ways, GivesThen;
    match a
    case One(b) =>
      AltsCodeOne(b, dBranch, dBody, c);
      BranchGives(p, s, lo, b, dBranch, dBody, i);
    case More(init, b) =>
      MoreParts(p, lo, init, b, dBranch, dBody, c);
      var m, x := lo + AltsSize(init), lo + AltsSize(a) + dBody;
      AltsGive(p, s, lo, init, 0, dBody + 3 + Size(b), c, i);
      BranchHere(p, m, b, dBranch, dBody);
      NextSoon(p, s, lo, i, AltsWays(init, s, i), x, m);
      BranchGives(p, s, m, b, dBranch, dBody, i);
      ThenGives(p, s, lo, i, AltsWays(init, s, i), m, Ways(b, s, i), x, lo + AltsSize(a) + dBranch);
  }

  lemma NextSoon(p: seq<Byte>, s: seq<Byte>, n: int, i: nat, ways: seq<Way>, x: int, y: int)
    requires GivesThen(p, s, n, i, ways, x, y) && IsBranch(p, y)
    ensures EndsSoon(p, s, y, i)
  {
    hide EndsSoon, Outs, Onward;
  }

  lemma ThenGives(p: seq<Byte>, s: seq<Byte>, n: int, i: nat, a: seq<Way>, m: int, b: seq<Way>, x: int, y: int)
    requires GivesThen(p, s, n, i, a, x, m) && IsBranch(p, m) && GivesThen(p, s, m, i, b, x, y)
    ensures GivesThen(p, s, n, i, a + b, x, y)
  {
    hide EndsSoon, Outs, Onward, IsBranch;
    OnwardConcat(p, s, a, b, x);
  }

  lemma BranchHere(p: seq<Byte>, lo: nat, b: Regex, dBranch: nat, d: nat)
    requires lo > 0 && At(p, lo, Branched(3 + Size(b) + dBranch, Code(b, d))) && Size(b) + 3 + dBranch < SPAN
    ensures IsBranch(p, lo)
  {
    hide At, Code, Size, Branched, NextOffset;
    BranchedParts(p, lo, 3 + Size(b) + dBranch, Code(b, d));
  }

  lemma {:induction false} BranchGives(p: seq<Byte>, s: seq<Byte>, lo: nat, b: Regex, dBranch: nat, d: nat, i: nat)
    requires WellFormed(b) && Size(b) + 3 + dBranch + d < SPAN
    requires lo > 0 && At(p, lo, Branched(Link(3 + Size(b), dBranch), Code(b, d))) && EndsSoon(p, s, lo, i)
    ensures GivesThen(p, s, lo, i, Ways(b, s, i), lo + 3 + Size(b) + d, lo + 3 + Size(b) + dBranch)
    decreases b, 2, 0
  {
    hide At, Code, Size, Branched, WellFormed, EndsSoon, Outs, Onward, Ways, NextOffset, NextOuts;
    BranchedParts(p, lo, 3 + Size(b) + dBranch, Code(b, d));
    OutsBranch(p, s, lo, i);
    CodeGives(p, s, lo + 3, b, d, i);
  }

  // ----- whole programs -----

  lemma {:induction false} OnwardEnd(p: seq<Byte>, s: seq<Byte>, ways: seq<Way>, end: nat)
    requires IsNode(p, end) && p[end] == END && forall k :: 0 <= k < |ways| ==> ways[k].end <= |s|
    ensures Onward(p, s, ways, end) == ways
    decreases |ways|
  {
    hide Outs, EndsSoon;
    if ways != [] {
      var w := ways[0];
      OutsEnd(p, s, end, w.end);
      AfterOne(w.marks, Way(w.end, []));
      assert w.marks + [] == w.marks;
      OnwardEnd(p, s, ways[1..], end);
      assert ways == [w] + ways[1..];
    }
  }

  /** Compilation preserves order: the ways through the program are those of the pattern. */
  lemma ProgramGives(p: seq<Byte>, a: Alts, s: seq<Byte>, i: nat)
    requires AltsWellFormed(a) && |Program(a)| < SPAN && At(p, 0, Program(a)) && i <= |s|
    ensures EndsSoon(p, s, 1, i) && Outs(p, s, 1, i) == AltsWays(a, s, i)
  {
    hide AltsWellFormed, AltsCode, AltsSize, At, NextOffset, EndsSoon, Outs, Onward, Node, AltsWays;
    var x, end, ways := AltsCode(a, 0, 0, Count(a)), 1 + AltsSize(a), AltsWays(a, s, i);
    AtConcat(p, 0, [MAGIC], x + Node(END, 0));
    AtConcat(p, 1, x, Node(END, 0));
    AtNode(p, end, END, 0);
    ProgramEnds(p, a, s, i);
    AltsGive(p, s, 1, a, 0, 0, Count(a), i);
    assert Onward(p, s, ways, end) + [] == Onward(p, s, ways, end);
    forall k | 0 <= k < |ways|
      ensures ways[k].end <= |s|
    {
      SoonInside(p, s, end, ways[k].end);
    }
    OnwardEnd(p, s, ways, end);
  }
}
