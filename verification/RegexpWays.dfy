/**
 The ways in which a pattern matches from a position, in the order in which a
 backtracking matcher tries them: alternatives in the order written, another
 trip round a loop before leaving it, an option before its absence.  A way is
 the position it leads to and the marks of the groups it passes.
 */
module RegexpWays {
  import opened RegexpSyntax

  /** A parenthesis of group number `no` passed at position `at`. */
  datatype Mark = Mark(open: bool, no: nat, at: nat)

  datatype Way = Way(end: nat, marks: seq<Mark>)

  /** Ways on after `marks` were passed. */
  function After(marks: seq<Mark>, ways: seq<Way>): (r: seq<Way>)
    ensures |r| == |ways|
  {
    if ways == [] then [] else [Way(ways[0].end, marks + ways[0].marks)] + After(marks, ways[1..])
  }

  /** Ways through a group entered at position `i`. */
  function Enclosed(no: nat, i: nat, ways: seq<Way>): seq<Way> {
    if ways == [] then []
    else
      var w := ways[0];
      [Way(w.end, [Mark(true, no, i)] + w.marks + [Mark(false, no, w.end)])] + Enclosed(no, i, ways[1..])
  }

  /** The end of the only match that an atom can have from position `i`. */
  function AtomEnd(e: Regex, i: nat): nat
    requires e.Leaf? || e.Chars?
  {
    match e
    case Leaf(t) => if t.AnyChar? then i + 1 else i
    case Chars(kind, cs) => if kind.Exactly? then i + |cs| else i + 1
  }

  ghost function Ways(e: Regex, s: seq<Byte>, i: nat): seq<Way>
    decreases e, 0, 0
  {
    match e
    case Leaf(_) => if Matches(e, s, i, AtomEnd(e, i)) then [Way(AtomEnd(e, i), [])] else []
    case Chars(_, _) => if Matches(e, s, i, AtomEnd(e, i)) then [Way(AtomEnd(e, i), [])] else []
    case Empty => [Way(i, [])]
    case Group(no, a) => Enclosed(no, i, AltsWays(a, s, i))
    case Star(r) => StarWays(r, s, i)
    case Plus(r) => TripWays(r, s, i, Ways(r, s, i))
    case Opt(r) => Ways(r, s, i) + [Way(i, [])]
    case Cat(a, b) => ThenWays(Ways(a, s, i), b, s)
  }

  /** One more trip, as long as it leads on, or none. */
  ghost function StarWays(r: Regex, s: seq<Byte>, i: nat): seq<Way>
    decreases r, if i <= |s| then 2 * (|s| - i) + 2 else 2, 0
  {
    TripWays(r, s, i, Ways(r, s, i)) + [Way(i, [])]
  }

  /** The trips `trips` from position `i`, each followed by any number of others. */
  ghost function TripWays(r: Regex, s: seq<Byte>, i: nat, trips: seq<Way>): seq<Way>
    decreases r, if i <= |s| then 2 * (|s| - i) + 1 else 1, |trips|
  {
    if trips == [] then []
    else
      var w := trips[0];
      (if i < w.end <= |s| then After(w.marks, StarWays(r, s, w.end)) else []) + TripWays(r, s, i, trips[1..])
  }

  ghost function ThenWays(ways: seq<Way>, b: Regex, s: seq<Byte>): seq<Way>
    decreases b, 1, |ways|
  {
    if ways == [] then [] else After(ways[0].marks, Ways(b, s, ways[0].end)) + ThenWays(ways[1..], b, s)
  }

  ghost function AltsWays(a: Alts, s: seq<Byte>, i: nat): seq<Way>
    decreases a, 0, 0
  {
    match a
    case One(b) => Ways(b, s, i)
    case More(init, b) => AltsWays(init, s, i) + Ways(b, s, i)
  }

  // ----- the positions recorded for groups -----

  /** No position is recorded. */
  const NONE: seq<int> := [-1, -1, -1, -1, -1, -1, -1, -1, -1, -1]

  /** The positions recorded on the way back from the end of a match: a later mark of a group wins. */
  function Recorded(marks: seq<Mark>, open: bool): (r: seq<int>)
    ensures |r| == NSUBEXP
  {
    if marks == [] then NONE
    else
      var r, m := Recorded(marks[1..], open), marks[0];
      if m.open == open && m.no < NSUBEXP && r[m.no] < 0 then r[m.no := m.at] else r
  }

  /** What is recorded for a group is the position of its last mark. */
  lemma {:induction false} RecordedLast(marks: seq<Mark>, open: bool, no: nat)
    requires no < NSUBEXP
    ensures var q := Recorded(marks, open)[no];
            if q < 0 then forall k :: 0 <= k < |marks| ==> !(marks[k].open == open && marks[k].no == no)
            else exists k :: 0 <= k < |marks| && marks[k] == Mark(open, no, q) && IsLast(marks, k)
  {
    if marks != [] {
      var rest := marks[1..];
      RecordedLast(rest, open, no);
      var q := Recorded(rest, open)[no];
      if q >= 0 {
        var k :| 0 <= k < |rest| && rest[k] == Mark(open, no, q) && IsLast(rest, k);
        LaterLast(marks, k);
        assert marks[k + 1] == Mark(open, no, q);
      } else if marks[0].open == open && marks[0].no == no {
        OnlyLast(marks);
      }
    }
  }

  /** No later mark is of the same kind and group. */
  ghost predicate IsLast(marks: seq<Mark>, k: nat)
    requires k < |marks|
  {
    forall l :: k < l < |marks| ==> marks[l].open != marks[k].open || marks[l].no != marks[k].no
  }

  lemma LaterLast(marks: seq<Mark>, k: nat)
    requires marks != [] && k < |marks| - 1 && IsLast(marks[1..], k)
    ensures IsLast(marks, k + 1)
  {
    forall l | k + 1 < l < |marks|
      ensures marks[l].open != marks[k + 1].open || marks[l].no != marks[k + 1].no
    {
      assert marks[1..][l - 1] == marks[l] && marks[1..][k] == marks[k + 1];
    }
  }

  lemma OnlyLast(marks: seq<Mark>)
    requires marks != []
    requires forall k :: 0 <= k < |marks| - 1 ==>
               !(marks[1..][k].open == marks[0].open && marks[1..][k].no == marks[0].no)
    ensures IsLast(marks, 0)
  {
    forall l | 0 < l < |marks|
      ensures marks[l].open != marks[0].open || marks[l].no != marks[0].no
    {
      assert marks[1..][l - 1] == marks[l];
    }
  }

  // ----- lists of ways -----

  lemma {:induction false} AfterConcat(marks: seq<Mark>, x: seq<Way>, y: seq<Way>)
    ensures After(marks, x + y) == After(marks, x) + After(marks, y)
    decreases |x|
  {
    hide After;
    if x == [] {
      assert x + y == y;
      AfterNothing(marks);
    } else {
      AfterConcat(marks, x[1..], y);
      assert (x + y)[1..] == x[1..] + y;
      AfterMore(marks, x + y);
      AfterMore(marks, x);
    }
  }

  lemma AfterNothing(marks: seq<Mark>)
    ensures After(marks, []) == []
  {
  }

  lemma AfterMore(marks: seq<Mark>, ways: seq<Way>)
    requires ways != []
    ensures After(marks, ways) == [Way(ways[0].end, marks + ways[0].marks)] + After(marks, ways[1..])
  {
  }

  lemma {:induction false} AfterAfter(m: seq<Mark>, l: seq<Mark>, ways: seq<Way>)
    ensures After(m, After(l, ways)) == After(m + l, ways)
  {
    if ways != [] {
      AfterAfter(m, l, ways[1..]);
      var w := ways[0];
      assert m + (l + w.marks) == (m + l) + w.marks;
      assert After(l, ways)[1..] == After(l, ways[1..]);
    }
  }

  lemma {:induction false} AfterNone(ways: seq<Way>)
    ensures After([], ways) == ways
  {
    if ways != [] {
      AfterNone(ways[1..]);
      assert [] + ways[0].marks == ways[0].marks;
      assert ways == [ways[0]] + ways[1..];
    }
  }

  lemma AfterOne(marks: seq<Mark>, w: Way)
    ensures After(marks, [w]) == [Way(w.end, marks + w.marks)]
  {
    assert [w][1..] == [];
  }

  lemma {:induction false} ThenConcat(x: seq<Way>, y: seq<Way>, b: Regex, s: seq<Byte>)
    ensures ThenWays(x + y, b, s) == ThenWays(x, b, s) + ThenWays(y, b, s)
    decreases |x|
  {
    hide Ways, After;
    if x == [] {
      assert x + y == y;
    } else {
      ThenConcat(x[1..], y, b, s);
      assert (x + y)[1..] == x[1..] + y;
    }
  }

  lemma {:induction false} ThenAfter(marks: seq<Mark>, x: seq<Way>, b: Regex, s: seq<Byte>)
    ensures ThenWays(After(marks, x), b, s) == After(marks, ThenWays(x, b, s))
    decreases |x|
  {
    hide Ways;
    if x != [] {
      var w, z := x[0], Ways(b, s, x[0].end);
      ThenAfter(marks, x[1..], b, s);
      AfterAfter(marks, w.marks, z);
      AfterConcat(marks, After(w.marks, z), ThenWays(x[1..], b, s));
      assert After(marks, x)[1..] == After(marks, x[1..]);
    }
  }

  lemma ThenOne(w: Way, b: Regex, s: seq<Byte>)
    ensures ThenWays([w], b, s) == After(w.marks, Ways(b, s, w.end))
  {
    hide Ways;
    assert [w][1..] == [];
    assert ThenWays([], b, s) == [];
  }

  // ----- the ways are the matches -----

  /** One of the ways ends at `k`. */
  ghost predicate Leads(ways: seq<Way>, k: nat) {
    exists n :: 0 <= n < |ways| && ways[n].end == k
  }

  lemma LeadsConcat(x: seq<Way>, y: seq<Way>, k: nat)
    ensures Leads(x + y, k) <==> Leads(x, k) || Leads(y, k)
  {
    if Leads(x, k) {
      var n :| 0 <= n < |x| && x[n].end == k;
      assert (x + y)[n].end == k;
    }
    if Leads(y, k) {
      var n :| 0 <= n < |y| && y[n].end == k;
      assert (x + y)[|x| + n].end == k;
    }
  }

  lemma LeadsFirst(ways: seq<Way>, k: nat)
    requires ways != []
    ensures Leads(ways, k) <==> ways[0].end == k || Leads(ways[1..], k)
  {
    LeadsConcat([ways[0]], ways[1..], k);
    assert ways == [ways[0]] + ways[1..];
    assert Leads([ways[0]], k) <==> [ways[0]][0].end == k;
  }

  lemma LeadsOne(w: Way, k: nat)
    ensures Leads([w], k) <==> w.end == k
  {
    assert [w][0] == w;
  }

  lemma {:induction false} LeadsAfter(marks: seq<Mark>, ways: seq<Way>, k: nat)
    ensures Leads(After(marks, ways), k) <==> Leads(ways, k)
  {
    if ways != [] {
      LeadsAfter(marks, ways[1..], k);
      LeadsFirst(ways, k);
      LeadsFirst(After(marks, ways), k);
    }
  }

  lemma {:induction false} LeadsEnclosed(no: nat, i: nat, ways: seq<Way>, k: nat)
    ensures Leads(Enclosed(no, i, ways), k) <==> Leads(ways, k)
  {
    if ways != [] {
      LeadsEnclosed(no, i, ways[1..], k);
      LeadsFirst(ways, k);
      LeadsFirst(Enclosed(no, i, ways), k);
    }
  }

  lemma {:induction false} LeadsThen(ways: seq<Way>, b: Regex, s: seq<Byte>, k: nat)
    ensures Leads(ThenWays(ways, b, s), k) <==> exists m: nat :: Leads(ways, m) && Leads(Ways(b, s, m), k)
    decreases |ways|
  {
    hide Leads, Ways;
    if ways == [] {
      NoWays();
    } else {
      var w := ways[0];
      LeadsThen(ways[1..], b, s, k);
      LeadsConcat(After(w.marks, Ways(b, s, w.end)), ThenWays(ways[1..], b, s), k);
      LeadsAfter(w.marks, Ways(b, s, w.end), k);
      forall m: nat
        ensures Leads(ways, m) <==> w.end == m || Leads(ways[1..], m)
      {
        LeadsFirst(ways, m);
      }
      assert Leads(ways, w.end);
    }
  }

  lemma NoWays()
    ensures forall m: nat :: !Leads([], m)
  {
  }

  lemma {:induction false} LeadsTrips(r: Regex, s: seq<Byte>, i: nat, trips: seq<Way>, k: nat)
    ensures Leads(TripWays(r, s, i, trips), k) <==>
              exists m: nat :: Leads(trips, m) && i < m <= |s| && Leads(StarWays(r, s, m), k)
    decreases |trips|
  {
    hide Leads, StarWays;
    NoWays();
    if trips != [] {
      var w := trips[0];
      var x := if i < w.end <= |s| then After(w.marks, StarWays(r, s, w.end)) else [];
      LeadsTrips(r, s, i, trips[1..], k);
      LeadsConcat(x, TripWays(r, s, i, trips[1..]), k);
      LeadsAfter(w.marks, StarWays(r, s, w.end), k);
      forall m: nat
        ensures Leads(trips, m) <==> w.end == m || Leads(trips[1..], m)
      {
        LeadsFirst(trips, m);
      }
      assert Leads(trips, w.end);
    }
  }

  /** The ways lead exactly to where the pattern matches. */
  lemma {:induction false} WaysMatch(e: Regex, s: seq<Byte>, i: nat, k: nat)
    requires WellFormed(e) && i <= |s|
    ensures Leads(Ways(e, s, i), k) <==> Matches(e, s, i, k)
    decreases e, 1, 0
  {
    hide Leads, Matches;
    match e
    case Leaf(_) => AtomWays(e, s, i, k);
    case Chars(_, _) => AtomWays(e, s, i, k);
    case Empty => EmptyWays(s, i, k);
    case Group(no, a) => GroupWays(no, a, s, i, k);
    case Star(r) => StarWaysMatch(r, s, i, k);
    case Plus(r) => PlusWaysMatch(r, s, i, k);
    case Opt(r) =>
      WaysMatch(r, s, i, k);
      LeadsConcat(Ways(r, s, i), [Way(i, [])], k);
      LeadsOne(Way(i, []), k);
      OptMatches(r, s, i, k);
    case Cat(a, b) => CatWays(a, b, s, i, k);
  }

  lemma AtomWays(e: Regex, s: seq<Byte>, i: nat, k: nat)
    requires e.Leaf? || e.Chars?
    ensures Leads(Ways(e, s, i), k) <==> Matches(e, s, i, k)
  {
    hide Leads;
    AtomOneEnd(e, s, i, k);
    NoWays();
    LeadsOne(Way(AtomEnd(e, i), []), k);
  }

  lemma AtomOneEnd(e: Regex, s: seq<Byte>, i: nat, k: nat)
    requires e.Leaf? || e.Chars?
    ensures Matches(e, s, i, k) ==> k == AtomEnd(e, i)
  {
    if e.Chars? && e.kind.Exactly? && Matches(e, s, i, k) { assert |s[i..k]| == |e.cs|; }
  }

  lemma EmptyWays(s: seq<Byte>, i: nat, k: nat)
    requires i <= |s|
    ensures Leads(Ways(Empty, s, i), k) <==> Matches(Empty, s, i, k)
  {
    hide Leads;
    LeadsOne(Way(i, []), k);
  }

  lemma {:induction false} GroupWays(no: nat, a: Alts, s: seq<Byte>, i: nat, k: nat)
    requires AltsWellFormed(a) && i <= |s|
    ensures Leads(Ways(Group(no, a), s, i), k) <==> Matches(Group(no, a), s, i, k)
    decreases a, 1, 0
  {
    hide Leads, AltsMatch;
    AltsWaysMatch(a, s, i, k);
    LeadsEnclosed(no, i, AltsWays(a, s, i), k);
  }

  lemma {:induction false} AltsWaysMatch(a: Alts, s: seq<Byte>, i: nat, k: nat)
    requires AltsWellFormed(a) && i <= |s|
    ensures Leads(AltsWays(a, s, i), k) <==> AltsMatch(a, s, i, k)
    decreases a, 0, 0
  {
    hide Leads, Matches, Ways;
    match a
    case One(b) => WaysMatch(b, s, i, k);
    case More(init, b) =>
      AltsWaysMatch(init, s, i, k);
      WaysMatch(b, s, i, k);
      LeadsConcat(AltsWays(init, s, i), Ways(b, s, i), k);
  }

  lemma {:induction false} CatWays(a: Regex, b: Regex, s: seq<Byte>, i: nat, k: nat)
    requires WellFormed(a) && WellFormed(b) && i <= |s|
    ensures Leads(Ways(Cat(a, b), s, i), k) <==> Matches(Cat(a, b), s, i, k)
    decreases Cat(a, b), 0, 0
  {
    hide Leads, Matches;
    LeadsThen(Ways(a, s, i), b, s, k);
    forall m: nat
      ensures Leads(Ways(a, s, i), m) <==> Matches(a, s, i, m)
      ensures Matches(a, s, i, m) ==> (Leads(Ways(b, s, m), k) <==> Matches(b, s, m, k))
      ensures Matches(a, s, i, m) && Matches(b, s, m, k) ==> Matches(Cat(a, b), s, i, k)
    {
      WaysMatch(a, s, i, m);
      if Matches(a, s, i, m) {
        MatchBounds(a, s, i, m);
        WaysMatch(b, s, m, k);
        if Matches(b, s, m, k) { CatJoin(a, b, s, i, m, k); }
      }
    }
    if Matches(Cat(a, b), s, i, k) {
      var m := CatSplit(a, b, s, i, k);
    }
  }

  lemma {:induction false} StarWaysMatch(r: Regex, s: seq<Byte>, i: nat, k: nat)
    requires WellFormed(r) && HasWidth(r) && i <= |s|
    ensures Leads(StarWays(r, s, i), k) <==> Matches(Star(r), s, i, k)
    decreases r, 2 * (|s| - i) + 3, 0
  {
    hide Leads, Matches, Ways, WellFormed, HasWidth;
    PlusWaysMatch(r, s, i, k);
    LeadsConcat(TripWays(r, s, i, Ways(r, s, i)), [Way(i, [])], k);
    LeadsOne(Way(i, []), k);
    StarCases(r, s, i, k);
  }

  lemma StarCases(r: Regex, s: seq<Byte>, i: nat, k: nat)
    requires i <= |s|
    ensures Matches(Star(r), s, i, k) <==> Matches(Plus(r), s, i, k) || i == k
  {
    hide Matches, Repeats;
    StarNone(r, s, i);
    if Matches(Plus(r), s, i, k) { PlusIsStar(r, s, i, k); }
    if Matches(Star(r), s, i, k) {
      var n := Trips(Star(r), s, i, k);
      if n > 0 { TripsMatch(Plus(r), n, s, i, k); } else { NoTripStays(r, s, i, k); }
    }
  }

  lemma NoTripStays(r: Regex, s: seq<Byte>, i: nat, k: nat)
    requires Repeats(r, 0, s, i, k)
    ensures i == k
  {
  }

  /** One trip or more. */
  lemma {:induction false} PlusWaysMatch(r: Regex, s: seq<Byte>, i: nat, k: nat)
    requires WellFormed(r) && HasWidth(r) && i <= |s|
    ensures Leads(TripWays(r, s, i, Ways(r, s, i)), k) <==> Matches(Plus(r), s, i, k)
    decreases r, 2 * (|s| - i) + 2, 0
  {
    hide Leads, Matches, Ways, WellFormed, HasWidth, StarWays;
    LeadsTrips(r, s, i, Ways(r, s, i), k);
    forall m: nat
      ensures Leads(Ways(r, s, i), m) <==> Matches(r, s, i, m)
      ensures Matches(r, s, i, m) ==> i < m <= |s| && (Leads(StarWays(r, s, m), k) <==> Matches(Star(r), s, m, k))
      ensures Matches(r, s, i, m) && Matches(Star(r), s, m, k) ==> Matches(Plus(r), s, i, k)
    {
      WaysMatch(r, s, i, m);
      if Matches(r, s, i, m) {
        HasWidthSound(r, s, i, m);
        MatchBounds(r, s, i, m);
        StarWaysMatch(r, s, m, k);
        if Matches(Star(r), s, m, k) { StarMore(r, s, i, m, k); }
      }
    }
    if Matches(Plus(r), s, i, k) {
      var m := PlusSplit(r, s, i, k);
    }
  }

  lemma PlusSplit(r: Regex, s: seq<Byte>, i: nat, k: nat) returns (m: nat)
    requires Matches(Plus(r), s, i, k)
    ensures Matches(r, s, i, m) && Matches(Star(r), s, m, k)
  {
    hide Matches, Repeats;
    var n := Trips(Plus(r), s, i, k);
    m := FirstTrip(r, n, s, i, k);
    TripsMatch(Star(r), n - 1, s, m, k);
  }
}
