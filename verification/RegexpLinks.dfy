/**
 Integrity of emitted programs: read from front to back they fall into nodes,
 and every `next` pointer leads to the start of one of these nodes.
 */
module RegexpLinks {
  import opened RegexpSyntax
  import opened RegexpCode
  import opened RegexpMachine
  import opened RegexpParser
  import opened RegexpGrammar
  import opened RegexpTermination
  import opened RegexpMatch
  import opened RegexpWays
  import opened RegexpOrder
  import opened RegexpPriority

  /** Length of the node at `n`, with the string that some nodes carry. */
  function NodeSize(p: seq<Byte>, n: nat): (z: nat)
    requires n < |p|
    ensures z >= 3
  {
    if p[n] == EXACTLY || p[n] == ANYOF || p[n] == ANYBUT then 3 + |CString(p, n + 3)| + 1 else 3
  }

  /** Reading nodes one after another from `n` leads to `t`. */
  ghost predicate Scans(p: seq<Byte>, n: nat, t: nat)
    decreases t - n
  {
    n == t || (n < t && n + 3 <= |p| && Scans(p, n + NodeSize(p, n), t))
  }

  lemma {:induction false} ScansConcat(p: seq<Byte>, n: nat, t: nat, u: nat)
    requires Scans(p, n, t) && Scans(p, t, u)
    ensures Scans(p, n, u)
    decreases t - n
  {
    if n < t { ScansConcat(p, n + NodeSize(p, n), t, u); ScansForward(p, n, t); ScansForward(p, t, u); }
  }

  lemma {:induction false} ScansForward(p: seq<Byte>, n: nat, t: nat)
    requires Scans(p, n, t)
    ensures n <= t
  {
  }

  /** Two reads from the same node: the shorter one is part of the longer one. */
  lemma {:induction false} ScansSplit(p: seq<Byte>, n: nat, t: nat, u: nat)
    requires Scans(p, n, t) && Scans(p, n, u) && t <= u
    ensures Scans(p, t, u)
    decreases t - n
  {
    if n < t { ScansSplit(p, n + NodeSize(p, n), t, u); }
  }

  /**
   The code from `lo` to `hi` falls into nodes, and the `next` pointers of these
   lead to nodes of it, to one of `exits` or nowhere. If `plain`, no node is a STAR.
   */
  ghost predicate Closed(p: seq<Byte>, lo: nat, hi: nat, exits: set<nat>, plain: bool) {
    && Scans(p, lo, hi)
    && forall n: nat :: n < hi && Scans(p, lo, n) ==>
         n + 3 <= |p| && (plain ==> p[n] != STAR) && LeadsInside(p, lo, hi, exits, Succ(p, n))
  }

  ghost predicate LeadsInside(p: seq<Byte>, lo: nat, hi: nat, exits: set<nat>, s: int) {
    s == 0 || s in exits || (lo <= s < hi && Scans(p, lo, s))
  }

  /** Adjacent pieces of code. */
  lemma Join(p: seq<Byte>, lo: nat, mid: nat, hi: nat, e1: set<nat>, e2: set<nat>, plain: bool)
    requires Closed(p, lo, mid, e1, plain) && Closed(p, mid, hi, e2, plain)
    ensures Closed(p, lo, hi, e1 + e2, plain) && Scans(p, lo, mid) && lo <= mid <= hi
  {
    ScansConcat(p, lo, mid, hi);
    ScansForward(p, lo, mid);
    ScansForward(p, mid, hi);
    forall n: nat | n < hi && Scans(p, lo, n)
      ensures n + 3 <= |p| && (plain ==> p[n] != STAR) && LeadsInside(p, lo, hi, e1 + e2, Succ(p, n))
    {
      if n < mid {
        assert LeadsInside(p, lo, mid, e1, Succ(p, n));
      } else {
        ScansSplit(p, lo, mid, n);
        assert LeadsInside(p, mid, hi, e2, Succ(p, n));
        if mid <= Succ(p, n) && Scans(p, mid, Succ(p, n)) {
          ScansConcat(p, lo, mid, Succ(p, n));
        }
      }
    }
  }

  /** Exits that are nodes of the code are no exits. */
  lemma Resolve(p: seq<Byte>, lo: nat, hi: nat, e: set<nat>, f: set<nat>, plain: bool)
    requires Closed(p, lo, hi, e, plain) && forall x :: x in e && x !in f ==> lo <= x < hi && Scans(p, lo, x)
    ensures Closed(p, lo, hi, f, plain)
  {
  }

  /** A single node. */
  lemma ClosedNode(p: seq<Byte>, n: nat, z: nat, exits: set<nat>, plain: bool)
    requires n + 3 <= |p| && NodeSize(p, n) == z && (Succ(p, n) == 0 || Succ(p, n) in exits) && (plain ==> p[n] != STAR)
    ensures Closed(p, n, n + z, exits, plain)
  {
    assert Scans(p, n + z, n + z);
    forall m: nat | m < n + z && Scans(p, n, m)
      ensures m == n
    {
      if n < m { ScansForward(p, n + z, m); }
    }
  }

  ghost function Exit(hi: nat, d: int): set<nat> {
    if d < 0 then {} else {hi + d}
  }

  // ----- the code of a pattern is closed -----

  lemma {:induction false} CodeClosed(p: seq<Byte>, lo: nat, e: Regex, d: int, plain: bool)
    requires WellFormed(e) && (plain ==> Starless(e)) && lo > 0 && At(p, lo, Code(e, d)) && Size(e) + Link(0, d) < SPAN
    ensures Closed(p, lo, lo + Size(e), Exit(lo + Size(e), d), plain)
    decreases e, 1
  {
    hide At, Code, NextOffset, Closed, HasWidth;
    match e
    case Leaf(_) => AtomClosed(p, lo, e, d, plain);
    case Chars(_, _) => AtomClosed(p, lo, e, d, plain);
    case Empty => AtomClosed(p, lo, e, d, plain);
    case Group(no, a) => GroupClosed(p, lo, no, a, d, plain);
    case Star(r) => if Simple(r) { SimpleClosed(p, lo, e, d, plain); } else { StarClosed(p, lo, r, d, plain); }
    case Plus(r) => if Simple(r) { SimpleClosed(p, lo, e, d, plain); } else { PlusClosed(p, lo, r, d, plain); }
    case Opt(r) => OptClosed(p, lo, r, d, plain);
    case Cat(a, b) => CatClosed(p, lo, a, b, d, plain);
  }

  lemma AtomClosed(p: seq<Byte>, lo: nat, e: Regex, d: int, plain: bool)
    requires WellFormed(e) && (plain ==> Starless(e)) && (e.Leaf? || e.Chars? || e.Empty?)
    requires lo > 0 && At(p, lo, Code(e, d)) && Size(e) + Link(0, d) < SPAN
    ensures Closed(p, lo, lo + Size(e), Exit(lo + Size(e), d), plain)
  {
    hide At, Code, NextOffset, Closed;
    CodeAtom(e, d);
    match e
    case Leaf(t) => AtNode(p, lo, TestOp(t), Link(3, d)); ClosedNode(p, lo, 3, Exit(lo + 3, d), plain);
    case Empty => AtNode(p, lo, NOTHING, Link(3, d)); ClosedNode(p, lo, 3, Exit(lo + 3, d), plain);
    case Chars(kind, cs) =>
      PrefixParts(p, lo, KindOp(kind), Link(Size(e), d), cs + [0]);
      CStringAt(p, lo + 3, cs);
      ClosedNode(p, lo, Size(e), Exit(lo + Size(e), d), plain);
  }

  lemma {:induction false} CatClosed(p: seq<Byte>, lo: nat, a: Regex, b: Regex, d: int, plain: bool)
    requires WellFormed(a) && WellFormed(b) && (plain ==> Starless(a) && Starless(b)) && lo > 0
    requires At(p, lo, Code(Cat(a, b), d)) && Size(Cat(a, b)) + Link(0, d) < SPAN
    ensures Closed(p, lo, lo + Size(Cat(a, b)), Exit(lo + Size(Cat(a, b)), d), plain)
    decreases Cat(a, b), 0
  {
    hide At, Code, Closed, WellFormed;
    var m, h := lo + Size(a), lo + Size(a) + Size(b);
    CodeCat(a, b, d);
    AtConcat(p, lo, Code(a, 0), Code(b, d));
    CodeClosed(p, lo, a, 0, plain);
    CodeClosed(p, m, b, d, plain);
    Join(p, lo, m, h, Exit(m, 0), Exit(h, d), plain);
    Resolve(p, lo, h, Exit(m, 0) + Exit(h, d), Exit(h, d), plain);
  }

  lemma {:induction false} SimpleClosed(p: seq<Byte>, lo: nat, e: Regex, d: int, plain: bool)
    requires WellFormed(e) && (plain ==> Starless(e)) && (e.Star? || e.Plus?) && Simple(e.r)
    requires lo > 0 && At(p, lo, Code(e, d)) && Size(e) + Link(0, d) < SPAN
    ensures Closed(p, lo, lo + Size(e), Exit(lo + Size(e), d), plain)
    decreases e.r, 2
  {
    hide At, Code, Size, NextOffset, Closed, HasWidth, IsPiece, Simple;
    var r, h := e.r, lo + Size(e);
    SimpleParts(p, lo, e, d);
    ClosedNode(p, lo, 3, Exit(h, d), plain);
    CodeClosed(p, lo + 3, r, DANGLING, plain);
    Join(p, lo, lo + 3, h, Exit(h, d), {}, plain);
    assert Exit(h, d) + {} == Exit(h, d);
  }

  /** The BRANCH and the NOTHING that end a loop or an option. */
  lemma EndClosed(p: seq<Byte>, n: nat, d: int, plain: bool)
    requires n > 0 && n + 6 <= |p| && p[n] == BRANCH && NextOffset(p, n) == 3
    requires p[n + 3] == NOTHING && NextOffset(p, n + 3) == Link(3, d)
    ensures Closed(p, n, n + 6, Exit(n + 6, d), plain)
  {
    hide NextOffset, Closed;
    ClosedNode(p, n, 3, {n + 3}, plain);
    ClosedNode(p, n + 3, 3, Exit(n + 6, d), plain);
    Join(p, n, n + 3, n + 6, {n + 3}, Exit(n + 6, d), plain);
    Resolve(p, n, n + 6, {n + 3} + Exit(n + 6, d), Exit(n + 6, d), plain);
  }

  lemma {:induction false} StarClosed(p: seq<Byte>, lo: nat, r: Regex, d: int, plain: bool)
    requires WellFormed(r) && !Simple(r) && (plain ==> Starless(r)) && lo > 0 && At(p, lo, Code(Star(r), d))
    requires Size(Star(r)) + Link(0, d) < SPAN
    ensures Closed(p, lo, lo + Size(Star(r)), Exit(lo + Size(Star(r)), d), plain)
    decreases r, 2
  {
    hide At, Code, Size, NextOffset, Closed, WellFormed, StarCode, Scans, Starless, Simple;
    CodeStar(r, d);
    StarParts(p, lo, Code(r, 0), Link(3, d));
    CodeClosed(p, lo + 3, r, 0, plain);
    StarNodes(p, lo, lo + 3 + Size(r), d, plain);
  }

  /** The nodes around the operand of a loop. */
  lemma StarNodes(p: seq<Byte>, lo: nat, n: nat, d: int, plain: bool)
    requires 0 < lo < n && n + 9 <= |p|
    requires p[lo] == BRANCH && NextOffset(p, lo) == n + 3 - lo
    requires p[n] == BACK && NextOffset(p, n) == n - lo
    requires p[n + 3] == BRANCH && NextOffset(p, n + 3) == 3
    requires p[n + 6] == NOTHING && NextOffset(p, n + 6) == Link(3, d)
    requires Closed(p, lo + 3, n, {n}, plain)
    ensures Closed(p, lo, n + 9, Exit(n + 9, d), plain)
  {
    hide NextOffset, Closed, Scans, Exit;
    var h := n + 9;
    ClosedNode(p, lo, 3, {n + 3}, plain);
    Join(p, lo, lo + 3, n, {n + 3}, {n}, plain);
    ClosedNode(p, n, 3, {lo}, plain);
    Join(p, lo, n, n + 3, {n + 3} + {n}, {lo}, plain);
    EndClosed(p, n + 3, d, plain);
    Join(p, lo, n + 3, h, {n + 3} + {n} + {lo}, Exit(h, d), plain);
    ScansHere(p, lo);
    Resolve(p, lo, h, {n + 3} + {n} + {lo} + Exit(h, d), Exit(h, d), plain);
  }

  lemma ScansHere(p: seq<Byte>, n: nat)
    ensures Scans(p, n, n)
  {
  }

  lemma {:induction false} PlusClosed(p: seq<Byte>, lo: nat, r: Regex, d: int, plain: bool)
    requires WellFormed(r) && !Simple(r) && (plain ==> Starless(r)) && lo > 0 && At(p, lo, Code(Plus(r), d))
    requires Size(Plus(r)) + Link(0, d) < SPAN
    ensures Closed(p, lo, lo + Size(Plus(r)), Exit(lo + Size(Plus(r)), d), plain)
    decreases r, 2
  {
    hide At, Code, Size, NextOffset, Closed, WellFormed, PlusCode, Scans, Starless, Simple;
    CodePlus(r, d);
    PlusParts(p, lo, Code(r, 0), Link(3, d));
    CodeClosed(p, lo, r, 0, plain);
    PlusNodes(p, lo, lo + Size(r), d, plain);
  }

  /** The nodes after the operand of a loop that runs at least once. */
  lemma PlusNodes(p: seq<Byte>, lo: nat, n: nat, d: int, plain: bool)
    requires 0 < lo < n && n + 12 <= |p|
    requires p[n] == BRANCH && NextOffset(p, n) == 6
    requires p[n + 3] == BACK && NextOffset(p, n + 3) == n + 3 - lo
    requires p[n + 6] == BRANCH && NextOffset(p, n + 6) == 3
    requires p[n + 9] == NOTHING && NextOffset(p, n + 9) == Link(3, d)
    requires Closed(p, lo, n, {n}, plain)
    ensures Closed(p, lo, n + 12, Exit(n + 12, d), plain)
  {
    hide NextOffset, Closed, Scans, Exit;
    var h := n + 12;
    ClosedNode(p, n, 3, {n + 6}, plain);
    Join(p, lo, n, n + 3, {n}, {n + 6}, plain);
    ClosedNode(p, n + 3, 3, {lo}, plain);
    Join(p, lo, n + 3, n + 6, {n} + {n + 6}, {lo}, plain);
    EndClosed(p, n + 6, d, plain);
    Join(p, lo, n + 6, h, {n} + {n + 6} + {lo}, Exit(h, d), plain);
    ScansHere(p, lo);
    Resolve(p, lo, h, {n} + {n + 6} + {lo} + Exit(h, d), Exit(h, d), plain);
  }

  lemma {:induction false} OptClosed(p: seq<Byte>, lo: nat, r: Regex, d: int, plain: bool)
    requires WellFormed(r) && (plain ==> Starless(r)) && lo > 0 && At(p, lo, Code(Opt(r), d))
    requires Size(Opt(r)) + Link(0, d) < SPAN
    ensures Closed(p, lo, lo + Size(Opt(r)), Exit(lo + Size(Opt(r)), d), plain)
    decreases r, 2
  {
    hide At, Code, Size, NextOffset, Closed, WellFormed, OptCode, Scans, Starless, Simple;
    CodeOpt(r, d);
    OptParts(p, lo, Code(r, 3), Link(3, d));
    CodeClosed(p, lo + 3, r, 3, plain);
    OptNodes(p, lo, lo + 3 + Size(r), d, plain);
  }

  /** The nodes around the operand of an option. */
  lemma OptNodes(p: seq<Byte>, lo: nat, n: nat, d: int, plain: bool)
    requires 0 < lo < n && n + 6 <= |p|
    requires p[lo] == BRANCH && NextOffset(p, lo) == n - lo
    requires p[n] == BRANCH && NextOffset(p, n) == 3
    requires p[n + 3] == NOTHING && NextOffset(p, n + 3) == Link(3, d)
    requires Closed(p, lo + 3, n, {n + 3}, plain)
    ensures Closed(p, lo, n + 6, Exit(n + 6, d), plain)
  {
    hide NextOffset, Closed, Scans, Exit;
    var h := n + 6;
    ClosedNode(p, lo, 3, {n}, plain);
    Join(p, lo, lo + 3, n, {n}, {n + 3}, plain);
    EndClosed(p, n, d, plain);
    ScansNode(p, n);
    ScansConcat(p, lo, n, n + 3);
    Join(p, lo, n, h, {n} + {n + 3}, Exit(h, d), plain);
    Resolve(p, lo, h, {n} + {n + 3} + Exit(h, d), Exit(h, d), plain);
  }

  lemma ScansNode(p: seq<Byte>, n: nat)
    requires n + 3 <= |p| && NodeSize(p, n) == 3
    ensures Scans(p, n, n + 3)
  {
    assert Scans(p, n + 3, n + 3);
  }

  lemma {:induction false} GroupClosed(p: seq<Byte>, lo: nat, no: nat, a: Alts, d: int, plain: bool)
    requires 1 <= no < 10 && AltsWellFormed(a) && (plain ==> AltsStarless(a))
    requires lo > 0 && At(p, lo, Code(Group(no, a), d)) && Size(Group(no, a)) + Link(0, d) < SPAN
    ensures Closed(p, lo, lo + Size(Group(no, a)), Exit(lo + Size(Group(no, a)), d), plain)
    decreases a, 1
  {
    hide At, Code, Size, AltsCode, NextOffset, Closed, AltsWellFormed, GroupCode, Scans, AltsStarless;
    CodeGroup(no, a, d);
    GroupParts(p, lo, no, AltsCode(a, 0, 0, Count(a)), Link(3, d));
    AltsClosed(p, lo + 3, a, 0, 0, Count(a), plain);
    GroupNodes(p, lo, lo + 3 + AltsSize(a), no, d, plain);
  }

  /** The nodes around the alternatives of a group. */
  lemma GroupNodes(p: seq<Byte>, lo: nat, n: nat, no: nat, d: int, plain: bool)
    requires 0 < lo && lo + 3 < n && n + 3 <= |p| && 1 <= no < 10
    requires p[lo] == GroupOp(OPEN, no) && NextOffset(p, lo) == 3
    requires p[n] == GroupOp(CLOSE, no) && NextOffset(p, n) == Link(3, d)
    requires Closed(p, lo + 3, n, {n, n}, plain)
    ensures Closed(p, lo, n + 3, Exit(n + 3, d), plain)
  {
    hide NextOffset, Closed, Scans;
    var h := n + 3;
    ClosedNode(p, lo, 3, {lo + 3}, plain);
    Join(p, lo, lo + 3, n, {lo + 3}, {n, n}, plain);
    ClosedNode(p, n, 3, Exit(h, d), plain);
    Join(p, lo, n, h, {lo + 3} + {n, n}, Exit(h, d), plain);
    Resolve(p, lo, h, {lo + 3} + {n, n} + Exit(h, d), Exit(h, d), plain);
  }

  lemma {:induction false} AltsClosed(p: seq<Byte>, lo: nat, a: Alts, dBranch: nat, dBody: nat, c: nat, plain: bool)
    requires AltsWellFormed(a) && (plain ==> AltsStarless(a)) && c >= Count(a)
    requires lo > 0 && At(p, lo, AltsCode(a, dBranch, dBody, c)) && AltsSize(a) + dBranch + dBody < SPAN
    ensures var h := lo + AltsSize(a); Closed(p, lo, h, {h + dBranch, h + dBody}, plain)
    decreases a, 0
  {
    hide At, Code, Size, AltsCode, Closed, WellFormed, Starless, Branched, Scans;
    match a
    case One(b) =>
      AltsCodeOne(b, dBranch, dBody, c);
      BranchClosed(p, lo, b, dBranch, dBody, plain);
    case More(i, b) =>
      MoreParts(p, lo, i, b, dBranch, dBody, c);
      var m, h := lo + AltsSize(i), lo + AltsSize(a);
      AltsClosed(p, lo, i, 0, dBody + 3 + Size(b), c, plain);
      BranchClosed(p, m, b, dBranch, dBody, plain);
      Join(p, lo, m, h, {m, h + dBody}, {h + dBranch, h + dBody}, plain);
      Resolve(p, lo, h, {m, h + dBody} + {h + dBranch, h + dBody}, {h + dBranch, h + dBody}, plain);
  }

  lemma {:induction false} BranchClosed(p: seq<Byte>, lo: nat, b: Regex, dBranch: nat, d: nat, plain: bool)
    requires WellFormed(b) && (plain ==> Starless(b)) && lo > 0 && Size(b) + 3 + dBranch + d < SPAN
    requires At(p, lo, Branched(3 + Size(b) + dBranch, Code(b, d)))
    ensures var h := lo + 3 + Size(b); Closed(p, lo, h, {h + dBranch, h + d}, plain)
    decreases b, 2
  {
    hide At, Code, NextOffset, Closed, WellFormed, Scans;
    var h := lo + 3 + Size(b);
    BranchedParts(p, lo, 3 + Size(b) + dBranch, Code(b, d));
    ClosedNode(p, lo, 3, {h + dBranch}, plain);
    CodeClosed(p, lo + 3, b, d, plain);
    Join(p, lo, lo + 3, h, {h + dBranch}, {h + d}, plain);
    assert {h + dBranch} + {h + d} == {h + dBranch, h + d};
  }

  /** The last node. */
  ghost predicate IsEnd(p: seq<Byte>, n: int) {
    0 < n && n + 3 <= |p| && p[n] == END && Scans(p, 1, n)
  }

  /** Every `next` pointer of an emitted program is null or leads to a node of the program. */
  lemma ProgramClosed(p: seq<Byte>, t: Alts, plain: bool)
    requires AltsWellFormed(t) && (plain ==> AltsStarless(t)) && |Program(t)| < SPAN && At(p, 0, Program(t))
    ensures Closed(p, 1, |Program(t)|, {}, plain) && IsEnd(p, |Program(t)| - 3)
  {
    hide At, AltsCode, NextOffset, Closed, AltsWellFormed, AltsStarless, AltsSize, Scans, Node;
    var x, n := AltsCode(t, 0, 0, Count(t)), 1 + AltsSize(t);
    AtConcat(p, 0, [MAGIC], x + Node(END, 0));
    AtConcat(p, 1, x, Node(END, 0));
    AtNode(p, n, END, 0);
    AltsClosed(p, 1, t, 0, 0, Count(t), plain);
    EndNode(p, n, plain);
  }

  lemma EndNode(p: seq<Byte>, n: nat, plain: bool)
    requires 1 < n && n + 3 <= |p| && p[n] == END && NextOffset(p, n) == 0 && Closed(p, 1, n, {n, n}, plain)
    ensures Closed(p, 1, n + 3, {}, plain) && IsEnd(p, n)
  {
    hide NextOffset, Closed, Scans;
    ClosedNode(p, n, 3, {}, plain);
    Join(p, 1, n, n + 3, {n, n}, {}, plain);
    Resolve(p, 1, n + 3, {n, n} + {}, {}, plain);
  }

  /** The nodes that runs come to. */
  lemma NodeNext(p: seq<Byte>, hi: nat, n: nat)
    requires Closed(p, 1, hi, {}, true) && IsEnd(p, hi - 3) && 0 < n < hi && Scans(p, 1, n)
    ensures n + 3 <= |p| && p[n] != STAR && (Succ(p, n) != 0 ==> 0 < Succ(p, n) < hi && Scans(p, 1, Succ(p, n)))
    ensures p[n] == BRANCH ==> n + 3 < hi && Scans(p, 1, n + 3)
  {
    hide Succ;
    assert LeadsInside(p, 1, hi, {}, Succ(p, n));
    if p[n] == BRANCH {
      ScansHere(p, n + 3);
      ScansConcat(p, 1, n, n + 3);
      ScansSplit(p, 1, n, hi);
      ScansForward(p, n + 3, hi);
    }
  }

  lemma {:induction false} NoStarMet(p: seq<Byte>, s: seq<Byte>, hi: nat, n: nat, i: nat, k: nat)
    requires Closed(p, 1, hi, {}, true) && IsEnd(p, hi - 3) && 0 < n < hi && Scans(p, 1, n)
    ensures !Meets(p, s, n, i, k)
    decreases k
  {
    hide Closed, Scans, Succ, Consumes, ConsumesSome;
    NodeNext(p, hi, n);
    if k > 0 {
      var next, l := Succ(p, n), k - 1;
      if p[n] == BRANCH { NoStarMet(p, s, hi, n + 3, i, l); }
      forall m: nat
        ensures !Meets(p, s, next, m, l)
      {
        if next != 0 { NoStarMet(p, s, hi, next, m, l); }
      }
    }
  }

  /** The matcher meets no STAR if no `*` follows a simple operand. */
  lemma StarlessProgram(p: seq<Byte>, t: Alts, s: seq<Byte>, i: nat)
    requires AltsWellFormed(t) && AltsStarless(t) && |Program(t)| < SPAN && At(p, 0, Program(t))
    ensures !MeetsStar(p, s, 1, i)
  {
    hide Closed, Scans, At, Meets;
    ProgramClosed(p, t, true);
    ScansHere(p, 1);
    forall k: nat
      ensures !Meets(p, s, 1, i, k)
    {
      NoStarMet(p, s, |Program(t)|, 1, i, k);
    }
  }

  /**
   The compiler as a whole: the program emitted for a pattern accepts exactly
   what the pattern means in the plain grammar, and its runs keep the order of the
   ways of the pattern.
   */
  lemma CompiledPattern(pat: CStr, p: seq<Byte>, s: seq<Byte>, i: nat, j: nat)
    requires Parse(pat, true).Ok? && |Program(Parse(pat, true).tree)| < SPAN && At(p, 0, Program(Parse(pat, true).tree))
    ensures Parse(pat, false).Ok?
    ensures Accepts(p, s, 1, i, j) <==> AltsMatch(Parse(pat, false).tree, s, i, j)
    ensures i <= |s| ==> Outs(p, s, 1, i) == AltsWays(Parse(pat, false).tree, s, i)
  {
    hide At, Program, ParseReg, AltsEquiv, AltsMatch, AltsWays, Accepts, Outs, AltsWellFormed;
    GatheringPreservesMeaning(pat);
    var t, u := Parse(pat, true).tree, Parse(pat, false).tree;
    CompilationPreservesMeaning(p, t, s, i, j);
    EquivMatch(t, u, s, i, j);
    if i <= |s| {
      ProgramGives(p, t, s, i);
      AltsEquivAt(t, u, s, i);
    }
  }
}
