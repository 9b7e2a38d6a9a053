/**
 Every run of a compiled program ends: no way through its nodes, taken by the
 matcher in whatever order, goes on for ever, because every trip round a loop
 consumes input. The bound found here is what the recursion of the matcher
 decreases.
 */
module RegexpTermination {
  import opened RegexpSyntax
  import opened RegexpCode
  import opened RegexpMachine

  /** Nodes that match one character and may be the operand of a loop. */
  predicate IsSimpleNode(p: seq<Byte>, n: nat) {
    n + 3 <= |p| &&
    (p[n] == ANY || p[n] == ANYOF || p[n] == ANYBUT || (p[n] == EXACTLY && |CString(p, n + 3)| == 1))
  }

  predicate IsNode(p: seq<Byte>, n: int) {
    0 < n && n + 3 <= |p|
  }

  /** All runs from node `n` and position `i` end within `k` nodes, and stay in the program. */
  ghost predicate Ends(p: seq<Byte>, s: seq<Byte>, n: int, i: nat, k: nat)
    decreases k
  {
    && k > 0 && IsNode(p, n) && i <= |s|
    && var op, next := p[n], Succ(p, n);
       if op == END then true
       else if op == BRANCH then
         && Ends(p, s, n + 3, i, k - 1)
         && IsNode(p, next) && (p[next] == BRANCH ==> Ends(p, s, next, i, k - 1))
       else if op == STAR || op == PLUS then
         && IsSimpleNode(p, Operand(n)) && IsNode(p, next)
         && forall m: nat :: ConsumesSome(p, s, Operand(n), MinTrips(op), i, m) ==> Ends(p, s, next, m, k - 1)
       else
         && (op == EXACTLY ==> CString(p, n + 3) != [])
         && forall m: nat :: Consumes(p, s, n, i, m) ==> Ends(p, s, next, m, k - 1)
  }

  ghost predicate EndsSoon(p: seq<Byte>, s: seq<Byte>, n: int, i: nat) {
    exists k: nat :: Ends(p, s, n, i, k)
  }

  lemma {:induction false} EndsLonger(p: seq<Byte>, s: seq<Byte>, n: int, i: nat, k: nat, l: nat)
    requires Ends(p, s, n, i, k) && k <= l
    ensures Ends(p, s, n, i, l)
    decreases k
  {
    var op, next := p[n], Succ(p, n);
    if op == BRANCH {
      EndsLonger(p, s, n + 3, i, k - 1, l - 1);
      if p[next] == BRANCH { EndsLonger(p, s, next, i, k - 1, l - 1); }
    } else if op == STAR || op == PLUS {
      forall m: nat | ConsumesSome(p, s, Operand(n), MinTrips(op), i, m)
        ensures Ends(p, s, next, m, l - 1)
      {
        EndsLonger(p, s, next, m, k - 1, l - 1);
      }
    } else if op != END {
      forall m: nat | Consumes(p, s, n, i, m)
        ensures Ends(p, s, next, m, l - 1)
      {
        EndsLonger(p, s, next, m, k - 1, l - 1);
      }
    }
  }

  /** One bound for all positions before `t` from which runs end. */
  lemma {:induction false} Uniform(p: seq<Byte>, s: seq<Byte>, n: int, t: nat) returns (k: nat)
    ensures forall m: nat :: m < t && EndsSoon(p, s, n, m) ==> Ends(p, s, n, m, k)
  {
    hide Ends;
    k := 0;
    if t > 0 {
      var k1 := Uniform(p, s, n, t - 1);
      var k2: nat := 0;
      if EndsSoon(p, s, n, t - 1) { k2 :| Ends(p, s, n, t - 1, k2); }
      k := if k1 < k2 then k2 else k1;
      forall m: nat | m < t && EndsSoon(p, s, n, m)
        ensures Ends(p, s, n, m, k)
      {
        EndsLonger(p, s, n, m, if m < t - 1 then k1 else k2, k);
      }
    }
  }

  // ----- what a bound on runs says about the next step -----

  lemma BoundHere(p: seq<Byte>, s: seq<Byte>, n: int, i: nat, k: nat)
    requires Ends(p, s, n, i, k)
    ensures k > 0 && IsNode(p, n) && i <= |s|
    ensures p[n] == BRANCH || p[n] == STAR || p[n] == PLUS ==> IsNode(p, Succ(p, n))
    ensures p[n] == EXACTLY ==> CString(p, n + 3) != []
  {
    hide Succ, Consumes, ConsumesSome;
  }

  lemma BranchBound(p: seq<Byte>, s: seq<Byte>, n: nat, i: nat, k: nat)
    requires Ends(p, s, n, i, k) && p[n] == BRANCH
    ensures k > 0 && Ends(p, s, n + 3, i, k - 1) && IsNode(p, Succ(p, n))
    ensures (p[Succ(p, n)] == BRANCH ==> Ends(p, s, Succ(p, n), i, k - 1))
  {
    hide Succ, Consumes, ConsumesSome;
  }

  lemma LoopBound(p: seq<Byte>, s: seq<Byte>, n: nat, i: nat, k: nat)
    requires Ends(p, s, n, i, k) && (p[n] == STAR || p[n] == PLUS)
    ensures IsSimpleNode(p, Operand(n)) && n + 6 <= |p| && IsNode(p, Succ(p, n))
    ensures k > 0
    ensures forall m: nat :: ConsumesSome(p, s, Operand(n), MinTrips(p[n]), i, m) ==> Ends(p, s, Succ(p, n), m, k - 1)
  {
    hide Succ, Consumes, ConsumesSome;
  }

  lemma PlainBound(p: seq<Byte>, s: seq<Byte>, n: nat, i: nat, m: nat, k: nat)
    requires Ends(p, s, n, i, k) && IsPlain(p[n]) && Consumes(p, s, n, i, m)
    ensures k > 0 && Ends(p, s, Succ(p, n), m, k - 1)
  {
    hide Succ, Consumes;
  }

  // ----- single steps -----

  lemma PlainEnds(p: seq<Byte>, s: seq<Byte>, n: nat, i: nat)
    requires IsNode(p, n) && i <= |s| && IsPlain(p[n]) && (p[n] == EXACTLY ==> CString(p, n + 3) != [])
    requires forall m: nat :: Consumes(p, s, n, i, m) ==> EndsSoon(p, s, Succ(p, n), m)
    ensures EndsSoon(p, s, n, i)
  {
    hide EndsSoon, Succ;
    var k := Uniform(p, s, Succ(p, n), |s| + 1);
    assert Ends(p, s, n, i, k + 1);
    IsSoon(p, s, n, i, k + 1);
  }

  lemma IsSoon(p: seq<Byte>, s: seq<Byte>, n: int, i: nat, k: nat)
    requires Ends(p, s, n, i, k)
    ensures EndsSoon(p, s, n, i)
  {
  }

  /** A node that consumes nothing ends if the next one does. */
  lemma SilentEnds(p: seq<Byte>, s: seq<Byte>, n: nat, i: nat)
    requires IsNode(p, n) && i <= |s| && (p[n] == NOTHING || p[n] == BACK || IsMark(p[n]))
    requires EndsSoon(p, s, Succ(p, n), i)
    ensures EndsSoon(p, s, n, i)
  {
    hide EndsSoon, Succ;
    PlainEnds(p, s, n, i);
  }

  lemma BranchEnds(p: seq<Byte>, s: seq<Byte>, n: nat, i: nat)
    requires IsNode(p, n) && i <= |s| && p[n] == BRANCH && EndsSoon(p, s, n + 3, i)
    requires IsNode(p, Succ(p, n)) && (p[Succ(p, n)] == BRANCH ==> EndsSoon(p, s, Succ(p, n), i))
    ensures EndsSoon(p, s, n, i)
  {
    hide Succ;
    var k1 := Uniform(p, s, n + 3, |s| + 1);
    var k2 := Uniform(p, s, Succ(p, n), |s| + 1);
    var k := if k1 < k2 then k2 else k1;
    EndsLonger(p, s, n + 3, i, k1, k);
    if p[Succ(p, n)] == BRANCH { EndsLonger(p, s, Succ(p, n), i, k2, k); }
    assert Ends(p, s, n, i, k + 1);
  }

  lemma LoopEnds(p: seq<Byte>, s: seq<Byte>, n: nat, i: nat)
    requires IsNode(p, n) && i <= |s| && (p[n] == STAR || p[n] == PLUS)
    requires IsSimpleNode(p, Operand(n)) && IsNode(p, Succ(p, n))
    requires forall m: nat :: ConsumesSome(p, s, Operand(n), MinTrips(p[n]), i, m) ==>
               m <= |s| && EndsSoon(p, s, Succ(p, n), m)
    ensures EndsSoon(p, s, n, i)
  {
    hide EndsSoon, Succ, ConsumesSome;
    var k := Uniform(p, s, Succ(p, n), |s| + 1);
    assert Ends(p, s, n, i, k + 1);
    IsSoon(p, s, n, i, k + 1);
  }

  // ----- constructs -----

  /** Wherever `e` matches to from `i`, runs from node `x` end. */
  ghost predicate ExitsEnd(p: seq<Byte>, s: seq<Byte>, e: Regex, i: nat, x: int) {
    forall m: nat :: Matches(e, s, i, m) ==> EndsSoon(p, s, x, m)
  }

  /** The string of a node is that of its construct. */
  lemma CharsAt(p: seq<Byte>, n: nat, e: Regex, d: int)
    requires WellFormed(e) && e.Chars? && At(p, n, Code(e, d)) && Size(e) + Link(0, d) < SPAN
    ensures n + 3 <= |p| && p[n] == KindOp(e.kind) && CString(p, n + 3) == e.cs
  {
    hide At, Node, Code, NextOffset;
    CodeAtom(e, d);
    PrefixParts(p, n, KindOp(e.kind), Link(Size(e), d), e.cs + [0]);
    CStringAt(p, n + 3, e.cs);
  }

  lemma SimpleAt(p: seq<Byte>, n: nat, r: Regex)
    requires WellFormed(r) && Simple(r) && At(p, n, Code(r, DANGLING)) && Size(r) < SPAN
    ensures IsSimpleNode(p, n)
  {
    hide At, Node, Code, NextOffset;
    if r.Chars? {
      CharsAt(p, n, r, DANGLING);
    } else {
      CodeAtom(r, DANGLING);
      AtNode(p, n, ANY, 0);
    }
  }

  /** All runs through the code of `e` end if those from its exit do. */
  lemma {:induction false} CodeEnds(p: seq<Byte>, s: seq<Byte>, lo: nat, e: Regex, d: nat, i: nat)
    requires WellFormed(e) && lo > 0 && At(p, lo, Code(e, d)) && Size(e) + d < SPAN && i <= |s|
    requires IsNode(p, lo + Size(e) + d) && ExitsEnd(p, s, e, i, lo + Size(e) + d)
    ensures EndsSoon(p, s, lo, i)
    decreases e, 0
  {
    hide At, Code, NextOffset, EndsSoon, HasWidth, Consumes, ConsumesSome;
    match e
    case Leaf(_) => AtomEnds(p, s, lo, e, d, i);
    case Chars(_, _) => AtomEnds(p, s, lo, e, d, i);
    case Empty => AtomEnds(p, s, lo, e, d, i);
    case Group(no, a) => GroupEnds(p, s, lo, no, a, d, i);
    case Star(r) => if Simple(r) { SimpleEnds(p, s, lo, e, d, i); } else { StarEnds(p, s, lo, r, d, i); }
    case Plus(r) => if Simple(r) { SimpleEnds(p, s, lo, e, d, i); } else { PlusEnds(p, s, lo, r, d, i); }
    case Opt(r) => OptEnds(p, s, lo, r, d, i);
    case Cat(a, b) => CatEnds(p, s, lo, a, b, d, i);
  }

  lemma AtomEnds(p: seq<Byte>, s: seq<Byte>, lo: nat, e: Regex, d: nat, i: nat)
    requires WellFormed(e) && (e.Leaf? || e.Chars? || e.Empty?)
    requires lo > 0 && At(p, lo, Code(e, d)) && Size(e) + d < SPAN && i <= |s| && ExitsEnd(p, s, e, i, lo + Size(e) + d)
    ensures EndsSoon(p, s, lo, i)
  {
    hide At, Code, NextOffset, EndsSoon, Consumes;
    if e.Empty? {
      CodeAtom(e, d);
      AtNode(p, lo, NOTHING, 3 + d);
      SilentEnds(p, s, lo, i);
    } else {
      if e.Chars? { CharsAt(p, lo, e, d); } else { LeafAt(p, lo, e, d); }
      AtomConsumes(p, s, lo, e, d, i, i);
      forall m: nat | Consumes(p, s, lo, i, m)
        ensures EndsSoon(p, s, Succ(p, lo), m)
      {
        AtomConsumes(p, s, lo, e, d, i, m);
      }
      PlainEnds(p, s, lo, i);
    }
  }

  lemma LeafAt(p: seq<Byte>, n: nat, e: Regex, d: nat)
    requires e.Leaf? && At(p, n, Code(e, d)) && 3 + d < SPAN
    ensures n + 3 <= |p| && p[n] == TestOp(e.test) && p[n] != EXACTLY
  {
    hide At, Node, Code, NextOffset;
    CodeAtom(e, d);
    AtNode(p, n, TestOp(e.test), 3 + d);
  }

  /** The node of a loop over a simple operand, and the operand behind it. */
  lemma SimpleParts(p: seq<Byte>, lo: nat, e: Regex, d: int)
    requires (e.Star? || e.Plus?) && Simple(e.r) && At(p, lo, Code(e, d)) && Size(e) + Link(0, d) < SPAN
    ensures lo + 3 <= |p| && p[lo] == (if e.Plus? then PLUS else STAR) && NextOffset(p, lo) == Link(Size(e), d)
    ensures Size(e) == 3 + Size(e.r) && At(p, lo + 3, Code(e.r, DANGLING))
  {
    hide At, Code, NextOffset, Node;
    CodeStar(e.r, d);
    CodePlus(e.r, d);
    PrefixParts(p, lo, if e.Plus? then PLUS else STAR, Link(Size(e), d), Code(e.r, DANGLING));
  }

  lemma SimpleEnds(p: seq<Byte>, s: seq<Byte>, lo: nat, e: Regex, d: nat, i: nat)
    requires WellFormed(e) && (e.Star? || e.Plus?) && Simple(e.r) && IsNode(p, lo + Size(e) + d)
    requires lo > 0 && At(p, lo, Code(e, d)) && Size(e) + d < SPAN && i <= |s| && ExitsEnd(p, s, e, i, lo + Size(e) + d)
    ensures EndsSoon(p, s, lo, i)
  {
    hide At, Code, Size, NextOffset, EndsSoon, ConsumesSome, Matches, HasWidth, IsPiece;
    SimpleLoop(p, s, lo, e, d, i, i);
    SimpleParts(p, lo, e, d);
    SimpleAt(p, lo + 3, e.r);
    forall m: nat | ConsumesSome(p, s, Operand(lo), MinTrips(p[lo]), i, m)
      ensures m <= |s| && EndsSoon(p, s, Succ(p, lo), m)
    {
      SimpleLoop(p, s, lo, e, d, i, m);
      MatchBounds(e, s, i, m);
    }
    LoopEnds(p, s, lo, i);
  }

  lemma {:induction false} CatEnds(p: seq<Byte>, s: seq<Byte>, lo: nat, a: Regex, b: Regex, d: nat, i: nat)
    requires WellFormed(a) && WellFormed(b) && lo > 0 && At(p, lo, Code(Cat(a, b), d)) && Size(a) + Size(b) + d < SPAN
    requires i <= |s|
    requires IsNode(p, lo + Size(a) + Size(b) + d) && ExitsEnd(p, s, Cat(a, b), i, lo + Size(a) + Size(b) + d)
    ensures EndsSoon(p, s, lo, i)
    decreases Cat(a, b), 0, 0
  {
    hide At, Code, NextOffset, EndsSoon, WellFormed;
    CodeCat(a, b, d);
    AtConcat(p, lo, Code(a, 0), Code(b, d));
    NodeAt(p, lo + Size(a), b, d);
    forall m: nat | Matches(a, s, i, m)
      ensures EndsSoon(p, s, lo + Size(a), m)
    {
      MatchBounds(a, s, i, m);
      forall k: nat | Matches(b, s, m, k)
        ensures EndsSoon(p, s, lo + Size(a) + Size(b) + d, k)
      {
        assert Matches(Cat(a, b), s, i, k);
      }
      CodeEnds(p, s, lo + Size(a), b, d, m);
    }
    CodeEnds(p, s, lo, a, 0, i);
  }

  lemma NodeAt(p: seq<Byte>, n: nat, e: Regex, d: int)
    requires n > 0 && At(p, n, Code(e, d))
    ensures IsNode(p, n)
  {
    hide Code, Size;
  }

  /** A loop ends because every trip leads to a later position. */
  lemma {:induction false} StarEnds(p: seq<Byte>, s: seq<Byte>, lo: nat, r: Regex, d: nat, i: nat)
    requires WellFormed(r) && HasWidth(r) && !Simple(r) && lo > 0 && At(p, lo, Code(Star(r), d))
    requires Size(Star(r)) + d < SPAN
    requires i <= |s| && IsNode(p, lo + Size(Star(r)) + d) && ExitsEnd(p, s, Star(r), i, lo + Size(Star(r)) + d)
    ensures EndsSoon(p, s, lo, i)
    decreases r, |s| - i + 1
  {
    hide At, Code, NextOffset, EndsSoon, WellFormed, HasWidth, StarCode, Matches;
    CodeStar(r, d);
    StarParts(p, lo, Code(r, 0), 3 + d);
    var b := lo + 3 + Size(r);
    forall m: nat | Matches(r, s, i, m)
      ensures EndsSoon(p, s, b, m)
    {
      HasWidthSound(r, s, i, m);
      MatchBounds(r, s, i, m);
      forall k: nat | Matches(Star(r), s, m, k)
        ensures EndsSoon(p, s, lo + Size(Star(r)) + d, k)
      {
        StarMore(r, s, i, m, k);
      }
      StarEnds(p, s, lo, r, d, m);
      SilentEnds(p, s, b, m);
    }
    CodeEnds(p, s, lo + 3, r, 0, i);
    StarNone(r, s, i);
    SilentEnds(p, s, b + 6, i);
    BranchEnds(p, s, b + 3, i);
    BranchEnds(p, s, lo, i);
  }

  lemma {:induction false} PlusEnds(p: seq<Byte>, s: seq<Byte>, lo: nat, r: Regex, d: nat, i: nat)
    requires WellFormed(r) && HasWidth(r) && !Simple(r) && lo > 0 && At(p, lo, Code(Plus(r), d))
    requires Size(Plus(r)) + d < SPAN
    requires i <= |s| && IsNode(p, lo + Size(Plus(r)) + d) && ExitsEnd(p, s, Plus(r), i, lo + Size(Plus(r)) + d)
    ensures EndsSoon(p, s, lo, i)
    decreases r, |s| - i + 1
  {
    hide At, Code, NextOffset, EndsSoon, WellFormed, HasWidth, PlusCode, Matches;
    CodePlus(r, d);
    PlusParts(p, lo, Code(r, 0), 3 + d);
    var b := lo + Size(r);
    forall m: nat | Matches(r, s, i, m)
      ensures EndsSoon(p, s, b, m)
    {
      HasWidthSound(r, s, i, m);
      MatchBounds(r, s, i, m);
      forall k: nat | Matches(Plus(r), s, m, k)
        ensures EndsSoon(p, s, lo + Size(Plus(r)) + d, k)
      {
        PlusIsStar(r, s, m, k);
        StarMore(r, s, i, m, k);
      }
      PlusEnds(p, s, lo, r, d, m);
      SilentEnds(p, s, b + 3, m);
      StarNone(r, s, m);
      StarMore(r, s, i, m, m);
      SilentEnds(p, s, b + 9, m);
      BranchEnds(p, s, b + 6, m);
      BranchEnds(p, s, b, m);
    }
    CodeEnds(p, s, lo, r, 0, i);
  }

  lemma {:induction false} OptEnds(p: seq<Byte>, s: seq<Byte>, lo: nat, r: Regex, d: nat, i: nat)
    requires WellFormed(r) && lo > 0 && At(p, lo, Code(Opt(r), d)) && Size(Opt(r)) + d < SPAN
    requires i <= |s| && IsNode(p, lo + Size(Opt(r)) + d) && ExitsEnd(p, s, Opt(r), i, lo + Size(Opt(r)) + d)
    ensures EndsSoon(p, s, lo, i)
    decreases r, 1
  {
    hide At, Code, NextOffset, EndsSoon, WellFormed, OptCode, Matches;
    CodeOpt(r, d);
    OptParts(p, lo, Code(r, 3), 3 + d);
    var b := lo + 3 + Size(r);
    forall m: nat | Matches(r, s, i, m) || m == i
      ensures EndsSoon(p, s, b + 3, m)
    {
      OptMatches(r, s, i, m);
      MatchBounds(Opt(r), s, i, m);
      SilentEnds(p, s, b + 3, m);
    }
    CodeEnds(p, s, lo + 3, r, 3, i);
    BranchEnds(p, s, b, i);
    BranchEnds(p, s, lo, i);
  }

  // ----- groups and alternatives -----

  ghost predicate AltsExitEnd(p: seq<Byte>, s: seq<Byte>, a: Alts, i: nat, x: int) {
    forall m: nat :: AltsMatch(a, s, i, m) ==> EndsSoon(p, s, x, m)
  }

  lemma {:induction false} GroupEnds(p: seq<Byte>, s: seq<Byte>, lo: nat, no: nat, a: Alts, d: nat, i: nat)
    requires 1 <= no < 10 && AltsWellFormed(a) && lo > 0 && At(p, lo, Code(Group(no, a), d))
    requires Size(Group(no, a)) + d < SPAN
    requires i <= |s| && AltsExitEnd(p, s, a, i, lo + Size(Group(no, a)) + d)
    ensures EndsSoon(p, s, lo, i)
    decreases a, 1
  {
    hide At, Code, AltsCode, NextOffset, EndsSoon, AltsWellFormed, GroupCode, AltsMatch;
    CodeGroup(no, a, d);
    GroupParts(p, lo, no, AltsCode(a, 0, 0, Count(a)), 3 + d);
    forall m: nat | AltsMatch(a, s, i, m)
      ensures EndsSoon(p, s, lo + 3 + AltsSize(a), m)
    {
      AltsMatchBounds(a, s, i, m);
      SilentEnds(p, s, lo + 3 + AltsSize(a), m);
    }
    AltsEnds(p, s, lo + 3, a, 0, 0, Count(a), i);
    SilentEnds(p, s, lo, i);
  }

  /** The BRANCH after a list of alternatives, if it is one, ends. */
  ghost predicate NextEnds(p: seq<Byte>, s: seq<Byte>, x: int, i: nat) {
    IsNode(p, x) && (p[x] == BRANCH ==> EndsSoon(p, s, x, i))
  }

  lemma {:induction false} AltsEnds(p: seq<Byte>, s: seq<Byte>, lo: nat, a: Alts, dBranch: nat, dBody: nat, c: nat,
                                    i: nat)
    requires AltsWellFormed(a) && c >= Count(a) && i <= |s|
    requires lo > 0 && At(p, lo, AltsCode(a, dBranch, dBody, c)) && AltsSize(a) + dBranch + dBody < SPAN
    requires IsNode(p, lo + AltsSize(a) + dBody) && AltsExitEnd(p, s, a, i, lo + AltsSize(a) + dBody)
    requires NextEnds(p, s, lo + AltsSize(a) + dBranch, i)
    ensures EndsSoon(p, s, lo, i) && IsBranch(p, lo)
    decreases a, 0
  {
    hide At, Code, AltsCode, EndsSoon, WellFormed, Branched, Matches;
    match a
    case One(b) =>
      AltsCodeOne(b, dBranch, dBody, c);
      BranchedEnds(p, s, lo, b, dBranch, dBody, i);
    case More(init, b) =>
      AltsCodeMore(init, b, dBranch, dBody, c);
      var x := AltsCode(init, 0, dBody + 3 + Size(b), c);
      AtConcat(p, lo, x, Branched(Link(3 + Size(b), dBranch), Code(b, dBody)));
      BranchedEnds(p, s, lo + AltsSize(init), b, dBranch, dBody, i);
      AltsEnds(p, s, lo, init, 0, dBody + 3 + Size(b), c, i);
  }

  lemma {:induction false} BranchedEnds(p: seq<Byte>, s: seq<Byte>, lo: nat, b: Regex, dBranch: nat, d: nat, i: nat)
    requires WellFormed(b) && Size(b) + 3 + dBranch + d < SPAN && i <= |s|
    requires lo > 0 && At(p, lo, Branched(Link(3 + Size(b), dBranch), Code(b, d)))
    requires IsNode(p, lo + 3 + Size(b) + d) && ExitsEnd(p, s, b, i, lo + 3 + Size(b) + d)
    requires NextEnds(p, s, lo + 3 + Size(b) + dBranch, i)
    ensures EndsSoon(p, s, lo, i) && IsBranch(p, lo) && IsNode(p, lo)
    decreases b, 1
  {
    hide At, Code, NextOffset, EndsSoon, WellFormed, Matches;
    PrefixParts(p, lo, BRANCH, 3 + Size(b) + dBranch, Code(b, d));
    CodeEnds(p, s, lo + 3, b, d, i);
    BranchEnds(p, s, lo, i);
  }

  /** All runs of a compiled program end, from every position of every subject. */
  lemma ProgramEnds(p: seq<Byte>, a: Alts, s: seq<Byte>, i: nat)
    requires AltsWellFormed(a) && |Program(a)| < SPAN && At(p, 0, Program(a)) && i <= |s|
    ensures EndsSoon(p, s, 1, i)
  {
    hide AltsWellFormed, AltsCode, At, NextOffset, AltsMatch;
    var x := AltsCode(a, 0, 0, Count(a));
    AtConcat(p, 0, [MAGIC], x + Node(END, 0));
    AtConcat(p, 1, x, Node(END, 0));
    var end := 1 + AltsSize(a);
    AtNode(p, end, END, 0);
    forall m: nat | AltsMatch(a, s, i, m)
      ensures EndsSoon(p, s, end, m)
    {
      AltsMatchBounds(a, s, i, m);
      assert Ends(p, s, end, m, 1);
    }
    AltsEnds(p, s, 1, a, 0, 0, Count(a), i);
  }
}
