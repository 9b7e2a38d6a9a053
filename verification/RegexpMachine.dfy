/**
 The nondeterministic machine that a compiled program describes, as the opcode
 notes of the regexp package define it, and the proof that the code of a
 pattern accepts exactly the substrings that the pattern denotes.
 */
module RegexpMachine {
  import opened RegexpSyntax
  import opened RegexpCode

  // ----- the machine -----

  /** The NUL-terminated string at address `n`. */
  function CString(p: seq<Byte>, n: nat): seq<Byte>
    decreases |p| - n
  {
    if n < |p| && p[n] != 0 then [p[n]] + CString(p, n + 1) else []
  }

  predicate IsMark(op: Byte) {
    OPEN < op < OPEN + 10 || CLOSE < op < CLOSE + 10
  }

  /** The node `n` itself matches `s` from `i` to `k`. */
  predicate Consumes(p: seq<Byte>, s: seq<Byte>, n: nat, i: nat, k: nat)
    requires n + 3 <= |p|
  {
    var op := p[n];
    if op == BOL then i == k == 0
    else if op == EOL then i == k == |s|
    else if op == WORDA then i == k < |s| && IsWordChar(s[i]) && (i > 0 ==> !IsWordChar(s[i - 1]))
    else if op == WORDZ then i == k <= |s| && (i < |s| ==> !IsWordChar(s[i]))
    else if op == ANY then i < |s| && k == i + 1
    else if op == ANYOF then i < |s| && k == i + 1 && s[i] in CString(p, n + 3)
    else if op == ANYBUT then i < |s| && k == i + 1 && s[i] !in CString(p, n + 3)
    else if op == EXACTLY then i <= k <= |s| && s[i..k] == CString(p, n + 3)
    else (op == NOTHING || op == BACK || IsMark(op)) && i == k <= |s|
  }

  /** `c` consecutive matches of the one-character node `n`. */
  ghost predicate ConsumesMany(p: seq<Byte>, s: seq<Byte>, n: nat, c: nat, i: nat, k: nat)
    requires n + 3 <= |p|
  {
    if c == 0 then i == k <= |s|
    else exists m: nat :: Consumes(p, s, n, i, m) && ConsumesMany(p, s, n, c - 1, m, k)
  }

  /** At least `min` consecutive matches of the one-character node `n`. */
  ghost predicate ConsumesSome(p: seq<Byte>, s: seq<Byte>, n: nat, min: nat, i: nat, k: nat)
    requires n + 3 <= |p|
  {
    exists c: nat :: c >= min && ConsumesMany(p, s, n, c, i, k)
  }

  function Operand(n: nat): nat {
    n + 3
  }

  function MinTrips(op: Byte): nat {
    if op == PLUS then 1 else 0
  }

  /** Within `steps` nodes, started at node `n` and position `i`, the machine reaches END at position `j`. */
  ghost predicate Runs(p: seq<Byte>, s: seq<Byte>, n: int, i: nat, j: nat, steps: nat)
    decreases steps
  {
    && steps > 0
    && 0 < n && n + 3 <= |p|
    && var op, next := p[n], Succ(p, n);
       if op == END then i == j <= |s|
       else if op == BRANCH then
         || Runs(p, s, n + 3, i, j, steps - 1)
         || (IsBranch(p, next) && Runs(p, s, next, i, j, steps - 1))
       else if op == STAR || op == PLUS then
         && n + 6 <= |p|
         && exists k: nat ::
              && ConsumesSome(p, s, Operand(n), MinTrips(op), i, k)
              && Runs(p, s, next, k, j, steps - 1)
       else
         exists k: nat :: Consumes(p, s, n, i, k) && Runs(p, s, next, k, j, steps - 1)
  }

  predicate IsBranch(p: seq<Byte>, n: int) {
    0 < n < |p| && p[n] == BRANCH
  }

  /** The program, started at node `n`, matches `s` from `i` to `j`. */
  ghost predicate Accepts(p: seq<Byte>, s: seq<Byte>, n: int, i: nat, j: nat) {
    exists steps: nat :: Runs(p, s, n, i, j, steps)
  }

  // ----- single steps -----

  predicate IsPlain(op: Byte) {
    op != END && op != BRANCH && op != STAR && op != PLUS
  }

  lemma PlainStep(p: seq<Byte>, s: seq<Byte>, n: nat, i: nat, k: nat, j: nat)
    requires 0 < n && n + 3 <= |p| && IsPlain(p[n]) && Consumes(p, s, n, i, k)
    requires Accepts(p, s, Succ(p, n), k, j)
    ensures Accepts(p, s, n, i, j)
  {
    var m: nat :| Runs(p, s, Succ(p, n), k, j, m);
    assert Runs(p, s, n, i, j, m + 1);
  }

  lemma BranchStep(p: seq<Byte>, s: seq<Byte>, n: nat, i: nat, j: nat)
    requires 0 < n && n + 3 <= |p| && p[n] == BRANCH
    requires Accepts(p, s, n + 3, i, j) || (IsBranch(p, Succ(p, n)) && Accepts(p, s, Succ(p, n), i, j))
    ensures Accepts(p, s, n, i, j)
  {
    if Accepts(p, s, n + 3, i, j) {
      var m: nat :| Runs(p, s, n + 3, i, j, m);
      assert Runs(p, s, n, i, j, m + 1);
    } else {
      var m: nat :| Runs(p, s, Succ(p, n), i, j, m);
      assert Runs(p, s, n, i, j, m + 1);
    }
  }

  lemma LoopStep(p: seq<Byte>, s: seq<Byte>, n: nat, i: nat, k: nat, j: nat)
    requires 0 < n && n + 6 <= |p| && (p[n] == STAR || p[n] == PLUS)
    requires ConsumesSome(p, s, Operand(n), MinTrips(p[n]), i, k) && Accepts(p, s, Succ(p, n), k, j)
    ensures Accepts(p, s, n, i, j)
  {
    var m: nat :| Runs(p, s, Succ(p, n), k, j, m);
    assert Runs(p, s, n, i, j, m + 1);
  }

  // ----- one node matches what its construct denotes -----

  lemma {:induction false} CStringAt(p: seq<Byte>, n: nat, cs: seq<Byte>)
    requires At(p, n, cs + [0]) && 0 !in cs
    ensures CString(p, n) == cs
    decreases |cs|
  {
    assert p[n] == (cs + [0])[0];
    if cs != [] {
      assert cs + [0] == [cs[0]] + (cs[1..] + [0]);
      AtConcat(p, n, [cs[0]], cs[1..] + [0]);
      CStringAt(p, n + 1, cs[1..]);
      assert cs == [cs[0]] + cs[1..];
    }
  }

  lemma AtomConsumes(p: seq<Byte>, s: seq<Byte>, n: nat, e: Regex, d: int, i: nat, k: nat)
    requires WellFormed(e) && (e.Leaf? || e.Chars?) && At(p, n, Code(e, d)) && Size(e) + Link(0, d) < SPAN
    ensures n + 3 <= |p| && IsPlain(p[n]) && p[n] != BACK && NextOffset(p, n) == Link(Size(e), d)
    ensures Consumes(p, s, n, i, k) <==> Matches(e, s, i, k)
  {
    hide At, Node, Code, NextOffset;
    CodeAtom(e, d);
    match e
    case Leaf(t) => AtNode(p, n, TestOp(t), Link(3, d));
    case Chars(kind, cs) =>
      PrefixParts(p, n, KindOp(kind), Link(Size(e), d), cs + [0]);
      CStringAt(p, n + 3, cs);
  }

  lemma {:induction false} ManyRepeats(p: seq<Byte>, s: seq<Byte>, n: nat, r: Regex, c: nat, i: nat, k: nat)
    requires WellFormed(r) && Simple(r) && At(p, n, Code(r, DANGLING)) && Size(r) < SPAN
    ensures n + 3 <= |p|
    ensures ConsumesMany(p, s, n, c, i, k) <==> Repeats(r, c, s, i, k)
    decreases c
  {
    hide At, Code, Consumes, Matches;
    AtomConsumes(p, s, n, r, DANGLING, i, k);
    if c > 0 {
      forall m: nat
        ensures Consumes(p, s, n, i, m) <==> Matches(r, s, i, m)
        ensures ConsumesMany(p, s, n, c - 1, m, k) <==> Repeats(r, c - 1, s, m, k)
      {
        AtomConsumes(p, s, n, r, DANGLING, i, m);
        ManyRepeats(p, s, n, r, c - 1, m, k);
      }
    }
  }

  lemma SimpleLoop(p: seq<Byte>, s: seq<Byte>, n: nat, e: Regex, d: int, i: nat, k: nat)
    requires WellFormed(e) && (e.Star? || e.Plus?) && Simple(e.r)
    requires At(p, n, Code(e, d)) && Size(e) + Link(0, d) < SPAN
    ensures n + 6 <= |p| && p[n] == (if e.Plus? then PLUS else STAR) && NextOffset(p, n) == Link(Size(e), d)
    ensures ConsumesSome(p, s, Operand(n), MinTrips(p[n]), i, k) <==> Matches(e, s, i, k)
  {
    hide At, Code, Node, NextOffset;
    CodeStar(e.r, d);
    CodePlus(e.r, d);
    PrefixParts(p, n, if e.Plus? then PLUS else STAR, Link(Size(e), d), Code(e.r, DANGLING));
    forall c: nat
      ensures n + 6 <= |p| && (ConsumesMany(p, s, n + 3, c, i, k) <==> Repeats(e.r, c, s, i, k))
    {
      ManyRepeats(p, s, n + 3, e.r, c, i, k);
    }
    if Matches(e, s, i, k) {
      var c := Trips(e, s, i, k);
      assert ConsumesMany(p, s, n + 3, c, i, k);
    }
    if ConsumesSome(p, s, Operand(n), MinTrips(p[n]), i, k) {
      var c: nat :| c >= MinTrips(p[n]) && ConsumesMany(p, s, n + 3, c, i, k);
      assert Repeats(e.r, c, s, i, k);
    }
  }

  // ----- code accepts what its construct denotes -----

  /** Whatever `e` matches, its code lets through to its exit. */
  lemma {:induction false} Complete(p: seq<Byte>, s: seq<Byte>, lo: nat, e: Regex, d: nat, i: nat, k: nat, j: nat)
    requires WellFormed(e) && lo > 0 && At(p, lo, Code(e, d)) && Size(e) + d < SPAN
    requires Matches(e, s, i, k) && Accepts(p, s, lo + Size(e) + d, k, j)
    ensures Accepts(p, s, lo, i, j)
    decreases e, 1
  {
    hide At, Code, Size, Matches, Accepts, WellFormed;
    match e
    case Leaf(_) => CompleteAtom(p, s, lo, e, d, i, k, j);
    case Chars(_, _) => CompleteAtom(p, s, lo, e, d, i, k, j);
    case Empty => CompleteEmpty(p, s, lo, d, i, k, j);
    case Group(no, a) => CompleteGroup(p, s, lo, no, a, d, i, k, j);
    case Star(_) => CompleteLoop(p, s, lo, e, d, i, k, j);
    case Plus(_) => CompleteLoop(p, s, lo, e, d, i, k, j);
    case Opt(r) => CompleteOpt(p, s, lo, r, d, i, k, j);
    case Cat(a, b) => CompleteCat(p, s, lo, a, b, d, i, k, j);
  }

  lemma CompleteAtom(p: seq<Byte>, s: seq<Byte>, lo: nat, e: Regex, d: nat, i: nat, k: nat, j: nat)
    requires WellFormed(e) && (e.Leaf? || e.Chars?) && lo > 0 && At(p, lo, Code(e, d)) && Size(e) + d < SPAN
    requires Matches(e, s, i, k) && Accepts(p, s, lo + Size(e) + d, k, j)
    ensures Accepts(p, s, lo, i, j)
  {
    hide At, Code, Size, NextOffset, Matches, Accepts, WellFormed, Consumes;
    AtomConsumes(p, s, lo, e, d, i, k);
    PlainStep(p, s, lo, i, k, j);
  }

  lemma CompleteEmpty(p: seq<Byte>, s: seq<Byte>, lo: nat, d: nat, i: nat, k: nat, j: nat)
    requires lo > 0 && At(p, lo, Code(Empty, d)) && Size(Empty) + d < SPAN
    requires Matches(Empty, s, i, k) && Accepts(p, s, lo + Size(Empty) + d, k, j)
    ensures Accepts(p, s, lo, i, j)
  {
    hide At, NextOffset, Accepts, Code;
    CodeAtom(Empty, d);
    AtNode(p, lo, NOTHING, 3 + d);
    NothingStep(p, s, lo, i, j);
  }

  lemma {:induction false} CompleteLoop(p: seq<Byte>, s: seq<Byte>, lo: nat, e: Regex, d: nat, i: nat, k: nat, j: nat)
    requires WellFormed(e) && (e.Star? || e.Plus?) && lo > 0 && At(p, lo, Code(e, d)) && Size(e) + d < SPAN
    requires Matches(e, s, i, k) && Accepts(p, s, lo + Size(e) + d, k, j)
    ensures Accepts(p, s, lo, i, j)
    decreases e, 0
  {
    hide At, Code, Size, NextOffset, Matches, Repeats, Accepts, ConsumesSome, HasWidth, IsPiece;
    if Simple(e.r) {
      SimpleLoop(p, s, lo, e, d, i, k);
      LoopStep(p, s, lo, i, k, j);
    } else {
      var n := Trips(e, s, i, k);
      if e.Star? {
        CompleteStar(p, s, lo, e.r, n, d, i, k, j);
      } else {
        CompletePlus(p, s, lo, e.r, n, d, i, k, j);
      }
    }
  }

  lemma {:induction false} CompleteCat(p: seq<Byte>, s: seq<Byte>, lo: nat, a: Regex, b: Regex, d: nat, i: nat, k: nat,
                                       j: nat)
    requires WellFormed(Cat(a, b)) && lo > 0 && At(p, lo, Code(Cat(a, b), d)) && Size(Cat(a, b)) + d < SPAN
    requires Matches(Cat(a, b), s, i, k) && Accepts(p, s, lo + Size(Cat(a, b)) + d, k, j)
    ensures Accepts(p, s, lo, i, j)
    decreases Cat(a, b), 0
  {
    hide At, Code, Size, Accepts, Matches, IsPiece;
    CodeCat(a, b, d);
    AtConcat(p, lo, Code(a, 0), Code(b, d));
    var m := CatSplit(a, b, s, i, k);
    Complete(p, s, lo + Size(a), b, d, m, k, j);
    Complete(p, s, lo, a, 0, i, m, j);
  }

  lemma {:induction false} CompleteStar(p: seq<Byte>, s: seq<Byte>, lo: nat, r: Regex, n: nat, d: nat, i: nat, k: nat,
                                        j: nat)
    requires WellFormed(r) && !Simple(r) && lo > 0 && At(p, lo, Code(Star(r), d)) && Size(Star(r)) + d < SPAN
    requires Repeats(r, n, s, i, k) && Accepts(p, s, lo + Size(Star(r)) + d, k, j)
    ensures Accepts(p, s, lo, i, j)
    decreases r, n + 1
  {
    hide At, Code, Size, NextOffset, Accepts, WellFormed, StarCode, Matches;
    CodeStar(r, d);
    StarParts(p, lo, Code(r, 0), 3 + d);
    var b := lo + 3 + Size(r);
    if n == 0 {
      NothingStep(p, s, b + 6, i, j);
      BranchStep(p, s, b + 3, i, j);
    } else {
      var m := FirstTrip(r, n, s, i, k);
      MatchBounds(r, s, i, m);
      CompleteStar(p, s, lo, r, n - 1, d, m, k, j);
      BackStep(p, s, b, m, j);
      Complete(p, s, lo + 3, r, 0, i, m, j);
    }
    BranchStep(p, s, lo, i, j);
  }

  lemma NothingStep(p: seq<Byte>, s: seq<Byte>, n: nat, i: nat, j: nat)
    requires 0 < n && n + 3 <= |p| && p[n] == NOTHING && i <= |s| && Accepts(p, s, Succ(p, n), i, j)
    ensures Accepts(p, s, n, i, j)
  {
    PlainStep(p, s, n, i, i, j);
  }

  lemma BackStep(p: seq<Byte>, s: seq<Byte>, n: nat, i: nat, j: nat)
    requires 0 < n && n + 3 <= |p| && p[n] == BACK && i <= |s| && Accepts(p, s, Succ(p, n), i, j)
    ensures Accepts(p, s, n, i, j)
  {
    PlainStep(p, s, n, i, i, j);
  }

  lemma {:induction false} CompletePlus(p: seq<Byte>, s: seq<Byte>, lo: nat, r: Regex, n: nat, d: nat, i: nat, k: nat,
                                        j: nat)
    requires WellFormed(r) && !Simple(r) && lo > 0 && At(p, lo, Code(Plus(r), d)) && Size(Plus(r)) + d < SPAN
    requires n > 0 && Repeats(r, n, s, i, k) && Accepts(p, s, lo + Size(Plus(r)) + d, k, j)
    ensures Accepts(p, s, lo, i, j)
    decreases r, n + 1
  {
    hide At, Code, Size, NextOffset, Accepts, WellFormed, PlusCode, Matches, Repeats;
    CodePlus(r, d);
    PlusParts(p, lo, Code(r, 0), 3 + d);
    var b := lo + Size(r);
    var m := FirstTrip(r, n, s, i, k);
    MatchBounds(r, s, i, m);
    if n == 1 {
      NothingStep(p, s, b + 9, m, j);
      BranchStep(p, s, b + 6, m, j);
    } else {
      CompletePlus(p, s, lo, r, n - 1, d, m, k, j);
      BackStep(p, s, b + 3, m, j);
    }
    BranchStep(p, s, b, m, j);
    Complete(p, s, lo, r, 0, i, m, j);
  }

  lemma {:induction false} CompleteOpt(p: seq<Byte>, s: seq<Byte>, lo: nat, r: Regex, d: nat, i: nat, k: nat, j: nat)
    requires WellFormed(Opt(r)) && lo > 0 && At(p, lo, Code(Opt(r), d)) && Size(Opt(r)) + d < SPAN
    requires Matches(Opt(r), s, i, k) && Accepts(p, s, lo + Size(Opt(r)) + d, k, j)
    ensures Accepts(p, s, lo, i, j)
    decreases r, 2
  {
    hide At, Code, Size, NextOffset, Accepts, OptCode, IsPiece, Matches;
    CodeOpt(r, d);
    OptParts(p, lo, Code(r, 3), 3 + d);
    var b := lo + 3 + Size(r);
    MatchBounds(Opt(r), s, i, k);
    OptMatches(r, s, i, k);
    NothingStep(p, s, b + 3, k, j);
    if Matches(r, s, i, k) {
      Complete(p, s, lo + 3, r, 3, i, k, j);
    } else {
      BranchStep(p, s, b, i, j);
    }
    BranchStep(p, s, lo, i, j);
  }

  lemma {:induction false} CompleteGroup(p: seq<Byte>, s: seq<Byte>, lo: nat, no: nat, a: Alts, d: nat, i: nat, k: nat,
                                         j: nat)
    requires WellFormed(Group(no, a))
    requires lo > 0 && At(p, lo, Code(Group(no, a), d)) && Size(Group(no, a)) + d < SPAN
    requires Matches(Group(no, a), s, i, k) && Accepts(p, s, lo + Size(Group(no, a)) + d, k, j)
    ensures Accepts(p, s, lo, i, j)
    decreases a, 1
  {
    hide At, Code, Size, AltsCode, NextOffset, Accepts, AltsWellFormed, GroupCode, AltsMatch;
    CodeGroup(no, a, d);
    GroupParts(p, lo, no, AltsCode(a, 0, 0, Count(a)), 3 + d);
    AltsMatchBounds(a, s, i, k);
    MarkStep(p, s, lo + 3 + AltsSize(a), k, j);
    CompleteAlts(p, s, lo + 3, a, 0, 0, Count(a), i, k, j);
    MarkStep(p, s, lo, i, j);
  }

  lemma MarkStep(p: seq<Byte>, s: seq<Byte>, n: nat, i: nat, j: nat)
    requires 0 < n && n + 3 <= |p| && IsMark(p[n]) && i <= |s| && Accepts(p, s, Succ(p, n), i, j)
    ensures Accepts(p, s, n, i, j)
  {
    PlainStep(p, s, n, i, i, j);
  }

  /** A list of alternatives lets through what one of them matches, and what the BRANCH after the list accepts. */
  lemma {:induction false} CompleteAlts(p: seq<Byte>, s: seq<Byte>, lo: nat, a: Alts, dBranch: nat, dBody: nat, c: nat,
                                        i: nat, k: nat, j: nat)
    requires AltsWellFormed(a) && c >= Count(a)
    requires lo > 0 && At(p, lo, AltsCode(a, dBranch, dBody, c)) && AltsSize(a) + dBranch + dBody < SPAN
    requires || (AltsMatch(a, s, i, k) && Accepts(p, s, lo + AltsSize(a) + dBody, k, j))
             || (IsBranch(p, lo + AltsSize(a) + dBranch) && Accepts(p, s, lo + AltsSize(a) + dBranch, i, j))
    ensures Accepts(p, s, lo, i, j) && IsBranch(p, lo)
    decreases a, 0
  {
    hide At, Code, Size, AltsCode, Accepts, WellFormed, Branched, Matches;
    match a
    case One(b) =>
      AltsCodeOne(b, dBranch, dBody, c);
      CompleteBranch(p, s, lo, b, dBranch, dBody, i, k, j);
    case More(init, b) =>
      MoreParts(p, lo, init, b, dBranch, dBody, c);
      if !(AltsMatch(init, s, i, k) && Accepts(p, s, lo + AltsSize(a) + dBody, k, j)) {
        CompleteBranch(p, s, lo + AltsSize(init), b, dBranch, dBody, i, k, j);
      }
      CompleteAlts(p, s, lo, init, 0, dBody + 3 + Size(b), c, i, k, j);
  }

  lemma {:induction false} CompleteBranch(p: seq<Byte>, s: seq<Byte>, lo: nat, b: Regex, dBranch: nat, d: nat,
                                          i: nat, k: nat, j: nat)
    requires WellFormed(b) && Size(b) + 3 + dBranch + d < SPAN
    requires lo > 0 && At(p, lo, Branched(Link(3 + Size(b), dBranch), Code(b, d)))
    requires || (Matches(b, s, i, k) && Accepts(p, s, lo + 3 + Size(b) + d, k, j))
             || (IsBranch(p, lo + 3 + Size(b) + dBranch) && Accepts(p, s, lo + 3 + Size(b) + dBranch, i, j))
    ensures Accepts(p, s, lo, i, j) && IsBranch(p, lo)
    decreases b, 2
  {
    hide At, Code, Size, Branched, NextOffset, Accepts, WellFormed, Matches;
    BranchedParts(p, lo, 3 + Size(b) + dBranch, Code(b, d));
    if Matches(b, s, i, k) && Accepts(p, s, lo + 3 + Size(b) + d, k, j) {
      Complete(p, s, lo + 3, b, d, i, k, j);
    }
    BranchStep(p, s, lo, i, j);
  }

  /** Whatever the code of `e` lets through to END, `e` matches up to its exit. */
  lemma {:induction false} Sound(p: seq<Byte>, s: seq<Byte>, lo: nat, e: Regex, d: nat, i: nat, j: nat, n: nat)
    returns (k: nat, m: nat)
    requires WellFormed(e) && lo > 0 && At(p, lo, Code(e, d)) && Size(e) + d < SPAN
    requires Runs(p, s, lo, i, j, n)
    ensures Matches(e, s, i, k) && m < n && Runs(p, s, lo + Size(e) + d, k, j, m)
    decreases n, e, 1
  {
    hide At, Code, Size, Matches, Runs, WellFormed;
    match e
    case Leaf(_) => k := SoundAtom(p, s, lo, e, d, i, j, n); m := n - 1;
    case Chars(_, _) => k := SoundAtom(p, s, lo, e, d, i, j, n); m := n - 1;
    case Empty => k := SoundAtom(p, s, lo, e, d, i, j, n); m := n - 1;
    case Group(no, a) => k, m := SoundGroup(p, s, lo, no, a, d, i, j, n);
    case Star(_) => k, m := SoundLoop(p, s, lo, e, d, i, j, n);
    case Plus(_) => k, m := SoundLoop(p, s, lo, e, d, i, j, n);
    case Opt(r) => k, m := SoundOpt(p, s, lo, r, d, i, j, n);
    case Cat(a, b) => k, m := SoundCat(p, s, lo, a, b, d, i, j, n);
  }

  lemma {:induction false} SoundLoop(p: seq<Byte>, s: seq<Byte>, lo: nat, e: Regex, d: nat, i: nat, j: nat, n: nat)
    returns (k: nat, m: nat)
    requires WellFormed(e) && (e.Star? || e.Plus?) && lo > 0 && At(p, lo, Code(e, d)) && Size(e) + d < SPAN
    requires Runs(p, s, lo, i, j, n)
    ensures Matches(e, s, i, k) && m < n && Runs(p, s, lo + Size(e) + d, k, j, m)
    decreases n, e, 0
  {
    hide At, Code, Size, Matches, Repeats, Runs, HasWidth, IsPiece;
    var c;
    if Simple(e.r) {
      k := SoundSimple(p, s, lo, e, d, i, j, n);
      m := n - 1;
    } else if e.Star? {
      c, k, m := SoundStar(p, s, lo, e.r, d, i, j, n);
      TripsMatch(e, c, s, i, k);
    } else {
      c, k, m := SoundPlus(p, s, lo, e.r, d, i, j, n);
      TripsMatch(e, c, s, i, k);
    }
  }

  lemma {:induction false} SoundCat(p: seq<Byte>, s: seq<Byte>, lo: nat, a: Regex, b: Regex, d: nat, i: nat, j: nat,
                                    n: nat)
    returns (k: nat, m: nat)
    requires WellFormed(Cat(a, b)) && lo > 0 && At(p, lo, Code(Cat(a, b), d)) && Size(Cat(a, b)) + d < SPAN
    requires Runs(p, s, lo, i, j, n)
    ensures Matches(Cat(a, b), s, i, k) && m < n && Runs(p, s, lo + Size(Cat(a, b)) + d, k, j, m)
    decreases n, Cat(a, b), 0
  {
    hide At, Code, Size, Runs, Matches, IsPiece;
    CodeCat(a, b, d);
    AtConcat(p, lo, Code(a, 0), Code(b, d));
    var k1, m1 := Sound(p, s, lo, a, 0, i, j, n);
    k, m := Sound(p, s, lo + Size(a), b, d, k1, j, m1);
    CatJoin(a, b, s, i, k1, k);
  }

  lemma SoundAtom(p: seq<Byte>, s: seq<Byte>, lo: nat, e: Regex, d: nat, i: nat, j: nat, n: nat) returns (k: nat)
    requires WellFormed(e) && (e.Leaf? || e.Chars? || e.Empty?)
    requires lo > 0 && At(p, lo, Code(e, d)) && Size(e) + d < SPAN
    requires Runs(p, s, lo, i, j, n)
    ensures n > 0 && Matches(e, s, i, k) && Runs(p, s, lo + Size(e) + d, k, j, n - 1)
  {
    hide At, Code, NextOffset, Consumes;
    if e.Empty? {
      CodeAtom(e, d);
      AtNode(p, lo, NOTHING, 3 + d);
      k := SilentRun(p, s, lo, i, j, n);
    } else {
      AtomConsumes(p, s, lo, e, d, i, i);
      k :| Consumes(p, s, lo, i, k) && Runs(p, s, Succ(p, lo), k, j, n - 1);
      AtomConsumes(p, s, lo, e, d, i, k);
    }
  }

  /** Running through a node that matches the empty string. */
  lemma SilentRun(p: seq<Byte>, s: seq<Byte>, n: nat, i: nat, j: nat, steps: nat) returns (k: nat)
    requires 0 < n && n + 3 <= |p| && (p[n] == NOTHING || p[n] == BACK || IsMark(p[n]))
    requires Runs(p, s, n, i, j, steps)
    ensures k == i <= |s| && steps > 0 && Runs(p, s, Succ(p, n), i, j, steps - 1)
  {
    k :| Consumes(p, s, n, i, k) && Runs(p, s, Succ(p, n), k, j, steps - 1);
  }

  /** A run from a BRANCH goes on in its operand or at the next BRANCH. */
  lemma BranchRun(p: seq<Byte>, s: seq<Byte>, n: nat, i: nat, j: nat, steps: nat)
    requires 0 < n && n + 3 <= |p| && p[n] == BRANCH && Runs(p, s, n, i, j, steps)
    ensures steps > 0
    ensures Runs(p, s, n + 3, i, j, steps - 1) || (IsBranch(p, Succ(p, n)) && Runs(p, s, Succ(p, n), i, j, steps - 1))
  {
  }

  lemma SimpleLoopAll(p: seq<Byte>, s: seq<Byte>, n: nat, e: Regex, d: int, i: nat)
    requires WellFormed(e) && (e.Star? || e.Plus?) && Simple(e.r)
    requires At(p, n, Code(e, d)) && Size(e) + Link(0, d) < SPAN
    ensures n + 6 <= |p| && p[n] == (if e.Plus? then PLUS else STAR) && NextOffset(p, n) == Link(Size(e), d)
    ensures forall k: nat :: ConsumesSome(p, s, Operand(n), MinTrips(p[n]), i, k) ==> Matches(e, s, i, k)
  {
    hide At, Code, NextOffset, ConsumesSome, Matches, WellFormed;
    SimpleLoop(p, s, n, e, d, i, i);
    forall k: nat | ConsumesSome(p, s, Operand(n), MinTrips(p[n]), i, k)
      ensures Matches(e, s, i, k)
    {
      SimpleLoop(p, s, n, e, d, i, k);
    }
  }

  lemma SoundSimple(p: seq<Byte>, s: seq<Byte>, lo: nat, e: Regex, d: nat, i: nat, j: nat, n: nat) returns (k: nat)
    requires WellFormed(e) && (e.Star? || e.Plus?) && Simple(e.r)
    requires lo > 0 && At(p, lo, Code(e, d)) && Size(e) + d < SPAN
    requires Runs(p, s, lo, i, j, n)
    ensures n > 0 && Matches(e, s, i, k) && Runs(p, s, lo + Size(e) + d, k, j, n - 1)
  {
    hide At, Code, NextOffset, ConsumesSome, Matches, WellFormed;
    SimpleLoopAll(p, s, lo, e, d, i);
    k :| ConsumesSome(p, s, Operand(lo), MinTrips(p[lo]), i, k) && Runs(p, s, Succ(p, lo), k, j, n - 1);
  }

  lemma {:induction false} SoundStar(p: seq<Byte>, s: seq<Byte>, lo: nat, r: Regex, d: nat, i: nat, j: nat, n: nat)
    returns (c: nat, k: nat, m: nat)
    requires WellFormed(r) && !Simple(r) && lo > 0 && At(p, lo, Code(Star(r), d)) && Size(Star(r)) + d < SPAN
    requires Runs(p, s, lo, i, j, n)
    ensures Repeats(r, c, s, i, k) && m < n && Runs(p, s, lo + Size(Star(r)) + d, k, j, m)
    decreases n, r, 2
  {
    hide At, Code, Size, NextOffset, WellFormed, StarCode, Matches, Repeats, Runs;
    CodeStar(r, d);
    StarParts(p, lo, Code(r, 0), 3 + d);
    var b := lo + 3 + Size(r);
    BranchRun(p, s, lo, i, j, n);
    if Runs(p, s, lo + 3, i, j, n - 1) {
      var k1, m1 := Sound(p, s, lo + 3, r, 0, i, j, n - 1);
      var _ := SilentRun(p, s, b, k1, j, m1);
      var c1;
      c1, k, m := SoundStar(p, s, lo, r, d, k1, j, m1 - 1);
      c := c1 + 1;
      OneMoreTrip(r, c1, s, i, k1, k);
    } else {
      BranchRun(p, s, b + 3, i, j, n - 1);
      k := SilentRun(p, s, b + 6, i, j, n - 2);
      c, m := 0, n - 3;
      NoTrip(r, s, i);
    }
  }

  lemma NoTrip(r: Regex, s: seq<Byte>, i: nat)
    requires i <= |s|
    ensures Repeats(r, 0, s, i, i)
  {
  }

  lemma OneMoreTrip(r: Regex, c: nat, s: seq<Byte>, i: nat, m: nat, k: nat)
    requires Matches(r, s, i, m) && Repeats(r, c, s, m, k)
    ensures Repeats(r, c + 1, s, i, k)
  {
    hide Matches;
  }

  lemma {:induction false} SoundPlus(p: seq<Byte>, s: seq<Byte>, lo: nat, r: Regex, d: nat, i: nat, j: nat, n: nat)
    returns (c: nat, k: nat, m: nat)
    requires WellFormed(r) && !Simple(r) && lo > 0 && At(p, lo, Code(Plus(r), d)) && Size(Plus(r)) + d < SPAN
    requires Runs(p, s, lo, i, j, n)
    ensures c > 0 && Repeats(r, c, s, i, k) && m < n && Runs(p, s, lo + Size(Plus(r)) + d, k, j, m)
    decreases n, r, 2
  {
    hide At, Code, Size, NextOffset, WellFormed, PlusCode, Matches, Repeats, Runs;
    CodePlus(r, d);
    PlusParts(p, lo, Code(r, 0), 3 + d);
    var b := lo + Size(r);
    var k1, m1 := Sound(p, s, lo, r, 0, i, j, n);
    BranchRun(p, s, b, k1, j, m1);
    if Runs(p, s, b + 3, k1, j, m1 - 1) {
      var _ := SilentRun(p, s, b + 3, k1, j, m1 - 1);
      var c1;
      c1, k, m := SoundPlus(p, s, lo, r, d, k1, j, m1 - 2);
      c := c1 + 1;
      OneMoreTrip(r, c1, s, i, k1, k);
    } else {
      BranchRun(p, s, b + 6, k1, j, m1 - 1);
      k := SilentRun(p, s, b + 9, k1, j, m1 - 2);
      c, m := 1, m1 - 3;
      NoTrip(r, s, k);
      OneMoreTrip(r, 0, s, i, k1, k);
    }
  }

  lemma {:induction false} SoundOpt(p: seq<Byte>, s: seq<Byte>, lo: nat, r: Regex, d: nat, i: nat, j: nat, n: nat)
    returns (k: nat, m: nat)
    requires WellFormed(Opt(r)) && lo > 0 && At(p, lo, Code(Opt(r), d)) && Size(Opt(r)) + d < SPAN
    requires Runs(p, s, lo, i, j, n)
    ensures Matches(Opt(r), s, i, k) && m < n && Runs(p, s, lo + Size(Opt(r)) + d, k, j, m)
    decreases n, r, 2
  {
    hide At, Code, Size, NextOffset, IsPiece, OptCode, Runs, Matches;
    CodeOpt(r, d);
    OptParts(p, lo, Code(r, 3), 3 + d);
    var b := lo + 3 + Size(r);
    BranchRun(p, s, lo, i, j, n);
    if Runs(p, s, lo + 3, i, j, n - 1) {
      var k1, m1 := Sound(p, s, lo + 3, r, 3, i, j, n - 1);
      k := SilentRun(p, s, b + 3, k1, j, m1);
      m := m1 - 1;
    } else {
      BranchRun(p, s, b, i, j, n - 1);
      k := SilentRun(p, s, b + 3, i, j, n - 2);
      m := n - 3;
    }
    OptMatches(r, s, i, k);
  }

  lemma {:induction false} SoundGroup(p: seq<Byte>, s: seq<Byte>, lo: nat, no: nat, a: Alts, d: nat, i: nat, j: nat,
                                      n: nat)
    returns (k: nat, m: nat)
    requires WellFormed(Group(no, a))
    requires lo > 0 && At(p, lo, Code(Group(no, a), d)) && Size(Group(no, a)) + d < SPAN
    requires Runs(p, s, lo, i, j, n)
    ensures Matches(Group(no, a), s, i, k) && m < n && Runs(p, s, lo + Size(Group(no, a)) + d, k, j, m)
    decreases n, a, 2
  {
    hide At, Code, Size, AltsCode, NextOffset, AltsWellFormed, GroupCode, AltsMatch, Runs;
    CodeGroup(no, a, d);
    GroupParts(p, lo, no, AltsCode(a, 0, 0, Count(a)), 3 + d);
    var _ := SilentRun(p, s, lo, i, j, n);
    var found;
    found, k, m := SoundAlts(p, s, lo + 3, a, 0, 0, Count(a), i, j, n - 1);
    var _ := SilentRun(p, s, lo + 3 + AltsSize(a), k, j, m);
    m := m - 1;
  }

  /** A run through a list of alternatives matches one of them or goes on to the BRANCH after the list. */
  lemma {:induction false} SoundAlts(p: seq<Byte>, s: seq<Byte>, lo: nat, a: Alts, dBranch: nat, dBody: nat, c: nat,
                                     i: nat, j: nat, n: nat)
    returns (found: bool, k: nat, m: nat)
    requires AltsWellFormed(a) && c >= Count(a)
    requires lo > 0 && At(p, lo, AltsCode(a, dBranch, dBody, c)) && AltsSize(a) + dBranch + dBody < SPAN
    requires Runs(p, s, lo, i, j, n)
    ensures m < n
    ensures found ==> AltsMatch(a, s, i, k) && Runs(p, s, lo + AltsSize(a) + dBody, k, j, m)
    ensures !found ==> IsBranch(p, lo + AltsSize(a) + dBranch) && Runs(p, s, lo + AltsSize(a) + dBranch, i, j, m)
    decreases n, a, 1
  {
    hide At, Code, Size, AltsCode, WellFormed, Branched, Matches, Runs;
    match a
    case One(b) =>
      AltsCodeOne(b, dBranch, dBody, c);
      found, k, m := SoundBranch(p, s, lo, b, dBranch, dBody, i, j, n);
    case More(init, b) =>
      MoreParts(p, lo, init, b, dBranch, dBody, c);
      found, k, m := SoundAlts(p, s, lo, init, 0, dBody + 3 + Size(b), c, i, j, n);
      if !found {
        found, k, m := SoundBranch(p, s, lo + AltsSize(init), b, dBranch, dBody, i, j, m);
      }
  }

  lemma {:induction false} SoundBranch(p: seq<Byte>, s: seq<Byte>, lo: nat, b: Regex, dBranch: nat, d: nat,
                                       i: nat, j: nat, n: nat)
    returns (found: bool, k: nat, m: nat)
    requires WellFormed(b) && Size(b) + 3 + dBranch + d < SPAN
    requires lo > 0 && At(p, lo, Branched(Link(3 + Size(b), dBranch), Code(b, d)))
    requires Runs(p, s, lo, i, j, n)
    ensures m < n
    ensures found ==> Matches(b, s, i, k) && Runs(p, s, lo + 3 + Size(b) + d, k, j, m)
    ensures !found ==> IsBranch(p, lo + 3 + Size(b) + dBranch) && Runs(p, s, lo + 3 + Size(b) + dBranch, i, j, m)
    decreases n, b, 2
  {
    hide At, Code, NextOffset, WellFormed, Matches;
    PrefixParts(p, lo, BRANCH, 3 + Size(b) + dBranch, Code(b, d));
    found := Runs(p, s, lo + 3, i, j, n - 1);
    k, m := i, n - 1;
    if found {
      k, m := Sound(p, s, lo + 3, b, d, i, j, n - 1);
    }
  }

  // ----- whole programs -----

  /** What the compiler emits for the alternatives `a` of a pattern. */
  function Program(a: Alts): seq<Byte> {
    [MAGIC] + (AltsCode(a, 0, 0, Count(a)) + Node(END, 0))
  }

  /** Compilation preserves meaning: the emitted program accepts exactly what the pattern denotes. */
  lemma {:induction false} CompilationPreservesMeaning(p: seq<Byte>, a: Alts, s: seq<Byte>, i: nat, j: nat)
    requires AltsWellFormed(a) && |Program(a)| < SPAN && At(p, 0, Program(a))
    ensures Accepts(p, s, 1, i, j) <==> AltsMatch(a, s, i, j)
  {
    hide AltsWellFormed, AltsCode, At, NextOffset, AltsMatch;
    var x := AltsCode(a, 0, 0, Count(a));
    AtConcat(p, 0, [MAGIC], x + Node(END, 0));
    AtConcat(p, 1, x, Node(END, 0));
    var end := 1 + AltsSize(a);
    AtNode(p, end, END, 0);
    if Accepts(p, s, 1, i, j) {
      var n: nat :| Runs(p, s, 1, i, j, n);
      var found, k, m := SoundAlts(p, s, 1, a, 0, 0, Count(a), i, j, n);
    }
    if AltsMatch(a, s, i, j) {
      AltsMatchBounds(a, s, i, j);
      assert Runs(p, s, end, j, j, 1);
      CompleteAlts(p, s, 1, a, 0, 0, Count(a), i, j, j);
    }
  }
}
