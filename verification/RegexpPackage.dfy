/**
 The entry points of the regexp package: sizing, compiling with the derivation
 of match prefilters, and the filtered search.
 */
module RegexpPackage {
  import opened RegexpSyntax
  import opened RegexpCode
  import opened RegexpParser
  import opened RegexpMachine
  import opened RegexpCompiler
  import opened RegexpGrammar
  import opened RegexpMatch
  import opened RegexpWays
  import opened RegexpLinks

  /** `start`: 0 if unknown; `must`: empty if there is none. */
  datatype Prefilter = Prefilter(start: Byte, anchor: bool, must: seq<Byte>)

  const NOTHING_KNOWN := Prefilter(0, false, [])

  // ----- sizing -----

  /** Size needed for a compiled pattern, given that of the fixed part; 0 if the pattern is rejected. */
  method RegexpSize(exp: CStr, header: nat) returns (n: nat)
    requires header > 0 && !Parse(exp, true).Hang?
    ensures var r := Parse(exp, true);
            n == if r.Ok? then header + |Program(r.tree)| % SPAN else 0
  {
    hide Program, ParseReg, AltsCode, At, Node, Count;
    var none := new Byte[0];
    var x := new Compiler(exp, none, DUMMY);
    x.Regc(MAGIC);
    var ret, flags := x.Reg(false);
    if ret == NULL {
      return 0;
    }
    ProgramCounted(Parse(exp, true).tree);
    n := header + x.size;
  }

  /** A program is its magic number and the code of the pattern. */
  lemma ProgramCounted(t: Alts)
    ensures (1 % SPAN + |RegCode(false, 1, t)|) % SPAN == |Program(t)| % SPAN
  {
    hide AltsCode, Node;
  }

  // ----- what the prefilters should be -----

  /** The piece whose first node is the first node of `e`. */
  function First(e: Regex): Regex {
    match e
    case Cat(a, _) => First(a)
    case Plus(r) => if Simple(r) then e else First(r)
    case _ => e
  }

  /** The strings that stand on the `next` chain of `e`, in order. */
  function Texts(e: Regex): seq<seq<Byte>> {
    match e
    case Chars(Exactly, cs) => [cs]
    case Plus(r) => if Simple(r) then [] else Texts(r)
    case Cat(a, b) => Texts(a) + Texts(b)
    case _ => []
  }

  /** The longest of `best` and `texts`, the later one of equals. */
  function Longest(best: seq<Byte>, texts: seq<seq<Byte>>): (r: seq<Byte>)
    ensures r == best || r in texts
    ensures |best| <= |r| && forall t :: t in texts ==> |t| <= |r|
    decreases texts
  {
    if texts == [] then best
    else Longest(if |texts[0]| >= |best| then texts[0] else best, texts[1..])
  }

  function FilterOf(t: Alts): Prefilter {
    if t.More? then NOTHING_KNOWN
    else
      var f := First(t.b);
      Prefilter(
        if f.Chars? && f.kind.Exactly? && |f.cs| > 0 then f.cs[0] else 0,
        f == Leaf(Bol),
        if AltsSpStart(t) then Longest([], Texts(t.b)) else [])
  }

  // ----- and that they are sound -----

  lemma {:induction false} FirstSound(e: Regex, s: seq<Byte>, i: nat, k: nat) returns (m: nat)
    requires WellFormed(e) && Matches(e, s, i, k)
    ensures WellFormed(First(e)) && Matches(First(e), s, i, m) && m <= k
  {
    m := k;
    match e
    case Cat(a, b) =>
      var q: nat :| Matches(a, s, i, q) && Matches(b, s, q, k);
      MatchBounds(b, s, q, k);
      m := FirstSound(a, s, i, q);
    case Plus(r) =>
      if !Simple(r) {
        var n: nat := Trips(e, s, i, k);
        var q: nat :| Matches(r, s, i, q) && Repeats(r, n - 1, s, q, k);
        RepeatBounds(r, n - 1, s, q, k);
        m := FirstSound(r, s, i, q);
      }
    case _ =>
  }

  predicate StandsAt(x: seq<Byte>, s: seq<Byte>, m: nat) {
    m + |x| <= |s| && s[m..m + |x|] == x
  }

  /** `x` occurs in `s` between `i` and `k`. */
  ghost predicate Occurs(x: seq<Byte>, s: seq<Byte>, i: nat, k: nat) {
    exists m: nat :: i <= m && m + |x| <= k && StandsAt(x, s, m)
  }

  lemma {:induction false} TextsSound(e: Regex, x: seq<Byte>, s: seq<Byte>, i: nat, k: nat)
    requires WellFormed(e) && Matches(e, s, i, k) && x in Texts(e)
    ensures Occurs(x, s, i, k)
  {
    MatchBounds(e, s, i, k);
    match e
    case Chars(Exactly, cs) => assert StandsAt(cs, s, i);
    case Cat(a, b) =>
      var q: nat :| Matches(a, s, i, q) && Matches(b, s, q, k);
      MatchBounds(a, s, i, q);
      MatchBounds(b, s, q, k);
      if x in Texts(a) { TextsSound(a, x, s, i, q); } else { TextsSound(b, x, s, q, k); }
    case Plus(r) =>
      var n: nat := Trips(e, s, i, k);
      var q: nat :| Matches(r, s, i, q) && Repeats(r, n - 1, s, q, k);
      RepeatBounds(r, n - 1, s, q, k);
      TextsSound(r, x, s, i, q);
      var m: nat :| i <= m && m + |x| <= q && StandsAt(x, s, m);
      assert m + |x| <= k;
    case _ =>
  }

  /** Every match of a pattern passes its prefilters. */
  lemma PrefilterSound(t: Alts, s: seq<Byte>, i: nat, k: nat)
    requires AltsWellFormed(t) && AltsMatch(t, s, i, k)
    ensures var f := FilterOf(t);
            && (f.start != 0 ==> i < |s| && s[i] == f.start)
            && (f.anchor ==> i == 0)
            && Occurs(f.must, s, 0, |s|)
  {
    hide Matches, WellFormed, First, Texts, Longest, Occurs;
    NothingOccurs(s);
    if t.One? {
      StartSound(t.b, s, i, k);
      MustSound(t.b, s, i, k);
    }
  }

  lemma NothingOccurs(s: seq<Byte>)
    ensures Occurs([], s, 0, |s|)
  {
    assert StandsAt([], s, 0);
  }

  lemma StartSound(e: Regex, s: seq<Byte>, i: nat, k: nat)
    requires WellFormed(e) && Matches(e, s, i, k)
    ensures var f := First(e);
            && (f.Chars? && f.kind.Exactly? && |f.cs| > 0 ==> i < |s| && s[i] == f.cs[0])
            && (f == Leaf(Bol) ==> i == 0)
  {
    var m := FirstSound(e, s, i, k);
    var f := First(e);
    if f.Chars? && f.kind.Exactly? {
      assert s[i..m][0] == f.cs[0];
    }
  }

  lemma MustSound(e: Regex, s: seq<Byte>, i: nat, k: nat)
    requires WellFormed(e) && Matches(e, s, i, k)
    ensures Occurs(Longest([], Texts(e)), s, 0, |s|)
  {
    hide Matches, WellFormed, Texts;
    NothingOccurs(s);
    MatchBounds(e, s, i, k);
    var must := Longest([], Texts(e));
    if must in Texts(e) {
      TextsSound(e, must, s, i, k);
      var q: nat :| i <= q && q + |must| <= k && StandsAt(must, s, q);
    }
  }

  // ----- deriving them from the program -----

  /** The strings of the EXACTLY nodes on the `next` chain from node `n` up to node `t`. */
  ghost function ChainTexts(p: seq<Byte>, n: nat, t: nat): seq<seq<Byte>>
    requires Path(p, n, t)
    decreases t - n
  {
    if n == t then [] else NodeText(p, n) + ChainTexts(p, n + NextOffset(p, n), t)
  }

  ghost function NodeText(p: seq<Byte>, n: nat): seq<seq<Byte>>
    requires n + 3 <= |p|
  {
    if p[n] == EXACTLY then [CString(p, n + 3)] else []
  }

  lemma {:induction false} ChainTextsConcat(p: seq<Byte>, n: nat, t: nat, u: nat)
    requires Path(p, n, t) && Path(p, t, u)
    ensures Path(p, n, u) && ChainTexts(p, n, u) == ChainTexts(p, n, t) + ChainTexts(p, t, u)
    decreases t - n
  {
    hide NextOffset, NodeText;
    PathConcat(p, n, t, u);
    if n < t {
      ChainTextsConcat(p, n + NextOffset(p, n), t, u);
    }
  }

  /** A chain of one link. */
  lemma StepTexts(p: seq<Byte>, n: nat, o: nat)
    requires n + o + 3 <= |p| && o > 0 && p[n] != BACK && NextOffset(p, n) == o
    ensures Path(p, n, n + o) && ChainTexts(p, n, n + o) == NodeText(p, n)
  {
    assert Path(p, n + o, n + o);
    assert ChainTexts(p, n + o, n + o) == [];
  }

  /** The chain through a piece of code and out of it carries the strings of its syntax tree. */
  lemma {:induction false} CodeTexts(p: seq<Byte>, lo: nat, e: Regex, d: nat)
    requires WellFormed(e) && At(p, lo, Code(e, d)) && Size(e) + d < SPAN && lo + Size(e) + d + 3 <= |p|
    ensures Path(p, lo, lo + Size(e) + d) && ChainTexts(p, lo, lo + Size(e) + d) == Texts(e)
    decreases e, 0
  {
    hide At, Code, NextOffset, Path, ChainTexts, HasWidth;
    match e
    case Leaf(_) => AtomTexts(p, lo, e, d);
    case Chars(_, _) => AtomTexts(p, lo, e, d);
    case Empty => AtomTexts(p, lo, e, d);
    case Group(no, a) => GroupTexts(p, lo, no, a, d);
    case Star(r) => StarTexts(p, lo, r, d);
    case Plus(r) => PlusTexts(p, lo, r, d);
    case Opt(r) => OptTexts(p, lo, r, d);
    case Cat(a, b) =>
      CodeCat(a, b, d);
      AtConcat(p, lo, Code(a, 0), Code(b, d));
      CodeTexts(p, lo, a, 0);
      CodeTexts(p, lo + Size(a), b, d);
      ChainTextsConcat(p, lo, lo + Size(a), lo + Size(e) + d);
  }

  lemma AtomTexts(p: seq<Byte>, lo: nat, e: Regex, d: nat)
    requires WellFormed(e) && (e.Leaf? || e.Chars? || e.Empty?)
    requires At(p, lo, Code(e, d)) && Size(e) + d < SPAN && lo + Size(e) + d + 3 <= |p|
    ensures Path(p, lo, lo + Size(e) + d) && ChainTexts(p, lo, lo + Size(e) + d) == Texts(e)
  {
    hide At, Code, NextOffset, Path, ChainTexts;
    CodeAtom(e, d);
    match e
    case Leaf(t) => AtNode(p, lo, TestOp(t), 3 + d); StepTexts(p, lo, 3 + d);
    case Empty => AtNode(p, lo, NOTHING, 3 + d); StepTexts(p, lo, 3 + d);
    case Chars(kind, cs) =>
      PrefixParts(p, lo, KindOp(kind), Size(e) + d, cs + [0]);
      CStringAt(p, lo + 3, cs);
      StepTexts(p, lo, Size(e) + d);
  }

  lemma SilentTexts(p: seq<Byte>, n: nat, o1: nat, o2: nat)
    requires n + o1 + o2 + 3 <= |p| && o1 > 0 && o2 > 0
    requires p[n] != BACK && p[n] != EXACTLY && NextOffset(p, n) == o1
    requires p[n + o1] != BACK && p[n + o1] != EXACTLY && NextOffset(p, n + o1) == o2
    ensures Path(p, n, n + o1 + o2) && ChainTexts(p, n, n + o1 + o2) == []
  {
    hide NextOffset, Path, ChainTexts;
    StepTexts(p, n, o1);
    StepTexts(p, n + o1, o2);
    ChainTextsConcat(p, n, n + o1, n + o1 + o2);
  }

  lemma StarTexts(p: seq<Byte>, lo: nat, r: Regex, d: nat)
    requires At(p, lo, Code(Star(r), d)) && Size(Star(r)) + d < SPAN && lo + Size(Star(r)) + d + 3 <= |p|
    ensures var x := lo + Size(Star(r)) + d; Path(p, lo, x) && ChainTexts(p, lo, x) == []
  {
    hide At, Code, NextOffset, Path, ChainTexts, StarCode;
    CodeStar(r, d);
    if Simple(r) {
      PrefixParts(p, lo, STAR, 3 + Size(r) + d, Code(r, DANGLING));
      StepTexts(p, lo, 3 + Size(r) + d);
    } else {
      StarParts(p, lo, Code(r, 0), 3 + d);
      var n := lo + Size(r) + 6;
      StepTexts(p, lo, Size(r) + 6);
      SilentTexts(p, n, 3, 3 + d);
      ChainTextsConcat(p, lo, n, n + 6 + d);
    }
  }

  lemma {:induction false} PlusTexts(p: seq<Byte>, lo: nat, r: Regex, d: nat)
    requires WellFormed(r) && At(p, lo, Code(Plus(r), d)) && Size(Plus(r)) + d < SPAN
    requires lo + Size(Plus(r)) + d + 3 <= |p|
    ensures var x := lo + Size(Plus(r)) + d; Path(p, lo, x) && ChainTexts(p, lo, x) == Texts(Plus(r))
    decreases r, 1
  {
    hide At, Code, NextOffset, Path, ChainTexts, PlusCode, WellFormed;
    CodePlus(r, d);
    if Simple(r) {
      PrefixParts(p, lo, PLUS, 3 + Size(r) + d, Code(r, DANGLING));
      StepTexts(p, lo, 3 + Size(r) + d);
    } else {
      PlusParts(p, lo, Code(r, 0), 3 + d);
      CodeTexts(p, lo, r, 0);
      AgainTexts(p, lo, lo + Size(r), d);
    }
  }

  /** The nodes after the operand of a loop that runs at least once carry no string. */
  lemma AgainTexts(p: seq<Byte>, lo: nat, n: nat, d: nat)
    requires Path(p, lo, n) && n + 12 + d + 3 <= |p|
    requires p[n] == BRANCH && NextOffset(p, n) == 6
    requires p[n + 6] == BRANCH && NextOffset(p, n + 6) == 3
    requires p[n + 9] == NOTHING && NextOffset(p, n + 9) == 3 + d
    ensures Path(p, lo, n + 12 + d) && ChainTexts(p, lo, n + 12 + d) == ChainTexts(p, lo, n)
  {
    hide NextOffset, Path, ChainTexts;
    StepTexts(p, n, 6);
    SilentTexts(p, n + 6, 3, 3 + d);
    ChainTextsConcat(p, n, n + 6, n + 12 + d);
    ChainTextsConcat(p, lo, n, n + 12 + d);
  }

  lemma OptTexts(p: seq<Byte>, lo: nat, r: Regex, d: nat)
    requires At(p, lo, Code(Opt(r), d)) && Size(Opt(r)) + d < SPAN && lo + Size(Opt(r)) + d + 3 <= |p|
    ensures var x := lo + Size(Opt(r)) + d; Path(p, lo, x) && ChainTexts(p, lo, x) == []
  {
    hide At, Code, NextOffset, Path, ChainTexts, OptCode;
    CodeOpt(r, d);
    OptParts(p, lo, Code(r, 3), 3 + d);
    var n := lo + Size(r) + 3;
    StepTexts(p, lo, Size(r) + 3);
    SilentTexts(p, n, 3, 3 + d);
    ChainTextsConcat(p, lo, n, n + 6 + d);
  }

  lemma GroupTexts(p: seq<Byte>, lo: nat, no: nat, a: Alts, d: nat)
    requires 1 <= no < 10
    requires At(p, lo, Code(Group(no, a), d)) && Size(Group(no, a)) + d < SPAN && lo + Size(Group(no, a)) + d + 3 <= |p|
    ensures var x := lo + Size(Group(no, a)) + d; Path(p, lo, x) && ChainTexts(p, lo, x) == []
  {
    hide At, Code, AltsCode, NextOffset, Path, ChainTexts, GroupCode, AltsSize, Count;
    CodeGroup(no, a, d);
    GroupParts(p, lo, no, AltsCode(a, 0, 0, Count(a)), 3 + d);
    var n := lo + 3 + AltsSize(a);
    StepTexts(p, lo, 3);
    AltsTexts(p, lo + 3, a, 0, 0, Count(a));
    StepTexts(p, n, 3 + d);
    hide Size;
    ChainTextsConcat(p, lo + 3, n, n + 3 + d);
    ChainTextsConcat(p, lo, lo + 3, n + 3 + d);
  }

  lemma {:induction false} AltsTexts(p: seq<Byte>, lo: nat, a: Alts, dBranch: nat, dBody: nat, c: nat)
    requires At(p, lo, AltsCode(a, dBranch, dBody, c)) && AltsSize(a) + dBranch < SPAN
    requires lo + AltsSize(a) + dBranch + 3 <= |p|
    ensures var x := lo + AltsSize(a) + dBranch; Path(p, lo, x) && ChainTexts(p, lo, x) == []
  {
    hide At, Code, AltsCode, NextOffset, Path, ChainTexts, Branched;
    match a
    case One(b) =>
      AltsCodeOne(b, dBranch, dBody, c);
      BranchedParts(p, lo, 3 + Size(b) + dBranch, Code(b, if 0 < c then dBody else DANGLING));
      StepTexts(p, lo, 3 + Size(b) + dBranch);
    case More(i, b) =>
      AltsCodeMore(i, b, dBranch, dBody, c);
      AltsParts(p, lo, AltsCode(i, 0, dBody + 3 + Size(b), c), 3 + Size(b) + dBranch,
                Code(b, if Count(i) < c then dBody else DANGLING));
      var n := lo + AltsSize(i);
      AltsTexts(p, lo, i, 0, dBody + 3 + Size(b), c);
      StepTexts(p, n, 3 + Size(b) + dBranch);
      ChainTextsConcat(p, lo, n, n + 3 + Size(b) + dBranch);
  }

  /** Opcode of the first node of `First(e)`. */
  function FirstOp(e: Regex): Byte {
    match e
    case Leaf(t) => TestOp(t)
    case Chars(k, _) => KindOp(k)
    case Empty => NOTHING
    case Group(no, _) => GroupOp(OPEN, no)
    case Star(r) => if Simple(r) then STAR else BRANCH
    case Plus(r) => if Simple(r) then PLUS else FirstOp(r)
    case Opt(_) => BRANCH
    case Cat(a, _) => FirstOp(a)
  }

  lemma {:induction false} FirstOpOf(e: Regex)
    requires WellFormed(e)
    ensures First(e).Chars? ==> |First(e).cs| > 0
    ensures FirstOp(e) == EXACTLY <==> First(e).Chars? && First(e).kind.Exactly?
    ensures FirstOp(e) == BOL <==> First(e) == Leaf(Bol)
  {
    match e
    case Cat(a, _) => FirstOpOf(a);
    case Plus(r) => if !Simple(r) { FirstOpOf(r); }
    case _ =>
  }

  lemma {:induction false} FirstNodeAt(p: seq<Byte>, lo: nat, e: Regex, d: nat)
    requires WellFormed(e) && At(p, lo, Code(e, d)) && Size(e) + d < SPAN
    ensures lo + 3 <= |p| && p[lo] == FirstOp(e)
    ensures First(e).Chars? && |First(e).cs| > 0 ==> lo + 3 < |p| && p[lo + 3] == First(e).cs[0]
    decreases e, 0
  {
    hide At, Code, NextOffset, HasWidth;
    match e
    case Leaf(t) => CodeAtom(e, d); AtNode(p, lo, TestOp(t), 3 + d);
    case Empty => CodeAtom(e, d); AtNode(p, lo, NOTHING, 3 + d);
    case Chars(k, cs) =>
      CodeAtom(e, d);
      PrefixParts(p, lo, KindOp(k), Size(e) + d, cs + [0]);
      FirstChar(p, lo + 3, cs);
    case Group(no, a) => CodeGroup(no, a, d); GroupParts(p, lo, no, AltsCode(a, 0, 0, Count(a)), 3 + d);
    case Star(r) => FirstNodeOfLoop(p, lo, e, d);
    case Plus(r) => FirstNodeOfLoop(p, lo, e, d);
    case Opt(r) => FirstNodeOfLoop(p, lo, e, d);
    case Cat(a, b) => CodeCat(a, b, d); AtConcat(p, lo, Code(a, 0), Code(b, d)); FirstNodeAt(p, lo, a, 0);
  }

  lemma {:induction false} FirstNodeOfLoop(p: seq<Byte>, lo: nat, e: Regex, d: nat)
    requires (e.Star? || e.Plus? || e.Opt?) && WellFormed(e) && At(p, lo, Code(e, d)) && Size(e) + d < SPAN
    ensures lo + 3 <= |p| && p[lo] == FirstOp(e)
    ensures First(e).Chars? && |First(e).cs| > 0 ==> lo + 3 < |p| && p[lo + 3] == First(e).cs[0]
    decreases e.r, 1
  {
    hide At, Code, NextOffset, HasWidth, IsPiece, Node, StarCode, PlusCode, OptCode;
    match e
    case Opt(r) =>
      CodeOpt(r, d);
      OptParts(p, lo, Code(r, 3), 3 + d);
    case Star(r) =>
      CodeStar(r, d);
      if Simple(r) { PrefixParts(p, lo, STAR, Size(e) + d, Code(r, DANGLING)); }
      else { StarParts(p, lo, Code(r, 0), 3 + d); }
    case Plus(r) =>
      CodePlus(r, d);
      if Simple(r) { PrefixParts(p, lo, PLUS, Size(e) + d, Code(r, DANGLING)); }
      else { PlusParts(p, lo, Code(r, 0), 3 + d); FirstNodeAt(p, lo, r, 0); }
  }

  lemma FirstChar(p: seq<Byte>, n: nat, cs: seq<Byte>)
    requires At(p, n, cs + [0]) && |cs| > 0
    ensures n < |p| && p[n] == cs[0]
  {
    assert p[n + 0] == (cs + [0])[0];
  }

  // ----- compiling -----

  /** The shape of an emitted program around its first alternative. */
  lemma ProgramParts(p: seq<Byte>, t: Alts)
    requires AltsWellFormed(t) && At(p, 0, Program(t)) && |Program(t)| < SPAN
    ensures At(p, 1, AltsCode(t, 0, 0, Count(t)))
    ensures 1 + AltsSize(t) + 3 <= |p| && p[1 + AltsSize(t)] == END && NextOffset(p, 1 + AltsSize(t)) == 0
    ensures p[1] == BRANCH && 0 < Succ(p, 1) < |p| && (p[Succ(p, 1)] == END <==> t.One?)
    ensures t.One? ==> At(p, 4, Code(t.b, 0)) && Succ(p, 1) == 4 + Size(t.b)
  {
    hide At, AltsCode, NextOffset, Code, Branched, AltsWellFormed, Size;
    var x := AltsCode(t, 0, 0, Count(t));
    AtConcat(p, 0, [MAGIC], x + Node(END, 0));
    AtConcat(p, 1, x, Node(END, 0));
    AtNode(p, 1 + AltsSize(t), END, 0);
    NthBranch(p, 1, t, 0, 0, 0, Count(t));
    BranchEndAt(t, 0);
    FirstBranch(t);
    if t.One? {
      AltsCodeOne(t.b, 0, 0, 1);
      BranchedParts(p, 1, 3 + Size(t.b), Code(t.b, 0));
    } else {
      NthBranch(p, 1, t, 0, 0, 1, Count(t));
    }
  }

  /** One round of the search for the longest string. */
  lemma LongestStep(p: seq<Byte>, n: nat, end: nat, must: seq<Byte>, next: seq<Byte>)
    requires 0 < n && Path(p, n, end) && p[end] == END && NextOffset(p, end) == 0
    requires next == if p[n] == EXACTLY && |CString(p, n + 3)| >= |must| then CString(p, n + 3) else must
    ensures var s := Succ(p, n);
            if n == end then s == 0 && next == Longest(must, ChainTexts(p, n, end))
            else
              && n < s <= end && Path(p, s, end)
              && Longest(next, ChainTexts(p, s, end)) == Longest(must, ChainTexts(p, n, end))
  {
    hide NextOffset;
    if n < end {
      var rest := ChainTexts(p, Succ(p, n), end);
      assert ChainTexts(p, n, end) == NodeText(p, n) + rest;
      if p[n] == EXACTLY {
        assert ([CString(p, n + 3)] + rest)[1..] == rest;
      } else {
        assert [] + rest == rest;
      }
    }
  }

  /** The last longest string on the `next` chain from node `n`. */
  method LongestText(program: array<Byte>, n: nat, ghost end: nat) returns (must: seq<Byte>)
    requires 0 < n && Path(program[..], n, end) && program[end] == END && NextOffset(program[..], end) == 0
    ensures must == Longest([], ChainTexts(program[..], n, end))
  {
    hide NextOffset, ChainTexts, Longest, CString, Succ;
    must := [];
    var scan := n;
    ghost var p := program[..];
    ghost var goal := Longest([], ChainTexts(p, n, end));
    PathEnd(p, n, end);
    hide Path;
    while scan != NULL
      invariant scan == NULL || (0 < scan <= end && Path(p, scan, end) && scan + 3 <= |p|)
      invariant goal == if scan == NULL then must else Longest(must, ChainTexts(p, scan, end))
      decreases if scan == NULL then 0 else end - scan + 1
    {
      ghost var was := must;
      if program[scan] == EXACTLY {
        var text := CString(program[..], scan + 3);
        if |text| >= |must| {
          must := text;
        }
      }
      LongestStep(p, scan, end, was, must);
      scan := Succ(program[..], scan);
    }
  }

  lemma PathEnd(p: seq<Byte>, n: nat, end: nat)
    requires Path(p, n, end)
    ensures n <= end && end + 3 <= |p|
  {
  }

  /** Compile a pattern into `program` and derive its prefilters. */
  method RegexpCompile(exp: CStr, program: array<Byte>) returns (ok: bool, filter: Prefilter)
    requires !Parse(exp, true).Hang?
    requires 1 + RegRoom(Parse(exp, true), false) <= program.Length && 1 + RegRoom(Parse(exp, true), false) < SPAN
    modifies program
    ensures var r := Parse(exp, true);
            && ok == r.Ok?
            && (ok ==> At(program[..], 0, Program(r.tree)) && |Program(r.tree)| < SPAN && filter == FilterOf(r.tree))
  {
    hide At, Program, ParseReg, FilterOf;
    filter := NOTHING_KNOWN;
    var flags;
    ok, flags := EmitProgram(exp, program);
    if ok {
      filter := DeriveFilter(program, flags.spStart, Parse(exp, true).tree);
    }
  }

  /** What every match needs, read off the program of the alternatives `t`. */
  method DeriveFilter(program: array<Byte>, spStart: bool, ghost t: Alts) returns (filter: Prefilter)
    requires AltsWellFormed(t) && At(program[..], 0, Program(t)) && |Program(t)| < SPAN && spStart == AltsSpStart(t)
    ensures filter == FilterOf(t)
  {
    hide At, Path, NextOffset, AltsCode, First, Texts, Code, Size, WellFormed, ChainTexts, Longest;
    filter := NOTHING_KNOWN;
    ProgramParts(program[..], t);
    var scan := 1;
    if program[Succ(program[..], scan)] == END {
      scan := scan + 3;
      OnlyBranch(program[..], t.b);
      var start, anchor, must := 0, false, [];
      if program[scan] == EXACTLY {
        start := program[scan + 3];
      } else if program[scan] == BOL {
        anchor := true;
      }
      if spStart {
        must := LongestText(program, scan, scan + Size(t.b));
      }
      filter := Prefilter(start, anchor, must);
    }
  }

  /** What the code of the only alternative shows of it. */
  lemma OnlyBranch(p: seq<Byte>, e: Regex)
    requires WellFormed(e) && At(p, 4, Code(e, 0)) && Size(e) < SPAN && 4 + Size(e) + 3 <= |p|
    ensures var f := First(e);
            && (p[4] == EXACTLY <==> f.Chars? && f.kind.Exactly?)
            && (p[4] == EXACTLY ==> |f.cs| > 0 && p[7] == f.cs[0])
            && (p[4] == BOL <==> f == Leaf(Bol))
    ensures Path(p, 4, 4 + Size(e)) && ChainTexts(p, 4, 4 + Size(e)) == Texts(e)
  {
    hide At, Path, Code, First, FirstOp, Size, WellFormed, ChainTexts, Texts;
    FirstNodeAt(p, 4, e, 0);
    FirstOpOf(e);
    CodeTexts(p, 4, e, 0);
  }

  method EmitProgram(exp: CStr, program: array<Byte>) returns (ok: bool, flags: Flags)
    requires !Parse(exp, true).Hang?
    requires 1 + RegRoom(Parse(exp, true), false) <= program.Length && 1 + RegRoom(Parse(exp, true), false) < SPAN
    modifies program
    ensures var r := Parse(exp, true);
            && ok == r.Ok?
            && (ok ==> At(program[..], 0, Program(r.tree)) && |Program(r.tree)| < SPAN)
            && (ok ==> flags.spStart == AltsSpStart(r.tree))
  {
    hide AltsCode, ParseReg;
    var x := new Compiler(exp, program, 0);
    x.Regc(MAGIC);
    var ret;
    ret, flags := x.Reg(false);
    ok := ret != NULL;
    if ok {
      AtConcat(program[..], 0, [MAGIC], RegCode(false, 1, Parse(exp, true).tree));
    }
  }

  // ----- searching -----

  /** First position from `m` on that holds `c`; -1 if there is none. */
  method StrChr(s: seq<Byte>, m: nat, c: Byte) returns (k: int)
    requires m <= |s|
    ensures k == -1 || (m <= k < |s| && s[k] == c)
    ensures forall q :: m <= q < (if k == -1 then |s| else k) ==> s[q] != c
  {
    k := m;
    while k < |s|
      invariant m <= k <= |s|
      invariant forall q :: m <= q < k ==> s[q] != c
    {
      if s[k] == c {
        return;
      }
      k := k + 1;
    }
    k := -1;
  }

  lemma StandsOnFirst(x: seq<Byte>, s: seq<Byte>)
    requires x != []
    ensures forall m: nat :: StandsAt(x, s, m) ==> m < |s| && s[m] == x[0]
  {
    forall m: nat | StandsAt(x, s, m)
      ensures m < |s| && s[m] == x[0]
    {
      assert s[m..m + |x|][0] == s[m];
    }
  }

  /** Whether `must` occurs in the subject. */
  method Present(must: seq<Byte>, s: seq<Byte>) returns (present: bool)
    requires must != []
    ensures present <==> Occurs(must, s, 0, |s|)
  {
    StandsOnFirst(must, s);
    var k := StrChr(s, 0, must[0]);
    while k != -1
      invariant k == -1 || 0 <= k < |s|
      invariant forall q: nat :: q < (if k == -1 then |s| else k) ==> !StandsAt(must, s, q)
      decreases if k == -1 then 0 else |s| - k
    {
      if StandsAt(must, s, k) {
        return true;
      }
      k := StrChr(s, k + 1, must[0]);
    }
    present := false;
  }

  /** The alternatives match somewhere from position `i` on. */
  ghost predicate MatchAt(t: Alts, s: seq<Byte>, i: nat) {
    exists j: nat :: AltsMatch(t, s, i, j)
  }

  lemma PrefilterLosesNone(t: Alts, s: seq<Byte>)
    requires AltsWellFormed(t)
    ensures var f := FilterOf(t);
            forall i: nat :: MatchAt(t, s, i) ==>
              && i <= |s|
              && (f.start != 0 ==> i < |s| && s[i] == f.start)
              && (f.anchor ==> i == 0)
              && Occurs(f.must, s, 0, |s|)
  {
    hide AltsMatch, AltsWellFormed, FilterOf, Occurs;
    var f := FilterOf(t);
    forall i: nat | MatchAt(t, s, i)
      ensures i <= |s| && (f.start != 0 ==> i < |s| && s[i] == f.start)
      ensures (f.anchor ==> i == 0) && Occurs(f.must, s, 0, |s|)
    {
      var j: nat :| AltsMatch(t, s, i, j);
      PrefilterSound(t, s, i, j);
      AltsMatchBounds(t, s, i, j);
    }
  }

  /** The positions that pass the prefilters. */
  ghost predicate IsTried(filter: Prefilter, s: seq<Byte>, i: nat) {
    && i <= |s|
    && (filter.must != [] ==> Occurs(filter.must, s, 0, |s|))
    && (filter.anchor ==> i == 0)
    && (!filter.anchor && filter.start != 0 ==> i < |s| && s[i] == filter.start)
  }

  /**
   Search the subject for a match.  With a wide counter it is found whenever
   there is one, and the one found starts as early as any; the prefilters lose
   none.  Its end and the bounds of its groups are those of the first way of the
   pattern from there.  With a 16-bit counter the search gets lost only where a STAR is met, and
   on a subject without a match it gets lost exactly if some position that is
   tried leads to a STAR.
   */
  method RegexpExecute(program: seq<Byte>, filter: Prefilter, s: CStr, wide: bool, ghost t: Alts)
    returns (a: Answer, first: nat, last: nat, startp: seq<int>, endp: seq<int>)
    requires AltsWellFormed(t) && filter == FilterOf(t) && |Program(t)| < SPAN && At(program, 0, Program(t))
    requires wide || |s| < SPAN - 1
    ensures a == Yes ==> AltsMatch(t, s, first, last) && forall i: nat :: i < first ==> !MatchAt(t, s, i)
    ensures a == Yes ==> IsMatch(t, s, first, last, startp, endp)
    ensures a == No ==> forall i: nat :: !MatchAt(t, s, i) && (!wide && IsTried(filter, s, i) ==>
              !MeetsStar(program, s, 1, i))
    ensures a == Lost ==>
              && !wide && !AltsStarless(t)
              && exists i: nat :: IsTried(filter, s, i) && MeetsStar(program, s, 1, i)
  {
    hide AltsMatch, AltsWellFormed, FilterOf, Occurs, Program, At, StandsAt, AltsStarless, MeetsStar, IsMatch;
    PrefilterLosesNone(t, s);
    a, first, last, startp, endp := No, 0, 0, NONE, NONE;
    if filter.must != [] {
      var present := Present(filter.must, s);
      if !present {
        return;
      }
    }
    var z := new Executor(program, s, wide);
    if filter.anchor {
      a := z.RegTry(0, t);
      last, startp, endp := z.input, z.startp, z.endp;
      if a == Lost { LostHere(program, t, filter, s, 0); }
    } else if filter.start != 0 {
      var k := StrChr(s, 0, filter.start);
      while k != -1
        invariant z.p == program && z.s == s && z.wide == wide && (k == -1 || (0 <= k < |s| && s[k] == filter.start))
        invariant forall i: nat :: i < (if k == -1 then |s| else k) ==> IsPassed(t, filter, program, s, wide, i)
        decreases if k == -1 then 0 else |s| - k
      {
        a := z.RegTry(k, t);
        if a != No {
          if a == Lost { LostHere(program, t, filter, s, k); }
          NoneBefore(t, filter, program, s, wide, k);
          return a, k, z.input, z.startp, z.endp;
        }
        k := StrChr(s, k + 1, filter.start);
      }
      a := No;
      AllPassed(t, filter, program, s, wide);
    } else {
      for k := 0 to |s| + 1
        invariant z.p == program && z.s == s && z.wide == wide
        invariant forall i: nat :: i < k ==> IsPassed(t, filter, program, s, wide, i)
      {
        a := z.RegTry(k, t);
        if a != No {
          if a == Lost { LostHere(program, t, filter, s, k); }
          NoneBefore(t, filter, program, s, wide, k);
          return a, k, z.input, z.startp, z.endp;
        }
      }
      a := No;
      AllPassed(t, filter, program, s, wide);
    }
  }

  /** No match at a position, and no STAR met if it is tried. */
  ghost predicate IsPassed(t: Alts, filter: Prefilter, program: seq<Byte>, s: seq<Byte>, wide: bool, i: nat) {
    !MatchAt(t, s, i) && (!wide && IsTried(filter, s, i) ==> !MeetsStar(program, s, 1, i))
  }

  lemma AllPassed(t: Alts, filter: Prefilter, program: seq<Byte>, s: seq<Byte>, wide: bool)
    requires forall i: nat :: i < |s| ==> IsPassed(t, filter, program, s, wide, i)
    requires (filter.start != 0 && !filter.anchor) || IsPassed(t, filter, program, s, wide, |s|)
    requires forall i: nat :: MatchAt(t, s, i) ==> IsTried(filter, s, i)
    ensures forall i: nat :: !MatchAt(t, s, i) && (!wide && IsTried(filter, s, i) ==> !MeetsStar(program, s, 1, i))
  {
    hide MatchAt, MeetsStar;
    forall i: nat
      ensures !MatchAt(t, s, i) && (!wide && IsTried(filter, s, i) ==> !MeetsStar(program, s, 1, i))
    {
      if i <= |s| { assert i == |s| || IsPassed(t, filter, program, s, wide, i); }
    }
  }

  lemma NoneBefore(t: Alts, filter: Prefilter, program: seq<Byte>, s: seq<Byte>, wide: bool, k: nat)
    requires forall i: nat :: i < k ==> IsPassed(t, filter, program, s, wide, i)
    ensures forall i: nat :: i < k ==> !MatchAt(t, s, i)
  {
    hide MatchAt, MeetsStar;
    forall i: nat | i < k
      ensures !MatchAt(t, s, i)
    {
      assert IsPassed(t, filter, program, s, wide, i);
    }
  }

  lemma LostHere(program: seq<Byte>, t: Alts, filter: Prefilter, s: seq<Byte>, i: nat)
    requires AltsWellFormed(t) && |Program(t)| < SPAN && At(program, 0, Program(t)) && MeetsStar(program, s, 1, i)
    requires IsTried(filter, s, i)
    ensures !AltsStarless(t) && exists i: nat :: IsTried(filter, s, i) && MeetsStar(program, s, 1, i)
  {
    hide MeetsStar, IsTried, AltsWellFormed, At, Program;
    if AltsStarless(t) { StarlessProgram(program, t, s, i); }
  }

  lemma MeansSame(a: Alts, b: Alts, s: seq<Byte>)
    requires AltsWellFormed(a) && AltsWellFormed(b) && AltsEquiv(a, b)
    ensures forall i: nat :: MatchAt(a, s, i) <==> MatchAt(b, s, i)
    ensures forall i: nat, j: nat :: AltsMatch(a, s, i, j) <==> AltsMatch(b, s, i, j)
  {
    hide AltsMatch, AltsWellFormed, AltsEquiv;
    forall i: nat, j: nat
      ensures AltsMatch(a, s, i, j) <==> AltsMatch(b, s, i, j)
    {
      EquivMatch(a, b, s, i, j);
    }
  }

  lemma FirstSame(a: Alts, b: Alts, s: seq<Byte>, first: nat, last: nat, startp: seq<int>, endp: seq<int>)
    requires AltsEquiv(a, b) && IsMatch(a, s, first, last, startp, endp)
    ensures IsMatch(b, s, first, last, startp, endp)
  {
    hide AltsWays, Recorded, AltsEquiv;
    AltsEquivAt(a, b, s, first);
  }

  /**
   Compile a pattern and search a subject with it: unless the search gets lost,
   the outcome is what the pattern means when it is read one character at a time,
   with the end and the groups of its first way.
   It does not get lost if the counter is wide or no `*` of the pattern follows a
   simple operand.
   */
  method CompileAndExecute(exp: CStr, program: array<Byte>, s: CStr, wide: bool)
    returns (ok: bool, a: Answer, first: nat, last: nat, startp: seq<int>, endp: seq<int>)
    requires !Parse(exp, true).Hang? && (wide || |s| < SPAN - 1)
    requires 1 + RegRoom(Parse(exp, true), false) <= program.Length && 1 + RegRoom(Parse(exp, true), false) < SPAN
    modifies program
    ensures ok == Parse(exp, true).Ok? == Parse(exp, false).Ok?
    ensures ok ==> At(program[..], 0, Program(Parse(exp, true).tree))
    ensures ok && a == Yes ==>
              && AltsMatch(Parse(exp, false).tree, s, first, last)
              && IsMatch(Parse(exp, false).tree, s, first, last, startp, endp)
              && forall i: nat :: i < first ==> !MatchAt(Parse(exp, false).tree, s, i)
    ensures ok && a == No ==> forall i: nat :: !MatchAt(Parse(exp, false).tree, s, i)
    ensures ok && (wide || AltsStarless(Parse(exp, true).tree)) ==> a != Lost
    ensures ok && !wide && (forall i: nat :: !MatchAt(Parse(exp, false).tree, s, i)) ==>
              (a == Lost <==>
               exists i: nat :: IsTried(FilterOf(Parse(exp, true).tree), s, i) && MeetsStar(program[..], s, 1, i))
  {
    hide At, Program, ParseReg, AltsMatch, FilterOf, AltsWellFormed, RegRoom, IsTried, MeetsStar, MatchAt, AltsStarless;
    hide IsMatch, AltsEquiv;
    a, first, last, startp, endp := No, 0, 0, NONE, NONE;
    var filter;
    ok, filter := RegexpCompile(exp, program);
    GatheringPreservesMeaning(exp);
    if ok {
      ghost var t := Parse(exp, true).tree;
      a, first, last, startp, endp := RegexpExecute(program[..], filter, s, wide, t);
      MeansSame(t, Parse(exp, false).tree, s);
      if a == Yes {
        MatchesThere(t, s, first, last);
        FirstSame(t, Parse(exp, false).tree, s, first, last, startp, endp);
      }
    }
  }

  lemma MatchesThere(t: Alts, s: seq<Byte>, i: nat, j: nat)
    requires AltsMatch(t, s, i, j)
    ensures MatchAt(t, s, i)
  {
  }
}
