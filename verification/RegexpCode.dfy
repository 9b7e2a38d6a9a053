/**
 Layout of compiled regular expressions.  A program is a sequence of nodes: an
 opcode byte, a two-byte "next" offset (high byte first) and, for some opcodes,
 an operand.  Offsets are relative, so a piece of code can be relocated.
 */
module RegexpCode {
  import opened RegexpSyntax

  const MAGIC: Byte := 0x9C

  const END: Byte := 0
  const BOL: Byte := 1
  const EOL: Byte := 2
  const ANY: Byte := 3
  const ANYOF: Byte := 4
  const ANYBUT: Byte := 5
  const BRANCH: Byte := 6
  const BACK: Byte := 7
  const EXACTLY: Byte := 8
  const NOTHING: Byte := 9
  const STAR: Byte := 10
  const PLUS: Byte := 11
  const WORDA: Byte := 12
  const WORDZ: Byte := 13
  const OPEN: Byte := 20
  const CLOSE: Byte := 30

  /** Distance of an exit that is not linked yet. */
  const DANGLING := -1

  /** Offsets are stored in 16 bits. */
  const SPAN := 0x1_0000

  function TestOp(t: Test): Byte {
    match t
    case Bol => BOL
    case Eol => EOL
    case WordStart => WORDA
    case WordEnd => WORDZ
    case AnyChar => ANY
  }

  function KindOp(k: Kind): Byte {
    match k
    case Exactly => EXACTLY
    case AnyOf => ANYOF
    case AnyBut => ANYBUT
  }

  function GroupOp(op: Byte, no: nat): Byte
    requires op == OPEN || op == CLOSE
  {
    (op + no) % 256
  }

  // ----- the code of a syntax tree -----

  function Node(op: Byte, offset: nat): (n: seq<Byte>)
    ensures |n| == 3
  {
    [op, offset / 256 % 256, offset % 256]
  }

  /** Offset from a node `rest` bytes before the end of its code to an exit `d` bytes past the end. */
  function Link(rest: nat, d: int): nat {
    if d < 0 then 0 else rest + d
  }

  function Size(e: Regex): (n: nat)
    ensures n >= 3
  {
    match e
    case Leaf(_) => 3
    case Chars(_, cs) => 3 + |cs| + 1
    case Empty => 3
    case Group(_, a) => 3 + AltsSize(a) + 3
    case Star(r) => if Simple(r) then 3 + Size(r) else 3 + Size(r) + 9
    case Plus(r) => if Simple(r) then 3 + Size(r) else Size(r) + 12
    case Opt(r) => 3 + Size(r) + 6
    case Cat(a, b) => Size(a) + Size(b)
  }

  function AltsSize(a: Alts): (n: nat)
    ensures n >= 6
  {
    match a
    case One(b) => 3 + Size(b)
    case More(i, b) => AltsSize(i) + (3 + Size(b))
  }

  /** A BRANCH node in front of its operand. */
  function Branched(offset: nat, x: seq<Byte>): (c: seq<Byte>)
    ensures |c| == 3 + |x|
  {
    Node(BRANCH, offset) + x
  }

  /** `x*` for complex `x`: either `x` and loop back, or nothing. */
  function StarCode(x: seq<Byte>, offset: nat): (c: seq<Byte>)
    ensures |c| == |x| + 12
  {
    Node(BRANCH, |x| + 6) + (x + (Node(BACK, |x| + 3) + (Node(BRANCH, 3) + Node(NOTHING, offset))))
  }

  /** `x+` for complex `x`: `x`, then either loop back or nothing. */
  function PlusCode(x: seq<Byte>, offset: nat): (c: seq<Byte>)
    ensures |c| == |x| + 12
  {
    x + (Node(BRANCH, 6) + (Node(BACK, |x| + 3) + (Node(BRANCH, 3) + Node(NOTHING, offset))))
  }

  /** `x?`: either `x` or nothing. */
  function OptCode(x: seq<Byte>, offset: nat): (c: seq<Byte>)
    ensures |c| == |x| + 9
  {
    Node(BRANCH, |x| + 3) + (x + (Node(BRANCH, 3) + Node(NOTHING, offset)))
  }

  /** `(x)`: the alternatives `x` between numbered marks. */
  function GroupCode(no: nat, x: seq<Byte>, offset: nat): (c: seq<Byte>)
    ensures |c| == |x| + 6
  {
    Node(GroupOp(OPEN, no), 3) + (x + Node(GroupOp(CLOSE, no), offset))
  }

  /** The code of `e` when control leaves it for the byte `d` past its end. */
  function Code(e: Regex, d: int): (c: seq<Byte>)
    ensures |c| == Size(e)
    decreases e
  {
    match e
    case Leaf(t) => Node(TestOp(t), Link(3, d))
    case Chars(k, cs) => Node(KindOp(k), Link(3 + |cs| + 1, d)) + (cs + [0])
    case Empty => Node(NOTHING, Link(3, d))
    case Group(no, a) => GroupCode(no, AltsCode(a, 0, 0, Count(a)), Link(3, d))
    case Star(r) =>
      if Simple(r) then Node(STAR, Link(3 + Size(r), d)) + Code(r, DANGLING)
      else StarCode(Code(r, 0), Link(3, d))
    case Plus(r) =>
      if Simple(r) then Node(PLUS, Link(3 + Size(r), d)) + Code(r, DANGLING)
      else PlusCode(Code(r, 0), Link(3, d))
    case Opt(r) => OptCode(Code(r, 3), Link(3, d))
    case Cat(a, b) => Code(a, 0) + Code(b, d)
  }

  function Count(a: Alts): (n: nat)
    ensures n >= 1
  {
    match a
    case One(_) => 1
    case More(i, _) => Count(i) + 1
  }

  /**
   The code of a list of alternatives.  The last BRANCH links to the byte
   `dBranch` past the end; the operands of the first `k` branches leave for the
   byte `dBody` past the end and the others still dangle.
   */
  function AltsCode(a: Alts, dBranch: int, dBody: nat, k: nat): (c: seq<Byte>)
    ensures |c| == AltsSize(a)
    decreases a
  {
    match a
    case One(b) => Branched(Link(3 + Size(b), dBranch), Code(b, if 0 < k then dBody else DANGLING))
    case More(i, b) =>
      AltsCode(i, 0, dBody + 3 + Size(b), k) +
      Branched(Link(3 + Size(b), dBranch), Code(b, if Count(i) < k then dBody else DANGLING))
  }

  /** Position, in the code of `e`, of the node through which control leaves it. */
  function Tail(e: Regex): (t: nat)
    ensures t + 3 <= Size(e)
  {
    match e
    case Leaf(_) => 0
    case Chars(_, _) => 0
    case Empty => 0
    case Group(_, a) => 3 + AltsSize(a)
    case Star(r) => if Simple(r) then 0 else Size(e) - 3
    case Plus(r) => if Simple(r) then 0 else Size(e) - 3
    case Opt(r) => Size(e) - 3
    case Cat(a, b) => Size(a) + Tail(b)
  }

  /** Position of alternative `k` in the code of a list of alternatives. */
  function BranchAt(a: Alts, k: nat): (p: nat)
    requires k < Count(a)
    ensures p + 3 + Size(Branch(a, k)) <= AltsSize(a)
  {
    match a
    case One(_) => 0
    case More(i, b) => if k == Count(i) then AltsSize(i) else BranchAt(i, k)
  }

  function Branch(a: Alts, k: nat): Regex
    requires k < Count(a)
  {
    match a
    case One(b) => b
    case More(i, b) => if k == Count(i) then b else Branch(i, k)
  }

  lemma AltsCodeMore(i: Alts, b: Regex, dBranch: int, dBody: nat, k: nat)
    ensures AltsCode(More(i, b), dBranch, dBody, k)
            == AltsCode(i, 0, dBody + 3 + Size(b), k) +
               Branched(Link(3 + Size(b), dBranch), Code(b, if Count(i) < k then dBody else DANGLING))
  {
    hide Branched, Code, Size;
  }

  lemma AltsCodeOne(b: Regex, dBranch: int, dBody: nat, k: nat)
    ensures AltsCode(One(b), dBranch, dBody, k)
            == Branched(Link(3 + Size(b), dBranch), Code(b, if 0 < k then dBody else DANGLING))
  {
    hide Branched, Code, Size;
  }

  lemma CodeStar(r: Regex, d: int)
    ensures Code(Star(r), d) == if Simple(r) then Node(STAR, Link(3 + Size(r), d)) + Code(r, DANGLING)
                                else StarCode(Code(r, 0), Link(3, d))
  {
    hide Node, StarCode, PlusCode, OptCode, GroupCode, Size, AltsCode, Simple, TestOp, KindOp, Count, Link;
  }

  lemma CodePlus(r: Regex, d: int)
    ensures Code(Plus(r), d) == if Simple(r) then Node(PLUS, Link(3 + Size(r), d)) + Code(r, DANGLING)
                                else PlusCode(Code(r, 0), Link(3, d))
  {
    hide Node, StarCode, PlusCode, OptCode, GroupCode, Size, AltsCode, Simple, TestOp, KindOp, Count, Link;
  }

  lemma CodeOpt(r: Regex, d: int)
    ensures Code(Opt(r), d) == OptCode(Code(r, 3), Link(3, d))
  {
    hide Node, StarCode, PlusCode, OptCode, GroupCode, Size, AltsCode, Simple, TestOp, KindOp, Count, Link;
  }

  lemma CodeGroup(no: nat, a: Alts, d: int)
    ensures Code(Group(no, a), d) == GroupCode(no, AltsCode(a, 0, 0, Count(a)), Link(3, d))
  {
    hide GroupCode;
  }

  lemma CodeAtom(e: Regex, d: int)
    ensures e.Leaf? ==> Code(e, d) == Node(TestOp(e.test), Link(3, d))
    ensures e.Chars? ==> Code(e, d) == Node(KindOp(e.kind), Link(Size(e), d)) + (e.cs + [0])
    ensures e.Empty? ==> Code(e, d) == Node(NOTHING, Link(3, d))
  {
    hide Node;
  }

  lemma CodeCat(a: Regex, b: Regex, d: int)
    ensures Code(Cat(a, b), d) == Code(a, 0) + Code(b, d)
  {
  }

  // ----- patching "next" offsets -----

  function SetNext(p: seq<Byte>, t: nat, offset: nat): (q: seq<Byte>)
    requires t + 3 <= |p|
    ensures |q| == |p|
  {
    p[t + 1 := offset / 256 % 256][t + 2 := offset % 256]
  }

  lemma SetNextNode(op: Byte, off: nat, offset: nat)
    ensures SetNext(Node(op, off), 0, offset) == Node(op, offset)
  {
  }

  lemma SetNextLeft(x: seq<Byte>, y: seq<Byte>, t: nat, offset: nat)
    requires t + 3 <= |x|
    ensures SetNext(x + y, t, offset) == SetNext(x, t, offset) + y
  {
  }

  lemma SetNextRight(x: seq<Byte>, y: seq<Byte>, t: nat, offset: nat)
    requires t + 3 <= |y|
    ensures SetNext(x + y, |x| + t, offset) == x + SetNext(y, t, offset)
  {
  }

  lemma SetNextPrefix(op: Byte, x: seq<Byte>, o: nat)
    ensures SetNext(Node(op, 0) + x, 0, o) == Node(op, o) + x
  {
    SetNextLeft(Node(op, 0), x, 0, o);
  }

  lemma SetNextStar(x: seq<Byte>, o: nat)
    ensures SetNext(StarCode(x, 0), |x| + 9, o) == StarCode(x, o)
  {
    SetNextLast(Node(BRANCH, |x| + 6), x, Node(BACK, |x| + 3), Node(BRANCH, 3), o);
  }

  lemma SetNextPlus(x: seq<Byte>, o: nat)
    ensures SetNext(PlusCode(x, 0), |x| + 9, o) == PlusCode(x, o)
  {
    SetNextLast(x, Node(BRANCH, 6), Node(BACK, |x| + 3), Node(BRANCH, 3), o);
  }

  lemma SetNextOpt(x: seq<Byte>, o: nat)
    ensures SetNext(OptCode(x, 0), |x| + 6, o) == OptCode(x, o)
  {
    SetNextRight(Node(BRANCH, 3), Node(NOTHING, 0), 0, o);
    SetNextRight(x, Node(BRANCH, 3) + Node(NOTHING, 0), 3, o);
    SetNextRight(Node(BRANCH, |x| + 3), x + (Node(BRANCH, 3) + Node(NOTHING, 0)), |x| + 3, o);
  }

  lemma SetNextGroup(no: nat, x: seq<Byte>, o: nat)
    ensures SetNext(GroupCode(no, x, 0), |x| + 3, o) == GroupCode(no, x, o)
  {
    SetNextRight(x, Node(GroupOp(CLOSE, no), 0), 0, o);
    SetNextRight(Node(GroupOp(OPEN, no), 3), x + Node(GroupOp(CLOSE, no), 0), |x|, o);
  }

  lemma SetNextLast(w: seq<Byte>, x: seq<Byte>, y: seq<Byte>, z: seq<Byte>, o: nat)
    ensures SetNext(w + (x + (y + (z + Node(NOTHING, 0)))), |w| + |x| + |y| + |z|, o)
            == w + (x + (y + (z + Node(NOTHING, o))))
  {
    SetNextRight(z, Node(NOTHING, 0), 0, o);
    SetNextRight(y, z + Node(NOTHING, 0), |z|, o);
    SetNextRight(x, y + (z + Node(NOTHING, 0)), |y| + |z|, o);
    SetNextRight(w, x + (y + (z + Node(NOTHING, 0))), |x| + |y| + |z|, o);
  }

  /** Patching the tail of dangling code links its exit. */
  lemma {:induction false} SetNextCode(e: Regex, d: nat)
    ensures SetNext(Code(e, DANGLING), Tail(e), Size(e) - Tail(e) + d) == Code(e, d)
  {
    hide SetNext, Code, Size, Tail;
    match e
    case Leaf(_) => SetNextAtom(e, d);
    case Chars(_, _) => SetNextAtom(e, d);
    case Empty => SetNextAtom(e, d);
    case Group(no, a) => SetNextGroupCode(no, a, d);
    case Star(r) => SetNextStarCode(r, d);
    case Plus(r) => SetNextPlusCode(r, d);
    case Opt(r) => SetNextOptCode(r, d);
    case Cat(a, b) =>
      SetNextCode(b, d);
      SetNextCatCode(a, b, d);
  }

  lemma SetNextAtom(e: Regex, d: nat)
    requires e.Leaf? || e.Chars? || e.Empty?
    ensures SetNext(Code(e, DANGLING), Tail(e), Size(e) - Tail(e) + d) == Code(e, d)
  {
    hide SetNext, Node, Code;
    CodeAtom(e, d);
    CodeAtom(e, DANGLING);
    match e
    case Leaf(t) => SetNextNode(TestOp(t), 0, 3 + d);
    case Chars(k, cs) => SetNextPrefix(KindOp(k), cs + [0], Size(e) + d);
    case Empty => SetNextNode(NOTHING, 0, 3 + d);
  }

  lemma SetNextGroupCode(no: nat, a: Alts, d: nat)
    ensures var e := Group(no, a);
            SetNext(Code(e, DANGLING), Tail(e), Size(e) - Tail(e) + d) == Code(e, d)
  {
    hide SetNext, Code, GroupCode, AltsCode;
    CodeGroup(no, a, d);
    CodeGroup(no, a, DANGLING);
    SetNextGroup(no, AltsCode(a, 0, 0, Count(a)), 3 + d);
  }

  lemma SetNextStarCode(r: Regex, d: nat)
    ensures var e := Star(r);
            SetNext(Code(e, DANGLING), Tail(e), Size(e) - Tail(e) + d) == Code(e, d)
  {
    hide SetNext, Node, Code, StarCode, PlusCode, OptCode;
    CodeStar(r, d);
    CodeStar(r, DANGLING);
    if Simple(r) {
      SetNextPrefix(STAR, Code(r, DANGLING), 3 + Size(r) + d);
    } else {
      SetNextStar(Code(r, 0), 3 + d);
    }
  }

  lemma SetNextPlusCode(r: Regex, d: nat)
    ensures var e := Plus(r);
            SetNext(Code(e, DANGLING), Tail(e), Size(e) - Tail(e) + d) == Code(e, d)
  {
    hide SetNext, Node, Code, StarCode, PlusCode, OptCode;
    CodePlus(r, d);
    CodePlus(r, DANGLING);
    if Simple(r) {
      SetNextPrefix(PLUS, Code(r, DANGLING), 3 + Size(r) + d);
    } else {
      SetNextPlus(Code(r, 0), 3 + d);
    }
  }

  lemma SetNextOptCode(r: Regex, d: nat)
    ensures var e := Opt(r);
            SetNext(Code(e, DANGLING), Tail(e), Size(e) - Tail(e) + d) == Code(e, d)
  {
    hide SetNext, Node, Code, StarCode, PlusCode, OptCode;
    CodeOpt(r, d);
    CodeOpt(r, DANGLING);
    SetNextOpt(Code(r, 3), 3 + d);
  }

  lemma SetNextCatCode(a: Regex, b: Regex, d: nat)
    requires SetNext(Code(b, DANGLING), Tail(b), Size(b) - Tail(b) + d) == Code(b, d)
    ensures var e := Cat(a, b);
            SetNext(Code(e, DANGLING), Tail(e), Size(e) - Tail(e) + d) == Code(e, d)
  {
    hide SetNext, Code;
    CodeCat(a, b, d);
    CodeCat(a, b, DANGLING);
    SetNextRight(Code(a, 0), Code(b, DANGLING), Tail(b), Size(b) - Tail(b) + d);
  }

  lemma SetNextBranched(w: seq<Byte>, offset: nat, x: seq<Byte>, o: nat)
    ensures SetNext(w + Branched(offset, x), |w|, o) == w + Branched(o, x)
  {
    SetNextLeft(Node(BRANCH, offset), x, 0, o);
    SetNextRight(w, Branched(offset, x), 0, o);
  }

  lemma SetNextOperand(w: seq<Byte>, offset: nat, x: seq<Byte>, t: nat, o: nat)
    requires t + 3 <= |x|
    ensures SetNext(w + Branched(offset, x), |w| + 3 + t, o) == w + Branched(offset, SetNext(x, t, o))
  {
    SetNextRight(Node(BRANCH, offset), x, t, o);
    SetNextRight(w, Branched(offset, x), 3 + t, o);
  }

  /** Linking the last BRANCH of a list of alternatives. */
  lemma {:induction false} SetNextAlts(a: Alts, d: nat, dBody: nat, k: nat)
    ensures var t := BranchAt(a, Count(a) - 1);
            SetNext(AltsCode(a, DANGLING, dBody, k), t, AltsSize(a) - t + d) == AltsCode(a, d, dBody, k)
  {
    hide SetNext, Branched, AltsCode, Code;
    match a
    case One(b) =>
      AltsCodeOne(b, d, dBody, k);
      AltsCodeOne(b, DANGLING, dBody, k);
      var x := Code(b, if 0 < k then dBody else DANGLING);
      SetNextBranched([], 0, x, 3 + Size(b) + d);
      assert [] + Branched(0, x) == Branched(0, x) && [] + Branched(3 + Size(b) + d, x) == Branched(3 + Size(b) + d, x);
    case More(i, b) =>
      AltsCodeMore(i, b, d, dBody, k);
      AltsCodeMore(i, b, DANGLING, dBody, k);
      SetNextBranched(AltsCode(i, 0, dBody + 3 + Size(b), k), 0,
                      Code(b, if Count(i) < k then dBody else DANGLING), 3 + Size(b) + d);
  }

  lemma SetNextBody(w: seq<Byte>, b: Regex, offset: nat, d: nat)
    ensures SetNext(w + Branched(offset, Code(b, DANGLING)), |w| + 3 + Tail(b), Size(b) - Tail(b) + d)
            == w + Branched(offset, Code(b, d))
  {
    hide SetNext, Branched, Code, Size, Tail;
    SetNextCode(b, d);
    SetNextOperand(w, offset, Code(b, DANGLING), Tail(b), Size(b) - Tail(b) + d);
  }

  /** Linking the operand of alternative `k`, when those before it are linked. */
  lemma {:induction false} SetNextBranch(a: Alts, dBranch: int, dBody: nat, k: nat)
    requires k < Count(a)
    ensures var t := BranchAt(a, k) + 3 + Tail(Branch(a, k));
            SetNext(AltsCode(a, dBranch, dBody, k), t, AltsSize(a) - t + dBody) == AltsCode(a, dBranch, dBody, k + 1)
  {
    hide SetNext, AltsCode, Tail, Size;
    match a
    case One(b) =>
      SetNextOne(b, dBranch, dBody);
    case More(i, b) =>
      if k == Count(i) {
        SetNextMore(i, b, dBranch, dBody);
      } else {
        SetNextBranch(i, 0, dBody + 3 + Size(b), k);
        var t := BranchAt(i, k) + 3 + Tail(Branch(i, k));
        SetNextInit(i, b, dBranch, dBody, k, t, AltsSize(a) - t + dBody);
      }
  }

  lemma SetNextOne(b: Regex, dBranch: int, dBody: nat)
    ensures SetNext(AltsCode(One(b), dBranch, dBody, 0), 3 + Tail(b), Size(b) - Tail(b) + dBody)
            == AltsCode(One(b), dBranch, dBody, 1)
  {
    hide SetNext, Branched, AltsCode, Code, Tail, Size;
    AltsCodeOne(b, dBranch, dBody, 0);
    AltsCodeOne(b, dBranch, dBody, 1);
    var o := Link(3 + Size(b), dBranch);
    SetNextBody([], b, o, dBody);
    assert [] + Branched(o, Code(b, DANGLING)) == Branched(o, Code(b, DANGLING));
    assert [] + Branched(o, Code(b, dBody)) == Branched(o, Code(b, dBody));
  }

  lemma SetNextMore(i: Alts, b: Regex, dBranch: int, dBody: nat)
    ensures SetNext(AltsCode(More(i, b), dBranch, dBody, Count(i)), AltsSize(i) + 3 + Tail(b),
                    Size(b) - Tail(b) + dBody)
            == AltsCode(More(i, b), dBranch, dBody, Count(i) + 1)
  {
    hide SetNext, Branched, AltsCode, Code, Tail, Size;
    var k, dInit := Count(i), dBody + 3 + Size(b);
    AltsCodeMore(i, b, dBranch, dBody, k);
    AltsCodeMore(i, b, dBranch, dBody, k + 1);
    SetNextBody(AltsCode(i, 0, dInit, k), b, Link(3 + Size(b), dBranch), dBody);
    AltsCodeAll(i, 0, dInit, k);
  }

  /** A patch among the alternatives before the last is a patch of the whole list. */
  lemma SetNextInit(i: Alts, b: Regex, dBranch: int, dBody: nat, k: nat, t: nat, o: nat)
    requires k < Count(i) && t + 3 <= AltsSize(i)
    requires var dInit := dBody + 3 + Size(b);
             SetNext(AltsCode(i, 0, dInit, k), t, o) == AltsCode(i, 0, dInit, k + 1)
    ensures SetNext(AltsCode(More(i, b), dBranch, dBody, k), t, o) == AltsCode(More(i, b), dBranch, dBody, k + 1)
  {
    hide SetNext, Branched, AltsCode, Code, Size;
    AltsCodeMore(i, b, dBranch, dBody, k);
    AltsCodeMore(i, b, dBranch, dBody, k + 1);
    SetNextLeft(AltsCode(i, 0, dBody + 3 + Size(b), k), Branched(Link(3 + Size(b), dBranch), Code(b, DANGLING)), t, o);
  }

  /** Once every operand is linked, linking more changes nothing. */
  lemma {:induction false} AltsCodeAll(a: Alts, dBranch: int, dBody: nat, k: nat)
    requires k >= Count(a)
    ensures AltsCode(a, dBranch, dBody, k) == AltsCode(a, dBranch, dBody, k + 1)
  {
    hide AltsCode, Code, Branched, Size;
    match a
    case One(b) =>
      AltsCodeOne(b, dBranch, dBody, k);
      AltsCodeOne(b, dBranch, dBody, k + 1);
    case More(i, b) =>
      AltsCodeMore(i, b, dBranch, dBody, k);
      AltsCodeMore(i, b, dBranch, dBody, k + 1);
      AltsCodeAll(i, 0, dBody + 3 + Size(b), k);
  }

  // ----- reading a program -----

  /** The bytes `x` stand in program `p` at address `lo`. */
  ghost predicate At(p: seq<Byte>, lo: nat, x: seq<Byte>) {
    lo + |x| <= |p| && forall i :: 0 <= i < |x| ==> p[lo + i] == x[i]
  }

  lemma AtConcat(p: seq<Byte>, lo: nat, x: seq<Byte>, y: seq<Byte>)
    ensures At(p, lo, x + y) <==> At(p, lo, x) && At(p, lo + |x|, y)
  {
    assert forall i :: 0 <= i < |x| ==> (x + y)[i] == x[i];
    assert forall i :: 0 <= i < |y| ==> (x + y)[|x| + i] == y[i];
  }

  function NextOffset(p: seq<Byte>, n: nat): (o: nat)
    requires n + 3 <= |p|
  {
    var high: nat, low: nat := p[n + 1], p[n + 2];
    high * 256 + low
  }

  lemma AtNode(p: seq<Byte>, n: nat, op: Byte, offset: nat)
    requires At(p, n, Node(op, offset)) && offset < SPAN
    ensures n + 3 <= |p| && p[n] == op && NextOffset(p, n) == offset
  {
    var x := Node(op, offset);
    assert x[0] == op && x[1] == offset / 256 % 256 && x[2] == offset % 256;
  }

  /** The node that the `next` pointer of node `n` leads to; 0 if there is none. */
  function Succ(p: seq<Byte>, n: nat): int
    requires n + 3 <= |p|
  {
    var o := NextOffset(p, n);
    if o == 0 then 0 else if p[n] == BACK then n - o else n + o
  }

  /** `next` pointers lead forward from node `n` to node `t`. */
  ghost predicate Path(p: seq<Byte>, n: nat, t: nat)
    decreases t - n
  {
    && n <= t
    && t + 3 <= |p|
    && (n < t ==>
          var o := NextOffset(p, n);
          p[n] != BACK && o > 0 && n + o <= t && Path(p, n + o, t))
  }

  lemma PathHere(p: seq<Byte>, n: nat)
    ensures n + 3 <= |p| ==> Path(p, n, n)
  {
  }

  lemma {:induction false} PathConcat(p: seq<Byte>, n: nat, t: nat, u: nat)
    requires Path(p, n, t) && Path(p, t, u)
    ensures Path(p, n, u)
    decreases t - n
  {
    if n < t {
      PathConcat(p, n + NextOffset(p, n), t, u);
    }
  }

  lemma StarParts(p: seq<Byte>, lo: nat, x: seq<Byte>, o: nat)
    requires At(p, lo, StarCode(x, o)) && |x| + 12 < SPAN && o < SPAN
    ensures var n := lo + 3 + |x|;
            && n + 9 <= |p|
            && p[lo] == BRANCH && NextOffset(p, lo) == |x| + 6
            && At(p, lo + 3, x)
            && p[n] == BACK && NextOffset(p, n) == |x| + 3
            && p[n + 3] == BRANCH && NextOffset(p, n + 3) == 3
            && p[n + 6] == NOTHING && NextOffset(p, n + 6) == o
  {
    var n := lo + 3 + |x|;
    var z := Node(NOTHING, o);
    AtConcat(p, lo, Node(BRANCH, |x| + 6), x + (Node(BACK, |x| + 3) + (Node(BRANCH, 3) + z)));
    AtConcat(p, lo + 3, x, Node(BACK, |x| + 3) + (Node(BRANCH, 3) + z));
    AtNode(p, lo, BRANCH, |x| + 6);
    LoopEnd(p, n, BACK, |x| + 3, o);
  }

  lemma LoopEnd(p: seq<Byte>, n: nat, op: Byte, off: nat, o: nat)
    requires At(p, n, Node(op, off) + (Node(BRANCH, 3) + Node(NOTHING, o))) && off < SPAN && o < SPAN
    ensures n + 9 <= |p|
    ensures p[n] == op && NextOffset(p, n) == off
    ensures p[n + 3] == BRANCH && NextOffset(p, n + 3) == 3
    ensures p[n + 6] == NOTHING && NextOffset(p, n + 6) == o
  {
    AtConcat(p, n, Node(op, off), Node(BRANCH, 3) + Node(NOTHING, o));
    AtConcat(p, n + 3, Node(BRANCH, 3), Node(NOTHING, o));
    AtNode(p, n, op, off);
    AtNode(p, n + 3, BRANCH, 3);
    AtNode(p, n + 6, NOTHING, o);
  }

  lemma PlusParts(p: seq<Byte>, lo: nat, x: seq<Byte>, o: nat)
    requires At(p, lo, PlusCode(x, o)) && |x| + 12 < SPAN && o < SPAN
    ensures var n := lo + |x|;
            && n + 12 <= |p|
            && At(p, lo, x)
            && p[n] == BRANCH && NextOffset(p, n) == 6
            && p[n + 3] == BACK && NextOffset(p, n + 3) == |x| + 3
            && p[n + 6] == BRANCH && NextOffset(p, n + 6) == 3
            && p[n + 9] == NOTHING && NextOffset(p, n + 9) == o
  {
    var n := lo + |x|;
    var y := Node(BACK, |x| + 3) + (Node(BRANCH, 3) + Node(NOTHING, o));
    AtConcat(p, lo, x, Node(BRANCH, 6) + y);
    AtConcat(p, n, Node(BRANCH, 6), y);
    AtNode(p, n, BRANCH, 6);
    LoopEnd(p, n + 3, BACK, |x| + 3, o);
  }

  lemma OptParts(p: seq<Byte>, lo: nat, x: seq<Byte>, o: nat)
    requires At(p, lo, OptCode(x, o)) && |x| + 9 < SPAN && o < SPAN
    ensures var n := lo + 3 + |x|;
            && n + 6 <= |p|
            && p[lo] == BRANCH && NextOffset(p, lo) == |x| + 3
            && At(p, lo + 3, x)
            && p[n] == BRANCH && NextOffset(p, n) == 3
            && p[n + 3] == NOTHING && NextOffset(p, n + 3) == o
  {
    var n := lo + 3 + |x|;
    var z := Node(NOTHING, o);
    AtConcat(p, lo, Node(BRANCH, |x| + 3), x + (Node(BRANCH, 3) + z));
    AtConcat(p, lo + 3, x, Node(BRANCH, 3) + z);
    AtConcat(p, n, Node(BRANCH, 3), z);
    AtNode(p, lo, BRANCH, |x| + 3);
    AtNode(p, n, BRANCH, 3);
    AtNode(p, n + 3, NOTHING, o);
  }

  lemma GroupParts(p: seq<Byte>, lo: nat, no: nat, x: seq<Byte>, o: nat)
    requires At(p, lo, GroupCode(no, x, o)) && o < SPAN
    ensures var n := lo + 3 + |x|;
            && n + 3 <= |p|
            && p[lo] == GroupOp(OPEN, no) && NextOffset(p, lo) == 3
            && At(p, lo + 3, x)
            && p[n] == GroupOp(CLOSE, no) && NextOffset(p, n) == o
  {
    var z := Node(GroupOp(CLOSE, no), o);
    AtConcat(p, lo, Node(GroupOp(OPEN, no), 3), x + z);
    AtConcat(p, lo + 3, x, z);
    AtNode(p, lo, GroupOp(OPEN, no), 3);
    AtNode(p, lo + 3 + |x|, GroupOp(CLOSE, no), o);
  }

  lemma PrefixParts(p: seq<Byte>, lo: nat, op: Byte, o: nat, x: seq<Byte>)
    requires At(p, lo, Node(op, o) + x) && o < SPAN
    ensures lo + 3 <= |p| && p[lo] == op && NextOffset(p, lo) == o
    ensures At(p, lo + 3, x)
  {
    AtConcat(p, lo, Node(op, o), x);
    AtNode(p, lo, op, o);
  }

  /** Code from which control leaves through its tail, reached along the `next` chain. */
  ghost predicate Chained(p: seq<Byte>, lo: nat, e: Regex, d: int) {
    && Path(p, lo, lo + Tail(e))
    && p[lo + Tail(e)] != BACK
    && NextOffset(p, lo + Tail(e)) == Link(Size(e) - Tail(e), d)
  }

  /** The `next` chain of a piece of code leads to its tail, and from there out of it. */
  lemma {:induction false} CodePath(p: seq<Byte>, lo: nat, e: Regex, d: int)
    requires WellFormed(e) && At(p, lo, Code(e, d))
    requires Size(e) + Link(0, d) < SPAN
    ensures Chained(p, lo, e, d)
    decreases e, 1
  {
    hide At, Code, Chained, HasWidth;
    match e
    case Leaf(_) => AtomPath(p, lo, e, d);
    case Chars(_, _) => AtomPath(p, lo, e, d);
    case Empty => AtomPath(p, lo, e, d);
    case Group(no, a) => GroupPath(p, lo, no, a, d);
    case Star(r) => StarPath(p, lo, r, d);
    case Plus(r) => PlusPath(p, lo, r, d);
    case Opt(r) => OptPath(p, lo, r, d);
    case Cat(a, b) => CatPath(p, lo, a, b, d);
  }

  lemma AtomPath(p: seq<Byte>, lo: nat, e: Regex, d: int)
    requires (e.Leaf? || e.Chars? || e.Empty?) && At(p, lo, Code(e, d))
    requires Size(e) + Link(0, d) < SPAN
    ensures Chained(p, lo, e, d)
  {
    hide At, Node, NextOffset, Path, Code;
    PathHere(p, lo);
    CodeAtom(e, d);
    match e
    case Leaf(t) => AtNode(p, lo, TestOp(t), Link(3, d));
    case Chars(k, cs) => PrefixParts(p, lo, KindOp(k), Link(Size(e), d), cs + [0]);
    case Empty => AtNode(p, lo, NOTHING, Link(3, d));
  }

  lemma StarPath(p: seq<Byte>, lo: nat, r: Regex, d: int)
    requires At(p, lo, Code(Star(r), d)) && Size(Star(r)) + Link(0, d) < SPAN
    ensures Chained(p, lo, Star(r), d)
  {
    hide At, Node, NextOffset, Path, Code, StarCode;
    CodeStar(r, d);
    if Simple(r) {
      PathHere(p, lo);
      PrefixParts(p, lo, STAR, Link(3 + Size(r), d), Code(r, DANGLING));
    } else {
      StarParts(p, lo, Code(r, 0), Link(3, d));
      PathStep2(p, lo, Size(r) + 6, 3);
    }
  }

  lemma {:induction false} PlusPath(p: seq<Byte>, lo: nat, r: Regex, d: int)
    requires WellFormed(r) && At(p, lo, Code(Plus(r), d)) && Size(Plus(r)) + Link(0, d) < SPAN
    ensures Chained(p, lo, Plus(r), d)
    decreases r, 2
  {
    hide At, Node, NextOffset, Path, Code, StarCode, PlusCode, OptCode, WellFormed;
    CodePlus(r, d);
    if Simple(r) {
      PathHere(p, lo);
      PrefixParts(p, lo, PLUS, Link(3 + Size(r), d), Code(r, DANGLING));
    } else {
      PlusParts(p, lo, Code(r, 0), Link(3, d));
      CodePath(p, lo, r, 0);
      PathOver(p, lo, r);
    }
  }

  /** From linked code over the branch and the choice that follow it in a loop. */
  lemma PathOver(p: seq<Byte>, lo: nat, r: Regex)
    requires Chained(p, lo, r, 0)
    requires var n := lo + Size(r);
             && n + 12 <= |p|
             && p[n] == BRANCH && NextOffset(p, n) == 6
             && p[n + 6] == BRANCH && NextOffset(p, n + 6) == 3
    ensures Path(p, lo, lo + Size(r) + 9)
  {
    hide NextOffset, Path, Size, Tail;
    var n := lo + Size(r);
    PathStep2(p, n, 6, 3);
    PathJoin(p, lo, lo + Tail(r), n, n + 9);
  }

  lemma OptPath(p: seq<Byte>, lo: nat, r: Regex, d: int)
    requires At(p, lo, Code(Opt(r), d)) && Size(Opt(r)) + Link(0, d) < SPAN
    ensures Chained(p, lo, Opt(r), d)
  {
    hide At, Node, NextOffset, Path, Code, OptCode;
    CodeOpt(r, d);
    OptParts(p, lo, Code(r, 3), Link(3, d));
    PathStep2(p, lo, Size(r) + 3, 3);
  }

  lemma {:induction false} CatPath(p: seq<Byte>, lo: nat, a: Regex, b: Regex, d: int)
    requires WellFormed(a) && WellFormed(b) && At(p, lo, Code(Cat(a, b), d)) && Size(Cat(a, b)) + Link(0, d) < SPAN
    ensures Chained(p, lo, Cat(a, b), d)
    decreases Cat(a, b), 0
  {
    hide At, NextOffset, Path, Code, WellFormed;
    CodeCat(a, b, d);
    AtConcat(p, lo, Code(a, 0), Code(b, d));
    CodePath(p, lo, a, 0);
    CodePath(p, lo + Size(a), b, d);
    PathJoin(p, lo, lo + Tail(a), lo + Size(a), lo + Size(a) + Tail(b));
  }

  lemma PathStep2(p: seq<Byte>, n: nat, o1: nat, o2: nat)
    requires n + o1 + o2 + 3 <= |p| && o1 > 0 && o2 > 0
    requires p[n] != BACK && NextOffset(p, n) == o1
    requires p[n + o1] != BACK && NextOffset(p, n + o1) == o2
    ensures Path(p, n, n + o1 + o2)
  {
    assert Path(p, n + o1 + o2, n + o1 + o2);
    assert Path(p, n + o1, n + o1 + o2);
  }

  lemma PathJoin(p: seq<Byte>, n: nat, t: nat, m: nat, u: nat)
    requires Path(p, n, t) && p[t] != BACK && t < m && NextOffset(p, t) == m - t && Path(p, m, u)
    ensures Path(p, n, u)
  {
    assert Path(p, t, u);
    PathConcat(p, n, t, u);
  }

  lemma {:induction false} GroupPath(p: seq<Byte>, lo: nat, no: nat, a: Alts, d: int)
    requires 1 <= no < 10 && At(p, lo, Code(Group(no, a), d)) && Size(Group(no, a)) + Link(0, d) < SPAN
    ensures Chained(p, lo, Group(no, a), d)
  {
    hide At, NextOffset, Path, Code, AltsCode, GroupCode;
    CodeGroup(no, a, d);
    GroupParts(p, lo, no, AltsCode(a, 0, 0, Count(a)), Link(3, d));
    AltsPath(p, lo + 3, a, 0, 0, Count(a));
    var n := lo + 3 + AltsSize(a);
    PathHere(p, n);
    PathHere(p, lo);
    PathJoin(p, lo + 3, lo + 3 + BranchAt(a, Count(a) - 1), n, n);
    PathJoin(p, lo, lo, lo + 3, n);
  }

  lemma MoreParts(p: seq<Byte>, lo: nat, i: Alts, b: Regex, dBranch: nat, dBody: nat, c: nat)
    requires At(p, lo, AltsCode(More(i, b), dBranch, dBody, c)) && c > Count(i)
    ensures At(p, lo, AltsCode(i, 0, dBody + 3 + Size(b), c))
    ensures At(p, lo + AltsSize(i), Branched(3 + Size(b) + dBranch, Code(b, dBody)))
  {
    hide At, AltsCode, Code, Branched, Size;
    AltsCodeMore(i, b, dBranch, dBody, c);
    AtConcat(p, lo, AltsCode(i, 0, dBody + 3 + Size(b), c), Branched(3 + Size(b) + dBranch, Code(b, dBody)));
  }

  lemma AltsParts(p: seq<Byte>, lo: nat, x: seq<Byte>, o: nat, y: seq<Byte>)
    requires At(p, lo, x + Branched(o, y)) && o < SPAN
    ensures At(p, lo, x)
    ensures lo + |x| + 3 <= |p| && p[lo + |x|] == BRANCH && NextOffset(p, lo + |x|) == o
    ensures At(p, lo + |x| + 3, y)
  {
    AtConcat(p, lo, x, Branched(o, y));
    PrefixParts(p, lo + |x|, BRANCH, o, y);
  }

  lemma {:induction false} AltsPath(p: seq<Byte>, lo: nat, a: Alts, dBranch: int, dBody: nat, k: nat)
    requires At(p, lo, AltsCode(a, dBranch, dBody, k))
    requires AltsSize(a) + Link(0, dBranch) < SPAN
    ensures var t := BranchAt(a, Count(a) - 1);
            && Path(p, lo, lo + t)
            && p[lo + t] == BRANCH
            && NextOffset(p, lo + t) == Link(AltsSize(a) - t, dBranch)
    decreases a, 0
  {
    hide At, NextOffset, Path, AltsCode, Code, Branched, Size;
    match a
    case One(b) =>
      PathHere(p, lo);
      AltsCodeOne(b, dBranch, dBody, k);
      BranchedParts(p, lo, Link(3 + Size(b), dBranch), Code(b, if 0 < k then dBody else DANGLING));
    case More(i, b) =>
      AltsPathMore(p, lo, i, b, dBranch, dBody, k);
  }

  lemma {:induction false} AltsPathMore(p: seq<Byte>, lo: nat, i: Alts, b: Regex, dBranch: int, dBody: nat, k: nat)
    requires At(p, lo, AltsCode(More(i, b), dBranch, dBody, k))
    requires AltsSize(More(i, b)) + Link(0, dBranch) < SPAN
    ensures var t := AltsSize(i);
            && Path(p, lo, lo + t)
            && p[lo + t] == BRANCH
            && NextOffset(p, lo + t) == Link(3 + Size(b), dBranch)
    decreases i, 1
  {
    hide At, NextOffset, Path, AltsCode, Code, Branched, Size;
    AltsCodeMore(i, b, dBranch, dBody, k);
    var x := AltsCode(i, 0, dBody + 3 + Size(b), k);
    var y := Code(b, if Count(i) < k then dBody else DANGLING);
    var o := Link(3 + Size(b), dBranch);
    AltsParts(p, lo, x, o, y);
    AltsPath(p, lo, i, 0, dBody + 3 + Size(b), k);
    var n := lo + AltsSize(i);
    PathHere(p, n);
    PathJoin(p, lo, lo + BranchAt(i, Count(i) - 1), n, n);
  }

  // ----- one alternative of a list -----

  /** With no operand linked, the distance to the exit does not matter. */
  lemma {:induction false} AltsCodeNone(a: Alts, dBranch: int, d1: nat, d2: nat)
    ensures AltsCode(a, dBranch, d1, 0) == AltsCode(a, dBranch, d2, 0)
  {
    hide AltsCode, Code, Branched;
    match a
    case One(b) =>
      AltsCodeOne(b, dBranch, d1, 0);
      AltsCodeOne(b, dBranch, d2, 0);
    case More(i, b) =>
      AltsCodeMore(i, b, dBranch, d1, 0);
      AltsCodeMore(i, b, dBranch, d2, 0);
      AltsCodeNone(i, 0, d1 + 3 + Size(b), d2 + 3 + Size(b));
  }

  /** Where the alternative after number `k` starts, the end of the list if there is none. */
  function BranchEnd(a: Alts, k: nat): nat
    requires k < Count(a)
  {
    BranchAt(a, k) + 3 + Size(Branch(a, k))
  }

  lemma {:induction false} BranchEndAt(a: Alts, k: nat)
    requires k < Count(a)
    ensures BranchEnd(a, k) == if k + 1 < Count(a) then BranchAt(a, k + 1) else AltsSize(a)
  {
    if a.More? && k < Count(a.init) {
      BranchEndAt(a.init, k);
    }
  }

  /** Alternative `k` in the code of a list; its operand is linked when `k < c`. */
  lemma {:induction false} NthBranch(p: seq<Byte>, lo: nat, a: Alts, dBranch: int, dBody: nat, k: nat, c: nat)
    requires k < Count(a) && At(p, lo, AltsCode(a, dBranch, dBody, c))
    requires AltsSize(a) + Link(0, dBranch) < SPAN
    ensures var n := lo + BranchAt(a, k);
            && n + 3 <= |p| && p[n] == BRANCH
            && NextOffset(p, n) == Link(3 + Size(Branch(a, k)), if k + 1 < Count(a) then 0 else dBranch)
            && (k >= c ==> At(p, n + 3, Code(Branch(a, k), DANGLING)))
  {
    hide At, AltsCode, Code, NextOffset, Branched, Size;
    match a
    case One(b) =>
      AltsCodeOne(b, dBranch, dBody, c);
      BranchedParts(p, lo, Link(3 + Size(b), dBranch), Code(b, if 0 < c then dBody else DANGLING));
    case More(i, b) =>
      AltsCodeMore(i, b, dBranch, dBody, c);
      AltsParts(p, lo, AltsCode(i, 0, dBody + 3 + Size(b), c), Link(3 + Size(b), dBranch),
                Code(b, if Count(i) < c then dBody else DANGLING));
      if k < Count(i) {
        NthBranch(p, lo, i, 0, dBody + 3 + Size(b), k, c);
      }
  }

  lemma BranchedParts(p: seq<Byte>, lo: nat, o: nat, x: seq<Byte>)
    requires At(p, lo, Branched(o, x)) && o < SPAN
    ensures lo + 3 <= |p| && p[lo] == BRANCH && NextOffset(p, lo) == o
    ensures At(p, lo + 3, x)
  {
    PrefixParts(p, lo, BRANCH, o, x);
  }

  // ----- changing a program -----

  ghost predicate SamePrefix(p: seq<Byte>, q: seq<Byte>, n: nat) {
    n <= |p| && n <= |q| && forall i :: 0 <= i < n ==> p[i] == q[i]
  }

  lemma AtKept(p: seq<Byte>, q: seq<Byte>, lo: nat, x: seq<Byte>)
    requires At(p, lo, x) && SamePrefix(p, q, lo + |x|)
    ensures At(q, lo, x)
  {
  }

  /** Patching a node inside `x` patches `x` and nothing else. */
  lemma AtSetNext(p: seq<Byte>, lo: nat, x: seq<Byte>, t: nat, o: nat)
    requires At(p, lo, x) && t + 3 <= |x|
    ensures At(SetNext(p, lo + t, o), lo, SetNext(x, t, o))
    ensures SamePrefix(p, SetNext(p, lo + t, o), lo)
  {
  }

  /** Links are relative: a chain inside a piece of code is a chain wherever that code stands. */
  lemma {:induction false} PathLift(p: seq<Byte>, lo: nat, x: seq<Byte>, s: nat, t: nat)
    requires At(p, lo, x) && Path(x, s, t)
    ensures Path(p, lo + s, lo + t)
    decreases t - s
  {
    if s < t {
      OffsetLift(p, lo, x, s);
      PathLift(p, lo, x, s + NextOffset(x, s), t);
    }
  }

  lemma OffsetLift(p: seq<Byte>, lo: nat, x: seq<Byte>, t: nat)
    requires At(p, lo, x) && t + 3 <= |x|
    ensures lo + t + 3 <= |p| && p[lo + t] == x[t] && NextOffset(p, lo + t) == NextOffset(x, t)
  {
    assert p[lo + (t + 1)] == x[t + 1];
    assert p[lo + (t + 2)] == x[t + 2];
  }

  lemma AtMiddle(w: seq<Byte>, y: seq<Byte>, z: seq<Byte>)
    ensures At(w + y + z, |w|, y)
  {
    hide At;
    AtSelf(w + y + z);
    AtConcat(w + y + z, 0, w + y, z);
    AtConcat(w + y + z, 0, w, y);
  }

  /** A node in the middle of a piece of code, and the same code with that node linked. */
  lemma MiddleNode(w: seq<Byte>, op: Byte, o: nat, z: seq<Byte>, o': nat)
    requires o < SPAN
    ensures var x := w + Node(op, o) + z;
            && x[|w|] == op && NextOffset(x, |w|) == o
            && SetNext(x, |w|, o') == w + Node(op, o') + z
  {
    hide At, Node, SetNext, NextOffset;
    var x := w + Node(op, o) + z;
    AtMiddle(w, Node(op, o), z);
    AtNode(x, |w|, op, o);
    SetNextNode(op, o, o');
    SetNextRight(w, Node(op, o), 0, o');
    SetNextLeft(w + Node(op, o), z, |w|, o');
  }

  /** Dangling code in the middle of a piece of code, and the same code with its exit linked. */
  lemma {:induction false} MiddleCode(w: seq<Byte>, e: Regex, z: seq<Byte>, d: nat)
    requires WellFormed(e) && Size(e) < SPAN
    ensures var x, t := w + Code(e, DANGLING) + z, |w| + Tail(e);
            && Path(x, |w|, t) && NextOffset(x, t) == 0 && x[t] != BACK
            && SetNext(x, t, Size(e) - Tail(e) + d) == w + Code(e, d) + z
  {
    hide At, Code, SetNext, NextOffset, Path, Size, Tail, WellFormed;
    var y := Code(e, DANGLING);
    var x := w + y + z;
    AtMiddle(w, y, z);
    CodePath(x, |w|, e, DANGLING);
    SetNextCode(e, d);
    SetNextRight(w, y, Tail(e), Size(e) - Tail(e) + d);
    SetNextLeft(w + y, z, |w| + Tail(e), Size(e) - Tail(e) + d);
  }

  /** Linked code in the middle of a piece of code leads through its tail to its exit. */
  lemma {:induction false} MiddlePath(w: seq<Byte>, e: Regex, z: seq<Byte>, d: nat)
    requires WellFormed(e) && Size(e) + d < SPAN && d + 3 <= |z|
    ensures Path(w + Code(e, d) + z, |w|, |w| + Size(e) + d)
  {
    hide At, Code, NextOffset, Path, Size, Tail, WellFormed;
    var y := Code(e, d);
    var x := w + y + z;
    AtMiddle(w, y, z);
    CodePath(x, |w|, e, d);
    var n := |w| + Size(e) + d;
    PathHere(x, n);
    PathJoin(x, |w|, |w| + Tail(e), n, n);
  }

  lemma AtSelf(p: seq<Byte>)
    ensures At(p, 0, p)
  {
  }
}
