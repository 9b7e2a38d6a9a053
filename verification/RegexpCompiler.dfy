/**
 The compiler itself: mutually recursive routines that advance over the
 pattern and emit, relocate and patch code in a fixed buffer.  The same
 routines run twice, first to count the bytes needed and then to emit them.
 */
module RegexpCompiler {
  import opened RegexpSyntax
  import opened RegexpCode
  import opened RegexpParser

  /** No node.  Address 0 of a program holds the magic number. */
  const NULL := 0

  /** The emit pointer of the counting pass: nothing is stored. */
  const DUMMY := -1

  /** A 16-bit count. */
  type Word = n: int | 0 <= n < SPAN

  datatype Flags = Flags(hasWidth: bool, simple: bool, spStart: bool)

  /** The emit pointer, the count and the buffer. */
  datatype Store = Store(code: int, size: Word, buf: seq<Byte>)

  /** From `a` to `b` the bytes `x` were emitted, or counted. */
  ghost predicate Emits(a: Store, b: Store, x: seq<Byte>) {
    if a.code == DUMMY then
      b == a.(size := (a.size + |x|) % SPAN)
    else
      && b.size == a.size
      && |b.buf| == |a.buf|
      && 0 < a.code && b.code == a.code + |x|
      && SamePrefix(a.buf, b.buf, a.code)
      && At(b.buf, a.code, x)
  }

  lemma EmitsConcat(a: Store, b: Store, c: Store, x: seq<Byte>, y: seq<Byte>)
    requires Emits(a, b, x) && Emits(b, c, y)
    ensures Emits(a, c, x + y)
  {
    if a.code != DUMMY {
      AtKept(b.buf, c.buf, a.code, x);
      AtConcat(c.buf, a.code, x, y);
    }
  }

  /** One byte emitted, or counted. */
  function Stored(s: Store, b: Byte): Store
    requires s.code == DUMMY || 0 <= s.code < |s.buf|
  {
    if s.code == DUMMY then s.(size := (s.size + 1) % SPAN)
    else s.(code := s.code + 1, buf := s.buf[s.code := b])
  }

  lemma StoredEmits(s: Store, b: Byte)
    requires Fits(s, 1)
    ensures Emits(s, Stored(s, b), [b])
  {
  }

  /** The buffer after the node at `t` was patched; unchanged in the counting pass. */
  function Patched(b: Store, t: nat, o: nat): Store
    requires b.code != DUMMY ==> t + 3 <= |b.buf|
  {
    if b.code == DUMMY then b else b.(buf := SetNext(b.buf, t, o))
  }

  lemma EmitsPatched(a: Store, b: Store, x: seq<Byte>, t: nat, o: nat)
    requires Emits(a, b, x) && t + 3 <= |x|
    ensures b.code != DUMMY ==> a.code + t + 3 <= |b.buf|
    ensures Emits(a, Patched(b, if a.code == DUMMY then 0 else a.code + t, o), SetNext(x, t, o))
  {
    if a.code != DUMMY {
      AtSetNext(b.buf, a.code, x, t, o);
    }
  }

  /** There is room for `n` more bytes. */
  predicate Fits(s: Store, n: nat) {
    s.code == DUMMY || (0 < s.code && s.code + n <= |s.buf| && s.code + n < SPAN)
  }

  lemma FitsLess(a: Store, n: nat)
    requires Fits(a, n)
    ensures a.code != NULL
    ensures forall m: nat :: m <= n ==> Fits(a, m)
  {
  }

  lemma FitsMore(a: Store, b: Store, x: seq<Byte>, n: nat)
    requires Emits(a, b, x) && Fits(a, |x| + n)
    ensures Fits(b, n)
  {
  }

  /** Code emitted at `a` and its relocation behind a new node. */
  lemma EmitsInserted(a: Store, b: Store, c: Store, op: Byte, x: seq<Byte>)
    requires a.code != DUMMY && Emits(a, b, x) && c.code == b.code + 3 && c.size == b.size && |c.buf| == |b.buf|
    requires SamePrefix(b.buf, c.buf, a.code) && At(c.buf, a.code, Node(op, 0)) && At(c.buf, a.code + 3, x)
    ensures Emits(a, c, Node(op, 0) + x)
  {
    AtConcat(c.buf, a.code, Node(op, 0), x);
  }

  /** The counting pass looks at lengths only. */
  lemma Counted(a: Store, b: Store, x: seq<Byte>, y: seq<Byte>)
    requires a.code == DUMMY && Emits(a, b, x) && |x| == |y|
    ensures Emits(a, b, y)
  {
  }

  lemma InsertedRoom(a: Store, b: Store, x: seq<Byte>)
    requires Emits(a, b, x)
    ensures (a.code == DUMMY) == (b.code == DUMMY)
    ensures b.code != DUMMY ==> 0 < a.code && b.code == a.code + |x| <= |b.buf| && At(b.buf, a.code, x)
  {
  }

  /** Address of position `s` of the code emitted since `a`. */
  function Addr(a: Store, s: nat): int {
    if a.code == DUMMY then DUMMY else a.code + s
  }

  /** In the code `x` the `next` chain from `s` ends at `t`. */
  ghost predicate Chain(x: seq<Byte>, s: nat, t: nat) {
    Path(x, s, t) && NextOffset(x, t) == 0
  }

  /** Offset stored in node `t` to make it lead to `v`. */
  ghost function Distance(x: seq<Byte>, t: nat, v: nat): nat
    requires t < |x| && (if x[t] == BACK then v <= t else t <= v)
  {
    if x[t] == BACK then t - v else v - t
  }

  /** In `x` the chain from `s` ends at `t`; linking it to `v` gives `y`. */
  ghost predicate Links(x: seq<Byte>, s: nat, t: nat, v: nat, y: seq<Byte>) {
    && Chain(x, s, t)
    && (if x[t] == BACK then v <= t else t <= v)
    && y == SetNext(x, t, Distance(x, t, v))
  }

  /** The same for the operand of node `s`, if that is a BRANCH. */
  ghost predicate OpLinks(x: seq<Byte>, s: nat, t: nat, v: nat, y: seq<Byte>) {
    s + 3 <= |x| && if x[s] == BRANCH then Links(x, s + 3, t, v, y) else y == x
  }

  // ----- the links of `*`, `+` and `?` -----

  lemma LastNode(w: seq<Byte>, op: Byte, o: nat, o': nat)
    requires o < SPAN
    ensures var x := w + Node(op, o);
            && x[|w|] == op && NextOffset(x, |w|) == o
            && SetNext(x, |w|, o') == w + Node(op, o')
  {
    hide SetNext, NextOffset, Node;
    MiddleNode(w, op, o, [], o');
    assert w + Node(op, o) + [] == w + Node(op, o);
    assert w + Node(op, o') + [] == w + Node(op, o');
  }

  lemma FirstNode(op: Byte, o: nat, z: seq<Byte>, o': nat)
    requires o < SPAN
    ensures var x := Node(op, o) + z;
            && x[0] == op && NextOffset(x, 0) == o
            && SetNext(x, 0, o') == Node(op, o') + z
  {
    hide SetNext, NextOffset, Node;
    MiddleNode([], op, o, z, o');
    assert [] + Node(op, o) + z == Node(op, o) + z;
    assert [] + Node(op, o') + z == Node(op, o') + z;
  }

  /** `x*` before the alternative: `x` between a BRANCH and a BACK with offset `o`. */
  function LoopCode(x: seq<Byte>, o: nat): (c: seq<Byte>)
    ensures |c| == |x| + 6
  {
    Node(BRANCH, 0) + x + Node(BACK, o)
  }

  lemma LoopBodyLinks(a: Store, e: Regex)
    requires WellFormed(e) && Fits(a, Size(e) + 12)
    ensures a.code != DUMMY ==>
              OpLinks(LoopCode(Code(e, DANGLING), 0), 0, 3 + Tail(e), 3 + Size(e), LoopCode(Code(e, 0), 0))
  {
    hide Code, Path, NextOffset, SetNext, Size, Tail, WellFormed;
    if a.code != DUMMY {
      MiddleCode(Node(BRANCH, 0), e, Node(BACK, 0), 0);
    }
  }

  lemma LoopBackLinks(a: Store, e: Regex)
    requires WellFormed(e) && Fits(a, Size(e) + 12)
    ensures a.code != DUMMY ==>
              OpLinks(LoopCode(Code(e, 0), 0), 0, 3 + Size(e), 0, LoopCode(Code(e, 0), Size(e) + 3))
  {
    hide Code, Path, NextOffset, SetNext, Size, Tail, WellFormed;
    if a.code != DUMMY {
      MiddlePath(Node(BRANCH, 0), e, Node(BACK, 0), 0);
      LastNode(Node(BRANCH, 0) + Code(e, 0), BACK, 0, Size(e) + 3);
    }
  }

  /** `x*` with its second BRANCH, the first one linked with offset `o`. */
  function ChoiceCode(y: seq<Byte>, o: nat): (c: seq<Byte>)
    ensures |c| == |y| + 9
  {
    Node(BRANCH, o) + y + Node(BACK, |y| + 3) + Node(BRANCH, 0)
  }

  lemma ChoiceLinks(a: Store, y: seq<Byte>)
    requires Fits(a, |y| + 12)
    ensures a.code != DUMMY ==>
              Links(ChoiceCode(y, 0), 0, 0, |y| + 6, ChoiceCode(y, |y| + 6))
  {
    hide SetNext, NextOffset, Node;
    var z := y + Node(BACK, |y| + 3) + Node(BRANCH, 0);
    FirstNode(BRANCH, 0, z, |y| + 6);
    assert forall o :: ChoiceCode(y, o) == Node(BRANCH, o) + z;
  }

  lemma StarLinks(a: Store, y: seq<Byte>)
    requires Fits(a, |y| + 12)
    ensures a.code != DUMMY ==>
              Links(ChoiceCode(y, |y| + 6) + Node(NOTHING, 0), 0, |y| + 6, |y| + 9, StarCode(y, 0))
  {
    hide SetNext, NextOffset, Node;
    if a.code != DUMMY {
      var n := |y|;
      var x := ChoiceCode(y, n + 6) + Node(NOTHING, 0);
      var w := Node(BRANCH, n + 6) + y + Node(BACK, n + 3);
      MiddleNode(w, BRANCH, 0, Node(NOTHING, 0), 3);
      var z := y + Node(BACK, n + 3) + Node(BRANCH, 0) + Node(NOTHING, 0);
      FirstNode(BRANCH, n + 6, z, 0);
      assert x == Node(BRANCH, n + 6) + z;
      assert Path(x, n + 6, n + 6);
      assert StarCode(y, 0) == w + Node(BRANCH, 3) + Node(NOTHING, 0);
    }
  }

  lemma PlusBodyLinks(a: Store, e: Regex)
    requires WellFormed(e) && Fits(a, Size(e) + 12)
    ensures a.code != DUMMY ==>
              Links(Code(e, DANGLING) + Node(BRANCH, 0), 0, Tail(e), Size(e), Code(e, 0) + Node(BRANCH, 0))
  {
    hide Code, Path, NextOffset, SetNext, Size, Tail, WellFormed, Node;
    if a.code != DUMMY {
      MiddleCode([], e, Node(BRANCH, 0), 0);
      assert [] + Code(e, DANGLING) + Node(BRANCH, 0) == Code(e, DANGLING) + Node(BRANCH, 0);
      assert [] + Code(e, 0) + Node(BRANCH, 0) == Code(e, 0) + Node(BRANCH, 0);
    }
  }

  lemma PlusBackLinks(a: Store, y: seq<Byte>)
    requires Fits(a, |y| + 12)
    ensures a.code != DUMMY ==>
              Links(y + Node(BRANCH, 0) + Node(BACK, 0), |y| + 3, |y| + 3, 0, y + Node(BRANCH, 0) + Node(BACK, |y| + 3))
  {
    hide Node, NextOffset, SetNext;
    if a.code != DUMMY {
      LastNode(y + Node(BRANCH, 0), BACK, 0, |y| + 3);
    }
  }

  /** `x+` with both its BRANCH nodes, the first one linked with offset `o`. */
  function AgainCode(y: seq<Byte>, o: nat): (c: seq<Byte>)
    ensures |c| == |y| + 9
  {
    y + Node(BRANCH, o) + Node(BACK, |y| + 3) + Node(BRANCH, 0)
  }

  lemma AgainLinks(a: Store, y: seq<Byte>)
    requires Fits(a, |y| + 12)
    ensures a.code != DUMMY ==> Links(AgainCode(y, 0), |y|, |y|, |y| + 6, AgainCode(y, 6))
  {
    hide Node, NextOffset, SetNext;
    if a.code != DUMMY {
      var z := Node(BACK, |y| + 3) + Node(BRANCH, 0);
      MiddleNode(y, BRANCH, 0, z, 6);
      assert forall o :: y + Node(BRANCH, o) + z == AgainCode(y, o);
    }
  }

  lemma PlusLinks(a: Store, e: Regex)
    requires WellFormed(e) && Fits(a, Size(e) + 12)
    ensures var y, n := Code(e, 0), Size(e);
            a.code != DUMMY ==> Links(AgainCode(y, 6) + Node(NOTHING, 0), 0, n + 6, n + 9, PlusCode(y, 0))
  {
    hide Code, Node, NextOffset, SetNext, Path, Size, WellFormed, PlusCode, AgainCode;
    if a.code != DUMMY {
      PlusChain(e);
      PlusPatch(Code(e, 0));
    }
  }

  /** The chain of `x+` runs through `x` and both BRANCH nodes. */
  lemma PlusChain(e: Regex)
    requires WellFormed(e) && Size(e) + 12 < SPAN
    ensures Path(AgainCode(Code(e, 0), 6) + Node(NOTHING, 0), 0, Size(e) + 6)
  {
    hide Code, Node, NextOffset, Path, Size, WellFormed;
    var y, n := Code(e, 0), Size(e);
    var x := AgainCode(y, 6) + Node(NOTHING, 0);
    var z := Node(BACK, n + 3) + Node(BRANCH, 0) + Node(NOTHING, 0);
    assert x == y + Node(BRANCH, 6) + z;
    MiddleNode(y, BRANCH, 6, z, 0);
    assert x == [] + y + (Node(BRANCH, 6) + z);
    MiddlePath([], e, Node(BRANCH, 6) + z, 0);
    PathHere(x, n + 6);
    PathHere(x, n);
    PathJoin(x, n, n, n + 6, n + 6);
    PathConcat(x, 0, n, n + 6);
  }

  lemma PlusPatch(y: seq<Byte>)
    ensures var x, n := AgainCode(y, 6) + Node(NOTHING, 0), |y|;
            x[n + 6] == BRANCH && NextOffset(x, n + 6) == 0 && SetNext(x, n + 6, 3) == PlusCode(y, 0)
  {
    hide Node, NextOffset, SetNext;
    var w := y + Node(BRANCH, 6) + Node(BACK, |y| + 3);
    MiddleNode(w, BRANCH, 0, Node(NOTHING, 0), 3);
    assert PlusCode(y, 0) == w + Node(BRANCH, 3) + Node(NOTHING, 0);
  }

  /** `x?` without its final NOTHING; its BRANCH nodes have offsets `o1` and `o2`. */
  function EitherCode(x: seq<Byte>, o1: nat, o2: nat): (c: seq<Byte>)
    ensures |c| == |x| + 6
  {
    Node(BRANCH, o1) + x + Node(BRANCH, o2)
  }

  lemma EitherLinks(a: Store, x: seq<Byte>)
    requires Fits(a, |x| + 9)
    ensures a.code != DUMMY ==> Links(EitherCode(x, 0, 0), 0, 0, |x| + 3, EitherCode(x, |x| + 3, 0))
  {
    hide Node, NextOffset, SetNext;
    if a.code != DUMMY {
      FirstNode(BRANCH, 0, x + Node(BRANCH, 0), |x| + 3);
      assert forall o :: EitherCode(x, o, 0) == Node(BRANCH, o) + (x + Node(BRANCH, 0));
    }
  }

  lemma OrLinks(a: Store, x: seq<Byte>)
    requires Fits(a, |x| + 9)
    ensures var n := |x|;
            a.code != DUMMY ==>
              Links(EitherCode(x, n + 3, 0) + Node(NOTHING, 0), 0, n + 3, n + 6,
                    EitherCode(x, n + 3, 3) + Node(NOTHING, 0))
  {
    hide Node, NextOffset, SetNext;
    if a.code != DUMMY {
      var n := |x|;
      MiddleNode(Node(BRANCH, n + 3) + x, BRANCH, 0, Node(NOTHING, 0), 3);
      var z := x + Node(BRANCH, 0) + Node(NOTHING, 0);
      FirstNode(BRANCH, n + 3, z, 0);
      assert EitherCode(x, n + 3, 0) + Node(NOTHING, 0) == Node(BRANCH, n + 3) + z;
      assert Path(Node(BRANCH, n + 3) + z, n + 3, n + 3);
    }
  }

  lemma OptLinks(a: Store, e: Regex)
    requires WellFormed(e) && Fits(a, Size(e) + 9)
    ensures var n := Size(e);
            a.code != DUMMY ==>
              OpLinks(EitherCode(Code(e, DANGLING), n + 3, 3) + Node(NOTHING, 0), 0, 3 + Tail(e), n + 6,
                      OptCode(Code(e, 3), 0))
  {
    hide Code, NextOffset, SetNext, Path, Size, Tail, WellFormed;
    if a.code != DUMMY {
      var n := Size(e);
      var z := Node(BRANCH, 3) + Node(NOTHING, 0);
      MiddleCode(Node(BRANCH, n + 3), e, z, 3);
      assert EitherCode(Code(e, DANGLING), n + 3, 3) + Node(NOTHING, 0) == Node(BRANCH, n + 3) + Code(e, DANGLING) + z;
      assert OptCode(Code(e, 3), 0) == Node(BRANCH, n + 3) + Code(e, 3) + z;
    }
  }

  // ----- sequences and alternatives -----

  /** The code of the pieces of an alternative so far; none before the first. */
  function PiecesCode(acc: Regex): (c: seq<Byte>)
    ensures |c| == PrefixSize(acc)
  {
    if acc.Empty? then [] else Code(acc, DANGLING)
  }

  /** Where the last piece starts. */
  function LastAt(acc: Regex): nat {
    if acc.Cat? then Size(acc.init) else 0
  }

  lemma Appended(a: Store, b: Store, c: Store, acc: Regex, e: Regex)
    requires var x := Node(BRANCH, 0) + PiecesCode(acc);
             Emits(a, b, x) && Emits(b, c, Code(e, DANGLING))
    ensures var x := Node(BRANCH, 0) + PiecesCode(acc);
            && b.code == Addr(a, |x|) && Emits(a, c, x + Code(e, DANGLING))
            && (acc.Empty? ==> x + Code(e, DANGLING) == Node(BRANCH, 0) + Code(e, DANGLING))
  {
    hide Emits, Code;
    var x := Node(BRANCH, 0) + PiecesCode(acc);
    InsertedRoom(a, b, x);
    EmitsConcat(a, b, c, x, Code(e, DANGLING));
  }

  lemma PieceLinks(a: Store, acc: Regex, e: Regex)
    requires !acc.Empty? && WellFormed(acc) && Fits(a, 3 + Size(acc) + Size(e))
    ensures a.code != DUMMY ==>
              Links(Node(BRANCH, 0) + Code(acc, DANGLING) + Code(e, DANGLING),
                    3 + LastAt(acc), 3 + Tail(acc), 3 + Size(acc), Node(BRANCH, 0) + Code(Cat(acc, e), DANGLING))
  {
    hide Code, Node, Links, WellFormed, Size, Tail;
    if a.code != DUMMY {
      var h, z := Node(BRANCH, 0), Code(e, DANGLING);
      ChainLinks(h, acc, z);
      CodeCat(acc, e, DANGLING);
      Assoc(h, Code(acc, 0), z);
    }
  }

  lemma ChainLinks(h: seq<Byte>, acc: Regex, z: seq<Byte>)
    requires WellFormed(acc) && Size(acc) < SPAN
    ensures Links(h + Code(acc, DANGLING) + z, |h| + LastAt(acc), |h| + Tail(acc), |h| + Size(acc),
                  h + Code(acc, 0) + z)
  {
    hide Code, Links, WellFormed, Size, Tail;
    match acc
    case Cat(i, l) =>
      LastPiece(i, l);
      LastLinks(h, i, l, z);
    case _ => CodeLinks(h, acc, z);
  }

  lemma LastPiece(i: Regex, l: Regex)
    requires WellFormed(Cat(i, l))
    ensures WellFormed(l) && Size(Cat(i, l)) == Size(i) + Size(l) && Tail(Cat(i, l)) == Size(i) + Tail(l)
  {
    hide IsPiece;
  }

  lemma CodeLinks(h: seq<Byte>, e: Regex, z: seq<Byte>)
    requires WellFormed(e) && Size(e) < SPAN
    ensures Links(h + Code(e, DANGLING) + z, |h|, |h| + Tail(e), |h| + Size(e), h + Code(e, 0) + z)
  {
    hide Code, NextOffset, SetNext, Path, WellFormed, Size, Tail;
    MiddleCode(h, e, z, 0);
  }

  lemma LastLinks(h: seq<Byte>, i: Regex, l: Regex, z: seq<Byte>)
    requires WellFormed(l) && Size(l) < SPAN
    ensures Links(h + Code(Cat(i, l), DANGLING) + z, |h| + Size(i), |h| + Size(i) + Tail(l), |h| + Size(i) + Size(l),
                  h + Code(Cat(i, l), 0) + z)
  {
    hide Code, Links, Size, Tail, WellFormed;
    CodeCat(i, l, DANGLING);
    CodeCat(i, l, 0);
    Assoc(h, Code(i, 0), Code(l, DANGLING));
    Assoc(h, Code(i, 0), Code(l, 0));
    CodeLinks(h + Code(i, 0), l, z);
  }

  lemma Assoc(x: seq<Byte>, y: seq<Byte>, z: seq<Byte>)
    ensures (x + y) + z == x + (y + z)
  {
  }

  /** What `reg` emits for the alternatives `t`: with `paren` group number `no`, otherwise a whole program. */
  function RegCode(paren: bool, no: nat, t: Alts): (c: seq<Byte>) {
    var x := AltsCode(t, 0, 0, Count(t));
    if paren then GroupCode(no, x, 0) else x + Node(END, 0)
  }

  /** The linked mark in front of a group's alternatives. */
  function Head(paren: bool, no: nat): (h: seq<Byte>)
    ensures |h| == if paren then 3 else 0
  {
    if paren then Node(GroupOp(OPEN, no), 3) else []
  }

  function Ender(paren: bool, no: nat): Byte {
    if paren then GroupOp(CLOSE, no) else END
  }

  lemma RegCodeParts(paren: bool, no: nat, t: Alts)
    ensures Head(paren, no) + AltsCode(t, 0, 0, Count(t)) + Node(Ender(paren, no), 0) == RegCode(paren, no, t)
  {
    hide AltsCode, Node;
    var x, z := AltsCode(t, 0, 0, Count(t)), Node(Ender(paren, no), 0);
    Assoc(Head(paren, no), x, z);
    assert [] + (x + z) == x + z;
  }

  /** The code of `reg` when the operands of the first `k` alternatives are linked. */
  function Linked(paren: bool, no: nat, t: Alts, k: nat): (c: seq<Byte>)
    ensures |c| == |Head(paren, no)| + AltsSize(t) + 3
  {
    Head(paren, no) + AltsCode(t, 0, 0, k) + Node(Ender(paren, no), 0)
  }

  lemma AltsGrow(h: seq<Byte>, t: Alts, b: Regex)
    ensures h + AltsCode(t, 0, 0, 0) + Branched(0, Code(b, DANGLING)) == h + AltsCode(More(t, b), DANGLING, 0, 0)
  {
    hide AltsCode, Branched, Code, Size, AltsSize, Count;
    AltsCodeMore(t, b, DANGLING, 0, 0);
    AltsCodeNone(t, 0, 0, 3 + Size(b));
    Assoc(h, AltsCode(t, 0, 0, 0), Branched(0, Code(b, DANGLING)));
  }

  lemma OpenLinks(paren: bool, no: nat, z: seq<Byte>)
    ensures paren ==> Links(Node(GroupOp(OPEN, no), 0) + z, 0, 0, 3, Head(paren, no) + z) || no >= NSUBEXP
    ensures !paren ==> Head(paren, no) + z == [] + z
  {
    hide NextOffset, SetNext, Node;
    FirstNode(GroupOp(OPEN, no), 0, z, 3);
  }

  lemma {:induction false} FirstBranch(t: Alts)
    ensures BranchAt(t, 0) == 0
  {
    if t.More? {
      FirstBranch(t.init);
    }
  }

  /** Position `s` is the node that the linking loop visits when `k` operands are linked. */
  predicate AtNodeOf(paren: bool, no: nat, t: Alts, k: nat, s: nat) {
    || (paren && k == 0 && s == 0)
    || (k < Count(t) && s == |Head(paren, no)| + BranchAt(t, k))
    || (k == Count(t) && s == |Head(paren, no)| + AltsSize(t))
  }

  lemma FirstNodeOf(paren: bool, no: nat, t: Alts)
    ensures AtNodeOf(paren, no, t, 0, 0)
  {
    FirstBranch(t);
  }

  /**
   The linking loop at node `s`: linking its operand leads to `k'` linked
   operands, and the `next` pointer to node `s'`; after the last node `s'` is 0.
   */
  lemma TailStep(paren: bool, no: nat, t: Alts, k: nat, s: nat) returns (body: nat, k': nat, s': nat)
    requires AltsWellFormed(t) && (paren ==> no < NSUBEXP) && |Linked(paren, no, t, 0)| < SPAN
    requires AtNodeOf(paren, no, t, k, s)
    ensures OpLinks(Linked(paren, no, t, k), s, body, |Head(paren, no)| + AltsSize(t), Linked(paren, no, t, k'))
    ensures k' <= Count(t) && s + 3 <= |Linked(paren, no, t, k')| && s' <= |Linked(paren, no, t, 0)|
    ensures var y := Linked(paren, no, t, k');
            y[s] != BACK && NextOffset(y, s) == if s' == 0 then 0 else s' - s
    ensures if s' == 0 then k' == Count(t) else s < s' && AtNodeOf(paren, no, t, k', s')
  {
    hide OpLinks, Linked, NextOffset, Size, Tail, AltsSize, AltsWellFormed;
    body, k', s' := 0, k, 0;
    if paren && k == 0 && s == 0 {
      s' := 3;
      FirstBranch(t);
      OpenStep(no, t);
    } else if k == Count(t) {
      EnderStep(paren, no, t);
    } else {
      body, k', s' := s + 3 + Tail(Branch(t, k)), k + 1, s + 3 + Size(Branch(t, k));
      BranchEndAt(t, k);
      BranchLinks(paren, no, t, k);
      BranchNext(paren, no, t, k);
    }
  }

  lemma OpenStep(no: nat, t: Alts)
    requires no < NSUBEXP
    ensures var x := Linked(true, no, t, 0);
            OpLinks(x, 0, 0, 3 + AltsSize(t), x) && x[0] != BACK && NextOffset(x, 0) == 3
  {
    hide Node, NextOffset, AltsCode;
    var y, z := AltsCode(t, 0, 0, 0), Node(Ender(true, no), 0);
    FirstNode(GroupOp(OPEN, no), 3, y + z, 3);
    Assoc(Node(GroupOp(OPEN, no), 3), y, z);
  }

  lemma EnderStep(paren: bool, no: nat, t: Alts)
    requires paren ==> no < NSUBEXP
    ensures var x, s := Linked(paren, no, t, Count(t)), |Head(paren, no)| + AltsSize(t);
            OpLinks(x, s, 0, s, x) && x[s] != BACK && NextOffset(x, s) == 0
  {
    hide Node, NextOffset, AltsCode;
    LastNode(Head(paren, no) + AltsCode(t, 0, 0, Count(t)), Ender(paren, no), 0, 0);
  }

  lemma BranchNext(paren: bool, no: nat, t: Alts, k: nat)
    requires k < Count(t) && |Linked(paren, no, t, 0)| < SPAN
    ensures var x, s := Linked(paren, no, t, k + 1), |Head(paren, no)| + BranchAt(t, k);
            s + 3 <= |x| && x[s] == BRANCH && NextOffset(x, s) == 3 + Size(Branch(t, k))
  {
    hide Node, NextOffset, AltsCode, Head, Ender;
    NextInList(Head(paren, no), t, k, Node(Ender(paren, no), 0));
  }

  lemma NextInList(h: seq<Byte>, t: Alts, k: nat, z: seq<Byte>)
    requires k < Count(t) && AltsSize(t) < SPAN
    ensures var x, s := h + AltsCode(t, 0, 0, k + 1) + z, |h| + BranchAt(t, k);
            s + 3 <= |x| && x[s] == BRANCH && NextOffset(x, s) == 3 + Size(Branch(t, k))
  {
    hide NextOffset, AltsCode, At, Code, Size, BranchAt, Branch;
    AtMiddle(h, AltsCode(t, 0, 0, k + 1), z);
    NthBranch(h + AltsCode(t, 0, 0, k + 1) + z, |h|, t, 0, 0, k, k + 1);
  }

  lemma BranchLinks(paren: bool, no: nat, t: Alts, k: nat)
    requires AltsWellFormed(t) && k < Count(t) && |Linked(paren, no, t, 0)| < SPAN
    ensures var h := |Head(paren, no)|;
            var s := h + BranchAt(t, k);
            OpLinks(Linked(paren, no, t, k), s, s + 3 + Tail(Branch(t, k)), h + AltsSize(t),
                    Linked(paren, no, t, k + 1))
  {
    hide Node, NextOffset, AltsCode, Path, SetNext, Head, Ender, AltsWellFormed, Size, Tail, BranchAt, Branch, Count;
    BranchChain(Head(paren, no), t, k, Node(Ender(paren, no), 0));
    BranchPatch(Head(paren, no), t, k, Node(Ender(paren, no), 0));
  }

  lemma BranchChain(h: seq<Byte>, t: Alts, k: nat, z: seq<Byte>)
    requires AltsWellFormed(t) && k < Count(t) && AltsSize(t) < SPAN
    ensures var x, s := h + AltsCode(t, 0, 0, k) + z, |h| + BranchAt(t, k);
            && s + 3 <= |x| && x[s] == BRANCH
            && Chain(x, s + 3, s + 3 + Tail(Branch(t, k))) && x[s + 3 + Tail(Branch(t, k))] != BACK
  {
    hide NextOffset, AltsCode, At, Path, Code, AltsWellFormed, WellFormed, Size, Tail, AltsSize, BranchAt, Branch;
    var y := AltsCode(t, 0, 0, k);
    AtMiddle(h, y, z);
    NthBranch(h + y + z, |h|, t, 0, 0, k, k);
    BranchWellFormed(t, k);
    CodePath(h + y + z, |h| + BranchAt(t, k) + 3, Branch(t, k), DANGLING);
  }

  lemma BranchPatch(h: seq<Byte>, t: Alts, k: nat, z: seq<Byte>)
    requires k < Count(t)
    ensures var n := BranchAt(t, k) + 3 + Tail(Branch(t, k));
            SetNext(h + AltsCode(t, 0, 0, k) + z, |h| + n, AltsSize(t) - n) == h + AltsCode(t, 0, 0, k + 1) + z
  {
    hide AltsCode, SetNext, Size, Tail, AltsSize, BranchAt, Branch, Count;
    var y, n := AltsCode(t, 0, 0, k), BranchAt(t, k) + 3 + Tail(Branch(t, k));
    SetNextBranch(t, 0, 0, k);
    SetNextRight(h, y, n, AltsSize(t) - n);
    SetNextLeft(h + y, z, |h| + n, AltsSize(t) - n);
  }

  lemma {:induction false} BranchWellFormed(t: Alts, k: nat)
    requires AltsWellFormed(t) && k < Count(t)
    ensures WellFormed(Branch(t, k))
  {
    if t.More? && k < Count(t.init) {
      BranchWellFormed(t.init, k);
    }
  }

  lemma EmitsNothing(a: Store)
    requires Fits(a, 0)
    ensures Emits(a, a, [])
  {
  }

  /** The chain through a list of alternatives ends at its last BRANCH. */
  lemma AltsLinks(a: Store, paren: bool, no: nat, t: Alts, z: seq<Byte>)
    requires (paren ==> no < NSUBEXP) && Fits(a, |Head(paren, no)| + AltsSize(t) + |z|)
    ensures var h := Head(paren, no);
            a.code != DUMMY ==>
              Links(h + AltsCode(t, DANGLING, 0, 0) + z, 0, |h| + BranchAt(t, Count(t) - 1), |h| + AltsSize(t),
                    h + AltsCode(t, 0, 0, 0) + z)
  {
    hide AltsCode, NextOffset, SetNext, Path, Head, AltsSize, BranchAt, Count;
    if a.code != DUMMY {
      var h := Head(paren, no);
      AltsChain(paren, no, t, DANGLING, 0, z);
      AltsPatch(h, t, z);
    }
  }

  lemma AltsChain(paren: bool, no: nat, t: Alts, dBranch: int, c: nat, z: seq<Byte>)
    requires (paren ==> no < NSUBEXP) && AltsSize(t) + Link(0, dBranch) < SPAN
    ensures var h, n := Head(paren, no), BranchAt(t, Count(t) - 1);
            var x := h + AltsCode(t, dBranch, 0, c) + z;
            && Path(x, 0, |h| + n) && x[|h| + n] == BRANCH
            && NextOffset(x, |h| + n) == Link(AltsSize(t) - n, dBranch)
  {
    hide AltsCode, Node, NextOffset, Path, At;
    var h, y := Head(paren, no), AltsCode(t, dBranch, 0, c);
    var x := h + y + z;
    AtSelf(x);
    AtConcat(x, 0, h + y, z);
    AtConcat(x, 0, h, y);
    AltsPath(x, |h|, t, dBranch, 0, c);
    if paren {
      AtNode(x, 0, GroupOp(OPEN, no), 3);
      HeadPath(x, no, 3 + BranchAt(t, Count(t) - 1));
    }
  }

  lemma HeadPath(x: seq<Byte>, no: nat, n: nat)
    requires 3 <= n && n + 3 <= |x| && x[0] == GroupOp(OPEN, no) && NextOffset(x, 0) == 3 && Path(x, 3, n)
    requires x[0] != BACK
    ensures Path(x, 0, n)
  {
  }

  lemma AltsPatch(h: seq<Byte>, t: Alts, z: seq<Byte>)
    ensures var n := BranchAt(t, Count(t) - 1);
            SetNext(h + AltsCode(t, DANGLING, 0, 0) + z, |h| + n, AltsSize(t) - n) == h + AltsCode(t, 0, 0, 0) + z
  {
    hide AltsCode, SetNext, AltsSize, BranchAt, Count;
    var y, n := AltsCode(t, DANGLING, 0, 0), BranchAt(t, Count(t) - 1);
    SetNextAlts(t, 0, 0, 0);
    SetNextRight(h, y, n, AltsSize(t) - n);
    SetNextLeft(h + y, z, |h| + n, AltsSize(t) - n);
  }

  function RegRoom(r: Outcome<Alts>, paren: bool): nat {
    match r
    case Ok(_, _, t) => AltsSize(t) + if paren then 6 else 3
    case Fail(k) => k
    case Hang => 0
  }

  lemma AtomRoom(pat: CStr, p: nat, npar: Pos)
    requires p < |pat| && !ParsePiece(pat, p, npar, true).Hang?
    ensures Room(ParseAtom(pat, p, npar, true)) <= Room(ParsePiece(pat, p, npar, true))
  {
    hide ParseAtom;
    var r := ParseAtom(pat, p, npar, true);
    if r.Ok? {
      var op := Peek(pat, r.pos);
      if IsMult(op) && (HasWidth(r.tree) || op == Char('?')) { RepeatSize(op, r.tree); }
    }
  }

  lemma PieceRoom(pat: CStr, p: nat, npar: Pos, acc: Regex)
    requires p <= |pat| && WellFormed(acc) && !EndsBranch(Peek(pat, p)) && p < |pat|
    requires !ParsePieces(pat, p, npar, acc, true).Hang?
    ensures PrefixSize(acc) + Room(ParsePiece(pat, p, npar, true)) <= Room(ParsePieces(pat, p, npar, acc, true))
  {
    hide ParsePiece, WellFormed;
  }

  lemma FirstRound(pat: CStr, p: nat, npar: Pos)
    requires p <= |pat| && !ParseAlts(pat, p, npar, true).Hang?
    ensures var b, r := ParsePieces(pat, p, npar, Empty, true), ParseAlts(pat, p, npar, true);
            && !b.Hang? && 3 + Room(b) <= AltsRoom(r)
            && if b.Fail? then r.Fail?
               else
                 && AltsWellFormed(One(b.tree)) && ParseMoreAlts(pat, b.pos, b.npar, One(b.tree), true) == r
                 && AltsHaveWidth(One(b.tree)) == HasWidth(b.tree) && AltsSpStart(One(b.tree)) == SpStart(b.tree)
  {
    hide ParsePieces, ParseMoreAlts, Size, HasWidth, SpStart;
  }

  lemma NoMoreAlts(pat: CStr, p: nat, npar: Pos, acc: Alts)
    requires p <= |pat| && AltsWellFormed(acc) && !IsBar(Peek(pat, p))
    ensures ParseMoreAlts(pat, p, npar, acc, true) == Ok(p, npar, acc)
  {
  }

  /** One round of the loop over the alternatives. */
  lemma AltsRound(pat: CStr, p: nat, npar: Pos, acc: Alts)
    requires p < |pat| && AltsWellFormed(acc) && IsBar(Peek(pat, p))
    requires !ParseMoreAlts(pat, p, npar, acc, true).Hang?
    ensures var b, r := ParsePieces(pat, p + 1, npar, Empty, true), ParseMoreAlts(pat, p, npar, acc, true);
            && !b.Hang? && AltsSize(acc) + 3 + Room(b) <= AltsRoom(r)
            && if b.Fail? then r.Fail?
               else
                 var t := More(acc, b.tree);
                 && AltsWellFormed(t) && ParseMoreAlts(pat, b.pos, b.npar, t, true) == r
                 && AltsHaveWidth(t) == (AltsHaveWidth(acc) && HasWidth(b.tree))
                 && AltsSpStart(t) == (AltsSpStart(acc) || SpStart(b.tree))
  {
    hide ParsePieces, Size, HasWidth, SpStart;
  }

  lemma RepeatSize(op: Byte, e: Regex)
    requires WellFormed(e) && IsPiece(e) && IsMult(op) && (HasWidth(e) || op == Char('?'))
    ensures Size(Repeat(op, e)) == Size(e) + if op == Char('?') then 9 else if Simple(e) then 3 else 12
  {
  }

  lemma EmptyFlags()
    ensures !HasWidth(Empty) && !SpStart(Empty)
  {
  }

  lemma AppendFlags(acc: Regex, e: Regex)
    requires WellFormed(acc) && WellFormed(e) && IsPiece(e)
    ensures HasWidth(Append(acc, e)) == if acc.Empty? then HasWidth(e) else HasWidth(acc) || HasWidth(e)
    ensures SpStart(Append(acc, e)) == if acc.Empty? then SpStart(e) else SpStart(acc)
  {
    hide WellFormed;
  }

  lemma RepeatFlags(op: Byte, e: Regex)
    requires WellFormed(e) && IsPiece(e) && IsMult(op) && (HasWidth(e) || op == Char('?'))
    ensures HasWidth(Repeat(op, e)) == (op == Char('+')) && SpStart(Repeat(op, e)) == (op != Char('+'))
  {
  }

  class Compiler {
    const pat: CStr
    const program: array<Byte>
    var parse: nat
    var npar: Pos
    var code: int
    var size: Word

    constructor (pat: CStr, program: array<Byte>, code: int)
      ensures this.pat == pat && this.program == program && this.code == code
      ensures parse == 0 && npar == 1 && size == 0
    {
      this.pat, this.program, this.code := pat, program, code;
      parse, npar, size := 0, 1, 0;
    }

    ghost function Now(): Store
      reads this, program
    {
      Store(code, size, program[..])
    }

    // ----- emitting, relocating and patching -----

    /** Emit a byte. */
    method Regc(b: Byte)
      requires code == DUMMY || 0 <= code < program.Length
      modifies this`code, this`size, program
      ensures Now() == Stored(old(Now()), b)
    {
      if code != DUMMY {
        program[code] := b;
        code := code + 1;
      } else {
        size := (size + 1) % SPAN;
      }
    }

    /** Emit a node with a null `next` pointer; its address is returned. */
    method RegNode(op: Byte) returns (ret: int)
      requires Fits(Now(), 3)
      modifies this`code, this`size, program
      ensures ret == old(code) && Emits(old(Now()), Now(), Node(op, 0))
    {
      ret := code;
      if ret == DUMMY {
        size := (size + 3) % SPAN;
        return;
      }
      PutNode(code, op);
      code := code + 3;
    }

    /** Store a node with a null `next` pointer at address `n`. */
    method PutNode(n: nat, op: Byte)
      requires n + 3 <= program.Length
      modifies program
      ensures At(program[..], n, Node(op, 0)) && SamePrefix(old(program[..]), program[..], n)
      ensures forall i :: n + 3 <= i < program.Length ==> program[i] == old(program[i])
    {
      program[n] := op;
      program[n + 1] := 0;
      program[n + 2] := 0;
    }

    /** Move the bytes `x` at address `opnd` up by one node, the last of them first. */
    method MoveUp(opnd: nat, end: nat, ghost x: seq<Byte>)
      requires At(program[..], opnd, x) && end == opnd + |x| && end + 3 <= program.Length
      modifies program
      ensures At(program[..], opnd + 3, x) && SamePrefix(old(program[..]), program[..], opnd)
    {
      var src, dst := end, end + 3;
      while src > opnd
        invariant opnd <= src <= end && dst == src + 3
        invariant forall i :: 0 <= i < src ==> program[i] == old(program[i])
        invariant forall i :: src - opnd <= i < |x| ==> program[opnd + 3 + i] == x[i]
      {
        dst, src := dst - 1, src - 1;
        program[dst] := program[src];
      }
    }

    /** Insert a node in front of the operand emitted since address `opnd`, which is moved up. */
    method RegInsert(op: Byte, opnd: int, ghost a: Store, ghost x: seq<Byte>)
      requires opnd == a.code && Emits(a, Now(), x) && Fits(Now(), 3)
      modifies this`code, this`size, program
      ensures Emits(a, Now(), Node(op, 0) + x)
    {
      hide Node;
      ghost var b := Now();
      if code == DUMMY {
        size := (size + 3) % SPAN;
        return;
      }
      hide Emits;
      InsertedRoom(a, b, x);
      MoveUp(opnd, code, x);
      code := code + 3;
      PutNode(opnd, op);
      EmitsInserted(a, b, Now(), op, x);
    }

    /** The node after `p`, `NULL` if there is none. */
    function RegNext(p: int): int
      requires p != DUMMY ==> 0 <= p && p + 3 <= program.Length
      reads program
    {
      if p == DUMMY then NULL else Succ(program[..], p)
    }

    /**
     Set the `next` pointer at the end of the chain from `p`.  The code emitted
     since `a` is `x`; in it `p` stands at `s` and `val` at `v`, and linking the
     end `t` of the chain turns it into `y`.
     */
    method RegTail(p: int, val: int,
                   ghost a: Store, ghost x: seq<Byte>, ghost s: nat, ghost t: nat, ghost v: nat, ghost y: seq<Byte>)
      requires Emits(a, Now(), x) && p == Addr(a, s) && val == Addr(a, v)
      requires |x| == |y| && (a.code != DUMMY ==> Links(x, s, t, v, y))
      modifies program
      ensures Emits(a, Now(), y)
    {
      hide Emits, NextOffset, SetNext;
      InsertedRoom(a, Now(), x);
      if p == DUMMY {
        Counted(a, Now(), x, y);
        return;
      }
      EmitsPatched(a, Now(), x, t, Distance(x, t, v));
      ghost var end := a.code + t;
      PathLift(program[..], a.code, x, s, t);
      OffsetLift(program[..], a.code, x, t);
      var scan := ChainEnd(p, end);
      var offset := if program[scan] == BACK then scan - val else val - scan;
      SetOffset(scan, offset);
    }

    /** The last node of the chain from `p`. */
    method ChainEnd(p: int, ghost end: nat) returns (scan: int)
      requires 0 < p <= end && Path(program[..], p, end) && NextOffset(program[..], end) == 0
      ensures scan == end
    {
      hide NextOffset;
      scan := p;
      while true
        invariant 0 < scan <= end && Path(program[..], scan, end)
        decreases end - scan
      {
        var temp := RegNext(scan);
        if temp == NULL {
          break;
        }
        scan := temp;
      }
    }

    /** Store the offset in the node at `n`, high byte first. */
    method SetOffset(n: nat, offset: nat)
      requires n + 3 <= program.Length
      modifies program
      ensures program[..] == SetNext(old(program[..]), n, offset)
    {
      program[n + 1] := offset / 256 % 256;
      program[n + 2] := offset % 256;
    }

    /** RegTail on the operand of a BRANCH; nothing for other nodes. */
    method RegOpTail(p: int, val: int,
                     ghost a: Store, ghost x: seq<Byte>, ghost s: nat, ghost t: nat, ghost v: nat, ghost y: seq<Byte>)
      requires Emits(a, Now(), x) && p == Addr(a, s) && val == Addr(a, v)
      requires |x| == |y| && (a.code != DUMMY ==> OpLinks(x, s, t, v, y))
      modifies program
      ensures Emits(a, Now(), y)
    {
      hide Emits;
      InsertedRoom(a, Now(), x);
      if p == DUMMY {
        Counted(a, Now(), x, y);
      }
      if p == NULL || p == DUMMY || program[p] != BRANCH {
        return;
      }
      RegTail(p + 3, val, a, x, s + 3, t, v, y);
    }

    // ----- atoms -----

    /** A string of ordinary characters from the current one on. */
    method RegText() returns (ret: int, flags: Flags)
      requires parse < |pat| && Fits(Now(), Room(ParseText(pat, parse, npar, true)))
      modifies this, program
      ensures var r := ParseText(pat, old(parse), old(npar), true);
              && ret == old(code) && parse == r.pos && npar == r.npar
              && Emits(old(Now()), Now(), Code(r.tree, DANGLING))
              && flags.hasWidth && !flags.spStart
              && (IsMult(Peek(pat, parse)) ==> flags.simple && Simple(r.tree))
    {
      hide Emits, Fits, Node, ScanText, Code;
      ghost var st := Now();
      ghost var goal := ScanText(pat, parse, -1, []);
      FitsLess(st, 4 + |goal.1|);
      ret := RegNode(EXACTLY);
      var prev := TextChars(st);
      EmitChar(0, st, Node(EXACTLY, 0), goal.1);
      CodeAtom(Chars(Exactly, goal.1), DANGLING);
      flags := Flags(true, prev < 0, false);
    }

    /** The characters of a string; `prev` is where the last one looked at starts if it is not the first. */
    method TextChars(ghost st: Store) returns (prev: int)
      requires parse < |pat| && Fits(st, 3 + |ScanText(pat, parse, -1, []).1|)
      requires Emits(st, Now(), Node(EXACTLY, 0))
      modifies this, program
      ensures var (q, cs) := ScanText(pat, old(parse), -1, []);
              parse == q && npar == old(npar) && Emits(st, Now(), Node(EXACTLY, 0) + cs)
      ensures IsMult(Peek(pat, parse)) ==> prev < 0
    {
      hide Emits, Fits, Node;
      ghost var goal := ScanText(pat, parse, -1, []);
      FitsLess(st, 3 + |goal.1|);
      prev := -1;
      ghost var acc: seq<Byte> := [];
      assert Node(EXACTLY, 0) + acc == Node(EXACTLY, 0);
      while true
        invariant parse < |pat| && prev <= parse && (prev < 0 <==> acc == []) && npar == old(npar)
        invariant prev >= 0 ==> !IsMult(Peek(pat, prev))
        invariant ScanText(pat, parse, prev, acc) == goal
        invariant Emits(st, Now(), Node(EXACTLY, 0) + acc)
        decreases |pat| - parse
      {
        var ch := pat[parse];
        parse := parse + 1;
        var c := Peek(pat, parse);
        if IsMult(c) && prev >= 0 {
          parse := prev;
          break;
        }
        EmitChar(ch, st, Node(EXACTLY, 0), acc);
        acc := acc + [ch];
        if IsMagic(c) || IsMult(c) {
          break;
        } else if c == Char('\\') {
          if EndsQuote(Peek(pat, parse + 1)) {
            break;
          }
          prev := parse;
          parse := parse + 1;
        } else {
          prev := parse;
        }
      }
    }

    /** Emit one more byte of an operand string. */
    method EmitChar(b: Byte, ghost a: Store, ghost w: seq<Byte>, ghost x: seq<Byte>)
      requires Emits(a, Now(), w + x) && Fits(a, |w| + |x| + 1)
      modifies this`code, this`size, program
      ensures Emits(a, Now(), w + (x + [b]))
    {
      hide Emits;
      ghost var m := Now();
      FitsMore(a, m, w + x, 1);
      Regc(b);
      StoredEmits(m, b);
      EmitsConcat(a, m, Now(), w + x, [b]);
      assert (w + x) + [b] == w + (x + [b]);
    }

    /** A character class; the current character follows its `[`. */
    method RegClass() returns (ret: int, flags: Flags)
      requires 0 < parse <= |pat| && !ParseClass(pat, parse, npar).Hang?
      requires Fits(Now(), Room(ParseClass(pat, parse, npar)))
      modifies this, program
      ensures var r := ParseClass(pat, old(parse), old(npar));
              if r.Fail? then ret == NULL
              else
                && ret == old(code) && parse == r.pos && npar == r.npar
                && Emits(old(Now()), Now(), Code(r.tree, DANGLING))
                && flags == Flags(true, true, false) && Simple(r.tree)
    {
      hide Emits, Fits, Node, ScanClass;
      ghost var st := Now();
      ghost var goal := ParseClass(pat, parse, npar);
      ghost var kind := if Peek(pat, parse) == Char('^') then AnyBut else AnyOf;
      ghost var head := Node(KindOp(kind), 0);
      ghost var acc: seq<Byte> := [];
      FitsLess(st, Room(goal));
      if Peek(pat, parse) == Char('^') {
        ret := RegNode(ANYBUT);
        parse := parse + 1;
      } else {
        ret := RegNode(ANYOF);
      }
      assert head + acc == head;
      var c := Peek(pat, parse);
      if c == Char(']') || c == Char('-') {
        EmitChar(c, st, head, acc);
        acc := acc + [c];
        assert acc == [c];
        parse := parse + 1;
      }
      var ok := ClassChars(kind, st, head, acc);
      flags := Flags(true, true, false);
      if !ok {
        ret := NULL;
      }
    }

    /** The characters of a class and its `]`. */
    method ClassChars(ghost kind: Kind, ghost st: Store, ghost head: seq<Byte>, ghost acc0: seq<Byte>)
      returns (ok: bool)
      requires 0 < parse <= |pat| && 0 !in acc0 && kind != Exactly && head == Node(KindOp(kind), 0)
      requires acc0 == [] ==> Peek(pat, parse) != Char(']') && Peek(pat, parse) != Char('-')
      requires var r := ScanClass(pat, parse, npar, kind, acc0); !r.Hang? && Fits(st, Room(r))
      requires Emits(st, Now(), head + acc0)
      modifies this, program
      ensures var r := ScanClass(pat, old(parse), old(npar), kind, acc0);
              && ok == r.Ok?
              && (ok ==> parse == r.pos && npar == r.npar && Emits(st, Now(), Code(r.tree, DANGLING)))
    {
      hide Emits, Fits, Node;
      ghost var goal := ScanClass(pat, parse, npar, kind, acc0);
      FitsLess(st, Room(goal));
      ghost var acc := acc0;
      while Peek(pat, parse) != 0 && Peek(pat, parse) != Char(']')
        invariant 0 < parse <= |pat| && 0 !in acc && npar == old(npar)
        invariant acc == [] ==> Peek(pat, parse) != Char(']') && Peek(pat, parse) != Char('-')
        invariant ScanClass(pat, parse, npar, kind, acc) == goal
        invariant Emits(st, Now(), head + acc)
        decreases |pat| - parse
      {
        if Peek(pat, parse) == Char('-') {
          ok, acc := ClassDash(kind, st, head, acc);
          if !ok {
            return;
          }
        } else {
          EmitChar(pat[parse], st, head, acc);
          acc := acc + [pat[parse]];
          parse := parse + 1;
        }
      }
      EmitChar(0, st, head, acc);
      if Peek(pat, parse) != Char(']') {
        return false;
      }
      parse := parse + 1;
      ok := true;
    }

    /** A `-` in a class: itself before the `]`, the rest of a range elsewhere. */
    method ClassDash(ghost kind: Kind, ghost st: Store, ghost head: seq<Byte>, ghost acc: seq<Byte>)
      returns (ok: bool, ghost now: seq<Byte>)
      requires 0 < parse < |pat| && pat[parse] == Char('-') && acc != [] && 0 !in acc && kind != Exactly && |head| == 3
      requires var r := ScanClass(pat, parse, npar, kind, acc); !r.Hang? && Fits(st, Room(r))
      requires Emits(st, Now(), head + acc)
      modifies this, program
      ensures var r := ScanClass(pat, old(parse), old(npar), kind, acc);
              if !ok then r.Fail?
              else
                && old(parse) < parse <= |pat| && npar == old(npar) && 0 !in now && now != []
                && ScanClass(pat, parse, npar, kind, now) == r && Emits(st, Now(), head + now)
    {
      hide Emits, Fits, Range;
      FitsLess(st, Room(ScanClass(pat, parse, npar, kind, acc)));
      ok, now := true, acc;
      parse := parse + 1;
      var e := Peek(pat, parse);
      if e == Char(']') || e == 0 {
        EmitChar(Char('-'), st, head, acc);
        now := acc + [Char('-')];
      } else {
        var b := pat[parse - 2];
        if b > e {
          return false, acc;
        }
        now := EmitRange(b + 1, e, st, head, acc);
        parse := parse + 1;
      }
    }

    /** Emit the characters `lo..hi` of a range. */
    method EmitRange(lo: nat, hi: nat, ghost a: Store, ghost w: seq<Byte>, ghost x: seq<Byte>)
      returns (ghost y: seq<Byte>)
      requires 0 < lo <= hi + 1 < 256
      requires Emits(a, Now(), w + x) && Fits(a, |w| + |x| + |Range(lo, hi)|)
      modifies this`code, this`size, program
      ensures y == x + Range(lo, hi) && Emits(a, Now(), w + y)
    {
      hide Emits, Fits;
      FitsLess(a, |w| + |x| + |Range(lo, hi)|);
      y := x;
      var c := lo;
      assert x + Range(lo, hi) == y + Range(c, hi);
      while c <= hi
        invariant lo <= c <= hi + 1
        invariant y + Range(c, hi) == x + Range(lo, hi)
        invariant Emits(a, Now(), w + y)
      {
        assert y + Range(c, hi) == (y + [c]) + Range(c + 1, hi);
        EmitChar(c, a, w, y);
        y := y + [c];
        c := c + 1;
      }
      assert y + Range(c, hi) == y;
    }

    // ----- the recursive descent -----

    /** A routine entered with store `a` has returned: its construct is consumed and its code emitted. */
    ghost predicate Done(r: Outcome<Regex>, ret: int, flags: Flags, a: Store)
      reads this, program
    {
      if !r.Ok? then ret == NULL
      else
        && ret == a.code && parse == r.pos && npar == r.npar
        && Emits(a, Now(), Code(r.tree, DANGLING))
        && flags.hasWidth == HasWidth(r.tree)
        && flags.spStart == SpStart(r.tree)
        && (IsMult(Peek(pat, parse)) ==> flags.simple == Simple(r.tree))
    }

    /** The lowest level. */
    method RegAtom() returns (ret: int, flags: Flags)
      requires parse < |pat| && !ParseAtom(pat, parse, npar, true).Hang?
      requires Fits(Now(), Room(ParseAtom(pat, parse, npar, true)))
      modifies this, program
      ensures Done(ParseAtom(pat, old(parse), old(npar), true), ret, flags, old(Now()))
      decreases |pat| - parse, 1
    {
      hide Emits, Fits, Node, ParseClass, ParseReg, ParseText;
      FitsLess(Now(), Room(ParseAtom(pat, parse, npar, true)));
      flags := Flags(false, false, false);
      var c := pat[parse];
      parse := parse + 1;
      if c == Char('^') {
        ret := RegNode(BOL);
      } else if c == Char('$') {
        ret := RegNode(EOL);
      } else if c == Char('.') {
        ret := RegNode(ANY);
        flags := Flags(true, true, false);
      } else if c == Char('[') {
        ret, flags := RegClass();
      } else if c == Char('(') {
        ret, flags := Reg(true);
      } else if EndsBranch(c) || IsMult(c) {
        ret := NULL;
      } else if c == Char('\\') {
        var q := Peek(pat, parse);
        parse := parse + 1;
        if q == 0 {
          ret := NULL;
        } else if q == Char('<') {
          ret := RegNode(WORDA);
        } else if q == Char('>') {
          ret := RegNode(WORDZ);
        } else {
          parse := parse - 1;
          ret, flags := RegText();
        }
      } else {
        parse := parse - 1;
        ret, flags := RegText();
      }
    }

    /** Something followed by possible `*`, `+` or `?`. */
    method RegPiece() returns (ret: int, flags: Flags)
      requires parse < |pat| && !ParsePiece(pat, parse, npar, true).Hang?
      requires Fits(Now(), Room(ParsePiece(pat, parse, npar, true)))
      modifies this, program
      ensures Done(ParsePiece(pat, old(parse), old(npar), true), ret, flags, old(Now()))
      decreases |pat| - parse, 2
    {
      hide Emits, Fits, Code, ParseAtom, Size, WellFormed, HasWidth, SpStart, Simple;
      ghost var st := Now();
      ghost var r := ParseAtom(pat, parse, npar, true);
      FitsLess(st, Room(ParsePiece(pat, parse, npar, true)));
      AtomRoom(pat, parse, npar);
      var inner;
      ret, inner := RegAtom();
      if ret == NULL {
        return NULL, inner;
      }
      var op := Peek(pat, parse);
      if !IsMult(op) {
        return ret, inner;
      }
      if !inner.hasWidth && op != Char('?') {
        return NULL, inner;
      }
      flags := if op != Char('+') then Flags(false, false, true) else Flags(true, false, false);
      ghost var e := r.tree;
      RepeatFlags(op, e);
      EmitRepeat(op, inner.simple, ret, st, e);
      parse := parse + 1;
      if IsMult(Peek(pat, parse)) {
        return NULL, flags;
      }
    }

    /** Turn the code of an atom into that of its repetition. */
    method EmitRepeat(op: Byte, simple: bool, ret: int, ghost st: Store, ghost e: Regex)
      requires WellFormed(e) && IsPiece(e) && IsMult(op) && (HasWidth(e) || op == Char('?')) && simple == Simple(e)
      requires ret == st.code && Emits(st, Now(), Code(e, DANGLING)) && Fits(st, Size(Repeat(op, e)))
      modifies this`code, this`size, program
      ensures Emits(st, Now(), Code(Repeat(op, e), DANGLING))
    {
      hide Emits, Fits, Code, WellFormed, HasWidth, IsPiece;
      RepeatSize(op, e);
      FitsLess(st, Size(Repeat(op, e)));
      FitsMore(st, Now(), Code(e, DANGLING), 3);
      CodeStar(e, DANGLING);
      CodePlus(e, DANGLING);
      CodeOpt(e, DANGLING);
      if op == Char('*') && simple {
        RegInsert(STAR, ret, st, Code(e, DANGLING));
      } else if op == Char('*') {
        EmitStar(ret, st, e);
      } else if op == Char('+') && simple {
        RegInsert(PLUS, ret, st, Code(e, DANGLING));
      } else if op == Char('+') {
        EmitPlus(ret, st, e);
      } else {
        EmitOpt(ret, st, e);
      }
    }

    /** Emit one more node of the code emitted since `a`. */
    method AppendNode(op: Byte, ghost a: Store, ghost x: seq<Byte>) returns (ret: int)
      requires Emits(a, Now(), x) && Fits(a, |x| + 3)
      modifies this`code, this`size, program
      ensures ret == Addr(a, |x|) && Emits(a, Now(), x + Node(op, 0))
    {
      hide Emits, Fits;
      ghost var m := Now();
      FitsMore(a, m, x, 3);
      InsertedRoom(a, m, x);
      ret := RegNode(op);
      EmitsConcat(a, m, Now(), x, Node(op, 0));
    }

    /** A loop that may be left at once: a choice between the operand, with a jump back to the choice, and nothing. */
    method EmitStar(ret: int, ghost a: Store, ghost e: Regex)
      requires WellFormed(e) && ret == a.code && Emits(a, Now(), Code(e, DANGLING)) && Fits(a, Size(e) + 12)
      modifies this`code, this`size, program
      ensures Emits(a, Now(), StarCode(Code(e, 0), 0))
    {
      hide Emits, Fits, Code, Links, OpLinks, StarCode, Size, Tail, WellFormed, Node;
      FitsLess(a, Size(e) + 12);
      FitsMore(a, Now(), Code(e, DANGLING), 3);
      ghost var n, y := Size(e), Code(e, 0);
      RegInsert(BRANCH, ret, a, Code(e, DANGLING));
      var back := AppendNode(BACK, a, Node(BRANCH, 0) + Code(e, DANGLING));
      LoopBodyLinks(a, e);
      RegOpTail(ret, back, a, LoopCode(Code(e, DANGLING), 0), 0, 3 + Tail(e), 3 + n, LoopCode(y, 0));
      LoopBackLinks(a, e);
      RegOpTail(ret, ret, a, LoopCode(y, 0), 0, 3 + n, 0, LoopCode(y, n + 3));
      var or := AppendNode(BRANCH, a, LoopCode(y, n + 3));
      ChoiceLinks(a, y);
      RegTail(ret, or, a, ChoiceCode(y, 0), 0, 0, n + 6, ChoiceCode(y, n + 6));
      var end := AppendNode(NOTHING, a, ChoiceCode(y, n + 6));
      StarLinks(a, y);
      RegTail(ret, end, a, ChoiceCode(y, n + 6) + Node(NOTHING, 0), 0, n + 6, n + 9, StarCode(y, 0));
    }

    /** The operand once, followed by a choice between a jump back to it and nothing. */
    method EmitPlus(ret: int, ghost a: Store, ghost e: Regex)
      requires WellFormed(e) && ret == a.code && Emits(a, Now(), Code(e, DANGLING)) && Fits(a, Size(e) + 12)
      modifies this`code, this`size, program
      ensures Emits(a, Now(), PlusCode(Code(e, 0), 0))
    {
      hide Emits, Fits, Code, Links, PlusCode, Size, Tail, WellFormed, Node;
      FitsLess(a, Size(e) + 12);
      ghost var n, x, y := Size(e), Code(e, DANGLING), Code(e, 0);
      var next := AppendNode(BRANCH, a, x);
      PlusBodyLinks(a, e);
      RegTail(ret, next, a, x + Node(BRANCH, 0), 0, Tail(e), n, y + Node(BRANCH, 0));
      var back := AppendNode(BACK, a, y + Node(BRANCH, 0));
      PlusBackLinks(a, y);
      RegTail(back, ret, a, y + Node(BRANCH, 0) + Node(BACK, 0), n + 3, n + 3, 0,
              y + Node(BRANCH, 0) + Node(BACK, n + 3));
      var or := AppendNode(BRANCH, a, y + Node(BRANCH, 0) + Node(BACK, n + 3));
      AgainLinks(a, y);
      RegTail(next, or, a, AgainCode(y, 0), n, n, n + 6, AgainCode(y, 6));
      var end := AppendNode(NOTHING, a, AgainCode(y, 6));
      PlusLinks(a, e);
      RegTail(ret, end, a, AgainCode(y, 6) + Node(NOTHING, 0), 0, n + 6, n + 9, PlusCode(y, 0));
    }

    /** An option: a choice between the operand and nothing. */
    method EmitOpt(ret: int, ghost a: Store, ghost e: Regex)
      requires WellFormed(e) && ret == a.code && Emits(a, Now(), Code(e, DANGLING)) && Fits(a, Size(e) + 9)
      modifies this`code, this`size, program
      ensures Emits(a, Now(), OptCode(Code(e, 3), 0))
    {
      hide Emits, Fits, Code, Links, OpLinks, OptCode, Size, Tail, WellFormed, Node;
      FitsLess(a, Size(e) + 9);
      FitsMore(a, Now(), Code(e, DANGLING), 3);
      ghost var n, x := Size(e), Code(e, DANGLING);
      RegInsert(BRANCH, ret, a, x);
      var or := AppendNode(BRANCH, a, Node(BRANCH, 0) + x);
      EitherLinks(a, x);
      RegTail(ret, or, a, EitherCode(x, 0, 0), 0, 0, n + 3, EitherCode(x, n + 3, 0));
      var next := AppendNode(NOTHING, a, EitherCode(x, n + 3, 0));
      OrLinks(a, x);
      RegTail(ret, next, a, EitherCode(x, n + 3, 0) + Node(NOTHING, 0), 0, n + 3, n + 6,
              EitherCode(x, n + 3, 3) + Node(NOTHING, 0));
      OptLinks(a, e);
      RegOpTail(ret, next, a, EitherCode(x, n + 3, 3) + Node(NOTHING, 0), 0, 3 + Tail(e), n + 6,
                OptCode(Code(e, 3), 0));
    }

    /** One alternative: the concatenation of its pieces. */
    method RegBranch() returns (ret: int, flags: Flags)
      requires parse <= |pat| && !ParsePieces(pat, parse, npar, Empty, true).Hang?
      requires Fits(Now(), 3 + Room(ParsePieces(pat, parse, npar, Empty, true)))
      modifies this, program
      ensures BranchDone(ParsePieces(pat, old(parse), old(npar), Empty, true), ret, flags, old(Now()))
      decreases |pat| - parse, 4
    {
      hide Emits, Fits, ParsePiece, Code, Node, HasWidth, SpStart, Size;
      ghost var st := Now();
      ghost var goal := ParsePieces(pat, parse, npar, Empty, true);
      FitsLess(st, 3 + Room(goal));
      flags := Flags(false, false, false);
      ret := RegNode(BRANCH);
      var chain := NULL;
      ghost var acc := Empty;
      EmptyFlags();
      assert Node(BRANCH, 0) + [] == Node(BRANCH, 0);
      while !EndsBranch(Peek(pat, parse))
        invariant old(parse) <= parse <= |pat| && WellFormed(acc)
        invariant ParsePieces(pat, parse, npar, acc, true) == goal
        invariant chain == (if acc.Empty? then NULL else Addr(st, 3 + LastAt(acc)))
        invariant Emits(st, Now(), Node(BRANCH, 0) + PiecesCode(acc))
        invariant flags == Flags(HasWidth(acc), false, SpStart(acc))
        decreases |pat| - parse
      {
        ghost var e := ParsePiece(pat, parse, npar, true);
        PieceRoom(pat, parse, npar, acc);
        var latest, inner := NextPiece(chain, st, acc);
        if latest == NULL {
          return NULL, inner;
        }
        if chain == NULL {
          flags := Flags(inner.hasWidth, false, inner.spStart);
        } else {
          flags := Flags(flags.hasWidth || inner.hasWidth, false, flags.spStart);
        }
        AppendFlags(acc, e.tree);
        chain := latest;
        acc := Append(acc, e.tree);
      }
      if chain == NULL {
        var _ := AppendNode(NOTHING, st, Node(BRANCH, 0) + []);
        CodeAtom(Empty, DANGLING);
        assert Node(BRANCH, 0) + [] + Node(NOTHING, 0) == Node(BRANCH, 0) + Node(NOTHING, 0);
      }
    }

    /** One more piece of an alternative, linked to the piece before it. */
    method NextPiece(chain: int, ghost st: Store, ghost acc: Regex) returns (latest: int, flags: Flags)
      requires parse < |pat| && !ParsePiece(pat, parse, npar, true).Hang? && WellFormed(acc)
      requires Fits(st, 3 + PrefixSize(acc) + Room(ParsePiece(pat, parse, npar, true)))
      requires chain == if acc.Empty? then NULL else Addr(st, 3 + LastAt(acc))
      requires Emits(st, Now(), Node(BRANCH, 0) + PiecesCode(acc))
      modifies this, program
      ensures var r := ParsePiece(pat, old(parse), old(npar), true);
              if !r.Ok? then latest == NULL
              else
                var e := Append(acc, r.tree);
                && parse == r.pos && npar == r.npar
                && latest == Addr(st, 3 + LastAt(e)) && latest != NULL
                && Emits(st, Now(), Node(BRANCH, 0) + PiecesCode(e))
                && flags.hasWidth == HasWidth(r.tree) && flags.spStart == SpStart(r.tree)
      decreases |pat| - parse, 3
    {
      hide Emits, Fits, Links, ParsePiece, Code, Node, WellFormed, HasWidth, SpStart, Simple, Size, Tail;
      ghost var before := Now();
      ghost var r := ParsePiece(pat, parse, npar, true);
      FitsLess(st, 3 + PrefixSize(acc) + Room(r));
      FitsMore(st, before, Node(BRANCH, 0) + PiecesCode(acc), Room(r));
      FitsLess(before, Room(r));
      InsertedRoom(st, before, Node(BRANCH, 0) + PiecesCode(acc));
      latest, flags := RegPiece();
      if latest == NULL {
        return;
      }
      Appended(st, before, Now(), acc, r.tree);
      if chain != NULL {
        PieceLinks(st, acc, r.tree);
        CodeCat(acc, r.tree, DANGLING);
        RegTail(chain, latest, st, Node(BRANCH, 0) + PiecesCode(acc) + Code(r.tree, DANGLING),
                3 + LastAt(acc), 3 + Tail(acc), 3 + Size(acc), Node(BRANCH, 0) + Code(Cat(acc, r.tree), DANGLING));
      }
    }

    ghost predicate BranchDone(r: Outcome<Regex>, ret: int, flags: Flags, a: Store)
      reads this, program
    {
      if !r.Ok? then ret == NULL
      else
        && ret == a.code && parse == r.pos && npar == r.npar
        && Emits(a, Now(), Branched(0, Code(r.tree, DANGLING)))
        && flags == Flags(HasWidth(r.tree), false, SpStart(r.tree))
    }

    /** The main body of a pattern or a parenthesized thing; the opening parenthesis is absorbed. */
    method Reg(paren: bool) returns (ret: int, flags: Flags)
      requires parse <= |pat| && !ParseReg(pat, parse, npar, paren, true).Hang?
      requires Fits(Now(), RegRoom(ParseReg(pat, parse, npar, paren, true), paren))
      modifies this, program
      ensures RegDone(paren, old(npar), ParseReg(pat, old(parse), old(npar), paren, true), ret, flags, old(Now()))
      decreases |pat| - parse, 7
    {
      hide Emits, Fits, ParseAlts, RegCode, AltsCode, AltsHaveWidth, AltsSpStart, AltsSize, AltsWellFormed, Node;
      ghost var st, no := Now(), npar;
      ghost var r := ParseAlts(pat, parse, if paren then npar + 1 else npar, true);
      FitsLess(st, RegRoom(ParseReg(pat, parse, npar, paren, true), paren));
      var parno: nat := 0;
      ghost var h: seq<Byte> := [];
      if paren {
        if npar >= NSUBEXP {
          return NULL, Flags(false, false, false);
        }
        parno := npar;
        npar := npar + 1;
        ret := RegNode(GroupOp(OPEN, parno));
        h := Node(GroupOp(OPEN, parno), 0);
      } else {
        ret := code;
        EmitsNothing(st);
      }
      FitsMore(st, Now(), h, AltsRoom(r));
      var ok;
      ok, flags := RegAlts(paren, ret, st, h, no);
      if !ok {
        return NULL, flags;
      }
      RegEnder(paren, parno, ret, st, no, r.tree);
      if paren {
        if Peek(pat, parse) != Char(')') {
          return NULL, flags;
        }
        parse := parse + 1;
      } else if Peek(pat, parse) != 0 {
        return NULL, flags;
      }
    }

    /** The closing node, linked to the alternatives and to their operands. */
    method RegEnder(paren: bool, parno: nat, ret: int, ghost st: Store, ghost no: nat, ghost t: Alts)
      requires AltsWellFormed(t) && (paren ==> parno == no < NSUBEXP) && ret == st.code
      requires Fits(st, |Head(paren, no)| + AltsSize(t) + 3)
      requires Emits(st, Now(), Head(paren, no) + AltsCode(t, DANGLING, 0, 0))
      modifies this`code, this`size, program
      ensures Emits(st, Now(), RegCode(paren, no, t))
    {
      hide Emits, Fits, RegCode, AltsCode, Links, BranchAt, AltsWellFormed, AltsSize, Head, Node, Count;
      ghost var h := Head(paren, no);
      var op := Ender(paren, parno);
      var ender := AppendNode(op, st, h + AltsCode(t, DANGLING, 0, 0));
      AltsLinks(st, paren, no, t, Node(op, 0));
      RegTail(ret, ender, st, h + AltsCode(t, DANGLING, 0, 0) + Node(op, 0), 0, |h| + BranchAt(t, Count(t) - 1),
              |h| + AltsSize(t), h + AltsCode(t, 0, 0, 0) + Node(op, 0));
      LinkTails(ret, ender, st, paren, no, t, op);
      RegCodeParts(paren, no, t);
    }

    /** The alternatives of a pattern or a group, one after the other. */
    method RegAlts(paren: bool, ret: int, ghost st: Store, ghost h: seq<Byte>, ghost no: nat)
      returns (ok: bool, flags: Flags)
      requires parse <= |pat| && !ParseAlts(pat, parse, npar, true).Hang?
      requires Emits(st, Now(), h) && Fits(st, |h| + AltsRoom(ParseAlts(pat, parse, npar, true)))
      requires (paren ==> no < NSUBEXP) && ret == st.code && h == if paren then Node(GroupOp(OPEN, no), 0) else []
      modifies this, program
      ensures var r := ParseAlts(pat, old(parse), old(npar), true);
              && ok == r.Ok?
              && (ok ==>
                    && parse == r.pos && npar == r.npar
                    && Emits(st, Now(), Head(paren, no) + AltsCode(r.tree, DANGLING, 0, 0))
                    && flags == Flags(AltsHaveWidth(r.tree), false, AltsSpStart(r.tree)))
      decreases |pat| - parse, 6
    {
      hide Emits, Fits, AltsCode, ParseAlts, ParsePieces, ParseMoreAlts, Head, Node, Code, Branched;
      hide HasWidth, SpStart, Size, AltsHaveWidth, AltsSpStart, AltsSize, AltsWellFormed;
      ghost var goal := ParseAlts(pat, parse, npar, true);
      ghost var b := ParsePieces(pat, parse, npar, Empty, true);
      FirstRound(pat, parse, npar);
      FitsLess(st, |h| + AltsRoom(goal));
      var inner;
      ok, inner := FirstAlternative(paren, ret, st, h, no);
      if !ok {
        return false, inner;
      }
      flags := Flags(inner.hasWidth, false, inner.spStart);
      ghost var acc := One(b.tree);
      while IsBar(Peek(pat, parse))
        invariant old(parse) <= parse <= |pat| && AltsWellFormed(acc)
        invariant ParseMoreAlts(pat, parse, npar, acc, true) == goal
        invariant Emits(st, Now(), Head(paren, no) + AltsCode(acc, DANGLING, 0, 0))
        invariant flags == Flags(AltsHaveWidth(acc), false, AltsSpStart(acc))
        decreases |pat| - parse
      {
        AltsRound(pat, parse, npar, acc);
        parse := parse + 1;
        b := ParsePieces(pat, parse, npar, Empty, true);
        ok, inner := NextBranch(paren, ret, st, no, acc);
        if !ok {
          return false, inner;
        }
        flags := Flags(flags.hasWidth && inner.hasWidth, false, flags.spStart || inner.spStart);
        acc := More(acc, b.tree);
      }
      NoMoreAlts(pat, parse, npar, acc);
      ok := true;
    }

    /** The first alternative; the mark of a group is linked to it. */
    method FirstAlternative(paren: bool, ret: int, ghost st: Store, ghost h: seq<Byte>, ghost no: nat)
      returns (ok: bool, flags: Flags)
      requires parse <= |pat| && !ParsePieces(pat, parse, npar, Empty, true).Hang?
      requires Emits(st, Now(), h) && Fits(st, |h| + 3 + Room(ParsePieces(pat, parse, npar, Empty, true)))
      requires (paren ==> no < NSUBEXP) && ret == st.code && h == if paren then Node(GroupOp(OPEN, no), 0) else []
      modifies this, program
      ensures var r := ParsePieces(pat, old(parse), old(npar), Empty, true);
              && ok == r.Ok?
              && (ok ==>
                    && parse == r.pos && npar == r.npar
                    && Emits(st, Now(), Head(paren, no) + AltsCode(One(r.tree), DANGLING, 0, 0))
                    && flags == Flags(HasWidth(r.tree), false, SpStart(r.tree)))
      decreases |pat| - parse, 5
    {
      hide Emits, Fits, Links, AltsCode, Branched, ParsePieces, Code, Head, Node, HasWidth, SpStart;
      ghost var r := ParsePieces(pat, parse, npar, Empty, true);
      ghost var before := Now();
      FitsLess(st, |h| + 3 + Room(r));
      FitsMore(st, before, h, 3 + Room(r));
      InsertedRoom(st, before, h);
      var br;
      br, flags := RegBranch();
      ok := br != NULL;
      if ok {
        ghost var first := Branched(0, Code(r.tree, DANGLING));
        EmitsConcat(st, before, Now(), h, first);
        OpenLinks(paren, no, first);
        if paren {
          RegTail(ret, br, st, h + first, 0, 0, 3, Head(paren, no) + first);
        }
        AltsCodeOne(r.tree, DANGLING, 0, 0);
      }
    }

    /** One more alternative, linked to those before it. */
    method NextBranch(paren: bool, ret: int, ghost st: Store, ghost no: nat, ghost acc: Alts)
      returns (ok: bool, flags: Flags)
      requires parse <= |pat| && !ParsePieces(pat, parse, npar, Empty, true).Hang?
      requires Fits(st, |Head(paren, no)| + AltsSize(acc) + 3 + Room(ParsePieces(pat, parse, npar, Empty, true)))
      requires ret == st.code && (paren ==> no < NSUBEXP)
      requires Emits(st, Now(), Head(paren, no) + AltsCode(acc, DANGLING, 0, 0))
      modifies this, program
      ensures var r := ParsePieces(pat, old(parse), old(npar), Empty, true);
              && ok == r.Ok?
              && (ok ==>
                    && parse == r.pos && npar == r.npar
                    && Emits(st, Now(), Head(paren, no) + AltsCode(More(acc, r.tree), DANGLING, 0, 0))
                    && flags == Flags(HasWidth(r.tree), false, SpStart(r.tree)))
      decreases |pat| - parse, 5
    {
      hide Emits, Fits, Links, AltsCode, Branched, ParsePieces, Code, Head, HasWidth, SpStart, Node;
      hide BranchAt, AltsSize, Count, Size;
      ghost var r := ParsePieces(pat, parse, npar, Empty, true);
      ghost var x := Head(paren, no) + AltsCode(acc, DANGLING, 0, 0);
      ghost var before := Now();
      FitsLess(st, |x| + 3 + Room(r));
      FitsMore(st, before, x, 3 + Room(r));
      FitsLess(before, 3 + Room(r));
      InsertedRoom(st, before, x);
      var br;
      br, flags := RegBranch();
      ok := br != NULL;
      if ok {
        ghost var z := Branched(0, Code(r.tree, DANGLING));
        EmitsConcat(st, before, Now(), x, z);
        AltsLinks(st, paren, no, acc, z);
        AltsGrow(Head(paren, no), acc, r.tree);
        RegTail(ret, br, st, x + z, 0, |Head(paren, no)| + BranchAt(acc, Count(acc) - 1), |x|,
                Head(paren, no) + AltsCode(acc, 0, 0, 0) + z);
      }
    }

    method LinkTails(ret: int, ender: int, ghost st: Store, ghost paren: bool, ghost no: nat, ghost t: Alts,
                     ghost op: Byte)
      requires ret == st.code && ender == Addr(st, |Head(paren, no)| + AltsSize(t)) && op == Ender(paren, no)
      requires AltsWellFormed(t) && (paren ==> no < NSUBEXP) && Fits(st, |Head(paren, no)| + AltsSize(t) + 3)
      requires Emits(st, Now(), Linked(paren, no, t, 0))
      modifies program
      ensures Emits(st, Now(), Linked(paren, no, t, Count(t)))
    {
      hide Emits, OpLinks, Linked, AtNodeOf, Head, Ender, AltsSize, AltsWellFormed, NextOffset;
      var br := ret;
      ghost var k: nat, s: nat := 0, 0;
      FirstNodeOf(paren, no, t);
      while br != NULL
        invariant br == NULL || br == Addr(st, s)
        invariant k <= Count(t) && s <= |Linked(paren, no, t, 0)| && Emits(st, Now(), Linked(paren, no, t, k))
        invariant st.code != DUMMY ==>
                    if br == NULL then k == Count(t) else AtNodeOf(paren, no, t, k, s)
        decreases if br == NULL then 0 else |Linked(paren, no, t, 0)| + 1 - s
      {
        ghost var body: nat, k': nat, s': nat := 0, k, 0;
        if st.code != DUMMY {
          body, k', s' := TailStep(paren, no, t, k, s);
        }
        ghost var y := Linked(paren, no, t, k');
        RegOpTail(br, ender, st, Linked(paren, no, t, k), s, body, |Head(paren, no)| + AltsSize(t), y);
        InsertedRoom(st, Now(), y);
        if st.code != DUMMY {
          OffsetLift(program[..], st.code, y, s);
        }
        br := RegNext(br);
        k, s := k', s';
      }
      if st.code == DUMMY {
        Counted(st, Now(), Linked(paren, no, t, k), Linked(paren, no, t, Count(t)));
      }
    }

    ghost predicate RegDone(paren: bool, no: nat, r: Outcome<Alts>, ret: int, flags: Flags, a: Store)
      reads this, program
    {
      if !r.Ok? then ret == NULL
      else
        && ret == a.code && parse == r.pos && npar == r.npar
        && Emits(a, Now(), RegCode(paren, no, r.tree))
        && flags == Flags(AltsHaveWidth(r.tree), false, AltsSpStart(r.tree))
    }
  }
}
