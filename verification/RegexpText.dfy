/**
 The language of patterns: which text is a pattern, and for which tree, as a
 relation between positions.  The recursive descent accepts exactly the texts of
 this language and builds the tree related to them.
 */
module RegexpText {
  import opened RegexpSyntax
  import opened RegexpCode
  import opened RegexpParser

  // ----- the language -----

  /** Characters that stand for themselves only after a backslash. */
  predicate MustQuote(c: Byte) {
    || c == Char('^') || c == Char('$') || c == Char('.') || c == Char('[') || c == Char('(') || c == Char(')')
    || c == Char('|') || c == Char('\n') || c == Char('*') || c == Char('+') || c == Char('?') || c == Char('\\')
  }

  /** Characters that stand for themselves only without a backslash. */
  predicate MustNotQuote(c: Byte) {
    c == Char('<') || c == Char('>')
  }

  /** What is written for a test. */
  function TestText(t: Test): (s: seq<Byte>)
    ensures s != []
  {
    match t
    case Bol => [Char('^')]
    case Eol => [Char('$')]
    case AnyChar => [Char('.')]
    case WordStart => [Char('\\'), Char('<')]
    case WordEnd => [Char('\\'), Char('>')]
  }

  /** From `p` to `q`, the pattern has the character `c`, quoted or not. */
  predicate LetterIn(pat: CStr, p: nat, q: nat, c: Byte) {
    || (q == p + 1 <= |pat| && pat[p] == c && !MustQuote(c))
    || (q == p + 2 <= |pat| && pat[p] == Char('\\') && pat[p + 1] == c && !MustNotQuote(c))
  }

  /** The number of the next group after those of `e`, if the first of them has number `n`. */
  function NextNo(e: Regex, n: Pos): Pos
    decreases e
  {
    match e
    case Group(_, a) => AltsNextNo(a, n + 1)
    case Star(r) => NextNo(r, n)
    case Plus(r) => NextNo(r, n)
    case Opt(r) => NextNo(r, n)
    case Cat(a, b) => NextNo(b, NextNo(a, n))
    case _ => n
  }

  function AltsNextNo(a: Alts, n: Pos): Pos
    decreases a
  {
    match a
    case One(b) => NextNo(b, n)
    case More(i, b) => NextNo(b, AltsNextNo(i, n))
  }

  /** From `p` to `q`, the pattern has the atom `e`; its groups are numbered from `n`. */
  ghost predicate AtomIn(pat: CStr, p: nat, q: nat, e: Regex, n: Pos)
    decreases e, 0
  {
    && p < q <= |pat|
    && match e
       case Leaf(t) => pat[p..q] == TestText(t)
       case Chars(Exactly, cs) => |cs| == 1 && LetterIn(pat, p, q, cs[0])
       case Chars(_, _) => pat[p] == Char('[') && ParseClass(pat, p + 1, n) == Ok(q, n, e)
       case Group(no, a) =>
         && no == n < NSUBEXP && p + 1 < q && pat[p] == Char('(') && pat[q - 1] == Char(')')
         && AltsIn(pat, p + 1, q - 1, a, n + 1)
       case _ => false
  }

  /** An atom and possibly one operator; what `*` and `+` apply to must not match the empty string. */
  ghost predicate PieceIn(pat: CStr, p: nat, q: nat, e: Regex, n: Pos)
    decreases e, 1
  {
    match e
    case Star(r) => p < q <= |pat| && pat[q - 1] == Char('*') && HasWidth(r) && AtomIn(pat, p, q - 1, r, n)
    case Plus(r) => p < q <= |pat| && pat[q - 1] == Char('+') && HasWidth(r) && AtomIn(pat, p, q - 1, r, n)
    case Opt(r) => p < q <= |pat| && pat[q - 1] == Char('?') && AtomIn(pat, p, q - 1, r, n)
    case _ => AtomIn(pat, p, q, e, n)
  }

  /** Any number of pieces. */
  ghost predicate BranchIn(pat: CStr, p: nat, q: nat, e: Regex, n: Pos)
    decreases e, 2
  {
    match e
    case Empty => p == q <= |pat|
    case Cat(a, b) =>
      !a.Empty? && exists m: nat :: BranchIn(pat, p, m, a, n) && PieceIn(pat, m, q, b, NextNo(a, n))
    case _ => PieceIn(pat, p, q, e, n)
  }

  /** Alternatives, separated by bars or newlines. */
  ghost predicate AltsIn(pat: CStr, p: nat, q: nat, a: Alts, n: Pos)
    decreases a, 0
  {
    match a
    case One(b) => BranchIn(pat, p, q, b, n)
    case More(i, b) =>
      exists m: nat ::
        && m < |pat| && AltsIn(pat, p, m, i, n) && (pat[m] == Char('|') || pat[m] == Char('\n'))
        && BranchIn(pat, m + 1, q, b, AltsNextNo(i, n))
  }

  // ----- texts of the language are accepted -----

  lemma LetterReads(pat: CStr, p: nat, q: nat, n: Pos, c: Byte)
    requires LetterIn(pat, p, q, c)
    ensures p < |pat| && ParseAtom(pat, p, n, false) == Ok(q, n, Chars(Exactly, [c]))
  {
    assert pat[p] in pat;
    if q == p + 2 { assert pat[p + 1] in pat; }
  }

  lemma TestReads(pat: CStr, p: nat, q: nat, n: Pos, t: Test)
    requires p < q <= |pat| && pat[p..q] == TestText(t)
    ensures ParseAtom(pat, p, n, false) == Ok(q, n, Leaf(t))
  {
    assert pat[p] == pat[p..q][0] && q == p + |TestText(t)|;
    if q == p + 2 { assert pat[p + 1] == pat[p..q][1]; }
  }

  lemma {:induction false} AtomReads(pat: CStr, p: nat, q: nat, e: Regex, n: Pos)
    requires AtomIn(pat, p, q, e, n)
    ensures ParseAtom(pat, p, n, false) == Ok(q, NextNo(e, n), e)
    decreases e, 0
  {
    hide LetterIn, ParseClass, ParseReg;
    match e
    case Leaf(t) => TestReads(pat, p, q, n, t);
    case Chars(Exactly, cs) =>
      LetterReads(pat, p, q, n, cs[0]);
      assert cs == [cs[0]];
    case Chars(_, _) =>
    case Group(no, a) =>
      AltsRead(pat, p + 1, q - 1, a, n + 1);
      GroupReads(pat, p, n, a, q - 1, AltsNextNo(a, n + 1));
  }

  lemma GroupReads(pat: CStr, p: nat, n: Pos, a: Alts, q: nat, n': Pos)
    requires p < q < |pat| && pat[p] == Char('(') && pat[q] == Char(')') && n < NSUBEXP
    requires AltsWellFormed(a) && ParseAlts(pat, p + 1, n + 1, false) == Ok(q, n', a)
    ensures ParseAtom(pat, p, n, false) == Ok(q + 1, n', Group(n, a))
  {
    hide ParseAlts;
  }

  lemma {:induction false} PieceReads(pat: CStr, p: nat, q: nat, e: Regex, n: Pos)
    requires PieceIn(pat, p, q, e, n) && !IsMult(Peek(pat, q))
    ensures p < q <= |pat| && ParsePiece(pat, p, n, false) == Ok(q, NextNo(e, n), e)
    decreases e, 1
  {
    hide ParseAtom, AtomIn;
    match e
    case Star(r) => RepeatReads(pat, p, q - 1, r, n, Char('*'));
    case Plus(r) => RepeatReads(pat, p, q - 1, r, n, Char('+'));
    case Opt(r) => RepeatReads(pat, p, q - 1, r, n, Char('?'));
    case _ =>
      AtomInside(pat, p, q, e, n);
      AtomReads(pat, p, q, e, n);
  }

  lemma {:induction false} RepeatReads(pat: CStr, p: nat, q: nat, r: Regex, n: Pos, op: Byte)
    requires AtomIn(pat, p, q, r, n) && IsMult(op) && (HasWidth(r) || op == Char('?')) && q < |pat| && pat[q] == op
    requires !IsMult(Peek(pat, q + 1))
    ensures p < q && ParsePiece(pat, p, n, false) == Ok(q + 1, NextNo(r, n), Repeat(op, r))
    decreases r, 2
  {
    hide ParseAtom, AtomIn, HasWidth;
    AtomInside(pat, p, q, r, n);
    AtomReads(pat, p, q, r, n);
  }

  lemma AtomInside(pat: CStr, p: nat, q: nat, e: Regex, n: Pos)
    requires AtomIn(pat, p, q, e, n)
    ensures p < q <= |pat|
  {
  }

  /** An atom starts neither with an operator nor with something that ends its alternative. */
  lemma AtomStarts(pat: CStr, p: nat, q: nat, e: Regex, n: Pos)
    requires AtomIn(pat, p, q, e, n)
    ensures p < |pat| && !IsMult(pat[p]) && !EndsBranch(pat[p])
  {
    hide ParseClass;
    assert pat[p] in pat;
    if e.Leaf? { assert pat[p] == pat[p..q][0]; }
  }

  lemma PieceStarts(pat: CStr, p: nat, q: nat, e: Regex, n: Pos)
    requires PieceIn(pat, p, q, e, n)
    ensures p < |pat| && !IsMult(pat[p]) && !EndsBranch(pat[p])
  {
    hide AtomIn;
    match e
    case Star(r) => AtomStarts(pat, p, q - 1, r, n);
    case Plus(r) => AtomStarts(pat, p, q - 1, r, n);
    case Opt(r) => AtomStarts(pat, p, q - 1, r, n);
    case _ => AtomStarts(pat, p, q, e, n);
  }

  lemma {:induction false} BranchReads(pat: CStr, p: nat, q: nat, e: Regex, n: Pos)
    requires BranchIn(pat, p, q, e, n) && !IsMult(Peek(pat, q))
    ensures WellFormed(e) && p <= q <= |pat|
    ensures ParsePieces(pat, p, n, Empty, false) == ParsePieces(pat, q, NextNo(e, n), e, false)
    decreases e, 2
  {
    hide ParsePieces, PieceIn, WellFormed, NextNo;
    EmptyBranch(n);
    match e
    case Empty =>
    case Cat(a, b) =>
      var m: nat :| BranchIn(pat, p, m, a, n) && PieceIn(pat, m, q, b, NextNo(a, n));
      PieceStarts(pat, m, q, b, NextNo(a, n));
      BranchReads(pat, p, m, a, n);
      PieceReads(pat, m, q, b, NextNo(a, n));
      OnePiece(pat, m, NextNo(a, n), a, b, q, NextNo(b, NextNo(a, n)));
      CatNextNo(a, b, n);
    case _ =>
      PieceStarts(pat, p, q, e, n);
      PieceReads(pat, p, q, e, n);
      OnePiece(pat, p, n, Empty, e, q, NextNo(e, n));
  }

  lemma EmptyBranch(n: Pos)
    ensures WellFormed(Empty) && NextNo(Empty, n) == n
  {
  }

  lemma CatNextNo(a: Regex, b: Regex, n: Pos)
    ensures NextNo(Cat(a, b), n) == NextNo(b, NextNo(a, n))
  {
  }

  /** One piece more of an alternative. */
  lemma OnePiece(pat: CStr, p: nat, n: Pos, acc: Regex, e: Regex, q: nat, n': Pos)
    requires p < |pat| && WellFormed(acc) && !EndsBranch(pat[p]) && ParsePiece(pat, p, n, false) == Ok(q, n', e)
    ensures WellFormed(e) && IsPiece(e) && q <= |pat| && WellFormed(Append(acc, e))
    ensures ParsePieces(pat, p, n, acc, false) == ParsePieces(pat, q, n', Append(acc, e), false)
  {
    hide ParsePiece, WellFormed;
  }

  lemma BranchEnds(pat: CStr, p: nat, n: Pos, e: Regex)
    requires p <= |pat| && WellFormed(e) && EndsBranch(Peek(pat, p))
    ensures ParsePieces(pat, p, n, e, false) == Ok(p, n, e)
  {
  }

  lemma NoMoreAlts(pat: CStr, p: nat, n: Pos, a: Alts)
    requires p <= |pat| && AltsWellFormed(a) && !IsBar(Peek(pat, p))
    ensures ParseMoreAlts(pat, p, n, a, false) == Ok(p, n, a)
  {
  }

  lemma {:induction false} AltsRead(pat: CStr, p: nat, q: nat, a: Alts, n: Pos)
    requires AltsIn(pat, p, q, a, n) && EndsBranch(Peek(pat, q)) && !IsBar(Peek(pat, q))
    ensures AltsWellFormed(a) && p <= q <= |pat| && ParseAlts(pat, p, n, false) == Ok(q, AltsNextNo(a, n), a)
    decreases a, 1
  {
    hide ParseAlts, AltsIn, AltsWellFormed;
    MoreRead(pat, p, q, a, n);
    NoMoreAlts(pat, q, AltsNextNo(a, n), a);
  }

  lemma {:induction false} MoreRead(pat: CStr, p: nat, q: nat, a: Alts, n: Pos)
    requires AltsIn(pat, p, q, a, n) && EndsBranch(Peek(pat, q))
    ensures AltsWellFormed(a) && p <= q <= |pat|
    ensures ParseAlts(pat, p, n, false) == ParseMoreAlts(pat, q, AltsNextNo(a, n), a, false)
    decreases a, 0
  {
    hide ParsePieces, BranchIn, NextNo, WellFormed;
    match a
    case One(b) =>
      BranchReads(pat, p, q, b, n);
      BranchEnds(pat, q, NextNo(b, n), b);
    case More(i, b) =>
      var k := AltsNextNo(i, n);
      var m: nat :| m < |pat| && AltsIn(pat, p, m, i, n) && (pat[m] == Char('|') || pat[m] == Char('\n'))
                    && BranchIn(pat, m + 1, q, b, k);
      MoreRead(pat, p, m, i, n);
      BranchReads(pat, m + 1, q, b, k);
      BranchEnds(pat, q, NextNo(b, k), b);
  }

  // ----- and no others -----

  lemma {:induction false} AtomSound(pat: CStr, p: nat, n: Pos)
    requires p < |pat| && ParseAtom(pat, p, n, false).Ok?
    ensures var r := ParseAtom(pat, p, n, false); AtomIn(pat, p, r.pos, r.tree, n) && r.npar == NextNo(r.tree, n)
    decreases |pat| - p, 1
  {
    var r := ParseAtom(pat, p, n, false);
    var c := pat[p];
    assert c in pat;
    if c == Char('(') {
      GroupSound(pat, p, n);
    } else if c == Char('[') {
      hide ParseClass;
    } else {
      hide ParseClass, ParseReg;
      OtherSound(pat, p, n);
    }
  }

  lemma OtherSound(pat: CStr, p: nat, n: Pos)
    requires p < |pat| && pat[p] != Char('(') && pat[p] != Char('[') && ParseAtom(pat, p, n, false).Ok?
    ensures var r := ParseAtom(pat, p, n, false); AtomIn(pat, p, r.pos, r.tree, n) && r.npar == NextNo(r.tree, n)
  {
    hide ParseClass, ParseReg;
    var r := ParseAtom(pat, p, n, false);
    if p + 1 < |pat| { assert pat[p + 1] in pat; }
    assert pat[p..p + 1] == [pat[p]];
    if p + 2 <= |pat| { assert pat[p..p + 2] == [pat[p], pat[p + 1]]; }
  }

  lemma {:induction false} GroupSound(pat: CStr, p: nat, n: Pos)
    requires p < |pat| && pat[p] == Char('(') && ParseAtom(pat, p, n, false).Ok?
    ensures var r := ParseAtom(pat, p, n, false); AtomIn(pat, p, r.pos, r.tree, n) && r.npar == NextNo(r.tree, n)
    decreases |pat| - p, 0
  {
    hide ParseAlts, AltsIn;
    AltsSound(pat, p + 1, n + 1);
  }

  lemma {:induction false} PieceSound(pat: CStr, p: nat, n: Pos)
    requires p < |pat| && ParsePiece(pat, p, n, false).Ok?
    ensures var r := ParsePiece(pat, p, n, false);
            PieceIn(pat, p, r.pos, r.tree, n) && r.npar == NextNo(r.tree, n) && !IsMult(Peek(pat, r.pos))
    decreases |pat| - p, 2
  {
    hide ParseAtom, AtomIn, HasWidth;
    AtomSound(pat, p, n);
    AtomIsAtom(pat, p, ParseAtom(pat, p, n, false).pos, ParseAtom(pat, p, n, false).tree, n);
  }

  lemma AtomIsAtom(pat: CStr, p: nat, q: nat, e: Regex, n: Pos)
    requires AtomIn(pat, p, q, e, n)
    ensures (e.Leaf? || e.Chars? || e.Group?) && PieceIn(pat, p, q, e, n)
  {
  }

  lemma {:induction false} PiecesSound(pat: CStr, p0: nat, p: nat, n0: Pos, acc: Regex)
    requires p0 <= p <= |pat| && WellFormed(acc) && BranchIn(pat, p0, p, acc, n0)
    requires ParsePieces(pat, p, NextNo(acc, n0), acc, false).Ok?
    ensures var r := ParsePieces(pat, p, NextNo(acc, n0), acc, false);
            BranchIn(pat, p0, r.pos, r.tree, n0) && r.npar == NextNo(r.tree, n0) && EndsBranch(Peek(pat, r.pos))
    decreases |pat| - p, 3
  {
    hide ParsePiece, PieceIn, WellFormed, NextNo, BranchIn;
    var n := NextNo(acc, n0);
    if !EndsBranch(Peek(pat, p)) {
      PieceSound(pat, p, n);
      var r := ParsePiece(pat, p, n, false);
      BranchMore(pat, p0, p, acc, n0, r.pos, r.tree);
      PiecesSound(pat, p0, r.pos, n0, Append(acc, r.tree));
    }
  }

  lemma BranchMore(pat: CStr, p0: nat, p: nat, acc: Regex, n0: Pos, q: nat, e: Regex)
    requires WellFormed(acc) && WellFormed(e) && IsPiece(e)
    requires BranchIn(pat, p0, p, acc, n0) && PieceIn(pat, p, q, e, NextNo(acc, n0))
    ensures BranchIn(pat, p0, q, Append(acc, e), n0) && NextNo(Append(acc, e), n0) == NextNo(e, NextNo(acc, n0))
  {
    hide PieceIn, WellFormed;
  }

  lemma {:induction false} MoreSound(pat: CStr, p0: nat, p: nat, n0: Pos, acc: Alts)
    requires p0 <= p <= |pat| && AltsWellFormed(acc) && AltsIn(pat, p0, p, acc, n0)
    requires ParseMoreAlts(pat, p, AltsNextNo(acc, n0), acc, false).Ok?
    ensures var r := ParseMoreAlts(pat, p, AltsNextNo(acc, n0), acc, false);
            AltsIn(pat, p0, r.pos, r.tree, n0) && r.npar == AltsNextNo(r.tree, n0)
    decreases |pat| - p, 4
  {
    hide ParsePieces, BranchIn, NextNo, WellFormed;
    var n := AltsNextNo(acc, n0);
    if IsBar(Peek(pat, p)) {
      NoPieces(pat, p + 1, n);
      PiecesSound(pat, p + 1, p + 1, n, Empty);
      var r := ParsePieces(pat, p + 1, n, Empty, false);
      assert AltsIn(pat, p0, r.pos, More(acc, r.tree), n0);
      MoreSound(pat, p0, r.pos, n0, More(acc, r.tree));
    }
  }

  lemma NoPieces(pat: CStr, p: nat, n: Pos)
    requires p <= |pat|
    ensures BranchIn(pat, p, p, Empty, n) && NextNo(Empty, n) == n && WellFormed(Empty)
  {
  }

  lemma {:induction false} AltsSound(pat: CStr, p: nat, n: Pos)
    requires p <= |pat| && ParseAlts(pat, p, n, false).Ok?
    ensures var r := ParseAlts(pat, p, n, false); AltsIn(pat, p, r.pos, r.tree, n) && r.npar == AltsNextNo(r.tree, n)
    decreases |pat| - p, 5
  {
    hide ParsePieces, BranchIn, NextNo, WellFormed;
    NoPieces(pat, p, n);
    PiecesSound(pat, p, p, n, Empty);
    var r := ParsePieces(pat, p, n, Empty, false);
    assert AltsIn(pat, p, r.pos, One(r.tree), n);
    MoreSound(pat, p, r.pos, n, One(r.tree));
  }

  /** The recursive descent accepts exactly the patterns of the language, and builds the tree they are written for. */
  lemma ParsesExactly(pat: CStr, t: Alts)
    ensures (exists n: Pos :: Parse(pat, false) == Ok(|pat|, n, t)) <==> AltsIn(pat, 0, |pat|, t, 1)
  {
    hide ParseAlts, AltsIn;
    if AltsIn(pat, 0, |pat|, t, 1) {
      AltsRead(pat, 0, |pat|, t, 1);
      assert Parse(pat, false) == Ok(|pat|, AltsNextNo(t, 1), t);
    }
    if n: Pos :| Parse(pat, false) == Ok(|pat|, n, t) {
      AltsSound(pat, 0, 1);
    }
  }

  lemma AcceptsExactly(pat: CStr)
    ensures Parse(pat, false).Ok? <==> exists t: Alts :: AltsIn(pat, 0, |pat|, t, 1)
  {
    hide ParseAlts, AltsIn;
    if t: Alts :| AltsIn(pat, 0, |pat|, t, 1) {
      ParsesExactly(pat, t);
    }
    if Parse(pat, false).Ok? {
      ParsesExactly(pat, Parse(pat, false).tree);
    }
  }
}
