/**
 A printer for syntax trees, in every style that the language of patterns leaves
 open, and the proof that the recursive descent reads back what was printed.
 */
module RegexpShow {
  import opened RegexpSyntax
  import opened RegexpCode
  import opened RegexpParser
  import opened RegexpText

  /** What separates alternatives, and which ordinary characters are quoted although they need not be. */
  datatype Style = Style(bar: Byte, quoted: set<Byte>)

  predicate IsStyle(st: Style) {
    st.bar == Char('|') || st.bar == Char('\n')
  }

  function ShowLetter(c: Byte, st: Style): (t: seq<Byte>)
    ensures t != []
  {
    if !MustNotQuote(c) && (MustQuote(c) || c in st.quoted) then [Char('\\'), c] else [c]
  }

  function ShowAtom(e: Regex, st: Style): seq<Byte>
    decreases e, 0
  {
    match e
    case Leaf(t) => TestText(t)
    case Chars(Exactly, cs) => if cs == [] then [] else ShowLetter(cs[0], st)
    case Chars(AnyOf, cs) => [Char('[')] + (cs + [Char(']')])
    case Chars(AnyBut, cs) => [Char('['), Char('^')] + (cs + [Char(']')])
    case Group(_, a) => [Char('(')] + (ShowAlts(a, st) + [Char(')')])
    case _ => []
  }

  function ShowPiece(e: Regex, st: Style): seq<Byte>
    decreases e, 1
  {
    match e
    case Star(r) => ShowAtom(r, st) + [Char('*')]
    case Plus(r) => ShowAtom(r, st) + [Char('+')]
    case Opt(r) => ShowAtom(r, st) + [Char('?')]
    case _ => ShowAtom(e, st)
  }

  function ShowBranch(e: Regex, st: Style): seq<Byte>
    decreases e, 2
  {
    match e
    case Empty => []
    case Cat(a, b) => ShowBranch(a, st) + ShowPiece(b, st)
    case _ => ShowPiece(e, st)
  }

  function ShowAlts(a: Alts, st: Style): seq<Byte>
    decreases a, 0
  {
    match a
    case One(b) => ShowBranch(b, st)
    case More(i, b) => ShowAlts(i, st) + ([st.bar] + ShowBranch(b, st))
  }

  // ----- trees that can be printed -----

  /**
   The characters of a class can be written as they are: a bracket only comes
   first, a minus sign first or last, and no circumflex where it would negate.
   */
  predicate IsPlainClass(kind: Kind, cs: seq<Byte>) {
    && cs != [] && 0 !in cs && (kind == AnyOf ==> cs[0] != Char('^'))
    && (forall k :: 0 < k < |cs| ==> cs[k] != Char(']'))
    && (forall k :: 0 < k < |cs| - 1 ==> cs[k] != Char('-'))
  }

  /** Trees of single letters and plain classes, whose groups are numbered in order from `n`. */
  predicate AtomShows(e: Regex, n: Pos)
    decreases e, 0
  {
    match e
    case Leaf(_) => true
    case Chars(Exactly, cs) => |cs| == 1 && cs[0] != 0
    case Chars(kind, cs) => IsPlainClass(kind, cs)
    case Group(no, a) => no == n < NSUBEXP && AltsShow(a, n + 1)
    case _ => false
  }

  predicate PieceShows(e: Regex, n: Pos)
    decreases e, 1
  {
    match e
    case Star(r) => HasWidth(r) && AtomShows(r, n)
    case Plus(r) => HasWidth(r) && AtomShows(r, n)
    case Opt(r) => AtomShows(r, n)
    case _ => AtomShows(e, n)
  }

  predicate BranchShows(e: Regex, n: Pos)
    decreases e, 2
  {
    match e
    case Empty => true
    case Cat(a, b) => !a.Empty? && BranchShows(a, n) && PieceShows(b, NextNo(a, n))
    case _ => PieceShows(e, n)
  }

  predicate AltsShow(a: Alts, n: Pos)
    decreases a, 0
  {
    match a
    case One(b) => BranchShows(b, n)
    case More(i, b) => AltsShow(i, n) && BranchShows(b, AltsNextNo(i, n))
  }

  // ----- reading back -----

  lemma AtHere(p: seq<Byte>, lo: nat, x: seq<Byte>, k: nat)
    requires At(p, lo, x) && k < |x|
    ensures lo + k < |p| && p[lo + k] == x[k]
  {
  }

  /** The characters of a class from number `k` on, and the bracket that ends it. */
  lemma {:induction false} ScanReads(pat: CStr, p: nat, n: Pos, kind: Kind, cs: seq<Byte>, k: nat)
    requires kind != Exactly && IsPlainClass(kind, cs) && k <= |cs| && p > 0 && At(pat, p, cs[k..] + [Char(']')])
    requires k == 0 ==> cs[0] != Char(']') && cs[0] != Char('-')
    ensures p < |pat| && (k == 0 ==> pat[p] != Char(']') && pat[p] != Char('-')) && 0 !in cs[..k]
    ensures ScanClass(pat, p, n, kind, cs[..k]) == Ok(p + (|cs| - k) + 1, n, Chars(kind, cs))
    decreases |cs| - k
  {
    var x := cs[k..] + [Char(']')];
    AtHere(pat, p, x, 0);
    if k == |cs| {
      assert cs[..k] == cs;
    } else {
      assert x == [cs[k]] + (cs[k + 1..] + [Char(']')]);
      AtConcat(pat, p, [cs[k]], cs[k + 1..] + [Char(']')]);
      ScanReads(pat, p + 1, n, kind, cs, k + 1);
      assert cs[..k + 1] == cs[..k] + [cs[k]];
      if cs[k] == Char('-') {
        assert k == |cs| - 1;
        AtHere(pat, p, x, 1);
      }
    }
  }

  lemma ClassReads(pat: CStr, p: nat, n: Pos, kind: Kind, cs: seq<Byte>)
    requires kind != Exactly && IsPlainClass(kind, cs) && p > 0
    requires At(pat, p, if kind == AnyBut then [Char('^')] + (cs + [Char(']')]) else cs + [Char(']')])
    ensures p < |pat|
    ensures ParseClass(pat, p, n) == Ok(p + (if kind == AnyBut then 1 else 0) + |cs| + 1, n, Chars(kind, cs))
  {
    hide At, ScanClass, IsPlainClass;
    var x := cs + [Char(']')];
    PlainFirst(kind, cs);
    if kind == AnyBut {
      AtConcat(pat, p, [Char('^')], x);
      AtHere(pat, p, [Char('^')], 0);
      BodyReads(pat, p + 1, n, kind, cs);
    } else {
      BodyReads(pat, p, n, kind, cs);
    }
  }

  lemma PlainFirst(kind: Kind, cs: seq<Byte>)
    requires IsPlainClass(kind, cs)
    ensures cs != [] && 0 !in cs && (kind == AnyOf ==> cs[0] != Char('^'))
  {
  }

  /** A class from its first character on. */
  function ParseBody(pat: CStr, q: nat, n: Pos, kind: Kind): Outcome<Regex>
    requires 0 < q <= |pat| && kind != Exactly
  {
    var c := Peek(pat, q);
    if c == Char(']') || c == Char('-') then ScanClass(pat, q + 1, n, kind, [c]) else ScanClass(pat, q, n, kind, [])
  }

  lemma BodyReads(pat: CStr, q: nat, n: Pos, kind: Kind, cs: seq<Byte>)
    requires kind != Exactly && IsPlainClass(kind, cs) && q > 0 && At(pat, q, cs + [Char(']')])
    ensures q < |pat| && pat[q] == cs[0] && ParseBody(pat, q, n, kind) == Ok(q + |cs| + 1, n, Chars(kind, cs))
  {
    hide At, ScanClass, IsPlainClass;
    var x := cs + [Char(']')];
    PlainFirst(kind, cs);
    AtHere(pat, q, x, 0);
    if cs[0] == Char(']') || cs[0] == Char('-') {
      assert x == [cs[0]] + (cs[1..] + [Char(']')]);
      AtConcat(pat, q, [cs[0]], cs[1..] + [Char(']')]);
      ScanReads(pat, q + 1, n, kind, cs, 1);
      assert cs[..1] == [cs[0]];
    } else {
      assert cs[0..] == cs && cs[..0] == [];
      ScanReads(pat, q, n, kind, cs, 0);
    }
  }

  lemma LetterWritten(pat: CStr, p: nat, c: Byte, st: Style)
    requires c != 0 && At(pat, p, ShowLetter(c, st))
    ensures LetterIn(pat, p, p + |ShowLetter(c, st)|, c)
  {
    var x := ShowLetter(c, st);
    AtHere(pat, p, x, 0);
    if |x| == 2 { AtHere(pat, p, x, 1); }
  }

  lemma ClassWritten(pat: CStr, p: nat, n: Pos, kind: Kind, cs: seq<Byte>, st: Style)
    requires kind != Exactly && IsPlainClass(kind, cs) && At(pat, p, ShowAtom(Chars(kind, cs), st))
    ensures AtomIn(pat, p, p + |ShowAtom(Chars(kind, cs), st)|, Chars(kind, cs), n)
  {
    hide At, ParseClass, IsPlainClass;
    var x := cs + [Char(']')];
    var y := if kind == AnyBut then [Char('^')] + x else x;
    assert ShowAtom(Chars(kind, cs), st) == [Char('[')] + y;
    AtConcat(pat, p, [Char('[')], y);
    AtHere(pat, p, [Char('[')], 0);
    ClassReads(pat, p + 1, n, kind, cs);
  }

  lemma {:induction false} AtomWritten(pat: CStr, p: nat, n: Pos, e: Regex, st: Style)
    requires IsStyle(st) && AtomShows(e, n) && At(pat, p, ShowAtom(e, st))
    ensures AtomIn(pat, p, p + |ShowAtom(e, st)|, e, n)
    decreases e, 0
  {
    hide ParseClass, LetterIn, ShowLetter, IsPlainClass, AltsIn, AltsShow;
    match e
    case Leaf(t) =>
    case Chars(Exactly, cs) => LetterWritten(pat, p, cs[0], st);
    case Chars(kind, cs) => ClassWritten(pat, p, n, kind, cs, st);
    case Group(no, a) =>
      var y := ShowAlts(a, st);
      AtConcat(pat, p, [Char('(')], y + [Char(')')]);
      AtConcat(pat, p + 1, y, [Char(')')]);
      AtHere(pat, p, [Char('(')], 0);
      AtHere(pat, p + 1 + |y|, [Char(')')], 0);
      AltsWritten(pat, p + 1, n + 1, a, st);
  }

  lemma {:induction false} PieceWritten(pat: CStr, p: nat, n: Pos, e: Regex, st: Style)
    requires IsStyle(st) && PieceShows(e, n) && At(pat, p, ShowPiece(e, st))
    ensures PieceIn(pat, p, p + |ShowPiece(e, st)|, e, n)
    decreases e, 1
  {
    hide At, AtomShows, ShowAtom, AtomIn, HasWidth;
    match e
    case Star(r) => RepeatWritten(pat, p, n, r, Char('*'), st);
    case Plus(r) => RepeatWritten(pat, p, n, r, Char('+'), st);
    case Opt(r) => RepeatWritten(pat, p, n, r, Char('?'), st);
    case _ => AtomWritten(pat, p, n, e, st);
  }

  lemma {:induction false} RepeatWritten(pat: CStr, p: nat, n: Pos, r: Regex, op: Byte, st: Style)
    requires IsStyle(st) && AtomShows(r, n) && At(pat, p, ShowAtom(r, st) + [op])
    ensures var q := p + |ShowAtom(r, st)|; q < |pat| && pat[q] == op && AtomIn(pat, p, q, r, n)
    decreases r, 2
  {
    hide At, AtomShows, ShowAtom, AtomIn;
    AtConcat(pat, p, ShowAtom(r, st), [op]);
    AtHere(pat, p + |ShowAtom(r, st)|, [op], 0);
    AtomWritten(pat, p, n, r, st);
  }

  lemma {:induction false} BranchWritten(pat: CStr, p: nat, n: Pos, e: Regex, st: Style)
    requires IsStyle(st) && BranchShows(e, n) && At(pat, p, ShowBranch(e, st)) && p <= |pat|
    ensures BranchIn(pat, p, p + |ShowBranch(e, st)|, e, n)
    decreases e, 2
  {
    hide At, PieceShows, ShowPiece, PieceIn, NextNo;
    match e
    case Empty =>
    case Cat(a, b) =>
      var q := p + |ShowBranch(a, st)|;
      AtConcat(pat, p, ShowBranch(a, st), ShowPiece(b, st));
      BranchWritten(pat, p, n, a, st);
      PieceWritten(pat, q, NextNo(a, n), b, st);
    case _ => PieceWritten(pat, p, n, e, st);
  }

  lemma {:induction false} AltsWritten(pat: CStr, p: nat, n: Pos, a: Alts, st: Style)
    requires IsStyle(st) && AltsShow(a, n) && At(pat, p, ShowAlts(a, st)) && p <= |pat|
    ensures AltsIn(pat, p, p + |ShowAlts(a, st)|, a, n)
    decreases a, 0
  {
    hide At, BranchShows, ShowBranch, BranchIn, NextNo;
    match a
    case One(b) => BranchWritten(pat, p, n, b, st);
    case More(i, b) =>
      var q := p + |ShowAlts(i, st)|;
      AtConcat(pat, p, ShowAlts(i, st), [st.bar] + ShowBranch(b, st));
      AtConcat(pat, q, [st.bar], ShowBranch(b, st));
      AtHere(pat, q, [st.bar], 0);
      AltsWritten(pat, p, n, i, st);
      BranchWritten(pat, q + 1, AltsNextNo(i, n), b, st);
  }

  /** The recursive descent reads back every tree that is printed, whatever the style. */
  lemma ShowThenParse(t: Alts, st: Style)
    requires IsStyle(st) && AltsShow(t, 1)
    ensures 0 !in ShowAlts(t, st)
    ensures Parse(ShowAlts(t, st), false) == Ok(|ShowAlts(t, st)|, AltsNextNo(t, 1), t)
  {
    hide ShowAlts, AltsShow, At, ParseAlts, AltsIn;
    AltsShowNoNull(t, 1, st);
    var pat: CStr := ShowAlts(t, st);
    AtSelf(pat);
    AltsWritten(pat, 0, 1, t, st);
    AltsRead(pat, 0, |pat|, t, 1);
  }

  lemma {:induction false} AltsShowNoNull(a: Alts, n: Pos, st: Style)
    requires IsStyle(st) && AltsShow(a, n)
    ensures 0 !in ShowAlts(a, st)
    decreases a, 0
  {
    match a
    case One(b) => BranchShowsNoNull(b, n, st);
    case More(i, b) =>
      AltsShowNoNull(i, n, st);
      BranchShowsNoNull(b, AltsNextNo(i, n), st);
  }

  lemma {:induction false} BranchShowsNoNull(e: Regex, n: Pos, st: Style)
    requires IsStyle(st) && BranchShows(e, n)
    ensures 0 !in ShowBranch(e, st)
    decreases e, 2
  {
    match e
    case Empty =>
    case Cat(a, b) =>
      BranchShowsNoNull(a, n, st);
      PieceShowsNoNull(b, NextNo(a, n), st);
    case _ => PieceShowsNoNull(e, n, st);
  }

  lemma {:induction false} PieceShowsNoNull(e: Regex, n: Pos, st: Style)
    requires IsStyle(st) && PieceShows(e, n)
    ensures 0 !in ShowPiece(e, st)
    decreases e, 1
  {
    if e.Star? || e.Plus? || e.Opt? {
      AtomShowsNoNull(e.r, n, st);
    } else if e.Leaf? || e.Chars? || e.Group? {
      AtomShowsNoNull(e, n, st);
    }
  }

  lemma {:induction false} AtomShowsNoNull(e: Regex, n: Pos, st: Style)
    requires IsStyle(st) && AtomShows(e, n)
    ensures 0 !in ShowAtom(e, st)
    decreases e, 0
  {
    match e
    case Group(no, a) => AltsShowNoNull(a, n + 1, st);
    case _ =>
  }
}
