/**
 A pattern on which the matcher, counting repetitions in 16 bits, leaves the
 subject instead of answering that there is no match.
 */
module RegexpLost {
  import opened RegexpSyntax
  import opened RegexpCode
  import opened RegexpMachine
  import opened RegexpParser
  import opened RegexpGrammar
  import opened RegexpTermination
  import opened RegexpMatch
  import opened RegexpCompiler
  import opened RegexpPackage

  /** The pattern ^a*b and the subject cb. */
  const PATTERN: CStr := [94, 97, 42, 98]
  const SUBJECT: CStr := [99, 98]

  const LOOP := Star(Chars(Exactly, [97]))
  const TREE := One(Cat(Cat(Leaf(Bol), LOOP), Chars(Exactly, [98])))

  lemma PatternParses()
    ensures Parse(PATTERN, true) == Ok(4, 1, TREE)
  {
    var pat := PATTERN;
    assert ParsePiece(pat, 0, 1, true) == Ok(1, 1, Leaf(Bol));
    assert [] + [pat[1]] == [97] && [] + [pat[3]] == [98];
    assert ScanText(pat, 1, -1, []) == (2, [97]);
    assert ParsePiece(pat, 1, 1, true) == Ok(3, 1, LOOP);
    assert ScanText(pat, 3, -1, []) == (4, [98]);
    assert ParsePiece(pat, 3, 1, true) == Ok(4, 1, Chars(Exactly, [98]));
    PiecesParse();
  }

  lemma PiecesParse()
    requires ParsePiece(PATTERN, 0, 1, true) == Ok(1, 1, Leaf(Bol)) && ParsePiece(PATTERN, 1, 1, true) == Ok(3, 1, LOOP)
    requires ParsePiece(PATTERN, 3, 1, true) == Ok(4, 1, Chars(Exactly, [98]))
    ensures Parse(PATTERN, true) == Ok(4, 1, TREE)
  {
    hide ParsePiece;
    var pat := PATTERN;
    var bol, loop := Leaf(Bol), LOOP;
    assert ParsePieces(pat, 4, 1, TREE.b, true) == Ok(4, 1, TREE.b);
    assert ParsePieces(pat, 3, 1, Cat(bol, loop), true) == Ok(4, 1, TREE.b);
    assert ParsePieces(pat, 1, 1, bol, true) == Ok(4, 1, TREE.b);
    assert ParsePieces(pat, 0, 1, Empty, true) == Ok(4, 1, TREE.b);
    assert ParseMoreAlts(pat, 4, 1, TREE, true) == Ok(4, 1, TREE);
  }

  lemma NoText(c: Byte, j: nat)
    requires c != 99
    ensures !CharsHold(Exactly, [c], SUBJECT, 0, j)
  {
    if j > 0 && j <= 2 { assert SUBJECT[0..j][0] == 99; }
  }

  lemma NoTrip(r: Regex, s: seq<Byte>, m: nat)
    requires Matches(Star(r), s, 0, m) && forall k: nat :: !Matches(r, s, 0, k)
    ensures m == 0
  {
    var n: nat :| Repeats(r, n, s, 0, m);
    NoTrips(r, n, s, m);
  }

  lemma NoTrips(r: Regex, n: nat, s: seq<Byte>, m: nat)
    requires Repeats(r, n, s, 0, m) && forall k: nat :: !Matches(r, s, 0, k)
    ensures m == 0
  {
  }

  lemma CatSplits(a: Regex, b: Regex, s: seq<Byte>, i: nat, j: nat) returns (m: nat)
    requires Matches(Cat(a, b), s, i, j)
    ensures Matches(a, s, i, m) && Matches(b, s, m, j)
  {
    m :| Matches(a, s, i, m) && Matches(b, s, m, j);
  }

  lemma AtomMatches(c: Byte, s: seq<Byte>, i: nat, j: nat)
    ensures Matches(Leaf(Bol), s, i, j) <==> i == j == 0
    ensures Matches(Chars(Exactly, [c]), s, i, j) <==> CharsHold(Exactly, [c], s, i, j)
  {
  }

  lemma OneMatches(b: Regex, s: seq<Byte>, i: nat, j: nat)
    ensures AltsMatch(One(b), s, i, j) <==> Matches(b, s, i, j)
  {
  }

  lemma NoMatch(i: nat, j: nat)
    ensures !AltsMatch(TREE, SUBJECT, i, j)
  {
    hide Matches, AltsMatch, CharsHold;
    if AltsMatch(TREE, SUBJECT, i, j) {
      var r := Chars(Exactly, [97]);
      OneMatches(Cat(Cat(Leaf(Bol), Star(r)), Chars(Exactly, [98])), SUBJECT, i, j);
      var m := CatSplits(Cat(Leaf(Bol), Star(r)), Chars(Exactly, [98]), SUBJECT, i, j);
      var l := CatSplits(Leaf(Bol), Star(r), SUBJECT, i, m);
      AtomMatches(97, SUBJECT, i, l);
      forall k: nat
        ensures !Matches(r, SUBJECT, 0, k)
      {
        AtomMatches(97, SUBJECT, 0, k);
        NoText(97, k);
      }
      NoTrip(r, SUBJECT, m);
      AtomMatches(98, SUBJECT, 0, j);
      NoText(98, j);
    }
  }

  /** The nodes of the program lead to the STAR at the start of the subject. */
  lemma MeetsLoop(p: seq<Byte>)
    requires At(p, 0, Program(TREE))
    ensures MeetsStar(p, SUBJECT, 1, 0)
  {
    hide At, Code, Branched, Node, NextOffset;
    var b := TREE.b;
    var x := AltsCode(TREE, 0, 0, Count(TREE));
    AtConcat(p, 0, [MAGIC], x + Node(END, 0));
    AtConcat(p, 1, x, Node(END, 0));
    AltsCodeOne(b, 0, 0, 1);
    BranchedParts(p, 1, 3 + Size(b), Code(b, 0));
    CodeCat(b.init, b.last, 0);
    AtConcat(p, 4, Code(b.init, 0), Code(b.last, 0));
    CodeCat(Leaf(Bol), LOOP, 0);
    AtConcat(p, 4, Code(Leaf(Bol), 0), Code(LOOP, 0));
    CodeAtom(Leaf(Bol), 0);
    AtNode(p, 4, BOL, 3);
    CodeStar(LOOP.r, 0);
    PrefixParts(p, 7, STAR, 3 + Size(LOOP.r), Code(LOOP.r, DANGLING));
    assert Meets(p, SUBJECT, 7, 0, 1);
    assert Consumes(p, SUBJECT, 4, 0, 0);
    assert Meets(p, SUBJECT, 4, 0, 2);
    assert Meets(p, SUBJECT, 1, 0, 3);
  }

  /** A search on a subject without a match gets lost if some position that is tried leads to a STAR. */
  method Search(exp: CStr, s: CStr, program: array<Byte>, ghost t: Alts, ghost i: nat) returns (ok: bool, a: Answer)
    requires Parse(exp, true).Ok? && Parse(exp, true).tree == t && |s| < SPAN - 1
    requires 1 + RegRoom(Parse(exp, true), false) <= program.Length && 1 + RegRoom(Parse(exp, true), false) < SPAN
    requires IsTried(FilterOf(t), s, i) && forall p :: At(p, 0, Program(t)) ==> MeetsStar(p, s, 1, i)
    requires forall i: nat :: !MatchAt(t, s, i)
    modifies program
    ensures ok && a == Lost && Parse(exp, false).Ok? && forall i: nat :: !MatchAt(Parse(exp, false).tree, s, i)
  {
    hide AltsMatch, ParseReg, FilterOf, IsTried, MeetsStar, At, Program, MatchAt, AltsStarless, AltsEquiv, RegRoom;
    GatheringPreservesMeaning(exp);
    MeansSame(t, Parse(exp, false).tree, s);
    var first, last, startp, endp;
    ok, a, first, last, startp, endp := CompileAndExecute(exp, program, s, false);
  }

  /** The search for ^a*b in cb gets lost, although the pattern does not match. */
  method SearchIsLost(program: array<Byte>) returns (ok: bool, a: Answer)
    requires 1 + RegRoom(Parse(PATTERN, true), false) <= program.Length
    modifies program
    ensures ok && a == Lost && Parse(PATTERN, false).Ok?
    ensures forall i: nat :: !MatchAt(Parse(PATTERN, false).tree, SUBJECT, i)
  {
    hide ParseReg, FilterOf, IsTried, MeetsStar, At, Program, MatchAt, RegRoom;
    PatternParses();
    RoomSmall();
    NoMatchAt();
    FirstTried();
    forall p | At(p, 0, Program(TREE))
      ensures MeetsStar(p, SUBJECT, 1, 0)
    {
      MeetsLoop(p);
    }
    ok, a := Search(PATTERN, SUBJECT, program, TREE, 0);
  }

  lemma NoMatchAt()
    ensures forall i: nat :: !MatchAt(TREE, SUBJECT, i)
  {
    hide AltsMatch;
    forall i: nat, j: nat
      ensures !AltsMatch(TREE, SUBJECT, i, j)
    {
      NoMatch(i, j);
    }
  }

  lemma RoomSmall()
    requires Parse(PATTERN, true) == Ok(4, 1, TREE)
    ensures 1 + RegRoom(Parse(PATTERN, true), false) < SPAN
  {
    hide ParseReg;
  }

  lemma FirstTried()
    ensures IsTried(FilterOf(TREE), SUBJECT, 0)
  {
  }
}
