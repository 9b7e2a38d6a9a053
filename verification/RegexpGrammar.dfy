/**
 The compiler gathers ordinary characters into strings and backs up when an
 operator turns out to apply to the last of them.  Here that is proved to
 change nothing: it accepts the patterns that the plain grammar accepts, in
 which every character is a piece of its own, and gives them the same meaning.
 */
module RegexpGrammar {
  import opened RegexpSyntax
  import opened RegexpCode
  import opened RegexpParser
  import opened RegexpWays

  /** Trees with the same meaning: the same ways from every position, in the same order. */
  ghost predicate Equiv(e: Regex, f: Regex) {
    && HasWidth(e) == HasWidth(f)
    && e.Empty? == f.Empty?
    && forall s, i: nat :: Ways(e, s, i) == Ways(f, s, i)
  }

  ghost predicate AltsEquiv(a: Alts, b: Alts) {
    && AltsHaveWidth(a) == AltsHaveWidth(b)
    && forall s, i: nat :: AltsWays(a, s, i) == AltsWays(b, s, i)
  }

  /** Outcomes that differ in the tree at most, and there not in its meaning. */
  ghost predicate Agree(r: Outcome<Regex>, q: Outcome<Regex>) {
    match r
    case Ok(p, n, e) => q.Ok? && q.pos == p && q.npar == n && Equiv(e, q.tree)
    case Fail(_) => q.Fail?
    case Hang => q.Hang?
  }

  ghost predicate AltsAgree(r: Outcome<Alts>, q: Outcome<Alts>) {
    match r
    case Ok(p, n, a) => q.Ok? && q.pos == p && q.npar == n && AltsEquiv(a, q.tree)
    case Fail(_) => q.Fail?
    case Hang => q.Hang?
  }

  // ----- congruences -----

  lemma RepeatEquiv(op: Byte, e: Regex, f: Regex)
    requires IsMult(op) && Equiv(e, f)
    ensures Equiv(Repeat(op, e), Repeat(op, f))
  {
    forall s, i: nat
      ensures Ways(Repeat(op, e), s, i) == Ways(Repeat(op, f), s, i)
    {
      EquivAt(e, f, s, i);
      StarEquiv(e, f, s, i);
      TripsEquiv(e, f, s, i, Ways(e, s, i));
      RepeatWays(op, e, s, i);
      RepeatWays(op, f, s, i);
    }
    hide Ways;
  }

  lemma RepeatWays(op: Byte, e: Regex, s: seq<Byte>, i: nat)
    requires IsMult(op)
    ensures Ways(Repeat(op, e), s, i)
            == if op == Char('*') then StarWays(e, s, i)
               else if op == Char('+') then TripWays(e, s, i, Ways(e, s, i))
               else Ways(e, s, i) + [Way(i, [])]
  {
    hide StarWays, TripWays;
  }

  lemma EquivWidth(e: Regex, f: Regex)
    requires Equiv(e, f)
    ensures HasWidth(e) == HasWidth(f)
  {
  }

  lemma EquivAt(e: Regex, f: Regex, s: seq<Byte>, i: nat)
    requires Equiv(e, f)
    ensures Ways(e, s, i) == Ways(f, s, i)
  {
    hide Ways;
  }

  lemma {:induction false} StarEquiv(e: Regex, f: Regex, s: seq<Byte>, i: nat)
    requires Equiv(e, f)
    ensures StarWays(e, s, i) == StarWays(f, s, i)
    decreases if i <= |s| then 2 * (|s| - i) + 2 else 2, 0
  {
    hide Equiv, Ways, TripWays;
    EquivAt(e, f, s, i);
    TripsEquiv(e, f, s, i, Ways(e, s, i));
  }

  lemma {:induction false} TripsEquiv(e: Regex, f: Regex, s: seq<Byte>, i: nat, trips: seq<Way>)
    requires Equiv(e, f)
    ensures TripWays(e, s, i, trips) == TripWays(f, s, i, trips)
    decreases if i <= |s| then 2 * (|s| - i) + 1 else 1, |trips|
  {
    hide Equiv, StarWays, After;
    if trips != [] {
      var m := trips[0].end;
      if i < m <= |s| { StarEquiv(e, f, s, m); }
      TripsEquiv(e, f, s, i, trips[1..]);
    }
  }

  lemma AppendEquiv(a: Regex, b: Regex, e: Regex, f: Regex)
    requires WellFormed(a) && WellFormed(b) && WellFormed(e) && WellFormed(f) && IsPiece(e) && IsPiece(f)
    requires Equiv(a, b) && Equiv(e, f)
    ensures Equiv(Append(a, e), Append(b, f))
  {
    hide WellFormed, Ways, HasWidth;
    if !a.Empty? {
      CatEquiv(a, b, e, f);
    }
  }

  lemma CatEquiv(a: Regex, b: Regex, e: Regex, f: Regex)
    requires Equiv(a, b) && Equiv(e, f)
    ensures Equiv(Cat(a, e), Cat(b, f))
  {
    forall s, i: nat
      ensures Ways(Cat(a, e), s, i) == Ways(Cat(b, f), s, i)
    {
      EquivAt(a, b, s, i);
      ThenEquiv(Ways(a, s, i), e, f, s);
      CatThen(a, e, s, i);
      CatThen(b, f, s, i);
    }
    hide Ways;
  }

  lemma CatThen(a: Regex, b: Regex, s: seq<Byte>, i: nat)
    ensures Ways(Cat(a, b), s, i) == ThenWays(Ways(a, s, i), b, s)
  {
    hide ThenWays;
  }

  lemma {:induction false} ThenEquiv(ways: seq<Way>, e: Regex, f: Regex, s: seq<Byte>)
    requires Equiv(e, f)
    ensures ThenWays(ways, e, s) == ThenWays(ways, f, s)
    decreases |ways|
  {
    hide Equiv, Ways, After;
    if ways != [] {
      EquivAt(e, f, s, ways[0].end);
      ThenEquiv(ways[1..], e, f, s);
    }
  }

  lemma GroupEquiv(no: nat, a: Alts, b: Alts)
    requires AltsEquiv(a, b)
    ensures Equiv(Group(no, a), Group(no, b))
  {
    forall s, i: nat
      ensures Ways(Group(no, a), s, i) == Ways(Group(no, b), s, i)
    {
      assert AltsWays(a, s, i) == AltsWays(b, s, i);
    }
    hide Ways;
  }

  lemma AltsOneEquiv(e: Regex, f: Regex)
    requires Equiv(e, f)
    ensures AltsEquiv(One(e), One(f))
  {
    forall s, i: nat
      ensures AltsWays(One(e), s, i) == AltsWays(One(f), s, i)
    {
      EquivAt(e, f, s, i);
    }
    hide Ways, AltsWays;
  }

  lemma AltsMoreEquiv(a: Alts, b: Alts, e: Regex, f: Regex)
    requires AltsEquiv(a, b) && Equiv(e, f)
    ensures AltsEquiv(More(a, e), More(b, f))
  {
    forall s, i: nat
      ensures AltsWays(More(a, e), s, i) == AltsWays(More(b, f), s, i)
    {
      EquivAt(e, f, s, i);
      assert AltsWays(a, s, i) == AltsWays(b, s, i);
    }
    hide Ways, AltsWays;
  }

  lemma AltsEquivAt(a: Alts, b: Alts, s: seq<Byte>, i: nat)
    requires AltsEquiv(a, b)
    ensures AltsWays(a, s, i) == AltsWays(b, s, i)
  {
    hide AltsWays;
  }

  /** Alternatives with the same ways match the same. */
  lemma EquivMatch(a: Alts, b: Alts, s: seq<Byte>, i: nat, k: nat)
    requires AltsWellFormed(a) && AltsWellFormed(b) && AltsEquiv(a, b)
    ensures AltsMatch(a, s, i, k) <==> AltsMatch(b, s, i, k)
  {
    hide AltsWays, AltsMatch, AltsWellFormed, Leads;
    if i <= |s| {
      AltsWaysMatch(a, s, i, k);
      AltsWaysMatch(b, s, i, k);
    } else {
      if AltsMatch(a, s, i, k) { AltsMatchBounds(a, s, i, k); }
      if AltsMatch(b, s, i, k) { AltsMatchBounds(b, s, i, k); }
    }
  }

  // ----- a string is the concatenation of its characters -----

  function Letter(c: Byte): Regex {
    Chars(Exactly, [c])
  }

  /** The pieces `a` followed by one piece for every character of `cs`. */
  function Letters(a: Regex, cs: seq<Byte>): (r: Regex)
    requires WellFormed(a) && 0 !in cs
    ensures WellFormed(r)
    decreases |cs|
  {
    if cs == [] then a else Letters(Append(a, Letter(cs[0])), cs[1..])
  }

  lemma TextWays(cs: seq<Byte>, s: seq<Byte>, i: nat)
    ensures Ways(Chars(Exactly, cs), s, i)
            == if i + |cs| <= |s| && s[i..i + |cs|] == cs then [Way(i + |cs|, [])] else []
  {
  }

  /** One character and then the rest is the whole string. */
  lemma LetterThen(c: Byte, rest: seq<Byte>, s: seq<Byte>, i: nat)
    ensures ThenWays(Ways(Letter(c), s, i), Chars(Exactly, rest), s) == Ways(Chars(Exactly, [c] + rest), s, i)
  {
    hide Ways, ThenWays;
    TextWays([c], s, i);
    TextWays([c] + rest, s, i);
    ThenNone(Chars(Exactly, rest), s);
    if i < |s| && s[i..i + 1] == [c] {
      TextWays(rest, s, i + 1);
      ThenOne(Way(i + 1, []), Chars(Exactly, rest), s);
      AfterNone(Ways(Chars(Exactly, rest), s, i + 1));
    }
    TextSplit(c, rest, s, i);
  }

  lemma ThenNone(b: Regex, s: seq<Byte>)
    ensures ThenWays([], b, s) == []
  {
  }

  lemma TextSplit(c: Byte, rest: seq<Byte>, s: seq<Byte>, i: nat)
    ensures var n := 1 + |rest|;
            (i + n <= |s| && s[i..i + n] == [c] + rest) <==>
            (i + 1 <= |s| && s[i..i + 1] == [c] && i + n <= |s| && s[i + 1..i + n] == rest)
  {
    var n := 1 + |rest|;
    if i + n <= |s| {
      assert s[i..i + n] == s[i..i + 1] + s[i + 1..i + n];
      if s[i..i + n] == [c] + rest {
        assert s[i..i + 1] == s[i..i + n][..1] && s[i + 1..i + n] == s[i..i + n][1..];
      }
    }
  }

  /** After any ways, one character and then the rest is the whole string. */
  lemma {:induction false} LetterThenAll(ways: seq<Way>, c: Byte, rest: seq<Byte>, s: seq<Byte>)
    ensures ThenWays(ThenWays(ways, Letter(c), s), Chars(Exactly, rest), s)
            == ThenWays(ways, Chars(Exactly, [c] + rest), s)
    decreases |ways|
  {
    hide Ways, After;
    if ways != [] {
      var w, e := ways[0], Chars(Exactly, rest);
      LetterThenAll(ways[1..], c, rest, s);
      LetterThen(c, rest, s, w.end);
      ThenConcat(After(w.marks, Ways(Letter(c), s, w.end)), ThenWays(ways[1..], Letter(c), s), e, s);
      ThenAfter(w.marks, Ways(Letter(c), s, w.end), e, s);
    }
  }

  lemma AppendWays(a: Regex, e: Regex, s: seq<Byte>, i: nat)
    requires WellFormed(a) && WellFormed(e) && IsPiece(e)
    ensures Ways(Append(a, e), s, i) == if a.Empty? then Ways(e, s, i) else ThenWays(Ways(a, s, i), e, s)
  {
    hide ThenWays, WellFormed;
  }

  lemma AppendLetter(a: Regex, c: Byte, rest: seq<Byte>, s: seq<Byte>, i: nat)
    requires WellFormed(a) && c != 0 && rest != [] && 0 !in rest
    ensures Ways(Append(Append(a, Letter(c)), Chars(Exactly, rest)), s, i)
            == Ways(Append(a, Chars(Exactly, [c] + rest)), s, i)
  {
    hide Ways, ThenWays;
    AppendWays(a, Letter(c), s, i);
    AppendWays(Append(a, Letter(c)), Chars(Exactly, rest), s, i);
    AppendWays(a, Chars(Exactly, [c] + rest), s, i);
    if a.Empty? { LetterThen(c, rest, s, i); } else { LetterThenAll(Ways(a, s, i), c, rest, s); }
  }

  lemma {:induction false} LettersWays(a: Regex, cs: seq<Byte>, s: seq<Byte>, i: nat)
    requires WellFormed(a) && 0 !in cs && cs != []
    ensures Ways(Letters(a, cs), s, i) == Ways(Append(a, Chars(Exactly, cs)), s, i)
    ensures HasWidth(Letters(a, cs)) && !Letters(a, cs).Empty?
    decreases |cs|
  {
    hide Ways;
    var c, rest := cs[0], cs[1..];
    var b := Append(a, Letter(c));
    assert cs == [c] + rest;
    if rest == [] {
      assert Letters(a, cs) == Letters(b, []) == b;
      assert cs == [c];
    } else {
      LettersWays(b, rest, s, i);
      AppendLetter(a, c, rest, s, i);
      assert Letters(a, cs) == Letters(b, rest);
    }
  }

  lemma LettersEquiv(a: Regex, b: Regex, cs: seq<Byte>)
    requires WellFormed(a) && WellFormed(b) && Equiv(a, b) && 0 !in cs && cs != []
    ensures Equiv(Append(a, Chars(Exactly, cs)), Letters(b, cs))
  {
    hide Ways, WellFormed, Letters, HasWidth;
    var e := Chars(Exactly, cs);
    TextWellFormed(cs);
    TextWidth(a, cs);
    SameEquiv(e);
    AppendEquiv(a, b, e, e);
    forall s, i: nat
      ensures Ways(Append(a, e), s, i) == Ways(Letters(b, cs), s, i)
    {
      LettersWays(b, cs, s, i);
      EquivAt(Append(a, e), Append(b, e), s, i);
    }
    LettersWays(b, cs, [], 0);
  }

  lemma TextWellFormed(cs: seq<Byte>)
    requires 0 !in cs && cs != []
    ensures WellFormed(Chars(Exactly, cs))
  {
  }

  lemma TextWidth(a: Regex, cs: seq<Byte>)
    requires WellFormed(a) && 0 !in cs && cs != []
    ensures WellFormed(Chars(Exactly, cs)) && HasWidth(Append(a, Chars(Exactly, cs)))
    ensures !Append(a, Chars(Exactly, cs)).Empty?
  {
  }

  lemma SameEquiv(e: Regex)
    ensures Equiv(e, e)
  {
    hide Ways;
  }

  // ----- gathering characters -----

  /** A piece of one ordinary character, in the plain grammar, that no operator follows. */
  lemma LetterPiece(pat: CStr, p: nat, start: nat, npar: Pos, a: Regex)
    requires p < |pat| && StartsAt(pat, start, p) && WellFormed(a) && !IsMult(Peek(pat, p + 1))
    ensures ParsePieces(pat, start, npar, a, false) == ParsePieces(pat, p + 1, npar, Append(a, Letter(pat[p])), false)
  {
    assert pat[p] != 0;
    assert ParseAtom(pat, start, npar, false) == Ok(p + 1, npar, Letter(pat[p]));
    assert ParsePiece(pat, start, npar, false) == Ok(p + 1, npar, Letter(pat[p]));
  }

  /** The ordinary character at `p` is written from `start` on: by itself or after a backslash. */
  predicate StartsAt(pat: CStr, start: nat, p: nat)
    requires p < |pat|
  {
    if start == p then !IsMagic(pat[p]) && !IsMult(pat[p]) && pat[p] != Char('\\')
    else start + 1 == p && pat[start] == Char('\\') && !EndsQuote(pat[p])
  }

  /** What the gathering loop still adds is what the plain grammar reads there. */
  lemma {:induction false} GatherRest(pat: CStr, p: nat, prev: nat, acc: seq<Byte>, npar: Pos, a: Regex)
    requires p < |pat| && prev <= p && acc != [] && !IsMult(Peek(pat, prev)) && StartsAt(pat, prev, p) && WellFormed(a)
    requires 0 !in acc
    ensures var (q, cs) := ScanText(pat, p, prev, acc);
            && |acc| <= |cs| && cs[..|acc|] == acc && 0 !in cs
            && ParsePieces(pat, prev, npar, a, false) == ParsePieces(pat, q, npar, Letters(a, cs[|acc|..]), false)
    decreases |pat| - p
  {
    hide ParsePieces, Letters;
    assert pat[p] != 0;
    var chars, next := acc + [pat[p]], p + 1;
    var c := Peek(pat, next);
    var b := Append(a, Letter(pat[p]));
    if !IsMult(c) {
      LetterPiece(pat, p, prev, npar, a);
    }
    var (q, cs) := ScanText(pat, p, prev, acc);
    if IsMagic(c) || (c == Char('\\') && EndsQuote(Peek(pat, next + 1))) {
      GatherOne(a, pat[p], chars, acc);
    } else if IsMult(c) {
      assert cs[|acc|..] == [];
      NoLetters(a);
    } else if c == Char('\\') {
      GatherRest(pat, next + 1, next, chars, npar, b);
      GatherMore(a, pat[p], cs, acc);
    } else {
      GatherRest(pat, next, next, chars, npar, b);
      GatherMore(a, pat[p], cs, acc);
    }
  }

  lemma NoLetters(a: Regex)
    requires WellFormed(a)
    ensures Letters(a, []) == a
  {
  }

  lemma GatherOne(a: Regex, c: Byte, cs: seq<Byte>, acc: seq<Byte>)
    requires WellFormed(a) && c != 0 && cs == acc + [c]
    ensures cs[|acc|..] == [c] && Letters(a, [c]) == Append(a, Letter(c))
  {
    assert Letters(Append(a, Letter(c)), []) == Append(a, Letter(c));
    assert [c][1..] == [];
  }

  lemma GatherMore(a: Regex, c: Byte, cs: seq<Byte>, acc: seq<Byte>)
    requires WellFormed(a) && c != 0 && 0 !in cs && |acc| < |cs| && cs[..|acc| + 1] == acc + [c]
    ensures cs[..|acc|] == acc && Letters(a, cs[|acc|..]) == Letters(Append(a, Letter(c)), cs[|acc| + 1..])
  {
    assert cs[|acc|] == cs[..|acc| + 1][|acc|] == c;
    assert cs[|acc|..] == [c] + cs[|acc| + 1..];
    assert cs[..|acc|] == cs[..|acc| + 1][..|acc|] == acc;
  }

  /** A gathered string that no operator follows is, in the plain grammar, a run of letters. */
  lemma {:induction false} GatherText(pat: CStr, p: nat, start: nat, npar: Pos, a: Regex)
    requires p < |pat| && StartsAt(pat, start, p) && WellFormed(a)
    ensures var (q, cs) := ScanText(pat, p, -1, []);
            && 0 !in cs && cs != []
            && (IsMult(Peek(pat, q)) ==> q == p + 1 && cs == [pat[p]])
            && (!IsMult(Peek(pat, q)) ==>
                  ParsePieces(pat, start, npar, a, false) == ParsePieces(pat, q, npar, Letters(a, cs), false))
  {
    hide ParsePieces, Letters;
    assert pat[p] != 0;
    var next := p + 1;
    FirstChar(pat, p);
    var c := Peek(pat, next);
    var (q, cs) := ScanText(pat, p, -1, []);
    if !IsMult(c) {
      LetterPiece(pat, p, start, npar, a);
      if IsMagic(c) || (c == Char('\\') && EndsQuote(Peek(pat, next + 1))) {
        GatherOne(a, pat[p], cs, []);
      } else {
        var at := if c == Char('\\') then next + 1 else next;
        GatherRest(pat, at, next, [pat[p]], npar, Append(a, Letter(pat[p])));
        GatherMore(a, pat[p], cs, []);
        assert cs[0..] == cs;
      }
    }
  }

  /** Gathering starts with the first character and goes on if nothing magic follows it. */
  lemma FirstChar(pat: CStr, p: nat)
    requires p < |pat|
    ensures var r, next, c := ScanText(pat, p, -1, []), p + 1, Peek(pat, p + 1);
            if IsMagic(c) || IsMult(c) || (c == Char('\\') && EndsQuote(Peek(pat, next + 1))) then r == (next, [pat[p]])
            else r == ScanText(pat, if c == Char('\\') then next + 1 else next, next, [pat[p]])
  {
    assert [] + [pat[p]] == [pat[p]];
  }

  // ----- the two grammars agree -----

  /** Whether the pattern goes on with an ordinary character, and where that character stands. */
  function TextAt(pat: CStr, p: nat): (q: int)
    requires p < |pat|
    ensures q == -1 || (0 <= q < |pat| && StartsAt(pat, p, q))
  {
    if pat[p] == Char('\\') then if EndsQuote(Peek(pat, p + 1)) then -1 else p + 1
    else if IsMagic(pat[p]) || IsMult(pat[p]) then -1
    else p
  }

  lemma TextAtom(pat: CStr, p: nat, npar: Pos, joined: bool)
    requires p < |pat| && TextAt(pat, p) >= 0
    ensures ParseAtom(pat, p, npar, joined) == ParseText(pat, TextAt(pat, p), npar, joined)
  {
  }

  lemma {:induction false} AtomsAgree(pat: CStr, p: nat, npar: Pos)
    requires p < |pat| && TextAt(pat, p) < 0
    ensures Agree(ParseAtom(pat, p, npar, true), ParseAtom(pat, p, npar, false))
    decreases |pat| - p, 1
  {
    if pat[p] == Char('(') {
      RegsAgree(pat, p + 1, npar, true);
      var r, q := ParseReg(pat, p + 1, npar, true, true), ParseReg(pat, p + 1, npar, true, false);
      if r.Ok? {
        GroupEquiv(npar, r.tree, q.tree);
      }
    }
  }

  lemma {:induction false} PiecesAgree(pat: CStr, p: nat, npar: Pos, a: Regex, b: Regex)
    requires p <= |pat| && WellFormed(a) && WellFormed(b) && Equiv(a, b)
    ensures Agree(ParsePieces(pat, p, npar, a, true), ParsePieces(pat, p, npar, b, false))
    decreases |pat| - p, 3
  {
    hide Equiv, ParseAtom, WellFormed;
    if !EndsBranch(Peek(pat, p)) {
      var t := TextAt(pat, p);
      if t >= 0 && !IsMult(Peek(pat, ScanText(pat, t, -1, []).0)) {
        TextAgrees(pat, p, npar, a, b);
      } else {
        PieceAgrees(pat, p, npar);
        var r, q := ParsePiece(pat, p, npar, true), ParsePiece(pat, p, npar, false);
        if r.Ok? {
          AppendEquiv(a, b, r.tree, q.tree);
          PiecesAgree(pat, r.pos, r.npar, Append(a, r.tree), Append(b, q.tree));
        }
      }
    }
  }

  lemma {:induction false} TextAgrees(pat: CStr, p: nat, npar: Pos, a: Regex, b: Regex)
    requires p < |pat| && WellFormed(a) && WellFormed(b) && Equiv(a, b) && !EndsBranch(pat[p]) && TextAt(pat, p) >= 0
    requires !IsMult(Peek(pat, ScanText(pat, TextAt(pat, p), -1, []).0))
    ensures Agree(ParsePieces(pat, p, npar, a, true), ParsePieces(pat, p, npar, b, false))
    decreases |pat| - p, 2
  {
    hide Equiv;
    var t := TextAt(pat, p);
    var (q, cs) := ScanText(pat, t, -1, []);
    TextAtom(pat, p, npar, true);
    GatherText(pat, t, p, npar, b);
    LettersEquiv(a, b, cs);
    PiecesAgree(pat, q, npar, Append(a, Chars(Exactly, cs)), Letters(b, cs));
  }

  /** Pieces other than gathered strings, and strings that an operator follows. */
  lemma {:induction false} PieceAgrees(pat: CStr, p: nat, npar: Pos)
    requires p < |pat|
    requires TextAt(pat, p) < 0 || IsMult(Peek(pat, ScanText(pat, TextAt(pat, p), -1, []).0))
    ensures Agree(ParsePiece(pat, p, npar, true), ParsePiece(pat, p, npar, false))
    decreases |pat| - p, 2
  {
    hide ParseAtom, Equiv;
    var t := TextAt(pat, p);
    if t < 0 {
      AtomsAgree(pat, p, npar);
    } else {
      TextAtom(pat, p, npar, true);
      TextAtom(pat, p, npar, false);
      GatherText(pat, t, p, npar, Empty);
      SameEquiv(Letter(pat[t]));
    }
    var r, q := ParseAtom(pat, p, npar, true), ParseAtom(pat, p, npar, false);
    if r.Ok? && IsMult(Peek(pat, r.pos)) {
      EquivWidth(r.tree, q.tree);
      RepeatEquiv(Peek(pat, r.pos), r.tree, q.tree);
    }
  }

  lemma {:induction false} MoreAltsAgree(pat: CStr, p: nat, npar: Pos, a: Alts, b: Alts)
    requires p <= |pat| && AltsWellFormed(a) && AltsWellFormed(b) && AltsEquiv(a, b)
    ensures AltsAgree(ParseMoreAlts(pat, p, npar, a, true), ParseMoreAlts(pat, p, npar, b, false))
    decreases |pat| - p, 4
  {
    hide AltsEquiv, Equiv, ParsePieces;
    if IsBar(Peek(pat, p)) {
      SameEquiv(Empty);
      PiecesAgree(pat, p + 1, npar, Empty, Empty);
      var r, q := ParsePieces(pat, p + 1, npar, Empty, true), ParsePieces(pat, p + 1, npar, Empty, false);
      if r.Ok? {
        AltsMoreEquiv(a, b, r.tree, q.tree);
        MoreAltsAgree(pat, r.pos, r.npar, More(a, r.tree), More(b, q.tree));
      }
    }
  }

  lemma {:induction false} RegsAgree(pat: CStr, p: nat, npar: Pos, paren: bool)
    requires p <= |pat|
    ensures AltsAgree(ParseReg(pat, p, npar, paren, true), ParseReg(pat, p, npar, paren, false))
    decreases |pat| - p, 6
  {
    hide AltsEquiv, Equiv, ParsePieces;
    if !(paren && npar >= NSUBEXP) {
      var n: Pos := if paren then npar + 1 else npar;
      SameEquiv(Empty);
      PiecesAgree(pat, p, n, Empty, Empty);
      var r, q := ParsePieces(pat, p, n, Empty, true), ParsePieces(pat, p, n, Empty, false);
      if r.Ok? {
        AltsOneEquiv(r.tree, q.tree);
        MoreAltsAgree(pat, r.pos, r.npar, One(r.tree), One(q.tree));
      }
    }
  }

  /** Gathering characters changes neither which patterns are accepted nor what they mean. */
  lemma GatheringPreservesMeaning(pat: CStr)
    ensures AltsAgree(Parse(pat, true), Parse(pat, false))
  {
    RegsAgree(pat, 0, 1, false);
  }
}
