/**
 Regular expressions of the libtcl regexp package: the syntax tree of a
 pattern, the flags the compiler derives from it, and the set of substrings
 it denotes.
 */
module RegexpSyntax {

  type Byte = b: int | 0 <= b < 256

  /** Groups are numbered 1 to 9. */
  const NSUBEXP := 10

  /** Constructs that occupy one operandless node. */
  datatype Test = Bol | Eol | WordStart | WordEnd | AnyChar

  /** Constructs whose node is followed by a character string. */
  datatype Kind = Exactly | AnyOf | AnyBut

  /**
   A piece or a concatenation of pieces.  Concatenation is built to the left,
   in the order in which the compiler meets the pieces; `Empty` is the branch
   without pieces.
   */
  datatype Regex =
    | Leaf(test: Test)
    | Chars(kind: Kind, cs: seq<Byte>)
    | Empty
    | Group(no: nat, alts: Alts)
    | Star(r: Regex)
    | Plus(r: Regex)
    | Opt(r: Regex)
    | Cat(init: Regex, last: Regex)

  /** A nonempty list of alternatives, built to the left. */
  datatype Alts = One(b: Regex) | More(init: Alts, b: Regex)

  // ----- flags (HASWIDTH, SIMPLE, SPSTART) -----

  predicate HasWidth(e: Regex) {
    match e
    case Leaf(t) => t.AnyChar?
    case Chars(_, _) => true
    case Empty => false
    case Group(_, a) => AltsHaveWidth(a)
    case Star(_) => false
    case Plus(_) => true
    case Opt(_) => false
    case Cat(a, b) => HasWidth(a) || HasWidth(b)
  }

  predicate AltsHaveWidth(a: Alts) {
    match a
    case One(b) => HasWidth(b)
    case More(i, b) => AltsHaveWidth(i) && HasWidth(b)
  }

  predicate SpStart(e: Regex) {
    match e
    case Leaf(_) => false
    case Chars(_, _) => false
    case Empty => false
    case Group(_, a) => AltsSpStart(a)
    case Star(_) => true
    case Plus(_) => false
    case Opt(_) => true
    case Cat(a, _) => SpStart(a)
  }

  predicate AltsSpStart(a: Alts) {
    match a
    case One(b) => SpStart(b)
    case More(i, b) => AltsSpStart(i) || SpStart(b)
  }

  /** Simple enough to be the operand of a STAR or PLUS node: one character per match. */
  predicate Simple(e: Regex) {
    match e
    case Leaf(t) => t.AnyChar?
    case Chars(k, cs) => k != Exactly || |cs| == 1
    case _ => false
  }

  /** A piece: anything but a concatenation or the empty branch. */
  predicate IsPiece(e: Regex) {
    !e.Cat? && !e.Empty?
  }

  /**
   What the parser guarantees of the trees it builds: strings are nonempty and
   free of NUL, group numbers are 1..9, and the operand of `*` and `+` is an
   atom that cannot match the empty string.
   */
  predicate WellFormed(e: Regex) {
    match e
    case Leaf(_) => true
    case Chars(_, cs) => |cs| > 0 && 0 !in cs
    case Empty => true
    case Group(no, a) => 1 <= no < 10 && AltsWellFormed(a)
    case Star(r) => IsPiece(r) && HasWidth(r) && WellFormed(r)
    case Plus(r) => IsPiece(r) && HasWidth(r) && WellFormed(r)
    case Opt(r) => IsPiece(r) && WellFormed(r)
    case Cat(a, b) => !a.Empty? && IsPiece(b) && WellFormed(a) && WellFormed(b)
  }

  predicate AltsWellFormed(a: Alts) {
    match a
    case One(b) => WellFormed(b)
    case More(i, b) => AltsWellFormed(i) && WellFormed(b)
  }

  /** No `*` follows a simple operand, so no STAR node is emitted. */
  predicate Starless(e: Regex) {
    match e
    case Leaf(_) => true
    case Chars(_, _) => true
    case Empty => true
    case Group(_, a) => AltsStarless(a)
    case Star(r) => !Simple(r) && Starless(r)
    case Plus(r) => Starless(r)
    case Opt(r) => Starless(r)
    case Cat(a, b) => Starless(a) && Starless(b)
  }

  predicate AltsStarless(a: Alts) {
    match a
    case One(b) => Starless(b)
    case More(i, b) => AltsStarless(i) && Starless(b)
  }

  // ----- denotation -----

  predicate IsWordChar(c: Byte) {
    || 'a' as int <= c <= 'z' as int
    || 'A' as int <= c <= 'Z' as int
    || '0' as int <= c <= '9' as int
    || c >= 0xC0
    || c == '_' as int
  }

  /** The test holds of subject `s` between positions `i` and `k`. */
  predicate TestHolds(t: Test, s: seq<Byte>, i: nat, k: nat) {
    match t
    case Bol => i == k == 0
    case Eol => i == k == |s|
    case WordStart => i == k < |s| && IsWordChar(s[i]) && (i > 0 ==> !IsWordChar(s[i - 1]))
    case WordEnd => i == k <= |s| && (i < |s| ==> !IsWordChar(s[i]))
    case AnyChar => i < |s| && k == i + 1
  }

  predicate CharsHold(kind: Kind, cs: seq<Byte>, s: seq<Byte>, i: nat, k: nat) {
    match kind
    case Exactly => i <= k <= |s| && s[i..k] == cs
    case AnyOf => i < |s| && k == i + 1 && s[i] in cs
    case AnyBut => i < |s| && k == i + 1 && s[i] !in cs
  }

  /** `e` matches `s` from position `i` up to position `k`. */
  ghost predicate Matches(e: Regex, s: seq<Byte>, i: nat, k: nat)
    decreases e, 0
  {
    match e
    case Leaf(t) => TestHolds(t, s, i, k)
    case Chars(kind, cs) => CharsHold(kind, cs, s, i, k)
    case Empty => i == k <= |s|
    case Group(_, a) => AltsMatch(a, s, i, k)
    case Star(r) => exists n: nat :: Repeats(r, n, s, i, k)
    case Plus(r) => exists n: nat :: n > 0 && Repeats(r, n, s, i, k)
    case Opt(r) => i == k <= |s| || Matches(r, s, i, k)
    case Cat(a, b) => exists m: nat :: Matches(a, s, i, m) && Matches(b, s, m, k)
  }

  /** `n` consecutive matches of `r` lead from `i` to `k`. */
  ghost predicate Repeats(r: Regex, n: nat, s: seq<Byte>, i: nat, k: nat)
    decreases r, n + 1
  {
    if n == 0 then i == k <= |s|
    else exists m: nat :: Matches(r, s, i, m) && Repeats(r, n - 1, s, m, k)
  }

  ghost predicate AltsMatch(a: Alts, s: seq<Byte>, i: nat, k: nat)
    decreases a, 0
  {
    match a
    case One(b) => Matches(b, s, i, k)
    case More(init, b) => AltsMatch(init, s, i, k) || Matches(b, s, i, k)
  }

  lemma Trips(e: Regex, s: seq<Byte>, i: nat, k: nat) returns (c: nat)
    requires (e.Star? || e.Plus?) && Matches(e, s, i, k)
    ensures (e.Plus? ==> c > 0) && Repeats(e.r, c, s, i, k)
  {
    match e
    case Star(r) => c :| Repeats(r, c, s, i, k);
    case Plus(r) => c :| c > 0 && Repeats(r, c, s, i, k);
  }

  lemma TripsMatch(e: Regex, c: nat, s: seq<Byte>, i: nat, k: nat)
    requires (e.Star? || (e.Plus? && c > 0)) && Repeats(e.r, c, s, i, k)
    ensures Matches(e, s, i, k)
  {
    hide Repeats;
  }

  lemma OptMatches(r: Regex, s: seq<Byte>, i: nat, k: nat)
    ensures Matches(Opt(r), s, i, k) <==> Matches(r, s, i, k) || i == k <= |s|
  {
  }

  lemma CatSplit(a: Regex, e: Regex, s: seq<Byte>, i: nat, k: nat) returns (m: nat)
    requires Matches(Cat(a, e), s, i, k)
    ensures Matches(a, s, i, m) && Matches(e, s, m, k)
  {
    m :| Matches(a, s, i, m) && Matches(e, s, m, k);
  }

  lemma CatJoin(a: Regex, b: Regex, s: seq<Byte>, i: nat, m: nat, k: nat)
    requires Matches(a, s, i, m) && Matches(b, s, m, k)
    ensures Matches(Cat(a, b), s, i, k)
  {
  }

  lemma FirstTrip(r: Regex, n: nat, s: seq<Byte>, i: nat, k: nat) returns (m: nat)
    requires n > 0 && Repeats(r, n, s, i, k)
    ensures Matches(r, s, i, m) && Repeats(r, n - 1, s, m, k) && (n == 1 ==> m == k)
  {
    m :| Matches(r, s, i, m) && Repeats(r, n - 1, s, m, k);
  }

  lemma StarMore(r: Regex, s: seq<Byte>, i: nat, m: nat, k: nat)
    requires Matches(r, s, i, m) && Matches(Star(r), s, m, k)
    ensures Matches(Star(r), s, i, k) && Matches(Plus(r), s, i, k)
  {
    hide Matches;
    var n := Trips(Star(r), s, m, k);
    Looped(r, n + 1, s, i, k, m);
  }

  lemma Looped(r: Regex, n: nat, s: seq<Byte>, i: nat, k: nat, m: nat)
    requires n > 0 && Matches(r, s, i, m) && Repeats(r, n - 1, s, m, k)
    ensures Matches(Star(r), s, i, k) && Matches(Plus(r), s, i, k)
  {
    assert Repeats(r, n, s, i, k);
  }

  lemma StarNone(r: Regex, s: seq<Byte>, i: nat)
    requires i <= |s|
    ensures Matches(Star(r), s, i, i)
  {
    assert Repeats(r, 0, s, i, i);
  }

  lemma PlusIsStar(r: Regex, s: seq<Byte>, i: nat, k: nat)
    requires Matches(Plus(r), s, i, k)
    ensures Matches(Star(r), s, i, k)
  {
    hide Matches;
    var n := Trips(Plus(r), s, i, k);
    var m := FirstTrip(r, n, s, i, k);
    Looped(r, n, s, i, k, m);
  }

  // ----- HASWIDTH is sound -----

  lemma {:induction false} MatchBounds(e: Regex, s: seq<Byte>, i: nat, k: nat)
    requires Matches(e, s, i, k)
    ensures i <= k <= |s|
    decreases e, 0
  {
    match e
    case Leaf(_) =>
    case Chars(_, _) =>
    case Empty =>
    case Group(_, a) => AltsMatchBounds(a, s, i, k);
    case Star(r) =>
      var n: nat :| Repeats(r, n, s, i, k);
      RepeatBounds(r, n, s, i, k);
    case Plus(r) =>
      var n: nat :| n > 0 && Repeats(r, n, s, i, k);
      RepeatBounds(r, n, s, i, k);
    case Opt(r) =>
      if Matches(r, s, i, k) { MatchBounds(r, s, i, k); }
    case Cat(a, b) =>
      var m: nat :| Matches(a, s, i, m) && Matches(b, s, m, k);
      MatchBounds(a, s, i, m);
      MatchBounds(b, s, m, k);
  }

  lemma {:induction false} RepeatBounds(r: Regex, n: nat, s: seq<Byte>, i: nat, k: nat)
    requires Repeats(r, n, s, i, k)
    ensures i <= k <= |s|
    decreases r, n + 1
  {
    if n > 0 {
      var m: nat :| Matches(r, s, i, m) && Repeats(r, n - 1, s, m, k);
      MatchBounds(r, s, i, m);
      RepeatBounds(r, n - 1, s, m, k);
    }
  }

  lemma {:induction false} AltsMatchBounds(a: Alts, s: seq<Byte>, i: nat, k: nat)
    requires AltsMatch(a, s, i, k)
    ensures i <= k <= |s|
    decreases a, 0
  {
    match a
    case One(b) => MatchBounds(b, s, i, k);
    case More(init, b) =>
      if AltsMatch(init, s, i, k) { AltsMatchBounds(init, s, i, k); } else { MatchBounds(b, s, i, k); }
  }

  /** A construct flagged HASWIDTH never matches the empty string. */
  lemma {:induction false} HasWidthSound(e: Regex, s: seq<Byte>, i: nat, k: nat)
    requires WellFormed(e) && HasWidth(e) && Matches(e, s, i, k)
    ensures i < k
    decreases e, 0
  {
    MatchBounds(e, s, i, k);
    match e
    case Leaf(_) =>
    case Chars(_, _) =>
    case Group(_, a) => AltsHaveWidthSound(a, s, i, k);
    case Plus(r) =>
      var n: nat :| n > 0 && Repeats(r, n, s, i, k);
      LoopsConsume(r, n, s, i, k);
    case Cat(a, b) =>
      var m: nat :| Matches(a, s, i, m) && Matches(b, s, m, k);
      MatchBounds(a, s, i, m);
      MatchBounds(b, s, m, k);
      if HasWidth(a) { HasWidthSound(a, s, i, m); } else { HasWidthSound(b, s, m, k); }
  }

  lemma {:induction false} AltsHaveWidthSound(a: Alts, s: seq<Byte>, i: nat, k: nat)
    requires AltsWellFormed(a) && AltsHaveWidth(a) && AltsMatch(a, s, i, k)
    ensures i < k
    decreases a, 0
  {
    match a
    case One(b) => HasWidthSound(b, s, i, k);
    case More(init, b) =>
      if AltsMatch(init, s, i, k) { AltsHaveWidthSound(init, s, i, k); } else { HasWidthSound(b, s, i, k); }
  }

  /** Every trip round a loop consumes input, so the trips number at most the characters consumed. */
  lemma {:induction false} LoopsConsume(r: Regex, n: nat, s: seq<Byte>, i: nat, k: nat)
    requires WellFormed(r) && HasWidth(r) && Repeats(r, n, s, i, k)
    ensures i + n <= k <= |s|
    decreases r, n + 1
  {
    if n > 0 {
      var m: nat :| Matches(r, s, i, m) && Repeats(r, n - 1, s, m, k);
      HasWidthSound(r, s, i, m);
      LoopsConsume(r, n - 1, s, m, k);
    }
  }
}
