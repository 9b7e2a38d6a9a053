/**
 Patterns of grep(1): their meaning, the byte codes they are compiled to, and
 the greedy backtracking search that interprets the codes.
 */
module Grep {

  const STAR := 1
  const CBRA := 1
  const CCHR := 2
  const CDOT := 4
  const CCL := 6
  const CDOL := 10
  const CEOF := 11
  const CKET := 12
  const ESIZE := 256
  const NBRA := 9

  // ----- patterns and their meaning -----

  datatype Atom = Chr(c: char) | Dot | Class(chars: set<char>) | Dol | Open(n: nat) | Close(n: nat)

  datatype Item = Item(atom: Atom, starred: bool)

  /** Atoms that stand for one character. */
  predicate IsSingle(a: Atom) {
    a.Chr? || a.Dot? || a.Class?
  }

  /** What a pattern may hold: characters of seven bits, no null character, stars on single characters only. */
  predicate WellFormed(x: Item) {
    && (x.starred ==> IsSingle(x.atom))
    && (x.atom.Chr? ==> 0 < x.atom.c as int < 128)
    && (x.atom.Class? ==> forall c :: c in x.atom.chars ==> 0 < c as int < 128)
  }

  /** Does a single-character atom stand for c? Classes look at seven bits of it. */
  predicate Fits(a: Atom, c: char) {
    match a
    case Chr(d) => c == d
    case Dot => true
    case Class(chars) => (c as int % 128) as char in chars
    case _ => false
  }

  /** The item matches the characters i..k of a line. */
  ghost predicate ItemMatches(x: Item, s: string, i: nat, k: nat) {
    if x.starred then i <= k <= |s| && forall m :: i <= m < k ==> Fits(x.atom, s[m])
    else if IsSingle(x.atom) then i < |s| && k == i + 1 && Fits(x.atom, s[i])
    else k == i <= |s| && (x.atom.Dol? ==> i == |s|)
  }

  /** The items match i..j of a line, one after the other. */
  ghost predicate Matches(e: seq<Item>, s: string, i: nat, j: nat) {
    if e == [] then i == j
    else exists k :: ItemMatches(e[0], s, i, k) && Matches(e[1..], s, k, j)
  }

  ghost predicate Accepts(e: seq<Item>, s: string, i: nat) {
    exists j :: Matches(e, s, i, j)
  }

  lemma AcceptsNone(s: string, i: nat)
    ensures Accepts([], s, i)
  {
    assert Matches([], s, i, i);
  }

  lemma AcceptsStep(e: seq<Item>, s: string, i: nat, k: nat)
    requires e != [] && ItemMatches(e[0], s, i, k) && Accepts(e[1..], s, k)
    ensures Accepts(e, s, i)
  {
    var j :| Matches(e[1..], s, k, j);
    assert Matches(e, s, i, j);
  }

  lemma AcceptsSplit(e: seq<Item>, s: string, i: nat) returns (k: nat)
    requires e != [] && Accepts(e, s, i)
    ensures ItemMatches(e[0], s, i, k) && Accepts(e[1..], s, k)
  {
    var j :| Matches(e, s, i, j);
    k :| ItemMatches(e[0], s, i, k) && Matches(e[1..], s, k, j);
  }

  /** An item without a star matches in one way at most. */
  lemma AcceptsOne(e: seq<Item>, s: string, i: nat, k: nat)
    requires e != [] && !e[0].starred && k == (if IsSingle(e[0].atom) then i + 1 else i)
    ensures Accepts(e, s, i) <==> ItemMatches(e[0], s, i, k) && Accepts(e[1..], s, k)
  {
    if Accepts(e, s, i) {
      var m := AcceptsSplit(e, s, i);
    } else if ItemMatches(e[0], s, i, k) && Accepts(e[1..], s, k) {
      AcceptsStep(e, s, i, k);
    }
  }

  /** An item with a star matches up to every position from i to the first character it does not fit. */
  lemma AcceptsStar(e: seq<Item>, s: string, i: nat, top: nat)
    requires e != [] && e[0].starred && i <= top <= |s|
    requires forall m :: i <= m < top ==> Fits(e[0].atom, s[m])
    requires top < |s| ==> !Fits(e[0].atom, s[top])
    ensures Accepts(e, s, i) <==> exists k :: i <= k <= top && Accepts(e[1..], s, k)
  {
    if Accepts(e, s, i) {
      var k := AcceptsSplit(e, s, i);
      assert k <= top;
    }
    if exists k :: i <= k <= top && Accepts(e[1..], s, k) {
      var k :| i <= k <= top && Accepts(e[1..], s, k);
      AcceptsStep(e, s, i, k);
    }
  }

  /** A pattern that starts with a character only matches where that character is. */
  lemma AcceptsChr(e: seq<Item>, s: string, i: nat)
    requires e != [] && e[0].atom.Chr? && !e[0].starred && Accepts(e, s, i)
    ensures i < |s| && s[i] == e[0].atom.c
  {
    var k := AcceptsSplit(e, s, i);
  }

  // ----- bit maps -----

  /** Bit k of a byte. */
  predicate HasBit(b: nat, k: nat) {
    if k == 0 then b % 2 == 1 else HasBit(b / 2, k - 1)
  }

  function SetBit(b: nat, k: nat): nat {
    if k == 0 then b - b % 2 + 1 else 2 * SetBit(b / 2, k - 1) + b % 2
  }

  function Bits(n: nat): nat {
    if n == 0 then 1 else 2 * Bits(n - 1)
  }

  lemma {:induction false} SetBitSize(b: nat, k: nat, n: nat)
    requires b < Bits(n) && k < n
    ensures SetBit(b, k) < Bits(n)
  {
    hide Bits;
    BitsTwice(n);
    EvenBound(b, Bits(n - 1));
    if k > 0 { SetBitSize(b / 2, k - 1, n - 1); }
  }

  lemma BitsTwice(n: nat)
    requires n > 0
    ensures Bits(n) == 2 * Bits(n - 1)
  {
  }

  lemma EvenBound(b: nat, p: nat)
    requires b < 2 * p
    ensures b / 2 < p && b - b % 2 + 1 < 2 * p
  {
  }

  lemma {:induction false} SetBitHas(b: nat, k: nat, j: nat)
    ensures HasBit(SetBit(b, k), j) <==> j == k || HasBit(b, j)
  {
    if k == 0 {
      assert SetBit(b, k) == b - b % 2 + 1;
      assert (b - b % 2 + 1) / 2 == b / 2;
    } else {
      Halves(SetBit(b / 2, k - 1), b % 2);
      if j > 0 { SetBitHas(b / 2, k - 1, j - 1); }
    }
  }

  lemma Halves(a: nat, r: nat)
    requires r < 2
    ensures (2 * a + r) / 2 == a && (2 * a + r) % 2 == r
  {
  }

  lemma {:induction false} FlippedBits(b: nat, j: nat, n: nat)
    requires b < Bits(n) && j < n
    ensures HasBit(Bits(n) - 1 - b, j) <==> !HasBit(b, j)
  {
    if j > 0 {
      assert (Bits(n) - 1 - b) / 2 == Bits(n - 1) - 1 - b / 2;
      FlippedBits(b / 2, j - 1, n - 1);
    }
  }

  lemma {:induction false} ClearedBit(b: nat, j: nat)
    ensures HasBit(b - b % 2, j) <==> j > 0 && HasBit(b, j)
  {
    if j > 0 {
      assert (b - b % 2) / 2 == b / 2;
    }
  }

  ghost predicate IsMap(m: seq<nat>) {
    |m| == 16 && forall i :: 0 <= i < 16 ==> m[i] < 256
  }

  /** Is c marked in a map of 128 bits? */
  predicate InMap(m: seq<nat>, c: nat)
    requires |m| == 16 && c < 128
  {
    HasBit(m[c / 8], c % 8)
  }

  /** The map marks exactly the characters of a class. */
  ghost predicate MapOf(m: seq<nat>, chars: set<char>) {
    IsMap(m) && (forall c: nat :: c < 128 ==> (InMap(m, c) <==> c as char in chars))
    && forall c :: c in chars ==> c as int < 128
  }

  function MarkIn(m: seq<nat>, c: nat): seq<nat>
    requires |m| == 16 && c < 128
  {
    m[c / 8 := SetBit(m[c / 8], c % 8)]
  }

  lemma MarkInMap(m: seq<nat>, chars: set<char>, c: nat)
    requires MapOf(m, chars) && c < 128
    ensures MapOf(MarkIn(m, c), chars + {c as char})
  {
    var n := MarkIn(m, c);
    assert Bits(8) == 256;
    SetBitSize(m[c / 8], c % 8, 8);
    forall d: nat | d < 128
      ensures InMap(n, d) <==> d as char in chars + {c as char}
    {
      SetBitHas(m[c / 8], c % 8, d % 8);
      assert InMap(m, d) <==> d as char in chars;
      assert (d as char) as int == d && (c as char) as int == c;
      assert d == c <==> d / 8 == c / 8 && d % 8 == c % 8;
    }
  }

  lemma NothingIn(b: nat, k: nat)
    requires b == 0
    ensures !HasBit(b, k)
  {
    if k > 0 { NothingIn(b / 2, k - 1); }
  }

  lemma EmptyMap(m: seq<nat>)
    requires |m| == 16 && forall i :: 0 <= i < 16 ==> m[i] == 0
    ensures MapOf(m, {})
  {
    forall c: nat | c < 128
      ensures !InMap(m, c)
    {
      NothingIn(m[c / 8], c % 8);
    }
  }

  /** All characters of seven bits but the null character and those in a class. */
  ghost function Others(chars: set<char>): set<char> {
    set c: char | 0 < c as int < 128 && c !in chars
  }

  // ----- codes -----

  function Op(a: Atom): nat {
    match a
    case Chr(_) => CCHR
    case Dot => CDOT
    case Class(_) => CCL
    case Dol => CDOL
    case Open(_) => CBRA
    case Close(_) => CKET
  }

  function Size(a: Atom): nat {
    match a
    case Chr(_) => 2
    case Dot => 1
    case Class(_) => 17
    case Dol => 1
    case Open(_) => 2
    case Close(_) => 2
  }

  /** Where the code of item n starts. */
  function Offset(e: seq<Item>, n: nat): nat
    requires n <= |e|
  {
    if n == 0 then 0 else Offset(e, n - 1) + Size(e[n - 1].atom)
  }

  /** The code of an item starts at ep. */
  ghost predicate ItemAt(code: seq<nat>, ep: nat, x: Item) {
    && WellFormed(x) && ep + Size(x.atom) <= |code|
    && code[ep] == Op(x.atom) + (if x.starred then STAR else 0)
    && (x.atom.Chr? ==> code[ep + 1] == x.atom.c as int)
    && (x.atom.Class? ==> MapOf(code[ep + 1..ep + 17], x.atom.chars))
  }

  ghost predicate Encoded(code: seq<nat>, e: seq<Item>) {
    forall n :: 0 <= n < |e| ==> ItemAt(code, Offset(e, n), e[n])
  }

  /** The code of a pattern, and its end. */
  ghost predicate Compiled(code: seq<nat>, e: seq<Item>) {
    Encoded(code, e) && Offset(e, |e|) < |code| && code[Offset(e, |e|)] == CEOF
  }

  function OpSize(op: nat): nat {
    if op == CDOT || op == CDOT + STAR || op == CDOL then 1
    else if op == CCL || op == CCL + STAR then 17
    else 2
  }

  /** What the code tells about item n. */
  lemma CodeAt(code: seq<nat>, e: seq<Item>, n: nat)
    requires Compiled(code, e) && n <= |e|
    ensures Offset(e, n) < |code|
    ensures code[Offset(e, n)] == CEOF <==> n == |e|
    ensures n < |e| ==>
              var op, x := code[Offset(e, n)], e[n];
              && ItemAt(code, Offset(e, n), x) && Offset(e, n + 1) == Offset(e, n) + OpSize(op)
              && op == Op(x.atom) + (if x.starred then STAR else 0) && (x.starred ==> IsSingle(x.atom))
  {
  }

  lemma RestOf(e: seq<Item>, n: nat)
    requires n < |e|
    ensures e[n..] != [] && e[n..][0] == e[n] && e[n..][1..] == e[n + 1..]
  {
  }

  // ----- the grammar of patterns -----

  /**
   What a pattern is: items, an error, one whose reading runs past its end, or one
   with word anchors or back references.
   */
  datatype Outcome = Ok(items: seq<Item>) | Error | Beyond | Other

  datatype ClassOutcome = ClassOk(chars: set<char>, next: nat) | ClassError | ClassBeyond

  predicate Is7Bit(s: string) {
    forall i :: 0 <= i < |s| ==> 0 < s[i] as int < 128
  }

  /** A range of characters; a range that ends before it starts has only its first character. */
  ghost function Range(lo: char, hi: char): set<char> {
    {lo} + set c: char | Between(lo, c, hi)
  }

  predicate Between(lo: char, c: char, hi: char) {
    lo as int <= c as int <= hi as int
  }

  predicate IsRange(pat: string, first: nat, k: nat)
    requires k < |pat|
  {
    pat[k] == '-' && k > first && !(k + 1 < |pat| && pat[k + 1] == ']')
  }

  /** The characters of a class from position k on, up to its closing bracket; `first` is where the class starts. */
  ghost function ClassFrom(pat: string, first: nat, k: nat, seen: set<char>): ClassOutcome
    requires first <= k
    decreases |pat| - k
  {
    if k >= |pat| then ClassError
    else if IsRange(pat, first, k) && k + 1 == |pat| then ClassBeyond
    else
      var q := if IsRange(pat, first, k) then k + 2 else k + 1;
      var more := seen + if IsRange(pat, first, k) then Range(pat[k - 1], pat[k + 1]) else {pat[k]};
      if q < |pat| && pat[q] == ']' then ClassOk(more, q + 1) else ClassFrom(pat, first, q, more)
  }

  /** A class after its opening bracket, which is negated by a circumflex. */
  ghost function ParseClass(pat: string, i: nat): ClassOutcome {
    if i < |pat| && pat[i] == '^' then
      var o := ClassFrom(pat, i + 1, i + 1, {});
      if o.ClassOk? then ClassOk(Others(o.chars), o.next) else o
    else ClassFrom(pat, i, i, {})
  }

  lemma {:induction false} ClassAdvances(pat: string, first: nat, k: nat, seen: set<char>)
    requires first <= k
    ensures var o := ClassFrom(pat, first, k, seen); o.ClassOk? ==> k < o.next <= |pat|
    decreases |pat| - k
  {
    if k < |pat| && !(IsRange(pat, first, k) && k + 1 == |pat|) {
      var q := if IsRange(pat, first, k) then k + 2 else k + 1;
      var more := seen + if IsRange(pat, first, k) then Range(pat[k - 1], pat[k + 1]) else {pat[k]};
      ClassAdvances(pat, first, q, more);
    }
  }

  function AfterStars(pat: string, i: nat): (j: nat)
    ensures i <= j && (i <= |pat| ==> j <= |pat|) && (j > i ==> i < |pat|)
    decreases |pat| - i
  {
    if i < |pat| && pat[i] == '*' then AfterStars(pat, i + 1) else i
  }

  ghost function Prepend(e: seq<Item>, o: Outcome): Outcome {
    if o.Ok? then Ok(e + o.items) else o
  }

  /** One token of a pattern: an atom and where it ends; stars may follow a single character. */
  datatype Token = Token(atom: Atom, next: nat, starrable: bool) | BadToken | TokenBeyond | TokenOther

  /** The token at i, with groups numbered from numbra on and the groups in `open` not yet closed. */
  ghost function TokenAt(pat: string, i: nat, size: nat, numbra: nat, open: seq<nat>): (t: Token)
    requires i < |pat|
    ensures t.Token? ==> i < t.next <= |pat|
  {
    var c := pat[i];
    if c == '*' then Token(Chr('*'), i + 1, false)
    else if c == '.' then Token(Dot, i + 1, true)
    else if c == '$' && i + 1 == |pat| then Token(Dol, i + 1, false)
    else if c == '[' then
      if size + 17 >= ESIZE then BadToken
      else
        var o := ParseClass(pat, i + 1);
        ClassAdvances(pat, i + 1, i + 1, {});
        ClassAdvances(pat, i + 2, i + 2, {});
        if o.ClassOk? then Token(Class(o.chars), o.next, true)
        else if o.ClassError? then BadToken else TokenBeyond
    else if c == '\\' then
      if i + 1 == |pat| then BadToken
      else
        var d := pat[i + 1];
        if d == '<' || d == '>' || '1' <= d <= '9' then TokenOther
        else if d == '(' then if numbra >= NBRA then BadToken else Token(Open(numbra), i + 2, false)
        else if d == ')' then if open == [] then BadToken else Token(Close(open[|open| - 1]), i + 2, false)
        else Token(Chr(d), i + 2, true)
    else Token(Chr(c), i + 1, true)
  }

  lemma TokenFacts(pat: string, i: nat, size: nat, numbra: nat, open: seq<nat>)
    requires i < |pat|
    ensures var t := TokenAt(pat, i, size, numbra, open);
            t.Token? ==>
              && (t.starrable ==> IsSingle(t.atom) && pat[i] != '*')
              && (!t.starrable && pat[i] != '*' && t.next < |pat| ==> t.atom.Open? || t.atom.Close?)
  {
  }

  lemma TokenNext(pat: string, i: nat, size: nat, numbra: nat, open: seq<nat>)
    requires i < |pat|
    ensures var t := TokenAt(pat, i, size, numbra, open); t.Token? ==> i < t.next <= |pat|
  {
  }

  function OpenAfter(a: Atom, open: seq<nat>): seq<nat> {
    if a.Open? then open + [a.n] else if a.Close? && open != [] then open[..|open| - 1] else open
  }

  function GroupsAfter(a: Atom, numbra: nat): nat {
    if a.Open? then numbra + 1 else numbra
  }

  /** The items of a pattern from i on; codes of `size` bytes precede them. */
  ghost function ParseFrom(pat: string, i: nat, size: nat, numbra: nat, open: seq<nat>): Outcome
    decreases |pat| - i
  {
    if size >= ESIZE then Error
    else if i >= |pat| then Ok([])
    else
      var t := TokenAt(pat, i, size, numbra, open);
      if t.BadToken? then Error else if t.TokenBeyond? then Beyond else if t.TokenOther? then Other
      else
        var next := if t.starrable then AfterStars(pat, t.next) else t.next;
        Prepend([Item(t.atom, next > t.next)],
                ParseFrom(pat, next, size + Size(t.atom), GroupsAfter(t.atom, numbra), OpenAfter(t.atom, open)))
  }

  predicate Anchored(pat: string) {
    pat != [] && pat[0] == '^'
  }

  /** A pattern: a circumflex at its start is an anchor. */
  ghost function Parse(pat: string): Outcome {
    ParseFrom(pat, if Anchored(pat) then 1 else 0, 0, 0, [])
  }

  // ----- reading a pattern from left to right -----

  function StarLast(e: seq<Item>): seq<Item>
    requires e != []
  {
    e[|e| - 1 := e[|e| - 1].(starred := true)]
  }

  /** What the pattern is, given the items read before sp; a star at sp may still belong to the last one. */
  ghost function Resume(pat: string, sp: nat, e: seq<Item>, size: nat, numbra: nat, open: seq<nat>,
                        pending: bool): Outcome
    requires pending ==> e != []
  {
    var q := if pending then AfterStars(pat, sp) else sp;
    Prepend(if q > sp then StarLast(e) else e, ParseFrom(pat, q, size, numbra, open))
  }

  lemma ResumeStar(pat: string, sp: nat, e: seq<Item>, size: nat, numbra: nat, open: seq<nat>)
    requires e != [] && sp < |pat| && pat[sp] == '*'
    ensures Resume(pat, sp, e, size, numbra, open, true) == Resume(pat, sp + 1, StarLast(e), size, numbra, open, true)
  {
    hide ParseFrom;
    assert AfterStars(pat, sp) == AfterStars(pat, sp + 1);
    assert StarLast(StarLast(e)) == StarLast(e);
  }

  lemma ResumeToken(pat: string, sp: nat, e: seq<Item>, size: nat, numbra: nat, open: seq<nat>, pending: bool)
    requires sp < |pat| && size < ESIZE && (pending ==> e != [] && pat[sp] != '*')
    ensures var t, r := TokenAt(pat, sp, size, numbra, open), Resume(pat, sp, e, size, numbra, open, pending);
            if t.Token? then
              r == Resume(pat, t.next, e + [Item(t.atom, false)], size + Size(t.atom), GroupsAfter(t.atom, numbra),
                          OpenAfter(t.atom, open), t.starrable)
            else r == if t.BadToken? then Error else if t.TokenBeyond? then Beyond else Other
  {
    hide TokenAt, AfterStars, ParseFrom, Size;
    var t := TokenAt(pat, sp, size, numbra, open);
    if pending { NoStars(pat, sp); }
    TokenRead(pat, sp, size, numbra, open);
    if t.Token? {
      var next := AfterToken(pat, t);
      var o := ParseFrom(pat, next, size + Size(t.atom), GroupsAfter(t.atom, numbra), OpenAfter(t.atom, open));
      PrependBoth(e, Item(t.atom, next > t.next), o);
      StarAdded(e, t.atom);
    }
  }

  lemma StarAdded(e: seq<Item>, a: Atom)
    ensures StarLast(e + [Item(a, false)]) == e + [Item(a, true)]
  {
  }

  lemma NoStars(pat: string, sp: nat)
    requires sp < |pat| && pat[sp] != '*'
    ensures AfterStars(pat, sp) == sp
  {
  }

  ghost function AfterToken(pat: string, t: Token): nat
    requires t.Token?
  {
    if t.starrable then AfterStars(pat, t.next) else t.next
  }

  lemma TokenRead(pat: string, i: nat, size: nat, numbra: nat, open: seq<nat>)
    requires i < |pat| && size < ESIZE
    ensures var t, r := TokenAt(pat, i, size, numbra, open), ParseFrom(pat, i, size, numbra, open);
            if t.Token? then
              r == Prepend([Item(t.atom, AfterToken(pat, t) > t.next)],
                           ParseFrom(pat, AfterToken(pat, t), size + Size(t.atom), GroupsAfter(t.atom, numbra),
                                     OpenAfter(t.atom, open)))
            else r == if t.BadToken? then Error else if t.TokenBeyond? then Beyond else Other
  {
    hide TokenAt, AfterStars, Size;
  }

  lemma PrependBoth(e: seq<Item>, x: Item, o: Outcome)
    ensures Prepend(e, Prepend([x], o)) == Prepend(e + [x], o)
  {
    if o.Ok? { assert e + ([x] + o.items) == e + [x] + o.items; }
  }

  lemma ResumeStart(pat: string, sp: nat)
    ensures Resume(pat, sp, [], 0, 0, [], false) == ParseFrom(pat, sp, 0, 0, [])
  {
    var o := ParseFrom(pat, sp, 0, 0, []);
    if o.Ok? { assert [] + o.items == o.items; }
  }

  lemma ResumeFull(pat: string, sp: nat, e: seq<Item>, size: nat, numbra: nat, open: seq<nat>, pending: bool)
    requires size >= ESIZE && (pending ==> e != [])
    ensures Resume(pat, sp, e, size, numbra, open, pending) == Error
  {
  }

  lemma ResumeEnd(pat: string, sp: nat, e: seq<Item>, size: nat, numbra: nat, open: seq<nat>, pending: bool)
    requires size < ESIZE && sp == |pat| && (pending ==> e != [])
    ensures Resume(pat, sp, e, size, numbra, open, pending) == Ok(e)
  {
  }

  // ----- codes of a growing pattern -----

  ghost predicate Emitted(code: seq<nat>, e: seq<Item>) {
    Encoded(code, e) && Offset(e, |e|) == |code|
  }

  lemma {:induction false} OffsetSame(e: seq<Item>, f: seq<Item>, n: nat)
    requires n <= |e| && n <= |f| && forall i :: 0 <= i < n ==> e[i].atom == f[i].atom
    ensures Offset(e, n) == Offset(f, n)
  {
    if n > 0 { OffsetSame(e, f, n - 1); }
  }

  lemma {:induction false} OffsetMonotone(e: seq<Item>, m: nat, n: nat)
    requires m < n <= |e|
    ensures Offset(e, m) + Size(e[m].atom) <= Offset(e, n)
    decreases n
  {
    if m < n - 1 { OffsetMonotone(e, m, n - 1); }
  }

  lemma ItemAtSame(code: seq<nat>, code': seq<nat>, ep: nat, x: Item)
    requires ItemAt(code, ep, x) && ep + Size(x.atom) <= |code'|
    requires forall k :: ep <= k < ep + Size(x.atom) ==> code'[k] == code[k]
    ensures ItemAt(code', ep, x)
  {
    if x.atom.Class? { assert code'[ep + 1..ep + 17] == code[ep + 1..ep + 17]; }
  }

  lemma OffsetMore(e: seq<Item>, n: nat)
    requires n < |e|
    ensures Offset(e, n + 1) == Offset(e, n) + Size(e[n].atom)
  {
  }

  /** Item n keeps its code when nothing changes in its place. */
  lemma ItemKept(code: seq<nat>, code': seq<nat>, e: seq<Item>, f: seq<Item>, n: nat, ep: nat)
    requires Encoded(code, e) && n < |e| && n < |f| && Offset(e, n) + Size(e[n].atom) <= ep <= |code'| && ep <= |code|
    requires forall i :: 0 <= i <= n ==> e[i] == f[i]
    requires forall k :: 0 <= k < ep ==> code'[k] == code[k]
    ensures ItemAt(code', Offset(f, n), f[n])
  {
    hide ItemAt, Offset;
    OffsetSame(e, f, n);
    ItemAtSame(code, code', Offset(e, n), e[n]);
  }

  lemma EmitItem(code: seq<nat>, e: seq<Item>, bytes: seq<nat>, x: Item)
    requires Emitted(code, e) && |bytes| == Size(x.atom) && ItemAt(code + bytes, |code|, x)
    ensures Emitted(code + bytes, e + [x])
  {
    hide ItemAt, Offset, Size;
    var f := e + [x];
    OffsetSame(e, f, |e|);
    OffsetMore(f, |e|);
    forall n | 0 <= n < |f|
      ensures ItemAt(code + bytes, Offset(f, n), f[n])
    {
      if n < |e| {
        OffsetMonotone(e, n, |e|);
        ItemKept(code, code + bytes, e, f, n, |code|);
      }
    }
  }

  lemma StarItem(code: seq<nat>, ep: nat, x: Item)
    requires ItemAt(code, ep, x) && IsSingle(x.atom)
    ensures ItemAt(code[ep := Op(x.atom) + STAR], ep, x.(starred := true))
  {
    var code' := code[ep := Op(x.atom) + STAR];
    if x.atom.Class? { assert code'[ep + 1..ep + 17] == code[ep + 1..ep + 17]; }
  }

  lemma StarEmitted(code: seq<nat>, e: seq<Item>)
    requires Emitted(code, e) && e != [] && IsSingle(e[|e| - 1].atom)
    ensures var ep := Offset(e, |e| - 1);
            ep < |code| && Emitted(code[ep := Op(e[|e| - 1].atom) + STAR], StarLast(e))
  {
    hide ItemAt, Offset, Size, Op;
    var last := |e| - 1;
    var ep := Offset(e, last);
    OffsetMore(e, last);
    InCode(code, ep, e[last]);
    OffsetSame(e, StarLast(e), |e|);
    forall n | 0 <= n < |e|
      ensures ItemAt(code[ep := Op(e[last].atom) + STAR], Offset(StarLast(e), n), StarLast(e)[n])
    {
      StarItemAt(code, e, n, ep);
    }
  }

  lemma StarItemAt(code: seq<nat>, e: seq<Item>, n: nat, ep: nat)
    requires Encoded(code, e) && e != [] && n < |e| && ep == Offset(e, |e| - 1) < |code| && IsSingle(e[|e| - 1].atom)
    ensures ItemAt(code[ep := Op(e[|e| - 1].atom) + STAR], Offset(StarLast(e), n), StarLast(e)[n])
  {
    hide ItemAt, Offset, Size, Op;
    var last, f := |e| - 1, StarLast(e);
    OffsetSame(e, f, n);
    if n < last {
      OffsetMonotone(e, n, last);
      ItemKept(code, code[ep := Op(e[last].atom) + STAR], e, f, n, ep);
    } else {
      StarItem(code, ep, e[last]);
    }
  }

  lemma InCode(code: seq<nat>, ep: nat, x: Item)
    requires ItemAt(code, ep, x)
    ensures ep < |code|
  {
  }

  lemma EmittedNone()
    ensures Emitted([], [])
  {
  }

  lemma EmittedEnd(code: seq<nat>, e: seq<Item>)
    requires Emitted(code, e)
    ensures Compiled(code + [CEOF], e)
  {
    hide Offset;
    forall n | 0 <= n < |e|
      ensures ItemAt(code + [CEOF], Offset(e, n), e[n])
    {
      ItemAtSame(code, code + [CEOF], Offset(e, n), e[n]);
    }
  }

  lemma NextOffset(code: seq<nat>, e: seq<Item>, x: Item)
    requires Emitted(code, e)
    ensures Offset(e + [x], |e|) == |code|
  {
    OffsetSame(e, e + [x], |e|);
  }

  /** The code of the last item. */
  lemma LastCode(code: seq<nat>, e: seq<Item>)
    requires Emitted(code, e) && e != [] && IsSingle(e[|e| - 1].atom)
    ensures var ep, a := Offset(e, |e| - 1), e[|e| - 1].atom;
            ep < |code| && code[ep] / 2 * 2 == Op(a) && code[ep] != CBRA && code[ep] != CKET
  {
    hide Offset;
    StandsAt(code, Offset(e, |e| - 1), e[|e| - 1]);
  }

  lemma StandsAt(code: seq<nat>, ep: nat, x: Item)
    requires ItemAt(code, ep, x) && IsSingle(x.atom)
    ensures ep < |code| && code[ep] / 2 * 2 == Op(x.atom) && code[ep] != CBRA && code[ep] != CKET
  {
  }

  lemma ClassCode(code: seq<nat>, m: seq<nat>, chars: set<char>)
    requires MapOf(m, chars) && '\0' !in chars
    ensures ItemAt(code + ([CCL] + m), |code|, Item(Class(chars), false))
  {
    var more := code + ([CCL] + m);
    assert more[|code| + 1..|code| + 17] == m;
    forall c | c in chars
      ensures 0 < c as int < 128
    {
      assert c as int == 0 ==> c == '\0';
    }
  }

  // ----- reading a class -----

  /** Mark a range of characters. */
  method MarkRange(m0: seq<nat>, lo: char, hi: char, ghost seen: set<char>) returns (m: seq<nat>)
    requires MapOf(m0, seen) && 0 < lo as int < 128 && hi as int < 128
    ensures MapOf(m, seen + Range(lo, hi))
  {
    hide MapOf, MarkIn;
    m := m0;
    var c := lo as int;
    ghost var marked := seen;
    MapSize(m, marked);
    while c < hi as int
      invariant lo as int <= c < 128 && (lo as int <= hi as int ==> c <= hi as int) && |m| == 16
      invariant c > lo as int ==> c <= hi as int
      invariant MapOf(m, marked) && marked == seen + RangeBelow(lo, c as char)
      decreases hi as int - c
    {
      MarkInMap(m, marked, c);
      RangeStep(lo, c as char, (c + 1) as char);
      marked := marked + {c as char};
      m := MarkIn(m, c);
      MapSize(m, marked);
      c := c + 1;
    }
    MarkInMap(m, marked, c);
    RangeDone(lo, c as char, hi);
    assert marked + {c as char} == seen + Range(lo, hi);
    m := MarkIn(m, c);
  }

  ghost function RangeBelow(lo: char, hi: char): set<char> {
    set c: char | Between(lo, c, hi) && c != hi
  }

  lemma RangeStep(lo: char, c: char, d: char)
    requires lo as int <= c as int && d as int == c as int + 1
    ensures RangeBelow(lo, c) + {c} == RangeBelow(lo, d)
  {
    forall x: char
      ensures x in RangeBelow(lo, c) + {c} <==> x in RangeBelow(lo, d)
    {
      assert x as int == c as int ==> x == c;
      assert x as int == d as int ==> x == d;
    }
  }

  lemma RangeDone(lo: char, c: char, hi: char)
    requires if lo as int <= hi as int then c == hi else c == lo
    ensures RangeBelow(lo, c) + {c} == Range(lo, hi)
  {
    forall x: char
      ensures x in RangeBelow(lo, c) + {c} <==> x in Range(lo, hi)
    {
      assert x as int == lo as int ==> x == lo;
    }
  }

  lemma NullNotIn(lo: char, hi: char)
    requires 0 < lo as int
    ensures '\0' !in Range(lo, hi)
  {
  }

  lemma MapSize(m: seq<nat>, chars: set<char>)
    requires MapOf(m, chars)
    ensures |m| == 16 && forall i :: 0 <= i < 16 ==> m[i] < 256
  {
  }

  function Flipped(m: seq<nat>): seq<nat>
    requires |m| == 16 && forall i :: 0 <= i < 16 ==> m[i] < 256
  {
    var f := seq(16, i requires 0 <= i < 16 => 255 - m[i]);
    f[0 := f[0] - f[0] % 2]
  }

  lemma FlippedMap(m: seq<nat>, chars: set<char>)
    requires MapOf(m, chars)
    ensures MapOf(Flipped(m), Others(chars))
  {
    var f := Flipped(m);
    forall c: nat | c < 128
      ensures InMap(f, c) <==> c as char in Others(chars)
    {
      assert Bits(8) == 256;
      assert InMap(m, c) <==> c as char in chars;
      assert (c as char) as int == c;
      FlippedBits(m[c / 8], c % 8, 8);
      if c / 8 == 0 { ClearedBit(255 - m[0], c % 8); }
    }
  }

  /** Read a class after its opening bracket. */
  method ReadClass(pat: string, i: nat) returns (ok: bool, m: seq<nat>, next: nat)
    requires Is7Bit(pat) && !ParseClass(pat, i).ClassBeyond?
    ensures ok <==> ParseClass(pat, i).ClassOk?
    ensures ok ==> next == ParseClass(pat, i).next && MapOf(m, ParseClass(pat, i).chars)
    ensures ok ==> '\0' !in ParseClass(pat, i).chars
  {
    hide MapOf, MarkIn, Range;
    m := seq(16, _ => 0);
    EmptyMap(m);
    var neg := i < |pat| && pat[i] == '^';
    var first := if neg then i + 1 else i;
    var k := first;
    ghost var seen := {};
    while true
      invariant first <= k && MapOf(m, seen) && '\0' !in seen
      invariant ClassFrom(pat, first, first, {}) == ClassFrom(pat, first, k, seen)
      decreases |pat| - k
    {
      if k >= |pat| { return false, m, k; }
      MapSize(m, seen);
      ghost var more := seen + if IsRange(pat, first, k) then Range(pat[k - 1], pat[k + 1]) else {pat[k]};
      var sp := k + 1;
      if IsRange(pat, first, k) {
        m := MarkRange(m, pat[k - 1], pat[sp], seen);
        NullNotIn(pat[k - 1], pat[sp]);
        sp := sp + 1;
      } else {
        MarkInMap(m, seen, pat[k] as int);
        m := MarkIn(m, pat[k] as int);
      }
      seen := more;
      k := sp;
      if sp < |pat| && pat[sp] == ']' {
        next := sp + 1;
        break;
      }
    }
    if neg {
      MapSize(m, seen);
      FlippedMap(m, seen);
      m := Flipped(m);
    }
    ok := true;
  }

  // ----- the search -----

  /** A line ends with a null character. */
  function CharAt(s: string, i: nat): char {
    if i < |s| then s[i] else '\0'
  }

  predicate IsLine(s: string) {
    forall i :: 0 <= i < |s| ==> s[i] != '\0'
  }

  class Pattern {
    var expbuf: seq<nat>
    var circf: bool

    /** Emit the code of the token at i, which is no star of an item before it. */
    method EmitToken(pat: string, i: nat, numbra0: nat, open0: seq<nat>, ghost e: seq<Item>)
      returns (ok: bool, next: nat, numbra: nat, open: seq<nat>)
      requires Is7Bit(pat) && i < |pat| && Emitted(expbuf, e)
      requires var t := TokenAt(pat, i, |expbuf|, numbra0, open0); !t.TokenBeyond? && !t.TokenOther?
      modifies this`expbuf
      ensures var t := TokenAt(pat, i, |old(expbuf)|, numbra0, open0);
              && (ok <==> t.Token?)
              && (ok ==> next == t.next && numbra == GroupsAfter(t.atom, numbra0) && open == OpenAfter(t.atom, open0)
                         && Emitted(expbuf, e + [Item(t.atom, false)]) && |expbuf| == |old(expbuf)| + Size(t.atom)
                         && old(expbuf) < expbuf && expbuf[|old(expbuf)|] == Op(t.atom))
    {
      hide Emitted, ParseClass, MapOf;
      var c := pat[i];
      ok, next, numbra, open := true, i + 1, numbra0, open0;
      if c == '.' {
        Emit([CDOT], e, Item(Dot, false));
      } else if c == '$' && i + 1 == |pat| {
        Emit([CDOL], e, Item(Dol, false));
      } else if c == '[' {
        if |expbuf| + 17 >= ESIZE { return false, next, numbra, open; }
        var m;
        ok, m, next := ReadClass(pat, i + 1);
        if ok {
          MapSize(m, ParseClass(pat, i + 1).chars);
          ClassCode(expbuf, m, ParseClass(pat, i + 1).chars);
          Emit([CCL] + m, e, Item(Class(ParseClass(pat, i + 1).chars), false));
        }
      } else if c == '\\' {
        next := i + 2;
        if i + 1 == |pat| { return false, next, numbra, open; }
        var d := pat[i + 1];
        if d == '(' {
          if numbra >= NBRA { return false, next, numbra, open; }
          open := open + [numbra];
          Emit([CBRA, numbra], e, Item(Open(numbra), false));
          numbra := numbra + 1;
        } else if d == ')' {
          if open == [] { return false, next, numbra, open; }
          Emit([CKET, open[|open| - 1]], e, Item(Close(open[|open| - 1]), false));
          open := open[..|open| - 1];
        } else {
          Emit([CCHR, d as int], e, Item(Chr(d), false));
        }
      } else {
        Emit([CCHR, c as int], e, Item(Chr(c), false));
      }
    }

    method Emit(bytes: seq<nat>, ghost e: seq<Item>, ghost x: Item)
      requires Emitted(expbuf, e) && |bytes| == Size(x.atom) && ItemAt(expbuf + bytes, |expbuf|, x)
      modifies this`expbuf
      ensures expbuf == old(expbuf) + bytes && Emitted(expbuf, e + [x])
    {
      EmitItem(expbuf, e, bytes, x);
      expbuf := expbuf + bytes;
    }

    /** The codes so far are those of the items e, and the rest of the pattern is read from position sp on. */
    ghost predicate IsAt(pat: string, sp: nat, e: seq<Item>, numbra: nat, open: seq<nat>, pending: bool, lastep: int)
      reads this
    {
      && sp <= |pat| && Emitted(expbuf, e) && (pending ==> e != []) && -1 <= lastep < |expbuf|
      && Parse(pat) == Resume(pat, sp, e, |expbuf|, numbra, open, pending)
      && (pending ==> lastep == Offset(e, |e| - 1) && IsSingle(e[|e| - 1].atom))
      && (!pending && sp < |pat| ==> lastep == -1 || expbuf[lastep] == CBRA || expbuf[lastep] == CKET)
    }

    /** A star changes the last code. */
    method ReadStar(pat: string, sp: nat, numbra: nat, open: seq<nat>, lastep: int, ghost e: seq<Item>)
      requires IsAt(pat, sp, e, numbra, open, true, lastep) && sp < |pat| && pat[sp] == '*'
      modifies this`expbuf
      ensures IsAt(pat, sp + 1, StarLast(e), numbra, open, true, lastep)
    {
      hide Emitted, Resume, Offset;
      LastCode(expbuf, e);
      ResumeStar(pat, sp, e, |expbuf|, numbra, open);
      StarEmitted(expbuf, e);
      OffsetSame(e, StarLast(e), |e| - 1);
      expbuf := expbuf[lastep := if expbuf[lastep] % 2 == 1 then expbuf[lastep] else expbuf[lastep] + STAR];
    }

    /** Read one token and emit its code. */
    method ReadToken(pat: string, sp0: nat, numbra0: nat, open0: seq<nat>, lastep0: int,
                     ghost e0: seq<Item>, ghost pending0: bool)
      returns (ok: bool, sp: nat, numbra: nat, open: seq<nat>, lastep: int, ghost e: seq<Item>, ghost pending: bool)
      requires Is7Bit(pat) && !Parse(pat).Beyond? && !Parse(pat).Other?
      requires IsAt(pat, sp0, e0, numbra0, open0, pending0, lastep0) && sp0 < |pat| && |expbuf| < ESIZE
      requires pat[sp0] == '*' ==> !pending0
      modifies this`expbuf
      ensures ok ==> IsAt(pat, sp, e, numbra, open, pending, lastep) && sp > sp0
      ensures !ok ==> Parse(pat) == Error
    {
      hide Emitted, Resume, TokenAt, Parse, Offset;
      ResumeToken(pat, sp0, e0, |expbuf|, numbra0, open0, pending0);
      lastep := if pat[sp0] != '*' then |expbuf| else lastep0;
      ghost var t := TokenAt(pat, sp0, |expbuf|, numbra0, open0);
      TokenFacts(pat, sp0, |expbuf|, numbra0, open0);
      TokenNext(pat, sp0, |expbuf|, numbra0, open0);
      if t.Token? { NextOffset(expbuf, e0, Item(t.atom, false)); }
      ok, sp, numbra, open := EmitToken(pat, sp0, numbra0, open0, e0);
      e, pending := e0, pending0;
      if !ok { return; }
      e := e0 + [Item(t.atom, false)];
      pending := t.starrable;
    }

    /**
     Compile a pattern: its codes are those of its items, where a star is applied
     to the code of the last single character.
     */
    method Compile(pat: string) returns (ok: bool, ghost e: seq<Item>)
      requires Is7Bit(pat) && !Parse(pat).Beyond? && !Parse(pat).Other?
      modifies this
      ensures circf <==> Anchored(pat)
      ensures ok <==> Parse(pat).Ok?
      ensures ok ==> Parse(pat) == Ok(e) && Compiled(expbuf, e)
    {
      hide Emitted, Compiled, Resume, ParseFrom, Offset;
      circf := Anchored(pat);
      var sp: nat := if circf then 1 else 0;
      expbuf := [];
      e := [];
      var lastep := -1;
      var numbra: nat, open := 0, [];
      ghost var pending := false;
      EmittedNone();
      ResumeStart(pat, sp);
      while true
        invariant IsAt(pat, sp, e, numbra, open, pending, lastep) && (circf <==> Anchored(pat))
        decreases |pat| - sp
      {
        if |expbuf| >= ESIZE {
          ResumeFull(pat, sp, e, |expbuf|, numbra, open, pending);
          return false, e;
        }
        if sp == |pat| {
          ResumeEnd(pat, sp, e, |expbuf|, numbra, open, pending);
          EmittedEnd(expbuf, e);
          expbuf := expbuf + [CEOF];
          return true, e;
        }
        if pending { LastCode(expbuf, e); }
        if pat[sp] == '*' && lastep >= 0 && expbuf[lastep] != CBRA && expbuf[lastep] != CKET {
          ReadStar(pat, sp, numbra, open, lastep, e);
          e := StarLast(e);
          sp := sp + 1;
        } else {
          ok, sp, numbra, open, lastep, e, pending := ReadToken(pat, sp, numbra, open, lastep, e, pending);
          if !ok { return; }
        }
      }
    }

    /** Does the class at ep hold c? */
    method InClass(ep: nat, c: char, ghost chars: set<char>) returns (b: bool)
      requires ep + 16 <= |expbuf| && MapOf(expbuf[ep..ep + 16], chars)
      ensures b <==> Fits(Class(chars), c)
    {
      var d := c as int % 128;
      assert InMap(expbuf[ep..ep + 16], d) <==> d as char in chars;
      b := HasBit(expbuf[ep + d / 8], d % 8);
    }

    /** Does the single-character item at ep fit the character at lp, if there is one? */
    method FitsAt(s: string, lp: nat, ep: nat, ghost x: Item) returns (b: bool)
      requires IsLine(s) && lp <= |s| && ItemAt(expbuf, ep, x) && IsSingle(x.atom)
      ensures b <==> lp < |s| && Fits(x.atom, s[lp])
    {
      var c := CharAt(s, lp);
      var op := expbuf[ep];
      if op == CCHR || op == CCHR + STAR {
        b := expbuf[ep + 1] == c as int;
      } else if op == CDOT || op == CDOT + STAR {
        b := c != '\0';
      } else {
        b := InClass(ep + 1, c, x.atom.chars);
      }
    }

    /** Find out whether the codes from ep on accept the line from lp on. */
    method Advance(s: string, lp0: nat, ep0: nat, ghost e: seq<Item>, ghost n0: nat) returns (found: bool)
      requires Compiled(expbuf, e) && n0 <= |e| && ep0 == Offset(e, n0) && IsLine(s) && lp0 <= |s|
      ensures found <==> Accepts(e[n0..], s, lp0)
      decreases |e| - n0, 1
    {
      hide Accepts, Compiled, ItemAt, Fits;
      var lp, ep := lp0, ep0;
      ghost var n := n0;
      while true
        invariant n0 <= n <= |e| && ep == Offset(e, n) && 0 <= lp <= |s|
        invariant Accepts(e[n0..], s, lp0) <==> Accepts(e[n..], s, lp)
        decreases |e| - n
      {
        CodeAt(expbuf, e, n);
        var op := expbuf[ep];
        if op == CEOF {
          AcceptsNone(s, lp);
          return true;
        }
        RestOf(e, n);
        if op == CCHR || op == CDOT || op == CCL {
          AcceptsOne(e[n..], s, lp, lp + 1);
          var b := FitsAt(s, lp, ep, e[n]);
          if !b { return false; }
          lp := lp + 1;
        } else if op == CDOL {
          AcceptsOne(e[n..], s, lp, lp);
          if CharAt(s, lp) != '\0' { return false; }
        } else if op == CBRA || op == CKET {
          AcceptsOne(e[n..], s, lp, lp);
        } else {
          var curlp := lp;
          var b := FitsAt(s, lp, ep, e[n]);
          while b
            invariant curlp <= lp <= |s| && forall m :: curlp <= m < lp ==> Fits(e[n].atom, s[m])
            invariant b <==> lp < |s| && Fits(e[n].atom, s[lp])
            decreases |s| - lp
          {
            lp := lp + 1;
            b := FitsAt(s, lp, ep, e[n]);
          }
          AcceptsStar(e[n..], s, curlp, lp);
          if lp != curlp {
            found := Retreat(s, curlp, lp, ep + OpSize(op), e, n + 1);
            return;
          }
        }
        ep := ep + OpSize(op);
        n := n + 1;
      }
    }

    /** Try the rest of the pattern at every position from top down to curlp. */
    method Retreat(s: string, curlp: nat, top: nat, ep: nat, ghost e: seq<Item>, ghost n: nat) returns (found: bool)
      requires Compiled(expbuf, e) && n <= |e| && ep == Offset(e, n) && IsLine(s) && curlp <= top <= |s|
      ensures found <==> exists k :: curlp <= k <= top && Accepts(e[n..], s, k)
      decreases |e| - n, 2
    {
      hide Accepts, Compiled, ItemAt;
      CodeAt(expbuf, e, n);
      var lp := top;
      var chr := expbuf[ep] == CCHR;
      if chr { RestOf(e, n); ChrAt(expbuf, ep, e[n]); }
      while true
        invariant curlp <= lp <= top && forall k :: lp < k <= top ==> !Accepts(e[n..], s, k)
        decreases lp
      {
        if chr && CharAt(s, lp) as int != expbuf[ep + 1] {
          if Accepts(e[n..], s, lp) { AcceptsChr(e[n..], s, lp); }
        } else {
          found := Advance(s, lp, ep, e, n);
          if found { return; }
        }
        if lp == curlp { return false; }
        lp := lp - 1;
      }
    }

    /** Search a line: at its start only for an anchored pattern, else everywhere. */
    method Search(s: string, ghost e: seq<Item>) returns (found: bool)
      requires Compiled(expbuf, e) && IsLine(s)
      ensures found <==> exists i :: 0 <= i <= |s| && (circf ==> i == 0) && Accepts(e, s, i)
    {
      hide Accepts, Compiled, ItemAt;
      assert e[0..] == e;
      if circf {
        found := Advance(s, 0, 0, e, 0);
        return;
      }
      CodeAt(expbuf, e, 0);
      var p1 := 0;
      var chr := expbuf[0] == CCHR;
      if chr { ChrAt(expbuf, 0, e[0]); }
      while true
        invariant p1 <= |s| && forall i :: 0 <= i < p1 ==> !Accepts(e, s, i)
        decreases |s| - p1
      {
        if chr && CharAt(s, p1) as int != expbuf[1] {
          if Accepts(e, s, p1) { AcceptsChr(e, s, p1); }
        } else {
          found := Advance(s, p1, 0, e, 0);
          if found { return; }
        }
        if CharAt(s, p1) == '\0' { return false; }
        p1 := p1 + 1;
      }
    }
  }

  /** Compile a pattern and search a line for it. */
  method FindIn(pat: string, s: string) returns (ok: bool, found: bool)
    requires Is7Bit(pat) && !Parse(pat).Beyond? && !Parse(pat).Other? && IsLine(s)
    ensures ok <==> Parse(pat).Ok?
    ensures ok ==>
              (found <==> exists i :: 0 <= i <= |s| && (Anchored(pat) ==> i == 0) && Accepts(Parse(pat).items, s, i))
  {
    hide Parse, Accepts, Compiled;
    var p := new Pattern;
    ghost var e;
    ok, e := p.Compile(pat);
    found := false;
    if ok { found := p.Search(s, e); }
  }

  lemma ChrAt(code: seq<nat>, ep: nat, x: Item)
    requires ItemAt(code, ep, x) && code[ep] == CCHR
    ensures ep + 1 < |code| && x.atom.Chr? && !x.starred && code[ep + 1] == x.atom.c as int
  {
  }
}
