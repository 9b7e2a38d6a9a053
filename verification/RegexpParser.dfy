/**
 The grammar of patterns, as the compiler's recursive descent reads it.  Every
 function says what one routine of the compiler consumes and builds from a
 given position; the routines themselves are in RegexpCompiler.

 With `joined`, ordinary characters are gathered into one string, as the
 compiler does; without it each of them is a piece of its own.
 */
module RegexpParser {
  import opened RegexpSyntax
  import opened RegexpCode

  /** Group numbers start at 1. */
  type Pos = n: int | n >= 1 witness 1

  /** A C string: its bytes up to the terminating NUL. */
  type CStr = s: seq<Byte> | 0 !in s

  /**
   `Ok`: the construct ends before `pos`, the next group is number `npar`.
   `Fail`: the pattern is rejected after `emitted` bytes of code for the construct.
   `Hang`: a character range ends at 255 and the loop that expands it never ends.
   */
  datatype Outcome<T> =
    | Ok(pos: nat, npar: Pos, tree: T)
    | Fail(emitted: nat)
    | Hang

  /** Bytes of code emitted by the time the outcome is known. */
  function Room(r: Outcome<Regex>): nat {
    match r
    case Ok(_, _, e) => Size(e)
    case Fail(k) => k
    case Hang => 0
  }

  function AltsRoom(r: Outcome<Alts>): nat {
    match r
    case Ok(_, _, a) => AltsSize(a)
    case Fail(k) => k
    case Hang => 0
  }

  function Char(c: char): Byte
    requires c < 256 as char
  {
    c as int
  }

  /** The byte at position `i`, the NUL if `i` is the end. */
  function Peek(pat: CStr, i: nat): Byte {
    if i < |pat| then pat[i] else 0
  }

  predicate IsMult(c: Byte) {
    c == Char('*') || c == Char('+') || c == Char('?')
  }

  predicate IsBar(c: Byte) {
    c == Char('|') || c == Char('\n')
  }

  predicate EndsBranch(c: Byte) {
    c == 0 || c == Char(')') || IsBar(c)
  }

  /** Characters before which a string of ordinary characters stops. */
  predicate IsMagic(c: Byte) {
    || c == Char('.') || c == Char('[') || c == Char('(') || c == Char('$') || c == Char('^')
    || EndsBranch(c)
  }

  /** After a backslash: the backslash does not quote. */
  predicate EndsQuote(c: Byte) {
    c == 0 || c == Char('<') || c == Char('>')
  }

  // ----- strings of ordinary characters -----

  /**
   The string gathered from `acc` and the character at `p` on, and the position
   after it.  `prev` is where the character at `p` starts if it is not the
   first, -1 otherwise.
   */
  function ScanText(pat: CStr, p: nat, prev: int, acc: seq<Byte>): (r: (nat, seq<Byte>))
    requires p < |pat| && prev <= p && (prev < 0 <==> acc == [])
    requires prev >= 0 ==> !IsMult(Peek(pat, prev))
    ensures r.0 <= |pat| && (if prev < 0 then p < r.0 else prev <= r.0)
    ensures |acc| <= |r.1| && |r.1| > 0
    ensures 0 !in acc ==> 0 !in r.1
    ensures IsMult(Peek(pat, r.0)) ==> prev < 0 && |r.1| == 1
    decreases |pat| - p
  {
    var chars, next := acc + [pat[p]], p + 1;
    var c := Peek(pat, next);
    if IsMagic(c) then (next, chars)
    else if IsMult(c) then if prev < 0 then (next, chars) else (prev, acc)
    else if c == Char('\\') then
      if EndsQuote(Peek(pat, next + 1)) then (next, chars)
      else ScanText(pat, next + 1, next, chars)
    else ScanText(pat, next, next, chars)
  }

  function ParseText(pat: CStr, p: nat, npar: Pos, joined: bool): (r: Outcome<Regex>)
    requires p < |pat|
    ensures r.Ok? && p < r.pos <= |pat| && WellFormed(r.tree) && r.tree.Chars? && r.tree.kind.Exactly?
  {
    var (q, cs) := if joined then ScanText(pat, p, -1, []) else (p + 1, [pat[p]]);
    Ok(q, npar, Chars(Exactly, cs))
  }

  // ----- character classes -----

  function Range(lo: nat, hi: nat): (r: seq<Byte>)
    requires hi < 256
    ensures 0 < lo ==> 0 !in r
    ensures forall c: Byte :: c in r <==> lo <= c <= hi
    decreases hi + 1 - lo
  {
    if lo > hi then [] else [lo] + Range(lo + 1, hi)
  }

  /** The unsigned char that counts through a range after `b`, after so many rounds. */
  function RangeCounter(b: Byte, rounds: nat): Byte {
    (b + 1 + rounds) % 256
  }

  /** The counter passes the end of the range, which ends the loop, exactly when that is not the greatest byte. */
  lemma RangeLoopEnds(b: Byte, e: Byte)
    requires b <= e
    ensures (exists rounds: nat :: RangeCounter(b, rounds) > e) <==> e < 255
  {
    if e < 255 { assert RangeCounter(b, e - b) == e + 1; }
  }

  function ScanClass(pat: CStr, p: nat, npar: Pos, kind: Kind, acc: seq<Byte>): (r: Outcome<Regex>)
    requires 0 < p <= |pat| && 0 !in acc && (acc == [] ==> Peek(pat, p) != Char(']') && Peek(pat, p) != Char('-'))
    requires kind != Exactly
    ensures r.Ok? ==> p < r.pos <= |pat| && r.npar == npar
    ensures r.Ok? ==> WellFormed(r.tree) && r.tree.Chars? && r.tree.kind != Exactly
    ensures !r.Hang? ==> Room(r) >= 3 + |acc|
    decreases |pat| - p
  {
    var c := Peek(pat, p);
    if c == 0 then Fail(3 + |acc| + 1)
    else if c == Char(']') then Ok(p + 1, npar, Chars(kind, acc))
    else if c == Char('-') then
      var e := Peek(pat, p + 1);
      if e == 0 || e == Char(']') then ScanClass(pat, p + 1, npar, kind, acc + [Char('-')])
      else
        var b := pat[p - 1];
        if b > e then Fail(3 + |acc|)
        else if e == 255 then Hang
        else ScanClass(pat, p + 2, npar, kind, acc + Range(b + 1, e))
    else ScanClass(pat, p + 1, npar, kind, acc + [c])
  }

  /** The class whose `[` stands before position `p`. */
  function ParseClass(pat: CStr, p: nat, npar: Pos): (r: Outcome<Regex>)
    requires 0 < p <= |pat|
    ensures r.Ok? ==> p < r.pos <= |pat| && r.npar == npar
    ensures r.Ok? ==> WellFormed(r.tree) && r.tree.Chars? && r.tree.kind != Exactly
  {
    var negated := Peek(pat, p) == Char('^');
    var kind := if negated then AnyBut else AnyOf;
    var q := if negated then p + 1 else p;
    var c := Peek(pat, q);
    if c == Char(']') || c == Char('-') then ScanClass(pat, q + 1, npar, kind, [c])
    else ScanClass(pat, q, npar, kind, [])
  }

  // ----- the recursive descent -----

  /** One alternative after another, the first of them already read as `acc`. */
  function ParseMoreAlts(pat: CStr, p: nat, npar: Pos, acc: Alts, joined: bool): (r: Outcome<Alts>)
    requires p <= |pat| && AltsWellFormed(acc)
    ensures r.Ok? ==> p <= r.pos <= |pat| && AltsWellFormed(r.tree) && !IsBar(Peek(pat, r.pos))
    ensures !r.Hang? ==> AltsRoom(r) >= AltsSize(acc)
    decreases |pat| - p, 4
  {
    if !IsBar(Peek(pat, p)) then Ok(p, npar, acc)
    else
      match ParsePieces(pat, p + 1, npar, Empty, joined)
      case Ok(q, n, b) => ParseMoreAlts(pat, q, n, More(acc, b), joined)
      case Fail(k) => Fail(AltsSize(acc) + 3 + k)
      case Hang => Hang
  }

  function ParseAlts(pat: CStr, p: nat, npar: Pos, joined: bool): (r: Outcome<Alts>)
    requires p <= |pat|
    ensures r.Ok? ==> p <= r.pos <= |pat| && AltsWellFormed(r.tree) && !IsBar(Peek(pat, r.pos))
    decreases |pat| - p, 5
  {
    match ParsePieces(pat, p, npar, Empty, joined)
    case Ok(q, n, b) => ParseMoreAlts(pat, q, n, One(b), joined)
    case Fail(k) => Fail(3 + k)
    case Hang => Hang
  }

  /** The rest of an alternative whose pieces so far are `acc`. */
  function ParsePieces(pat: CStr, p: nat, npar: Pos, acc: Regex, joined: bool): (r: Outcome<Regex>)
    requires p <= |pat| && WellFormed(acc)
    ensures r.Ok? ==> p <= r.pos <= |pat| && WellFormed(r.tree) && EndsBranch(Peek(pat, r.pos))
    ensures !r.Hang? ==> Room(r) >= PrefixSize(acc)
    decreases |pat| - p, 3
  {
    if EndsBranch(Peek(pat, p)) then Ok(p, npar, acc)
    else
      match ParsePiece(pat, p, npar, joined)
      case Ok(q, n, e) => ParsePieces(pat, q, n, Append(acc, e), joined)
      case Fail(k) => Fail(PrefixSize(acc) + k)
      case Hang => Hang
  }

  function Append(acc: Regex, e: Regex): (r: Regex)
    requires WellFormed(acc) && WellFormed(e) && IsPiece(e)
    ensures WellFormed(r)
  {
    if acc.Empty? then e else Cat(acc, e)
  }

  /** Bytes emitted for the pieces so far: none before the first. */
  function PrefixSize(acc: Regex): nat {
    if acc.Empty? then 0 else Size(acc)
  }

  function Repeat(op: Byte, e: Regex): Regex
    requires IsMult(op)
  {
    if op == Char('*') then Star(e) else if op == Char('+') then Plus(e) else Opt(e)
  }

  function ParsePiece(pat: CStr, p: nat, npar: Pos, joined: bool): (r: Outcome<Regex>)
    requires p < |pat|
    ensures r.Ok? ==> p < r.pos <= |pat| && WellFormed(r.tree) && IsPiece(r.tree)
    decreases |pat| - p, 2
  {
    match ParseAtom(pat, p, npar, joined)
    case Ok(q, n, e) =>
      var op := Peek(pat, q);
      if !IsMult(op) then Ok(q, n, e)
      else if !HasWidth(e) && op != Char('?') then Fail(Size(e))
      else if IsMult(Peek(pat, q + 1)) then Fail(Size(Repeat(op, e)))
      else Ok(q + 1, n, Repeat(op, e))
    case Fail(k) => Fail(k)
    case Hang => Hang
  }

  function ParseAtom(pat: CStr, p: nat, npar: Pos, joined: bool): (r: Outcome<Regex>)
    requires p < |pat|
    ensures r.Ok? ==> p < r.pos <= |pat| && WellFormed(r.tree) && IsPiece(r.tree)
    decreases |pat| - p, 1
  {
    var c := pat[p];
    if c == Char('^') then Ok(p + 1, npar, Leaf(Bol))
    else if c == Char('$') then Ok(p + 1, npar, Leaf(Eol))
    else if c == Char('.') then Ok(p + 1, npar, Leaf(AnyChar))
    else if c == Char('[') then ParseClass(pat, p + 1, npar)
    else if c == Char('(') then
      match ParseReg(pat, p + 1, npar, true, joined)
      case Ok(q, n, a) => Ok(q, n, Group(npar, a))
      case Fail(k) => Fail(k)
      case Hang => Hang
    else if EndsBranch(c) || IsMult(c) then Fail(0)
    else if c == Char('\\') then
      var e := Peek(pat, p + 1);
      if e == 0 then Fail(0)
      else if e == Char('<') then Ok(p + 2, npar, Leaf(WordStart))
      else if e == Char('>') then Ok(p + 2, npar, Leaf(WordEnd))
      else ParseText(pat, p + 1, npar, joined)
    else ParseText(pat, p, npar, joined)
  }

  /** A whole pattern or, with `paren`, a group whose `(` stands before position `p`. */
  function ParseReg(pat: CStr, p: nat, npar: Pos, paren: bool, joined: bool): (r: Outcome<Alts>)
    requires p <= |pat|
    ensures r.Ok? ==> p <= r.pos <= |pat| && AltsWellFormed(r.tree) && (paren ==> npar < NSUBEXP)
    ensures r.Ok? && !paren ==> r.pos == |pat|
    decreases |pat| - p, 6
  {
    if paren && npar >= NSUBEXP then Fail(0)
    else
      match ParseAlts(pat, p, if paren then npar + 1 else npar, joined)
      case Ok(q, n, a) =>
        if paren then
          if Peek(pat, q) == Char(')') then Ok(q + 1, n, a) else Fail(3 + AltsSize(a) + 3)
        else
          if q == |pat| then Ok(q, n, a) else Fail(AltsSize(a) + 3)
      case Fail(k) => Fail(if paren then 3 + k else k)
      case Hang => Hang
  }

  /** A whole pattern. */
  function Parse(pat: CStr, joined: bool): Outcome<Alts> {
    ParseReg(pat, 0, 1, false, joined)
  }
}
