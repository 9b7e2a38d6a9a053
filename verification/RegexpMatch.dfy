/**
 The matcher of the regexp package: nodes are tried one after the other, with
 recursion where a choice may have to be taken back. It ends, and if it counts
 repetitions in integers, it finds a way through the program exactly when there
 is one. Counting in 16 bits, it may leave the subject instead, where a STAR is
 met; the proofs say when.
 */
module RegexpMatch {
  import opened RegexpSyntax
  import opened RegexpCode
  import opened RegexpParser
  import opened RegexpMachine
  import opened RegexpTermination
  import opened RegexpWays
  import opened RegexpOrder
  import opened RegexpPriority

  // ----- what acceptance is, node by node -----

  lemma AcceptsEnd(p: seq<Byte>, s: seq<Byte>, n: nat, i: nat, j: nat)
    requires IsNode(p, n) && p[n] == END
    ensures Accepts(p, s, n, i, j) <==> i == j <= |s|
  {
    if i == j <= |s| { assert Runs(p, s, n, i, j, 1); }
  }

  lemma AcceptsBranch(p: seq<Byte>, s: seq<Byte>, n: nat, i: nat, j: nat)
    requires IsNode(p, n) && p[n] == BRANCH
    ensures Accepts(p, s, n, i, j) <==>
              Accepts(p, s, n + 3, i, j) || (IsBranch(p, Succ(p, n)) && Accepts(p, s, Succ(p, n), i, j))
  {
    if Accepts(p, s, n, i, j) {
      var k: nat :| Runs(p, s, n, i, j, k);
      BranchRun(p, s, n, i, j, k);
    } else if Accepts(p, s, n + 3, i, j) || (IsBranch(p, Succ(p, n)) && Accepts(p, s, Succ(p, n), i, j)) {
      BranchStep(p, s, n, i, j);
    }
  }

  lemma AcceptsLoop(p: seq<Byte>, s: seq<Byte>, n: nat, i: nat, j: nat)
    requires IsNode(p, n) && n + 6 <= |p| && (p[n] == STAR || p[n] == PLUS)
    ensures Accepts(p, s, n, i, j) <==>
              exists m: nat :: ConsumesSome(p, s, Operand(n), MinTrips(p[n]), i, m) && Accepts(p, s, Succ(p, n), m, j)
  {
    hide ConsumesSome, Succ;
    if Accepts(p, s, n, i, j) {
      var k: nat :| Runs(p, s, n, i, j, k);
      var m: nat :| ConsumesSome(p, s, Operand(n), MinTrips(p[n]), i, m) && Runs(p, s, Succ(p, n), m, j, k - 1);
      assert Accepts(p, s, Succ(p, n), m, j);
    }
    forall m: nat | ConsumesSome(p, s, Operand(n), MinTrips(p[n]), i, m) && Accepts(p, s, Succ(p, n), m, j)
      ensures Accepts(p, s, n, i, j)
    {
      LoopStep(p, s, n, i, m, j);
    }
  }

  lemma AcceptsPlain(p: seq<Byte>, s: seq<Byte>, n: nat, i: nat, j: nat)
    requires IsNode(p, n) && IsPlain(p[n])
    ensures Accepts(p, s, n, i, j) <==> exists m: nat :: Consumes(p, s, n, i, m) && Accepts(p, s, Succ(p, n), m, j)
  {
    hide Consumes, Succ;
    if Accepts(p, s, n, i, j) {
      var k: nat :| Runs(p, s, n, i, j, k);
      var m: nat :| Consumes(p, s, n, i, m) && Runs(p, s, Succ(p, n), m, j, k - 1);
      assert Accepts(p, s, Succ(p, n), m, j);
    }
    forall m: nat | Consumes(p, s, n, i, m) && Accepts(p, s, Succ(p, n), m, j)
      ensures Accepts(p, s, n, i, j)
    {
      PlainStep(p, s, n, i, m, j);
    }
  }

  // ----- meeting a STAR -----

  /** Some run from node `n` and position `i` comes to a STAR within `k` nodes. */
  ghost predicate Meets(p: seq<Byte>, s: seq<Byte>, n: int, i: nat, k: nat)
    decreases k
  {
    && k > 0 && IsNode(p, n)
    && var op, next := p[n], Succ(p, n);
       if op == STAR then true
       else if op == END then false
       else if op == BRANCH then Meets(p, s, n + 3, i, k - 1) || (IsBranch(p, next) && Meets(p, s, next, i, k - 1))
       else if op == PLUS then
         && n + 6 <= |p|
         && exists m: nat :: ConsumesSome(p, s, Operand(n), MinTrips(op), i, m) && Meets(p, s, next, m, k - 1)
       else exists m: nat :: Consumes(p, s, n, i, m) && Meets(p, s, next, m, k - 1)
  }

  ghost predicate MeetsStar(p: seq<Byte>, s: seq<Byte>, n: int, i: nat) {
    exists k: nat :: Meets(p, s, n, i, k)
  }

  lemma MeetsHere(p: seq<Byte>, s: seq<Byte>, n: nat, i: nat)
    requires IsNode(p, n) && (p[n] == STAR || p[n] == END)
    ensures MeetsStar(p, s, n, i) <==> p[n] == STAR
  {
    if p[n] == STAR { assert Meets(p, s, n, i, 1); }
  }

  lemma MeetsBranch(p: seq<Byte>, s: seq<Byte>, n: nat, i: nat)
    requires IsNode(p, n) && p[n] == BRANCH
    ensures MeetsStar(p, s, n, i) <==>
              MeetsStar(p, s, n + 3, i) || (IsBranch(p, Succ(p, n)) && MeetsStar(p, s, Succ(p, n), i))
  {
    hide Succ;
    if MeetsStar(p, s, n, i) {
      var k: nat :| Meets(p, s, n, i, k);
      assert Meets(p, s, n + 3, i, k - 1) || (IsBranch(p, Succ(p, n)) && Meets(p, s, Succ(p, n), i, k - 1));
    }
    if MeetsStar(p, s, n + 3, i) {
      var k: nat :| Meets(p, s, n + 3, i, k);
      assert Meets(p, s, n, i, k + 1);
    }
    if IsBranch(p, Succ(p, n)) && MeetsStar(p, s, Succ(p, n), i) {
      var k: nat :| Meets(p, s, Succ(p, n), i, k);
      assert Meets(p, s, n, i, k + 1);
    }
  }

  lemma MeetsPlus(p: seq<Byte>, s: seq<Byte>, n: nat, i: nat)
    requires IsNode(p, n) && n + 6 <= |p| && p[n] == PLUS
    ensures MeetsStar(p, s, n, i) <==>
              exists m: nat :: ConsumesSome(p, s, Operand(n), MinTrips(p[n]), i, m) && MeetsStar(p, s, Succ(p, n), m)
  {
    hide Succ, ConsumesSome;
    if MeetsStar(p, s, n, i) {
      var k: nat :| Meets(p, s, n, i, k);
      var m: nat :| ConsumesSome(p, s, Operand(n), MinTrips(p[n]), i, m) && Meets(p, s, Succ(p, n), m, k - 1);
      assert MeetsStar(p, s, Succ(p, n), m);
    }
    forall m: nat | ConsumesSome(p, s, Operand(n), MinTrips(p[n]), i, m) && MeetsStar(p, s, Succ(p, n), m)
      ensures MeetsStar(p, s, n, i)
    {
      var k: nat :| Meets(p, s, Succ(p, n), m, k);
      assert Meets(p, s, n, i, k + 1);
    }
  }

  lemma MeetsPlain(p: seq<Byte>, s: seq<Byte>, n: nat, i: nat)
    requires IsNode(p, n) && IsPlain(p[n])
    ensures MeetsStar(p, s, n, i) <==> exists m: nat :: Consumes(p, s, n, i, m) && MeetsStar(p, s, Succ(p, n), m)
  {
    hide Succ, Consumes;
    if MeetsStar(p, s, n, i) {
      var k: nat :| Meets(p, s, n, i, k);
      var m: nat :| Consumes(p, s, n, i, m) && Meets(p, s, Succ(p, n), m, k - 1);
      assert MeetsStar(p, s, Succ(p, n), m);
    }
    forall m: nat | Consumes(p, s, n, i, m) && MeetsStar(p, s, Succ(p, n), m)
      ensures MeetsStar(p, s, n, i)
    {
      var k: nat :| Meets(p, s, Succ(p, n), m, k);
      assert Meets(p, s, n, i, k + 1);
    }
  }

  // ----- repetition of a node that matches one character -----

  predicate OneAt(p: seq<Byte>, s: seq<Byte>, n: nat, x: nat) {
    n + 3 <= |p| && x < |s| && Consumes(p, s, n, x, x + 1)
  }

  lemma SimpleConsumes(p: seq<Byte>, s: seq<Byte>, n: nat, x: nat, m: nat)
    requires IsSimpleNode(p, n)
    ensures Consumes(p, s, n, x, m) <==> m == x + 1 && OneAt(p, s, n, x)
  {
    if p[n] == EXACTLY && Consumes(p, s, n, x, m) { assert |s[x..m]| == 1; }
  }

  lemma {:induction false} ManyOnes(p: seq<Byte>, s: seq<Byte>, n: nat, c: nat, i: nat, m: nat)
    requires IsSimpleNode(p, n)
    ensures ConsumesMany(p, s, n, c, i, m) <==> m == i + c <= |s| && forall x: nat :: i <= x < m ==> OneAt(p, s, n, x)
    decreases c
  {
    hide Consumes;
    if c > 0 {
      SimpleConsumes(p, s, n, i, i + 1);
      ManyOnes(p, s, n, c - 1, i + 1, m);
      forall k: nat | Consumes(p, s, n, i, k)
        ensures k == i + 1
      {
        SimpleConsumes(p, s, n, i, k);
      }
    }
  }

  /** Repetitions lead to every position from the least number of them up to the first character that does not match. */
  lemma SomeOnes(p: seq<Byte>, s: seq<Byte>, n: nat, min: nat, i: nat, top: nat, m: nat)
    requires IsSimpleNode(p, n) && i <= top <= |s| && forall x: nat :: i <= x < top ==> OneAt(p, s, n, x)
    requires top < |s| ==> !OneAt(p, s, n, top)
    ensures ConsumesSome(p, s, n, min, i, m) <==> i + min <= m <= top
  {
    hide OneAt;
    if ConsumesSome(p, s, n, min, i, m) {
      var c: nat :| c >= min && ConsumesMany(p, s, n, c, i, m);
      ManyOnes(p, s, n, c, i, m);
    }
    if i + min <= m <= top { ManyOnes(p, s, n, m - i, i, m); }
  }

  /** A string node matches only where its first character stands. */
  lemma FirstStands(p: seq<Byte>, s: seq<Byte>, n: nat, i: nat, m: nat)
    requires IsNode(p, n) && p[n] == EXACTLY && n + 4 <= |p| && p[n + 3] != 0
    ensures Consumes(p, s, n, i, m) ==> i < |s| && s[i] == p[n + 3]
  {
    assert CString(p, n + 3)[0] == p[n + 3];
    if Consumes(p, s, n, i, m) { assert s[i..m][0] == s[i]; }
  }

  // ----- the matcher -----

  /** An answer of the matcher; `Lost` is the position leaving the subject, behind which nothing is known. */
  datatype Answer = Yes | No | Lost

  /** Ways on from two places are the same. */
  ghost predicate AsGood(p: seq<Byte>, s: seq<Byte>, n: int, i: nat, n': int, i': nat) {
    && (forall j: nat :: Accepts(p, s, n, i, j) <==> Accepts(p, s, n', i', j))
    && (MeetsStar(p, s, n, i) <==> MeetsStar(p, s, n', i'))
  }

  /** No way on; if repetitions are counted in 16 bits, no STAR is met either. */
  ghost predicate NoWay(p: seq<Byte>, s: seq<Byte>, n: int, i: nat, wide: bool) {
    (forall j: nat :: !Accepts(p, s, n, i, j)) && (wide || !MeetsStar(p, s, n, i))
  }

  /** What an answer says. */
  ghost predicate Says(p: seq<Byte>, s: seq<Byte>, n: int, i: nat, wide: bool, a: Answer, end: nat) {
    match a
    case Yes => Accepts(p, s, n, i, end)
    case No => NoWay(p, s, n, i, wide)
    case Lost => !wide && MeetsStar(p, s, n, i)
  }

  /** What was found and recorded is the first way from a place to the end of the program. */
  ghost predicate IsFirst(p: seq<Byte>, s: seq<Byte>, n: int, i: nat, a: Answer, end: nat, startp: seq<int>,
                          endp: seq<int>)
  {
    var outs := Outs(p, s, n, i);
    match a
    case Yes => outs != [] && IsWay(outs[0], end, startp, endp)
    case No => outs == [] && startp == NONE && endp == NONE
    case Lost => startp == NONE && endp == NONE
  }

  ghost predicate IsWay(w: Way, end: nat, startp: seq<int>, endp: seq<int>) {
    end == w.end && startp == Recorded(w.marks, true) && endp == Recorded(w.marks, false)
  }

  /** The answer of a loop on a 16-bit counter, which wraps around after 0 repetitions were tried in vain. */
  ghost function LoopAnswer(p: seq<Byte>, s: seq<Byte>, n: nat, i: nat): Answer
    requires n < |p|
  {
    if exists j: nat :: Accepts(p, s, n, i, j) then Yes else if p[n] == STAR then Lost else No
  }

  /** On a 16-bit counter the answer is known if no other loop over a star comes after this one. */
  ghost predicate IsLoopAnswer(p: seq<Byte>, s: seq<Byte>, n: nat, i: nat, wide: bool, a: Answer)
    requires IsNode(p, n)
  {
    !wide && (forall m: nat :: MeetsStar(p, s, Succ(p, n), m) ==> !LoopTo(p, s, n, i, m)) ==>
      a == LoopAnswer(p, s, n, i)
  }

  /** Exactly the characters from `i` up to `top` are matched by the loop at node `n`, one by one. */
  ghost predicate IsRun(p: seq<Byte>, s: seq<Byte>, n: nat, i: nat, top: nat) {
    && IsNode(p, n) && n + 6 <= |p| && (p[n] == STAR || p[n] == PLUS) && IsSimpleNode(p, Operand(n))
    && i <= top <= |s| && (forall x: nat :: i <= x < top ==> OneAt(p, s, Operand(n), x))
    && (top < |s| ==> !OneAt(p, s, Operand(n), top))
  }

  class Executor {
    const p: seq<Byte>
    const s: CStr
    /** Repetitions are counted in integers instead of 16 bits. */
    const wide: bool
    var input: nat
    /** Where the groups of the match start and end; -1 for those that took no part in it. */
    var startp: seq<int>
    var endp: seq<int>

    constructor (p: seq<Byte>, s: CStr, wide: bool)
      ensures this.p == p && this.s == s && this.wide == wide
    {
      this.p, this.s, this.wide, input := p, s, wide, 0;
      startp, endp := NONE, NONE;
    }

    /** The character at a position; a null character at the end. */
    function CharAt(i: nat): Byte {
      if i < |s| then s[i] else 0
    }

    /** Whether a character is in the string at address n. */
    method InString(n: nat, c: Byte) returns (b: bool)
      requires c != 0
      ensures b <==> c in CString(p, n)
    {
      var k := n;
      while k < |p| && p[k] != 0
        invariant n <= k && (c in CString(p, n) <==> c in CString(p, k))
        decreases |p| - k
      {
        if p[k] == c { return true; }
        k := k + 1;
      }
      return false;
    }

    /** Match the string at address n. */
    method MatchString(n: nat) returns (len: int)
      requires input <= |s| && CString(p, n) != []
      ensures len >= 0 ==> input + len <= |s| && s[input..input + len] == CString(p, n)
      ensures len < 0 ==> forall m: nat :: input <= m <= |s| ==> s[input..m] != CString(p, n)
    {
      ghost var cs := CString(p, n);
      len := 0;
      while n + len < |p| && p[n + len] != 0
        invariant 0 <= len <= |cs| && input + len <= |s| && s[input..input + len] == cs[..len]
        invariant cs[len..] == CString(p, n + len)
        decreases |p| - n - len
      {
        assert cs[len..][0] == p[n + len];
        if CharAt(input + len) != p[n + len] {
          Differs(s, input, cs, len);
          return -1;
        }
        assert cs[len..][1..] == cs[len + 1..];
        assert s[input..input + len + 1] == s[input..input + len] + [s[input + len]];
        assert cs[..len + 1] == cs[..len] + [cs[len]];
        len := len + 1;
      }
      assert cs[..len] == cs;
    }

    /** Match one node that offers no choice. */
    method MatchPlain(n: nat) returns (ok: bool)
      requires IsNode(p, n) && input <= |s| && IsPlain(p[n]) && (p[n] == EXACTLY ==> CString(p, n + 3) != [])
      modifies this`input
      ensures ok ==> Consumes(p, s, n, old(input), input)
      ensures !ok ==> forall m: nat :: !Consumes(p, s, n, old(input), m)
    {
      var op, c := p[n], CharAt(input);
      if op == BOL {
        ok := input == 0;
      } else if op == EOL {
        ok := c == 0;
      } else if op == WORDA {
        ok := IsWordChar(c) && !(input > 0 && IsWordChar(s[input - 1]));
      } else if op == WORDZ {
        ok := !IsWordChar(c);
      } else if op == ANY {
        ok := c != 0;
        if ok { input := input + 1; }
      } else if op == EXACTLY {
        var len := MatchString(n + 3);
        ok := len >= 0;
        if ok { input := input + len; }
      } else if op == ANYOF || op == ANYBUT {
        ok := false;
        if c != 0 {
          var b := InString(n + 3, c);
          ok := b == (op == ANYOF);
        }
        if ok { input := input + 1; }
      } else {
        ok := op == NOTHING || op == BACK || IsMark(op);
      }
    }

    /** Whether the one-character node n matches the character at a position. */
    method MatchOne(n: nat, x: nat) returns (b: bool)
      requires IsSimpleNode(p, n) && x <= |s|
      ensures b <==> OneAt(p, s, n, x)
    {
      SimpleConsumes(p, s, n, x, x + 1);
      var op, c := p[n], CharAt(x);
      if c == 0 { return false; }
      if op == ANY { return true; }
      if op == EXACTLY {
        OneCharacter(p, n + 3);
        assert s[x..x + 1] == [s[x]];
        return p[n + 3] == c;
      }
      var m := InString(n + 3, c);
      b := m == (op == ANYOF);
    }

    /** Match a one-character node as often as it goes. */
    method RegRepeat(n: nat) returns (count: nat)
      requires IsSimpleNode(p, n) && input <= |s|
      modifies this`input
      ensures input == old(input) + count <= |s|
      ensures (forall x: nat :: old(input) <= x < input ==> OneAt(p, s, n, x))
      ensures (input < |s| ==> !OneAt(p, s, n, input))
    {
      hide OneAt, IsSimpleNode;
      count := 0;
      var scan := input;
      var b := MatchOne(n, scan);
      while b
        invariant input == old(input) && scan == input + count <= |s| && (b <==> OneAt(p, s, n, scan))
        invariant forall x: nat :: input <= x < scan ==> OneAt(p, s, n, x)
        decreases |s| - scan
      {
        OneInside(p, s, n, scan);
        scan, count := scan + 1, count + 1;
        b := MatchOne(n, scan);
      }
      input := scan;
    }

    /**
     Find a way from node prog and the current position to the end of the program:
     the first one, in the order in which choices are tried.
     */
    method RegMatch(prog: nat, ghost k: nat) returns (a: Answer)
      requires Ends(p, s, prog, input, k) && (wide || |s| < SPAN - 1) && startp == NONE && endp == NONE
      modifies this`input, this`startp, this`endp
      ensures Says(p, s, prog, old(input), wide, a, input)
      ensures IsFirst(p, s, prog, old(input), a, input, startp, endp)
      decreases k, 2
    {
      hide Ends, Accepts, Consumes, Succ, MeetsStar, Outs, Recorded;
      var scan: nat := prog;
      ghost var l: nat := k;
      while true
        invariant l <= k && Ends(p, s, scan, input, l) && AsGood(p, s, prog, old(input), scan, input)
        invariant startp == NONE && endp == NONE && Outs(p, s, prog, old(input)) == Outs(p, s, scan, input)
        decreases l
      {
        BoundHere(p, s, scan, input, l);
        var next := Succ(p, scan);
        var op := p[scan];
        if op == END {
          AcceptsEnd(p, s, scan, input, input);
          FirstEnd(p, s, scan, input);
          return Yes;
        } else if op == BRANCH && p[next] != BRANCH {
          OnlyBranch(p, s, scan, input, l);
          scan := scan + 3;
        } else if op == BRANCH {
          a := TryBranches(scan, l);
          return;
        } else if op == STAR || op == PLUS {
          a := TryLoop(scan, l);
          return;
        } else {
          ghost var i := input;
          var ok := MatchPlain(scan);
          PlainOn(p, s, scan, i, input, l, ok);
          PlainOuts(p, s, scan, i, input, l, ok);
          if !ok { return No; }
          if IsMark(op) {
            a := MatchMark(scan, next, l);
            return;
          }
          UnmarkedOuts(p, s, scan, i, input);
          scan := next;
        }
        l := l - 1;
      }
    }

    /** Go on behind a parenthesis; record it if that leads to the end and no later one of the group did. */
    method MatchMark(scan: nat, next: nat, ghost k: nat) returns (a: Answer)
      requires IsNode(p, scan) && IsMark(p[scan]) && next == Succ(p, scan)
      requires k > 0 && Ends(p, s, next, input, k - 1) && AsGood(p, s, scan, input, next, input)
      requires Outs(p, s, scan, input) == After(MarksAt(p[scan], input), Outs(p, s, next, input))
      requires (wide || |s| < SPAN - 1) && startp == NONE && endp == NONE
      modifies this`input, this`startp, this`endp
      ensures Says(p, s, scan, old(input), wide, a, input)
      ensures IsFirst(p, s, scan, old(input), a, input, startp, endp)
      decreases k, 0
    {
      hide Ends, Accepts, Succ, MeetsStar, Outs, Recorded;
      var save, op := input, p[scan];
      a := RegMatch(next, k - 1);
      MarkFirst(p, s, scan, next, save);
      if a == Yes {
        if OPEN < op < OPEN + 10 {
          var no := op - OPEN;
          if startp[no] < 0 { startp := startp[no := save]; }
        } else {
          var no := op - CLOSE;
          if endp[no] < 0 { endp := endp[no := save]; }
        }
      }
    }

    /** Try one branch after the other. */
    method TryBranches(scan0: nat, ghost k0: nat) returns (a: Answer)
      requires Ends(p, s, scan0, input, k0) && p[scan0] == BRANCH && (wide || |s| < SPAN - 1)
      requires startp == NONE && endp == NONE
      modifies this`input, this`startp, this`endp
      ensures Says(p, s, scan0, old(input), wide, a, input)
      ensures IsFirst(p, s, scan0, old(input), a, input, startp, endp)
      decreases k0, 1
    {
      hide Ends, Accepts, Succ, MeetsStar, Outs, Recorded;
      var scan: nat := scan0;
      ghost var k: nat := k0;
      var save := input;
      BoundHere(p, s, scan, save, k);
      while true
        invariant k <= k0 && IsNode(p, scan) && p[scan] == BRANCH && Ends(p, s, scan, save, k) && input == save
        invariant forall j: nat :: Accepts(p, s, scan0, save, j) <==> Accepts(p, s, scan, save, j)
        invariant MeetsStar(p, s, scan, save) ==> MeetsStar(p, s, scan0, save)
        invariant MeetsStar(p, s, scan0, save) ==> wide || MeetsStar(p, s, scan, save)
        invariant startp == NONE && endp == NONE && Outs(p, s, scan0, save) == Outs(p, s, scan, save)
        decreases k
      {
        BranchBound(p, s, scan, save, k);
        BranchAll(p, s, scan, save);
        BranchOuts(p, s, scan, save, k);
        a := RegMatch(scan + 3, k - 1);
        if a != No { return; }
        input := save;
        scan := Succ(p, scan);
        k := k - 1;
        if p[scan] != BRANCH { return No; }
      }
    }

    /**
     Try the most repetitions of a loop first, then fewer; the first character
     after the loop may rule a try out. Counting below 0 wraps around if the
     counter has 16 bits.
     */
    method TryLoop(scan: nat, ghost k: nat) returns (a: Answer)
      requires Ends(p, s, scan, input, k) && (p[scan] == STAR || p[scan] == PLUS) && (wide || |s| < SPAN - 1)
      requires startp == NONE && endp == NONE
      modifies this`input, this`startp, this`endp
      ensures Says(p, s, scan, old(input), wide, a, input)
      ensures IsFirst(p, s, scan, old(input), a, input, startp, endp)
      ensures IsLoopAnswer(p, s, scan, old(input), wide, a)
      decreases k, 1
    {
      hide Ends, Accepts, Succ, OneAt, MeetsStar, Outs, Down, Recorded, IsLoopAnswer, IsFirst, Says, NoWay, LoopTo;
      BoundHere(p, s, scan, input, k);
      LoopBound(p, s, scan, input, k);
      var next := Succ(p, scan);
      var nextch: Byte := 0;
      if p[next] == EXACTLY && next + 3 < |p| { nextch := p[next + 3]; }
      var min := if p[scan] == STAR then 0 else 1;
      var save := input;
      var no: int := RegRepeat(scan + 3);
      ghost var top := input;
      assert IsRun(p, s, scan, save, top);
      hide IsRun;
      LoopFrom(p, s, scan, save, top, k);
      while no >= min
        invariant min - 1 <= no <= top - save && top <= |s| && (wide || no >= 0) && (no >= min ==> input == save + no)
        invariant forall m: nat :: save + no < m <= top ==> NoWay(p, s, next, m, wide)
        invariant startp == NONE && endp == NONE
        invariant Outs(p, s, scan, save) == Down(p, s, next, save + no, save + min)
        decreases no
      {
        ghost var here := input;
        LoopBoundAt(p, s, scan, save, top, here, k);
        a := TryNext(next, nextch, k - 1);
        if a != No {
          LoopSays(p, s, scan, save, top, here, wide, a, input);
          LoopFirst(p, s, scan, save, here, save + min, a, input, startp, endp);
          return;
        }
        NotHere(p, s, next, here, save + min, wide, input, startp, endp);
        no := no - 1;
        if no < min {
          LoopFails(p, s, scan, save, top, wide);
          LoopLost(p, s, scan, save, input);
        }
        if no < 0 && !wide { no := no + SPAN; }
        if no >= 0 {
          if save + no > |s| { return Lost; }
          input := save + no;
        }
      }
      LoopFails(p, s, scan, save, top, wide);
      LoopNo(p, s, scan, save, save + no, save + min, input);
      return No;
    }

    /** Go on after a loop, unless the first character of what follows does not stand here. */
    method TryNext(next: nat, nextch: Byte, ghost k: nat) returns (a: Answer)
      requires Ends(p, s, next, input, k) && (wide || |s| < SPAN - 1) && startp == NONE && endp == NONE
      requires IsNode(p, next) && (nextch != 0 ==> p[next] == EXACTLY && next + 3 < |p| && nextch == p[next + 3])
      modifies this`input, this`startp, this`endp
      ensures Says(p, s, next, old(input), wide, a, input)
      ensures IsFirst(p, s, next, old(input), a, input, startp, endp)
      decreases k, 3
    {
      hide Ends, Accepts, MeetsStar, Outs, Recorded;
      Inside(p, s, next, input, k);
      if nextch == 0 || CharAt(input) == nextch {
        a := RegMatch(next, k);
      } else {
        RuledOut(p, s, next, input);
        RuledOutOuts(p, s, next, input, k);
        return No;
      }
    }

    /** Try to match at a position; what is found is the first way of the pattern from there. */
    method RegTry(start: nat, ghost t: Alts) returns (a: Answer)
      requires AltsWellFormed(t) && |Program(t)| < SPAN && At(p, 0, Program(t)) && start <= |s|
      requires (wide || |s| < SPAN - 1)
      modifies this`input, this`startp, this`endp
      ensures a == Yes ==> IsMatch(t, s, start, input, startp, endp)
      ensures match a
              case Yes => AltsMatch(t, s, start, input)
              case No => (forall j: nat :: !AltsMatch(t, s, start, j)) && (wide || !MeetsStar(p, s, 1, start))
              case Lost => !wide && MeetsStar(p, s, 1, start)
    {
      hide AltsWellFormed, Program, At, AltsMatch, Accepts, Ends, MeetsStar, Outs, AltsWays, Recorded;
      input := start;
      startp, endp := NONE, NONE;
      ProgramEnds(p, t, s, start);
      ProgramGives(p, t, s, start);
      ghost var k: nat :| Ends(p, s, 1, start, k);
      a := RegMatch(1, k);
      if a == Yes {
        startp, endp := startp[0 := start], endp[0 := input];
      }
      forall j: nat
        ensures Accepts(p, s, 1, start, j) <==> AltsMatch(t, s, start, j)
      {
        CompilationPreservesMeaning(p, t, s, start, j);
      }
    }
  }

  /** The first way of the pattern from `first` ends at `last`, and its groups are recorded. */
  ghost predicate IsMatch(t: Alts, s: seq<Byte>, first: nat, last: nat, startp: seq<int>, endp: seq<int>) {
    var ways := AltsWays(t, s, first);
    && ways != [] && last == ways[0].end
    && startp == Recorded(ways[0].marks, true)[0 := first]
    && endp == Recorded(ways[0].marks, false)[0 := last]
  }

  lemma OneInside(p: seq<Byte>, s: seq<Byte>, n: nat, x: nat)
    requires OneAt(p, s, n, x)
    ensures x < |s|
  {
  }

  lemma OneCharacter(p: seq<Byte>, n: nat)
    requires |CString(p, n)| == 1
    ensures n < |p| && CString(p, n) == [p[n]]
  {
  }

  // ----- the next step -----

  lemma BranchAll(p: seq<Byte>, s: seq<Byte>, n: nat, i: nat)
    requires IsNode(p, n) && p[n] == BRANCH && IsNode(p, Succ(p, n))
    ensures forall j: nat :: Accepts(p, s, n, i, j) <==>
              Accepts(p, s, n + 3, i, j) || (p[Succ(p, n)] == BRANCH && Accepts(p, s, Succ(p, n), i, j))
    ensures MeetsStar(p, s, n, i) <==>
            MeetsStar(p, s, n + 3, i) || (p[Succ(p, n)] == BRANCH && MeetsStar(p, s, Succ(p, n), i))
  {
    hide Succ, Accepts, MeetsStar;
    MeetsBranch(p, s, n, i);
    forall j: nat
      ensures Accepts(p, s, n, i, j) <==>
                Accepts(p, s, n + 3, i, j) || (p[Succ(p, n)] == BRANCH && Accepts(p, s, Succ(p, n), i, j))
    {
      AcceptsBranch(p, s, n, i, j);
    }
  }

  /** A BRANCH that no other follows is no choice. */
  lemma OnlyBranch(p: seq<Byte>, s: seq<Byte>, n: nat, i: nat, k: nat)
    requires Ends(p, s, n, i, k) && p[n] == BRANCH && IsNode(p, Succ(p, n)) && p[Succ(p, n)] != BRANCH
    ensures Ends(p, s, n + 3, i, k - 1) && AsGood(p, s, n, i, n + 3, i)
    ensures Outs(p, s, n, i) == Outs(p, s, n + 3, i)
  {
    hide Succ, Accepts, Ends, MeetsStar, Outs;
    BoundHere(p, s, n, i, k);
    BranchBound(p, s, n, i, k);
    BranchAll(p, s, n, i);
    BranchOuts(p, s, n, i, k);
  }

  // ----- the order of outcomes -----

  /** The ways of the first alternative come before those of the others. */
  lemma BranchOuts(p: seq<Byte>, s: seq<Byte>, n: nat, i: nat, k: nat)
    requires Ends(p, s, n, i, k) && p[n] == BRANCH
    ensures IsNode(p, Succ(p, n))
    ensures Outs(p, s, n, i)
            == Outs(p, s, n + 3, i) + if p[Succ(p, n)] == BRANCH then Outs(p, s, Succ(p, n), i) else []
  {
    hide Succ, Ends, Outs;
    BoundHere(p, s, n, i, k);
    IsSoon(p, s, n, i, k);
    OutsBranch(p, s, n, i);
  }

  lemma FirstEnd(p: seq<Byte>, s: seq<Byte>, n: nat, i: nat)
    requires IsNode(p, n) && p[n] == END && i <= |s|
    ensures IsFirst(p, s, n, i, Yes, i, NONE, NONE)
  {
    hide Outs;
    OutsEnd(p, s, n, i);
  }

  lemma PlainOuts(p: seq<Byte>, s: seq<Byte>, n: nat, i: nat, m: nat, k: nat, ok: bool)
    requires Ends(p, s, n, i, k) && IsPlain(p[n])
    requires if ok then Consumes(p, s, n, i, m) else forall m: nat :: !Consumes(p, s, n, i, m)
    ensures Outs(p, s, n, i) == if ok then After(MarksAt(p[n], i), Outs(p, s, Succ(p, n), m)) else []
  {
    hide Succ, Ends, Outs, Consumes, After;
    BoundHere(p, s, n, i, k);
    IsSoon(p, s, n, i, k);
    if ok { OutsPlain(p, s, n, i, m); } else { OutsNone(p, s, n, i); }
  }

  lemma UnmarkedOuts(p: seq<Byte>, s: seq<Byte>, n: nat, i: nat, m: nat)
    requires IsNode(p, n) && !IsMark(p[n]) && Outs(p, s, n, i) == After(MarksAt(p[n], i), Outs(p, s, Succ(p, n), m))
    ensures Outs(p, s, n, i) == Outs(p, s, Succ(p, n), m)
  {
    hide Succ, Outs, After;
    AfterNone(Outs(p, s, Succ(p, n), m));
  }

  /** The first way from a parenthesis is the first way behind it, with one more mark. */
  lemma MarkFirst(p: seq<Byte>, s: seq<Byte>, n: nat, next: int, i: nat)
    requires IsNode(p, n) && IsMark(p[n]) && Outs(p, s, n, i) == After(MarksAt(p[n], i), Outs(p, s, next, i))
    ensures var x, y := Outs(p, s, n, i), Outs(p, s, next, i);
            && (x == [] <==> y == [])
            && (y != [] ==>
                  && x[0].end == y[0].end
                  && Recorded(x[0].marks, true) == Marked(Recorded(y[0].marks, true), p[n] - OPEN, i)
                  && Recorded(x[0].marks, false) == Marked(Recorded(y[0].marks, false), p[n] - CLOSE, i))
  {
    hide Outs;
    var y := Outs(p, s, next, i);
    if y != [] {
      var m := MarksAt(p[n], i);
      assert (m + y[0].marks)[1..] == y[0].marks;
    }
  }

  /** One more position recorded, unless there is one for the group already. */
  function Marked(r: seq<int>, no: int, i: nat): seq<int> {
    if 0 < no < 10 && no < |r| && r[no] < 0 then r[no := i] else r
  }

  lemma LoopFrom(p: seq<Byte>, s: seq<Byte>, n: nat, i: nat, top: nat, k: nat)
    requires Ends(p, s, n, i, k) && IsRun(p, s, n, i, top)
    ensures Outs(p, s, n, i) == Down(p, s, Succ(p, n), top, i + MinTrips(p[n]))
  {
    hide Succ, Ends, Outs, Down, LoopOuts, ConsumesSome, Accepts, MeetsStar, OneAt;
    BoundHere(p, s, n, i, k);
    LoopAll(p, s, n, i, top);
    IsSoon(p, s, n, i, k);
    OutsLoop(p, s, n, i);
    LoopDown(p, s, n, i, i + MinTrips(p[n]), top, |s|);
  }

  /** Where a number of repetitions leads, every run goes on to an end. */
  lemma LoopBoundAt(p: seq<Byte>, s: seq<Byte>, n: nat, i: nat, top: nat, m: nat, k: nat)
    requires Ends(p, s, n, i, k) && IsRun(p, s, n, i, top) && i + MinTrips(p[n]) <= m <= top
    ensures k > 0 && Ends(p, s, Succ(p, n), m, k - 1)
  {
    hide Succ, Ends, ConsumesSome, Accepts, MeetsStar, OneAt;
    BoundHere(p, s, n, i, k);
    LoopAll(p, s, n, i, top);
    assert ConsumesSome(p, s, Operand(n), MinTrips(p[n]), i, m);
    LoopBound(p, s, n, i, k);
  }

  lemma Inside(p: seq<Byte>, s: seq<Byte>, n: int, i: nat, k: nat)
    requires Ends(p, s, n, i, k)
    ensures i <= |s|
  {
  }

  /** What a number of repetitions leads to, the loop leads to. */
  lemma LoopSays(p: seq<Byte>, s: seq<Byte>, n: nat, i: nat, top: nat, m: nat, wide: bool, a: Answer, end: nat)
    requires IsRun(p, s, n, i, top) && i + MinTrips(p[n]) <= m <= top
    requires a != No && Says(p, s, Succ(p, n), m, wide, a, end)
    ensures Says(p, s, n, i, wide, a, end) && IsLoopAnswer(p, s, n, i, wide, a)
  {
    hide Succ, ConsumesSome, Accepts, MeetsStar, OneAt;
    LoopAll(p, s, n, i, top);
    assert LoopTo(p, s, n, i, m);
  }

  lemma LoopFirst(p: seq<Byte>, s: seq<Byte>, n: nat, i: nat, m: nat, lo: nat, a: Answer, end: nat, startp: seq<int>,
                  endp: seq<int>)
    requires IsNode(p, n) && lo <= m && Outs(p, s, n, i) == Down(p, s, Succ(p, n), m, lo)
    requires a != No && IsFirst(p, s, Succ(p, n), m, a, end, startp, endp)
    ensures IsFirst(p, s, n, i, a, end, startp, endp)
  {
    hide Succ, Outs, Down, Recorded;
    DownStep(p, s, Succ(p, n), m, lo);
  }

  lemma NotHere(p: seq<Byte>, s: seq<Byte>, x: int, m: nat, lo: nat, wide: bool, end: nat, startp: seq<int>,
                endp: seq<int>)
    requires lo <= m && Says(p, s, x, m, wide, No, end) && IsFirst(p, s, x, m, No, end, startp, endp)
    ensures NoWay(p, s, x, m, wide) && startp == NONE && endp == NONE
    ensures Down(p, s, x, m, lo) == Down(p, s, x, m - 1, lo)
  {
    hide Outs, Down, Recorded, Accepts, MeetsStar;
    DownStep(p, s, x, m, lo);
  }

  /** What to answer if no number of repetitions leads on. */
  lemma LoopFails(p: seq<Byte>, s: seq<Byte>, n: nat, i: nat, top: nat, wide: bool)
    requires IsRun(p, s, n, i, top)
    requires forall m: nat :: i + MinTrips(p[n]) <= m <= top ==> NoWay(p, s, Succ(p, n), m, wide)
    ensures var a := if wide || p[n] == PLUS then No else Lost;
            IsLoopAnswer(p, s, n, i, wide, a) && forall end: nat :: Says(p, s, n, i, wide, a, end)
  {
    hide Succ, Accepts, MeetsStar, OneAt, LoopTo;
    NothingLeads(p, s, n, i, top, wide);
  }

  lemma LoopLost(p: seq<Byte>, s: seq<Byte>, n: nat, i: nat, end: nat)
    ensures IsFirst(p, s, n, i, Lost, end, NONE, NONE)
  {
    hide Outs;
  }

  lemma LoopNo(p: seq<Byte>, s: seq<Byte>, n: nat, i: nat, hi: int, lo: nat, end: nat)
    requires IsNode(p, n) && hi < lo && Outs(p, s, n, i) == Down(p, s, Succ(p, n), hi, lo)
    ensures IsFirst(p, s, n, i, No, end, NONE, NONE)
  {
    hide Outs, Succ;
  }

  lemma DownStep(p: seq<Byte>, s: seq<Byte>, x: int, hi: int, lo: nat)
    ensures Down(p, s, x, hi, lo) == if hi < lo then [] else Outs(p, s, x, hi) + Down(p, s, x, hi - 1, lo)
  {
    hide Outs;
  }

  lemma RuledOutOuts(p: seq<Byte>, s: CStr, n: nat, i: nat, k: nat)
    requires Ends(p, s, n, i, k) && IsNode(p, n) && p[n] == EXACTLY && n + 4 <= |p| && p[n + 3] != 0 && i <= |s|
    requires i == |s| || s[i] != p[n + 3]
    ensures Outs(p, s, n, i) == []
  {
    hide Outs, Ends;
    forall m: nat
      ensures !Consumes(p, s, n, i, m)
    {
      FirstStands(p, s, n, i, m);
    }
    PlainOuts(p, s, n, i, i, k, false);
  }

  lemma PlainOn(p: seq<Byte>, s: seq<Byte>, n: nat, i: nat, m: nat, k: nat, ok: bool)
    requires Ends(p, s, n, i, k) && IsPlain(p[n])
    requires if ok then Consumes(p, s, n, i, m) else forall m: nat :: !Consumes(p, s, n, i, m)
    ensures ok ==> Ends(p, s, Succ(p, n), m, k - 1) && IsNode(p, Succ(p, n))
    ensures if ok then AsGood(p, s, n, i, Succ(p, n), m) else NoWay(p, s, n, i, false)
  {
    hide Succ, Accepts, Consumes, MeetsStar;
    MeetsPlain(p, s, n, i);
    if ok && MeetsStar(p, s, n, i) {
      var m': nat :| Consumes(p, s, n, i, m') && MeetsStar(p, s, Succ(p, n), m');
      ConsumesOneWay(p, s, n, i, m, m');
    }
    forall j: nat
      ensures ok ==> (Accepts(p, s, n, i, j) <==> Accepts(p, s, Succ(p, n), m, j))
      ensures !ok ==> !Accepts(p, s, n, i, j)
    {
      AcceptsPlain(p, s, n, i, j);
      if ok && Accepts(p, s, n, i, j) {
        var m': nat :| Consumes(p, s, n, i, m') && Accepts(p, s, Succ(p, n), m', j);
        ConsumesOneWay(p, s, n, i, m, m');
      }
    }
    if ok { BoundHere(p, s, Succ(p, n), m, k - 1); }
  }

  lemma LoopAll(p: seq<Byte>, s: seq<Byte>, n: nat, i: nat, top: nat)
    requires IsRun(p, s, n, i, top)
    ensures forall m: nat :: ConsumesSome(p, s, Operand(n), MinTrips(p[n]), i, m) <==> i + MinTrips(p[n]) <= m <= top
    ensures forall j: nat :: Accepts(p, s, n, i, j) <==>
              exists m: nat :: i + MinTrips(p[n]) <= m <= top && Accepts(p, s, Succ(p, n), m, j)
    ensures MeetsStar(p, s, n, i) <==>
              p[n] == STAR || exists m: nat :: i + MinTrips(p[n]) <= m <= top && MeetsStar(p, s, Succ(p, n), m)
  {
    hide Succ, Accepts, ConsumesSome, OneAt, MeetsStar;
    if p[n] == STAR { MeetsHere(p, s, n, i); } else { MeetsPlus(p, s, n, i); }
    forall m: nat
      ensures ConsumesSome(p, s, Operand(n), MinTrips(p[n]), i, m) <==> i + MinTrips(p[n]) <= m <= top
    {
      SomeOnes(p, s, Operand(n), MinTrips(p[n]), i, top, m);
    }
    forall j: nat
      ensures Accepts(p, s, n, i, j) <==>
                exists m: nat :: i + MinTrips(p[n]) <= m <= top && Accepts(p, s, Succ(p, n), m, j)
    {
      AcceptsLoop(p, s, n, i, j);
    }
  }

  /** If no number of repetitions leads on, the loop does not. */
  lemma NothingLeads(p: seq<Byte>, s: seq<Byte>, n: nat, i: nat, top: nat, wide: bool)
    requires IsRun(p, s, n, i, top)
    requires forall m: nat :: i + MinTrips(p[n]) <= m <= top ==> NoWay(p, s, Succ(p, n), m, wide)
    ensures NoWay(p, s, n, i, wide || p[n] == STAR) && (p[n] == STAR ==> MeetsStar(p, s, n, i))
  {
    hide Succ, Accepts, OneAt, MeetsStar;
    LoopAll(p, s, n, i, top);
    forall j: nat
      ensures !Accepts(p, s, n, i, j)
    {
      forall m: nat | i + MinTrips(p[n]) <= m <= top
        ensures !Accepts(p, s, Succ(p, n), m, j)
      {
        assert NoWay(p, s, Succ(p, n), m, wide);
      }
    }
    forall m: nat | i + MinTrips(p[n]) <= m <= top
      ensures wide || !MeetsStar(p, s, Succ(p, n), m)
    {
      assert NoWay(p, s, Succ(p, n), m, wide);
    }
  }

  lemma RuledOut(p: seq<Byte>, s: CStr, n: nat, i: nat)
    requires IsNode(p, n) && p[n] == EXACTLY && n + 4 <= |p| && p[n + 3] != 0 && i <= |s|
    requires (i == |s| || s[i] != p[n + 3])
    ensures NoWay(p, s, n, i, false)
  {
    forall m: nat
      ensures !Consumes(p, s, n, i, m)
    {
      FirstStands(p, s, n, i, m);
    }
    hide Consumes, Accepts, MeetsStar;
    MeetsPlain(p, s, n, i);
    forall j: nat
      ensures !Accepts(p, s, n, i, j)
    {
      AcceptsPlain(p, s, n, i, j);
    }
  }

  lemma Differs(s: CStr, i: nat, cs: seq<Byte>, len: nat)
    requires len < |cs| && i + len <= |s| && (i + len == |s| || s[i + len] != cs[len])
    ensures forall m: nat :: i <= m <= |s| ==> s[i..m] != cs
  {
    forall m: nat | i <= m <= |s|
      ensures s[i..m] != cs
    {
      if i + len < m { assert s[i..m][len] == s[i + len]; }
    }
  }
}
