/**
 What fgrep(1) looks for and how its automaton moves, over plain strings: the
 states are the prefixes of the keywords, and a failure state is a shorter suffix
 that is a state too.
 */
module FgrepWords {

  // ----- strings -----

  function Init(u: string): string
    requires u != ""
  {
    u[..|u| - 1]
  }

  function Last(u: string): char
    requires u != ""
  {
    u[|u| - 1]
  }

  predicate IsSuffix(u: string, v: string) {
    |u| <= |v| && v[|v| - |u|..] == u
  }

  lemma SuffixTransitive(u: string, v: string, x: string)
    requires IsSuffix(u, v) && IsSuffix(v, x)
    ensures IsSuffix(u, x)
  {
    assert x[|x| - |u|..] == x[|x| - |v|..][|v| - |u|..];
  }

  /** Of two suffixes, the shorter one is a suffix of the other. */
  lemma SuffixOfSuffix(u: string, v: string, x: string)
    requires IsSuffix(u, x) && IsSuffix(v, x) && |u| <= |v|
    ensures IsSuffix(u, v)
  {
    assert x[|x| - |u|..] == x[|x| - |v|..][|v| - |u|..];
  }

  lemma SuffixMore(u: string, v: string, c: char)
    ensures IsSuffix(u + [c], v + [c]) <==> IsSuffix(u, v)
  {
    if |u| <= |v| {
      assert (v + [c])[|v| - |u|..] == v[|v| - |u|..] + [c];
      if IsSuffix(u + [c], v + [c]) {
        assert v[|v| - |u|..] == (v[|v| - |u|..] + [c])[..|u|] == (u + [c])[..|u|] == u;
      }
    }
  }

  /** Both ends of a suffix that is not empty. */
  lemma SuffixEnds(u: string, v: string)
    requires u != "" && IsSuffix(u, v)
    ensures v != "" && Last(u) == Last(v) && IsSuffix(Init(u), Init(v))
    ensures u == Init(u) + [Last(u)] && v == Init(v) + [Last(v)]
  {
    SuffixMore(Init(u), Init(v), Last(v));
  }

  lemma EmptySuffix(v: string)
    ensures IsSuffix("", v) && IsSuffix(v, v)
  {
  }

  lemma SuffixShorter(u: string, v: string)
    requires IsSuffix(u, v)
    ensures u == v || |u| < |v|
  {
  }

  ghost predicate Contains(line: string, k: string) {
    exists i, j :: 0 <= i <= j <= |line| && line[i..j] == k
  }

  lemma EndsAt(line: string, k: string, j: nat)
    requires j <= |line| && IsSuffix(k, line[..j])
    ensures Contains(line, k)
  {
    assert line[j - |k|..j] == k;
  }

  lemma ContainedEnds(line: string, k: string) returns (j: nat)
    requires Contains(line, k)
    ensures |k| <= j <= |line| && IsSuffix(k, line[..j])
  {
    var i, e :| 0 <= i <= e <= |line| && line[i..e] == k;
    j := e;
    assert line[..e][i..] == k;
  }

  // ----- the list of keywords -----

  ghost predicate WordAt(list: string, a: nat, b: nat)
    requires a <= b <= |list|
  {
    && (a == 0 || list[a - 1] == '\n') && (b == |list| || list[b] == '\n')
    && (forall i :: a <= i < b ==> list[i] != '\n')
  }

  /** A line of the list that ends before position e. */
  ghost predicate IsLine(list: string, e: nat, k: string) {
    exists a, b :: 0 <= a <= b < e <= |list| && WordAt(list, a, b) && k == list[a..b]
  }

  /** What stands behind the last newline, if anything does. */
  ghost predicate IsRest(list: string, k: string) {
    exists a :: 0 <= a < |list| && WordAt(list, a, |list|) && k == list[a..]
  }

  ghost predicate IsKeyword(list: string, k: string) {
    IsLine(list, |list|, k) || IsRest(list, k)
  }

  /** Keywords that get a final state: the last one is forgotten if it has no newline and begins an earlier one. */
  ghost predicate IsEntered(list: string, k: string) {
    IsLine(list, |list|, k) || (IsRest(list, k) && forall l :: IsLine(list, |list|, l) ==> !(k <= l))
  }

  lemma NoNewline(list: string, k: string)
    requires IsKeyword(list, k)
    ensures '\n' !in k
  {
    if IsLine(list, |list|, k) {
      var a, b :| 0 <= a <= b < |list| && WordAt(list, a, b) && k == list[a..b];
      assert forall i :: 0 <= i < |k| ==> k[i] == list[a + i];
    } else {
      var a :| 0 <= a < |list| && WordAt(list, a, |list|) && k == list[a..];
      assert forall i :: 0 <= i < |k| ==> k[i] == list[a + i];
    }
  }

  /** A position where a line of the list begins. */
  predicate IsStart(list: string, a: nat)
    requires a <= |list|
  {
    a == 0 || list[a - 1] == '\n'
  }

  predicate NoBreak(list: string, a: nat, b: nat)
    requires b <= |list|
  {
    forall i :: a <= i < b ==> list[i] != '\n'
  }

  lemma LineMore(list: string, a: nat, b: nat, e: nat, k: string)
    requires a <= b < |list| && WordAt(list, a, b) && e == b + 1
    ensures IsLine(list, e, k) <==> IsLine(list, a, k) || k == list[a..b]
  {
    if IsLine(list, e, k) {
      var a', b' :| 0 <= a' <= b' < e && WordAt(list, a', b') && k == list[a'..b'];
      if b' == b { assert a' == a; }
    }
  }

  lemma LinesSame(list: string, a: nat, k: string)
    requires a <= |list| && IsStart(list, a) && NoBreak(list, a, |list|)
    ensures IsLine(list, |list|, k) <==> IsLine(list, a, k)
    ensures IsRest(list, k) <==> a < |list| && k == list[a..]
  {
    if IsLine(list, |list|, k) {
      var a', b' :| 0 <= a' <= b' < |list| && WordAt(list, a', b') && k == list[a'..b'];
      assert b' < a;
    }
    if IsRest(list, k) {
      var a' :| 0 <= a' < |list| && WordAt(list, a', |list|) && k == list[a'..];
      assert a' == a;
    }
    if a < |list| { assert WordAt(list, a, |list|); }
  }

  /** Some line that ends before position e begins with v. */
  ghost predicate BeginsLine(list: string, e: nat, v: string) {
    exists k :: IsLine(list, e, k) && v <= k
  }

  ghost predicate BeginsKeyword(list: string, v: string) {
    exists k :: IsKeyword(list, k) && v <= k
  }

  lemma BeginsMore(list: string, a: nat, b: nat, e: nat, v: string)
    requires a <= b < |list| && WordAt(list, a, b) && e == b + 1
    ensures BeginsLine(list, e, v) <==> BeginsLine(list, a, v) || v <= list[a..b]
  {
    hide IsLine;
    LineMore(list, a, b, e, list[a..b]);
    if BeginsLine(list, e, v) {
      var k :| IsLine(list, e, k) && v <= k;
      LineMore(list, a, b, e, k);
    }
    if BeginsLine(list, a, v) {
      var k :| IsLine(list, a, k) && v <= k;
      LineMore(list, a, b, e, k);
    }
  }

  lemma BeginsSame(list: string, a: nat, v: string)
    requires a <= |list| && IsStart(list, a) && NoBreak(list, a, |list|)
    ensures BeginsKeyword(list, v) <==> BeginsLine(list, a, v) || (a < |list| && v <= list[a..])
  {
    hide IsLine, IsRest;
    LinesSame(list, a, list[a..]);
    if a < |list| { assert IsKeyword(list, list[a..]); }
    if BeginsKeyword(list, v) {
      var k :| IsKeyword(list, k) && v <= k;
      LinesSame(list, a, k);
    }
    if BeginsLine(list, a, v) {
      var k :| IsLine(list, a, k) && v <= k;
      LinesSame(list, a, k);
      assert IsKeyword(list, k);
    }
  }

  /** The states for a list: what its lines begin with. */
  ghost function StatesOf(list: string): set<string> {
    set a, b | 0 <= a <= b <= |list| && IsStart(list, a) && NoBreak(list, a, b) :: list[a..b]
  }

  ghost function WordsOf(list: string): set<string> {
    set k | k in StatesOf(list) && IsEntered(list, k)
  }

  lemma {:induction false} LineEnd(list: string, a: nat, b: nat) returns (e: nat)
    requires a <= b <= |list| && IsStart(list, a) && NoBreak(list, a, b)
    ensures b <= e <= |list| && WordAt(list, a, e)
    decreases |list| - b
  {
    if b == |list| || list[b] == '\n' { e := b; } else { e := LineEnd(list, a, b + 1); }
  }

  lemma StatesBegin(list: string, v: string)
    ensures v in StatesOf(list) <==> v == "" || BeginsKeyword(list, v)
  {
    assert IsStart(list, 0) && NoBreak(list, 0, 0) && list[0..0] == "";
    if v in StatesOf(list) && v != "" { StateBegins(list, v); }
    if BeginsKeyword(list, v) {
      var k :| IsKeyword(list, k) && v <= k;
      var a, b := KeywordAt(list, k);
      assert IsStart(list, a) && NoBreak(list, a, a + |v|) && v == list[a..a + |v|];
    }
  }

  lemma StateBegins(list: string, v: string)
    requires v in StatesOf(list) && v != ""
    ensures BeginsKeyword(list, v)
  {
    var a, b :| 0 <= a <= b <= |list| && IsStart(list, a) && NoBreak(list, a, b) && v == list[a..b];
    var e := LineEnd(list, a, b);
    assert v <= list[a..e];
    assert e == |list| ==> list[a..e] == list[a..];
    assert IsKeyword(list, list[a..e]);
  }

  lemma KeywordAt(list: string, k: string) returns (a: nat, b: nat)
    requires IsKeyword(list, k)
    ensures a <= b <= |list| && WordAt(list, a, b) && k == list[a..b]
  {
    if IsLine(list, |list|, k) {
      a, b :| 0 <= a <= b < |list| && WordAt(list, a, b) && k == list[a..b];
    } else {
      a :| 0 <= a < |list| && WordAt(list, a, |list|) && k == list[a..];
      b := |list|;
    }
  }

  /** No two keywords begin with different characters. */
  ghost predicate OneLetter(states: set<string>) {
    forall c, d :: [c] in states && [d] in states ==> c == d
  }

  // ----- states and failure states -----

  lemma {:induction false} PrefixIn(states: set<string>, u: string, v: string)
    requires IsStates(states) && v in states && u <= v
    ensures u in states
    decreases |v|
  {
    if u != v { PrefixIn(states, u, Init(v)); }
  }

  ghost predicate IsStates(states: set<string>) {
    "" in states && forall v :: v in states && v != "" ==> Init(v) in states
  }

  /**
   The failure state, as it is found: where the last character leads from the
   failure state of what is before it, or else from the first state.
   */
  ghost function Fail(states: set<string>, u: string): (f: string)
    ensures if u == "" then f == "" else |f| < |u|
  {
    if |u| <= 1 then ""
    else
      var v, c := Fail(states, Init(u)), Last(u);
      if v != "" && v + [c] in states then v + [c] else if [c] in states then [c] else ""
  }

  lemma {:induction false} FailSuffix(states: set<string>, u: string)
    requires IsStates(states)
    ensures Fail(states, u) in states && IsSuffix(Fail(states, u), u)
    decreases |u|
  {
    hide IsSuffix;
    EmptySuffix(u);
    if |u| > 1 {
      EmptySuffix(Init(u));
      FailSuffix(states, Init(u));
      SuffixMore(Fail(states, Init(u)), Init(u), Last(u));
      SuffixMore("", Init(u), Last(u));
      assert [Last(u)] == "" + [Last(u)] && u == Init(u) + [Last(u)];
    }
  }

  lemma FailNext(states: set<string>, v: string, c: char)
    requires v != ""
    ensures var f := Fail(states, v);
            Fail(states, v + [c]) == if f != "" && f + [c] in states then f + [c] else if [c] in states then [c] else ""
  {
    assert Init(v + [c]) == v;
  }

  /** A state is final if it is a word or its failure state is final. */
  ghost predicate Hits(states: set<string>, words: set<string>, u: string)
    decreases |u|
  {
    u in words || (Fail(states, u) != "" && Hits(states, words, Fail(states, u)))
  }

  ghost function Step(states: set<string>, u: string, c: char): string
    decreases |u|
  {
    if u + [c] in states then u + [c] else if u == "" then "" else Step(states, Fail(states, u), c)
  }

  /** The state after a text that was read from state u on. */
  ghost function RunFrom(states: set<string>, u: string, text: string): string
    decreases |text|
  {
    if text == "" then u else Step(states, RunFrom(states, u, Init(text)), Last(text))
  }

  ghost function Run(states: set<string>, text: string): string {
    RunFrom(states, "", text)
  }

  ghost predicate HitsAt(states: set<string>, words: set<string>, text: string, j: nat)
    requires j <= |text|
  {
    Run(states, text[..j]) != "" && Hits(states, words, Run(states, text[..j]))
  }

  /** A character that is in no state leads to the first one. */
  lemma {:induction false} StepOut(states: set<string>, u: string, c: char)
    requires forall v :: v in states ==> c !in v
    ensures Step(states, u, c) == ""
    decreases |u|
  {
    assert c in u + [c];
    if u != "" { StepOut(states, Fail(states, u), c); }
  }

  /** Some state met is final. */
  ghost predicate Reports(states: set<string>, words: set<string>, text: string) {
    exists j :: 0 <= j <= |text| && HitsAt(states, words, text, j)
  }

  ghost predicate HasWord(words: set<string>, text: string) {
    exists k :: k in words && k != "" && Contains(text, k)
  }

  // ----- what is reported is there -----

  lemma {:induction false} StepSuffix(states: set<string>, u: string, c: char)
    requires IsStates(states) && u in states
    ensures Step(states, u, c) in states && IsSuffix(Step(states, u, c), u + [c])
    decreases |u|
  {
    if u + [c] !in states && u != "" {
      var f := Fail(states, u);
      FailSuffix(states, u);
      StepSuffix(states, f, c);
      SuffixMore(f, u, c);
      SuffixTransitive(Step(states, f, c), f + [c], u + [c]);
    }
  }

  /** The current state is a suffix of what was read. */
  lemma {:induction false} RunSuffix(states: set<string>, text: string)
    requires IsStates(states)
    ensures Run(states, text) in states && IsSuffix(Run(states, text), text)
    decreases |text|
  {
    if text != "" {
      var t, c := Init(text), Last(text);
      RunSuffix(states, t);
      StepSuffix(states, Run(states, t), c);
      SuffixMore(Run(states, t), t, c);
      assert text == t + [c];
      SuffixTransitive(Run(states, text), Run(states, t) + [c], text);
    }
  }

  lemma {:induction false} HitsSound(states: set<string>, words: set<string>, u: string)
    requires IsStates(states) && Hits(states, words, u) && u != ""
    ensures exists k :: k in words && k != "" && IsSuffix(k, u)
    decreases |u|
  {
    EmptySuffix(u);
    if u !in words {
      var f := Fail(states, u);
      FailSuffix(states, u);
      HitsSound(states, words, f);
      var k :| k in words && k != "" && IsSuffix(k, f);
      SuffixTransitive(k, f, u);
    }
  }

  lemma ReportsSound(states: set<string>, words: set<string>, text: string)
    requires IsStates(states) && Reports(states, words, text)
    ensures HasWord(words, text)
  {
    var j :| 0 <= j <= |text| && HitsAt(states, words, text, j);
    var u := Run(states, text[..j]);
    RunSuffix(states, text[..j]);
    HitsSound(states, words, u);
    var k :| k in words && k != "" && IsSuffix(k, u);
    SuffixTransitive(k, u, text[..j]);
    EndsAt(text, k, j);
  }

  // ----- when failure states are the longest ones -----

  ghost predicate IsLongest(states: set<string>, u: string, w: string) {
    && w in states && IsSuffix(w, u) && |w| < |u|
    && forall v :: v in states && IsSuffix(v, u) && |v| < |u| ==> |v| <= |w|
  }

  ghost predicate AllLongest(states: set<string>) {
    forall u :: u in states && u != "" ==> IsLongest(states, u, Fail(states, u))
  }

  /**
   A condition on the keywords alone: if some shorter suffix of x, of two
   characters or more, is a state, then so is the one reached through the longest
   suffix of what is before the last character. The search for a failure state
   tries no other before it drops to the first state.
   */
  ghost predicate NothingSkipped(states: set<string>) {
    forall x, y :: x in states && y in states && 2 <= |y| < |x| && IsSuffix(y, x) ==> Extends(states, x)
  }

  ghost predicate Extends(states: set<string>, x: string)
    requires x != ""
  {
    exists w :: IsLongest(states, Init(x), w) && w + [Last(x)] in states
  }

  /** An easy test: no string of two characters or more inside a keyword, away from its start, begins a keyword. */
  ghost predicate NoInnerStart(states: set<string>) {
    forall x, y :: x in states && y in states && |y| >= 2 && IsSuffix(y, x) ==> y == x
  }

  lemma EasyTest(states: set<string>)
    requires NoInnerStart(states)
    ensures NothingSkipped(states)
  {
  }

  lemma LongestUnique(states: set<string>, u: string, v: string, w: string)
    requires IsLongest(states, u, v) && IsLongest(states, u, w)
    ensures v == w
  {
    SuffixOfSuffix(v, w, u);
  }

  /** Failure states are the longest suffixes exactly when the search for them skips nothing. */
  lemma LongestIff(states: set<string>)
    requires IsStates(states)
    ensures AllLongest(states) <==> NothingSkipped(states)
  {
    if AllLongest(states) {
      forall x, y | x in states && y in states && 2 <= |y| < |x| && IsSuffix(y, x)
        ensures Extends(states, x)
      {
        assert IsLongest(states, x, Fail(states, x));
        assert IsLongest(states, Init(x), Fail(states, Init(x)));
      }
    }
    if NothingSkipped(states) {
      forall u | u in states && u != ""
        ensures IsLongest(states, u, Fail(states, u))
      {
        FailLongest(states, u);
      }
    }
  }

  lemma {:induction false} FailLongest(states: set<string>, u: string)
    requires IsStates(states) && NothingSkipped(states) && u in states && u != ""
    ensures IsLongest(states, u, Fail(states, u))
    decreases |u|
  {
    FailSuffix(states, u);
    if |u| > 1 {
      FailLongest(states, Init(u));
      forall v | v in states && IsSuffix(v, u) && |v| < |u|
        ensures |v| <= |Fail(states, u)|
      {
        FailAtLeast(states, u, v);
      }
    }
  }

  lemma FailAtLeast(states: set<string>, u: string, v: string)
    requires IsStates(states) && NothingSkipped(states) && u in states && |u| > 1
    requires IsLongest(states, Init(u), Fail(states, Init(u))) && v in states && IsSuffix(v, u) && |v| < |u|
    ensures |v| <= |Fail(states, u)|
  {
    hide IsSuffix;
    if v != "" {
      SuffixEnds(v, u);
      if |v| == 1 {
        assert v == [Last(u)];
      } else {
        assert Extends(states, u);
        var w :| IsLongest(states, Init(u), w) && w + [Last(u)] in states;
        LongestUnique(states, Init(u), w, Fail(states, Init(u)));
      }
    }
  }

  // ----- what is there is reported -----

  lemma {:induction false} StepLongest(states: set<string>, u: string, c: char, v: string)
    requires IsStates(states) && AllLongest(states) && u in states && v in states && IsSuffix(v, u) && v + [c] in states
    ensures |v| + 1 <= |Step(states, u, c)|
    decreases |u|
  {
    if u + [c] !in states {
      var f := Fail(states, u);
      SuffixShorter(v, u);
      assert IsLongest(states, u, f);
      SuffixOfSuffix(v, f, u);
      StepLongest(states, f, c, v);
    }
  }

  /** The current state is the longest suffix of what was read. */
  lemma {:induction false} RunLongest(states: set<string>, text: string, v: string)
    requires IsStates(states) && AllLongest(states) && v in states && IsSuffix(v, text)
    ensures |v| <= |Run(states, text)|
    decreases |text|
  {
    if v != "" {
      SuffixEnds(v, text);
      var t := Init(text);
      RunSuffix(states, t);
      RunLongest(states, t, Init(v));
      SuffixOfSuffix(Init(v), Run(states, t), t);
      StepLongest(states, Run(states, t), Last(text), Init(v));
    }
  }

  lemma {:induction false} HitsComplete(states: set<string>, words: set<string>, u: string, k: string)
    requires IsStates(states) && AllLongest(states) && words <= states && u in states
    requires k in words && k != "" && IsSuffix(k, u)
    ensures Hits(states, words, u)
    decreases |u|
  {
    if |k| == |u| {
      assert k == u;
    } else {
      var f := Fail(states, u);
      assert IsLongest(states, u, f);
      SuffixOfSuffix(k, f, u);
      HitsComplete(states, words, f, k);
    }
  }

  /** If nothing is skipped, a text is reported exactly when it contains a word. */
  lemma ReportsIff(states: set<string>, words: set<string>, text: string)
    requires IsStates(states) && NothingSkipped(states) && words <= states
    ensures Reports(states, words, text) <==> HasWord(words, text)
  {
    LongestIff(states);
    if Reports(states, words, text) { ReportsSound(states, words, text); }
    if HasWord(words, text) {
      var k :| k in words && k != "" && Contains(text, k);
      var j := ContainedEnds(text, k);
      var t := text[..j];
      RunSuffix(states, t);
      RunLongest(states, t, k);
      SuffixOfSuffix(k, Run(states, t), t);
      HitsComplete(states, words, Run(states, t), k);
      assert HitsAt(states, words, text, j);
    }
  }

  // ----- exactly when every text is decided right -----

  /** The texts that decide: a word after a state that holds none. */
  ghost predicate DecidesRight(states: set<string>, words: set<string>) {
    forall u, k :: u in states && k in words && k != "" && !HasWord(words, u) ==> Reports(states, words, u + k)
  }

  lemma {:induction false} RunsOn(states: set<string>, u: string, x: string, y: string)
    ensures RunFrom(states, u, x + y) == RunFrom(states, RunFrom(states, u, x), y)
    decreases |y|
  {
    if y == "" {
      assert x + y == x;
    } else {
      assert Init(x + y) == x + Init(y);
      RunsOn(states, u, x, Init(y));
    }
  }

  /** Reading a state leads to it. */
  lemma {:induction false} RunState(states: set<string>, u: string)
    requires IsStates(states) && u in states
    ensures Run(states, u) == u
    decreases |u|
  {
    if u != "" {
      RunState(states, Init(u));
      assert u == Init(u) + [Last(u)];
    }
  }

  lemma WordBefore(words: set<string>, text: string, j: nat, u: string)
    requires j <= |text| && IsSuffix(u, text[..j]) && HasWord(words, u)
    ensures exists k, e :: k in words && k != "" && 0 <= e <= j && IsSuffix(k, text[..e])
  {
    var k :| k in words && k != "" && Contains(u, k);
    var e := ContainedEnds(u, k);
    var d := j - |u|;
    assert text[..j][d..] == u;
    assert u[..e] == text[d..d + e];
    EmptySuffix(u[..e]);
    assert text[..d + e][d..] == u[..e];
    SuffixTransitive(k, u[..e], text[..d + e]);
  }

  /** Of the words in a text, some occurrence ends first. */
  lemma {:induction false} FirstWord(words: set<string>, text: string, j: nat) returns (k: string, e: nat)
    requires j <= |text| && exists k :: k in words && k != "" && IsSuffix(k, text[..j])
    ensures k in words && k != "" && e <= j && IsSuffix(k, text[..e])
    ensures forall l, i :: l in words && l != "" && 0 <= i < e ==> !IsSuffix(l, text[..i])
    decreases j
  {
    if l, i :| l in words && l != "" && 0 <= i < j && IsSuffix(l, text[..i]) {
      k, e := FirstWord(words, text, i);
    } else {
      k :| k in words && k != "" && IsSuffix(k, text[..j]);
      e := j;
    }
  }

  lemma WordFound(states: set<string>, words: set<string>, text: string)
    requires IsStates(states) && DecidesRight(states, words) && HasWord(words, text)
    ensures Reports(states, words, text)
  {
    hide IsSuffix, Contains, Hits, RunFrom, Step;
    var l :| l in words && l != "" && Contains(text, l);
    var j := ContainedEnds(text, l);
    var k, e := FirstWord(words, text, j);
    var b := StartOf(text, k, e);
    FoundAt(states, words, text, k, b);
  }

  /** The word that ends first is found when it has been read. */
  lemma FoundAt(states: set<string>, words: set<string>, text: string, k: string, b: nat)
    requires IsStates(states) && DecidesRight(states, words) && k in words && k != ""
    requires b + |k| <= |text| && text[b..b + |k|] == k
    requires forall l, i :: l in words && l != "" && 0 <= i < b + |k| ==> !IsSuffix(l, text[..i])
    ensures Reports(states, words, text)
  {
    hide IsSuffix, Contains, RunFrom, HitsAt, HasWord, IsStates;
    var u := Run(states, text[..b]);
    RunSuffix(states, text[..b]);
    if HasWord(words, u) {
      WordBefore(words, text, b, u);
      assert false;
    }
    assert Reports(states, words, u + k);
    var i :| 0 <= i <= |u + k| && HitsAt(states, words, u + k, i);
    if i <= |u| {
      Early(states, words, u, k, i);
    } else {
      Late(states, words, text, u, k, b, i);
    }
  }

  lemma StartOf(text: string, k: string, e: nat) returns (b: nat)
    requires e <= |text| && IsSuffix(k, text[..e]) && k != ""
    ensures b < e && b + |k| == e && text[b..e] == k
  {
    b := e - |k|;
    assert text[..e][b..] == text[b..e];
  }

  /** No final state is met inside a state that holds no word. */
  lemma Early(states: set<string>, words: set<string>, u: string, k: string, i: nat)
    requires IsStates(states) && u in states && i <= |u| && HitsAt(states, words, u + k, i)
    ensures HasWord(words, u)
  {
    assert (u + k)[..i] == u[..i];
    assert HitsAt(states, words, u, i);
    ReportsSound(states, words, u);
  }

  lemma Late(states: set<string>, words: set<string>, text: string, u: string, k: string, b: nat, i: nat)
    requires IsStates(states) && b + |k| <= |text| && text[b..b + |k|] == k && u == Run(states, text[..b])
    requires u in states && |u| < i <= |u + k| && HitsAt(states, words, u + k, i)
    ensures Reports(states, words, text)
  {
    hide IsStates, Hits, RunFrom;
    var m := i - |u|;
    assert (u + k)[..i] == u + k[..m];
    RunsOn(states, "", u, k[..m]);
    RunState(states, u);
    assert text[..b + m] == text[..b] + k[..m];
    RunsOn(states, "", text[..b], k[..m]);
    assert HitsAt(states, words, text, b + m);
  }

  ghost predicate IsText(text: string) {
    '\n' !in text && '\0' !in text
  }

  ghost predicate AreTexts(states: set<string>) {
    forall v :: v in states ==> IsText(v)
  }

  /** Every text is decided right exactly when finitely many are, each made of a state and a word. */
  lemma DecidedByFew(states: set<string>, words: set<string>)
    requires IsStates(states) && AreTexts(states) && AreTexts(words)
    ensures DecidesRight(states, words) <==> forall text :: IsText(text) ==> (Reports(states, words, text) <==>
              HasWord(words, text))
  {
    hide Reports;
    if DecidesRight(states, words) {
      forall text
        ensures Reports(states, words, text) <==> HasWord(words, text)
      {
        if HasWord(words, text) { WordFound(states, words, text); }
        if Reports(states, words, text) { ReportsSound(states, words, text); }
      }
    }
    if forall text :: IsText(text) ==> (Reports(states, words, text) <==> HasWord(words, text)) {
      forall u, k | u in states && k in words && k != ""
        ensures Reports(states, words, u + k)
      {
        assert IsText(u) && IsText(k) && IsText(u + k);
        assert (u + k)[|u|..|u + k|] == k;
        assert Contains(u + k, k);
      }
    }
  }

  // ----- the whole program -----

  /** What the program decides about a line; an empty keyword shows only if the first state has one node. */
  ghost predicate Finds(list: string, line: string) {
    || Reports(StatesOf(list), WordsOf(list), line)
    || ("" in WordsOf(list) && OneLetter(StatesOf(list)))
  }

  ghost predicate HasKeyword(list: string, line: string) {
    exists k :: IsKeyword(list, k) && Contains(line, k)
  }

  ghost predicate HasEntered(list: string, line: string) {
    exists k :: IsEntered(list, k) && Contains(line, k)
  }

  lemma ListStates(list: string)
    requires '\0' !in list
    ensures IsStates(StatesOf(list)) && AreTexts(StatesOf(list)) && AreTexts(WordsOf(list))
    ensures WordsOf(list) <= StatesOf(list)
    ensures forall k :: k in WordsOf(list) <==> IsEntered(list, k)
  {
    var states := StatesOf(list);
    forall v | v in states
      ensures IsText(v) && (v != "" ==> Init(v) in states)
    {
      var a, b :| 0 <= a <= b <= |list| && IsStart(list, a) && NoBreak(list, a, b) && v == list[a..b];
      assert forall i :: 0 <= i < |v| ==> v[i] == list[a + i];
      if v != "" { assert NoBreak(list, a, b - 1) && Init(v) == list[a..b - 1]; }
    }
    StatesBegin(list, "");
    forall k | IsEntered(list, k)
      ensures k in states
    {
      assert IsKeyword(list, k);
      StatesBegin(list, k);
    }
  }

  lemma EnteredIff(list: string, line: string)
    requires '\0' !in list
    ensures HasEntered(list, line) <==> "" in WordsOf(list) || HasWord(WordsOf(list), line)
  {
    hide IsEntered, Contains, StatesOf;
    ListStates(list);
    if "" in WordsOf(list) { EmptyContained(line); }
  }

  lemma EmptyContained(line: string)
    ensures Contains(line, "")
  {
    assert line[0..0] == "";
  }

  /** A line is found only if it contains a keyword. */
  lemma FindsSound(list: string, line: string)
    requires '\0' !in list && Finds(list, line)
    ensures HasEntered(list, line) && HasKeyword(list, line)
  {
    hide StatesOf, Reports, HasWord;
    ListStates(list);
    if Reports(StatesOf(list), WordsOf(list), line) { ReportsSound(StatesOf(list), WordsOf(list), line); }
    EnteredIff(list, line);
    var k :| IsEntered(list, k) && Contains(line, k);
    assert IsKeyword(list, k);
  }

  /** If nothing is skipped, a line is found exactly when it contains a keyword that was entered. */
  lemma FindsIff(list: string, line: string)
    requires '\0' !in list && NothingSkipped(StatesOf(list)) && ("" in WordsOf(list) ==> OneLetter(StatesOf(list)))
    ensures Finds(list, line) <==> HasEntered(list, line)
  {
    hide StatesOf, Reports, HasWord, NothingSkipped, OneLetter;
    ListStates(list);
    ReportsIff(StatesOf(list), WordsOf(list), line);
    EnteredIff(list, line);
  }

  /** The condition, on the list alone, under which every line is decided right. */
  ghost predicate IsGoodList(list: string) {
    && (if "" in WordsOf(list) then OneLetter(StatesOf(list)) else DecidesRight(StatesOf(list), WordsOf(list)))
    && forall k :: IsKeyword(list, k) ==> HasEntered(list, k)
  }

  lemma ContainsMore(line: string, k: string, l: string)
    requires Contains(line, k) && Contains(k, l)
    ensures Contains(line, l)
  {
    var i, j :| 0 <= i <= j <= |line| && line[i..j] == k;
    var a, b :| 0 <= a <= b <= |k| && k[a..b] == l;
    PartOfPart(line, i, j, a, b);
  }

  lemma PartOfPart(line: string, i: nat, j: nat, a: nat, b: nat)
    requires i <= j <= |line| && a <= b <= j - i
    ensures line[i + a..i + b] == line[i..j][a..b]
  {
    var x, y := line[i + a..i + b], line[i..j][a..b];
    forall t | 0 <= t < |x|
      ensures x[t] == y[t]
    {
      assert x[t] == line[i + a + t] && y[t] == line[i..j][a + t];
    }
  }

  /** Every line is found exactly when it contains a keyword, if and only if the list is good. */
  lemma AllFoundIff(list: string)
    requires '\0' !in list
    ensures IsGoodList(list) <==> forall line :: IsText(line) ==> (Finds(list, line) <==> HasKeyword(list, line))
  {
    hide StatesOf, WordsOf, Reports, HasWord, DecidesRight, OneLetter, IsEntered, IsKeyword, Contains, IsText, Finds;
    if IsGoodList(list) {
      forall line | IsText(line)
        ensures Finds(list, line) <==> HasKeyword(list, line)
      {
        GoodFinds(list, line);
      }
    }
    if forall line :: IsText(line) ==> (Finds(list, line) <==> HasKeyword(list, line)) {
      GoodNeeded(list);
    }
  }

  lemma GoodFinds(list: string, line: string)
    requires '\0' !in list && IsGoodList(list) && IsText(line)
    ensures Finds(list, line) <==> HasKeyword(list, line)
  {
    hide StatesOf, WordsOf, Reports, HasWord, DecidesRight, OneLetter, IsEntered, IsKeyword, Contains, IsText;
    ListStates(list);
    EnteredIff(list, line);
    if Finds(list, line) { FindsSound(list, line); }
    if HasKeyword(list, line) {
      var k :| IsKeyword(list, k) && Contains(line, k);
      var l :| IsEntered(list, l) && Contains(k, l);
      ContainsMore(line, k, l);
      if "" !in WordsOf(list) { DecidedByFew(StatesOf(list), WordsOf(list)); }
    }
  }

  lemma GoodNeeded(list: string)
    requires '\0' !in list && forall line :: IsText(line) ==> (Finds(list, line) <==> HasKeyword(list, line))
    ensures IsGoodList(list)
  {
    hide StatesOf, WordsOf, Reports, HasWord, DecidesRight, OneLetter, IsEntered, IsStates;
    ListStates(list);
    forall k | IsKeyword(list, k)
      ensures HasEntered(list, k)
    {
      assert IsText(k) by { KeywordText(list, k); }
      assert Contains(k, k) by { assert k[0..|k|] == k; }
      assert HasKeyword(list, k);
      FindsSound(list, k);
    }
    forall line | IsText(line)
      ensures Finds(list, line) <==> HasEntered(list, line)
    {
      if Finds(list, line) { FindsSound(list, line); }
      if HasEntered(list, line) {
        var k :| IsEntered(list, k) && Contains(line, k);
        EnteredKeyword(list, k);
      }
    }
    if "" in WordsOf(list) {
      EnteredIff(list, "");
      NothingRead(StatesOf(list), WordsOf(list));
    } else {
      forall line | IsText(line)
        ensures Reports(StatesOf(list), WordsOf(list), line) <==> HasWord(WordsOf(list), line)
      {
        EnteredIff(list, line);
      }
      DecidedByFew(StatesOf(list), WordsOf(list));
    }
  }

  lemma NothingRead(states: set<string>, words: set<string>)
    ensures !Reports(states, words, "")
  {
  }

  lemma EnteredKeyword(list: string, k: string)
    requires IsEntered(list, k)
    ensures IsKeyword(list, k)
  {
  }

  lemma KeywordText(list: string, k: string)
    requires IsKeyword(list, k) && '\0' !in list
    ensures IsText(k)
  {
    NoNewline(list, k);
    var a, b := KeywordAt(list, k);
  }

  // ----- a line that is missed -----

  const MISSED_LIST := "abcde\nbcy\ncdz\n"

  /** The lines of the list. */
  lemma MissedParts()
    ensures var list := MISSED_LIST;
            list[0..5] == "abcde" && list[6..9] == "bcy" && list[10..13] == "cdz" && list[14..14] == "" && |list| == 14
  {
  }

  lemma MissedBreaks(i: nat)
    requires i < |MISSED_LIST|
    ensures MISSED_LIST[i] == '\n' <==> i == 5 || i == 9 || i == 13
  {
  }

  lemma MissedAt(a: nat, b: nat)
    requires a <= b <= |MISSED_LIST| && IsStart(MISSED_LIST, a) && NoBreak(MISSED_LIST, a, b)
    ensures (a == 0 && b <= 5) || (a == 6 && b <= 9) || (a == 10 && b <= 13) || (a == 14 && b == 14)
  {
    MissedBreaks(5);
    MissedBreaks(9);
    MissedBreaks(13);
    if a > 0 { MissedBreaks(a - 1); }
  }

  lemma MissedStarts(v: string)
    requires v in StatesOf(MISSED_LIST)
    ensures v <= "abcde" || v <= "bcy" || v <= "cdz"
  {
    var list := MISSED_LIST;
    var a, b :| 0 <= a <= b <= |list| && IsStart(list, a) && NoBreak(list, a, b) && v == list[a..b];
    MissedAt(a, b);
    MissedParts();
    var e := if a == 0 then 5 else if a == 6 then 9 else if a == 10 then 13 else 14;
    PrefixOfPart(list, a, b, e);
  }

  lemma PrefixOfPart(list: string, a: nat, b: nat, e: nat)
    requires a <= b <= e <= |list|
    ensures list[a..b] <= list[a..e]
  {
  }

  lemma MissedStates()
    ensures var states := StatesOf(MISSED_LIST);
            && "a" in states && "ab" in states && "abc" in states && "abcd" in states
            && "b" in states && "bc" in states && "c" in states
            && "abcdz" !in states && "bcd" !in states && "d" !in states && "z" !in states
  {
    hide StatesOf;
    MissedParts();
    MissedIn(0, 1, 5);
    MissedIn(0, 2, 5);
    MissedIn(0, 3, 5);
    MissedIn(0, 4, 5);
    MissedIn(6, 1, 9);
    MissedIn(6, 2, 9);
    MissedIn(10, 1, 13);
    MissedHeads();
    MissedNot("abcdz", 4, 0, 0);
    MissedNot("bcd", 0, 2, 0);
    MissedNot("d", 0, 0, 0);
    MissedNot("z", 0, 0, 0);
  }

  lemma MissedHeads()
    ensures "abcde"[..1] == "a" && "abcde"[..2] == "ab" && "abcde"[..3] == "abc" && "abcde"[..4] == "abcd"
    ensures "bcy"[..1] == "b" && "bcy"[..2] == "bc" && "cdz"[..1] == "c"
  {
  }

  /** What a line of the list begins with is a state. */
  lemma MissedIn(a: nat, n: nat, e: nat)
    requires (a == 0 && e == 5) || (a == 6 && e == 9) || (a == 10 && e == 13)
    requires a + n <= e
    ensures e <= |MISSED_LIST| && MISSED_LIST[a..e][..n] in StatesOf(MISSED_LIST)
  {
    var list := MISSED_LIST;
    forall i | a <= i < a + n
      ensures list[i] != '\n'
    {
      MissedBreaks(i);
    }
    if a > 0 { MissedBreaks(a - 1); }
    assert IsStart(list, a) && NoBreak(list, a, a + n);
    assert list[a..e][..n] == list[a..a + n];
  }

  lemma MissedNot(v: string, i: nat, j: nat, k: nat)
    requires i < |v| && i < 5 && v[i] != "abcde"[i] && j < |v| && j < 3 && v[j] != "bcy"[j]
    requires k < |v| && k < 3 && v[k] != "cdz"[k]
    ensures v !in StatesOf(MISSED_LIST)
  {
    if v in StatesOf(MISSED_LIST) { MissedStarts(v); }
  }

  lemma MissedWordAt(a: nat, b: nat)
    requires a <= b < |MISSED_LIST| && WordAt(MISSED_LIST, a, b)
    ensures (a == 0 && b == 5) || (a == 6 && b == 9) || (a == 10 && b == 13)
  {
    MissedBreaks(b);
    MissedAt(a, b);
  }

  lemma MissedNoRest(k: string)
    ensures !IsRest(MISSED_LIST, k)
  {
    MissedBreaks(13);
  }

  lemma MissedWords(k: string)
    requires k in WordsOf(MISSED_LIST)
    ensures k == "abcde" || k == "bcy" || k == "cdz"
  {
    MissedNoRest(k);
    MissedParts();
    hide IsRest, WordAt;
    var list := MISSED_LIST;
    var a, b :| 0 <= a <= b < |list| && WordAt(list, a, b) && k == list[a..b];
    MissedWordAt(a, b);
  }

  lemma MissedFails()
    ensures var states := StatesOf(MISSED_LIST);
            && Fail(states, "ab") == "b" && Fail(states, "abc") == "bc" && Fail(states, "abcd") == "" &&
              Fail(states, "bc") == "c"
  {
    hide StatesOf;
    var states := StatesOf(MISSED_LIST);
    MissedStates();
    assert Init("ab") == "a" && Init("abc") == "ab" && Init("abcd") == "abc" && Init("bc") == "b";
    assert "b" + "c" == "bc" && "bc" + "d" == "bcd";
    assert Fail(states, "a") == "" && Fail(states, "b") == "";
    assert Fail(states, "ab") == "b";
    assert Fail(states, "abc") == "bc";
  }

  lemma MissedRuns()
    ensures var states := StatesOf(MISSED_LIST);
            && Run(states, "") == "" && Run(states, "a") == "a" && Run(states, "ab") == "ab" &&
              Run(states, "abc") == "abc"
            && Run(states, "abcd") == "abcd" && Run(states, "abcdz") == ""
  {
    hide StatesOf, Fail;
    var states := StatesOf(MISSED_LIST);
    MissedStates();
    MissedFails();
    assert Init("a") == "" && Init("ab") == "a" && Init("abc") == "ab" && Init("abcd") == "abc" &&
      Init("abcdz") == "abcd";
    assert "" + "a" == "a" && "a" + "b" == "ab" && "ab" + "c" == "abc" && "abc" + "d" == "abcd" &&
      "abcd" + "z" == "abcdz" && "" + "z" == "z";
  }

  /** The failure search skips a state here: the line contains cdz and is not found. */
  lemma MissedLine()
    ensures HasKeyword(MISSED_LIST, "abcdz") && !Finds(MISSED_LIST, "abcdz") && !NothingSkipped(StatesOf(MISSED_LIST))
  {
    var list, line := MISSED_LIST, "abcdz";
    assert WordAt(list, 10, 13) && list[10..13] == "cdz";
    assert IsLine(list, |list|, "cdz");
    assert line[2..5] == "cdz";
    hide StatesOf, WordsOf, Finds, NothingSkipped, IsLine, IsEntered, IsKeyword, HasKeyword, HasEntered, Contains;
    MissedWordIn(list, line);
    MissedNothing();
    if NothingSkipped(StatesOf(list)) { FindsIff(list, line); }
  }

  lemma MissedWordIn(list: string, line: string)
    requires IsLine(list, |list|, "cdz") && |line| == 5 && line[2..5] == "cdz"
    ensures IsEntered(list, "cdz") && IsKeyword(list, "cdz") && HasKeyword(list, line) && HasEntered(list, line)
  {
    hide IsLine;
    assert Contains(line, "cdz");
  }

  lemma MissedNothing()
    ensures "" !in WordsOf(MISSED_LIST) && !Reports(StatesOf(MISSED_LIST), WordsOf(MISSED_LIST), "abcdz")
    ensures '\0' !in MISSED_LIST
    ensures !Finds(MISSED_LIST, "abcdz")
  {
    hide StatesOf, WordsOf, Fail, RunFrom;
    var states, words, line := StatesOf(MISSED_LIST), WordsOf(MISSED_LIST), "abcdz";
    MissedRuns();
    MissedFails();
    MissedHits();
    assert line[..0] == "" && line[..1] == "a" && line[..2] == "ab" && line[..3] == "abc" && line[..4] == "abcd" &&
      line[..5] == "abcdz";
    forall j | 0 <= j <= 5
      ensures !HitsAt(states, words, line, j)
    {
      assert j == 0 || j == 1 || j == 2 || j == 3 || j == 4 || j == 5;
    }
  }

  lemma MissedHits()
    ensures var states, words := StatesOf(MISSED_LIST), WordsOf(MISSED_LIST);
            && "" !in words && !Hits(states, words, "a") && !Hits(states, words, "ab") &&
              !Hits(states, words, "abc") && !Hits(states, words, "abcd")
  {
    hide StatesOf, WordsOf;
    var states, words := StatesOf(MISSED_LIST), WordsOf(MISSED_LIST);
    MissedFails();
    forall k | k in words
      ensures k == "abcde" || k == "bcy" || k == "cdz"
    {
      MissedWords(k);
    }
    assert Fail(states, "a") == "" && Fail(states, "b") == "" && Fail(states, "c") == "";
    hide Fail;
    assert !Hits(states, words, "a") && !Hits(states, words, "b") && !Hits(states, words, "c");
    assert !Hits(states, words, "bc");
  }

  /** A last keyword without a newline that begins an earlier one gets no final state. */
  lemma ForgottenKeyword()
    ensures IsKeyword("ab\na", "a") && !IsEntered("ab\na", "a")
  {
    var list := "ab\na";
    assert list[3..] == "a" && WordAt(list, 3, |list|);
    assert list[0..2] == "ab" && WordAt(list, 0, 2);
    assert IsLine(list, |list|, "ab") && "a" <= "ab";
    assert !IsLine(list, |list|, "a");
  }

  // ----- breadth first -----

  /** No string twice, and shorter ones first, by one character at most. */
  ghost predicate InOrder(queue: seq<string>) {
    forall i, j :: 0 <= i < j < |queue| ==> queue[i] != queue[j] && |queue[i]| <= |queue[j]| <= |queue[0]| + 1
  }

  /** A state is done when what is before its last character was taken from the queue. */
  ghost predicate DoneBy(states: set<string>, queue: seq<string>, done: set<string>) {
    forall v :: v in states && v != "" ==> (v in done <==> Init(v) in done && Init(v) !in queue)
  }

  ghost predicate DoneUpTo(states: set<string>, done: set<string>, n: nat) {
    forall v :: v in states && |v| <= n ==> v in done
  }

  /**
   The states done and the queue of those whose next states are not: the queue is
   ordered by length, and all states up to the length of its first one are done.
   */
  ghost predicate IsFrontier(states: set<string>, queue: seq<string>, done: set<string>) {
    && "" in done && done <= states && (forall i :: 0 <= i < |queue| ==> queue[i] in done)
    && InOrder(queue) && DoneBy(states, queue, done) && (queue != [] ==> DoneUpTo(states, done, |queue[0]|))
  }

  ghost predicate AreNext(states: set<string>, u: string, next: seq<string>) {
    && (forall i, j :: 0 <= i < j < |next| ==> next[i] != next[j])
    && (forall v :: v in next <==> v in states && v != "" && Init(v) == u)
  }

  lemma FrontierStart(states: set<string>)
    requires IsStates(states)
    ensures IsFrontier(states, [""], {""})
  {
  }

  lemma InRest(queue: seq<string>, next: seq<string>, v: string)
    requires queue != []
    ensures v in queue[1..] + next <==> v in queue[1..] || v in next
    ensures v in queue <==> v == queue[0] || v in queue[1..]
    ensures InOrder(queue) && v in queue[1..] ==> v != queue[0] && |queue[0]| <= |v|
  {
  }

  /** The states after the first one of the queue are new. */
  lemma NextIsNew(states: set<string>, queue: seq<string>, done: set<string>, next: seq<string>, v: string)
    requires DoneBy(states, queue, done) && queue != [] && AreNext(states, queue[0], next) && v in next
    ensures v !in done && v in states && v != "" && |v| == |queue[0]| + 1
  {
  }

  lemma FrontierNext(states: set<string>, queue: seq<string>, done: set<string>, next: seq<string>, done': set<string>)
    requires IsStates(states) && IsFrontier(states, queue, done) && queue != [] && AreNext(states, queue[0], next)
    requires forall v :: v in done' <==> v in done || v in next
    ensures IsFrontier(states, queue[1..] + next, done')
  {
    hide InOrder, DoneBy, DoneUpTo, AreNext, IsStates;
    var q := queue[1..] + next;
    forall v | v in next
      ensures v in states
    {
      NextIsNew(states, queue, done, next, v);
    }
    QueueOrdered(states, queue, next, done);
    NextDoneBy(states, queue, done, next, done');
    if q != [] { NextUpTo(states, queue, done, next, done'); }
  }

  lemma FrontierFirst(states: set<string>, queue: seq<string>, done: set<string>)
    requires IsFrontier(states, queue, done) && queue != []
    ensures queue[0] in done && queue[0] in states
    ensures forall v :: v in states && |v| <= |queue[0]| ==> v in done
    ensures forall v :: v in states && v != "" && Init(v) == queue[0] ==> v !in done
  {
  }

  /** The states that are still to be taken from the queue. */
  ghost predicate AreLeft(states: set<string>, queue: seq<string>, done: set<string>, left: set<string>) {
    forall v :: v in states && (v !in done || v in queue) ==> v in left
  }

  lemma LeftNext(states: set<string>, queue: seq<string>, done: set<string>, next: seq<string>, done': set<string>,
                 left: set<string>)
    requires IsStates(states) && IsFrontier(states, queue, done) && queue != [] && AreNext(states, queue[0], next)
    requires (forall v :: v in done' <==> v in done || v in next) && AreLeft(states, queue, done, left)
    ensures AreLeft(states, queue[1..] + next, done', left - {queue[0]}) && queue[0] in left
  {
    hide DoneUpTo;
    var u, q := queue[0], queue[1..] + next;
    InRest(queue, next, u);
    forall v | v in states && (v !in done' || v in q)
      ensures v in left && v != u
    {
      InRest(queue, next, v);
      if v in next { NextIsNew(states, queue, done, next, v); }
    }
  }

  lemma QueueOrdered(states: set<string>, queue: seq<string>, next: seq<string>, done: set<string>)
    requires queue != [] && InOrder(queue) && (forall i :: 0 <= i < |queue| ==> queue[i] in done)
    requires DoneBy(states, queue, done) && AreNext(states, queue[0], next)
    ensures InOrder(queue[1..] + next)
  {
    hide DoneBy;
    var u, q := queue[0], queue[1..] + next;
    forall i, j | 0 <= i < j < |q|
      ensures q[i] != q[j] && |q[i]| <= |q[j]| <= |q[0]| + 1
    {
      InOrderAt(queue, next, i);
      InOrderAt(queue, next, 0);
      if j >= |queue| - 1 { NextIsNew(states, queue, done, next, q[j]); }
      if i >= |queue| - 1 { NextIsNew(states, queue, done, next, q[i]); }
      if 0 >= |queue| - 1 { NextIsNew(states, queue, done, next, q[0]); }
    }
  }

  /** Where the elements of the new queue come from. */
  lemma InOrderAt(queue: seq<string>, next: seq<string>, i: nat)
    requires queue != [] && i < |queue[1..] + next| && InOrder(queue)
    ensures var x := (queue[1..] + next)[i];
            if i < |queue| - 1 then x == queue[i + 1] && |queue[0]| <= |x| <= |queue[0]| + 1
            else x == next[i - (|queue| - 1)] && x in next
  {
  }

  lemma NextDoneBy(states: set<string>, queue: seq<string>, done: set<string>, next: seq<string>, done': set<string>)
    requires IsFrontier(states, queue, done) && queue != [] && AreNext(states, queue[0], next)
    requires forall v :: v in done' <==> v in done || v in next
    ensures DoneBy(states, queue[1..] + next, done')
  {
    forall v | v in states && v != ""
      ensures v in done' <==> Init(v) in done' && Init(v) !in queue[1..] + next
    {
      NextDone(states, queue, done, next, done', v);
    }
  }

  lemma NextDone(states: set<string>, queue: seq<string>, done: set<string>, next: seq<string>, done': set<string>,
                 v: string)
    requires IsFrontier(states, queue, done) && queue != [] && AreNext(states, queue[0], next)
    requires (forall v :: v in done' <==> v in done || v in next) && v in states && v != ""
    ensures v in done' <==> Init(v) in done' && Init(v) !in queue[1..] + next
  {
    hide InOrder, DoneUpTo;
    var w := Init(v);
    InRest(queue, next, w);
    assert w == queue[0] ==> v in next;
    if w in next { NextIsNew(states, queue, done, next, w); }
    if v in next { NextIsNew(states, queue, done, next, v); }
  }

  lemma NextUpTo(states: set<string>, queue: seq<string>, done: set<string>, next: seq<string>, done': set<string>)
    requires IsStates(states) && IsFrontier(states, queue, done) && queue != [] && AreNext(states, queue[0], next)
    requires (forall v :: v in done' <==> v in done || v in next) && queue[1..] + next != []
    ensures DoneUpTo(states, done', |(queue[1..] + next)[0]|)
  {
    var q := queue[1..] + next;
    QueueOrdered(states, queue, next, done);
    InOrderAt(queue, next, 0);
    if |queue| == 1 { NextIsNew(states, queue, done, next, q[0]); }
    forall v | v in states && |v| <= |q[0]|
      ensures v in done'
    {
      if |v| > |queue[0]| {
        hide AreNext;
        NextDone(states, queue, done, next, done', v);
        NotShorter(q, Init(v));
      }
    }
  }

  lemma NotShorter(q: seq<string>, w: string)
    requires InOrder(q) && q != [] && |w| < |q[0]|
    ensures w !in q
  {
  }

  lemma {:induction false} FrontierEnd(states: set<string>, done: set<string>, v: string)
    requires IsStates(states) && IsFrontier(states, [], done) && v in states
    ensures v in done
    decreases |v|
  {
    if v != "" { FrontierEnd(states, done, Init(v)); }
  }
}
