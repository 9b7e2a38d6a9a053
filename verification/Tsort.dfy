/**
 Topological sort, tsort(1): nodes are printed as soon as they have no unprinted
 predecessor; when there is no such node, a depth-first search finds a node on a
 cycle, which is printed instead.
 */
module Tsort {

  import opened Options

  /** DEAD: printed; LIVE: not yet printed; VISITED: on the way of the search for a cycle. */
  datatype Mark = DEAD | LIVE | VISITED

  /** A predecessor list for every node. */
  type Preds = seq<seq<nat>>

  ghost predicate IsGraph(e: Preds) {
    forall j, t :: 0 <= j < |e| && 0 <= t < |e[j]| ==> e[j][t] < |e|
  }

  ghost predicate HasPred(e: Preds, l: set<nat>, i: nat)
    requires i < |e|
  {
    exists t :: 0 <= t < |e[i]| && e[i][t] in l
  }

  /** p[0] has predecessor p[1], and so on, all in l. */
  ghost predicate IsPath(e: Preds, l: set<nat>, p: seq<nat>) {
    && (forall k :: 0 <= k < |p| ==> p[k] in l && p[k] < |e|)
    && (forall k :: 0 < k < |p| ==> p[k] in e[p[k - 1]])
  }

  ghost predicate IsCycle(e: Preds, l: set<nat>, p: seq<nat>) {
    p != [] && IsPath(e, l, p) && p[0] in e[p[|p| - 1]]
  }

  ghost predicate OnCycle(e: Preds, l: set<nat>, i: nat) {
    exists p :: IsCycle(e, l, p) && p[0] == i
  }

  /** Node j is the first on the predecessor list of i that is in l. */
  ghost predicate IsFirstPred(e: Preds, l: set<nat>, i: nat, j: nat) {
    i < |e| && exists t :: 0 <= t < |e[i]| && e[i][t] == j && j in l && forall u :: 0 <= u < t ==> e[i][u] !in l
  }

  /** Every node of w is the first predecessor in l of the one before it. */
  ghost predicate IsWalk(e: Preds, l: set<nat>, w: seq<nat>) {
    forall k :: 0 < k < |w| ==> IsFirstPred(e, l, w[k - 1], w[k])
  }

  /** Going back from node s along first predecessors in l, node i is the first to be met again. */
  ghost predicate MetAgain(e: Preds, l: set<nat>, s: nat, i: nat) {
    exists w :: w != [] && w[0] == s && IsWalk(e, l, w) && Distinct(w) && i in w && IsFirstPred(e, l, w[|w| - 1], i)
  }

  ghost predicate Distinct<T>(s: seq<T>) {
    forall i, j :: 0 <= i < j < |s| ==> s[i] != s[j]
  }

  /** The first node left. */
  ghost predicate IsFirstLeft(l: set<nat>, s: nat) {
    s in l && forall m :: 0 <= m < s ==> m !in l
  }

  /** The nodes among the first n that are not in out. */
  ghost function Left(n: nat, out: seq<nat>): set<nat> {
    set i | 0 <= i < n && i !in out
  }

  /** Node i has no predecessor left, and it is the first such node left. */
  ghost predicate FirstFree(e: Preds, l: set<nat>, i: nat) {
    && i < |e| && i in l && !HasPred(e, l, i)
    && (forall m :: 0 <= m < i && m in l ==> HasPred(e, l, m))
  }

  /** All nodes left have predecessors left, and i is the node met again from the first of them; it lies on a cycle. */
  ghost predicate BreaksCycle(e: Preds, l: set<nat>, i: nat) {
    && i < |e| && i in l && (forall m :: m in l && m < |e| ==> HasPred(e, l, m))
    && OnCycle(e, l, i)
    && exists s :: IsFirstLeft(l, s) && MetAgain(e, l, s, i)
  }

  /** How the nodes in out came to be printed, one after the other. */
  ghost predicate IsRun(e: Preds, out: seq<nat>) {
    forall k :: 0 <= k < |out| ==>
      FirstFree(e, Left(|e|, out[..k]), out[k]) || BreaksCycle(e, Left(|e|, out[..k]), out[k])
  }

  /** Some node is printed to break a cycle. */
  ghost predicate HasBreak(e: Preds, out: seq<nat>) {
    exists k :: 0 <= k < |out| && BreaksCycle(e, Left(|e|, out[..k]), out[k])
  }

  // ----- consequences for a whole run -----

  /** Every node is printed at most once. */
  lemma RunsOnce(e: Preds, out: seq<nat>, i: nat, j: nat)
    requires IsRun(e, out) && i < j < |out|
    ensures out[i] != out[j]
  {
    assert out[j] in Left(|e|, out[..j]);
    assert out[..j][i] == out[i];
  }

  ghost predicate Acyclic(e: Preds) {
    forall i :: 0 <= i < |e| ==> !OnCycle(e, Left(|e|, []), i)
  }

  lemma CycleInAll(e: Preds, out: seq<nat>, i: nat)
    requires OnCycle(e, Left(|e|, out), i)
    ensures OnCycle(e, Left(|e|, []), i)
  {
    var p :| IsCycle(e, Left(|e|, out), p) && p[0] == i;
    assert IsCycle(e, Left(|e|, []), p);
  }

  /** In a run over an acyclic graph every predecessor is printed before its successor. */
  lemma AcyclicRun(e: Preds, out: seq<nat>, k: nat, i: nat)
    requires IsGraph(e) && Acyclic(e) && IsRun(e, out) && k < |out| && i in e[out[k]]
    ensures i in out[..k]
  {
    var l := Left(|e|, out[..k]);
    if BreaksCycle(e, l, out[k]) {
      CycleInAll(e, out[..k], out[k]);
    }
    assert !HasPred(e, l, out[k]);
    var t :| 0 <= t < |e[out[k]]| && e[out[k]][t] == i;
    assert i !in l;
  }

  /** A run over a graph with a cycle has to break one. */
  lemma {:induction false} CyclicRun(e: Preds, out: seq<nat>, p: seq<nat>) returns (k: nat)
    requires IsGraph(e) && IsRun(e, out) && Left(|e|, out) == {} && IsCycle(e, Left(|e|, []), p)
    ensures k < |out| && BreaksCycle(e, Left(|e|, out[..k]), out[k])
  {
    k := FirstOf(e, out, p);
    var l := Left(|e|, out[..k]);
    assert forall m :: 0 <= m < |p| ==> p[m] in l;
    var m :| 0 <= m < |p| && p[m] == out[k];
    var q := if m + 1 < |p| then p[m + 1] else p[0];
    assert q in e[p[m]];
    var t :| 0 <= t < |e[out[k]]| && e[out[k]][t] == q;
    assert HasPred(e, l, out[k]);
  }

  /** The first node of p that is printed. */
  lemma FirstOf(e: Preds, out: seq<nat>, p: seq<nat>) returns (k: nat)
    requires p != [] && Left(|e|, out) == {} && forall m :: 0 <= m < |p| ==> p[m] < |e|
    ensures k < |out| && out[k] in p && forall m :: 0 <= m < |p| ==> p[m] !in out[..k]
  {
    assert p[0] !in Left(|e|, out);
    k := 0;
    while out[k] !in p
      invariant k < |out| && p[0] in out[k..] && forall m :: 0 <= m < |p| ==> p[m] !in out[..k]
      decreases |out| - k
    {
      assert out[k..] == [out[k]] + out[k + 1..];
      assert out[..k + 1] == out[..k] + [out[k]];
      k := k + 1;
    }
  }

  // ----- the program -----

  /** The items of a list of pairs. */
  ghost function Items(pairs: seq<(string, string)>): set<string> {
    if pairs == [] then {}
    else Items(pairs[..|pairs| - 1]) + {pairs[|pairs| - 1].0, pairs[|pairs| - 1].1}
  }

  lemma {:induction false} InItems(pairs: seq<(string, string)>, p: (string, string))
    requires p in pairs
    ensures p.0 in Items(pairs) && p.1 in Items(pairs)
  {
    var n := |pairs| - 1;
    if p != pairs[n] { InItems(pairs[..n], p); }
  }

  ghost predicate WellFormed(names: seq<string>, e: Preds) {
    |names| == |e| && IsGraph(e) && Distinct(names) && forall j :: 0 <= j < |e| ==> Distinct(e[j])
  }

  /** An edge for each pair that is not identical. */
  ghost predicate Edges(names: seq<string>, e: Preds, pairs: seq<(string, string)>) {
    && |names| == |e|
    && (forall i, j :: 0 <= i < |names| && 0 <= j < |names| ==>
          (i in e[j] <==> i != j && (names[i], names[j]) in pairs))
  }

  /** The names and edges are those of the pairs, with some extra names. */
  ghost predicate Described(names: seq<string>, e: Preds, pairs: seq<(string, string)>, extra: set<string>) {
    && WellFormed(names, e) && Edges(names, e, pairs)
    && (forall s :: s in names <==> s in Items(pairs) || s in extra)
  }

  function WithName(names: seq<string>, s: string): seq<string> {
    if s in names then names else names + [s]
  }

  function WithNode(names: seq<string>, e: Preds, s: string): Preds {
    if s in names then e else e + [[]]
  }

  lemma DescribedName(names: seq<string>, e: Preds, pairs: seq<(string, string)>, extra: set<string>, s: string)
    requires Described(names, e, pairs, extra)
    ensures Described(WithName(names, s), WithNode(names, e, s), pairs, extra + {s})
  {
    var m, f := WithName(names, s), WithNode(names, e, s);
    forall i, j | 0 <= i < |m| && 0 <= j < |m|
      ensures i in f[j] <==> i != j && (m[i], m[j]) in pairs
    {
      if (m[i], m[j]) in pairs { InItems(pairs, (m[i], m[j])); }
    }
  }

  function WithEdge(e: Preds, i: nat, j: nat): Preds
    requires j < |e|
  {
    if i == j || i in e[j] then e else e[j := [i] + e[j]]
  }

  lemma DescribedPair(names: seq<string>, e: Preds, pairs: seq<(string, string)>, i: nat, j: nat)
    requires i < |names| && j < |names| && Described(names, e, pairs, {names[i], names[j]})
    ensures Described(names, WithEdge(e, i, j), pairs + [(names[i], names[j])], {})
  {
    var f, more := WithEdge(e, i, j), pairs + [(names[i], names[j])];
    assert more[..|pairs|] == pairs;
    forall x, y | 0 <= x < |names| && 0 <= y < |names|
      ensures x in f[y] <==> x != y && (names[x], names[y]) in more
    {
    }
    assert WellFormed(names, f);
  }

  lemma DescribedValid(names: seq<string>, e: Preds, pairs: seq<(string, string)>, extra: set<string>)
    requires Described(names, e, pairs, extra)
    ensures |names| == |e| && WellFormed(names, e) && Distinct(names)
  {
  }

  // ----- the order in which items and pairs were read -----

  /** The items in the order in which they were first read. */
  function FirstSeen(tokens: seq<string>): seq<string> {
    if tokens == [] then [] else WithName(FirstSeen(tokens[..|tokens| - 1]), tokens[|tokens| - 1])
  }

  /** Item s was read before the first t. */
  ghost predicate ReadBefore(tokens: seq<string>, s: string, t: string) {
    exists k :: 0 <= k < |tokens| && tokens[k] == s && t !in tokens[..k + 1]
  }

  lemma {:induction false} SeenOnce(tokens: seq<string>)
    ensures Distinct(FirstSeen(tokens)) && forall s :: s in FirstSeen(tokens) <==> s in tokens
  {
    if tokens != [] {
      var init, last := tokens[..|tokens| - 1], tokens[|tokens| - 1];
      SeenOnce(init);
      assert tokens == init + [last];
    }
  }

  lemma {:induction false} SeenInOrder(tokens: seq<string>, i: nat, j: nat)
    requires i < j < |FirstSeen(tokens)|
    ensures ReadBefore(tokens, FirstSeen(tokens)[i], FirstSeen(tokens)[j])
  {
    var n := |tokens| - 1;
    var init, last := tokens[..n], tokens[n];
    var seen := FirstSeen(init);
    var s, t := FirstSeen(tokens)[i], FirstSeen(tokens)[j];
    SeenOnce(init);
    if j < |seen| {
      SeenInOrder(init, i, j);
      var k :| 0 <= k < |init| && init[k] == s && t !in init[..k + 1];
      assert init[..k + 1] == tokens[..k + 1];
    } else {
      assert s in seen;
      var k :| 0 <= k < |init| && init[k] == s;
      assert tokens[..k + 1] == init[..k + 1];
    }
  }

  /** One of two items was read first. */
  lemma ReadOneWay(tokens: seq<string>, s: string, t: string)
    requires ReadBefore(tokens, s, t)
    ensures s != t && !ReadBefore(tokens, t, s)
  {
    var k :| 0 <= k < |tokens| && tokens[k] == s && t !in tokens[..k + 1];
    InPrefix(tokens, k, k);
    forall l | 0 <= l < |tokens| && tokens[l] == t
      ensures s in tokens[..l + 1]
    {
      if k <= l { InPrefix(tokens, k, l); }
    }
  }

  lemma InPrefix(tokens: seq<string>, k: nat, l: nat)
    requires k <= l < |tokens|
    ensures tokens[k] in tokens[..l + 1]
  {
    assert tokens[..l + 1][k] == tokens[k];
  }

  /** The items read as predecessors of t, the one read last coming first. */
  function PredsOf(pairs: seq<(string, string)>, t: string): seq<string> {
    if pairs == [] then []
    else
      var l, p := PredsOf(pairs[..|pairs| - 1], t), pairs[|pairs| - 1];
      if p.1 == t && p.0 != t && p.0 !in l then [p.0] + l else l
  }

  lemma {:induction false} PredsAre(pairs: seq<(string, string)>, t: string, s: string)
    ensures s in PredsOf(pairs, t) <==> s != t && (s, t) in pairs
  {
    if pairs != [] {
      var init, last := pairs[..|pairs| - 1], pairs[|pairs| - 1];
      PredsAre(init, t, s);
      assert pairs == init + [last];
    }
  }

  /** The nodes p have the names c. */
  ghost predicate Named(names: seq<string>, p: seq<nat>, c: seq<string>) {
    |p| == |c| && forall k :: 0 <= k < |p| ==> p[k] < |names| && names[p[k]] == c[k]
  }

  /** The predecessor lists are in the order of the pairs. */
  ghost predicate Listed(names: seq<string>, e: Preds, pairs: seq<(string, string)>) {
    |names| == |e| && forall j :: 0 <= j < |e| ==> Named(names, e[j], PredsOf(pairs, names[j]))
  }

  lemma NamedNone(names: seq<string>)
    ensures Named(names, [], [])
  {
  }

  lemma NamedMore(names: seq<string>, p: seq<nat>, c: seq<string>, s: string)
    requires Named(names, p, c)
    ensures Named(WithName(names, s), p, c)
  {
  }

  lemma ListedName(names: seq<string>, e: Preds, pairs: seq<(string, string)>, extra: set<string>, s: string)
    requires Described(names, e, pairs, extra) && Listed(names, e, pairs)
    ensures Listed(WithName(names, s), WithNode(names, e, s), pairs)
  {
    hide Named, PredsOf;
    var m, f := WithName(names, s), WithNode(names, e, s);
    forall j | 0 <= j < |f|
      ensures Named(m, f[j], PredsOf(pairs, m[j]))
    {
      if j < |e| {
        NamedMore(names, e[j], PredsOf(pairs, names[j]), s);
      } else {
        NoPreds(pairs, s);
        NamedNone(m);
      }
    }
  }

  lemma NoPreds(pairs: seq<(string, string)>, s: string)
    requires s !in Items(pairs)
    ensures PredsOf(pairs, s) == []
  {
    if PredsOf(pairs, s) != [] {
      var t := PredsOf(pairs, s)[0];
      PredsAre(pairs, s, t);
      InItems(pairs, (t, s));
    }
  }

  lemma NamedIn(names: seq<string>, p: seq<nat>, c: seq<string>, i: nat)
    requires Named(names, p, c) && Distinct(names) && i < |names|
    ensures i in p <==> names[i] in c
  {
    if names[i] in c {
      var k :| 0 <= k < |c| && c[k] == names[i];
      assert p[k] == i;
    }
  }

  lemma ListedPair(names: seq<string>, e: Preds, pairs: seq<(string, string)>, i: nat, j: nat)
    requires i < |names| && j < |names| && Listed(names, e, pairs) && Distinct(names)
    ensures Listed(names, WithEdge(e, i, j), pairs + [(names[i], names[j])])
  {
    hide Named;
    var f, more := WithEdge(e, i, j), pairs + [(names[i], names[j])];
    assert more[..|pairs|] == pairs && more[|pairs|] == (names[i], names[j]);
    forall y | 0 <= y < |f|
      ensures Named(names, f[y], PredsOf(more, names[y]))
    {
      if y == j {
        NamedIn(names, e[j], PredsOf(pairs, names[j]), i);
        NamedFirst(names, e[j], PredsOf(pairs, names[j]), i);
      }
    }
  }

  lemma NamedFirst(names: seq<string>, p: seq<nat>, c: seq<string>, i: nat)
    requires Named(names, p, c) && i < |names|
    ensures Named(names, [i] + p, [names[i]] + c)
  {
  }

  // ----- the search for a cycle -----

  /** The nodes in l are unprinted, and those on the way are visited. */
  ghost predicate Marks(live: seq<Mark>, l: set<nat>, way: seq<nat>) {
    forall i :: 0 <= i < |live| ==> live[i] == if i in way then VISITED else if i in l then LIVE else DEAD
  }

  /** The search has come along a path of distinct nodes in l to a predecessor i of the last one. */
  ghost predicate Searching(e: Preds, l: set<nat>, way: seq<nat>, i: nat) {
    && i < |e| && IsPath(e, l, way) && IsWalk(e, l, way) && Distinct(way)
    && (way != [] ==> i in e[way[|way| - 1]] && (i in l ==> IsFirstPred(e, l, way[|way| - 1], i)))
  }

  lemma SearchOn(e: Preds, l: set<nat>, way: seq<nat>, i: nat, t: nat)
    requires IsGraph(e) && Searching(e, l, way, i) && i in l && i !in way && t < |e[i]|
    requires forall u :: 0 <= u < t ==> e[i][u] !in l
    ensures Searching(e, l, way + [i], e[i][t])
  {
    hide IsFirstPred;
    var more := way + [i];
    WalkMore(e, l, way, i);
    FirstHere(e, l, i, t);
    assert more[|more| - 1] == i;
  }

  lemma WalkMore(e: Preds, l: set<nat>, way: seq<nat>, i: nat)
    requires IsWalk(e, l, way) && (way != [] ==> IsFirstPred(e, l, way[|way| - 1], i))
    ensures IsWalk(e, l, way + [i])
  {
    hide IsFirstPred;
  }

  lemma FirstHere(e: Preds, l: set<nat>, i: nat, t: nat)
    requires i < |e| && t < |e[i]| && forall u :: 0 <= u < t ==> e[i][u] !in l
    ensures e[i][t] in l ==> IsFirstPred(e, l, i, e[i][t])
  {
  }

  /** Where a walk began. */
  ghost function StartOf(way: seq<nat>, i: nat): nat {
    if way == [] then i else way[0]
  }

  ghost function Ahead(l: set<nat>, way: seq<nat>): set<nat> {
    set x | x in l && x !in way
  }

  lemma OnTheWay(l: set<nat>, way: seq<nat>, i: nat)
    requires i in l && i !in way
    ensures Ahead(l, way + [i]) < Ahead(l, way)
  {
    assert i in Ahead(l, way) && i !in Ahead(l, way + [i]);
  }

  lemma PathFrom(e: Preds, l: set<nat>, way: seq<nat>, k: nat)
    requires IsPath(e, l, way) && k <= |way|
    ensures IsPath(e, l, way[k..])
  {
    var p := way[k..];
    forall m | 0 <= m < |p|
      ensures p[m] in l && p[m] < |e|
    {
      assert p[m] == way[k + m];
    }
    forall m | 0 < m < |p|
      ensures p[m] in e[p[m - 1]]
    {
      var n := k + m;
      assert p[m] == way[n] && p[m - 1] == way[n - 1];
    }
  }

  /** A node met again closes a cycle. */
  lemma ClosesCycle(e: Preds, l: set<nat>, way: seq<nat>, i: nat)
    requires Searching(e, l, way, i) && i in way
    ensures OnCycle(e, l, i) && (i in l ==> MetAgain(e, l, StartOf(way, i), i))
  {
    hide IsWalk, IsFirstPred;
    var k :| 0 <= k < |way| && way[k] == i;
    var p := way[k..];
    PathFrom(e, l, way, k);
    hide IsPath;
    assert p[0] == i && p[|p| - 1] == way[|way| - 1];
    assert IsCycle(e, l, p);
  }

  class Sorter {
    var names: seq<string>
    var inedges: Preds
    var live: seq<Mark>

    ghost predicate Valid()
      reads this
    {
      WellFormed(names, inedges) && |live| == |names|
    }

    /** The graph read so far is that of the pairs. */
    ghost predicate Holds(pairs: seq<(string, string)>)
      reads this
    {
      && Valid() && Described(names, inedges, pairs, {}) && Listed(names, inedges, pairs)
      && forall i :: 0 <= i < |live| ==> live[i] == LIVE
    }

    constructor ()
      ensures Holds([]) && names == []
    {
      names, inedges, live := [], [], [];
    }

    /** The index of the node with name s, which is added if need be. */
    method NIndex(s: string) returns (i: nat)
      requires Valid()
      modifies this
      ensures Valid() && i < |names| && names[i] == s
      ensures names == WithName(old(names), s) && inedges == WithNode(old(names), old(inedges), s)
      ensures live == old(live) + if s in old(names) then [] else [LIVE]
    {
      i := 0;
      while i < |names|
        invariant i <= |names| && s !in names[..i]
      {
        if s == names[i] { return; }
        i := i + 1;
      }
      assert names[..|names|] == names;
      names, inedges, live := names + [s], inedges + [[]], live + [LIVE];
    }

    /** Is i present on the predecessor list of j? */
    method Present(i: nat, j: nat) returns (b: bool)
      requires Valid() && j < |names|
      ensures b <==> i in inedges[j]
    {
      for t := 0 to |inedges[j]|
        invariant i !in inedges[j][..t]
      {
        if inedges[j][t] == i { return true; }
      }
      assert inedges[j][..|inedges[j]|] == inedges[j];
      return false;
    }

    /** Read one pair of items. */
    method ReadPair(precedes: string, follows: string, ghost pairs: seq<(string, string)>)
      requires Holds(pairs)
      modifies this
      ensures Holds(pairs + [(precedes, follows)])
      ensures names == WithName(WithName(old(names), precedes), follows)
    {
      hide Described, WellFormed, WithNode, Listed;
      DescribedName(names, inedges, pairs, {}, precedes);
      ListedName(names, inedges, pairs, {}, precedes);
      var i := NIndex(precedes);
      DescribedName(names, inedges, pairs, {} + {precedes}, follows);
      ListedName(names, inedges, pairs, {} + {precedes}, follows);
      var j := NIndex(follows);
      assert {} + {precedes} + {follows} == {names[i], names[j]};
      DescribedPair(names, inedges, pairs, i, j);
      DescribedValid(names, inedges, pairs, {names[i], names[j]});
      ListedPair(names, inedges, pairs, i, j);
      var known := Present(i, j);
      if i == j || known {
        return;
      }
      inedges := inedges[j := [i] + inedges[j]];
      DescribedValid(names, inedges, pairs + [(precedes, follows)], {});
    }

    /** Whether some node that must come before i is not yet printed. */
    method AnyPred(i: nat) returns (b: bool)
      requires Valid() && i < |names|
      ensures b <==> exists t :: 0 <= t < |inedges[i]| && live[inedges[i][t]] == LIVE
    {
      for t := 0 to |inedges[i]|
        invariant forall u :: 0 <= u < t ==> live[inedges[i][u]] != LIVE
      {
        if live[inedges[i][t]] == LIVE { return true; }
      }
      return false;
    }

    /**
     Depth-first search of unprinted predecessors. If every unprinted node has an
     unprinted predecessor, the search never comes back empty-handed from one, so
     the visited nodes are those on the way, and meeting one again is a cycle.
     */
    method MarkFrom(i: nat, ghost l: set<nat>, ghost way: seq<nat>) returns (r: Option<nat>)
      requires Valid() && Marks(live, l, way) && Searching(inedges, l, way, i)
      requires forall x :: x in l && x < |names| ==> HasPred(inedges, l, x)
      modifies this`live
      ensures Valid() && forall x :: 0 <= x < |live| ==> (live[x] == DEAD <==> x !in l)
      ensures i !in l ==> r == None && live == old(live)
      ensures i in l ==> r.Some? && r.value in l && r.value < |names| && OnCycle(inedges, l, r.value)
      ensures i in l ==> MetAgain(inedges, l, StartOf(way, i), r.value)
      decreases Ahead(l, way)
    {
      hide WellFormed, OnCycle, HasPred, MetAgain;
      WellFormedGraph(names, inedges);
      if live[i] == DEAD { return None; }
      if live[i] == VISITED {
        ClosesCycle(inedges, l, way, i);
        return Some(i);
      }
      live := live[i := VISITED];
      var t := 0;
      while t < |inedges[i]|
        invariant Marks(live, l, way + [i]) && Valid()
        invariant t <= |inedges[i]| && forall u :: 0 <= u < t ==> inedges[i][u] !in l
      {
        WellFormedGraph(names, inedges);
        SearchOn(inedges, l, way, i, t);
        OnTheWay(l, way, i);
        var j := MarkFrom(inedges[i][t], l, way + [i]);
        if j.Some? { return j; }
        t := t + 1;
      }
      NoPred(inedges, l, i);
      return None;
    }

    /** Given that every unprinted node has an unprinted predecessor, find one on a cycle. */
    method FindLoop(ghost l: set<nat>) returns (r: nat)
      requires Valid() && Marks(live, l, []) && (exists i :: 0 <= i < |names| && i in l)
      requires forall x :: x in l && x < |names| ==> HasPred(inedges, l, x)
      modifies this`live
      ensures live == old(live) && r < |names| && r in l && OnCycle(inedges, l, r)
      ensures exists s :: IsFirstLeft(l, s) && MetAgain(inedges, l, s, r)
    {
      hide WellFormed, OnCycle, HasPred, MetAgain;
      WellFormedGraph(names, inedges);
      var i := 0;
      while i < |names| && live[i] != LIVE
        invariant i <= |names| && forall m :: 0 <= m < i ==> live[m] != LIVE
      {
        i := i + 1;
      }
      var found := MarkFrom(i, l, []);
      if found == None {
        assert false;
      }
      for j := 0 to |names|
        invariant |live| == |names| && (forall m :: 0 <= m < j ==> live[m] == old(live)[m])
        invariant forall m :: 0 <= m < |live| ==> (live[m] == DEAD <==> m !in l)
      {
        if live[j] == VISITED { live := live[j := LIVE]; }
      }
      r := found.value;
    }

    /** The first unprinted node without unprinted predecessors, if any; some: is anything unprinted? */
    method Sweep(ghost l: set<nat>) returns (i: nat, some: bool)
      requires Valid() && Marks(live, l, [])
      ensures i <= |names| && (i < |names| ==> FirstFree(inedges, l, i) && some)
      ensures i == |names| ==> forall m :: 0 <= m < |names| && m in l ==> HasPred(inedges, l, m)
      ensures i == |names| ==> (some <==> exists m :: 0 <= m < |names| && m in l)
    {
      hide WellFormed;
      WellFormedGraph(names, inedges);
      i, some := 0, false;
      while i < |names|
        invariant i <= |names| && (some <==> exists m :: 0 <= m < i && m in l)
        invariant forall m :: 0 <= m < i && m in l ==> HasPred(inedges, l, m)
      {
        if live[i] == LIVE {
          some := true;
          var b := AnyPred(i);
          if !b { return; }
        }
        i := i + 1;
      }
    }

    /** Print all nodes. */
    method Print() returns (out: seq<nat>, warned: bool)
      requires Valid() && forall i :: 0 <= i < |live| ==> live[i] == LIVE
      modifies this`live
      ensures IsRun(inedges, out) && Left(|inedges|, out) == {}
      ensures warned <==> HasBreak(inedges, out)
    {
      hide WellFormed, FirstFree, BreaksCycle, HasPred, IsRun, HasBreak, Left, Marks, OnCycle, MetAgain, IsFirstLeft;
      WellFormedGraph(names, inedges);
      out, warned := [], false;
      ghost var e := inedges;
      RunStart(e, live);
      while true
        invariant Valid() && Marks(live, Left(|e|, out), []) && IsRun(e, out)
        invariant warned <==> HasBreak(e, out)
        decreases Left(|e|, out)
      {
        ghost var l := Left(|e|, out);
        var i, some := Sweep(l);
        if !some {
          LeftBounded(|e|, out);
          break;
        }
        if i == |names| {
          i := FindLoop(l);
          Breaks(e, l, i);
          warned := true;
        } else {
          FreeNotBroken(e, l, i);
        }
        RunMore(e, out, i);
        Printed(e, out, live, i);
        out := out + [i];
        live := live[i := DEAD];
      }
    }
  }

  lemma Breaks(e: Preds, l: set<nat>, i: nat)
    requires i < |e| && i in l && (forall m :: 0 <= m < |e| && m in l ==> HasPred(e, l, m)) && OnCycle(e, l, i)
    requires exists s :: IsFirstLeft(l, s) && MetAgain(e, l, s, i)
    ensures BreaksCycle(e, l, i)
  {
    hide OnCycle, MetAgain, IsFirstLeft;
  }

  lemma FreeNotBroken(e: Preds, l: set<nat>, i: nat)
    requires FirstFree(e, l, i)
    ensures !BreaksCycle(e, l, i) && i < |e| && i in l
  {
  }

  lemma RunStart(e: Preds, live: seq<Mark>)
    requires |live| == |e| && forall i :: 0 <= i < |live| ==> live[i] == LIVE
    ensures IsRun(e, []) && !HasBreak(e, []) && Marks(live, Left(|e|, []), [])
  {
  }

  lemma LeftBounded(n: nat, out: seq<nat>)
    requires !exists m :: 0 <= m < n && m in Left(n, out)
    ensures Left(n, out) == {}
  {
  }

  lemma RunMore(e: Preds, out: seq<nat>, i: nat)
    requires IsRun(e, out)
    requires FirstFree(e, Left(|e|, out), i) || BreaksCycle(e, Left(|e|, out), i)
    ensures IsRun(e, out + [i])
    ensures HasBreak(e, out + [i]) <==> HasBreak(e, out) || BreaksCycle(e, Left(|e|, out), i)
  {
    hide FirstFree, BreaksCycle;
    var more := out + [i];
    assert more[..|out|] == out && more[|out|] == i;
    assert forall k :: 0 <= k < |out| ==> more[..k] == out[..k] && more[k] == out[k];
    if HasBreak(e, out) {
      var k :| 0 <= k < |out| && BreaksCycle(e, Left(|e|, out[..k]), out[k]);
      assert BreaksCycle(e, Left(|e|, more[..k]), more[k]);
    }
  }

  lemma Printed(e: Preds, out: seq<nat>, live: seq<Mark>, i: nat)
    requires i < |live| == |e| && i in Left(|e|, out) && Marks(live, Left(|e|, out), [])
    ensures Left(|e|, out + [i]) < Left(|e|, out) && Marks(live[i := DEAD], Left(|e|, out + [i]), [])
  {
    assert i !in Left(|e|, out + [i]);
  }

  lemma WellFormedGraph(names: seq<string>, e: Preds)
    requires WellFormed(names, e)
    ensures |names| == |e| && IsGraph(e)
  {
  }

  lemma NoPred(e: Preds, l: set<nat>, i: nat)
    requires i < |e| && forall u :: 0 <= u < |e[i]| ==> e[i][u] !in l
    ensures !HasPred(e, l, i)
  {
  }

  // ----- the promise of the program, about items and pairs -----

  /** Items each of which is preceded by the next, and the last by the first. */
  ghost predicate IsItemCycle(pairs: seq<(string, string)>, c: seq<string>) {
    && c != [] && c[0] != c[|c| - 1] && (c[0], c[|c| - 1]) in pairs
    && (forall k :: 0 < k < |c| ==> c[k] != c[k - 1] && (c[k], c[k - 1]) in pairs)
  }

  ghost predicate HasItemCycle(pairs: seq<(string, string)>) {
    exists c :: IsItemCycle(pairs, c)
  }

  ghost predicate Before(lines: seq<string>, s: string, t: string) {
    exists i, j :: 0 <= i < j < |lines| && lines[i] == s && lines[j] == t
  }

  /** A consistent order: every pair of different items is in order. */
  ghost predicate IsTopological(pairs: seq<(string, string)>, lines: seq<string>) {
    forall k :: 0 <= k < |pairs| && pairs[k].0 != pairs[k].1 ==> Before(lines, pairs[k].0, pairs[k].1)
  }

  function NamesOf(names: seq<string>, p: seq<nat>): (c: seq<string>)
    requires forall k :: 0 <= k < |p| ==> p[k] < |names|
    ensures |c| == |p| && forall k :: 0 <= k < |p| ==> c[k] == names[p[k]]
  {
    seq(|p|, k requires 0 <= k < |p| => names[p[k]])
  }

  /** A cycle in the graph is one of items. */
  lemma NodesToItems(names: seq<string>, e: Preds, pairs: seq<(string, string)>, p: seq<nat>)
    requires WellFormed(names, e) && Edges(names, e, pairs) && IsCycle(e, Left(|e|, []), p)
    ensures HasItemCycle(pairs)
  {
    CycleNames(names, e, pairs, Left(|e|, []), p);
  }

  lemma CycleNames(names: seq<string>, e: Preds, pairs: seq<(string, string)>, l: set<nat>, p: seq<nat>)
    requires WellFormed(names, e) && Edges(names, e, pairs) && IsCycle(e, l, p)
    ensures IsItemCycle(pairs, NamesOf(names, p))
  {
    var c := NamesOf(names, p);
    forall k | 0 < k < |c|
      ensures c[k] != c[k - 1] && (c[k], c[k - 1]) in pairs
    {
      assert p[k] in e[p[k - 1]];
    }
    assert IsItemCycle(pairs, c);
  }

  ghost function IndexOf(names: seq<string>, s: string): (i: nat)
    requires s in names
    ensures i < |names| && names[i] == s
  {
    var i :| 0 <= i < |names| && names[i] == s;
    i
  }

  lemma ItemCycleNames(pairs: seq<(string, string)>, c: seq<string>, k: nat)
    requires IsItemCycle(pairs, c) && k < |c|
    ensures c[k] in Items(pairs)
  {
    if k == 0 {
      InItems(pairs, (c[0], c[|c| - 1]));
    } else {
      InItems(pairs, (c[k], c[k - 1]));
    }
  }

  /** A cycle of items is one in the graph. */
  lemma ItemsToNodes(names: seq<string>, e: Preds, pairs: seq<(string, string)>, c: seq<string>) returns (p: seq<nat>)
    requires Described(names, e, pairs, {}) && IsItemCycle(pairs, c)
    ensures IsCycle(e, Left(|e|, []), p)
  {
    hide WellFormed, Edges, IsItemCycle;
    WellFormedGraph(names, e);
    forall k | 0 <= k < |c|
      ensures c[k] in names
    {
      ItemCycleNames(pairs, c, k);
    }
    p := seq(|c|, k requires 0 <= k < |c| => IndexOf(names, c[k]));
    ItemCycleStart(pairs, c);
    EdgeOf(names, e, pairs, c[0], c[|c| - 1]);
    forall k | 0 < k < |p|
      ensures p[k] in e[p[k - 1]]
    {
      ItemCycleStep(pairs, c, k);
      EdgeOf(names, e, pairs, c[k], c[k - 1]);
    }
  }

  lemma ItemCycleStart(pairs: seq<(string, string)>, c: seq<string>)
    requires IsItemCycle(pairs, c)
    ensures c != [] && c[0] != c[|c| - 1] && (c[0], c[|c| - 1]) in pairs
  {
  }

  lemma ItemCycleStep(pairs: seq<(string, string)>, c: seq<string>, k: nat)
    requires IsItemCycle(pairs, c) && 0 < k < |c|
    ensures c[k] != c[k - 1] && (c[k], c[k - 1]) in pairs
  {
  }

  lemma EdgeOf(names: seq<string>, e: Preds, pairs: seq<(string, string)>, s: string, t: string)
    requires Edges(names, e, pairs) && s in names && t in names && s != t && (s, t) in pairs
    ensures IndexOf(names, s) in e[IndexOf(names, t)]
  {
    var i, j := IndexOf(names, s), IndexOf(names, t);
    assert (names[i], names[j]) in pairs;
  }

  /** A cycle is broken exactly when there is one. */
  lemma BreakIffCycle(names: seq<string>, e: Preds, pairs: seq<(string, string)>, out: seq<nat>)
    requires Described(names, e, pairs, {}) && IsRun(e, out) && Left(|e|, out) == {}
    ensures HasBreak(e, out) <==> HasItemCycle(pairs)
    ensures HasItemCycle(pairs) || Acyclic(e)
  {
    if HasBreak(e, out) {
      var k :| 0 <= k < |out| && BreaksCycle(e, Left(|e|, out[..k]), out[k]);
      CycleInAll(e, out[..k], out[k]);
      var p :| IsCycle(e, Left(|e|, []), p) && p[0] == out[k];
      NodesToItems(names, e, pairs, p);
    }
    if HasItemCycle(pairs) {
      var c :| IsItemCycle(pairs, c);
      var p := ItemsToNodes(names, e, pairs, c);
      var k := CyclicRun(e, out, p);
    } else {
      forall i | 0 <= i < |e|
        ensures !OnCycle(e, Left(|e|, []), i)
      {
        if OnCycle(e, Left(|e|, []), i) {
          var p :| IsCycle(e, Left(|e|, []), p) && p[0] == i;
          NodesToItems(names, e, pairs, p);
        }
      }
    }
  }

  /** Without cycles, the items are printed in an order consistent with all pairs. */
  lemma RunIsTopological(names: seq<string>, e: Preds, pairs: seq<(string, string)>, out: seq<nat>)
    requires Described(names, e, pairs, {}) && IsRun(e, out) && Left(|e|, out) == {} && Acyclic(e)
    requires forall k :: 0 <= k < |out| ==> out[k] < |names|
    ensures IsTopological(pairs, NamesOf(names, out))
  {
    var lines := NamesOf(names, out);
    forall k | 0 <= k < |pairs| && pairs[k].0 != pairs[k].1
      ensures Before(lines, pairs[k].0, pairs[k].1)
    {
      InItems(pairs, pairs[k]);
      var i, j := IndexOf(names, pairs[k].0), IndexOf(names, pairs[k].1);
      assert (names[i], names[j]) in pairs;
      var y := Where(e, out, j);
      AcyclicRun(e, out, y, i);
      var x :| 0 <= x < |out[..y]| && out[..y][x] == i;
      assert lines[x] == pairs[k].0 && lines[y] == pairs[k].1;
    }
  }

  lemma Where(e: Preds, out: seq<nat>, j: nat) returns (y: nat)
    requires j < |e| && Left(|e|, out) == {}
    ensures y < |out| && out[y] == j
  {
    assert j !in Left(|e|, out);
    y :| 0 <= y < |out| && out[y] == j;
  }

  /** Every item is printed, and no other, each exactly once. */
  lemma PrintsItems(names: seq<string>, e: Preds, pairs: seq<(string, string)>, out: seq<nat>)
    requires Described(names, e, pairs, {}) && IsRun(e, out) && Left(|e|, out) == {}
    ensures forall k :: 0 <= k < |out| ==> out[k] < |names|
    ensures Distinct(NamesOf(names, out)) && forall s :: s in NamesOf(names, out) <==> s in Items(pairs)
  {
    var lines := NamesOf(names, out);
    forall i, j | 0 <= i < j < |lines|
      ensures lines[i] != lines[j]
    {
      RunsOnce(e, out, i, j);
    }
    forall s | s in Items(pairs)
      ensures s in lines
    {
      var y := Where(e, out, IndexOf(names, s));
      assert lines[y] == s;
    }
  }

  /** Consecutive items make pairs. */
  function PairsOf(tokens: seq<string>): seq<(string, string)>
    requires |tokens| % 2 == 0
  {
    if tokens == [] then [] else PairsOf(tokens[..|tokens| - 2]) + [(tokens[|tokens| - 2], tokens[|tokens| - 1])]
  }

  // ----- which line comes next -----

  /** Item t was read, is not printed yet, and all its predecessors are. */
  ghost predicate IsFree(pairs: seq<(string, string)>, done: seq<string>, t: string) {
    t in Items(pairs) && t !in done && forall s :: s != t && (s, t) in pairs ==> s in done
  }

  /** Of the items that are left, t was read first. */
  ghost predicate IsEarliest(tokens: seq<string>, done: seq<string>, t: string) {
    t in tokens && t !in done && forall u :: u in tokens && u !in done && u != t ==> ReadBefore(tokens, t, u)
  }

  /** Of the predecessors of t that are left, s was read last. */
  ghost predicate IsLastPred(pairs: seq<(string, string)>, done: seq<string>, t: string, s: string) {
    var l := PredsOf(pairs, t);
    exists n :: 0 <= n < |l| && l[n] == s && s !in done && forall m :: 0 <= m < n ==> l[m] in done
  }

  /** Going back from w[0] along last-read predecessors, t is the first item to be met again. */
  ghost predicate LeadsBack(pairs: seq<(string, string)>, done: seq<string>, w: seq<string>, t: string) {
    && w != [] && Distinct(w) && t in w && IsLastPred(pairs, done, w[|w| - 1], t)
    && forall k :: 0 < k < |w| ==> IsLastPred(pairs, done, w[k - 1], w[k])
  }

  /** Item t lies on a cycle of items that are left. */
  ghost predicate OnItemCycle(pairs: seq<(string, string)>, done: seq<string>, t: string) {
    exists c :: IsItemCycle(pairs, c) && c[0] == t && forall k :: 0 <= k < |c| ==> c[k] !in done
  }

  /** The line after `done`: the free item read first, or else an item of a cycle to which the first one leads back. */
  ghost predicate IsNext(tokens: seq<string>, pairs: seq<(string, string)>, done: seq<string>, t: string) {
    if exists u :: IsFree(pairs, done, u) then
      IsFree(pairs, done, t) && forall u :: IsFree(pairs, done, u) && u != t ==> ReadBefore(tokens, t, u)
    else
      && OnItemCycle(pairs, done, t)
      && exists w :: w != [] && LeadsBack(pairs, done, w, t) && IsEarliest(tokens, done, w[0])
  }

  ghost predicate AllNext(tokens: seq<string>, pairs: seq<(string, string)>, lines: seq<string>) {
    forall k :: 0 <= k < |lines| ==> IsNext(tokens, pairs, lines[..k], lines[k])
  }

  /** The nodes in l are those whose names are not printed. */
  ghost predicate Corresponds(names: seq<string>, l: set<nat>, done: seq<string>) {
    forall i :: (i in l <==> 0 <= i < |names| && names[i] !in done)
  }

  lemma LeftNames(names: seq<string>, out: seq<nat>, k: nat)
    requires Distinct(names) && k <= |out| && forall k :: 0 <= k < |out| ==> out[k] < |names|
    ensures Corresponds(names, Left(|names|, out[..k]), NamesOf(names, out)[..k])
  {
    var done := NamesOf(names, out)[..k];
    forall i | 0 <= i < |names|
      ensures i in out[..k] <==> names[i] in done
    {
      if i in out[..k] {
        var x :| 0 <= x < k && out[x] == i;
        assert done[x] == names[i];
      }
      if names[i] in done {
        var x :| 0 <= x < k && done[x] == names[i];
        assert names[out[x]] == names[i] && out[..k][x] == out[x];
      }
    }
  }

  lemma FreeNode(names: seq<string>, e: Preds, pairs: seq<(string, string)>, l: set<nat>, done: seq<string>, i: nat)
    requires Described(names, e, pairs, {}) && Corresponds(names, l, done) && i in l
    ensures i < |e| && (IsFree(pairs, done, names[i]) <==> !HasPred(e, l, i))
  {
    hide WellFormed;
    WellFormedGraph(names, e);
    DescribedValid(names, e, pairs, {});
    if HasPred(e, l, i) {
      var t :| 0 <= t < |e[i]| && e[i][t] in l;
      var j := e[i][t];
      assert j in e[i] && j < |names|;
      assert names[j] != names[i] && (names[j], names[i]) in pairs;
    } else {
      forall s | s != names[i] && (s, names[i]) in pairs
        ensures s in done
      {
        InItems(pairs, (s, names[i]));
        var j := IndexOf(names, s);
        assert j in e[i];
        var t :| 0 <= t < |e[i]| && e[i][t] == j;
      }
    }
  }

  lemma FreeItem(names: seq<string>, e: Preds, pairs: seq<(string, string)>, l: set<nat>, done: seq<string>, u: string)
    returns (m: nat)
    requires Described(names, e, pairs, {}) && Corresponds(names, l, done) && IsFree(pairs, done, u)
    ensures m in l && m < |e| && m < |names| && names[m] == u && !HasPred(e, l, m)
  {
    m := IndexOf(names, u);
    FreeNode(names, e, pairs, l, done, m);
  }

  /** The first free node is the free item read first. */
  lemma FreeNext(tokens: seq<string>, names: seq<string>, e: Preds, pairs: seq<(string, string)>, l: set<nat>,
                 done: seq<string>, i: nat)
    requires names == FirstSeen(tokens) && Described(names, e, pairs, {}) && Corresponds(names, l, done)
    requires FirstFree(e, l, i)
    ensures i < |names| && IsNext(tokens, pairs, done, names[i])
  {
    hide Described, HasPred, IsFree, ReadBefore, FirstSeen;
    FreeNode(names, e, pairs, l, done, i);
    forall u | IsFree(pairs, done, u) && u != names[i]
      ensures ReadBefore(tokens, names[i], u)
    {
      var m := FreeItem(names, e, pairs, l, done, u);
      SeenInOrder(tokens, i, m);
    }
  }

  lemma LastPred(names: seq<string>, e: Preds, pairs: seq<(string, string)>, l: set<nat>, done: seq<string>, i: nat,
                 j: nat)
    requires Listed(names, e, pairs) && Corresponds(names, l, done) && IsFirstPred(e, l, i, j)
    ensures i < |names| && j < |names| && IsLastPred(pairs, done, names[i], names[j])
  {
    var t :| 0 <= t < |e[i]| && e[i][t] == j && j in l && forall u :: 0 <= u < t ==> e[i][u] !in l;
    var c := PredsOf(pairs, names[i]);
    assert Named(names, e[i], c);
    forall m | 0 <= m < t
      ensures c[m] in done
    {
      assert e[i][m] !in l;
    }
    assert c[t] == names[j];
  }

  lemma WalkNames(names: seq<string>, e: Preds, pairs: seq<(string, string)>, l: set<nat>, done: seq<string>,
                  w: seq<nat>, i: nat)
    requires Listed(names, e, pairs) && Corresponds(names, l, done) && Distinct(names)
    requires w != [] && IsWalk(e, l, w) && Distinct(w) && i in w && IsFirstPred(e, l, w[|w| - 1], i)
    requires forall k :: 0 <= k < |w| ==> w[k] < |names|
    ensures i < |names| && LeadsBack(pairs, done, NamesOf(names, w), names[i])
  {
    hide Listed, Corresponds, IsFirstPred, IsLastPred;
    var c := NamesOf(names, w);
    LastPred(names, e, pairs, l, done, w[|w| - 1], i);
    forall k | 0 < k < |c|
      ensures IsLastPred(pairs, done, c[k - 1], c[k])
    {
      LastPred(names, e, pairs, l, done, w[k - 1], w[k]);
    }
    var x :| 0 <= x < |w| && w[x] == i;
    assert c[x] == names[i];
  }

  lemma WalkInside(e: Preds, l: set<nat>, w: seq<nat>, k: nat)
    requires IsWalk(e, l, w) && k < |w| && w[0] in l
    ensures w[k] in l
  {
    if k > 0 { assert IsFirstPred(e, l, w[k - 1], w[k]); }
  }

  /** The node met again is the item met again, going back from the item read first. */
  lemma BreakNext(tokens: seq<string>, names: seq<string>, e: Preds, pairs: seq<(string, string)>, l: set<nat>,
                  done: seq<string>, i: nat)
    requires names == FirstSeen(tokens) && Described(names, e, pairs, {}) && Listed(names, e, pairs)
    requires Corresponds(names, l, done) && BreaksCycle(e, l, i)
    ensures i < |names| && IsNext(tokens, pairs, done, names[i])
  {
    hide Described, Listed, Corresponds, HasPred, IsFree, FirstSeen, OnCycle, LeadsBack, OnItemCycle, IsFirstLeft,
         IsEarliest;
    SeenOnce(tokens);
    DescribedValid(names, e, pairs, {});
    CorrespondsAt(names, l, done, i);
    CycleLeft(names, e, pairs, l, done, i);
    NoneFree(names, e, pairs, l, done);
    var s :| IsFirstLeft(l, s) && MetAgain(e, l, s, i);
    var w := BackItems(tokens, names, e, pairs, l, done, s, i);
  }

  lemma CorrespondsAt(names: seq<string>, l: set<nat>, done: seq<string>, i: nat)
    requires Corresponds(names, l, done)
    ensures i in l <==> i < |names| && names[i] !in done
  {
  }

  lemma NoneFree(names: seq<string>, e: Preds, pairs: seq<(string, string)>, l: set<nat>, done: seq<string>)
    requires Described(names, e, pairs, {}) && Corresponds(names, l, done)
    requires forall m :: m in l && m < |e| ==> HasPred(e, l, m)
    ensures !exists u :: IsFree(pairs, done, u)
  {
    hide Described, Corresponds, HasPred, IsFree;
    if u :| IsFree(pairs, done, u) {
      var m := FreeItem(names, e, pairs, l, done, u);
      assert false;
    }
  }

  lemma CycleLeft(names: seq<string>, e: Preds, pairs: seq<(string, string)>, l: set<nat>, done: seq<string>, i: nat)
    requires Described(names, e, pairs, {}) && Corresponds(names, l, done) && OnCycle(e, l, i)
    ensures i < |names| && OnItemCycle(pairs, done, names[i])
  {
    var p :| IsCycle(e, l, p) && p[0] == i;
    var c := NamesOf(names, p);
    CycleNames(names, e, pairs, l, p);
    forall k | 0 <= k < |c|
      ensures c[k] !in done
    {
      assert p[k] in l;
    }
  }

  lemma BackItems(tokens: seq<string>, names: seq<string>, e: Preds, pairs: seq<(string, string)>, l: set<nat>,
                  done: seq<string>, s: nat, i: nat)
    returns (c: seq<string>)
    requires names == FirstSeen(tokens) && Listed(names, e, pairs) && Corresponds(names, l, done) && Distinct(names)
    requires IsFirstLeft(l, s) && MetAgain(e, l, s, i)
    ensures i < |names| && c != [] && LeadsBack(pairs, done, c, names[i]) && IsEarliest(tokens, done, c[0])
  {
    hide Listed, Corresponds, IsFirstPred, LeadsBack, FirstSeen, IsEarliest;
    var w :| w != [] && w[0] == s && IsWalk(e, l, w) && Distinct(w) && i in w && IsFirstPred(e, l, w[|w| - 1], i);
    forall k | 0 <= k < |w|
      ensures w[k] < |names|
    {
      WalkInside(e, l, w, k);
      CorrespondsAt(names, l, done, w[k]);
    }
    c := NamesOf(names, w);
    WalkNames(names, e, pairs, l, done, w, i);
    EarliestNode(tokens, names, l, done, s);
  }

  lemma EarliestNode(tokens: seq<string>, names: seq<string>, l: set<nat>, done: seq<string>, s: nat)
    requires names == FirstSeen(tokens) && Corresponds(names, l, done) && IsFirstLeft(l, s) && s < |names|
    ensures IsEarliest(tokens, done, names[s])
  {
    hide FirstSeen, ReadBefore;
    SeenOnce(tokens);
    forall u | u in tokens && u !in done && u != names[s]
      ensures ReadBefore(tokens, names[s], u)
    {
      var m := IndexOf(names, u);
      assert m in l;
      SeenInOrder(tokens, s, m);
    }
  }

  /** Every line printed is the next one by the rule. */
  lemma RunInOrder(tokens: seq<string>, names: seq<string>, e: Preds, pairs: seq<(string, string)>, out: seq<nat>)
    requires names == FirstSeen(tokens) && Described(names, e, pairs, {}) && Listed(names, e, pairs) && IsRun(e, out)
    requires forall k :: 0 <= k < |out| ==> out[k] < |names|
    ensures AllNext(tokens, pairs, NamesOf(names, out))
  {
    hide Described, Listed, FirstFree, BreaksCycle, IsNext, FirstSeen, Corresponds;
    var lines := NamesOf(names, out);
    DescribedValid(names, e, pairs, {});
    forall k | 0 <= k < |lines|
      ensures IsNext(tokens, pairs, lines[..k], lines[k])
    {
      var l := Left(|e|, out[..k]);
      LeftNames(names, out, k);
      if FirstFree(e, l, out[k]) {
        FreeNext(tokens, names, e, pairs, l, lines[..k], out[k]);
      } else {
        BreakNext(tokens, names, e, pairs, l, lines[..k], out[k]);
      }
    }
  }

  // ----- there is only one such output -----

  lemma OneLastPred(pairs: seq<(string, string)>, done: seq<string>, t: string, s: string, s': string)
    requires IsLastPred(pairs, done, t, s) && IsLastPred(pairs, done, t, s')
    ensures s == s'
  {
    hide PredsOf;
    var l := PredsOf(pairs, t);
    var n :| 0 <= n < |l| && l[n] == s && s !in done && forall m :: 0 <= m < n ==> l[m] in done;
    var n' :| 0 <= n' < |l| && l[n'] == s' && s' !in done && forall m :: 0 <= m < n' ==> l[m] in done;
  }

  lemma {:induction false} SameWalk(pairs: seq<(string, string)>, done: seq<string>, w: seq<string>, v: seq<string>,
                                    k: nat)
    requires w != [] && v != [] && w[0] == v[0] && k < |w| && k < |v|
    requires forall k :: 0 < k < |w| ==> IsLastPred(pairs, done, w[k - 1], w[k])
    requires forall k :: 0 < k < |v| ==> IsLastPred(pairs, done, v[k - 1], v[k])
    ensures w[k] == v[k]
  {
    hide IsLastPred;
    if k > 0 {
      SameWalk(pairs, done, w, v, k - 1);
      OneLastPred(pairs, done, w[k - 1], w[k], v[k]);
    }
  }

  lemma SameBack(pairs: seq<(string, string)>, done: seq<string>, w: seq<string>, v: seq<string>, t: string, u: string)
    requires LeadsBack(pairs, done, w, t) && LeadsBack(pairs, done, v, u) && w[0] == v[0] && |w| <= |v|
    ensures t == u
  {
    hide IsLastPred;
    forall k | 0 <= k < |w|
      ensures w[k] == v[k]
    {
      SameWalk(pairs, done, w, v, k);
    }
    var last := |w| - 1;
    if |w| < |v| {
      NotAgain(w, v, t);
      OneLastPred(pairs, done, w[last], t, v[|w|]);
    } else {
      OneLastPred(pairs, done, w[last], t, u);
    }
  }

  lemma NotAgain(w: seq<string>, v: seq<string>, t: string)
    requires Distinct(v) && |w| < |v| && t in w && forall k :: 0 <= k < |w| ==> w[k] == v[k]
    ensures v[|w|] != t
  {
    var x :| 0 <= x < |w| && w[x] == t;
    assert v[x] != v[|w|];
  }

  lemma OneEarliest(tokens: seq<string>, done: seq<string>, t: string, u: string)
    requires IsEarliest(tokens, done, t) && IsEarliest(tokens, done, u)
    ensures t == u
  {
    hide ReadBefore;
    if t != u { ReadOneWay(tokens, t, u); }
  }

  lemma OneNext(tokens: seq<string>, pairs: seq<(string, string)>, done: seq<string>, t: string, u: string)
    requires IsNext(tokens, pairs, done, t) && IsNext(tokens, pairs, done, u)
    ensures t == u
  {
    hide IsFree, ReadBefore, LeadsBack, IsEarliest, OnItemCycle;
    if exists x :: IsFree(pairs, done, x) {
      if t != u { ReadOneWay(tokens, t, u); }
    } else {
      var w :| w != [] && LeadsBack(pairs, done, w, t) && IsEarliest(tokens, done, w[0]);
      var v :| v != [] && LeadsBack(pairs, done, v, u) && IsEarliest(tokens, done, v[0]);
      OneEarliest(tokens, done, w[0], v[0]);
      if |w| <= |v| { SameBack(pairs, done, w, v, t, u); } else { SameBack(pairs, done, v, w, u, t); }
    }
  }

  /** The rule leaves no choice: outputs of the same length that follow it are equal. */
  lemma {:induction false} LinesDetermined(tokens: seq<string>, pairs: seq<(string, string)>, x: seq<string>,
                                           y: seq<string>, k: nat)
    requires AllNext(tokens, pairs, x) && AllNext(tokens, pairs, y) && k <= |x| && k <= |y|
    ensures x[..k] == y[..k]
  {
    hide IsNext;
    if k > 0 {
      LinesDetermined(tokens, pairs, x, y, k - 1);
      assert IsNext(tokens, pairs, x[..k - 1], x[k - 1]) && IsNext(tokens, pairs, y[..k - 1], y[k - 1]);
      OneNext(tokens, pairs, x[..k - 1], x[k - 1], y[k - 1]);
      assert x[..k] == x[..k - 1] + [x[k - 1]] && y[..k] == y[..k - 1] + [y[k - 1]];
    }
  }

  /** Read all pairs; none is left over if the number of items is even. */
  method ReadAll(tokens: seq<string>) returns (g: Sorter, ok: bool)
    ensures fresh(g) && (ok <==> |tokens| % 2 == 0)
    ensures ok ==> g.Holds(PairsOf(tokens)) && g.names == FirstSeen(tokens)
  {
    hide Described, Listed, WellFormed, WithName, PairsOf, FirstSeen;
    g := new Sorter();
    var n := 0;
    NothingRead(tokens);
    while n + 2 <= |tokens|
      invariant n <= |tokens| && n % 2 == 0 && fresh(g)
      invariant g.Holds(PairsOf(tokens[..n])) && g.names == FirstSeen(tokens[..n])
      modifies g
    {
      PairMore(tokens, n);
      g.ReadPair(tokens[n], tokens[n + 1], PairsOf(tokens[..n]));
      n := n + 2;
    }
    ok := n == |tokens|;
    if ok { assert tokens[..n] == tokens; }
  }

  lemma NothingRead(tokens: seq<string>)
    ensures PairsOf(tokens[..0]) == [] && FirstSeen(tokens[..0]) == []
  {
  }

  lemma PairMore(tokens: seq<string>, n: nat)
    requires n + 2 <= |tokens| && n % 2 == 0
    ensures PairsOf(tokens[..n + 2]) == PairsOf(tokens[..n]) + [(tokens[n], tokens[n + 1])]
    ensures FirstSeen(tokens[..n + 2]) == WithName(WithName(FirstSeen(tokens[..n]), tokens[n]), tokens[n + 1])
  {
    hide FirstSeen, WithName;
    var some := tokens[..n + 2];
    assert some[..|some| - 2] == tokens[..n];
    SeenTwo(tokens[..n], tokens[n], tokens[n + 1]);
    assert some == tokens[..n] + [tokens[n], tokens[n + 1]];
  }

  lemma SeenTwo(tokens: seq<string>, s: string, t: string)
    ensures FirstSeen(tokens + [s, t]) == WithName(WithName(FirstSeen(tokens), s), t)
  {
    hide WithName;
    var more := tokens + [s, t];
    assert more[..|more| - 1] == tokens + [s];
    assert (tokens + [s])[..|tokens|] == tokens;
  }

  /**
   Sort the items: none for an odd number of them, and else every item exactly
   once, each line being the next by the rule; the order is consistent if there
   is a consistent one, and the warning tells when there is none.
   */
  method TopologicalSort(tokens: seq<string>) returns (lines: Option<seq<string>>, warned: bool)
    ensures lines.None? <==> |tokens| % 2 == 1
    ensures lines.Some? ==>
              var pairs := PairsOf(tokens);
              && Distinct(lines.value) && (forall s :: s in lines.value <==> s in Items(pairs))
              && (warned <==> HasItemCycle(pairs))
              && AllNext(tokens, pairs, lines.value)
              && (!warned ==> IsTopological(pairs, lines.value))
  {
    hide Described, Listed, WellFormed, IsRun, HasBreak, Left, FirstSeen, PairsOf, AllNext, IsTopological, Acyclic;
    var g, ok := ReadAll(tokens);
    if !ok { return None, false; }
    ghost var pairs := PairsOf(tokens);
    ghost var e := g.inedges;
    var out;
    out, warned := g.Print();
    PrintsItems(g.names, e, pairs, out);
    BreakIffCycle(g.names, e, pairs, out);
    RunInOrder(tokens, g.names, e, pairs, out);
    if !warned { RunIsTopological(g.names, e, pairs, out); }
    lines := Some(NamesOf(g.names, out));
  }
}
