/**
 The relational join of two sorted files, join(1). The second file is read
 again from a remembered position for every line of the first file that has the
 same key; the result is the join a pair of nested loops would give.
 */
module Join {
  import opened Dictionary
  import opened SortQuick

  /** A line is its fields; a blank line has none. */
  type Fields = seq<string>

  /** A line of output: a pair of lines with equal keys, or an unpairable line of either file. */
  datatype Row = Pair(one: Fields, two: Fields) | One(one: Fields) | Two(two: Fields)

  // ----- comparison of keys -----

  function StrCmp(x: string, y: string): int {
    if x == [] && y == [] then 0
    else if x == [] then -1
    else if y == [] then 1
    else if x[0] != y[0] then (x[0] as int) - (y[0] as int)
    else StrCmp(x[1..], y[1..])
  }

  lemma {:induction false} StrCmpSign(x: string, y: string)
    ensures StrCmp(x, y) < 0 <==> StrCmp(y, x) > 0
  {
    if x != [] && y != [] && x[0] == y[0] {
      StrCmpSign(x[1..], y[1..]);
    }
  }

  lemma {:induction false} StrCmpTransitive(x: string, y: string, z: string)
    requires StrCmp(x, y) <= 0 && StrCmp(y, z) <= 0
    ensures StrCmp(x, z) <= 0
  {
    if x != [] && y != [] && z != [] && x[0] == y[0] && y[0] == z[0] {
      StrCmpTransitive(x[1..], y[1..], z[1..]);
    }
  }

  lemma StrCmpPreorder()
    ensures IsPreorder(StrCmp)
  {
    forall x, y
      ensures StrCmp(x, y) < 0 <==> StrCmp(y, x) > 0
    {
      StrCmpSign(x, y);
    }
    forall x, y, z | StrCmp(x, y) <= 0 && StrCmp(y, z) <= 0
      ensures StrCmp(x, z) <= 0
    {
      StrCmpTransitive(x, y, z);
    }
  }

  lemma {:induction false} StrCmpEqual(x: string, y: string)
    ensures StrCmp(x, y) == 0 <==> x == y
  {
    if x != [] && y != [] && x[0] == y[0] {
      StrCmpEqual(x[1..], y[1..]);
      assert x == [x[0]] + x[1..] && y == [y[0]] + y[1..];
    }
  }

  function CharCode(c: char): int {
    c as int
  }

  /** In a dictionary, x stands before y. */
  ghost predicate Before(x: string, y: string) {
    Precedes(CharCode, x, y)
  }

  /** x comes no later than y. */
  ghost predicate Leq(x: string, y: string) {
    x == y || Before(x, y)
  }

  /** The comparison finds the first difference. */
  lemma {:induction false} StrCmpBefore(x: string, y: string)
    ensures StrCmp(x, y) < 0 <==> Before(x, y)
  {
    if x == [] || y == [] || x[0] != y[0] {
      FirstDiffers(CharCode, x, y);
    } else {
      StrCmpBefore(x[1..], y[1..]);
      FirstEqual(CharCode, x, y);
    }
  }

  lemma LeqTotal(x: string, y: string)
    ensures StrCmp(x, y) < 0 || x == y || StrCmp(y, x) < 0
    ensures x == y <==> StrCmp(x, y) == 0
    ensures StrCmp(x, y) > 0 <==> StrCmp(y, x) < 0
    ensures Leq(x, y) <==> StrCmp(x, y) <= 0
  {
    hide StrCmp, Before;
    StrCmpSign(x, y);
    StrCmpSign(y, x);
    StrCmpEqual(x, y);
    StrCmpBefore(x, y);
  }

  lemma LeqChain(x: string, y: string, z: string)
    requires Leq(x, y) && Leq(y, z)
    ensures Leq(x, z) && (x != y || y != z ==> x != z)
  {
    hide StrCmp, Leq;
    LeqTotal(x, y);
    LeqTotal(y, z);
    LeqTotal(x, z);
    StrCmpTransitive(x, y, z);
  }

  // ----- what a join is -----

  /** Lines are read up to the end of a file or its first blank line. */
  function UpToBlank(f: seq<Fields>): seq<Fields> {
    if f == [] || f[0] == [] then [] else [f[0]] + UpToBlank(f[1..])
  }

  function Key(l: Fields, fj: nat): string {
    if fj < |l| then l[fj] else ""
  }

  /** Two files, their join fields and whether unpairable lines are wanted. */
  datatype Query = Query(one: seq<Fields>, two: seq<Fields>, fj1: nat, fj2: nat, a1: bool, a2: bool) {
    function K1(i: nat): string
      requires i < |one|
    {
      Key(one[i], fj1)
    }

    function K2(j: nat): string
      requires j < |two|
    {
      Key(two[j], fj2)
    }

    function RowKey(r: Row): string {
      match r
      case Pair(x, y) => Key(x, fj1)
      case One(x) => Key(x, fj1)
      case Two(y) => Key(y, fj2)
    }

    ghost predicate Sorted() {
      && (forall i, j :: 0 <= i < j < |one| ==> Leq(K1(i), K1(j)))
      && (forall i, j :: 0 <= i < j < |two| ==> Leq(K2(i), K2(j)))
    }

    /** The pairs of line i of the first file with the first n lines of the second. */
    ghost function Matches(i: nat, n: nat): seq<Row>
      requires i < |one| && n <= |two|
    {
      if n == 0 then []
      else Matches(i, n - 1) + if K1(i) == K2(n - 1) then [Pair(one[i], two[n - 1])] else []
    }

    /** The inner loop of the nested loops. */
    ghost function RowsOf(i: nat): seq<Row>
      requires i < |one|
    {
      var m := Matches(i, |two|);
      if m != [] then m else if a1 then [One(one[i])] else []
    }

    /** The nested loops over the first n lines of the first file. */
    ghost function Nested(n: nat): seq<Row>
      requires n <= |one|
    {
      if n == 0 then [] else Nested(n - 1) + RowsOf(n - 1)
    }

    /** The unpairable ones among the first n lines of the second file. */
    ghost function Unpaired(n: nat): seq<Row>
      requires n <= |two|
    {
      if n == 0 then []
      else Unpaired(n - 1) + if a2 && Lonely(n - 1) then [Two(two[n - 1])] else []
    }

    ghost predicate Lonely(j: nat)
      requires j < |two|
    {
      forall i :: 0 <= i < |one| ==> K1(i) != K2(j)
    }

    ghost predicate InOrder(out: seq<Row>) {
      forall i, j :: 0 <= i < j < |out| ==> Leq(RowKey(out[i]), RowKey(out[j]))
    }
  }

  ghost function FromFirst(out: seq<Row>): seq<Row> {
    if out == [] then []
    else FromFirst(out[..|out| - 1]) + if out[|out| - 1].Two? then [] else [out[|out| - 1]]
  }

  ghost function FromSecond(out: seq<Row>): seq<Row> {
    if out == [] then []
    else FromSecond(out[..|out| - 1]) + if out[|out| - 1].Two? then [out[|out| - 1]] else []
  }

  lemma OneMore(out: seq<Row>, r: Row)
    ensures FromFirst(out + [r]) == FromFirst(out) + if r.Two? then [] else [r]
    ensures FromSecond(out + [r]) == FromSecond(out) + if r.Two? then [r] else []
  {
    assert (out + [r])[..|out|] == out;
  }

  /**
   The output of a join: its pairs and unpairable lines of the first file are
   those of nested loops over the two files, its other lines are the unpairable
   ones of the second file, and all are in the order of their keys.
   */
  ghost predicate Joined(q: Query, out: seq<Row>) {
    && FromFirst(out) == q.Nested(|q.one|)
    && FromSecond(out) == q.Unpaired(|q.two|)
    && q.InOrder(out)
  }

  // ----- the state between groups of equal keys -----

  /** Lines read and lines not yet read have no key in common. */
  ghost predicate Frontier(q: Query, i1: nat, i2: nat) {
    && i1 <= |q.one| && i2 <= |q.two|
    && (forall a, b :: 0 <= a < i1 && i2 <= b < |q.two| ==> StrCmp(q.K1(a), q.K2(b)) < 0)
    && (forall a, b :: i1 <= a < |q.one| && 0 <= b < i2 ==> StrCmp(q.K2(b), q.K1(a)) < 0)
  }

  /** No line written has a key after one that is not yet read. */
  ghost predicate Behind(q: Query, out: seq<Row>, i1: nat, i2: nat) {
    && i1 <= |q.one| && i2 <= |q.two|
    && (forall k, a :: 0 <= k < |out| && i1 <= a < |q.one| ==> Leq(q.RowKey(out[k]), q.K1(a)))
    && (forall k, b :: 0 <= k < |out| && i2 <= b < |q.two| ==> Leq(q.RowKey(out[k]), q.K2(b)))
  }

  ghost predicate State(q: Query, out: seq<Row>, i1: nat, i2: nat) {
    && Frontier(q, i1, i2) && Behind(q, out, i1, i2) && q.InOrder(out)
    && FromFirst(out) == q.Nested(i1) && FromSecond(out) == q.Unpaired(i2)
  }

  lemma StateStart(q: Query)
    ensures State(q, [], 0, 0)
  {
  }

  /** The next line of the second file precedes the rest of the first. */
  ghost predicate TwoFirst(q: Query, i1: nat, i2: nat) {
    i1 <= |q.one| && i2 < |q.two| && (i1 == |q.one| || StrCmp(q.K2(i2), q.K1(i1)) < 0)
  }

  ghost predicate OneFirst(q: Query, i1: nat, i2: nat) {
    i1 < |q.one| && i2 <= |q.two| && (i2 == |q.two| || StrCmp(q.K1(i1), q.K2(i2)) < 0)
  }

  lemma FrontierTwo(q: Query, i1: nat, i2: nat)
    requires q.Sorted() && Frontier(q, i1, i2) && TwoFirst(q, i1, i2)
    ensures Frontier(q, i1, i2 + 1) && q.Lonely(i2)
    ensures forall a :: i1 <= a < |q.one| ==> StrCmp(q.K2(i2), q.K1(a)) < 0 && Leq(q.K2(i2), q.K1(a))
  {
    hide StrCmp, Leq;
    forall a | i1 <= a < |q.one|
      ensures StrCmp(q.K2(i2), q.K1(a)) < 0 && Leq(q.K2(i2), q.K1(a))
    {
      LeqTotal(q.K2(i2), q.K1(a));
      LeqTotal(q.K2(i2), q.K1(i1));
      if i1 < a { LeqChain(q.K2(i2), q.K1(i1), q.K1(a)); }
    }
    forall i | 0 <= i < |q.one|
      ensures q.K1(i) != q.K2(i2)
    {
      LeqTotal(q.K1(i), q.K2(i2));
    }
  }

  lemma FrontierOne(q: Query, i1: nat, i2: nat)
    requires q.Sorted() && Frontier(q, i1, i2) && OneFirst(q, i1, i2)
    ensures Frontier(q, i1 + 1, i2)
    ensures forall b :: 0 <= b < |q.two| ==> q.K1(i1) != q.K2(b)
    ensures forall b :: i2 <= b < |q.two| ==> StrCmp(q.K1(i1), q.K2(b)) < 0 && Leq(q.K1(i1), q.K2(b))
  {
    hide StrCmp, Leq;
    forall b | i2 <= b < |q.two|
      ensures StrCmp(q.K1(i1), q.K2(b)) < 0 && Leq(q.K1(i1), q.K2(b))
    {
      LeqTotal(q.K1(i1), q.K2(b));
      LeqTotal(q.K1(i1), q.K2(i2));
      if i2 < b { LeqChain(q.K1(i1), q.K2(i2), q.K2(b)); }
    }
    forall b | 0 <= b < |q.two|
      ensures q.K1(i1) != q.K2(b)
    {
      LeqTotal(q.K1(i1), q.K2(b));
    }
  }

  lemma {:induction false} NoMatches(q: Query, i: nat, n: nat)
    requires i < |q.one| && n <= |q.two| && forall b :: 0 <= b < n ==> q.K1(i) != q.K2(b)
    ensures q.Matches(i, n) == []
  {
    if n > 0 { NoMatches(q, i, n - 1); }
  }

  /** Writing a line whose key lies between those written and those to be read keeps the order. */
  lemma InOrderMore(q: Query, out: seq<Row>, r: Row, i1: nat, i2: nat)
    requires q.InOrder(out) && Behind(q, out, i1, i2)
    requires forall k :: 0 <= k < |out| ==> Leq(q.RowKey(out[k]), q.RowKey(r))
    requires forall a :: i1 <= a < |q.one| ==> Leq(q.RowKey(r), q.K1(a))
    requires forall b :: i2 <= b < |q.two| ==> Leq(q.RowKey(r), q.K2(b))
    ensures q.InOrder(out + [r]) && Behind(q, out + [r], i1, i2)
  {
  }

  lemma SkipTwo(q: Query, out: seq<Row>, i1: nat, i2: nat)
    requires q.Sorted() && State(q, out, i1, i2) && TwoFirst(q, i1, i2)
    ensures State(q, if q.a2 then out + [Two(q.two[i2])] else out, i1, i2 + 1)
  {
    hide StrCmp, Leq, FromFirst, FromSecond;
    FrontierTwo(q, i1, i2);
    var r := Two(q.two[i2]);
    if q.a2 {
      OneMore(out, r);
      LeqSelf(q.K2(i2));
      InOrderMore(q, out, r, i1, i2);
    }
  }

  lemma LeqSelf(x: string)
    ensures Leq(x, x)
  {
    LeqTotal(x, x);
  }

  lemma SkipOne(q: Query, out: seq<Row>, i1: nat, i2: nat)
    requires q.Sorted() && State(q, out, i1, i2) && OneFirst(q, i1, i2)
    ensures State(q, if q.a1 then out + [One(q.one[i1])] else out, i1 + 1, i2)
  {
    hide StrCmp, Leq, FromFirst, FromSecond, Frontier, Query.InOrder, Query.Matches;
    FrontierOne(q, i1, i2);
    NoMatches(q, i1, |q.two|);
    var r := One(q.one[i1]);
    if q.a1 {
      OneMore(out, r);
      LeqSelf(q.K1(i1));
      InOrderMore(q, out, r, i1, i2);
    }
  }

  /** Without unpairable lines, nothing is left to write when one file ends. */
  lemma {:induction false} NothingMore(q: Query, i1: nat, i2: nat, n: nat)
    requires q.Sorted() && Frontier(q, i1, i2) && !q.a1 && i2 == |q.two| && i1 <= n <= |q.one|
    ensures q.Nested(n) == q.Nested(i1)
    decreases n
  {
    hide StrCmp, Leq, Query.Matches, Query.Sorted;
    if i1 < n {
      NothingMore(q, i1, i2, n - 1);
      PastTwo(q, i1, n - 1);
      NoMatches(q, n - 1, |q.two|);
    }
  }

  lemma PastTwo(q: Query, i1: nat, n: nat)
    requires Frontier(q, i1, |q.two|) && i1 <= n < |q.one|
    ensures forall b :: 0 <= b < |q.two| ==> q.K1(n) != q.K2(b)
  {
    hide StrCmp, Leq;
    forall b | 0 <= b < |q.two|
      ensures q.K1(n) != q.K2(b)
    {
      LeqTotal(q.K2(b), q.K1(n));
    }
  }

  lemma {:induction false} NothingAsked(q: Query, n: nat)
    requires !q.a2 && n <= |q.two|
    ensures q.Unpaired(n) == []
  {
    if n > 0 { NothingAsked(q, n - 1); }
  }

  lemma StateEnd(q: Query, out: seq<Row>, i1: nat, i2: nat)
    requires q.Sorted() && State(q, out, i1, i2)
    requires (i1 == |q.one| && i2 == |q.two|) || (!q.a1 && !q.a2 && (i1 == |q.one| || i2 == |q.two|))
    ensures Joined(q, out)
  {
    hide FromFirst, FromSecond;
    if !q.a1 && !q.a2 {
      NothingAsked(q, i2);
      NothingAsked(q, |q.two|);
      if i2 == |q.two| { NothingMore(q, i1, i2, |q.one|); }
    }
  }

  // ----- a group of equal keys -----

  /** The pairs of line a with the lines i2..j of the second file. */
  ghost function Pairs(q: Query, a: nat, i2: nat, j: nat): seq<Row>
    requires i2 <= j <= |q.two| && (i2 < j ==> a < |q.one|)
  {
    if i2 == j then [] else Pairs(q, a, i2, j - 1) + [Pair(q.one[a], q.two[j - 1])]
  }

  /**
   The lines i1..a of the first file are joined with i2..top of the second,
   all with one key, and line a with i2..j.
   */
  ghost predicate Group(q: Query, out: seq<Row>, i1: nat, a: nat, i2: nat, j: nat, top: nat) {
    && i1 < |q.one| && i1 <= a <= |q.one| && i2 <= j <= top <= |q.two|
    && (forall x :: i1 <= x < a ==> q.K1(x) == q.K1(i1))
    && (forall y :: i2 <= y < top ==> q.K2(y) == q.K1(i1))
    && (i2 < j ==> a < |q.one| && q.K1(a) == q.K1(i1))
    && Frontier(q, i1, i2) && q.InOrder(out)
    && (forall k :: 0 <= k < |out| ==> Leq(q.RowKey(out[k]), q.K1(i1)))
    && FromFirst(out) == q.Nested(a) + Pairs(q, a, i2, j) && FromSecond(out) == q.Unpaired(i2)
  }

  /** The second file has no more lines of the group. */
  ghost predicate Ends(q: Query, i1: nat, i2: nat, top: nat) {
    i1 < |q.one| && i2 < top <= |q.two| && (top < |q.two| ==> q.K2(top) != q.K1(i1))
  }

  lemma GroupStart(q: Query, out: seq<Row>, i1: nat, i2: nat)
    requires State(q, out, i1, i2) && i1 < |q.one|
    ensures Group(q, out, i1, i1, i2, i2, i2)
  {
  }

  lemma GroupPair(q: Query, out: seq<Row>, i1: nat, a: nat, i2: nat, j: nat, top: nat)
    requires Group(q, out, i1, a, i2, j, top) && a < |q.one| && q.K1(a) == q.K1(i1) && j < |q.two|
    requires j < top || (j == top && q.K2(j) == q.K1(i1))
    ensures Group(q, out + [Pair(q.one[a], q.two[j])], i1, a, i2, j + 1, if j < top then top else j + 1)
  {
    hide StrCmp, Leq, FromFirst, FromSecond, Query.Nested, Query.Unpaired;
    OneMore(out, Pair(q.one[a], q.two[j]));
    LeqSelf(q.K1(i1));
  }

  lemma PastTop(q: Query, i1: nat, i2: nat, top: nat)
    requires q.Sorted() && Ends(q, i1, i2, top) && forall y :: i2 <= y < top ==> q.K2(y) == q.K1(i1)
    ensures forall y :: top <= y < |q.two| ==> StrCmp(q.K1(i1), q.K2(y)) < 0
  {
    hide StrCmp, Leq;
    forall y | top <= y < |q.two|
      ensures StrCmp(q.K1(i1), q.K2(y)) < 0
    {
      assert q.K2(i2) == q.K1(i1);
      LeqTotal(q.K2(i2), q.K2(top));
      LeqTotal(q.K2(i2), q.K2(y));
      if top < y { LeqChain(q.K2(i2), q.K2(top), q.K2(y)); }
    }
  }

  /** In a sorted second file the lines that match form one range. */
  lemma {:induction false} MatchRange(q: Query, a: nat, i2: nat, top: nat, n: nat)
    requires a < |q.one| && i2 <= top <= |q.two| && n <= |q.two|
    requires forall y :: 0 <= y < |q.two| ==> (q.K1(a) == q.K2(y) <==> i2 <= y < top)
    ensures q.Matches(a, n) == Pairs(q, a, i2, if n < i2 then i2 else if n < top then n else top)
  {
    if n > 0 { MatchRange(q, a, i2, top, n - 1); }
  }

  lemma RowDone(q: Query, out: seq<Row>, i1: nat, a: nat, i2: nat, top: nat)
    requires q.Sorted() && Group(q, out, i1, a, i2, top, top) && Ends(q, i1, i2, top)
    ensures Group(q, out, i1, a + 1, i2, i2, top)
  {
    hide StrCmp, Leq, FromFirst, FromSecond, Query.Unpaired;
    PastTop(q, i1, i2, top);
    forall y | 0 <= y < |q.two|
      ensures q.K1(a) == q.K2(y) <==> i2 <= y < top
    {
      LeqTotal(q.K2(y), q.K1(i1));
    }
    MatchRange(q, a, i2, top, |q.two|);
    assert q.Nested(a + 1) == q.Nested(a) + q.RowsOf(a);
  }

  /** All of the group is written when the first file is past it. */
  lemma GroupDone(q: Query, out: seq<Row>, i1: nat, a: nat, i2: nat, top: nat)
    requires q.Sorted() && Group(q, out, i1, a, i2, i2, top) && Ends(q, i1, i2, top)
    requires i1 < a && (a < |q.one| ==> q.K1(a) != q.K1(i1))
    ensures State(q, out, a, top)
  {
    hide StrCmp, Leq, FromFirst, FromSecond, Query.Nested, Query.Unpaired;
    PastTop(q, i1, i2, top);
    PastGroup(q, i1, a);
    forall y | i2 <= y < top
      ensures !q.Lonely(y)
    {
      assert q.K1(i1) == q.K2(y);
    }
    NoneLonely(q, i2, top);
    forall x, y | a <= x < |q.one| && 0 <= y < top
      ensures StrCmp(q.K2(y), q.K1(x)) < 0
    {
    }
    BehindGroup(q, out, i1, a, top);
  }

  lemma PastGroup(q: Query, i1: nat, a: nat)
    requires q.Sorted() && i1 < a <= |q.one| && (a < |q.one| ==> q.K1(a) != q.K1(i1))
    ensures forall x :: a <= x < |q.one| ==> StrCmp(q.K1(i1), q.K1(x)) < 0
  {
    hide StrCmp, Leq;
    forall x | a <= x < |q.one|
      ensures StrCmp(q.K1(i1), q.K1(x)) < 0
    {
      LeqTotal(q.K1(i1), q.K1(a));
      LeqTotal(q.K1(i1), q.K1(x));
      if a < x { LeqChain(q.K1(i1), q.K1(a), q.K1(x)); }
    }
  }

  lemma {:induction false} NoneLonely(q: Query, i2: nat, top: nat)
    requires i2 <= top <= |q.two| && forall y :: i2 <= y < top ==> !q.Lonely(y)
    ensures q.Unpaired(top) == q.Unpaired(i2)
    decreases top
  {
    if i2 < top { NoneLonely(q, i2, top - 1); }
  }

  lemma BehindGroup(q: Query, out: seq<Row>, i1: nat, a: nat, top: nat)
    requires i1 < a <= |q.one| && top <= |q.two|
    requires forall k :: 0 <= k < |out| ==> Leq(q.RowKey(out[k]), q.K1(i1))
    requires forall x :: a <= x < |q.one| ==> StrCmp(q.K1(i1), q.K1(x)) < 0
    requires forall y :: top <= y < |q.two| ==> StrCmp(q.K1(i1), q.K2(y)) < 0
    ensures Behind(q, out, a, top)
  {
    hide StrCmp, Leq;
    forall k, x | 0 <= k < |out| && a <= x < |q.one|
      ensures Leq(q.RowKey(out[k]), q.K1(x))
    {
      LeqTotal(q.K1(i1), q.K1(x));
      LeqChain(q.RowKey(out[k]), q.K1(i1), q.K1(x));
    }
    forall k, y | 0 <= k < |out| && top <= y < |q.two|
      ensures Leq(q.RowKey(out[k]), q.K2(y))
    {
      LeqTotal(q.K1(i1), q.K2(y));
      LeqChain(q.RowKey(out[k]), q.K1(i1), q.K2(y));
    }
  }

  /** How the comparison of lines a and j decides within a group. */
  lemma GroupCases(q: Query, out: seq<Row>, i1: nat, a: nat, i2: nat, j: nat, top: nat)
    requires q.Sorted() && Group(q, out, i1, a, i2, j, top) && Ends(q, i1, i2, top)
    ensures a < |q.one| && j < |q.two| && StrCmp(q.K1(a), q.K2(j)) == 0 ==> j < top && q.K1(a) == q.K1(i1)
    ensures (a < |q.one| && j < |q.two| && StrCmp(q.K1(a), q.K2(j)) < 0) || j == |q.two| ==> j == top
    ensures j < |q.two| && (a == |q.one| || StrCmp(q.K1(a), q.K2(j)) > 0) ==>
              j == i2 && (a < |q.one| ==> q.K1(a) != q.K1(i1))
  {
    hide StrCmp, Leq, FromFirst, FromSecond, Query.Nested, Query.Unpaired;
    PastTop(q, i1, i2, top);
    if a < |q.one| {
      LeqSelf(q.K1(i1));
      assert Leq(q.K1(i1), q.K1(a));
      LeqTotal(q.K1(i1), q.K1(a));
      if j < |q.two| { LeqTotal(q.K1(a), q.K2(j)); }
    }
  }

  // ----- reading -----

  lemma {:induction false} UpToBlankIsPrefix(f: seq<Fields>)
    ensures var g := UpToBlank(f);
            && g <= f && (forall i :: 0 <= i < |g| ==> g[i] != [])
            && (|g| < |f| ==> f[|g|] == [])
  {
    if f != [] && f[0] != [] {
      UpToBlankIsPrefix(f[1..]);
      var g := UpToBlank(f[1..]);
      assert f == [f[0]] + f[1..];
      assert |g| < |f[1..]| ==> f[1..][|g|] == f[|g| + 1];
    }
  }

  /** Line i is the one read last, and p is the file position after it; at the end there is none. */
  ghost predicate Reading(f: seq<Fields>, p: nat, n: nat, i: nat) {
    && p <= |f| && i <= |UpToBlank(f)| && (n > 0 <==> i < |UpToBlank(f)|)
    && (n > 0 ==> p == i + 1 && f[i] == UpToBlank(f)[i])
  }

  /** Read a line and count its fields. */
  method Input(f: seq<Fields>, p: nat) returns (p': nat, n: nat)
    requires p <= |UpToBlank(f)|
    ensures Reading(f, p', n, p)
  {
    UpToBlankIsPrefix(f);
    if p == |f| {
      return p, 0;
    }
    return p + 1, |f[p]|;
  }

  method Comp(l1: Fields, l2: Fields, fj1: nat, fj2: nat) returns (c: int)
    requires fj1 < |l1| && fj2 < |l2|
    ensures c == StrCmp(Key(l1, fj1), Key(l2, fj2))
  {
    c := StrCmp(l1[fj1], l2[fj2]);
  }

  /** Blank lines aside, every line has a join field. */
  predicate Keyed(f: seq<Fields>, fj: nat) {
    forall i :: 0 <= i < |f| && f[i] != [] ==> fj < |f[i]|
  }

  ghost function Asked(f1: seq<Fields>, f2: seq<Fields>, fj1: nat, fj2: nat, a1: bool, a2: bool): (q: Query)
    ensures q.one == UpToBlank(f1) && q.two == UpToBlank(f2)
  {
    Query(UpToBlank(f1), UpToBlank(f2), fj1, fj2, a1, a2)
  }

  /** The comparison of the lines read last, while there are two. */
  method Compare(f1: seq<Fields>, f2: seq<Fields>, fj1: nat, fj2: nat, p1: nat, n1: nat, p2: nat, n2: nat,
                 ghost q: Query, ghost i1: nat, ghost i2: nat) returns (c: int)
    requires Keyed(f1, fj1) && Keyed(f2, fj2) && Reading(f1, p1, n1, i1) && Reading(f2, p2, n2, i2)
    requires q.one == UpToBlank(f1) && q.two == UpToBlank(f2) && q.fj1 == fj1 && q.fj2 == fj2
    ensures n1 > 0 && n2 > 0 ==> c == StrCmp(q.K1(i1), q.K2(i2))
  {
    c := 0;
    if n1 > 0 && n2 > 0 {
      UpToBlankIsPrefix(f1);
      UpToBlankIsPrefix(f2);
      c := Comp(f1[p1 - 1], f2[p2 - 1], fj1, fj2);
    }
  }

  /**
   Join the lines of equal keys that start at the current ones. The group in the
   second file starts at position bot2; it is read again for every line of the
   group in the first file.
   */
  method JoinGroup(f1: seq<Fields>, f2: seq<Fields>, fj1: nat, fj2: nat, out0: seq<Row>,
                   p01: nat, n01: nat, p02: nat, n02: nat, bot2: nat, ghost q: Query, ghost i1: nat)
    returns (out: seq<Row>, p1: nat, n1: nat, p2: nat, n2: nat, top2: nat, ghost a: nat)
    requires Keyed(f1, fj1) && Keyed(f2, fj2) && Reading(f1, p01, n01, i1) && Reading(f2, p02, n02, bot2)
    requires q.one == UpToBlank(f1) && q.two == UpToBlank(f2) && q.fj1 == fj1 && q.fj2 == fj2
    requires n01 > 0 && n02 > 0 && StrCmp(q.K1(i1), q.K2(bot2)) == 0 && (q.Sorted() ==> State(q, out0, i1, bot2))
    ensures i1 < a && bot2 < top2 && Reading(f1, p1, n1, a) && Reading(f2, p2, n2, top2)
    ensures q.Sorted() ==> State(q, out, a, top2)
  {
    hide StrCmp, Leq, UpToBlank, Query.Sorted, State, Group, Ends;
    out, p1, n1, p2, n2, top2 := out0, p01, n01, p02, n02, bot2;
    ghost var sorted := q.Sorted();
    if sorted { GroupStart(q, out, i1, bot2); }
    var c := Compare(f1, f2, fj1, fj2, p1, n1, p2, n2, q, i1, top2);
    while n2 > 0 && c == 0
      invariant bot2 <= top2 && Reading(f2, p2, n2, top2) && (top2 == bot2 ==> n2 > 0 && c == 0)
      invariant n2 > 0 ==> c == StrCmp(q.K1(i1), q.K2(top2))
      invariant sorted ==> Group(q, out, i1, i1, bot2, top2, top2)
      decreases |q.two| - top2
    {
      if sorted {
        LeqTotal(q.K1(i1), q.K2(top2));
        GroupPair(q, out, i1, i1, bot2, top2, top2);
      }
      out := out + [Pair(f1[p1 - 1], f2[p2 - 1])];
      top2 := p2;
      p2, n2 := Input(f2, p2);
      c := Compare(f1, f2, fj1, fj2, p1, n1, p2, n2, q, i1, top2);
    }
    if sorted {
      GroupEnds(q, i1, bot2, top2);
      RowDone(q, out, i1, i1, bot2, top2);
    }
    p2, n2 := Input(f2, bot2);
    p1, n1 := Input(f1, p1);
    a := i1 + 1;
    ghost var j := bot2;
    while true
      invariant i1 < a && bot2 <= j && Reading(f1, p1, n1, a) && Reading(f2, p2, n2, j) && (n1 == 0 ==> n2 > 0)
      invariant sorted ==> Group(q, out, i1, a, bot2, j, top2) && Ends(q, i1, bot2, top2)
      decreases |q.one| - a, |q.two| - j
    {
      if sorted { GroupCases(q, out, i1, a, bot2, j, top2); }
      c := Compare(f1, f2, fj1, fj2, p1, n1, p2, n2, q, a, j);
      if n1 > 0 && n2 > 0 && c == 0 {
        if sorted { GroupPair(q, out, i1, a, bot2, j, top2); }
        out := out + [Pair(f1[p1 - 1], f2[p2 - 1])];
        p2, n2 := Input(f2, p2);
        j := j + 1;
      } else if (n1 > 0 && n2 > 0 && c < 0) || n2 == 0 {
        if sorted { RowDone(q, out, i1, a, bot2, top2); }
        p2, n2 := Input(f2, bot2);
        p1, n1 := Input(f1, p1);
        a, j := a + 1, bot2;
      } else {
        if sorted { GroupDone(q, out, i1, a, bot2, top2); }
        p2, n2 := Input(f2, top2);
        return;
      }
    }
  }

  lemma GroupEnds(q: Query, i1: nat, i2: nat, top: nat)
    requires i1 < |q.one| && i2 < top <= |q.two| && (top < |q.two| ==> StrCmp(q.K1(i1), q.K2(top)) != 0)
    ensures Ends(q, i1, i2, top)
  {
    if top < |q.two| { LeqTotal(q.K1(i1), q.K2(top)); }
  }

  /** Join two files; the lines read are those before the first blank one of each. */
  method JoinFiles(f1: seq<Fields>, f2: seq<Fields>, fj1: nat, fj2: nat, a1: bool, a2: bool) returns (out: seq<Row>)
    requires Keyed(f1, fj1) && Keyed(f2, fj2)
    ensures var q := Asked(f1, f2, fj1, fj2, a1, a2); q.Sorted() ==> Joined(q, out)
  {
    hide StrCmp, Leq, UpToBlank, Query.Sorted, State, Joined;
    ghost var q := Asked(f1, f2, fj1, fj2, a1, a2);
    ghost var sorted := q.Sorted();
    out := [];
    StateStart(q);
    var p1, n1 := Input(f1, 0);
    var bot2 := 0;
    var p2, n2 := Input(f2, 0);
    ghost var i1 := 0;
    while (n1 > 0 && n2 > 0) || ((a1 || a2) && n1 + n2 > 0)
      invariant Reading(f1, p1, n1, i1) && Reading(f2, p2, n2, bot2)
      invariant sorted ==> State(q, out, i1, bot2)
      decreases |q.one| - i1 + |q.two| - bot2
    {
      var c := Compare(f1, f2, fj1, fj2, p1, n1, p2, n2, q, i1, bot2);
      if (n1 > 0 && n2 > 0 && c > 0) || n1 == 0 {
        if n1 > 0 { LeqTotal(q.K1(i1), q.K2(bot2)); }
        if sorted { SkipTwo(q, out, i1, bot2); }
        if a2 { out := out + [Two(f2[p2 - 1])]; }
        bot2 := p2;
        p2, n2 := Input(f2, p2);
      } else if (n1 > 0 && n2 > 0 && c < 0) || n2 == 0 {
        if sorted { SkipOne(q, out, i1, bot2); }
        if a1 { out := out + [One(f1[p1 - 1])]; }
        p1, n1 := Input(f1, p1);
        i1 := i1 + 1;
      } else {
        out, p1, n1, p2, n2, bot2, i1 := JoinGroup(f1, f2, fj1, fj2, out, p1, n1, p2, n2, bot2, q, i1);
      }
    }
    if sorted { StateEnd(q, out, i1, bot2); }
  }
}
