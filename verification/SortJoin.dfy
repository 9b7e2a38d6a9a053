/**
 sort(1) and join(1) put together: files sorted on their join fields are what
 join asks for.
 */
module SortJoin {
  import opened SortQuick
  import opened SortMerge
  import opened Join

  /** The order of join fields, in the sense of sort: not negative if the first line may stand first. */
  function ByKey(fj: nat): (Fields, Fields) -> int {
    (x: Fields, y: Fields) => StrCmp(Key(y, fj), Key(x, fj))
  }

  lemma ByKeyIsPreorder(fj: nat)
    ensures IsPreorder(ByKey(fj))
  {
    hide StrCmp, Key;
    StrCmpPreorder();
  }

  /** The lines that join reads of a sorted file are in the order of their keys. */
  lemma SortedPart(fj: nat, f: seq<Fields>, i: nat, j: nat)
    requires Ascending(ByKey(fj), f) && i < j < |UpToBlank(f)|
    ensures Leq(Key(UpToBlank(f)[i], fj), Key(UpToBlank(f)[j], fj))
  {
    hide StrCmp, Key, UpToBlank, Leq;
    UpToBlankIsPrefix(f);
    var cmp := ByKey(fj);
    assert cmp(f[i], f[j]) >= 0;
    LeqTotal(Key(f[i], fj), Key(f[j], fj));
    StrCmpSign(Key(f[i], fj), Key(f[j], fj));
  }

  lemma SortedQuery(f1: seq<Fields>, f2: seq<Fields>, fj1: nat, fj2: nat, a1: bool, a2: bool)
    requires Ascending(ByKey(fj1), f1) && Ascending(ByKey(fj2), f2)
    ensures Asked(f1, f2, fj1, fj2, a1, a2).Sorted()
  {
    hide StrCmp, Key, UpToBlank, Ascending, Leq;
    var q := Asked(f1, f2, fj1, fj2, a1, a2);
    forall i, j | 0 <= i < j < |q.one|
      ensures Leq(q.K1(i), q.K1(j))
    {
      SortedPart(fj1, f1, i, j);
    }
    forall i, j | 0 <= i < j < |q.two|
      ensures Leq(q.K2(i), q.K2(j))
    {
      SortedPart(fj2, f2, i, j);
    }
  }

  /** Sorting keeps the lines, so each still has its join field, and no line is lost to a blank one. */
  lemma SortedLines(files: seq<seq<Fields>>, f: seq<Fields>, fj: nat)
    requires multiset(f) == Lines(files) && forall l :: l in Lines(files) && l != [] ==> fj < |l|
    ensures Keyed(f, fj) && ([] !in Lines(files) ==> UpToBlank(f) == f)
  {
    hide Lines, UpToBlank;
    forall i | 0 <= i < |f| && f[i] != []
      ensures fj < |f[i]|
    {
      assert f[i] in multiset(f);
    }
    UpToBlankIsPrefix(f);
    var n := |UpToBlank(f)|;
    if n < |f| {
      assert f[n] in multiset(f);
    }
  }

  /** Sort both inputs on their join fields, then join them: the relational join of all their lines. */
  method SortAndJoin(files1: seq<seq<Fields>>, files2: seq<seq<Fields>>, fj1: nat, fj2: nat, a1: bool, a2: bool,
                     size: Fields -> nat, nlines: int, ntext: int, unsafeout: bool)
    returns (f1: seq<Fields>, f2: seq<Fields>, out: seq<Row>)
    requires files1 != [] && files2 != [] && nlines > 0 && ntext > 0
    requires forall l :: l in Lines(files1) && l != [] ==> fj1 < |l|
    requires forall l :: l in Lines(files2) && l != [] ==> fj2 < |l|
    ensures multiset(f1) == Lines(files1) && multiset(f2) == Lines(files2)
    ensures Joined(Asked(f1, f2, fj1, fj2, a1, a2), out)
    ensures [] !in Lines(files1) ==> Asked(f1, f2, fj1, fj2, a1, a2).one == f1
    ensures [] !in Lines(files2) ==> Asked(f1, f2, fj1, fj2, a1, a2).two == f2
  {
    hide IsPreorder, Lines, Ascending, ByKey, Joined, UpToBlank, Query.Sorted;
    ByKeyIsPreorder(fj1);
    ByKeyIsPreorder(fj2);
    f1 := SortFiles(ByKey(fj1), size, files1, nlines, ntext, unsafeout);
    f2 := SortFiles(ByKey(fj2), size, files2, nlines, ntext, unsafeout);
    SortedLines(files1, f1, fj1);
    SortedLines(files2, f2, fj2);
    SortedQuery(f1, f2, fj1, fj2, a1, a2);
    out := JoinFiles(f1, f2, fj1, fj2, a1, a2);
  }
}
