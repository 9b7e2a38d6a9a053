/**
 Merging of sorted runs in sort(1): an N-way merge that keeps its inputs in an
 array ordered by their current lines, and the passes that merge runs N at a
 time until one output is left.
 */
module SortMerge {
  import opened SortQuick

  /** At most this many files are merged at a time. */
  const N := 7

  /** An open run: the line read last and the lines not yet read. */
  datatype Source<T> = Source(cur: T, rest: seq<T>)

  /** A comparison is positive when its first argument is to be written first. */
  ghost predicate Ascending<T>(cmp: (T, T) -> int, f: seq<T>) {
    forall i, j :: 0 <= i < j < |f| ==> cmp(f[i], f[j]) >= 0
  }

  ghost predicate AllAscending<T>(cmp: (T, T) -> int, fs: seq<seq<T>>) {
    forall k :: 0 <= k < |fs| ==> Ascending(cmp, fs[k])
  }

  /** The lines of all files together. */
  ghost function Lines<T>(fs: seq<seq<T>>): multiset<T> {
    if fs == [] then multiset{} else Lines(fs[..|fs| - 1]) + multiset(fs[|fs| - 1])
  }

  lemma {:induction false} LinesConcat<T>(fs: seq<seq<T>>, gs: seq<seq<T>>)
    ensures Lines(fs + gs) == Lines(fs) + Lines(gs)
    decreases |gs|
  {
    if gs == [] {
      assert fs + gs == fs;
    } else {
      var n := |gs| - 1;
      assert (fs + gs)[..|fs + gs| - 1] == fs + gs[..n];
      LinesConcat(fs, gs[..n]);
    }
  }

  // ----- the lines still to be merged -----

  ghost function Unread<T>(s: seq<Line<Source<T>>>): multiset<T> {
    if s == [] then multiset{} else Unread(s[..|s| - 1]) + OfSource(s[|s| - 1].text)
  }

  ghost function OfSource<T>(x: Source<T>): multiset<T> {
    multiset{x.cur} + multiset(x.rest)
  }

  lemma {:induction false} UnreadConcat<T>(s: seq<Line<Source<T>>>, t: seq<Line<Source<T>>>)
    ensures Unread(s + t) == Unread(s) + Unread(t)
    decreases |t|
  {
    if t == [] {
      assert s + t == s;
    } else {
      var n := |t| - 1;
      assert (s + t)[..|s + t| - 1] == s + t[..n];
      UnreadConcat(s, t[..n]);
    }
  }

  lemma UnreadOne<T>(x: Line<Source<T>>)
    ensures Unread([x]) == OfSource(x.text)
  {
    assert [x][..0] == [];
  }

  lemma UnreadWithout<T>(t: seq<Line<Source<T>>>, k: nat)
    requires k < |t|
    ensures Unread(t) == Unread(t[..k] + t[k + 1..]) + OfSource(t[k].text)
  {
    hide Unread, OfSource;
    assert t == t[..k] + [t[k]] + t[k + 1..];
    UnreadConcat(t[..k] + [t[k]], t[k + 1..]);
    UnreadConcat(t[..k], [t[k]]);
    UnreadConcat(t[..k], t[k + 1..]);
    UnreadOne(t[k]);
  }

  /** The order of the sources does not matter. */
  lemma {:induction false} UnreadPermuted<T>(s: seq<Line<Source<T>>>, t: seq<Line<Source<T>>>)
    requires multiset(s) == multiset(t)
    ensures Unread(s) == Unread(t)
  {
    assert |s| == |multiset(s)| == |multiset(t)| == |t|;
    if s != [] {
      var n := |s| - 1;
      var x := s[n];
      assert s == s[..n] + [x];
      assert x in multiset(t);
      var k :| 0 <= k < |t| && t[k] == x;
      var u := t[..k] + t[k + 1..];
      assert t == t[..k] + [x] + t[k + 1..];
      assert multiset(s[..n]) == multiset(s) - multiset{x};
      assert multiset(u) == multiset(t) - multiset{x};
      UnreadPermuted(s[..n], u);
      UnreadWithout(t, k);
    }
  }

  // ----- order -----

  function ByLine<T>(cmp: (T, T) -> int): (Source<T>, Source<T>) -> int {
    (x: Source<T>, y: Source<T>) => cmp(x.cur, y.cur)
  }

  lemma ByLinePreorder<T(!new)>(cmp: (T, T) -> int)
    requires IsPreorder(cmp)
    ensures IsPreorder(ByLine(cmp))
  {
    var heads := ByLine(cmp);
    forall x, y
      ensures heads(x, y) < 0 <==> heads(y, x) > 0
    {
      Symmetric(cmp, x.cur, y.cur);
    }
    forall x, y, z | heads(x, y) <= 0 && heads(y, z) <= 0
      ensures heads(x, z) <= 0
    {
      Chained(cmp, x.cur, y.cur, z.cur);
    }
  }

  /** Every source is ascending. */
  ghost predicate Runs<T>(cmp: (T, T) -> int, s: seq<Line<Source<T>>>) {
    forall k :: 0 <= k < |s| ==> Ascending(cmp, [s[k].text.cur] + s[k].text.rest)
  }

  /** The sources are ordered by their current lines, the one to be written next at the end. */
  ghost predicate Queued<T>(cmp: (T, T) -> int, s: seq<Line<Source<T>>>) {
    forall i, j :: 0 <= i < j < |s| ==> cmp(s[i].text.cur, s[j].text.cur) <= 0
  }

  /** The last source holds a line that precedes all unread ones. */
  lemma {:induction false} LastIsFirst<T(!new)>(cmp: (T, T) -> int, s: seq<Line<Source<T>>>, x: T, y: T)
    requires IsPreorder(cmp) && Runs(cmp, s) && y in Unread(s)
    requires forall k :: 0 <= k < |s| ==> cmp(x, s[k].text.cur) >= 0
    ensures cmp(x, y) >= 0
  {
    var n := |s| - 1;
    var z := s[n].text;
    if y in Unread(s[..n]) {
      LastIsFirst(cmp, s[..n], x, y);
    } else if y != z.cur {
      assert y in z.rest;
      var k :| 0 <= k < |z.rest| && z.rest[k] == y;
      var f := [z.cur] + z.rest;
      assert f[0] == z.cur && f[k + 1] == y;
      Symmetric(cmp, x, z.cur);
      Symmetric(cmp, z.cur, y);
      Symmetric(cmp, x, y);
    }
  }

  /** All sources but the one at k are in order, and that one belongs at or before k. */
  ghost predicate Sifting<T>(cmp: (T, T) -> int, s: seq<Line<Source<T>>>, n: nat, k: nat) {
    && k < n <= |s|
    && (forall i, j :: 0 <= i < j < n && i != k && j != k ==> cmp(s[i].text.cur, s[j].text.cur) <= 0)
    && (forall j :: k < j < n ==> cmp(s[k].text.cur, s[j].text.cur) <= 0)
  }

  lemma SiftStart<T>(cmp: (T, T) -> int, s: seq<Line<Source<T>>>, n: nat)
    requires 0 < n <= |s| && Queued(cmp, s[..n - 1])
    ensures Sifting(cmp, s, n, n - 1)
  {
    assert forall i :: 0 <= i < n - 1 ==> s[..n - 1][i] == s[i];
  }

  lemma SiftStep<T>(cmp: (T, T) -> int, s: seq<Line<Source<T>>>, n: nat, k: nat)
    requires Sifting(cmp, s, n, k) && k > 0 && cmp(s[k].text.cur, s[k - 1].text.cur) < 0
    ensures Sifting(cmp, Swapped(s, k, k - 1), n, k - 1)
  {
    var t := Swapped(s, k, k - 1);
    assert t[k] == s[k - 1] && t[k - 1] == s[k];
    assert forall i :: 0 <= i < |s| && i != k && i != k - 1 ==> t[i] == s[i];
  }

  lemma SiftDone<T(!new)>(cmp: (T, T) -> int, s: seq<Line<Source<T>>>, n: nat, k: nat)
    requires IsPreorder(cmp) && Sifting(cmp, s, n, k) && (k > 0 ==> cmp(s[k].text.cur, s[k - 1].text.cur) >= 0)
    ensures Queued(cmp, s[..n])
  {
    hide IsPreorder;
    forall i | 0 <= i < k
      ensures cmp(s[i].text.cur, s[k].text.cur) <= 0
    {
      Symmetric(cmp, s[k - 1].text.cur, s[k].text.cur);
      if i < k - 1 {
        Chained(cmp, s[i].text.cur, s[k - 1].text.cur, s[k].text.cur);
      }
    }
    assert forall i :: 0 <= i < n ==> s[..n][i] == s[i];
  }

  /** Move the last source to its place among the others, which are in order. */
  method Sift<T(!new)>(cmp: (T, T) -> int, a: array<Line<Source<T>>>, n: nat)
    requires IsPreorder(cmp) && 0 < n <= a.Length && Queued(cmp, a[..n - 1])
    modifies a
    ensures Permuted(old(a[..]), a[..], 0, n) && Queued(cmp, a[..n])
  {
    hide IsPreorder, Permuted, Swapped, Queued, Sifting;
    var k := n - 1;
    PermutedHere(a[..], 0, n);
    assert a[..][..n - 1] == a[..n - 1];
    SiftStart(cmp, a[..], n);
    while k > 0 && cmp(a[k].text.cur, a[k - 1].text.cur) < 0
      invariant 0 <= k < n && Permuted(old(a[..]), a[..], 0, n) && Sifting(cmp, a[..], n, k)
    {
      ghost var s := a[..];
      SiftStep(cmp, s, n, k);
      Swap(a, k, k - 1, 0, n);
      PermutedTransitive(old(a[..]), s, a[..], 0, n);
      k := k - 1;
    }
    SiftDone(cmp, a[..], n, k);
    assert a[..][..n] == a[..n];
  }

  lemma LinesMore<T>(fs: seq<seq<T>>, i: nat)
    requires i < |fs|
    ensures Lines(fs[..i + 1]) == Lines(fs[..i]) + multiset(fs[i])
  {
    assert fs[..i + 1][..i] == fs[..i];
  }

  lemma UnreadMore<T>(s: seq<Line<Source<T>>>, x: Line<Source<T>>)
    ensures Unread(s + [x]) == Unread(s) + multiset([x.text.cur] + x.text.rest)
  {
    assert (s + [x])[..|s|] == s;
  }

  /** Open the files that are not empty. */
  method OpenAll<T>(files: seq<seq<T>>) returns (sources: seq<Line<Source<T>>>)
    ensures Unread(sources) == Lines(files)
    ensures forall k :: 0 <= k < |sources| ==> ([sources[k].text.cur] + sources[k].text.rest) in files
  {
    hide Unread, Lines;
    sources := [];
    NoLines<T>();
    assert files[..0] == [];
    for i := 0 to |files|
      invariant Unread(sources) == Lines(files[..i])
      invariant forall k :: 0 <= k < |sources| ==> ([sources[k].text.cur] + sources[k].text.rest) in files
    {
      LinesMore(files, i);
      var f := files[i];
      if f != [] {
        assert f == [f[0]] + f[1..];
        var x := Line(Source(f[0], f[1..]), true);
        UnreadMore(sources, x);
        sources := sources + [x];
      }
    }
    assert files[..|files|] == files;
  }

  lemma NoLines<T>()
    ensures Lines<T>([]) == multiset{} && Unread<T>([]) == multiset{}
  {
  }

  /** All lines written so far are in order and precede the unread ones. */
  ghost predicate Merged<T>(cmp: (T, T) -> int, out: seq<T>, s: seq<Line<Source<T>>>) {
    && Ascending(cmp, out)
    && forall i, y :: 0 <= i < |out| && y in Unread(s) ==> cmp(out[i], y) >= 0
  }

  /** What is left of the last source after its line was written. */
  function Advanced<T>(s: seq<Line<Source<T>>>): seq<Line<Source<T>>>
    requires s != []
  {
    var n := |s| - 1;
    var x := s[n].text;
    if x.rest == [] then s[..n] else s[..n] + [Line(Source(x.rest[0], x.rest[1..]), true)]
  }

  lemma WriteNext<T(!new)>(cmp: (T, T) -> int, out: seq<T>, s: seq<Line<Source<T>>>)
    requires IsPreorder(cmp) && s != [] && Runs(cmp, s) && Queued(cmp, s) && Merged(cmp, out, s)
    ensures var w := s[|s| - 1].text.cur;
            && Runs(cmp, Advanced(s)) && Merged(cmp, out + [w], Advanced(s))
            && Unread(s) == multiset{w} + Unread(Advanced(s))
  {
    hide IsPreorder, Unread, Runs, Advanced;
    var w := s[|s| - 1].text.cur;
    UnreadAdvanced(s);
    RunsAdvanced(cmp, s);
    assert w in Unread(s);
    assert forall y :: y in Unread(Advanced(s)) ==> y in Unread(s);
    forall k | 0 <= k < |s|
      ensures cmp(w, s[k].text.cur) >= 0
    {
      Reflexive(cmp, w);
      Symmetric(cmp, s[k].text.cur, w);
    }
    forall i, y | 0 <= i < |out + [w]| && y in Unread(Advanced(s))
      ensures cmp((out + [w])[i], y) >= 0
    {
      if i == |out| { LastIsFirst(cmp, s, w, y); }
    }
  }

  lemma UnreadAdvanced<T>(s: seq<Line<Source<T>>>)
    requires s != []
    ensures Unread(s) == multiset{s[|s| - 1].text.cur} + Unread(Advanced(s))
  {
    hide Unread, Advanced;
    var n := |s| - 1;
    assert s == s[..n] + [s[n]];
    UnreadMore(s[..n], s[n]);
    Regroup(Unread(s[..n]), s[n].text.cur, s[n].text.rest);
    AdvancedRest(s);
  }

  lemma AdvancedRest<T>(s: seq<Line<Source<T>>>)
    requires s != []
    ensures Unread(Advanced(s)) == Unread(s[..|s| - 1]) + multiset(s[|s| - 1].text.rest)
  {
    hide Unread;
    var n := |s| - 1;
    var rest := s[n].text.rest;
    if rest != [] {
      assert rest == [rest[0]] + rest[1..];
      UnreadMore(s[..n], Line(Source(rest[0], rest[1..]), true));
    }
  }

  lemma Regroup<T>(a: multiset<T>, w: T, rest: seq<T>)
    ensures a + multiset([w] + rest) == multiset{w} + (a + multiset(rest))
  {
    assert multiset([w] + rest) == multiset{w} + multiset(rest);
  }

  lemma RunsAdvanced<T>(cmp: (T, T) -> int, s: seq<Line<Source<T>>>)
    requires s != [] && Runs(cmp, s)
    ensures Runs(cmp, Advanced(s))
  {
    var n := |s| - 1;
    var x := s[n].text;
    if x.rest != [] {
      var f, g := [x.cur] + x.rest, [x.rest[0]] + x.rest[1..];
      assert Ascending(cmp, f);
      assert forall i :: 0 <= i < |g| ==> g[i] == f[i + 1];
      assert Ascending(cmp, g);
    }
  }

  /** The state of a merge of `lines` between two lines written. */
  ghost predicate Merging<T>(cmp: (T, T) -> int, lines: multiset<T>, out: seq<T>, s: seq<Line<Source<T>>>) {
    Runs(cmp, s) && Merged(cmp, out, s) && multiset(out) + Unread(s) == lines
  }

  lemma MergeStep<T(!new)>(cmp: (T, T) -> int, lines: multiset<T>, out: seq<T>, s: seq<Line<Source<T>>>)
    requires IsPreorder(cmp) && s != [] && Merging(cmp, lines, out, s) && Queued(cmp, s)
    ensures Merging(cmp, lines, out + [s[|s| - 1].text.cur], Advanced(s))
    ensures |Unread(Advanced(s))| < |Unread(s)|
  {
    hide IsPreorder, Runs, Queued, Merged, Unread, Advanced;
    WriteNext(cmp, out, s);
    var w := s[|s| - 1].text.cur;
    assert multiset(out + [w]) == multiset(out) + multiset{w};
  }

  /** Sifting keeps runs and unread lines. */
  lemma SiftKeeps<T>(cmp: (T, T) -> int, lines: multiset<T>, out: seq<T>, s: seq<Line<Source<T>>>,
                     t: seq<Line<Source<T>>>)
    requires multiset(s) == multiset(t) && Merging(cmp, lines, out, s)
    ensures Merging(cmp, lines, out, t) && Unread(t) == Unread(s)
  {
    UnreadPermuted(s, t);
    forall k | 0 <= k < |t|
      ensures Ascending(cmp, [t[k].text.cur] + t[k].text.rest)
    {
      assert t[k] in multiset(t);
      assert t[k] in s;
    }
  }

  /** Read the next line of the last source; drop the source at its end. */
  method Next<T>(cmp: (T, T) -> int, ibuf: array<Line<Source<T>>>, n: nat) returns (i: nat)
    requires 0 < n <= ibuf.Length && Queued(cmp, ibuf[..n])
    modifies ibuf
    ensures i <= n && ibuf[..i] == Advanced(old(ibuf[..n])) && (i > 0 ==> Queued(cmp, ibuf[..i - 1]))
  {
    var rest := ibuf[n - 1].text.rest;
    QueuedPrefix(cmp, ibuf[..n], n - 1);
    assert ibuf[..n][..n - 1] == ibuf[..n - 1];
    if rest == [] {
      i := n - 1;
      if i > 0 {
        QueuedPrefix(cmp, ibuf[..n], i - 1);
        assert ibuf[..n][..i - 1] == ibuf[..i - 1];
      }
    } else {
      ibuf[n - 1] := Line(Source(rest[0], rest[1..]), true);
      i := n;
      assert ibuf[..n - 1] == old(ibuf[..n - 1]);
    }
  }

  lemma PrefixPermuted<E>(s: seq<E>, t: seq<E>, n: nat)
    requires Permuted(s, t, 0, n)
    ensures multiset(s[..n]) == multiset(t[..n])
  {
    assert s[0..n] == s[..n] && t[0..n] == t[..n];
    MiddleMultiset(s, 0, n);
    MiddleMultiset(t, 0, n);
  }

  /** Merge ascending files: all their lines, in order. */
  method Merge<T(!new)>(cmp: (T, T) -> int, files: seq<seq<T>>) returns (out: seq<T>)
    requires IsPreorder(cmp) && AllAscending(cmp, files)
    ensures Ascending(cmp, out) && multiset(out) == Lines(files)
  {
    hide IsPreorder, Permuted, Queued, Merging, Unread, Advanced, Lines, SortedFrom, AllAscending, ByLine;
    out := [];
    var sources := OpenAll(files);
    var ibuf := new Line<Source<T>>[|sources|](i requires 0 <= i < |sources| => sources[i]);
    var i := |sources|;
    assert ibuf[..] == sources;
    MergeStart(cmp, files, sources);
    ByLinePreorder(cmp);
    QuSort(ByLine(cmp), ibuf, 0, i, false, Depth(i));
    SortedQueued(cmp, Lines(files), sources, ibuf[..]);
    assert ibuf[..i] == ibuf[..];
    while i > 0
      invariant 0 <= i <= ibuf.Length && Merging(cmp, Lines(files), out, ibuf[..i]) && Queued(cmp, ibuf[..i])
      decreases |Unread(ibuf[..i])|
    {
      i, out := WriteLine(cmp, ibuf, i, out, files);
    }
    NothingUnread(cmp, Lines(files), out, ibuf[..i]);
  }

  /** Write the line of the last source, advance the source and put it in its place. */
  method WriteLine<T(!new)>(cmp: (T, T) -> int, ibuf: array<Line<Source<T>>>, i0: nat, out0: seq<T>,
                            ghost files: seq<seq<T>>)
    returns (i: nat, out: seq<T>)
    requires IsPreorder(cmp) && 0 < i0 <= ibuf.Length
    requires Merging(cmp, Lines(files), out0, ibuf[..i0]) && Queued(cmp, ibuf[..i0])
    modifies ibuf
    ensures i <= i0 && Merging(cmp, Lines(files), out, ibuf[..i]) && Queued(cmp, ibuf[..i])
    ensures |Unread(ibuf[..i])| < |old(Unread(ibuf[..i0]))|
  {
    hide IsPreorder, Permuted, Queued, Merging, Unread, Advanced, Lines;
    ghost var s := ibuf[..i0];
    MergeStep(cmp, Lines(files), out0, s);
    out := out0 + [ibuf[i0 - 1].text.cur];
    i := Next(cmp, ibuf, i0);
    if i == 0 {
      QueuedNone(cmp, ibuf[..i]);
      return;
    }
    ghost var before := ibuf[..];
    assert before[..i] == ibuf[..i] == Advanced(s);
    Sift(cmp, ibuf, i);
    PrefixPermuted(before, ibuf[..], i);
    SiftKeeps(cmp, Lines(files), out, before[..i], ibuf[..i]);
  }

  lemma QueuedNone<T>(cmp: (T, T) -> int, s: seq<Line<Source<T>>>)
    requires |s| == 0
    ensures Queued(cmp, s)
  {
  }

  lemma MergeStart<T>(cmp: (T, T) -> int, files: seq<seq<T>>, sources: seq<Line<Source<T>>>)
    requires AllAscending(cmp, files) && Unread(sources) == Lines(files)
    requires forall k :: 0 <= k < |sources| ==> ([sources[k].text.cur] + sources[k].text.rest) in files
    ensures Merging(cmp, Lines(files), [], sources)
  {
    forall k | 0 <= k < |sources|
      ensures Ascending(cmp, [sources[k].text.cur] + sources[k].text.rest)
    {
    }
  }

  lemma SortedQueued<T>(cmp: (T, T) -> int, lines: multiset<T>, was: seq<Line<Source<T>>>, s: seq<Line<Source<T>>>)
    requires SortedFrom(ByLine(cmp), was, s, 0, |s|, false) && Merging(cmp, lines, [], was)
    ensures Merging(cmp, lines, [], s) && Queued(cmp, s)
  {
    SiftKeeps(cmp, lines, [], was, s);
    var x := Texts(s);
    forall i, j | 0 <= i < j < |s|
      ensures cmp(s[i].text.cur, s[j].text.cur) <= 0
    {
      assert ByLine(cmp)(x[i], x[j]) <= 0;
    }
  }

  lemma QueuedPrefix<T>(cmp: (T, T) -> int, s: seq<Line<Source<T>>>, n: nat)
    requires n <= |s| && Queued(cmp, s)
    ensures Queued(cmp, s[..n])
  {
  }

  lemma NothingUnread<T>(cmp: (T, T) -> int, lines: multiset<T>, out: seq<T>, s: seq<Line<Source<T>>>)
    requires Merging(cmp, lines, out, s) && s == []
    ensures Ascending(cmp, out) && multiset(out) == lines
  {
  }

  ghost function Depth(n: nat): (d: nat)
    ensures n < Pow2(d)
  {
    if n == 0 then 0 else
      var d := Depth(n / 2) + 1;
      assert Pow2(d) == 2 * Pow2(d - 1);
      d
  }

  // ----- the passes of main -----

  /**
   Merge the files from `start` on, N at a time while more than N are left (or,
   when the output is also an input, while any input is left); every such merge
   makes a new file at the end. What is left goes to the output.
   */
  method Passes<T(!new)>(cmp: (T, T) -> int, files: seq<seq<T>>, eargc: nat, start: nat, unsafeout: bool)
    returns (out: seq<T>)
    requires IsPreorder(cmp) && eargc <= |files| && start <= |files| && AllAscending(cmp, files[start..])
    ensures Ascending(cmp, out) && multiset(out) == Lines(files[start..])
  {
    hide IsPreorder, Lines, Ascending, AllAscending;
    var fs := files;
    var a := start;
    while a + N < |fs| || (unsafeout && a < eargc)
      invariant a <= |fs| && eargc <= |fs|
      invariant AllAscending(cmp, fs[a..]) && Lines(fs[a..]) == Lines(files[start..])
      decreases if a < eargc then eargc - a else 0, |fs| - a
    {
      var i := if a + N >= |fs| then |fs| else a + N;
      PassInput(cmp, fs, a, i);
      var m := Merge(cmp, fs[a..i]);
      PassOutput(cmp, fs, a, i, m);
      fs, a := fs + [m], i;
    }
    out := [];
    if a != |fs| {
      assert fs[a..|fs|] == fs[a..];
      out := Merge(cmp, fs[a..|fs|]);
    } else {
      NothingLeft(cmp, fs);
    }
  }

  lemma NothingLeft<T>(cmp: (T, T) -> int, fs: seq<seq<T>>)
    ensures Lines(fs[|fs|..]) == multiset{} && Ascending(cmp, [])
  {
  }

  lemma PassInput<T>(cmp: (T, T) -> int, fs: seq<seq<T>>, a: nat, i: nat)
    requires a <= i <= |fs| && AllAscending(cmp, fs[a..])
    ensures AllAscending(cmp, fs[a..i])
  {
    forall k | 0 <= k < |fs[a..i]|
      ensures Ascending(cmp, fs[a..i][k])
    {
      assert fs[a..i][k] == fs[a..][k];
    }
  }

  lemma PassOutput<T>(cmp: (T, T) -> int, fs: seq<seq<T>>, a: nat, i: nat, m: seq<T>)
    requires a <= i <= |fs| && AllAscending(cmp, fs[a..])
    requires Ascending(cmp, m) && multiset(m) == Lines(fs[a..i])
    ensures var gs := fs + [m]; AllAscending(cmp, gs[i..]) && Lines(gs[i..]) == Lines(fs[a..])
  {
    var gs := fs + [m];
    hide Ascending;
    assert gs[i..] == fs[i..] + [m];
    assert fs[a..] == fs[a..i] + fs[i..];
    LinesConcat(fs[a..i], fs[i..]);
    LinesConcat(fs[i..], [m]);
    assert [m][..0] == [];
    assert Lines([m]) == multiset(m);
    forall k | 0 <= k < |gs[i..]|
      ensures Ascending(cmp, gs[i..][k])
    {
      if k < |fs| - i {
        assert gs[i..][k] == fs[a..][i - a + k];
      }
    }
  }

  // ----- the whole sort -----

  /** Lines that are not yet read: the rest of the current file and the files after it. */
  ghost function Pending<T>(rest: seq<T>, files: seq<seq<T>>, i: nat): multiset<T>
    requires i <= |files|
  {
    multiset(rest) + Lines(files[i..])
  }

  lemma NextFile<T>(files: seq<seq<T>>, i: nat)
    requires i < |files|
    ensures Pending([], files, i) == Pending(files[i], files, i + 1)
  {
    assert files[i..] == [files[i]] + files[i + 1..];
    LinesConcat([files[i]], files[i + 1..]);
    assert [files[i]][..0] == [];
    assert Lines([files[i]]) == multiset(files[i]);
  }

  lemma NextLine<T>(run: seq<T>, rest: seq<T>, files: seq<seq<T>>, i: nat)
    requires i <= |files| && rest != []
    ensures multiset(run) + Pending(rest, files, i) == multiset(run + [rest[0]]) + Pending(rest[1..], files, i)
  {
    assert rest == [rest[0]] + rest[1..];
    assert multiset(rest) == multiset{rest[0]} + multiset(rest[1..]);
  }

  /** Fill the line buffer, going on from file to file. */
  method ReadRun<T>(size: T -> nat, files: seq<seq<T>>, i0: nat, rest0: seq<T>, nlines: int, ntext: int)
    returns (run: seq<T>, i: nat, rest: seq<T>, done: bool)
    requires i0 <= |files| && nlines > 0 && ntext > 0
    ensures i <= |files| && Pending(rest0, files, i0) == multiset(run) + Pending(rest, files, i)
    ensures done ==> Pending(rest, files, i) == multiset{}
    ensures !done ==> run != []
  {
    hide Pending;
    run, i, rest, done := [], i0, rest0, false;
    var lines, text := nlines, ntext;
    assert multiset(run) == multiset{};
    while lines > 0 && text > 0
      invariant i <= |files| && Pending(rest0, files, i0) == multiset(run) + Pending(rest, files, i)
      invariant run == [] ==> lines == nlines && text == ntext
      decreases |files| - i, |rest|
    {
      if rest == [] {
        if i >= |files| {
          done := true;
          NothingPending(files);
          break;
        }
        NextFile(files, i);
        rest, i := files[i], i + 1;
        continue;
      }
      NextLine(run, rest, files, i);
      text := text - size(rest[0]);
      lines := lines - 1;
      run, rest := run + [rest[0]], rest[1..];
    }
  }

  lemma NothingPending<T>(files: seq<seq<T>>)
    ensures Pending([], files, |files|) == multiset{}
  {
  }

  /** Sort one buffer of lines and write it from its end. */
  method SortRun<T(!new)>(cmp: (T, T) -> int, run: seq<T>) returns (out: seq<T>)
    requires IsPreorder(cmp)
    ensures Ascending(cmp, out) && multiset(out) == multiset(run)
  {
    hide IsPreorder, SortedFrom;
    var space := new Line<T>[|run|](i requires 0 <= i < |run| => Line(run[i], true));
    ghost var was := space[..];
    assert Texts(was) == run;
    QuSort(cmp, space, 0, |run|, false, Depth(|run|));
    SortedTexts(cmp, was, space[..]);
    ghost var x := Texts(space[..]);
    out := [];
    var lp := |run|;
    while lp > 0
      invariant 0 <= lp <= |run| && |out| == |run| - lp
      invariant forall k :: 0 <= k < |out| ==> out[k] == x[|run| - 1 - k]
    {
      lp := lp - 1;
      out := out + [space[lp].text];
    }
    WrittenBackwards(cmp, x, out);
  }

  lemma SortedTexts<T>(cmp: (T, T) -> int, was: seq<Line<T>>, s: seq<Line<T>>)
    requires SortedFrom(cmp, was, s, 0, |s|, false)
    ensures Sorted(cmp, Texts(s), 0, |s|) && multiset(Texts(s)) == multiset(Texts(was))
  {
  }

  lemma {:induction false} ReversedMultiset<T>(x: seq<T>, y: seq<T>)
    requires |x| == |y| && forall k :: 0 <= k < |x| ==> y[k] == x[|x| - 1 - k]
    ensures multiset(x) == multiset(y)
  {
    if x != [] {
      var n := |x| - 1;
      ReversedMultiset(x[..n], y[1..]);
      assert x == x[..n] + [x[n]];
      assert y == [y[0]] + y[1..];
    }
  }

  lemma WrittenBackwards<T(!new)>(cmp: (T, T) -> int, x: seq<T>, y: seq<T>)
    requires IsPreorder(cmp) && Sorted(cmp, x, 0, |x|)
    requires |x| == |y| && forall k :: 0 <= k < |x| ==> y[k] == x[|x| - 1 - k]
    ensures Ascending(cmp, y) && multiset(y) == multiset(x)
  {
    hide IsPreorder;
    ReversedMultiset(x, y);
    forall i, j | 0 <= i < j < |y|
      ensures cmp(y[i], y[j]) >= 0
    {
      Symmetric(cmp, y[i], y[j]);
    }
  }

  /**
   Sort the lines of all files: buffers of at most `nlines` lines and about
   `ntext` characters are sorted one by one into runs, which are then merged.
   A single buffer goes straight to the output.
   */
  method SortFiles<T(!new)>(cmp: (T, T) -> int, size: T -> nat, files: seq<seq<T>>, nlines: int, ntext: int,
                            unsafeout: bool)
    returns (out: seq<T>)
    requires IsPreorder(cmp) && files != [] && nlines > 0 && ntext > 0
    ensures Ascending(cmp, out) && multiset(out) == Lines(files)
  {
    hide IsPreorder, Lines, Ascending, AllAscending, Pending;
    var eargc := |files|;
    var fs := files;
    PendingAll(files);
    var i: nat, rest, done := 1, files[0], false;
    NoRuns(cmp, files);
    while !done
      invariant i <= eargc <= |fs| && AllAscending(cmp, fs[eargc..])
      invariant Lines(files) == Lines(fs[eargc..]) + Pending(rest, files, i)
      invariant done ==> Pending(rest, files, i) == multiset{}
      decreases !done, |Pending(rest, files, i)|
    {
      var run, i', rest', done' := ReadRun(size, files, i, rest, nlines, ntext);
      var o := SortRun(cmp, run);
      if done' && |fs| == eargc {
        AloneRun(fs, o, run);
        return o;
      }
      RunWritten(cmp, fs, eargc, o);
      fs, i, rest, done := fs + [o], i', rest', done';
    }
    out := Passes(cmp, fs, eargc, eargc, unsafeout);
  }

  lemma PendingAll<T>(files: seq<seq<T>>)
    requires files != []
    ensures Lines(files) == Pending(files[0], files, 1)
  {
    NextFile(files, 0);
    assert files[0..] == files;
  }

  lemma NoRuns<T>(cmp: (T, T) -> int, files: seq<seq<T>>)
    ensures AllAscending(cmp, files[|files|..]) && Lines(files[|files|..]) == multiset{}
  {
  }

  lemma AloneRun<T>(fs: seq<seq<T>>, o: seq<T>, run: seq<T>)
    requires multiset(o) == multiset(run)
    ensures Lines(fs[|fs|..]) + multiset(run) == multiset(o)
  {
  }

  lemma RunWritten<T>(cmp: (T, T) -> int, fs: seq<seq<T>>, eargc: nat, o: seq<T>)
    requires eargc <= |fs| && AllAscending(cmp, fs[eargc..]) && Ascending(cmp, o)
    ensures var gs := fs + [o]; AllAscending(cmp, gs[eargc..]) && Lines(gs[eargc..]) == Lines(fs[eargc..]) + multiset(o)
  {
    var gs := fs + [o];
    assert gs[eargc..] == fs[eargc..] + [o];
    LinesConcat(fs[eargc..], [o]);
    assert [o][..0] == [];
    assert Lines([o]) == multiset(o);
  }
}
