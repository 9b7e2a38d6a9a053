/**
 sort(1) put together: sort -n over any number of files, and sort -u on lines
 that fit in one buffer.
 */
module SortProgram {
  import opened SortQuick
  import opened SortMerge
  import SortNumeric

  type LineText = SortNumeric.LineText

  /** Line x may stand before line y: by value, then by characters, both turned round if rflg is -1. */
  ghost predicate MayPrecede(x: LineText, y: LineText, rflg: int, tab: int) {
    var a, b := SortNumeric.Value(x, tab), SortNumeric.Value(y, tab);
    && (if rflg > 0 then a <= b else a >= b)
    && (a == b ==> x == y || if rflg > 0 then SortNumeric.Before(x, y) else SortNumeric.Before(y, x))
  }

  lemma OrderMeans(x: LineText, y: LineText, rflg: int, tab: int)
    requires (rflg == 1 || rflg == -1) && SortNumeric.LineOrder(x, y, rflg, tab, false) >= 0
    ensures MayPrecede(x, y, rflg, tab)
  {
    hide SortNumeric.Value, SortNumeric.PlainOrder, SortNumeric.Before;
    SortNumeric.PlainOrderBefore(x, y);
    SortNumeric.PlainOrderBefore(y, x);
    SortNumeric.PlainSign(x, y);
  }

  /** Sort files by the values of their lines: every line is written once, in the order of the decimal values. */
  method SortNumbers(files: seq<seq<LineText>>, nlines: int, ntext: int, rflg: int, tab: int, unsafeout: bool)
    returns (out: seq<LineText>)
    requires files != [] && nlines > 0 && ntext > 0 && (rflg == 1 || rflg == -1)
    ensures multiset(out) == Lines(files)
    ensures forall i, j :: 0 <= i < j < |out| ==> MayPrecede(out[i], out[j], rflg, tab)
  {
    hide IsPreorder, Lines, MayPrecede, SortNumeric.LineOrder;
    var cmp := (x: LineText, y: LineText) => SortNumeric.LineOrder(x, y, rflg, tab, false);
    SortNumeric.LineOrderIsPreorder(rflg, tab, false);
    out := SortFiles(cmp, (x: LineText) => |x| + 2, files, nlines, ntext, unsafeout);
    forall i, j | 0 <= i < j < |out|
      ensures MayPrecede(out[i], out[j], rflg, tab)
    {
      assert cmp(out[i], out[j]) >= 0;
      OrderMeans(out[i], out[j], rflg, tab);
    }
  }

  ghost predicate StrictlyAscending<T>(cmp: (T, T) -> int, out: seq<T>) {
    forall i, j :: 0 <= i < j < |out| ==> cmp(out[i], out[j]) > 0
  }

  /** Sort one buffer of lines and write from its end what is left: one line of every class of equivalent lines. */
  method SortUnique<T(!new)>(cmp: (T, T) -> int, run: seq<T>) returns (out: seq<T>)
    requires IsPreorder(cmp)
    ensures StrictlyAscending(cmp, out)
    ensures forall y :: y in out ==> y in run
    ensures forall x :: x in run ==> exists y :: y in out && cmp(x, y) == 0
  {
    hide IsPreorder, SortedFrom;
    var space := new Line<T>[|run|](i requires 0 <= i < |run| => Line(run[i], true));
    ghost var was := space[..];
    assert Texts(was) == run;
    QuSort(cmp, space, 0, |run|, true, Depth(|run|));
    ghost var s := space[..];
    out := [];
    var lp := |run|;
    while lp > 0
      invariant 0 <= lp <= |run| && space[..] == s && IsWritten(s, lp, out)
    {
      lp := lp - 1;
      if space[lp].kept { out := out + [space[lp].text]; }
    }
    WrittenOnce(cmp, was, s, out, run);
  }

  /** The kept lines from position lp on, backwards. */
  ghost function Written<T>(s: seq<Line<T>>, lp: nat): seq<T>
    requires lp <= |s|
    decreases |s| - lp
  {
    if lp == |s| then [] else if s[lp].kept then Written(s, lp + 1) + [s[lp].text] else Written(s, lp + 1)
  }

  ghost predicate IsWritten<T>(s: seq<Line<T>>, lp: nat, out: seq<T>) {
    lp <= |s| && out == Written(s, lp)
  }

  lemma {:induction false} WrittenFrom<T>(s: seq<Line<T>>, lp: nat, y: T)
    requires lp <= |s|
    ensures y in Written(s, lp) <==> exists i :: lp <= i < |s| && s[i].kept && s[i].text == y
    decreases |s| - lp
  {
    if lp < |s| { WrittenFrom(s, lp + 1, y); }
  }

  lemma {:induction false} WrittenOrder<T(!new)>(cmp: (T, T) -> int, s: seq<Line<T>>, lp: nat)
    requires lp <= |s| && IsPreorder(cmp)
    requires forall i, j :: 0 <= i < j < |s| && s[i].kept && s[j].kept ==> cmp(s[j].text, s[i].text) > 0
    ensures StrictlyAscending(cmp, Written(s, lp))
    decreases |s| - lp
  {
    hide IsPreorder;
    if lp < |s| {
      WrittenOrder(cmp, s, lp + 1);
      if s[lp].kept {
        forall y | y in Written(s, lp + 1)
          ensures cmp(y, s[lp].text) > 0
        {
          WrittenFrom(s, lp + 1, y);
        }
        OneMore(cmp, Written(s, lp + 1), s[lp].text);
      }
    }
  }

  lemma OneMore<T(!new)>(cmp: (T, T) -> int, out: seq<T>, x: T)
    requires StrictlyAscending(cmp, out) && forall y :: y in out ==> cmp(y, x) > 0
    ensures StrictlyAscending(cmp, out + [x])
  {
    var all := out + [x];
    forall i, j | 0 <= i < j < |all|
      ensures cmp(all[i], all[j]) > 0
    {
      assert out[i] in out;
    }
  }

  lemma WrittenOnce<T(!new)>(cmp: (T, T) -> int, was: seq<Line<T>>, s: seq<Line<T>>, out: seq<T>, run: seq<T>)
    requires IsPreorder(cmp) && SortedFrom(cmp, was, s, 0, |run|, true) && Texts(was) == run && |s| == |run|
    requires IsWritten(s, 0, out)
    ensures StrictlyAscending(cmp, out)
    ensures forall y :: y in out ==> y in run
    ensures forall x :: x in run ==> exists y :: y in out && cmp(x, y) == 0
  {
    hide IsPreorder, SortedFrom, Written;
    SameLines(cmp, was, s, run);
    forall i, j | 0 <= i < j < |s| && s[i].kept && s[j].kept
      ensures cmp(s[j].text, s[i].text) > 0
    {
      KeptApart(cmp, was, s, i, j);
    }
    WrittenOrder(cmp, s, 0);
    forall y | y in out
      ensures y in run
    {
      WrittenFrom(s, 0, y);
      var k :| 0 <= k < |s| && s[k].kept && s[k].text == y;
      assert s[k].text in run;
    }
    forall x | x in run
      ensures exists y :: y in out && cmp(x, y) == 0
    {
      var k :| 0 <= k < |s| && s[k].text == x;
      var q := OneKeptPerClass(cmp, was, s, 0, |run|, k);
      WrittenFrom(s, 0, s[q].text);
      Symmetric(cmp, s[q].text, x);
      assert s[q].text in out && cmp(x, s[q].text) == 0;
    }
  }

  lemma SameLines<T>(cmp: (T, T) -> int, was: seq<Line<T>>, s: seq<Line<T>>, run: seq<T>)
    requires SortedFrom(cmp, was, s, 0, |run|, true) && Texts(was) == run && |s| == |run|
    ensures forall x :: x in run <==> exists k :: 0 <= k < |s| && s[k].text == x
  {
    forall x
      ensures x in run <==> exists k :: 0 <= k < |s| && s[k].text == x
    {
      assert x in run <==> x in multiset(Texts(was));
      assert x in Texts(s) <==> x in multiset(Texts(s));
      if x in Texts(s) {
        var k :| 0 <= k < |s| && Texts(s)[k] == x;
      }
      if k :| 0 <= k < |s| && s[k].text == x { assert Texts(s)[k] == x; }
    }
  }

  lemma KeptApart<T(!new)>(cmp: (T, T) -> int, was: seq<Line<T>>, s: seq<Line<T>>, i: nat, j: nat)
    requires IsPreorder(cmp) && SortedFrom(cmp, was, s, 0, |s|, true) && i < j < |s| && s[i].kept && s[j].kept
    ensures cmp(s[j].text, s[i].text) > 0
  {
    hide IsPreorder, Permuted;
    KeptAlone(cmp, was, s, 0, |s|, i);
    assert cmp(Texts(s)[i], Texts(s)[j]) <= 0;
    Symmetric(cmp, s[i].text, s[j].text);
  }
}
