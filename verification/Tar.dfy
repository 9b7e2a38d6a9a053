/**
 Framing of tar(1) archives: headers and data in blocks, blocks in records of a
 blocking factor, and a listing that finds the headers again whatever the
 blocking factors of writing and reading are.
 */
module Tar {

  const TBLOCK := 512

  /** A block of 512 bytes. */
  type Block = seq<char>

  const EMPTY: Block := Nulls(TBLOCK)

  function Nulls(n: nat): Block {
    if n == 0 then [] else Nulls(n - 1) + ['\0']
  }

  /** How a block reads as a header: its name, the size of the file and the kind of link. */
  datatype Format = Format(name: Block -> string, size: Block -> nat, link: Block -> char)

  /** A block of null characters has no name. */
  ghost predicate IsFormat(fmt: Format) {
    fmt.name(EMPTY) == ""
  }

  function BlocksFor(size: nat): nat {
    (size + (TBLOCK - 1)) / TBLOCK
  }

  /** The least number of blocks that hold the bytes. */
  lemma BlocksEnough(size: nat)
    ensures TBLOCK * BlocksFor(size) >= size
    ensures forall n: nat :: TBLOCK * n >= size ==> BlocksFor(size) <= n
  {
    forall n: nat | n < BlocksFor(size)
      ensures TBLOCK * n < size
    {
      assert TBLOCK * n <= TBLOCK * (BlocksFor(size) - 1) < size;
    }
  }

  /** The number of blocks to pass after a header; a link has none. */
  function Skip(fmt: Format, h: Block): nat {
    if fmt.link(h) == '1' then 0 else BlocksFor(fmt.size(h))
  }

  // ----- what is written -----

  /** The result of a read: a count of bytes, zero at the end and negative for an error, and the buffer. */
  datatype Read = Read(count: int, buf: seq<Block>)

  /** A file to be archived: its header, and for a regular file the results of reading it. */
  datatype Entry = Regular(header: Block, input: seq<Read>) | Other(header: Block)

  function BlocksRead(count: int): nat
    requires count > 0
  {
    (count - 1) / TBLOCK + 1
  }

  ghost predicate IsEntry(fmt: Format, e: Entry) {
    if e.Regular? then fmt.link(e.header) != '1' && IsInput(e.input) else Skip(fmt, e.header) == 0
  }

  /** A buffer holds the bytes that were read. */
  ghost predicate IsInput(input: seq<Read>) {
    forall i :: 0 <= i < |input| && input[i].count > 0 ==> BlocksRead(input[i].count) <= |input[i].buf|
  }

  function Empties(n: nat): seq<Block> {
    if n == 0 then [] else [EMPTY] + Empties(n - 1)
  }

  /** The data blocks of a file that should have n: those read, and empty ones if it got shorter. */
  function DataOf(input: seq<Read>, n: nat): seq<Block>
    requires IsInput(input)
  {
    if input == [] || input[0].count <= 0 || n == 0 then Empties(n)
    else
      var k := if BlocksRead(input[0].count) > n then n else BlocksRead(input[0].count);
      input[0].buf[..k] + DataOf(input[1..], n - k)
  }

  lemma DataStep(input: seq<Read>, r: nat, n: nat, k: nat)
    requires r < |input| && IsInput(input[r..]) && input[r].count > 0 && n > 0
    requires k == if BlocksRead(input[r].count) > n then n else BlocksRead(input[r].count)
    ensures IsInput(input[r + 1..]) && k <= |input[r].buf|
    ensures DataOf(input[r..], n) == input[r].buf[..k] + DataOf(input[r + 1..], n - k)
  {
    hide BlocksRead, Empties;
    var rest := input[r..];
    assert rest[0] == input[r] && rest[1..] == input[r + 1..];
    assert IsInput(rest[1..]) by {
      assert forall i :: 0 <= i < |rest| - 1 ==> rest[1..][i] == rest[i + 1];
    }
  }

  lemma DataEnd(input: seq<Read>, n: nat)
    requires IsInput(input) && (input == [] || input[0].count <= 0 || n == 0)
    ensures DataOf(input, n) == Empties(n)
  {
  }

  /** A longer part of a sequence behind another one. */
  lemma PartMore(done: seq<Block>, buffer: seq<Block>, k: nat, l: nat)
    requires k <= l <= |buffer|
    ensures done + buffer[..l] == done + buffer[..k] + buffer[k..l]
  {
    assert buffer[..l] == buffer[..k] + buffer[k..l];
  }

  ghost function EntryBlocks(fmt: Format, e: Entry): seq<Block>
    requires IsEntry(fmt, e)
  {
    [e.header] + if e.Regular? then DataOf(e.input, BlocksFor(fmt.size(e.header))) else []
  }

  ghost predicate AllEntries(fmt: Format, es: seq<Entry>) {
    forall i :: 0 <= i < |es| ==> IsEntry(fmt, es[i])
  }

  ghost function ArchiveOf(fmt: Format, es: seq<Entry>): seq<Block>
    requires AllEntries(fmt, es)
  {
    if es == [] then [] else ArchiveOf(fmt, es[..|es| - 1]) + EntryBlocks(fmt, es[|es| - 1])
  }

  lemma {:induction false} EmptiesSize(n: nat)
    ensures |Empties(n)| == n
  {
    if n > 0 { EmptiesSize(n - 1); }
  }

  /** A header is followed by as many blocks as its size asks for, whatever was read. */
  lemma {:induction false} DataSize(input: seq<Read>, n: nat)
    requires IsInput(input)
    ensures |DataOf(input, n)| == n
    decreases |input|
  {
    if input == [] || input[0].count <= 0 || n == 0 {
      EmptiesSize(n);
    } else {
      var k := if BlocksRead(input[0].count) > n then n else BlocksRead(input[0].count);
      DataSize(input[1..], n - k);
    }
  }

  lemma EntrySize(fmt: Format, e: Entry)
    requires IsEntry(fmt, e)
    ensures |EntryBlocks(fmt, e)| == 1 + Skip(fmt, e.header) && EntryBlocks(fmt, e)[0] == e.header
  {
    if e.Regular? { DataSize(e.input, BlocksFor(fmt.size(e.header))); }
  }

  // ----- what a listing finds -----

  /** From pos on, headers lead to a block without a name. */
  ghost predicate Framed(fmt: Format, tape: seq<Block>, pos: nat)
    decreases |tape| - pos
  {
    pos < |tape| && (fmt.name(tape[pos]) == "" || Framed(fmt, tape, pos + 1 + Skip(fmt, tape[pos])))
  }

  ghost function ListFrom(fmt: Format, tape: seq<Block>, pos: nat): seq<Block>
    decreases |tape| - pos
  {
    if pos >= |tape| || fmt.name(tape[pos]) == "" then []
    else [tape[pos]] + ListFrom(fmt, tape, pos + 1 + Skip(fmt, tape[pos]))
  }

  /** The headers from entry i on, up to one without a name. */
  ghost function HeadersFrom(fmt: Format, es: seq<Entry>, i: nat): seq<Block>
    decreases |es| - i
  {
    if i >= |es| || fmt.name(es[i].header) == "" then [] else [es[i].header] + HeadersFrom(fmt, es, i + 1)
  }

  /** Where entry i starts. */
  ghost function StartOf(fmt: Format, es: seq<Entry>, i: nat): nat
    requires i <= |es|
  {
    if i == 0 then 0 else StartOf(fmt, es, i - 1) + 1 + Skip(fmt, es[i - 1].header)
  }

  lemma ArchiveMore(fmt: Format, es: seq<Entry>)
    requires AllEntries(fmt, es) && es != []
    ensures AllEntries(fmt, es[..|es| - 1])
    ensures ArchiveOf(fmt, es) == ArchiveOf(fmt, es[..|es| - 1]) + EntryBlocks(fmt, es[|es| - 1])
  {
  }

  lemma {:induction false} ArchiveSize(fmt: Format, es: seq<Entry>)
    requires AllEntries(fmt, es)
    ensures |ArchiveOf(fmt, es)| == StartOf(fmt, es, |es|)
  {
    hide Skip, EntryBlocks, IsEntry;
    if es != [] {
      var n := |es| - 1;
      ArchiveMore(fmt, es);
      ArchiveSize(fmt, es[..n]);
      EntrySize(fmt, es[n]);
      StartSame(fmt, es[..n], es, n);
    }
  }

  /** Entry i starts with its header. */
  lemma {:induction false} ArchivePart(fmt: Format, es: seq<Entry>, i: nat)
    requires AllEntries(fmt, es) && i < |es|
    ensures StartOf(fmt, es, i) < |ArchiveOf(fmt, es)| && ArchiveOf(fmt, es)[StartOf(fmt, es, i)] == es[i].header
    decreases |es|
  {
    hide Skip, EntryBlocks, IsEntry, ArchiveOf, StartOf, AllEntries;
    var n := |es| - 1;
    var init := es[..n];
    ArchiveMore(fmt, es);
    StartSame(fmt, init, es, i);
    if i < n {
      ArchivePart(fmt, init, i);
    } else {
      ArchiveSize(fmt, init);
      HeaderFirst(fmt, es, n);
    }
  }

  lemma HeaderFirst(fmt: Format, es: seq<Entry>, n: nat)
    requires AllEntries(fmt, es) && n < |es|
    ensures |EntryBlocks(fmt, es[n])| > 0 && EntryBlocks(fmt, es[n])[0] == es[n].header
  {
    EntrySize(fmt, es[n]);
  }

  lemma {:induction false} StartSame(fmt: Format, es: seq<Entry>, fs: seq<Entry>, i: nat)
    requires i <= |es| && es <= fs
    ensures StartOf(fmt, es, i) == StartOf(fmt, fs, i)
  {
    if i > 0 { StartSame(fmt, es, fs, i - 1); }
  }

  /** A listing recovers the headers written, up to the first one without a name. */
  lemma {:induction false} ListsHeaders(fmt: Format, es: seq<Entry>, tape: seq<Block>, i: nat)
    requires IsFormat(fmt) && AllEntries(fmt, es) && i <= |es| && ArchiveOf(fmt, es) + [EMPTY] <= tape
    ensures Framed(fmt, tape, StartOf(fmt, es, i))
    ensures ListFrom(fmt, tape, StartOf(fmt, es, i)) == HeadersFrom(fmt, es, i)
    decreases |es| - i
  {
    hide ArchiveOf, Skip, StartOf, AllEntries, EMPTY;
    TapeAt(fmt, es, tape, i);
    if i < |es| {
      ListsHeaders(fmt, es, tape, i + 1);
      NextStart(fmt, es, i);
    }
  }

  lemma TapeAt(fmt: Format, es: seq<Entry>, tape: seq<Block>, i: nat)
    requires AllEntries(fmt, es) && i <= |es| && ArchiveOf(fmt, es) + [EMPTY] <= tape
    ensures StartOf(fmt, es, i) < |tape|
    ensures tape[StartOf(fmt, es, i)] == if i < |es| then es[i].header else EMPTY
  {
    hide ArchiveOf, StartOf;
    ArchiveSize(fmt, es);
    if i < |es| { ArchivePart(fmt, es, i); }
    var a := ArchiveOf(fmt, es);
    assert tape[StartOf(fmt, es, i)] == (a + [EMPTY])[StartOf(fmt, es, i)];
  }

  lemma NextStart(fmt: Format, es: seq<Entry>, i: nat)
    requires i < |es|
    ensures StartOf(fmt, es, i + 1) == StartOf(fmt, es, i) + 1 + Skip(fmt, es[i].header)
  {
  }

  /** If every entry has a name, all headers are listed, in order. */
  lemma {:induction false} AllListed(fmt: Format, es: seq<Entry>, i: nat)
    requires i <= |es| && forall k :: i <= k < |es| ==> fmt.name(es[k].header) != ""
    ensures |HeadersFrom(fmt, es, i)| == |es| - i
    ensures forall k :: i <= k < |es| ==> HeadersFrom(fmt, es, i)[k - i] == es[k].header
    decreases |es| - i
  {
    if i < |es| { AllListed(fmt, es, i + 1); }
  }

  // ----- writing -----

  class Writer {
    const nblock: nat
    const tbuf: array<Block>
    var recno: nat
    /** What is on the tape. */
    var tape: seq<Block>

    ghost predicate Valid()
      reads this, tbuf
    {
      tbuf.Length == nblock > 0 && recno <= nblock
    }

    /** All blocks written so far, on the tape or not. */
    ghost function Written(): seq<Block>
      requires Valid()
      reads this, tbuf
    {
      tape + tbuf[..recno]
    }

    constructor (n: nat)
      requires n > 0
      ensures Valid() && Written() == [] && nblock == n && fresh(tbuf)
    {
      nblock := n;
      tbuf := new Block[n](_ => []);
      recno := 0;
      tape := [];
    }

    /** Write the buffer to the tape as one record. */
    method Flush()
      requires Valid()
      modifies this`tape
      ensures tape == old(tape) + tbuf[..]
    {
      tape := tape + tbuf[..];
    }

    /** Write n blocks; a full record that is not yet begun goes to the tape without the buffer. */
    method WriteTBuf(buffer: seq<Block>, n: nat) returns (hint: nat)
      requires Valid() && n <= |buffer|
      modifies this, tbuf
      ensures Valid() && Written() == old(Written()) + buffer[..n]
      ensures recno < nblock && hint == nblock - recno
    {
      hide Written;
      FlushFull();
      var k := 0;
      while recno == 0 && n - k >= nblock
        invariant Valid() && recno < nblock && k <= n && Written() == old(Written()) + buffer[..k]
        decreases n - k
      {
        PartMore(old(Written()), buffer, k, k + nblock);
        WriteRecord(buffer[k..k + nblock]);
        k := k + nblock;
      }
      while k < n
        invariant Valid() && recno < nblock && k <= n && Written() == old(Written()) + buffer[..k]
      {
        PartMore(old(Written()), buffer, k, k + 1);
        assert buffer[k..k + 1] == [buffer[k]];
        Put(buffer[k]);
        k := k + 1;
      }
      hint := nblock - recno;
    }

    /** Make room if the buffer is full. */
    method FlushFull()
      requires Valid()
      modifies this
      ensures Valid() && recno < nblock && Written() == old(Written())
    {
      if recno >= nblock {
        Flush();
        recno := 0;
      }
    }

    /** Write a full record while the buffer is empty. */
    method WriteRecord(blocks: seq<Block>)
      requires Valid() && recno == 0
      modifies this`tape
      ensures Valid() && Written() == old(Written()) + blocks
    {
      assert tape == Written();
      tape := tape + blocks;
      assert tape == Written();
    }

    /** Copy a block to the buffer, and write the buffer when it is full. */
    method Put(b: Block)
      requires Valid() && recno < nblock
      modifies this, tbuf
      ensures Valid() && recno < nblock && Written() == old(Written()) + [b]
    {
      tbuf[recno] := b;
      recno := recno + 1;
      assert tbuf[..recno] == old(tbuf[..recno]) + [b];
      if recno >= nblock {
        Flush();
        recno := 0;
      }
    }

    method PutEmpty()
      requires Valid()
      modifies this, tbuf
      ensures Valid() && Written() == old(Written()) + [EMPTY]
    {
      var hint := WriteTBuf([EMPTY], 1);
    }

    /** Write the data of a file that should have n blocks, as it is read, and fill up with empty blocks. */
    method PutData(input: seq<Read>, n: nat)
      requires Valid() && IsInput(input)
      modifies this, tbuf
      ensures Valid() && Written() == old(Written()) + DataOf(input, n)
    {
      hide Written, EMPTY, Empties, BlocksRead, IsInput, DataOf;
      var blocks: nat := n;
      var r := 0;
      ghost var done: seq<Block> := [];
      assert input[0..] == input;
      while r < |input| && input[r].count > 0 && blocks > 0
        invariant 0 <= r <= |input| && Valid() && IsInput(input[r..])
        invariant Written() == old(Written()) + done && DataOf(input, n) == done + DataOf(input[r..], blocks)
        decreases |input| - r
      {
        var nblks := BlocksRead(input[r].count);
        if nblks > blocks { nblks := blocks; }
        DataStep(input, r, blocks, nblks);
        var hint := WriteTBuf(input[r].buf, nblks);
        done := done + input[r].buf[..nblks];
        blocks := blocks - nblks;
        r := r + 1;
      }
      DataEnd(input[r..], blocks);
      PutEmpties(blocks);
    }

    method PutEmpties(n: nat)
      requires Valid()
      modifies this, tbuf
      ensures Valid() && Written() == old(Written()) + Empties(n)
    {
      hide Written, EMPTY;
      var blocks := n;
      ghost var done: seq<Block> := [];
      while blocks > 0
        invariant 0 <= blocks && Valid() && Written() == old(Written()) + done && Empties(n) == done + Empties(blocks)
      {
        PutEmpty();
        done := done + [EMPTY];
        blocks := blocks - 1;
      }
    }

    /** Write the header of a file and, for a regular file, its data. */
    method PutFile(fmt: Format, e: Entry)
      requires Valid() && IsEntry(fmt, e)
      modifies this, tbuf
      ensures Valid() && Written() == old(Written()) + EntryBlocks(fmt, e)
    {
      var hint := WriteTBuf([e.header], 1);
      if e.Regular? {
        PutData(e.input, BlocksFor(fmt.size(e.header)));
      }
    }

    /** Write an archive: its entries, two empty blocks and what is left in the buffer. */
    method Create(fmt: Format, es: seq<Entry>)
      requires Valid() && Written() == [] && AllEntries(fmt, es)
      modifies this, tbuf
      ensures ArchiveOf(fmt, es) + [EMPTY] + [EMPTY] <= tape
    {
      hide IsEntry, EMPTY;
      assert es[..0] == [];
      for i := 0 to |es|
        invariant Valid() && Written() == ArchiveOf(fmt, es[..i])
      {
        assert es[..i + 1][..i] == es[..i];
        PutFile(fmt, es[i]);
      }
      assert es[..|es|] == es;
      PutEmpty();
      PutEmpty();
      Flush();
    }
  }

  // ----- reading -----

  class Reader {
    /** The tape, in blocks. */
    const tape: seq<Block>
    var tbuf: seq<Block>
    var nblock: nat
    var recno: nat
    var first: bool
    /** How far the tape was read into the buffer. */
    var at: nat

    /** The block to be read next. */
    ghost function Position(): int
      reads this
    {
      if first then at - nblock + recno else 0
    }

    ghost predicate Valid()
      reads this
    {
      && nblock > 0
      && if first then recno <= nblock <= at && |tbuf| == nblock && InRecord(tape, tbuf, at - nblock)
         else at == 0
    }

    constructor (t: seq<Block>, n: nat)
      requires n > 0
      ensures Valid() && tape == t && Position() == 0
    {
      tape := t;
      nblock := n;
      tbuf := [];
      recno, first, at := 0, false, 0;
    }

    /** Read a record of at most n blocks; only the last one of a tape may be shorter. */
    method BRead(n: nat) returns (i: nat)
      modifies this`tbuf
      ensures i == if at + n <= |tape| then n else if at <= |tape| then |tape| - at else 0
      ensures i <= |tbuf| && |tbuf| >= |old(tbuf)| && InRecord(tape, tbuf[..i], at)
      ensures |old(tbuf)| <= n ==> |tbuf| <= n || |tbuf| == |old(tbuf)|
    {
      i := if at + n <= |tape| then n else if at <= |tape| then |tape| - at else 0;
      if i > 0 {
        tbuf := tape[at..at + i] + if i <= |tbuf| then tbuf[i..] else [];
      }
    }

    /** The next block. The first record tells the blocking factor. */
    method ReadTape() returns (b: Block)
      requires Valid() && Position() < |tape|
      modifies this
      ensures Valid() && b == tape[old(Position())] && Position() == old(Position()) + 1
    {
      if !first || recno >= nblock {
        NextRecord();
      }
      b := tbuf[recno];
      recno := recno + 1;
    }

    /** Read the next record into the buffer. */
    method NextRecord()
      requires Valid() && Position() < |tape| && (!first || recno >= nblock)
      modifies this
      ensures Valid() && first && recno == 0 && Position() == old(Position())
    {
      hide InRecord;
      var i := BRead(nblock);
      if !first {
        if i != nblock { nblock := i; }
        tbuf := tbuf[..nblock];
        first := true;
      } else {
        RecordRead(tape, tbuf, at, i);
      }
      at := at + nblock;
      recno := 0;
    }

    /** Pass the data after a header. */
    method PassTape(n: nat)
      requires Valid() && Position() + n <= |tape|
      modifies this
      ensures Valid() && Position() == old(Position()) + n
    {
      for i := 0 to n
        invariant Valid() && Position() == old(Position()) + i
      {
        var b := ReadTape();
      }
    }

    /** List the headers up to a block without a name. */
    method Table(fmt: Format) returns (headers: seq<Block>)
      requires Valid() && Position() == 0 && Framed(fmt, tape, 0)
      modifies this
      ensures headers == ListFrom(fmt, tape, 0)
    {
      hide Skip;
      headers := [];
      while true
        invariant Valid() && 0 <= Position() < |tape| && Framed(fmt, tape, Position())
        invariant ListFrom(fmt, tape, 0) == headers + ListFrom(fmt, tape, Position())
        decreases |tape| - Position()
      {
        var h := ReadTape();
        if fmt.name(h) == "" { break; }
        headers := headers + [h];
        PassTape(Skip(fmt, h));
      }
    }
  }

  /** Write an archive and list it, with any two blocking factors. */
  method WriteAndList(fmt: Format, es: seq<Entry>, n: nat, m: nat) returns (headers: seq<Block>)
    requires IsFormat(fmt) && AllEntries(fmt, es) && n > 0 && m > 0
    ensures headers == HeadersFrom(fmt, es, 0)
  {
    hide ArchiveOf, EMPTY;
    var w := new Writer(n);
    w.Create(fmt, es);
    var r := new Reader(w.tape, m);
    ListsHeaders(fmt, es, w.tape, 0);
    headers := r.Table(fmt);
  }

  /** The buffer holds the tape from a position on, as far as it goes. */
  /** What is behind the end of the tape does not matter. */
  lemma RecordRead(tape: seq<Block>, tbuf: seq<Block>, from: int, i: nat)
    requires i <= |tbuf| && InRecord(tape, tbuf[..i], from) && (i == |tbuf| || from + i >= |tape|)
    ensures InRecord(tape, tbuf, from)
  {
    forall k | 0 <= k < |tbuf| && from + k < |tape|
      ensures tbuf[k] == tape[from + k]
    {
      assert tbuf[..i][k] == tbuf[k];
    }
  }

  ghost predicate InRecord(tape: seq<Block>, tbuf: seq<Block>, from: int) {
    from >= 0 && forall k :: 0 <= k < |tbuf| && from + k < |tape| ==> tbuf[k] == tape[from + k]
  }
}
