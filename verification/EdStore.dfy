/**
 The temporary file of ed(1): lines of the edited text are kept in a file of
 512-byte blocks that is only appended to, behind one buffer for the block being
 written and one for the block read last.
 */
module EdStore {
  import opened Options

  const BLOCK := 512

  // ----- the blocks as one flat store -----

  /** Byte x of the store: in the block being written or in the file. */
  ghost function Cell(file: seq<seq<char>>, oblock: int, obuff: seq<char>, x: nat): char
    requires Blocks(file, oblock, obuff) && x / BLOCK <= oblock
  {
    if x / BLOCK == oblock then obuff[x % BLOCK] else file[x / BLOCK][x % BLOCK]
  }

  /** The file holds the blocks before the one being written. */
  ghost predicate Blocks(file: seq<seq<char>>, oblock: int, obuff: seq<char>) {
    && -1 <= oblock && |file| == (if oblock < 0 then 0 else oblock) && |obuff| == BLOCK
    && forall b :: 0 <= b < |file| ==> |file[b]| == BLOCK
  }

  /** The text and the null character after it are at address t; an address counts pairs of bytes. */
  ghost predicate Held(file: seq<seq<char>>, oblock: int, obuff: seq<char>, t: nat, text: string)
    requires Blocks(file, oblock, obuff)
  {
    && (2 * t + |text|) / BLOCK <= oblock
    && (forall k :: 0 <= k < |text| ==> Cell(file, oblock, obuff, 2 * t + k) == text[k])
    && Cell(file, oblock, obuff, 2 * t + |text|) == '\0'
  }

  /** Bytes before n are the same in two states of the store. */
  ghost predicate SameBelow(file: seq<seq<char>>, oblock: int, obuff: seq<char>,
                            file': seq<seq<char>>, oblock': int, obuff': seq<char>, n: nat)
  {
    && Blocks(file, oblock, obuff) && Blocks(file', oblock', obuff') && oblock <= oblock'
    && forall x :: 0 <= x < n && x / BLOCK <= oblock ==> Cell(file, oblock, obuff, x) == Cell(file', oblock', obuff', x)
  }

  lemma SameHeld(file: seq<seq<char>>, oblock: int, obuff: seq<char>,
                 file': seq<seq<char>>, oblock': int, obuff': seq<char>, n: nat, t: nat, text: string)
    requires SameBelow(file, oblock, obuff, file', oblock', obuff', n)
    requires Held(file, oblock, obuff, t, text) && 2 * t + |text| < n
    ensures Held(file', oblock', obuff', t, text)
  {
    forall k | 0 <= k < |text|
      ensures Cell(file', oblock', obuff', 2 * t + k) == text[k]
    {
      assert (2 * t + k) / BLOCK <= oblock;
      assert Cell(file, oblock, obuff, 2 * t + k) == text[k];
    }
  }

  /** Going on to the next block leaves all bytes as they were. */
  lemma NextBlock(file: seq<seq<char>>, oblock: int, obuff: seq<char>, n: nat)
    requires Blocks(file, oblock, obuff)
    ensures SameBelow(file, oblock, obuff, if oblock < 0 then file else file + [obuff], oblock + 1, obuff, n)
  {
  }

  lemma WriteByte(file: seq<seq<char>>, oblock: int, obuff: seq<char>, x: nat, c: char)
    requires Blocks(file, oblock, obuff) && x / BLOCK == oblock
    ensures Blocks(file, oblock, obuff[x % BLOCK := c]) && Cell(file, oblock, obuff[x % BLOCK := c], x) == c
    ensures forall y :: 0 <= y && y != x && y / BLOCK <= oblock ==>
              Cell(file, oblock, obuff[x % BLOCK := c], y) == Cell(file, oblock, obuff, y)
  {
    forall y | 0 <= y && y != x && y / BLOCK <= oblock
      ensures Cell(file, oblock, obuff[x % BLOCK := c], y) == Cell(file, oblock, obuff, y)
    {
      assert y / BLOCK == oblock ==> y % BLOCK != x % BLOCK;
    }
  }

  lemma SameTransitive(file: seq<seq<char>>, oblock: int, obuff: seq<char>, file': seq<seq<char>>, oblock': int,
                       obuff': seq<char>, file'': seq<seq<char>>, oblock'': int, obuff'': seq<char>, n: nat)
    requires SameBelow(file, oblock, obuff, file', oblock', obuff', n)
    requires SameBelow(file', oblock', obuff', file'', oblock'', obuff'', n)
    ensures SameBelow(file, oblock, obuff, file'', oblock'', obuff'', n)
  {
  }

  lemma SameHere(file: seq<seq<char>>, oblock: int, obuff: seq<char>, n: nat)
    requires Blocks(file, oblock, obuff)
    ensures SameBelow(file, oblock, obuff, file, oblock, obuff, n)
  {
  }

  // ----- writing a line -----

  /** k bytes of the text are written from byte n on, and the next goes to the block being written. */
  ghost predicate Putting(file: seq<seq<char>>, oblock: int, obuff: seq<char>, n: nat, text: seq<char>, k: nat) {
    && Blocks(file, oblock, obuff) && k <= |text| && (n + k) / BLOCK == oblock
    && forall m :: 0 <= m < k ==> Cell(file, oblock, obuff, n + m) == text[m]
  }

  lemma PutByte(file: seq<seq<char>>, oblock: int, obuff: seq<char>, n: nat, text: seq<char>, k: nat, c: char)
    requires Putting(file, oblock, obuff, n, text, k)
    ensures var o := obuff[(n + k) % BLOCK := c];
            && SameBelow(file, oblock, obuff, file, oblock, o, n)
            && (forall m :: 0 <= m < k ==> Cell(file, oblock, o, n + m) == text[m])
            && Cell(file, oblock, o, n + k) == c
  {
    WriteByte(file, oblock, obuff, n + k, c);
  }

  /** After a byte of the text, go on in the same block or in the next one. */
  lemma PutNext(file: seq<seq<char>>, oblock: int, obuff: seq<char>, n: nat, text: seq<char>, k: nat)
    requires Putting(file, oblock, obuff, n, text, k) && k < |text|
    ensures var o := obuff[(n + k) % BLOCK := text[k]];
            && ((n + k) % BLOCK < BLOCK - 1 ==> Putting(file, oblock, o, n, text, k + 1))
            && ((n + k) % BLOCK == BLOCK - 1 ==>
                  Putting(if oblock < 0 then file else file + [o], oblock + 1, o, n, text, k + 1))
  {
    PutByte(file, oblock, obuff, n, text, k, text[k]);
    var o := obuff[(n + k) % BLOCK := text[k]];
    NextBlock(file, oblock, o, n + k + 1);
  }

  lemma PutLast(file: seq<seq<char>>, oblock: int, obuff: seq<char>, t: nat, text: seq<char>)
    requires Putting(file, oblock, obuff, 2 * t, text, |text|)
    ensures Blocks(file, oblock, obuff[(2 * t + |text|) % BLOCK := '\0'])
    ensures Held(file, oblock, obuff[(2 * t + |text|) % BLOCK := '\0'], t, text)
  {
    PutByte(file, oblock, obuff, 2 * t, text, |text|, '\0');
  }

  lemma PutsAt(file: seq<seq<char>>, oblock: int, obuff: seq<char>, n: nat, text: seq<char>, k: nat)
    requires Putting(file, oblock, obuff, n, text, k)
    ensures (n + k) / BLOCK == oblock
  {
  }

  // ----- addresses -----

  function BlockNo(atl: nat): nat {
    atl / 256 % 256
  }

  /** The low bit of an address is a mark and the store is aligned to four bytes. */
  function Offset(atl: nat): nat {
    2 * atl / 4 * 4 % BLOCK
  }

  lemma AddressOf(tl: nat)
    requires tl < 0x1_0000
    ensures var t := tl - tl % 2; BlockNo(tl) == 2 * t / BLOCK && Offset(tl) == 2 * t % BLOCK
  {
    var h := tl / 2;
    assert tl / 256 < 256 && tl / 256 == h / 128;
    assert 2 * tl / 4 == h;
    assert 4 * h / BLOCK == h / 128;
  }

  lemma BlockStart(tl: nat, t: nat)
    requires t == tl - tl % 2
    ensures tl / 256 * 256 == 2 * t / BLOCK * 256
  {
    var h := tl / 2;
    assert tl / 256 == h / 128 == 4 * h / BLOCK;
  }

  /** The address after a line of n bytes. */
  function After(tline: nat, n: nat): nat {
    tline + (n + 3) / 2 / 2 * 2 % 0x8000
  }

  lemma AfterCovers(tline: nat, n: nat)
    requires 0 < n <= BLOCK && tline % 2 == 0
    ensures var t := After(tline, n);
            t % 2 == 0 && t > tline && 2 * tline + n <= 2 * t < 2 * tline + n + 4
  {
    Quarter(n + 3);
    var q := (n + 3) / 4;
    assert n <= 4 * q < n + 4;
    assert (q * 2) % 0x8000 == q * 2;
  }

  lemma Quarter(n: nat)
    ensures n / 2 / 2 == n / 4 && 4 * (n / 4) <= n < 4 * (n / 4) + 4
  {
  }

  /** The line in the buffer ends at the first null character or newline. */
  function LineEnd(s: seq<char>): (n: nat)
    ensures n <= |s| && (forall i :: 0 <= i < n ==> s[i] != '\0' && s[i] != '\n')
    ensures n < |s| ==> s[n] == '\0' || s[n] == '\n'
  {
    if s == [] || s[0] == '\0' || s[0] == '\n' then 0 else 1 + LineEnd(s[1..])
  }

  /** Every text stored is where its address says, before tline. */
  ghost predicate AllHeld(stored: map<nat, string>, tline: nat, file: seq<seq<char>>, oblock: int, obuff: seq<char>) {
    && Blocks(file, oblock, obuff)
    && forall t :: t in stored ==> IsText(stored[t]) && t % 2 == 0 && 2 * t + |stored[t]| < 2 * tline
                                   && Held(file, oblock, obuff, t, stored[t])
  }

  ghost predicate IsText(s: string) {
    |s| < BLOCK && LineEnd(s) == |s|
  }

  lemma KeepAll(stored: map<nat, string>, tline: nat, file: seq<seq<char>>, oblock: int, obuff: seq<char>,
                file': seq<seq<char>>, oblock': int, obuff': seq<char>)
    requires AllHeld(stored, tline, file, oblock, obuff)
    requires SameBelow(file, oblock, obuff, file', oblock', obuff', 2 * tline)
    ensures AllHeld(stored, tline, file', oblock', obuff')
  {
    hide Held, SameBelow;
    assert Blocks(file', oblock', obuff') by { SameBlocks(file, oblock, obuff, file', oblock', obuff', 2 * tline); }
    forall t | t in stored
      ensures Held(file', oblock', obuff', t, stored[t])
    {
      SameHeld(file, oblock, obuff, file', oblock', obuff', 2 * tline, t, stored[t]);
    }
  }

  lemma SameBlocks(file: seq<seq<char>>, oblock: int, obuff: seq<char>,
                   file': seq<seq<char>>, oblock': int, obuff': seq<char>, n: nat)
    requires SameBelow(file, oblock, obuff, file', oblock', obuff', n)
    ensures Blocks(file', oblock', obuff')
  {
  }

  lemma AddHeld(stored: map<nat, string>, tline: nat, file: seq<seq<char>>, oblock: int, obuff: seq<char>, text: string)
    requires AllHeld(stored, tline, file, oblock, obuff) && tline % 2 == 0 && IsText(text)
    requires Held(file, oblock, obuff, tline, text)
    ensures tline !in stored
    ensures AllHeld(stored[tline := text], After(tline, |text| + 1), file, oblock, obuff)
  {
    hide Held, After;
    AfterCovers(tline, |text| + 1);
  }

  lemma StartPutting(file: seq<seq<char>>, oblock: int, obuff: seq<char>, oblock': int, n: nat, text: string)
    requires Blocks(file, oblock, obuff) && oblock <= oblock' <= oblock + 1 && n / BLOCK == oblock'
    ensures var file' := if oblock < 0 || oblock == oblock' then file else file + [obuff];
            Putting(file', oblock', obuff, n, text, 0) && SameBelow(file, oblock, obuff, file', oblock', obuff, n)
  {
    NextBlock(file, oblock, obuff, n);
  }

  /** Block b, in the file or being written. */
  ghost function Block(file: seq<seq<char>>, oblock: int, obuff: seq<char>, b: nat): seq<char>
    requires Blocks(file, oblock, obuff) && b <= oblock
  {
    if b == oblock then obuff else file[b]
  }

  /** The bytes of a text held, and where its end is. */
  lemma HeldByte(file: seq<seq<char>>, oblock: int, obuff: seq<char>, t: nat, text: string, k: nat)
    requires Blocks(file, oblock, obuff) && Held(file, oblock, obuff, t, text) && IsText(text) && k <= |text|
    ensures var x := 2 * t + k;
            && x / BLOCK <= oblock && |Block(file, oblock, obuff, x / BLOCK)| == BLOCK
            && Block(file, oblock, obuff, x / BLOCK)[x % BLOCK] == (if k < |text| then text[k] else '\0')
    ensures k < |text| ==> text[k] != '\0'
  {
    if k < |text| { assert Cell(file, oblock, obuff, 2 * t + k) == text[k]; }
  }

  lemma StoredAt(stored: map<nat, string>, tline: nat, file: seq<seq<char>>, oblock: int, obuff: seq<char>, t: nat)
    requires AllHeld(stored, tline, file, oblock, obuff) && t in stored
    ensures Held(file, oblock, obuff, t, stored[t]) && IsText(stored[t]) && t % 2 == 0 && t < tline
    ensures 2 * t / BLOCK <= oblock
  {
  }

  class Store {
    const ibuff: array<char>
    const obuff: array<char>
    const linebuf: array<char>
    var file: seq<seq<char>>
    var iblock: int
    var oblock: int
    var ichanged: bool
    var nleft: nat
    var tline: nat
    var linebp: nat
    /** The text put at every address. */
    ghost var stored: map<nat, string>

    /** The buffer for reading holds a block of the file, unless it was changed. */
    ghost predicate Coherent()
      reads this, ibuff, obuff
    {
      && ibuff != obuff && ibuff != linebuf && obuff != linebuf
      && ibuff.Length == obuff.Length == linebuf.Length == BLOCK && Blocks(file, oblock, obuff[..])
      && -1 <= iblock < |file| && (ichanged ==> iblock >= 0)
      && (iblock >= 0 && !ichanged ==> ibuff[..] == file[iblock])
    }

    /** What block b holds, wherever it is. */
    ghost function View(b: nat): seq<char>
      requires Coherent() && b <= oblock
      reads this, ibuff, obuff
    {
      if b == iblock then ibuff[..] else if b == oblock then obuff[..] else file[b]
    }

    ghost predicate Placed()
      reads this
    {
      && 2 <= tline <= 255 * 256 && tline % 2 == 0 && oblock < 255
      && oblock <= 2 * tline / BLOCK <= oblock + 1
    }

    ghost predicate Valid()
      reads this, ibuff, obuff
    {
      Coherent() && !ichanged && Placed() && AllHeld(stored, tline, file, oblock, obuff[..])
    }

    /** A new temporary file. */
    constructor ()
      ensures Valid() && stored == map[] && tline == 2 && fresh(ibuff) && fresh(obuff) && fresh(linebuf)
    {
      ibuff, obuff, linebuf := new char[BLOCK], new char[BLOCK], new char[BLOCK];
      file := [];
      tline := 2;
      linebp, nleft := 0, 0;
      iblock, oblock, ichanged := -1, -1, false;
      stored := map[];
    }

    /** Write a block; a gap before it reads as null characters. */
    method BlkWrite(b: nat, buf: array<char>)
      requires buf.Length == BLOCK
      modifies this`file
      ensures b == |old(file)| ==> file == old(file) + [buf[..]]
      ensures b < |old(file)| ==> file == old(file)[b := buf[..]]
    {
      while |file| < b
        invariant b <= |old(file)| ==> file == old(file)
      {
        file := file + [seq(BLOCK, _ => '\0')];
      }
      file := if b == |file| then file + [buf[..]] else file[b := buf[..]];
    }

    method BlkRead(b: nat, buf: array<char>) returns (ok: bool)
      requires buf.Length == BLOCK && forall i :: 0 <= i < |file| ==> |file[i]| == BLOCK
      modifies buf
      ensures ok <==> b < |file|
      ensures if ok then buf[..] == file[b] else buf[..] == old(buf[..])
    {
      if b >= |file| { return false; }
      forall i | 0 <= i < BLOCK {
        buf[i] := file[b][i];
      }
      return true;
    }

    /**
     The buffer that holds the block of an address. A block to be read is one
     already written; a block to be written is the last one or the next, unless it
     is in the buffer for reading. No block changes.
     */
    method GetBlock(atl: nat, write: bool) returns (ok: bool, buf: array<char>, off: nat)
      requires Coherent()
      requires BlockNo(atl) < 255 && !write ==> BlockNo(atl) <= oblock
      requires BlockNo(atl) < 255 && write ==> BlockNo(atl) == iblock || oblock <= BlockNo(atl) <= oblock + 1
      modifies this`nleft, this`iblock, this`oblock, this`ichanged, this`file, ibuff
      ensures Coherent() && (ok <==> BlockNo(atl) < 255)
      ensures old(oblock) <= oblock && forall b :: 0 <= b <= old(oblock) ==> View(b) == old(View(b))
      ensures ok ==> off == Offset(atl) && nleft == BLOCK - off && BlockNo(atl) <= oblock
      ensures ok ==> buf == (if BlockNo(atl) == iblock then ibuff else obuff) && buf[..] == View(BlockNo(atl))
      ensures ichanged ==> old(ichanged) || (write && iblock == old(iblock) == BlockNo(atl))
      ensures !write ==> oblock == old(oblock) && (!old(ichanged) ==> file == old(file))
      ensures write ==> iblock == old(iblock)
      ensures ok && write && BlockNo(atl) != iblock ==> oblock == BlockNo(atl)
      ensures !ok ==> oblock == old(oblock) && file == old(file)
      ensures file == old(file) || (write && old(oblock) >= 0 && file == old(file) + [obuff[..]])
              || (!write && old(ichanged) && iblock != old(iblock))
    {
      var bno := BlockNo(atl);
      off := Offset(atl);
      if bno >= 255 { return false, ibuff, off; }
      nleft := BLOCK - off;
      ok := true;
      if bno == iblock {
        ichanged := ichanged || write;
        return ok, ibuff, off;
      }
      if bno == oblock { return ok, obuff, off; }
      if !write {
        if ichanged { BlkWrite(iblock, ibuff); }
        ichanged := false;
        iblock := bno;
        ok := BlkRead(bno, ibuff);
        return ok, ibuff, off;
      }
      if oblock >= 0 { BlkWrite(oblock, obuff); }
      oblock := bno;
      return ok, obuff, off;
    }

    /** The buffer for the block being written, or for the next one. */
    method OutBlock(tl: nat) returns (ok: bool, buf: array<char>, bp: nat)
      requires Coherent() && !ichanged && oblock <= BlockNo(tl) <= oblock + 1
      modifies this`nleft, this`iblock, this`oblock, this`ichanged, this`file, ibuff
      ensures Coherent() && !ichanged && (ok <==> BlockNo(tl) < 255)
      ensures ok ==> buf == obuff && bp == Offset(tl) && nleft == BLOCK - bp && oblock == BlockNo(tl)
      ensures !ok ==> oblock == old(oblock)
      ensures file == if old(oblock) < 0 || old(oblock) == oblock then old(file) else old(file) + [obuff[..]]
    {
      hide BlockNo, Offset;
      ok, buf, bp := GetBlock(tl, true);
    }

    /** Write one character of a line, and go on to the next block at the end of one. */
    method PutChar(c: char, tl0: nat, bp0: nat, nl0: nat, ghost n: nat, ghost text: string, ghost k: nat)
      returns (ok: bool, tl: nat, bp: nat, nl: nat)
      requires Coherent() && !ichanged && k < |text| && text[k] == c && oblock < 255
      requires bp0 == (n + k) % BLOCK && nl0 == BLOCK - bp0 && tl0 == oblock * 256
      requires Putting(file, oblock, obuff[..], n, text, k)
      modifies this`nleft, this`iblock, this`oblock, this`ichanged, this`file, ibuff, obuff
      ensures Coherent() && !ichanged && oblock < 255
      ensures SameBelow(old(file), old(oblock), old(obuff[..]), file, oblock, obuff[..], n)
      ensures ok ==> Putting(file, oblock, obuff[..], n, text, k + 1)
      ensures ok ==> bp == (n + k + 1) % BLOCK && nl == BLOCK - bp && tl == oblock * 256
      ensures !ok ==> oblock == old(oblock) == 254 && (n + k + 1) / BLOCK == 255
    {
      hide Putting, SameBelow, BlockNo, Offset;
      ghost var o := obuff[..];
      ghost var file0, oblock0 := file, oblock;
      PutsAt(file, oblock, o, n, text, k);
      PutByte(file, oblock, o, n, text, k, c);
      PutNext(file, oblock, o, n, text, k);
      obuff[bp0] := c;
      assert obuff[..] == o[(n + k) % BLOCK := c];
      ok, tl, bp, nl := true, tl0, bp0 + 1, nl0 - 1;
      if nl == 0 {
        tl := tl + 256;
        AddressOf(tl);
        NextBlock(file, oblock, obuff[..], n);
        var buf;
        ok, buf, bp := OutBlock(tl);
        if !ok { return; }
        SameTransitive(file0, oblock0, o, file0, oblock0, obuff[..], file, oblock, obuff[..], n);
        nl := nleft;
      }
    }

    /** Write the null character that ends a line. */
    method PutEnd(bp: nat, ghost text: string)
      requires Coherent() && !ichanged && bp == (2 * tline + |text|) % BLOCK
      requires Putting(file, oblock, obuff[..], 2 * tline, text, |text|)
      modifies obuff
      ensures Coherent() && Held(file, oblock, obuff[..], tline, text) && (2 * tline + |text|) / BLOCK == oblock
      ensures SameBelow(file, oblock, old(obuff[..]), file, oblock, obuff[..], 2 * tline)
    {
      hide Held, Putting, SameBelow;
      ghost var o := obuff[..];
      PutsAt(file, oblock, o, 2 * tline, text, |text|);
      PutByte(file, oblock, o, 2 * tline, text, |text|, '\0');
      PutLast(file, oblock, o, tline, text);
      obuff[bp] := '\0';
      assert obuff[..] == o[(2 * tline + |text|) % BLOCK := '\0'];
    }

    /** Go to the block of address tline, where a line is to be put. */
    method StartOut(ghost text: string) returns (ok: bool, tl: nat, bp: nat, nl: nat)
      requires Coherent() && !ichanged && Placed()
      modifies this`nleft, this`iblock, this`oblock, this`ichanged, this`file, ibuff
      ensures Coherent() && !ichanged && oblock < 255
      ensures SameBelow(old(file), old(oblock), obuff[..], file, oblock, obuff[..], 2 * tline)
      ensures ok ==> Putting(file, oblock, obuff[..], 2 * tline, text, 0)
      ensures ok ==> bp == 2 * tline % BLOCK && nl == BLOCK - bp && tl == oblock * 256
      ensures !ok ==> oblock == old(oblock) && 2 * tline / BLOCK >= 255
    {
      hide Putting, SameBelow, BlockNo, Offset, Blocks;
      AddressOf(tline);
      BlockStart(tline, tline);
      tl := tline / 256 * 256;
      var buf;
      ok, buf, bp := OutBlock(tline);
      nl := nleft;
      if ok {
        StartPutting(old(file), old(oblock), obuff[..], oblock, 2 * tline, text);
      } else {
        SameHere(file, oblock, obuff[..], 2 * tline);
      }
    }

    /** Copy the characters of the line, from the first one on; lp counts them. */
    method PutChars(tl0: nat, bp0: nat, nl0: nat, ghost text: string) returns (ok: bool, lp: nat, bp: nat)
      requires Coherent() && !ichanged && oblock < 255 && text == linebuf[..LineEnd(linebuf[..])] && |text| < BLOCK
      requires Putting(file, oblock, obuff[..], 2 * tline, text, 0)
      requires bp0 == 2 * tline % BLOCK && nl0 == BLOCK - bp0 && tl0 == oblock * 256
      modifies this`nleft, this`iblock, this`oblock, this`ichanged, this`file, ibuff, obuff
      ensures Coherent() && !ichanged && oblock < 255
      ensures SameBelow(old(file), old(oblock), old(obuff[..]), file, oblock, obuff[..], 2 * tline)
      ensures ok ==> lp == |text| && bp == (2 * tline + lp) % BLOCK
      ensures ok ==> Putting(file, oblock, obuff[..], 2 * tline, text, lp)
      ensures !ok ==> oblock == 254 && (2 * tline + |text|) / BLOCK >= 255
    {
      hide Putting, SameBelow, Blocks;
      ghost var n := 2 * tline;
      SameHere(file, oblock, obuff[..], n);
      ok, lp, bp := true, 0, bp0;
      var tl, nl := tl0, nl0;
      while linebuf[lp] != '\0' && linebuf[lp] != '\n'
        invariant lp <= |text| && bp == (n + lp) % BLOCK && nl == BLOCK - bp && tl == oblock * 256 && oblock < 255
        invariant Coherent() && !ichanged && ok && Putting(file, oblock, obuff[..], n, text, lp)
        invariant SameBelow(old(file), old(oblock), old(obuff[..]), file, oblock, obuff[..], n)
        decreases |text| - lp
      {
        ghost var file1, oblock1, o1 := file, oblock, obuff[..];
        ok, tl, bp, nl := PutChar(linebuf[lp], tl, bp, nl, n, text, lp);
        SameTransitive(old(file), old(oblock), old(obuff[..]), file1, oblock1, o1, file, oblock, obuff[..], n);
        if !ok { return; }
        lp := lp + 1;
      }
    }

    /**
     Copy the line in the buffer to the store from address tline on, if there is
     room; lp counts the bytes of the line and the character that ends it.
     */
    method CopyLine(ghost text: string) returns (ok: bool, lp: nat)
      requires Coherent() && !ichanged && Placed() && text == linebuf[..LineEnd(linebuf[..])] && |text| < BLOCK
      modifies this`nleft, this`iblock, this`oblock, this`ichanged, this`file, this`linebp, ibuff, obuff
      ensures Coherent() && !ichanged && oblock < 255
      ensures SameBelow(old(file), old(oblock), old(obuff[..]), file, oblock, obuff[..], 2 * tline)
      ensures ok <==> (2 * tline + |text|) / BLOCK < 255
      ensures ok ==> lp == |text| + 1 && (2 * tline + |text|) / BLOCK == oblock
      ensures ok ==> Held(file, oblock, obuff[..], tline, text)
      ensures !ok ==> oblock <= 2 * tline / BLOCK <= oblock + 1
      ensures linebp == if ok && linebuf[|text|] == '\n' then lp else old(linebp)
    {
      hide Held, Putting, SameBelow, Blocks;
      ghost var file0, oblock0, obuff0 := file, oblock, obuff[..];
      ghost var n := 2 * tline;
      var tl, bp, nl;
      ok, tl, bp, nl := StartOut(text);
      lp := 0;
      if !ok { return; }
      ghost var file1, oblock1, o1 := file, oblock, obuff[..];
      PutsAt(file, oblock, obuff[..], n, text, 0);
      ok, lp, bp := PutChars(tl, bp, nl, text);
      SameTransitive(file0, oblock0, obuff0, file1, oblock1, o1, file, oblock, obuff[..], n);
      if !ok { return; }
      ghost var o := obuff[..];
      PutEnd(bp, text);
      SameTransitive(file0, oblock0, obuff0, file, oblock, o, file, oblock, obuff[..], n);
      lp := lp + 1;
      if linebuf[lp - 1] == '\n' { linebp := lp; }
    }

    /**
     Put the line in the buffer into the store, at the address returned; there is
     none when the store is full. A newline ends the line and leaves the rest of
     the buffer for later.
     */
    method PutLine() returns (r: Option<nat>)
      requires Valid() && LineEnd(linebuf[..]) < BLOCK
      modifies this, ibuff, obuff
      ensures Valid()
      ensures var n := LineEnd(linebuf[..]);
              && (r.None? <==> (2 * old(tline) + n) / BLOCK >= 255)
              && (r.None? ==> stored == old(stored) && tline == old(tline))
              && (r.Some? ==> r.value == old(tline) && r.value !in old(stored) && tline == After(old(tline), n + 1)
                              && stored == old(stored)[r.value := linebuf[..n]])
              && linebp == if r.Some? && linebuf[n] == '\n' then n + 1 else old(linebp)
    {
      hide Held, SameBelow, Blocks, After, AllHeld;
      ghost var text := linebuf[..LineEnd(linebuf[..])];
      ghost var file0, oblock0, obuff0 := file, oblock, obuff[..];
      var ok, lp := CopyLine(text);
      KeepAll(stored, tline, file0, oblock0, obuff0, file, oblock, obuff[..]);
      if !ok { return None; }
      AddHeld(stored, tline, file, oblock, obuff[..], text);
      AfterCovers(tline, lp);
      r := Some(tline);
      stored := stored[tline := text];
      tline := After(tline, lp);
    }

    /** A buffer with the block of an address, to be read. */
    method InBlock(tl: nat) returns (buf: array<char>, bp: nat)
      requires Coherent() && !ichanged && BlockNo(tl) <= oblock < 255
      modifies this`nleft, this`iblock, this`oblock, this`ichanged, this`file, ibuff
      ensures Coherent() && !ichanged && file == old(file) && oblock == old(oblock)
      ensures bp == Offset(tl) && nleft == BLOCK - bp && (buf == ibuff || buf == obuff)
      ensures buf[..] == Block(file, oblock, obuff[..], BlockNo(tl))
    {
      hide BlockNo, Offset;
      var ok;
      ok, buf, bp := GetBlock(tl, false);
    }

    /** The buffer buf holds the block of byte x, at bp. */
    ghost predicate ReadsAt(buf: array<char>, bp: nat, nl: int, tl: nat, x: nat)
      reads this, ibuff, obuff, buf
    {
      && Coherent() && !ichanged && x / BLOCK <= oblock < 255 && (buf == ibuff || buf == obuff)
      && buf[..] == Block(file, oblock, obuff[..], x / BLOCK)
      && bp == x % BLOCK && nl == BLOCK - bp && tl == x / BLOCK * 256
    }

    /** After byte x is read, go on to the next, which may be in the next block. */
    method NextIn(buf0: array<char>, tl0: nat, bp0: nat, nl0: nat, ghost x: nat)
      returns (buf: array<char>, tl: nat, bp: nat, nl: nat)
      requires ReadsAt(buf0, bp0, nl0, tl0, x) && (x + 1) / BLOCK <= oblock
      modifies this`nleft, this`iblock, this`oblock, this`ichanged, this`file, ibuff
      ensures ReadsAt(buf, bp, nl, tl, x + 1) && file == old(file) && oblock == old(oblock)
    {
      hide BlockNo, Offset, Block;
      buf, tl, bp, nl := buf0, tl0, bp0 + 1, nl0 - 1;
      if nl == 0 {
        tl := tl + 256;
        AddressOf(tl);
        buf, bp := InBlock(tl);
        nl := nleft;
      }
    }

    /** Go to the block of an address. */
    method StartIn(tl0: nat, ghost t: nat) returns (buf: array<char>, tl: nat, bp: nat, nl: nat)
      requires Coherent() && !ichanged && t == tl0 - tl0 % 2 && tl0 < 0x1_0000 && 2 * t / BLOCK <= oblock < 255
      modifies this`nleft, this`iblock, this`oblock, this`ichanged, this`file, ibuff
      ensures ReadsAt(buf, bp, nl, tl, 2 * t) && file == old(file) && oblock == old(oblock)
    {
      hide BlockNo, Offset, Block, Blocks;
      AddressOf(tl0);
      buf, bp := InBlock(tl0);
      nl := nleft;
      tl := tl0 / 256 * 256;
      BlockStart(tl0, t);
    }

    /** The byte that is read next, which is of a text that is held. */
    lemma ByteRead(buf: array<char>, bp: nat, nl: int, tl: nat, t: nat, text: string, k: nat)
      requires ReadsAt(buf, bp, nl, tl, 2 * t + k)
      requires Held(file, oblock, obuff[..], t, text) && IsText(text) && k <= |text|
      ensures buf != linebuf && bp < buf.Length && buf[bp] == if k < |text| then text[k] else '\0'
      ensures k < |text| ==> text[k] != '\0' && (2 * t + k + 1) / BLOCK <= oblock
    {
      hide Blocks, Held, Block;
      HeldByte(file, oblock, obuff[..], t, text, k);
      if k < |text| { HeldByte(file, oblock, obuff[..], t, text, k + 1); }
      assert buf[bp] == buf[..][bp];
    }

    /** Copy a text that is held to the line buffer. */
    method ReadLine(tl0: nat, ghost t: nat, ghost text: string)
      requires Coherent() && !ichanged && t == tl0 - tl0 % 2 && tl0 < 0x1_0000 && oblock < 255
      requires Held(file, oblock, obuff[..], t, text) && IsText(text)
      modifies this`nleft, this`iblock, this`oblock, this`ichanged, this`file, ibuff, linebuf
      ensures Coherent() && !ichanged && file == old(file) && oblock == old(oblock)
      ensures linebuf[..|text|] == text && linebuf[|text|] == '\0'
    {
      hide Blocks, Held, Block, LineEnd;
      HeldByte(file, oblock, obuff[..], t, text, 0);
      var lp := 0;
      var buf, tl, bp, nl := StartIn(tl0, t);
      while true
        invariant lp <= |text| && file == old(file) && oblock == old(oblock)
        invariant ReadsAt(buf, bp, nl, tl, 2 * t + lp) && linebuf[..lp] == text[..lp]
        decreases |text| - lp
      {
        ByteRead(buf, bp, nl, tl, t, text, lp);
        var c := buf[bp];
        linebuf[lp] := c;
        if c == '\0' { break; }
        assert linebuf[..lp + 1] == text[..lp + 1];
        buf, tl, bp, nl := NextIn(buf, tl, bp, nl, 2 * t + lp);
        lp := lp + 1;
      }
    }

    /** Get the line at an address, with or without the mark, into the buffer. */
    method GetLine(tl: nat)
      requires Valid() && tl - tl % 2 in stored
      modifies this`nleft, this`iblock, this`oblock, this`ichanged, this`file, ibuff, linebuf
      ensures Valid()
      ensures var text := stored[tl - tl % 2]; linebuf[..|text|] == text && linebuf[|text|] == '\0'
    {
      hide Held, AllHeld, Blocks;
      ghost var t := tl - tl % 2;
      StoredAt(stored, tline, file, oblock, obuff[..], t);
      ReadLine(tl, t, stored[t]);
    }
  }

  // ----- whole runs -----

  /** Put a line, or get the n-th line put, through its address with or without a mark. */
  datatype Op = Put(text: string) | Get(n: nat, marked: bool)

  /** The lines put by the first n operations. */
  ghost function PutBy(ops: seq<Op>, n: nat): seq<string>
    requires n <= |ops|
  {
    if n == 0 then [] else PutBy(ops, n - 1) + if ops[n - 1].Put? then [ops[n - 1].text] else []
  }

  /** The lines that the first n operations should get. */
  ghost function GotBy(ops: seq<Op>, n: nat): seq<string>
    requires n <= |ops|
  {
    if n == 0 then []
    else
      var lines := PutBy(ops, n - 1);
      var op := ops[n - 1];
      GotBy(ops, n - 1) + if op.Get? && op.n < |lines| then [lines[op.n]] else []
  }

  /** The address for the line after these. */
  ghost function AddressAfter(lines: seq<string>): nat {
    if lines == [] then 2 else After(AddressAfter(lines[..|lines| - 1]), |lines[|lines| - 1]| + 1)
  }

  lemma NoLines()
    ensures AddressAfter([]) == 2
  {
  }

  lemma OneMoreLine(lines: seq<string>, text: string)
    ensures AddressAfter(lines + [text]) == After(AddressAfter(lines), |text| + 1)
  {
    assert (lines + [text])[..|lines|] == lines;
  }

  /** The address of every line put so far. */
  ghost predicate AddressesOf(addr: seq<nat>, lines: seq<string>, stored: map<nat, string>) {
    && |addr| == |lines|
    && forall k :: 0 <= k < |addr| ==> addr[k] in stored && addr[k] % 2 == 0 && stored[addr[k]] == lines[k]
  }

  method SetLine(s: Store, text: string)
    requires s.Valid() && IsText(text)
    modifies s.linebuf
    ensures s.Valid() && LineEnd(s.linebuf[..]) == |text| && s.linebuf[..|text|] == text
  {
    hide AllHeld, Blocks;
    for i := 0 to |text|
      invariant s.Valid() && s.linebuf[..i] == text[..i]
    {
      s.linebuf[i] := text[i];
    }
    s.linebuf[|text|] := '\0';
    assert forall i :: 0 <= i < |text| ==> s.linebuf[i] == text[i];
  }

  method TakeLine(s: Store, ghost text: string) returns (r: string)
    requires s.Valid() && IsText(text) && s.linebuf[..|text|] == text && s.linebuf[|text|] == '\0'
    ensures r == text
  {
    hide AllHeld, Blocks;
    r := [];
    while s.linebuf[|r|] != '\0'
      invariant |r| <= |text| && r == text[..|r|]
      decreases |text| - |r|
    {
      assert s.linebuf[..|text|][|r|] == text[|r|];
      r := r + [s.linebuf[|r|]];
    }
  }

  /** Put one more line, unless the store is full. */
  method PutOne(s: Store, text: string, addr0: seq<nat>, ghost lines: seq<string>) returns (ok: bool, addr: seq<nat>)
    requires s.Valid() && IsText(text) && AddressesOf(addr0, lines, s.stored) && s.tline == AddressAfter(lines)
    modifies s, s.ibuff, s.obuff, s.linebuf
    ensures s.Valid()
    ensures ok ==> AddressesOf(addr, lines + [text], s.stored) && s.tline == AddressAfter(lines + [text])
    ensures !ok ==> (2 * AddressAfter(lines) + |text|) / BLOCK >= 255
  {
    hide AllHeld, Blocks, LineEnd, After, AddressAfter, AddressesOf;
    SetLine(s, text);
    ghost var stored := s.stored;
    var t := s.PutLine();
    ok := t.Some?;
    if !ok { return false, addr0; }
    OneMoreLine(lines, text);
    addr := addr0 + [t.value];
    AddressesMore(addr0, lines, stored, t.value, text);
  }

  lemma AddressesMore(addr: seq<nat>, lines: seq<string>, stored: map<nat, string>, t: nat, text: string)
    requires AddressesOf(addr, lines, stored) && t !in stored && t % 2 == 0
    ensures AddressesOf(addr + [t], lines + [text], stored[t := text])
  {
  }

  /** Get a line back through its address, with or without the mark. */
  method GetOne(s: Store, n: nat, marked: bool, addr: seq<nat>, ghost lines: seq<string>) returns (line: string)
    requires s.Valid() && AddressesOf(addr, lines, s.stored) && n < |addr|
    modifies s, s.ibuff, s.obuff, s.linebuf
    ensures s.Valid() && s.stored == old(s.stored) && s.tline == old(s.tline) && line == lines[n]
  {
    hide AllHeld, Blocks;
    StoredAt(s.stored, s.tline, s.file, s.oblock, s.obuff[..], addr[n]);
    s.GetLine(if marked then addr[n] + 1 else addr[n]);
    line := TakeLine(s, lines[n]);
  }

  /** Over every run from a new store, and until it is full, each line is got back as it was put. */
  method Replay(ops: seq<Op>) returns (got: seq<string>, n: nat)
    requires forall i :: 0 <= i < |ops| && ops[i].Put? ==> IsText(ops[i].text)
    ensures n <= |ops| && got == GotBy(ops, n)
    ensures n < |ops| ==> ops[n].Put? && (2 * AddressAfter(PutBy(ops, n)) + |ops[n].text|) / BLOCK >= 255
  {
    hide AllHeld, Blocks, AddressAfter, AddressesOf;
    NoLines();
    var s := new Store();
    var addr := [];
    NoAddresses(s.stored);
    got := [];
    n := 0;
    while n < |ops|
      invariant n <= |ops| && s.Valid() && fresh(s) && fresh(s.ibuff) && fresh(s.obuff) && fresh(s.linebuf)
      invariant got == GotBy(ops, n) && AddressesOf(addr, PutBy(ops, n), s.stored)
      invariant s.tline == AddressAfter(PutBy(ops, n))
      modifies s, s.ibuff, s.obuff, s.linebuf
      decreases |ops| - n
    {
      var op := ops[n];
      SameCount(addr, PutBy(ops, n), s.stored);
      assert PutBy(ops, n + 1) == if op.Put? then PutBy(ops, n) + [op.text] else PutBy(ops, n);
      if op.Put? {
        var ok;
        ok, addr := PutOne(s, op.text, addr, PutBy(ops, n));
        if !ok { return; }
      } else if op.n < |addr| {
        var line := GetOne(s, op.n, op.marked, addr, PutBy(ops, n));
        got := got + [line];
      }
      n := n + 1;
    }
  }

  lemma NoAddresses(stored: map<nat, string>)
    ensures AddressesOf([], [], stored)
  {
  }

  lemma SameCount(addr: seq<nat>, lines: seq<string>, stored: map<nat, string>)
    requires AddressesOf(addr, lines, stored)
    ensures |addr| == |lines|
  {
  }
}
