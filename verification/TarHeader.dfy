/**
 The size of a file in a tar(1) header: octal text in a field of twelve
 characters, next to the text of the time.  It reads back as the size written,
 unless it has more than eleven digits.
 */
module TarHeader {
  import opened Tar

  const SIZE_AT := 124
  const MTIME_AT := 136
  const LINKFLAG_AT := 156

  function Pow8(k: nat): (p: nat)
    ensures p >= 1
  {
    if k == 0 then 1 else 8 * Pow8(k - 1)
  }

  // ----- octal text -----

  predicate IsOctal(c: char) {
    '0' <= c <= '7'
  }

  ghost predicate AllOctal(s: string) {
    forall i :: 0 <= i < |s| ==> IsOctal(s[i])
  }

  function Digit(d: nat): char
    requires d < 8
  {
    '0' + (d as char)
  }

  /** The digits of a number, without leading zeros. */
  function Octal(n: nat): (s: string)
    ensures s != [] && AllOctal(s) && (n > 0 ==> s[0] != '0')
  {
    if n < 8 then [Digit(n)] else Octal(n / 8) + [Digit(n % 8)]
  }

  function OctalValue(s: string): nat
    requires AllOctal(s)
  {
    if s == [] then 0 else 8 * OctalValue(s[..|s| - 1]) + (s[|s| - 1] - '0') as nat
  }

  lemma {:induction false} OctalRoundTrip(n: nat)
    ensures OctalValue(Octal(n)) == n
  {
    if n >= 8 {
      OctalRoundTrip(n / 8);
      assert Octal(n)[..|Octal(n)| - 1] == Octal(n / 8);
    }
  }

  /** A number has one text without leading zeros. */
  lemma {:induction false} ValueRoundTrip(s: string)
    requires s != [] && AllOctal(s) && s[0] != '0'
    ensures OctalValue(s) > 0 && Octal(OctalValue(s)) == s
    decreases |s|
  {
    var init, last := s[..|s| - 1], s[|s| - 1];
    assert s == init + [last];
    if init != [] {
      ValueRoundTrip(init);
      assert OctalValue(s) / 8 == OctalValue(init);
    }
  }

  lemma {:induction false} OctalLength(n: nat, k: nat)
    requires k > 0
    ensures |Octal(n)| <= k <==> n < Pow8(k)
    decreases k
  {
    if k == 1 {
      assert Pow8(1) == 8 * Pow8(0);
    } else if n >= 8 {
      OctalLength(n / 8, k - 1);
    } else {
      assert Pow8(k) == 8 * Pow8(k - 1);
    }
  }

  // ----- writing and reading a field -----

  function Blanks(n: nat): (s: string)
    ensures |s| == n
  {
    if n == 0 then [] else [' '] + Blanks(n - 1)
  }

  /** A number in at least eleven places, and a blank. */
  function FieldText(n: nat): (s: string)
    ensures |s| == if |Octal(n)| < 11 then 12 else |Octal(n)| + 1
  {
    (if |Octal(n)| < 11 then Blanks(11 - |Octal(n)|) else []) + Octal(n) + [' ']
  }

  /** Text and a null character stored at a place of a header. */
  function Put(h: Block, at: nat, text: string): (g: Block)
    requires at + |text| < |h|
    ensures |g| == |h|
  {
    h[..at] + text + ['\0'] + h[at + |text| + 1..]
  }

  /** A header with a size and a time in it. */
  function Stamped(h: Block, size: nat, mtime: nat): (g: Block)
    requires SIZE_AT + |FieldText(size)| < |h| && MTIME_AT + |FieldText(mtime)| < |h|
    ensures |g| == |h|
  {
    Put(Put(h, SIZE_AT, FieldText(size)), MTIME_AT, FieldText(mtime))
  }

  function SkipBlanks(s: string): string {
    if s != [] && s[0] == ' ' then SkipBlanks(s[1..]) else s
  }

  function LeadingDigits(s: string): (d: string)
    ensures AllOctal(d) && d <= s
  {
    if s != [] && IsOctal(s[0]) then [s[0]] + LeadingDigits(s[1..]) else []
  }

  /** Blanks are passed over, and digits read up to the first other character. */
  function ScanOctal(s: string): nat {
    OctalValue(LeadingDigits(SkipBlanks(s)))
  }

  function SizeOf(h: Block): nat {
    if |h| < TBLOCK then 0 else ScanOctal(h[SIZE_AT..])
  }

  lemma {:induction false} SkipsBlanks(n: nat, s: string)
    ensures SkipBlanks(Blanks(n) + s) == SkipBlanks(s)
  {
    if n > 0 {
      var t := Blanks(n - 1) + s;
      SkipsBlanks(n - 1, s);
      assert Blanks(n) + s == [' '] + t && ([' '] + t)[1..] == t;
    } else {
      assert Blanks(0) + s == s;
    }
  }

  lemma {:induction false} DigitsFirst(x: string, s: string)
    requires AllOctal(x)
    ensures LeadingDigits(x + s) == x + LeadingDigits(s)
    decreases |x|
  {
    hide LeadingDigits;
    if x == [] {
      assert x + s == s;
    } else {
      var c, r := x[0], x[1..];
      assert x == [c] + r;
      assert x + s == [c] + (r + s);
      assert IsOctal(c);
      DigitFirst(c, r + s);
      DigitsFirst(r, s);
      assert x + LeadingDigits(s) == [c] + (r + LeadingDigits(s));
    }
  }

  lemma DigitFirst(c: char, s: string)
    requires IsOctal(c)
    ensures LeadingDigits([c] + s) == [c] + LeadingDigits(s)
  {
    assert ([c] + s)[1..] == s;
  }

  lemma DigitNext(s: string)
    requires s != [] && !IsOctal(s[0])
    ensures LeadingDigits(s) == []
  {
  }

  lemma NoBlanks(s: string)
    requires s != [] && s[0] != ' '
    ensures SkipBlanks(s) == s
  {
  }

  /** Digits up to a character that is none. */
  lemma DigitsUpTo(x: string, s: string)
    requires AllOctal(x) && s != [] && !IsOctal(s[0])
    ensures LeadingDigits(x + s) == x
  {
    hide LeadingDigits;
    DigitsFirst(x, s);
    DigitNext(s);
  }

  /** What is read from the text of a number does not depend on what follows. */
  lemma FieldDigits(n: nat, s: string)
    ensures LeadingDigits(FieldText(n) + s) == if |Octal(n)| < 11 then [] else Octal(n)
  {
    var x := Octal(n);
    if |x| < 11 {
      assert Blanks(11 - |x|)[0] == ' ';
    } else {
      assert FieldText(n) + s == x + ([' '] + s);
      DigitsUpTo(x, [' '] + s);
    }
  }

  // ----- the size reads back -----

  /** The size field keeps twelve characters of its text; those of the time stand behind it. */
  lemma StampedFields(h: Block, size: nat, mtime: nat)
    requires SIZE_AT + |FieldText(size)| < |h| && MTIME_AT + |FieldText(mtime)| < |h|
    ensures exists rest :: Stamped(h, size, mtime)[SIZE_AT..] == FieldText(size)[..12] + (FieldText(mtime) + rest)
  {
    hide FieldText;
    var x, y := FieldText(size), FieldText(mtime);
    var g := Put(h, SIZE_AT, x);
    assert g[SIZE_AT..MTIME_AT] == x[..12];
    var rest := ['\0'] + g[MTIME_AT + |y| + 1..];
    assert Put(g, MTIME_AT, y)[SIZE_AT..] == g[SIZE_AT..MTIME_AT] + (y + rest);
  }

  /** Eleven digits leave room for the blank that ends them. */
  lemma ShortSize(n: nat, s: string)
    requires n < Pow8(11)
    ensures ScanOctal(FieldText(n)[..12] + s) == n
  {
    hide Octal, OctalValue, LeadingDigits, SkipBlanks, Blanks, Pow8;
    var x := Octal(n);
    OctalLength(n, 11);
    var k := 11 - |x|;
    assert FieldText(n)[..12] == FieldText(n) == Blanks(k) + x + [' '];
    var z := [' '] + s;
    assert FieldText(n)[..12] + s == Blanks(k) + (x + z);
    SkipsBlanks(k, x + z);
    assert IsOctal(x[0]);
    NoBlanks(x + z);
    DigitsUpTo(x, z);
    OctalRoundTrip(n);
  }

  /** The digits of a number that a field of twelve characters does not hold. */
  function Beyond(n: nat): string {
    if |Octal(n)| <= 12 then [] else Octal(n)[12..]
  }

  /** Of more digits twelve are kept, and digits that follow the field are read as well. */
  lemma LongSize(n: nat, y: string)
    requires n >= Pow8(11)
    ensures ScanOctal(FieldText(n)[..12] + y) == n <==> Beyond(n) == LeadingDigits(y)
  {
    hide Octal, OctalValue, LeadingDigits, SkipBlanks, Pow8;
    var x := Octal(n);
    OctalLength(n, 11);
    var kept := x[..12];
    assert FieldText(n)[..12] == kept;
    assert IsOctal(x[0]);
    DigitsFirst(kept, y);
    NoBlanks(kept + y);
    SameNumber(n, kept + LeadingDigits(y));
    assert x == kept + Beyond(n);
    assert (kept + Beyond(n))[12..] == Beyond(n) && (kept + LeadingDigits(y))[12..] == LeadingDigits(y);
  }

  lemma SameNumber(n: nat, s: string)
    requires s != [] && AllOctal(s) && s[0] != '0'
    ensures OctalValue(s) == n <==> s == Octal(n)
  {
    hide Octal, OctalValue;
    OctalRoundTrip(n);
    ValueRoundTrip(s);
  }

  /** The digits of a time that stand at the very start of its field. */
  function TimeDigits(mtime: nat): string {
    if |Octal(mtime)| < 11 then [] else Octal(mtime)
  }

  /**
   The size in a header reads back exactly if it has at most eleven digits, or
   if the time happens to supply the digits that were lost.
   */
  lemma SizeReadsBack(h: Block, size: nat, mtime: nat)
    requires |h| == TBLOCK && SIZE_AT + |FieldText(size)| < |h| && MTIME_AT + |FieldText(mtime)| < |h|
    ensures SizeOf(Stamped(h, size, mtime)) == size <==> size < Pow8(11) || Beyond(size) == TimeDigits(mtime)
  {
    hide FieldText, Octal, OctalValue, ScanOctal, Stamped, Pow8;
    StampedFields(h, size, mtime);
    var rest :| Stamped(h, size, mtime)[SIZE_AT..] == FieldText(size)[..12] + (FieldText(mtime) + rest);
    if size < Pow8(11) {
      ShortSize(size, FieldText(mtime) + rest);
    } else {
      FieldDigits(mtime, rest);
      LongSize(size, FieldText(mtime) + rest);
    }
  }

  /** Sizes of twelve digits read back exactly beside times of at most ten. */
  lemma TwelveDigits(h: Block, size: nat, mtime: nat)
    requires |h| == TBLOCK && Pow8(11) <= size < Pow8(12) && MTIME_AT + |FieldText(mtime)| < |h|
    ensures SIZE_AT + |FieldText(size)| < |h|
    ensures SizeOf(Stamped(h, size, mtime)) == size <==> mtime < Pow8(10)
  {
    hide Octal, SizeOf, Stamped, Pow8;
    OctalLength(size, 12);
    OctalLength(mtime, 10);
    SizeReadsBack(h, size, mtime);
  }

  // ----- the format of archives -----

  function UpToNull(s: string): string {
    if s == [] || s[0] == '\0' then [] else [s[0]] + UpToNull(s[1..])
  }

  function NameOf(h: Block): string {
    UpToNull(h)
  }

  function LinkOf(h: Block): char {
    if |h| < TBLOCK then '\0' else h[LINKFLAG_AT]
  }

  const STANDARD := Format(NameOf, SizeOf, LinkOf)

  lemma {:induction false} NullsAt(n: nat)
    ensures |Nulls(n)| == n && (n > 0 ==> Nulls(n)[0] == '\0')
  {
    if n > 0 { NullsAt(n - 1); }
  }

  lemma StandardIsFormat()
    ensures IsFormat(STANDARD)
  {
    NullsAt(TBLOCK);
  }

  /** A long of the machine: sizes and times. */
  const LONG := 0x1_0000_0000

  /** As many blocks follow the header of a regular file as its size asks for. */
  lemma FileBlocks(h: Block, size: nat, mtime: nat, input: seq<Read>)
    requires |h| == TBLOCK && h[LINKFLAG_AT] != '1' && size < LONG && mtime < LONG && IsInput(input)
    ensures SIZE_AT + |FieldText(size)| < |h| && MTIME_AT + |FieldText(mtime)| < |h|
    ensures var e := Regular(Stamped(h, size, mtime), input);
            IsEntry(STANDARD, e) && EntryBlocks(STANDARD, e) == [e.header] + DataOf(input, BlocksFor(size))
  {
    hide Octal, SizeOf, DataOf;
    Pow8Eleven();
    OctalLength(size, 11);
    OctalLength(mtime, 11);
    SizeReadsBack(h, size, mtime);
  }

  lemma Pow8Eleven()
    ensures Pow8(11) == 0x2_0000_0000
  {
    assert Pow8(4) == 4096;
    assert Pow8(8) == 0x100_0000;
  }
}
