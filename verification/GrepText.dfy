/**
 The language of grep patterns: which text stands for which items, as a relation
 between positions.  The grammar accepts exactly the texts of this language that
 fit the code array, and reads the items they stand for.
 */
module GrepText {
  import opened Grep

  // ----- classes -----

  /** In the class whose text starts at `a`, the minus sign at `x` makes a range: it is not the end of one itself. */
  predicate MakesRange(pat: string, a: nat, x: nat)
    decreases x
  {
    a < x && x + 1 < |pat| && pat[x] == '-' && pat[x + 1] != ']' && !MakesRange(pat, a, x - 1)
  }

  /** The character at `x` stands for itself. */
  predicate StandsAlone(pat: string, a: nat, x: nat) {
    a <= x && !MakesRange(pat, a, x) && (a < x ==> !MakesRange(pat, a, x - 1))
  }

  /** The class ends at `z`: the first bracket after its first character. */
  ghost predicate IsClose(pat: string, a: nat, z: nat) {
    a < z < |pat| && pat[z] == ']' && forall k :: a < k < z ==> pat[k] != ']'
  }

  /** The text from `a` up to `z` names the character `c`: by itself, in a range, or as the start of one. */
  ghost predicate Names(pat: string, a: nat, z: nat, c: char)
    requires z <= |pat|
  {
    || (exists x: nat :: x < z && StandsAlone(pat, a, x) && pat[x] == c)
    || (exists x: nat ::
          a < x && x + 1 < z && MakesRange(pat, a, x) && (c == pat[x - 1] || Between(pat[x - 1], c, pat[x + 1])))
  }

  lemma RangeInside(pat: string, a: nat, x: nat)
    requires MakesRange(pat, a, x)
    ensures a < x && x + 1 < |pat| && pat[x] == '-' && pat[x + 1] != ']'
    ensures !MakesRange(pat, a, x - 1) && !MakesRange(pat, a, x + 1)
  {
  }

  lemma NamesOne(pat: string, a: nat, k: nat, c: char)
    requires k < |pat| && StandsAlone(pat, a, k)
    ensures Names(pat, a, k + 1, c) <==> Names(pat, a, k, c) || c == pat[k]
  {
    hide MakesRange, Between;
    if x: nat :| a < x && x + 1 < k + 1 && MakesRange(pat, a, x)
                 && (c == pat[x - 1] || Between(pat[x - 1], c, pat[x + 1])) {
      RangeInside(pat, a, x);
      assert x + 1 < k;
    }
  }

  lemma NamesRange(pat: string, a: nat, k: nat, c: char)
    requires MakesRange(pat, a, k)
    ensures 0 < k && k + 2 <= |pat|
    ensures Names(pat, a, k + 2, c) <==>
              Names(pat, a, k, c) || c == pat[k - 1] || Between(pat[k - 1], c, pat[k + 1])
  {
    hide MakesRange, Between;
    RangeInside(pat, a, k);
    if x: nat :| x < k + 2 && StandsAlone(pat, a, x) && pat[x] == c {
      assert x < k;
    }
    if x: nat :| a < x && x + 1 < k + 2 && MakesRange(pat, a, x)
                 && (c == pat[x - 1] || Between(pat[x - 1], c, pat[x + 1])) {
      RangeInside(pat, a, x);
      assert x == k || x + 1 < k;
    }
  }

  /** How far a class is read: the characters seen are those named so far. */
  ghost predicate Collected(pat: string, a: nat, k: nat, seen: set<char>) {
    && a <= k <= |pat| && (a < k ==> !MakesRange(pat, a, k - 1))
    && (forall x :: a < x <= k && x < |pat| ==> pat[x] != ']')
    && forall c :: c in seen <==> Names(pat, a, k, c)
  }

  /** What is made of a class that starts at `a`. */
  ghost predicate IsRead(pat: string, a: nat, o: ClassOutcome) {
    if o.ClassOk? then
      && a < o.next <= |pat| && IsClose(pat, a, o.next - 1)
      && forall c :: c in o.chars <==> Names(pat, a, o.next - 1, c)
    else forall z: nat :: !IsClose(pat, a, z)
  }

  lemma NeverClosed(pat: string, a: nat, o: ClassOutcome)
    requires !o.ClassOk? && forall x :: a < x < |pat| ==> pat[x] != ']'
    ensures IsRead(pat, a, o)
  {
  }

  /** What was read up to `q`, which is the end of the class or not. */
  lemma ReadUpTo(pat: string, a: nat, q: nat, more: set<char>)
    requires a < q <= |pat| && !MakesRange(pat, a, q - 1) && forall x :: a < x < q ==> pat[x] != ']'
    requires forall c :: c in more <==> Names(pat, a, q, c)
    ensures if q < |pat| && pat[q] == ']' then IsRead(pat, a, ClassOk(more, q + 1)) else Collected(pat, a, q, more)
  {
    hide MakesRange, Names;
  }

  lemma SeenOne(pat: string, a: nat, k: nat, seen: set<char>, more: set<char>)
    requires Collected(pat, a, k, seen) && k < |pat| && !MakesRange(pat, a, k) && more == seen + {pat[k]}
    ensures forall c :: c in more <==> Names(pat, a, k + 1, c)
  {
    hide MakesRange, Names;
    forall c: char
      ensures c in more <==> Names(pat, a, k + 1, c)
    {
      NamesOne(pat, a, k, c);
    }
  }

  lemma SeenRange(pat: string, a: nat, k: nat, seen: set<char>, more: set<char>)
    requires Collected(pat, a, k, seen) && MakesRange(pat, a, k) && 0 < k && k + 1 < |pat|
    requires more == seen + Range(pat[k - 1], pat[k + 1])
    ensures forall c :: c in more <==> Names(pat, a, k + 2, c)
  {
    hide MakesRange, Names, Between;
    RangeInside(pat, a, k);
    forall c: char
      ensures c in more <==> Names(pat, a, k + 2, c)
    {
      NamesRange(pat, a, k, c);
    }
  }

  lemma RangeHere(pat: string, a: nat, k: nat)
    requires a <= k < |pat| && (a < k ==> !MakesRange(pat, a, k - 1))
    ensures IsRange(pat, a, k) && k + 1 < |pat| <==> MakesRange(pat, a, k)
  {
  }

  lemma {:induction false} ClassFromMeans(pat: string, a: nat, k: nat, seen: set<char>)
    requires Collected(pat, a, k, seen)
    ensures IsRead(pat, a, ClassFrom(pat, a, k, seen))
    decreases |pat| - k
  {
    hide MakesRange, Names, IsRead, Range, IsRange;
    var o := ClassFrom(pat, a, k, seen);
    if k == |pat| || (IsRange(pat, a, k) && k + 1 == |pat|) {
      NeverClosed(pat, a, o);
    } else {
      RangeHere(pat, a, k);
      if IsRange(pat, a, k) {
        RangeInside(pat, a, k);
        var more := seen + Range(pat[k - 1], pat[k + 1]);
        SeenRange(pat, a, k, seen, more);
        ReadUpTo(pat, a, k + 2, more);
        if !(k + 2 < |pat| && pat[k + 2] == ']') { ClassFromMeans(pat, a, k + 2, more); }
      } else {
        var more := seen + {pat[k]};
        SeenOne(pat, a, k, seen, more);
        ReadUpTo(pat, a, k + 1, more);
        if !(k + 1 < |pat| && pat[k + 1] == ']') { ClassFromMeans(pat, a, k + 1, more); }
      }
    }
  }

  /** From `i`, after its opening bracket, up to `q`, the pattern has a class of these characters. */
  ghost predicate ClassIn(pat: string, i: nat, q: nat, chars: set<char>) {
    0 < q <= |pat| && i < |pat| &&
    if pat[i] == '^' then
      IsClose(pat, i + 1, q - 1) && forall c :: c in chars <==> 0 < c as int < 128 && !Names(pat, i + 1, q - 1, c)
    else
      IsClose(pat, i, q - 1) && forall c :: c in chars <==> Names(pat, i, q - 1, c)
  }

  /** A class is accepted exactly if its bracket is closed, and has the characters its text names, or all others. */
  lemma ClassMeans(pat: string, i: nat, q: nat, chars: set<char>)
    ensures ParseClass(pat, i) == ClassOk(chars, q) <==> ClassIn(pat, i, q, chars)
  {
    hide MakesRange, Names, ClassFrom, IsClose;
    if i < |pat| {
      var a := if pat[i] == '^' then i + 1 else i;
      NothingSeen(pat, a);
      ClassFromMeans(pat, a, a, {});
      var o := ClassFrom(pat, a, a, {});
      if ClassIn(pat, i, q, chars) {
        OneClose(pat, a, o.next - 1, q - 1);
        SameClass(pat, i, q, chars, o.chars);
      }
    } else {
      NoClass(pat, i);
    }
  }

  lemma OneClose(pat: string, a: nat, z: nat, z': nat)
    requires IsClose(pat, a, z) && IsClose(pat, a, z')
    ensures z == z'
  {
  }

  lemma SameClass(pat: string, i: nat, q: nat, chars: set<char>, named: set<char>)
    requires ClassIn(pat, i, q, chars)
    requires forall c :: c in named <==> Names(pat, if pat[i] == '^' then i + 1 else i, q - 1, c)
    ensures chars == if pat[i] == '^' then Others(named) else named
  {
    hide MakesRange, Names, IsClose;
  }

  lemma NoClass(pat: string, i: nat)
    requires i >= |pat|
    ensures ParseClass(pat, i) == ClassError
  {
  }

  lemma NothingSeen(pat: string, a: nat)
    requires a <= |pat|
    ensures Collected(pat, a, a, {})
  {
  }

  // ----- items -----

  /** Characters that do not stand for themselves. */
  predicate IsMagic(c: char) {
    c == '.' || c == '[' || c == '\\' || c == '*'
  }

  /** Characters that a backslash gives a meaning to. */
  predicate IsQuoted(c: char) {
    c == '<' || c == '>' || c == '(' || c == ')' || '1' <= c <= '9'
  }

  /** From `i` to `j`, the pattern has an atom for a single character. */
  ghost predicate SingleIn(pat: string, i: nat, j: nat, a: Atom) {
    && i < j <= |pat|
    && match a
       case Chr(c) =>
         || (j == i + 1 && pat[i] == c && !IsMagic(c) && !(c == '$' && j == |pat|))
         || (j == i + 2 && pat[i] == '\\' && pat[i + 1] == c && !IsQuoted(c))
       case Dot => j == i + 1 && pat[i] == '.'
       case Class(chars) => pat[i] == '[' && ClassIn(pat, i + 1, j, chars)
       case _ => false
  }

  /** From `j` to `k`, the pattern has stars, and no other one follows. */
  ghost predicate IsStars(pat: string, j: nat, k: nat) {
    && j <= k <= |pat| && (forall m :: j <= m < k ==> pat[m] == '*')
    && !(k < |pat| && pat[k] == '*')
  }

  /** A single character and the stars after it. */
  ghost predicate RepeatIn(pat: string, i: nat, k: nat, x: Item) {
    exists j: nat :: SingleIn(pat, i, j, x.atom) && IsStars(pat, j, k) && (x.starred <==> j < k)
  }

  /**
   From `i` to `k`, the pattern has the item `x`.  Groups are numbered in order; a
   group is closed after those opened later.  A star that follows no single
   character stands for itself.
   */
  ghost predicate ItemIn(pat: string, i: nat, k: nat, x: Item, numbra: nat, open: seq<nat>) {
    && i < k <= |pat|
    && match x.atom
       case Open(n) => !x.starred && k == i + 2 && pat[i] == '\\' && pat[i + 1] == '(' && n == numbra < NBRA
       case Close(n) =>
         && !x.starred && k == i + 2 && pat[i] == '\\' && pat[i + 1] == ')'
         && open != [] && n == open[|open| - 1]
       case Dol => !x.starred && k == i + 1 == |pat| && pat[i] == '$'
       case _ => (x == Item(Chr('*'), false) && k == i + 1 && pat[i] == '*') || RepeatIn(pat, i, k, x)
  }

  /** From `i` to its end, the pattern has these items. */
  ghost predicate ItemsIn(pat: string, i: nat, e: seq<Item>, numbra: nat, open: seq<nat>)
    decreases |e|
  {
    if e == [] then i == |pat|
    else
      exists k: nat ::
        && ItemIn(pat, i, k, e[0], numbra, open)
        && ItemsIn(pat, k, e[1..], GroupsAfter(e[0].atom, numbra), OpenAfter(e[0].atom, open))
  }

  /** There is room for the codes of the items after codes of `size` bytes. */
  predicate HasRoom(e: seq<Item>, size: nat)
    decreases |e|
  {
    && size < ESIZE
    && (e != [] ==> (e[0].atom.Class? ==> size + 17 < ESIZE) && HasRoom(e[1..], size + Size(e[0].atom)))
  }

  // ----- tokens are items -----

  lemma {:induction false} StarsTo(pat: string, j: nat, k: nat)
    requires j <= |pat|
    ensures IsStars(pat, j, k) <==> k == AfterStars(pat, j)
    decreases |pat| - j
  {
    if j < |pat| && pat[j] == '*' { StarsTo(pat, j + 1, k); }
  }

  /** The token of a single character that is no group, end of line or star. */
  predicate IsOne(t: Token) {
    t.Token? && t.starrable
  }

  lemma ClassToken(pat: string, i: nat, size: nat, numbra: nat, open: seq<nat>, j: nat, a: Atom)
    requires i < |pat| && pat[i] == '[' && size + 17 < ESIZE
    ensures SingleIn(pat, i, j, a) <==> TokenAt(pat, i, size, numbra, open) == Token(a, j, true)
  {
    hide ParseClass, ClassIn;
    if a.Class? { ClassMeans(pat, i + 1, j, a.chars); }
  }

  lemma CharToken(pat: string, i: nat, size: nat, numbra: nat, open: seq<nat>, j: nat, a: Atom)
    requires i < |pat| && pat[i] != '['
    ensures SingleIn(pat, i, j, a) <==> TokenAt(pat, i, size, numbra, open) == Token(a, j, true)
  {
    hide ParseClass, ClassIn;
  }

  lemma SingleToken(pat: string, i: nat, size: nat, numbra: nat, open: seq<nat>, j: nat, a: Atom)
    requires i < |pat| && (a.Class? ==> size + 17 < ESIZE)
    ensures SingleIn(pat, i, j, a) ==> TokenAt(pat, i, size, numbra, open) == Token(a, j, true)
    ensures TokenAt(pat, i, size, numbra, open) == Token(a, j, true) ==> SingleIn(pat, i, j, a)
  {
    hide TokenAt, ClassIn;
    if pat[i] != '[' {
      CharToken(pat, i, size, numbra, open, j, a);
    } else if size + 17 < ESIZE {
      ClassToken(pat, i, size, numbra, open, j, a);
    } else {
      FullToken(pat, i, size, numbra, open);
    }
  }

  lemma FullToken(pat: string, i: nat, size: nat, numbra: nat, open: seq<nat>)
    requires i < |pat| && pat[i] == '[' && size + 17 >= ESIZE
    ensures TokenAt(pat, i, size, numbra, open) == BadToken
  {
  }

  /** Every token is an item. */
  lemma TokenIsItem(pat: string, i: nat, size: nat, numbra: nat, open: seq<nat>)
    requires i < |pat|
    ensures var t := TokenAt(pat, i, size, numbra, open);
            t.Token? ==>
              && ItemIn(pat, i, AfterToken(pat, t), Item(t.atom, AfterToken(pat, t) > t.next), numbra, open)
              && (t.atom.Class? ==> size + 17 < ESIZE)
  {
    hide ParseClass, ClassIn, AfterStars, SingleIn;
    var t := TokenAt(pat, i, size, numbra, open);
    if IsOne(t) {
      SingleToken(pat, i, size, numbra, open, t.next, t.atom);
      StarsTo(pat, t.next, AfterToken(pat, t));
      assert RepeatIn(pat, i, AfterToken(pat, t), Item(t.atom, AfterToken(pat, t) > t.next));
    }
  }

  /** Every item is a token. */
  lemma ItemIsToken(pat: string, i: nat, size: nat, numbra: nat, open: seq<nat>, k: nat, x: Item)
    requires ItemIn(pat, i, k, x, numbra, open) && (x.atom.Class? ==> size + 17 < ESIZE)
    ensures var t := TokenAt(pat, i, size, numbra, open);
            t.Token? && t.atom == x.atom && AfterToken(pat, t) == k && (x.starred <==> k > t.next)
  {
    hide ParseClass, ClassIn, AfterStars, SingleIn, IsStars;
    if RepeatIn(pat, i, k, x) {
      var j: nat :| SingleIn(pat, i, j, x.atom) && IsStars(pat, j, k) && (x.starred <==> j < k);
      SingleToken(pat, i, size, numbra, open, j, x.atom);
      StarsTo(pat, j, k);
    }
  }

  // ----- whole patterns -----

  lemma {:induction false} ItemsParse(pat: string, i: nat, size: nat, numbra: nat, open: seq<nat>, e: seq<Item>)
    requires ItemsIn(pat, i, e, numbra, open) && HasRoom(e, size)
    ensures ParseFrom(pat, i, size, numbra, open) == Ok(e)
    decreases |e|
  {
    hide ItemIn, TokenAt, ParseFrom, Size, AfterToken;
    if e == [] {
      ParsedEnd(pat, i, size, numbra, open);
    } else {
      var k: nat :| ItemIn(pat, i, k, e[0], numbra, open)
                    && ItemsIn(pat, k, e[1..], GroupsAfter(e[0].atom, numbra), OpenAfter(e[0].atom, open));
      ItemInside(pat, i, k, e[0], numbra, open);
      ItemIsToken(pat, i, size, numbra, open, k, e[0]);
      ItemsParse(pat, k, size + Size(e[0].atom), GroupsAfter(e[0].atom, numbra), OpenAfter(e[0].atom, open), e[1..]);
      TokenRead(pat, i, size, numbra, open);
      assert [e[0]] + e[1..] == e;
    }
  }

  lemma ItemInside(pat: string, i: nat, k: nat, x: Item, numbra: nat, open: seq<nat>)
    requires ItemIn(pat, i, k, x, numbra, open)
    ensures i < k <= |pat|
  {
  }

  lemma ParsedEnd(pat: string, i: nat, size: nat, numbra: nat, open: seq<nat>)
    requires size < ESIZE && i >= |pat|
    ensures ParseFrom(pat, i, size, numbra, open) == Ok([])
  {
  }

  lemma {:induction false} ParseItems(pat: string, i: nat, size: nat, numbra: nat, open: seq<nat>)
    requires i <= |pat|
    ensures var o := ParseFrom(pat, i, size, numbra, open);
            o.Ok? ==> ItemsIn(pat, i, o.items, numbra, open) && HasRoom(o.items, size)
    decreases |pat| - i
  {
    hide ItemIn, TokenAt, ParseFrom, Size, AfterToken;
    if size >= ESIZE {
      NoRoom(pat, i, size, numbra, open);
    } else if i == |pat| {
      ParsedEnd(pat, i, size, numbra, open);
    } else {
      var t := TokenAt(pat, i, size, numbra, open);
      TokenRead(pat, i, size, numbra, open);
      if t.Token? {
        var k := AfterToken(pat, t);
        TokenIsItem(pat, i, size, numbra, open);
        ItemInside(pat, i, k, Item(t.atom, k > t.next), numbra, open);
        ParseItems(pat, k, size + Size(t.atom), GroupsAfter(t.atom, numbra), OpenAfter(t.atom, open));
        var o := ParseFrom(pat, k, size + Size(t.atom), GroupsAfter(t.atom, numbra), OpenAfter(t.atom, open));
        if o.Ok? {
          ItemsMore(pat, i, k, Item(t.atom, k > t.next), o.items, numbra, open, size);
        }
      }
    }
  }

  lemma ItemsMore(pat: string, i: nat, k: nat, x: Item, e: seq<Item>, numbra: nat, open: seq<nat>, size: nat)
    requires ItemIn(pat, i, k, x, numbra, open) && size < ESIZE && (x.atom.Class? ==> size + 17 < ESIZE)
    requires ItemsIn(pat, k, e, GroupsAfter(x.atom, numbra), OpenAfter(x.atom, open)) && HasRoom(e, size + Size(x.atom))
    ensures ItemsIn(pat, i, [x] + e, numbra, open) && HasRoom([x] + e, size)
  {
    hide ItemIn, Size;
    var all := [x] + e;
    assert all[1..] == e && all[0] == x;
    assert HasRoom(all, size);
    assert ItemIn(pat, i, k, all[0], numbra, open)
        && ItemsIn(pat, k, all[1..], GroupsAfter(all[0].atom, numbra), OpenAfter(all[0].atom, open));
  }

  lemma NoRoom(pat: string, i: nat, size: nat, numbra: nat, open: seq<nat>)
    requires size >= ESIZE
    ensures ParseFrom(pat, i, size, numbra, open) == Error
  {
  }

  /** The grammar accepts exactly the patterns of the language that there is room for. */
  lemma ParsesExactly(pat: string, e: seq<Item>)
    ensures Parse(pat) == Ok(e) <==>
              ItemsIn(pat, if pat != [] && pat[0] == '^' then 1 else 0, e, 0, []) && HasRoom(e, 0)
  {
    hide ItemsIn, ParseFrom, HasRoom;
    var i := if pat != [] && pat[0] == '^' then 1 else 0;
    ParseItems(pat, i, 0, 0, []);
    if ItemsIn(pat, i, e, 0, []) && HasRoom(e, 0) { ItemsParse(pat, i, 0, 0, [], e); }
  }
}
