/**
 The cards of canfield(6): ranks, suits and colours, the rules for building, and
 piles as linked lists threaded through the 52 cards.
 */
module CanfieldCards {

  const DECK := 52
  const NIL := -1

  // Piles: four of the tableau, four foundations, the stock, the talon and the hand.
  const FOUND := 4
  const STOCK := 8
  const TALON := 9
  const HAND := 10
  const PILES := 11

  const ACE := 1
  const KING := 13

  // ----- cards -----

  predicate IsCard(c: int) {
    0 <= c < DECK
  }

  function Rank(c: int): int {
    c % 13 + 1
  }

  function Suit(c: int): int {
    c / 13
  }

  /** Spades and clubs are black, hearts and diamonds red. */
  function Color(c: int): int {
    Suit(c) / 2
  }

  lemma SameCard(c: int, d: int)
    requires Rank(c) == Rank(d) && Suit(c) == Suit(d)
    ensures c == d
  {
  }

  /** Is the rank of c one lower than that of d? A king is below an ace. */
  predicate RankLower(c: int, d: int) {
    if Rank(d) == ACE then Rank(c) == KING else Rank(c) + 1 == Rank(d)
  }

  /** Is the rank of c one higher than that of d? An ace is above a king. */
  predicate RankHigher(c: int, d: int) {
    if Rank(d) == KING then Rank(c) == ACE else Rank(c) - 1 == Rank(d)
  }

  predicate DiffColor(c: int, d: int) {
    Color(c) != Color(d)
  }

  /** The rank of c follows that of d; the ranks go round in a circle. */
  predicate Follows(c: int, d: int) {
    Rank(c) % 13 == (Rank(d) + 1) % 13
  }

  /** May c be built on d in the tableau? */
  predicate Builds(c: int, d: int) {
    Follows(d, c) && Color(c) != Color(d)
  }

  /** May c be put on d on a foundation? */
  predicate Rises(c: int, d: int) {
    Follows(c, d) && Suit(c) == Suit(d)
  }

  /** The comparisons of the program are those of the rules. */
  lemma Compared(c: int, d: int)
    ensures Builds(c, d) <==> RankLower(c, d) && DiffColor(c, d)
    ensures Rises(c, d) <==> RankHigher(c, d) && Suit(c) == Suit(d)
  {
    hide Suit;
  }

  // ----- piles, their top cards first -----

  /** A pile of the tableau: descending, of alternating colours, without the base rank. */
  ghost predicate IsTableau(s: seq<int>, rank: int) {
    && (forall i :: 0 <= i < |s| ==> Rank(s[i]) != rank)
    && (forall i :: 0 < i < |s| ==> Builds(s[i - 1], s[i]))
  }

  /** A foundation: ascending in one suit, from the base rank. */
  ghost predicate IsFoundation(s: seq<int>, rank: int) {
    && (s != [] ==> Rank(s[|s| - 1]) == rank)
    && (forall i :: 0 < i < |s| ==> Rises(s[i - 1], s[i]))
  }

  /** In a pile of the tableau, ranks go up from its top card. */
  lemma {:induction false} RankBelow(s: seq<int>, rank: int, i: nat)
    requires IsTableau(s, rank) && i < |s|
    ensures Rank(s[i]) % 13 == (Rank(s[0]) + i) % 13
  {
    if i > 0 {
      hide Rank;
      RankBelow(s, rank, i - 1);
      assert Builds(s[i - 1], s[i]);
      NextRank(s[i - 1], s[i], Rank(s[0]) + i - 1);
    }
  }

  lemma NextRank(c: int, d: int, n: int)
    requires Follows(d, c) && Rank(c) % 13 == n % 13
    ensures Rank(d) % 13 == (n + 1) % 13
  {
    hide Rank;
    NextTurn(Rank(c), n);
  }

  lemma NextTurn(a: int, b: int)
    requires a % 13 == b % 13
    ensures (a + 1) % 13 == (b + 1) % 13
  {
    assert a + 1 == 13 * (a / 13 - b / 13) + (b + 1);
  }

  /** Thirteen ranks in a row are all of them. */
  lemma RankTurns(a: int, rank: int)
    ensures var i := (rank - a) % 13; 0 <= i < 13 && (a + i) % 13 == rank % 13
  {
  }

  lemma SameRank(c: int, rank: int)
    requires 1 <= rank <= 13 && Rank(c) % 13 == rank % 13
    ensures Rank(c) == rank
  {
  }

  /** Without the base rank, no pile of the tableau has all thirteen ranks. */
  lemma PileIsShort(s: seq<int>, rank: int)
    requires IsTableau(s, rank) && 1 <= rank <= 13
    ensures |s| <= 12
  {
    hide Rank;
    if |s| >= 13 {
      var i := (rank - Rank(s[0])) % 13;
      RankTurns(Rank(s[0]), rank);
      RankBelow(s, rank, i);
      SameRank(s[i], rank);
    }
  }

  /** A pile of the tableau cannot be built on itself. */
  lemma NoSelfMove(s: seq<int>, rank: int)
    requires IsTableau(s, rank) && 1 <= rank <= 13 && s != []
    ensures !Builds(s[|s| - 1], s[0])
  {
    hide Rank, Color, IsTableau;
    PileIsShort(s, rank);
    RankBelow(s, rank, |s| - 1);
    NoFullTurn(Rank(s[0]), Rank(s[|s| - 1]), |s|);
  }

  lemma NoFullTurn(a: int, b: int, n: nat)
    requires b % 13 == (a + (n - 1)) % 13 && 0 < n < 13
    ensures a % 13 != (b + 1) % 13
  {
    NextTurn(b, a + (n - 1));
  }

  lemma JoinTableau(s: seq<int>, t: seq<int>, rank: int)
    requires IsTableau(s, rank) && IsTableau(t, rank) && (s != [] && t != [] ==> Builds(s[|s| - 1], t[0]))
    ensures IsTableau(s + t, rank)
  {
    forall i | 0 < i < |s + t|
      ensures Builds((s + t)[i - 1], (s + t)[i])
    {
      if i > |s| { assert Builds(t[i - |s| - 1], t[i - |s|]); }
    }
  }

  // ----- linked lists -----

  /** The card after number i of a pile. */
  function After(s: seq<int>, i: nat): int {
    if i + 1 < |s| then s[i + 1] else NIL
  }

  /** The cards of s are linked from head on. */
  ghost predicate IsList(next: seq<int>, head: int, s: seq<int>) {
    && |next| == DECK && head == (if s == [] then NIL else s[0])
    && (forall i :: 0 <= i < |s| ==> IsCard(s[i]) && next[s[i]] == After(s, i))
  }

  ghost predicate Links(next: seq<int>, heads: seq<int>, piles: seq<seq<int>>) {
    |heads| == PILES && |piles| == PILES && forall p :: 0 <= p < PILES ==> IsList(next, heads[p], piles[p])
  }

  ghost predicate Distinct(s: seq<int>) {
    forall i, j :: 0 <= i < j < |s| ==> s[i] != s[j]
  }

  /** Every card is in exactly one pile, once. */
  ghost predicate Partition(piles: seq<seq<int>>, place: seq<int>) {
    && |piles| == PILES && |place| == DECK
    && (forall c :: 0 <= c < DECK ==> 0 <= place[c] < PILES && c in piles[place[c]])
    && (forall p, i :: 0 <= p < PILES && 0 <= i < |piles[p]| ==> IsCard(piles[p][i]) && place[piles[p][i]] == p)
    && (forall p :: 0 <= p < PILES ==> Distinct(piles[p]))
  }

  /** The piles after the top card of one goes to the top of another. */
  function Moved(piles: seq<seq<int>>, src: nat, dst: nat): seq<seq<int>>
    requires src < |piles| && dst < |piles| && piles[src] != []
  {
    piles[src := piles[src][1..]][dst := [piles[src][0]] + piles[dst]]
  }

  lemma MovedPartition(piles: seq<seq<int>>, place: seq<int>, src: nat, dst: nat)
    requires Partition(piles, place) && src < PILES && dst < PILES && src != dst && piles[src] != []
    ensures Partition(Moved(piles, src, dst), place[piles[src][0] := dst])
  {
    var c := piles[src][0];
    var piles', place' := Moved(piles, src, dst), place[c := dst];
    forall d | 0 <= d < DECK
      ensures 0 <= place'[d] < PILES && d in piles'[place'[d]]
    {
      if d != c && place[d] == src {
        var i :| 0 <= i < |piles[src]| && piles[src][i] == d;
        assert piles'[src][i - 1] == d;
      }
    }
    forall p, i | 0 <= p < PILES && 0 <= i < |piles'[p]|
      ensures IsCard(piles'[p][i]) && place'[piles'[p][i]] == p
    {
      if p == src {
        assert piles'[p][i] == piles[p][i + 1];
      } else if p == dst && i > 0 {
        assert piles'[p][i] == piles[p][i - 1];
      }
    }
    forall p | 0 <= p < PILES
      ensures Distinct(piles'[p])
    {
      if p == dst {
        forall i, j | 0 <= i < j < |piles'[p]|
          ensures piles'[p][i] != piles'[p][j]
        {
          assert piles'[p][j] == piles[p][j - 1];
          if i > 0 { assert piles'[p][i] == piles[p][i - 1]; }
        }
      }
    }
  }

  /** Changing the link of a card in another list leaves a list as it is. */
  lemma ListKept(next: seq<int>, head: int, s: seq<int>, c: int, d: int)
    requires IsList(next, head, s) && IsCard(c) && c !in s
    ensures IsList(next[c := d], head, s)
  {
  }

  lemma ListRest(next: seq<int>, s: seq<int>, d: int)
    requires s != [] && IsList(next, s[0], s) && Distinct(s)
    ensures IsList(next[s[0] := d], next[s[0]], s[1..])
  {
    forall i | 0 <= i < |s[1..]|
      ensures next[s[0] := d][s[1..][i]] == After(s[1..], i)
    {
      assert s[1..][i] == s[i + 1] && s[0] != s[i + 1];
    }
  }

  lemma MovedLinks(next: seq<int>, heads: seq<int>, piles: seq<seq<int>>, place: seq<int>, src: nat, dst: nat)
    requires Links(next, heads, piles) && Partition(piles, place)
    requires src < PILES && dst < PILES && src != dst && piles[src] != []
    ensures var c := heads[src];
            IsCard(c) && Links(next[c := heads[dst]], heads[src := next[c]][dst := c], Moved(piles, src, dst))
  {
    var c := heads[src];
    var next', heads', piles' := next[c := heads[dst]], heads[src := next[c]][dst := c], Moved(piles, src, dst);
    assert IsList(next, heads[src], piles[src]);
    forall p | 0 <= p < PILES
      ensures IsList(next', heads'[p], piles'[p])
    {
      assert IsList(next, heads[p], piles[p]) && Distinct(piles[p]);
      if p == src {
        ListRest(next, piles[src], heads[dst]);
      } else {
        assert c !in piles[p];
        ListKept(next, heads[p], piles[p], c, heads[dst]);
      }
    }
  }

  // ----- putting one pile of the tableau on another -----

  function Joined(piles: seq<seq<int>>, src: nat, dst: nat): seq<seq<int>>
    requires src < |piles| && dst < |piles|
  {
    piles[dst := piles[src] + piles[dst]][src := []]
  }

  function Placed(place: seq<int>, s: seq<int>, dst: nat): seq<int> {
    seq(|place|, c requires 0 <= c < |place| => if c in s then dst else place[c])
  }

  lemma JoinedPartition(piles: seq<seq<int>>, place: seq<int>, src: nat, dst: nat)
    requires Partition(piles, place) && src < PILES && dst < PILES && src != dst
    ensures Partition(Joined(piles, src, dst), Placed(place, piles[src], dst))
  {
    var piles', place' := Joined(piles, src, dst), Placed(place, piles[src], dst);
    var s, t := piles[src], piles[dst];
    forall p, i | 0 <= p < PILES && 0 <= i < |piles'[p]|
      ensures IsCard(piles'[p][i]) && place'[piles'[p][i]] == p
    {
      if p == dst {
        if i < |s| { assert piles'[p][i] == s[i]; } else { assert piles'[p][i] == t[i - |s|]; }
      }
    }
    assert Distinct(s) && Distinct(t);
    forall i, j | 0 <= i < j < |s + t|
      ensures (s + t)[i] != (s + t)[j]
    {
      if i < |s| <= j {
        assert place[s[i]] == src && place[t[j - |s|]] == dst;
      }
    }
  }

  /** Two lists become one when the last card of the first gets the second one as its next. */
  lemma ListJoined(next: seq<int>, h: int, hd: int, s: seq<int>, t: seq<int>)
    requires IsList(next, h, s) && IsList(next, hd, t) && s != [] && Distinct(s) && s[|s| - 1] !in t
    ensures IsList(next[s[|s| - 1] := hd], h, s + t)
  {
    var b := s[|s| - 1];
    var next' := next[b := hd];
    forall i | 0 <= i < |s + t|
      ensures IsCard((s + t)[i]) && next'[(s + t)[i]] == After(s + t, i)
    {
      if i >= |s| {
        assert (s + t)[i] == t[i - |s|] && t[i - |s|] in t;
      } else if i < |s| - 1 {
        assert s[i] != b;
      }
    }
  }

  lemma JoinedLinks(next: seq<int>, heads: seq<int>, piles: seq<seq<int>>, place: seq<int>, src: nat, dst: nat)
    requires Links(next, heads, piles) && Partition(piles, place)
    requires src < PILES && dst < PILES && src != dst && piles[src] != []
    ensures var b := piles[src][|piles[src]| - 1];
            IsCard(b) && Links(next[b := heads[dst]], heads[dst := heads[src]][src := NIL], Joined(piles, src, dst))
  {
    var s, t := piles[src], piles[dst];
    var b := s[|s| - 1];
    var next', heads', piles' := next[b := heads[dst]], heads[dst := heads[src]][src := NIL], Joined(piles, src, dst);
    assert IsList(next, heads[src], s) && IsList(next, heads[dst], t) && Distinct(s);
    forall p | 0 <= p < PILES
      ensures IsList(next', heads'[p], piles'[p])
    {
      assert IsList(next, heads[p], piles[p]);
      if p == dst {
        assert b !in t;
        ListJoined(next, heads[src], heads[dst], s, t);
      } else if p != src {
        assert b !in piles[p];
        ListKept(next, heads[p], piles[p], b, heads[dst]);
      }
    }
  }

  // ----- no card is lost -----

  ghost function SetOf(s: seq<int>): set<int> {
    set c | c in s
  }

  lemma {:induction false} DistinctSize(s: seq<int>)
    requires Distinct(s)
    ensures |SetOf(s)| == |s|
  {
    if s != [] {
      var n := |s| - 1;
      DistinctSize(s[..n]);
      assert SetOf(s) == SetOf(s[..n]) + {s[n]};
      assert s[n] !in SetOf(s[..n]);
    }
  }

  ghost function TotalSize(piles: seq<seq<int>>, n: nat): nat
    requires n <= |piles|
  {
    if n == 0 then 0 else TotalSize(piles, n - 1) + |piles[n - 1]|
  }

  /** The cards in the first n piles. */
  ghost function CardsIn(place: seq<int>, n: nat): set<int> {
    set c | 0 <= c < |place| && place[c] < n
  }

  lemma {:induction false} CardsInSize(piles: seq<seq<int>>, place: seq<int>, n: nat)
    requires Partition(piles, place) && n <= PILES
    ensures |CardsIn(place, n)| == TotalSize(piles, n)
  {
    if n == 0 {
      NoCardsIn(piles, place);
    } else {
      CardsInSize(piles, place, n - 1);
      PileDistinct(piles, place, n - 1);
      CardsInMore(piles, place, n - 1);
      hide CardsIn, SetOf, Partition;
      DistinctSize(piles[n - 1]);
      Disjoined(CardsIn(place, n - 1), SetOf(piles[n - 1]));
    }
  }

  lemma NoCardsIn(piles: seq<seq<int>>, place: seq<int>)
    requires Partition(piles, place)
    ensures CardsIn(place, 0) == {}
  {
  }

  lemma PileDistinct(piles: seq<seq<int>>, place: seq<int>, p: nat)
    requires Partition(piles, place) && p < PILES
    ensures |piles| == PILES && Distinct(piles[p])
  {
  }

  lemma Disjoined(a: set<int>, b: set<int>)
    requires a !! b
    ensures |a + b| == |a| + |b|
  {
  }

  lemma CardsInMore(piles: seq<seq<int>>, place: seq<int>, n: nat)
    requires Partition(piles, place) && n < PILES
    ensures CardsIn(place, n + 1) == CardsIn(place, n) + SetOf(piles[n]) && CardsIn(place, n) !! SetOf(piles[n])
  {
    forall c
      ensures c in CardsIn(place, n + 1) <==> c in CardsIn(place, n) + SetOf(piles[n])
    {
      if c in CardsIn(place, n + 1) && place[c] == n { assert c in piles[n]; }
    }
  }

  ghost function Below(n: nat): set<int> {
    if n == 0 then {} else Below(n - 1) + {n - 1}
  }

  lemma {:induction false} BelowSize(n: nat)
    ensures |Below(n)| == n && forall c :: c in Below(n) <==> 0 <= c < n
  {
    if n > 0 { BelowSize(n - 1); }
  }

  /** The piles hold 52 cards. */
  lemma AllCards(piles: seq<seq<int>>, place: seq<int>)
    requires Partition(piles, place)
    ensures TotalSize(piles, PILES) == DECK
  {
    CardsInSize(piles, place, PILES);
    BelowSize(DECK);
    assert CardsIn(place, PILES) == Below(DECK);
  }

  // ----- the deal -----

  function Rev(s: seq<int>): seq<int> {
    if s == [] then [] else Rev(s[1..]) + [s[0]]
  }

  lemma {:induction false} RevMore(s: seq<int>, c: int)
    ensures Rev(s + [c]) == [c] + Rev(s)
  {
    if s != [] {
      assert (s + [c])[1..] == s[1..] + [c];
      RevMore(s[1..], c);
    }
  }

  lemma {:induction false} RevSize(s: seq<int>)
    ensures |Rev(s)| == |s|
  {
    if s != [] { RevSize(s[1..]); }
  }

  lemma {:induction false} RevAt(s: seq<int>, i: nat)
    requires i < |s|
    ensures |Rev(s)| == |s| && Rev(s)[i] == s[|s| - 1 - i]
  {
    RevSize(s[1..]);
    if i < |s| - 1 { RevAt(s[1..], i); }
  }

  /** All cards, each once. */
  ghost predicate IsDeck(deck: seq<int>) {
    |deck| == DECK && Distinct(deck) && (forall i :: 0 <= i < DECK ==> IsCard(deck[i])) &&
      forall c :: 0 <= c < DECK ==> c in deck
  }

  /** Thirteen cards to the stock, one to the first foundation, one to each tableau pile, the rest to the hand. */
  function PileOf(k: nat): nat {
    if k < 13 then STOCK else if k == 13 then FOUND else if k < 18 then k - 14 else HAND
  }

  ghost function Deal(deck: seq<int>): seq<seq<int>>
    requires |deck| == DECK
  {
    [[deck[14]], [deck[15]], [deck[16]], [deck[17]], [deck[13]], [], [], [], Rev(deck[..13]), [], deck[18..]]
  }

  /** The position in the deck of card i of pile p. */
  function DeckIndex(p: nat, i: nat): int {
    if p < 4 then 14 + p else if p == FOUND then 13 else if p == STOCK then 12 - i else 18 + i
  }

  lemma DealAt(deck: seq<int>, p: nat, i: nat)
    requires |deck| == DECK && p < PILES && i < |Deal(deck)[p]|
    ensures var k := DeckIndex(p, i); 0 <= k < DECK && Deal(deck)[p][i] == deck[k] && PileOf(k) == p
    ensures p < 5 ==> i == 0
  {
    if p == STOCK {
      RevSize(deck[..13]);
      RevAt(deck[..13], i);
    }
  }

  lemma DealSizes(deck: seq<int>)
    requires |deck| == DECK
    ensures |Deal(deck)| == PILES && |Deal(deck)[STOCK]| == 13 && |Deal(deck)[HAND]| == 34
  {
    RevSize(deck[..13]);
  }

  ghost function IndexOf(deck: seq<int>, c: int): (k: nat)
    requires c in deck
    ensures k < |deck| && deck[k] == c
  {
    var k :| 0 <= k < |deck| && deck[k] == c;
    k
  }

  ghost function DealPlace(deck: seq<int>): (place: seq<int>)
    requires IsDeck(deck)
  {
    seq(DECK, c requires 0 <= c < DECK => PileOf(IndexOf(deck, c)))
  }

  /** Every card of the deck is dealt. */
  lemma IsDealt(deck: seq<int>, k: nat)
    requires |deck| == DECK && k < DECK
    ensures deck[k] in Deal(deck)[PileOf(k)]
  {
    DealSizes(deck);
    if k < 13 {
      RevAt(deck[..13], 12 - k);
      assert Deal(deck)[STOCK][12 - k] == deck[k];
    } else if k >= 18 {
      assert Deal(deck)[HAND][k - 18] == deck[k];
    }
  }

  lemma DealPartition(deck: seq<int>)
    requires IsDeck(deck)
    ensures Partition(Deal(deck), DealPlace(deck))
  {
    hide Deal, PileOf, DeckIndex;
    DealSizes(deck);
    var piles, place := Deal(deck), DealPlace(deck);
    forall c | 0 <= c < DECK
      ensures 0 <= place[c] < PILES && c in piles[place[c]]
    {
      IsDealt(deck, IndexOf(deck, c));
      PileBound(IndexOf(deck, c));
    }
    forall p, i | 0 <= p < PILES && 0 <= i < |piles[p]|
      ensures IsCard(piles[p][i]) && place[piles[p][i]] == p
    {
      DealAt(deck, p, i);
      var k := DeckIndex(p, i);
      assert IndexOf(deck, deck[k]) == k;
    }
    forall p | 0 <= p < PILES
      ensures Distinct(piles[p])
    {
      forall i, j | 0 <= i < j < |piles[p]|
        ensures piles[p][i] != piles[p][j]
      {
        DealAt(deck, p, i);
        DealAt(deck, p, j);
        IndexApart(p, i, j);
      }
    }
  }

  lemma PileBound(k: nat)
    ensures PileOf(k) < PILES
  {
  }

  lemma IndexApart(p: nat, i: nat, j: nat)
    requires p >= 5 && i != j
    ensures DeckIndex(p, i) != DeckIndex(p, j)
  {
  }

  /** The links of a fresh deal. */
  ghost predicate IsThreaded(deck: seq<int>, next: seq<int>)
    requires |deck| == DECK
  {
    |next| == DECK && forall k :: 0 <= k < DECK ==> IsCard(deck[k]) && next[deck[k]] == ThreadOf(deck, k)
  }

  function ThreadOf(deck: seq<int>, k: nat): int
    requires k < |deck| == DECK
  {
    if 1 <= k < 13 then deck[k - 1] else if 18 <= k < DECK - 1 then deck[k + 1] else NIL
  }

  /** The links of the cards lo..hi of the deck are set. */
  ghost predicate Threads(deck: seq<int>, next: seq<int>, lo: int, hi: int)
    requires |deck| == DECK && 0 <= lo && hi <= DECK
  {
    |next| == DECK && forall k :: lo <= k < hi ==> IsCard(deck[k]) && next[deck[k]] == ThreadOf(deck, k)
  }

  lemma DeckSize(deck: seq<int>)
    requires IsDeck(deck)
    ensures |deck| == DECK && forall k :: 0 <= k < DECK ==> IsCard(deck[k])
  {
  }

  lemma NoThreads(deck: seq<int>, next: seq<int>)
    requires |deck| == |next| == DECK
    ensures Threads(deck, next, 13, 13)
  {
  }

  /** One more link at either end. */
  lemma ThreadsMore(deck: seq<int>, next: seq<int>, lo: nat, hi: nat, i: nat)
    requires IsDeck(deck) && |deck| == DECK && lo <= hi <= DECK && Threads(deck, next, lo, hi)
    requires i < DECK && (i == hi || i + 1 == lo)
    ensures |next| == DECK && IsCard(deck[i])
    ensures var next' := next[deck[i] := ThreadOf(deck, i)];
            if i == hi then Threads(deck, next', lo, hi + 1) else Threads(deck, next', lo - 1, hi)
  {
    hide ThreadOf;
    forall k | lo <= k < hi
      ensures deck[k] != deck[i]
    {
    }
  }

  lemma AllThreaded(deck: seq<int>, next: seq<int>)
    requires |deck| == DECK && Threads(deck, next, 0, DECK)
    ensures IsThreaded(deck, next)
  {
  }

  lemma DealLink(deck: seq<int>, next: seq<int>, p: nat, i: nat)
    requires |deck| == DECK && IsDeck(deck) && IsThreaded(deck, next) && p < PILES && i < |Deal(deck)[p]|
    ensures IsCard(Deal(deck)[p][i]) && next[Deal(deck)[p][i]] == After(Deal(deck)[p], i)
  {
    hide Deal, IsDeck;
    DealSizes(deck);
    DealAt(deck, p, i);
    if i + 1 < |Deal(deck)[p]| { DealAt(deck, p, i + 1); }
    var k := DeckIndex(p, i);
    assert next[deck[k]] == ThreadOf(deck, k);
  }

  function DealHeads(deck: seq<int>): seq<int>
    requires |deck| == DECK
  {
    [deck[14], deck[15], deck[16], deck[17], deck[13], NIL, NIL, NIL, deck[12], NIL, deck[18]]
  }

  lemma DealHead(deck: seq<int>, p: nat)
    requires |deck| == DECK && p < PILES
    ensures DealHeads(deck)[p] == if Deal(deck)[p] == [] then NIL else Deal(deck)[p][0]
  {
    DealSizes(deck);
    if Deal(deck)[p] != [] { DealAt(deck, p, 0); }
  }

  lemma DealLinks(deck: seq<int>, next: seq<int>)
    requires |deck| == DECK && IsDeck(deck) && IsThreaded(deck, next)
    ensures Links(next, DealHeads(deck), Deal(deck))
  {
    hide Deal, IsDeck, IsThreaded;
    DealSizes(deck);
    Threaded(deck, next);
    forall p | 0 <= p < PILES
      ensures IsList(next, DealHeads(deck)[p], Deal(deck)[p])
    {
      DealHead(deck, p);
      forall i | 0 <= i < |Deal(deck)[p]|
        ensures IsCard(Deal(deck)[p][i]) && next[Deal(deck)[p][i]] == After(Deal(deck)[p], i)
      {
        DealLink(deck, next, p, i);
      }
    }
  }

  lemma Threaded(deck: seq<int>, next: seq<int>)
    requires |deck| == DECK && IsThreaded(deck, next)
    ensures |next| == DECK
  {
  }
}
