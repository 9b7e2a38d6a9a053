/**
 The game of canfield(6) without its display: dealing, turning cards, the moves
 of a player and the automatic moves to the foundations. In every state that can
 be reached, each of the 52 cards is in one pile and all counters agree.
 */
module Canfield {
  import opened CanfieldCards

  const TABROW := 8
  const VALUE_PER_CARD := 5

  // ----- what holds of the piles and counters -----

  ghost predicate CountsOf(piles: seq<seq<int>>, length: seq<int>, stockcnt: int, cinhand: int, taloncnt: int,
                           cardsoff: int) {
    && |piles| == PILES && |length| == 4
    && stockcnt == |piles[STOCK]| && cinhand == |piles[HAND]| && taloncnt == |piles[TALON]|
    && cardsoff == |piles[FOUND]| + |piles[FOUND + 1]| + |piles[FOUND + 2]| + |piles[FOUND + 3]|
    && (forall i :: 0 <= i < 4 ==> length[i] == TABROW - 1 + |piles[i]|)
  }

  /** b is the bottom of a tableau pile or, of an empty one, a card that went to a foundation. */
  ghost predicate BottomOf(s: seq<int>, place: seq<int>, b: int)
    requires |place| == DECK
  {
    if s != [] then b == s[|s| - 1] else b == NIL || (IsCard(b) && FOUND <= place[b] < STOCK)
  }

  ghost predicate BottomsOf(piles: seq<seq<int>>, place: seq<int>, bottom: seq<int>) {
    && |piles| == PILES && |place| == DECK && |bottom| == 4
    && forall i :: 0 <= i < 4 ==> BottomOf(piles[i], place, bottom[i])
  }

  /** The foundations up to number `base` are started. */
  ghost predicate FoundationsOf(piles: seq<seq<int>>, rank: int, base: int) {
    && |piles| == PILES && 1 <= rank <= 13 && 0 <= base < 4
    && (forall k :: FOUND <= k < STOCK ==> IsFoundation(piles[k], rank) && (piles[k] != [] <==> k <= FOUND + base))
  }

  ghost predicate TableauOf(piles: seq<seq<int>>, rank: int) {
    |piles| == PILES && forall i :: 0 <= i < 4 ==> IsTableau(piles[i], rank)
  }

  /** The top card of a pile is not of the base rank. */
  ghost predicate NotBase(piles: seq<seq<int>>, p: nat, rank: int)
    requires p < |piles|
  {
    piles[p] != [] ==> Rank(piles[p][0]) != rank
  }

  // ----- moving a card to a foundation -----

  predicate IsSource(src: nat) {
    src < FOUND || src == STOCK || src == TALON
  }

  function Shorter(length: seq<int>, src: nat): seq<int>
    requires |length| == 4
  {
    if src < 4 then length[src := length[src] - 1] else length
  }

  lemma CountsToFound(piles: seq<seq<int>>, length: seq<int>, stockcnt: int, cinhand: int, taloncnt: int, cardsoff: int,
                      src: nat, k: nat)
    requires CountsOf(piles, length, stockcnt, cinhand, taloncnt, cardsoff)
    requires IsSource(src) && FOUND <= k < STOCK && piles[src] != []
    ensures CountsOf(Moved(piles, src, k), Shorter(length, src), if src == STOCK then stockcnt - 1 else stockcnt,
              cinhand,
                     if src == TALON then taloncnt - 1 else taloncnt, cardsoff + 1)
  {
  }

  lemma BottomsToFound(piles: seq<seq<int>>, place: seq<int>, bottom: seq<int>, src: nat, k: nat)
    requires BottomsOf(piles, place, bottom) && Partition(piles, place)
    requires IsSource(src) && FOUND <= k < STOCK && piles[src] != []
    ensures IsCard(piles[src][0]) && BottomsOf(Moved(piles, src, k), place[piles[src][0] := k], bottom)
  {
    var c := piles[src][0];
    assert IsCard(c) && place[c] == src;
    forall i | 0 <= i < 4
      ensures BottomOf(Moved(piles, src, k)[i], place[c := k], bottom[i])
    {
      assert BottomOf(piles[i], place, bottom[i]);
    }
  }

  lemma FoundationsToFound(piles: seq<seq<int>>, rank: int, base: int, src: nat, k: nat)
    requires FoundationsOf(piles, rank, base) && IsSource(src) && FOUND <= k <= FOUND + base && piles[src] != []
    requires Rises(piles[src][0], piles[k][0])
    ensures FoundationsOf(Moved(piles, src, k), rank, base)
  {
    var s := [piles[src][0]] + piles[k];
    forall i | 0 < i < |s|
      ensures Rises(s[i - 1], s[i])
    {
      if i > 1 { assert Rises(piles[k][i - 2], piles[k][i - 1]); }
    }
    assert IsFoundation(s, rank);
  }

  lemma FoundationsStart(piles: seq<seq<int>>, rank: int, base: int, src: nat)
    requires FoundationsOf(piles, rank, base) && base < 3 && IsSource(src) && piles[src] != []
    requires Rank(piles[src][0]) == rank
    ensures FoundationsOf(Moved(piles, src, FOUND + base + 1), rank, base + 1)
  {
    var k := FOUND + base + 1;
    assert piles[k] == [];
    assert IsFoundation([piles[src][0]] + piles[k], rank);
  }

  /** There are four cards of the base rank, so a foundation is free for one that is not on a foundation yet. */
  lemma FreeFoundation(piles: seq<seq<int>>, place: seq<int>, rank: int, base: int, src: nat)
    requires FoundationsOf(piles, rank, base) && Partition(piles, place)
    requires IsSource(src) && piles[src] != [] && Rank(piles[src][0]) == rank
    ensures base < 3
  {
    if base == 3 {
      var c := piles[src][0];
      var b0 := BaseCard(piles, place, rank, base, FOUND);
      var b1 := BaseCard(piles, place, rank, base, FOUND + 1);
      var b2 := BaseCard(piles, place, rank, base, FOUND + 2);
      var b3 := BaseCard(piles, place, rank, base, FOUND + 3);
      FiveOfARank(c, b0, b1, b2, b3);
    }
  }

  lemma BaseCard(piles: seq<seq<int>>, place: seq<int>, rank: int, base: int, k: nat) returns (b: int)
    requires FoundationsOf(piles, rank, base) && Partition(piles, place) && FOUND <= k <= FOUND + base
    ensures IsCard(b) && place[b] == k && Rank(b) == rank
  {
    b := piles[k][|piles[k]| - 1];
    assert IsFoundation(piles[k], rank);
  }

  lemma FiveOfARank(a: int, b: int, c: int, d: int, e: int)
    requires IsCard(a) && IsCard(b) && IsCard(c) && IsCard(d) && IsCard(e)
    requires Rank(a) == Rank(b) == Rank(c) == Rank(d) == Rank(e)
    ensures a == b || a == c || a == d || a == e || b == c || b == d || b == e || c == d || c == e || d == e
  {
    hide Rank, Suit, IsCard;
    SuitsDiffer(a, b); SuitsDiffer(a, c); SuitsDiffer(a, d); SuitsDiffer(a, e); SuitsDiffer(b, c);
    SuitsDiffer(b, d); SuitsDiffer(b, e); SuitsDiffer(c, d); SuitsDiffer(c, e); SuitsDiffer(d, e);
  }

  lemma SuitsDiffer(a: int, b: int)
    requires IsCard(a) && IsCard(b) && Rank(a) == Rank(b)
    ensures 0 <= Suit(a) < 4 && 0 <= Suit(b) < 4 && (a == b || Suit(a) != Suit(b))
  {
    if Suit(a) == Suit(b) { SameCard(a, b); }
  }

  /** The piles after all base cards on top of a pile went to new foundations. */
  ghost function Based(piles: seq<seq<int>>, src: nat, base: int, rank: int): (r: seq<seq<int>>)
    requires |piles| == PILES && IsSource(src) && 0 <= base
    ensures |r| == PILES
    decreases |piles[src]|
  {
    if piles[src] != [] && Rank(piles[src][0]) == rank && base < 3
    then Based(Moved(piles, src, FOUND + base + 1), src, base + 1, rank)
    else piles
  }

  // ----- the tableau -----

  lemma TableauTo(piles: seq<seq<int>>, rank: int, src: nat, des: nat)
    requires TableauOf(piles, rank) && des < 4 && (src == STOCK || src == TALON) && piles[src] != []
    requires Rank(piles[src][0]) != rank && (piles[des] != [] ==> Builds(piles[src][0], piles[des][0]))
    ensures TableauOf(Moved(piles, src, des), rank)
  {
    JoinTableau([piles[src][0]], piles[des], rank);
  }

  lemma TableauFrom(piles: seq<seq<int>>, rank: int, src: nat, k: nat)
    requires TableauOf(piles, rank) && IsSource(src) && FOUND <= k < STOCK && piles[src] != []
    ensures TableauOf(Moved(piles, src, k), rank)
  {
    if src < 4 {
      var s := piles[src];
      assert forall i :: 0 < i < |s[1..]| ==> Builds(s[1..][i - 1], s[1..][i]) by {
        forall i | 0 < i < |s[1..]|
          ensures Builds(s[1..][i - 1], s[1..][i])
        {
          assert Builds(s[i], s[i + 1]);
        }
      }
    }
  }

  lemma CountsToTableau(piles: seq<seq<int>>, length: seq<int>, stockcnt: int, cinhand: int, taloncnt: int,
                        cardsoff: int,
                        src: nat, des: nat)
    requires CountsOf(piles, length, stockcnt, cinhand, taloncnt, cardsoff)
    requires (src == STOCK || src == TALON) && des < 4 && piles[src] != []
    ensures CountsOf(Moved(piles, src, des), length[des := length[des] + 1],
              if src == STOCK then stockcnt - 1 else stockcnt,
                     cinhand, if src == TALON then taloncnt - 1 else taloncnt, cardsoff)
  {
  }

  lemma BottomsToTableau(piles: seq<seq<int>>, place: seq<int>, bottom: seq<int>, src: nat, des: nat)
    requires BottomsOf(piles, place, bottom) && Partition(piles, place)
    requires (src == STOCK || src == TALON) && des < 4 && piles[src] != []
    ensures IsCard(piles[src][0])
    ensures BottomsOf(Moved(piles, src, des), place[piles[src][0] := des],
                      if piles[des] == [] then bottom[des := piles[src][0]] else bottom)
  {
    var c := piles[src][0];
    assert IsCard(c) && place[c] == src;
    var bottom' := if piles[des] == [] then bottom[des := c] else bottom;
    forall i | 0 <= i < 4
      ensures BottomOf(Moved(piles, src, des)[i], place[c := des], bottom'[i])
    {
      assert BottomOf(piles[i], place, bottom[i]);
    }
  }

  lemma CountsJoin(piles: seq<seq<int>>, length: seq<int>, stockcnt: int, cinhand: int, taloncnt: int, cardsoff: int,
                   sour: nat, des: nat)
    requires CountsOf(piles, length, stockcnt, cinhand, taloncnt, cardsoff) && sour < 4 && des < 4 && sour != des
    ensures CountsOf(Joined(piles, sour, des),
                     length[des := length[des] + (length[sour] - (TABROW - 1))][sour := TABROW - 1],
                     stockcnt, cinhand, taloncnt, cardsoff)
  {
  }

  function BottomsJoined(bottom: seq<int>, sour: nat, des: nat): seq<int>
    requires |bottom| == 4 && sour < 4 && des < 4
  {
    var b := bottom[sour := NIL];
    if b[des] == NIL then b[des := bottom[sour]] else b
  }

  lemma BottomsJoin(piles: seq<seq<int>>, place: seq<int>, bottom: seq<int>, sour: nat, des: nat)
    requires BottomsOf(piles, place, bottom) && Partition(piles, place) && sour < 4 && des < 4 && sour != des
    requires piles[sour] != [] && (piles[des] == [] ==> bottom[des] == NIL)
    ensures BottomsOf(Joined(piles, sour, des), Placed(place, piles[sour], des), BottomsJoined(bottom, sour, des))
  {
    var place' := Placed(place, piles[sour], des);
    var bottom' := BottomsJoined(bottom, sour, des);
    assert BottomOf(piles[sour], place, bottom[sour]) && BottomOf(piles[des], place, bottom[des]);
    if piles[des] != [] { assert IsCard(piles[des][|piles[des]| - 1]); }
    forall i | 0 <= i < 4
      ensures BottomOf(Joined(piles, sour, des)[i], place', bottom'[i])
    {
      assert BottomOf(piles[i], place, bottom[i]);
      if piles[i] == [] && bottom[i] != NIL { NotIn(piles, place, sour, bottom[i]); }
    }
  }

  lemma NotIn(piles: seq<seq<int>>, place: seq<int>, p: nat, c: int)
    requires Partition(piles, place) && p < PILES && IsCard(c) && place[c] != p
    ensures c !in piles[p]
  {
  }

  lemma FoundationsMoved(piles: seq<seq<int>>, rank: int, base: int, src: nat, dst: nat)
    requires FoundationsOf(piles, rank, base) && src < PILES && dst < PILES && piles[src] != []
    requires !(FOUND <= src < STOCK) && !(FOUND <= dst < STOCK)
    ensures FoundationsOf(Moved(piles, src, dst), rank, base)
  {
  }

  lemma FoundationsJoined(piles: seq<seq<int>>, rank: int, base: int, sour: nat, des: nat)
    requires FoundationsOf(piles, rank, base) && sour < 4 && des < 4
    ensures FoundationsOf(Joined(piles, sour, des), rank, base)
  {
  }

  lemma TableauKept(piles: seq<seq<int>>, piles': seq<seq<int>>, rank: int)
    requires TableauOf(piles, rank) && |piles'| == PILES && forall k :: 0 <= k < 4 ==> piles'[k] == piles[k]
    ensures TableauOf(piles', rank)
  {
  }

  /** May the top card of the stock or the talon go to pile des of the tableau? */
  ghost predicate MayGo(piles: seq<seq<int>>, src: nat, des: nat)
    requires |piles| == PILES && src < PILES && des < PILES
  {
    piles[src] != [] &&
    if piles[des] == [] then src == STOCK || piles[STOCK] == [] else Builds(piles[src][0], piles[des][0])
  }

  /** May pile sour of the tableau go to pile des? */
  ghost predicate MayJoin(piles: seq<seq<int>>, sour: nat, des: nat)
    requires |piles| == PILES && sour < PILES && des < PILES
  {
    piles[sour] != [] && piles[des] != [] && Builds(piles[sour][|piles[sour]| - 1], piles[des][0])
  }

  /** May the top card of a pile go to pile k, a foundation? */
  ghost predicate MayRise(piles: seq<seq<int>>, src: nat, k: nat)
    requires |piles| == PILES && src < PILES && k < PILES
  {
    piles[src] != [] && piles[k] != [] && Rises(piles[src][0], piles[k][0])
  }

  lemma TableauJoin(piles: seq<seq<int>>, rank: int, sour: nat, des: nat)
    requires TableauOf(piles, rank) && sour < 4 && des < 4 && sour != des && piles[sour] != [] && piles[des] != []
    requires Builds(piles[sour][|piles[sour]| - 1], piles[des][0])
    ensures TableauOf(Joined(piles, sour, des), rank)
  {
    JoinTableau(piles[sour], piles[des], rank);
  }

  // ----- the hand and the talon -----

  /** The piles after n cards are dealt from the hand to the talon, one by one. */
  ghost function Dealt(piles: seq<seq<int>>, n: nat): seq<seq<int>>
    requires |piles| == PILES && n <= |piles[HAND]|
  {
    piles[TALON := Rev(piles[HAND][..n]) + piles[TALON]][HAND := piles[HAND][n..]]
  }

  /** The piles after n cards of the talon are turned over to the hand. */
  ghost function TurnedOver(piles: seq<seq<int>>, n: nat): seq<seq<int>>
    requires |piles| == PILES && n <= |piles[TALON]|
  {
    piles[HAND := Rev(piles[TALON][..n]) + piles[HAND]][TALON := piles[TALON][n..]]
  }

  lemma DealtMore(piles: seq<seq<int>>, n: nat)
    requires |piles| == PILES && n < |piles[HAND]|
    ensures Dealt(piles, n)[HAND] != [] && Moved(Dealt(piles, n), HAND, TALON) == Dealt(piles, n + 1)
  {
    var h := piles[HAND];
    assert h[..n + 1] == h[..n] + [h[n]];
    RevMore(h[..n], h[n]);
    assert Moved(Dealt(piles, n), HAND, TALON)[TALON] == Dealt(piles, n + 1)[TALON];
    assert Moved(Dealt(piles, n), HAND, TALON)[HAND] == Dealt(piles, n + 1)[HAND];
  }

  lemma TurnedOverMore(piles: seq<seq<int>>, n: nat)
    requires |piles| == PILES && n < |piles[TALON]|
    ensures TurnedOver(piles, n)[TALON] != [] && Moved(TurnedOver(piles, n), TALON, HAND) == TurnedOver(piles, n + 1)
  {
    var t := piles[TALON];
    assert t[..n + 1] == t[..n] + [t[n]];
    RevMore(t[..n], t[n]);
    assert Moved(TurnedOver(piles, n), TALON, HAND)[HAND] == TurnedOver(piles, n + 1)[HAND];
    assert Moved(TurnedOver(piles, n), TALON, HAND)[TALON] == TurnedOver(piles, n + 1)[TALON];
  }

  lemma NoneTurned(piles: seq<seq<int>>)
    requires |piles| == PILES
    ensures Dealt(piles, 0) == piles && TurnedOver(piles, 0) == piles
  {
    assert Rev(piles[HAND][..0]) + piles[TALON] == piles[TALON] && piles[HAND][0..] == piles[HAND];
    assert Rev(piles[TALON][..0]) + piles[HAND] == piles[HAND] && piles[TALON][0..] == piles[TALON];
  }

  /** What turning a card leaves as it is. */
  ghost predicate Settled(piles: seq<seq<int>>, place: seq<int>, bottom: seq<int>, rank: int, base: int) {
    BottomsOf(piles, place, bottom) && FoundationsOf(piles, rank, base) && TableauOf(piles, rank)
  }

  lemma SettledTurn(piles: seq<seq<int>>, place: seq<int>, bottom: seq<int>, rank: int, base: int, src: nat, dst: nat)
    requires Settled(piles, place, bottom, rank, base) && Partition(piles, place)
    requires (src == HAND && dst == TALON) || (src == TALON && dst == HAND)
    requires piles[src] != []
    ensures IsCard(piles[src][0])
    ensures Settled(Moved(piles, src, dst), place[piles[src][0] := dst], bottom, rank, base)
  {
  }

  lemma CountsTurn(piles: seq<seq<int>>, length: seq<int>, stockcnt: int, cinhand: int, taloncnt: int, cardsoff: int,
                   src: nat, dst: nat)
    requires (src == HAND && dst == TALON) || (src == TALON && dst == HAND)
    requires CountsOf(piles, length, stockcnt, cinhand, taloncnt, cardsoff) && piles[src] != []
    ensures CountsOf(Moved(piles, src, dst), length, stockcnt, if src == HAND then cinhand - 1 else cinhand + 1,
                     if src == HAND then taloncnt + 1 else taloncnt - 1, cardsoff)
  {
  }

  /** Different piles have different top cards. */
  lemma HeadsDiffer(next: seq<int>, heads: seq<int>, piles: seq<seq<int>>, place: seq<int>, p: nat, q: nat)
    requires Links(next, heads, piles) && Partition(piles, place) && p < PILES && q < PILES && p != q && heads[p] != NIL
    ensures heads[p] != heads[q]
  {
    assert IsList(next, heads[p], piles[p]) && IsList(next, heads[q], piles[q]);
    assert place[piles[p][0]] == p;
    if piles[q] != [] { assert place[piles[q][0]] == q; }
  }

  /** The top card of a pile. */
  lemma HeadOf(next: seq<int>, heads: seq<int>, piles: seq<seq<int>>, p: nat)
    requires Links(next, heads, piles) && p < PILES
    ensures heads[p] == NIL <==> piles[p] == []
    ensures piles[p] != [] ==> heads[p] == piles[p][0] && IsCard(heads[p])
  {
    assert IsList(next, heads[p], piles[p]);
  }

  /** What the player types: two letters, and the answers to questions that may be asked. */
  datatype Command = Command(src: char, dest: char, inspect: bool, buy: bool)

  predicate IsMove(src: char) {
    src == 't' || src == 's' || '1' <= src <= '4'
  }

  function SourceOf(src: char): (p: nat)
    requires IsMove(src)
    ensures IsSource(p)
  {
    if src == 't' then TALON else if src == 's' then STOCK else src as int - '1' as int
  }

  /** The piles q come from p by moving from pile src as the rules allow, if they do. */
  ghost predicate MoveMade(p: seq<seq<int>>, q: seq<seq<int>>, src: nat, dest: char)
    requires |p| == PILES && IsSource(src)
  {
    if dest == 'f' || dest == 'F' then
      if exists k :: FOUND <= k < STOCK && MayRise(p, src, k)
      then exists k :: FOUND <= k < STOCK && MayRise(p, src, k) && q == Moved(p, src, k)
      else q == p
    else if '1' <= dest <= '4' then
      var des := dest as int - '1' as int;
      if src < 4 then q == if MayJoin(p, src, des) then Joined(p, src, des) else p
      else q == if MayGo(p, src, des) then Moved(p, src, des) else p
    else q == p
  }

  /** The piles when the player is asked for a command. */
  ghost function StartOf(piles: seq<seq<int>>, timesthru: int, base: int, rank: int): seq<seq<int>>
    requires |piles| == PILES && 0 <= base
  {
    if piles[TALON] == [] && piles[HAND] != [] then AfterTurning(piles, timesthru, base, rank) else piles
  }

  /** All cards are on the foundations. */
  ghost predicate AllUp(piles: seq<seq<int>>) {
    |piles| == PILES && forall p :: 0 <= p < PILES && !(FOUND <= p < STOCK) ==> piles[p] == []
  }

  /** s is t without some cards of the base rank on top. */
  ghost predicate DropsBases(t: seq<int>, s: seq<int>, rank: int) {
    exists n :: 0 <= n <= |t| && s == t[n..] && forall i :: 0 <= i < n ==> Rank(t[i]) == rank
  }

  /** Base cards went from the stock and the talon to the foundations, and nothing else changed. */
  ghost predicate BasesMoved(p: seq<seq<int>>, q: seq<seq<int>>, rank: int) {
    && |p| == PILES && |q| == PILES && (forall i :: 0 <= i < 4 || i == HAND ==> q[i] == p[i])
    && DropsBases(p[STOCK], q[STOCK], rank) && DropsBases(p[TALON], q[TALON], rank)
  }

  lemma {:induction false} BasedDrops(piles: seq<seq<int>>, src: nat, base: int, rank: int)
    requires |piles| == PILES && IsSource(src) && 0 <= base
    ensures |Based(piles, src, base, rank)| == PILES && DropsBases(piles[src], Based(piles, src, base, rank)[src], rank)
    decreases |piles[src]|
  {
    hide DropsBases, Rank;
    var t := piles[src];
    if t != [] && Rank(t[0]) == rank && base < 3 {
      var m := Moved(piles, src, FOUND + base + 1);
      BasedDrops(m, src, base + 1, rank);
      assert m[src] == t[1..];
      DropsOne(t, Based(m, src, base + 1, rank)[src], rank);
    } else {
      DropsNone(t, rank);
    }
  }

  lemma DropsNone(t: seq<int>, rank: int)
    ensures DropsBases(t, t, rank)
  {
    assert t == t[0..];
  }

  lemma DropsOne(t: seq<int>, s: seq<int>, rank: int)
    requires t != [] && Rank(t[0]) == rank && DropsBases(t[1..], s, rank)
    ensures DropsBases(t, s, rank)
  {
    hide Rank;
    var u := t[1..];
    var n :| 0 <= n <= |u| && s == u[n..] && forall i :: 0 <= i < n ==> Rank(u[i]) == rank;
    assert s == t[n + 1..];
    forall i | 0 <= i < n + 1
      ensures Rank(t[i]) == rank
    {
      if i > 0 { assert t[i] == u[i - 1]; }
    }
  }

  // ----- the rules as a state machine -----

  /** What the rules are about: the piles, the base rank and the state of the game. */
  datatype Table = Table(piles: seq<seq<int>>, rank: int, timesthru: int, started: bool, full: bool, done: bool)

  /** The number of the last foundation that is started. */
  function LastStarted(piles: seq<seq<int>>): (b: int)
    requires |piles| == PILES
    ensures 0 <= b < 4
  {
    if piles[FOUND + 3] != [] then 3 else if piles[FOUND + 2] != [] then 2 else if piles[FOUND + 1] != [] then 1 else 0
  }

  lemma LastStartedIs(piles: seq<seq<int>>, rank: int, base: int)
    requires FoundationsOf(piles, rank, base)
    ensures |piles| == PILES && LastStarted(piles) == base
  {
    hide IsFoundation;
    assert forall k :: FOUND <= k < STOCK ==> (piles[k] != [] <==> k <= FOUND + base);
  }

  /** Base cards on top of a pile go to new foundations. */
  ghost function BasesUp(piles: seq<seq<int>>, src: nat, rank: int): (r: seq<seq<int>>)
    requires |piles| == PILES && IsSource(src)
    ensures |r| == PILES
  {
    Based(piles, src, LastStarted(piles), rank)
  }

  /** The hand has run out and the talon has not. */
  predicate RunThrough(piles: seq<seq<int>>)
    requires |piles| == PILES
  {
    piles[HAND] == [] && piles[TALON] != []
  }

  /** Cards are turned; the fourth run through the hand without a move ends the game. */
  ghost function Turned(t: Table): (r: Table)
    requires |t.piles| == PILES
    ensures |r.piles| == PILES
  {
    t.(piles := AfterTurning(t.piles, t.timesthru, LastStarted(t.piles), t.rank),
       timesthru := if RunThrough(t.piles) then t.timesthru + 1 else t.timesthru,
       done := t.done || (RunThrough(t.piles) && t.timesthru == 3))
  }

  /** The first foundation from k on that takes the top card of a pile; STOCK if there is none. */
  ghost function RisesTo(piles: seq<seq<int>>, src: nat, k: nat): (r: nat)
    requires |piles| == PILES && IsSource(src) && k <= STOCK
    ensures k <= r <= STOCK && (r < STOCK ==> MayRise(piles, src, r))
    ensures forall j :: k <= j < r ==> !MayRise(piles, src, j)
    decreases STOCK - k
  {
    if k == STOCK || MayRise(piles, src, k) then k else RisesTo(piles, src, k + 1)
  }

  /** A destination of the tableau. */
  predicate IsColumn(dest: char) {
    dest == '1' || dest == '2' || dest == '3' || dest == '4'
  }

  function Column(dest: char): (c: nat)
    requires IsColumn(dest)
    ensures c < 4
  {
    if dest == '1' then 0 else if dest == '2' then 1 else if dest == '3' then 2 else 3
  }

  /** Do the rules allow the move? */
  ghost predicate Allowed(piles: seq<seq<int>>, src: nat, dest: char)
    requires |piles| == PILES && IsSource(src)
  {
    if dest == 'f' || dest == 'F' then RisesTo(piles, src, FOUND) < STOCK
    else IsColumn(dest) && if src < 4 then MayJoin(piles, src, Column(dest)) else MayGo(piles, src, Column(dest))
  }

  /** The piles after a move that the rules allow. */
  ghost function AfterMove(piles: seq<seq<int>>, src: nat, dest: char): (r: seq<seq<int>>)
    requires |piles| == PILES && IsSource(src) && Allowed(piles, src, dest)
    ensures |r| == PILES
  {
    if dest == 'f' || dest == 'F' then Moved(piles, src, RisesTo(piles, src, FOUND))
    else if src < 4 then Joined(piles, src, Column(dest))
    else Moved(piles, src, Column(dest))
  }

  ghost function Moving(t: Table, src: nat, dest: char): (r: Table)
    requires |t.piles| == PILES && IsSource(src)
    ensures |r.piles| == PILES
  {
    if Allowed(t.piles, src, dest) then t.(piles := AfterMove(t.piles, src, dest), timesthru := 0) else t
  }

  /** What a command does. */
  ghost function Carried(t: Table, src: char, cmd: Command): (r: Table)
    requires |t.piles| == PILES
    ensures |r.piles| == PILES
  {
    if src == 't' then Moving(t, TALON, cmd.dest)
    else if src == 's' then Moving(t, STOCK, cmd.dest)
    else if IsColumn(src) then Moving(t, Column(src), cmd.dest)
    else if src == 'h' && (cmd.dest == 't' || cmd.dest == 'T') then
      if t.full || cmd.buy then Turned(t.(full := true)) else t.(done := true)
    else if src == 'q' then t.(done := true)
    else t
  }

  /** Does a command make the program ask whether the game is to be inspected? */
  predicate Plays(src: char) {
    src == 't' || src == 's' || src == 'h' || IsColumn(src)
  }

  /** The table when a command is asked for. */
  ghost function Ready(t: Table): (r: Table)
    requires |t.piles| == PILES
    ensures |r.piles| == PILES
  {
    if t.piles[TALON] == [] && t.piles[HAND] != [] then Turned(t) else t
  }

  /** The command carried out: to quit, if the game is won or not to be inspected. */
  ghost function Effective(t: Table, cmd: Command): char {
    if AllUp(t.piles) then 'q'
    else if !t.started && Plays(cmd.src) && !cmd.inspect then 'q'
    else cmd.src
  }

  /** One round of the game. */
  ghost function Round(t: Table, cmd: Command): (r: Table)
    requires |t.piles| == PILES
    ensures |r.piles| == PILES
  {
    var u := Ready(t);
    var begun := u.(started := u.started || (!AllUp(u.piles) && Plays(cmd.src)));
    var v := Carried(begun, Effective(u, cmd), cmd);
    v.(piles := BasesUp(BasesUp(v.piles, STOCK, v.rank), TALON, v.rank))
  }

  /** The table after the first n commands. */
  ghost function Played(t: Table, cmds: seq<Command>, n: nat): (r: Table)
    requires |t.piles| == PILES && n <= |cmds|
    ensures |r.piles| == PILES
  {
    if n == 0 then t else Round(Played(t, cmds, n - 1), cmds[n - 1])
  }

  /** The piles of a deal after base cards of the tableau and the stock went up. */
  ghost function DealtUp(deck: seq<int>, n: nat): (r: seq<seq<int>>)
    requires |deck| == DECK && n <= 4
    ensures |r| == PILES
  {
    if n == 0 then Deal(deck) else BasesUp(DealtUp(deck, n - 1), n - 1, Rank(deck[13]))
  }

  /** The table that a game starts with. */
  ghost function Opening(deck: seq<int>): (t: Table)
    requires |deck| == DECK
    ensures |t.piles| == PILES
  {
    var rank := Rank(deck[13]);
    Turned(Table(BasesUp(DealtUp(deck, 4), STOCK, rank), rank, 0, false, false, false))
  }

  /** When a command ends the game: to quit, not to buy it, or the fourth run through the hand. */
  lemma CarriedDone(t: Table, src: char, cmd: Command)
    requires |t.piles| == PILES && !t.done
    ensures Carried(t, src, cmd).done <==>
              || src == 'q'
              || (src == 'h' && (cmd.dest == 't' || cmd.dest == 'T') &&
                  ((!t.full && !cmd.buy) || (RunThrough(t.piles) && t.timesthru == 3)))
  {
    hide AfterTurning, AfterMove, Allowed;
  }

  /** When a round ends the game. */
  lemma RoundDone(t: Table, cmd: Command)
    requires |t.piles| == PILES && !t.done
    ensures var u := Ready(t);
            Round(t, cmd).done <==>
              || cmd.src == 'q' || AllUp(u.piles)
              || (!t.started && Plays(cmd.src) && !cmd.inspect)
              || (cmd.src == 'h' && (cmd.dest == 't' || cmd.dest == 'T') &&
                  ((!t.full && !cmd.buy) || (RunThrough(u.piles) && u.timesthru == 3)))
  {
    hide Carried, AfterTurning, AllUp, BasesUp;
    var u := Ready(t);
    var begun := u.(started := u.started || (!AllUp(u.piles) && Plays(cmd.src)));
    CarriedDone(begun, Effective(u, cmd), cmd);
  }

  /** Only a move that is made resets the count of runs through the hand. */
  lemma CarriedRuns(t: Table, src: char, cmd: Command)
    requires |t.piles| == PILES && IsMove(src)
    ensures var r, p := Carried(t, src, cmd), SourceOf(src);
            && r.timesthru == (if Allowed(t.piles, p, cmd.dest) then 0 else t.timesthru)
            && MoveMade(t.piles, r.piles, p, cmd.dest)
            && (!Allowed(t.piles, p, cmd.dest) ==> r == t)
  {
    hide Allowed, MoveMade, AfterMove;
    MovingMade(t.piles, SourceOf(src), cmd.dest);
  }

  lemma MovingMade(piles: seq<seq<int>>, p: nat, dest: char)
    requires |piles| == PILES && IsSource(p)
    ensures MoveMade(piles, if Allowed(piles, p, dest) then AfterMove(piles, p, dest) else piles, p, dest)
  {
    hide MayRise, MayGo, MayJoin, Moved, Joined;
    var k := RisesTo(piles, p, FOUND);
    assert k < STOCK ==> MayRise(piles, p, k);
  }

  /** The counters account for all cards, and the game is won when all other piles are empty. */
  ghost predicate Conserved(piles: seq<seq<int>>, length: seq<int>, stockcnt: int, cinhand: int, taloncnt: int,
                            cardsoff: int) {
    && |piles| == PILES && |length| == 4
    && stockcnt + cinhand + taloncnt + cardsoff + length[0] + length[1] + length[2] + length[3]
       == DECK + 4 * (TABROW - 1)
    && (cardsoff == DECK <==> AllUp(piles))
  }

  lemma CardsCounted(piles: seq<seq<int>>, place: seq<int>, length: seq<int>, stockcnt: int, cinhand: int,
                     taloncnt: int,
                     cardsoff: int)
    requires Partition(piles, place) && CountsOf(piles, length, stockcnt, cinhand, taloncnt, cardsoff)
    ensures Conserved(piles, length, stockcnt, cinhand, taloncnt, cardsoff)
  {
    hide Partition, TotalSize;
    AllCards(piles, place);
    TotalOfPiles(piles);
  }

  /** The game is won exactly when all cards are on the foundations. */
  lemma WonIff(piles: seq<seq<int>>, place: seq<int>, length: seq<int>, stockcnt: int, cinhand: int, taloncnt: int,
               cardsoff: int)
    requires Partition(piles, place) && CountsOf(piles, length, stockcnt, cinhand, taloncnt, cardsoff)
    ensures cardsoff == DECK <==> AllUp(piles)
  {
    CardsCounted(piles, place, length, stockcnt, cinhand, taloncnt, cardsoff);
  }

  lemma OpeningGoesOn(t: Table)
    requires |t.piles| == PILES && t.timesthru == 0 && !t.done
    ensures !Turned(t).done
  {
    hide AfterTurning;
  }

  lemma SizeMore(piles: seq<seq<int>>, n: nat)
    requires n < |piles|
    ensures TotalSize(piles, 0) == 0 && TotalSize(piles, n + 1) == TotalSize(piles, n) + |piles[n]|
  {
  }

  lemma TotalOfPiles(piles: seq<seq<int>>)
    requires |piles| == PILES
    ensures TotalSize(piles, PILES) == |piles[0]| + |piles[1]| + |piles[2]| + |piles[3]| + |piles[4]| + |piles[5]|
                                       + |piles[6]| + |piles[7]| + |piles[8]| + |piles[9]| + |piles[10]|
  {
    hide TotalSize;
    SizeMore(piles, 0); SizeMore(piles, 1); SizeMore(piles, 2); SizeMore(piles, 3); SizeMore(piles,
      4); SizeMore(piles, 5);
    SizeMore(piles, 6); SizeMore(piles, 7); SizeMore(piles, 8); SizeMore(piles, 9); SizeMore(piles, 10);
  }

  class Game {
    var next: seq<int>
    var heads: seq<int>
    var bottom: seq<int>
    var length: seq<int>
    var base: int
    var basecard: int
    var stockcnt: int
    var cinhand: int
    var taloncnt: int
    var cardsoff: int
    var timesthru: int
    var startedgame: bool
    var infullgame: bool
    var wins: int
    var done: bool
    /** The cards of every pile, its top card first. */
    ghost var piles: seq<seq<int>>
    /** The pile of every card. */
    ghost var place: seq<int>

    ghost predicate Board()
      reads this
    {
      |piles| == PILES && Links(next, heads, piles) && Partition(piles, place)
    }

    /** What holds during a game, also while it is being set up. */
    ghost predicate Core()
      reads this
    {
      && 0 <= base && Board() && CountsOf(piles, length, stockcnt, cinhand, taloncnt, cardsoff)
      && BottomsOf(piles, place, bottom) && FoundationsOf(piles, Rank(basecard), base)
      && wins == if infullgame then VALUE_PER_CARD * cardsoff else 0
    }

    /** What holds whenever the player is to move. */
    ghost predicate Valid()
      reads this
    {
      && Core() && TableauOf(piles, Rank(basecard))
      && NotBase(piles, STOCK, Rank(basecard)) && NotBase(piles, TALON, Rank(basecard))
    }

    /** What the rules see. */
    ghost function Now(): Table
      reads this
    {
      Table(piles, Rank(basecard), timesthru, startedgame, infullgame, done)
    }

    /** Move the top card of one pile to the top of another. */
    method Transit(src: nat, dst: nat)
      requires Board() && src < PILES && dst < PILES && src != dst && piles[src] != []
      modifies this`next, this`heads, this`piles, this`place
      ensures Board() && piles == Moved(old(piles), src, dst) && place == old(place)[old(piles)[src][0] := dst]
    {
      hide Links, Partition;
      HeadOf(next, heads, piles, src);
      MovedPartition(piles, place, src, dst);
      MovedLinks(next, heads, piles, place, src, dst);
      LinksSize(next, heads, piles);
      PartitionSize(piles, place);
      place := place[piles[src][0] := dst];
      piles := Moved(piles, src, dst);
      var temp := heads[src];
      heads := heads[src := next[temp]];
      next := next[temp := heads[dst]];
      heads := heads[dst := temp];
    }

    /** Move a card to foundation number k and count it. */
    method ToFoundation(src: nat, k: nat, ghost newBase: int)
      requires Core() && IsSource(src) && k < 4 && piles[src] != []
      requires FoundationsOf(Moved(piles, src, FOUND + k), Rank(basecard), newBase)
      modifies this`next, this`heads, this`piles, this`place, this`stockcnt, this`taloncnt, this`length,
               this`cardsoff, this`wins
      ensures Board() && CountsOf(piles, length, stockcnt, cinhand, taloncnt, cardsoff)
      ensures BottomsOf(piles, place, bottom)
      ensures FoundationsOf(piles, Rank(basecard), newBase)
      ensures wins == if infullgame then VALUE_PER_CARD * cardsoff else 0
      ensures piles == Moved(old(piles), src, FOUND + k)
    {
      hide Links, Partition, CountsOf, BottomsOf, FoundationsOf, Moved, Rank;
      CountsToFound(piles, length, stockcnt, cinhand, taloncnt, cardsoff, src, FOUND + k);
      BottomsToFound(piles, place, bottom, src, FOUND + k);
      LengthSize(piles, length, stockcnt, cinhand, taloncnt, cardsoff);
      LinksSize(next, heads, piles);
      HeadOf(next, heads, piles, src);
      if src != STOCK { HeadsDiffer(next, heads, piles, place, src, STOCK); }
      if src != TALON { HeadsDiffer(next, heads, piles, place, src, TALON); }
      var origin := if heads[src] == heads[STOCK] then STOCK else if heads[src] == heads[TALON] then TALON else src;
      Transit(src, FOUND + k);
      CountOff(origin);
    }

    /** Count a card that went to a foundation. */
    method CountOff(origin: nat)
      requires origin == STOCK || origin == TALON || origin < |length|
      modifies this`stockcnt, this`taloncnt, this`length, this`cardsoff, this`wins
      ensures stockcnt == if origin == STOCK then old(stockcnt) - 1 else old(stockcnt)
      ensures taloncnt == if origin == TALON then old(taloncnt) - 1 else old(taloncnt)
      ensures length == if origin == STOCK || origin == TALON then old(length)
                        else old(length)[origin := old(length)[origin] - 1]
      ensures cardsoff == old(cardsoff) + 1 && wins == if infullgame then old(wins) + VALUE_PER_CARD else old(wins)
    {
      if origin == STOCK {
        stockcnt := stockcnt - 1;
      } else if origin == TALON {
        taloncnt := taloncnt - 1;
      } else {
        length := length[origin := length[origin] - 1];
      }
      cardsoff := cardsoff + 1;
      if infullgame { wins := wins + VALUE_PER_CARD; }
    }

    /** Move base cards from the top of a pile to new foundations. */
    method FndBase(src: nat)
      requires Core() && IsSource(src)
      modifies this`next, this`heads, this`piles, this`place, this`stockcnt, this`taloncnt, this`length,
               this`cardsoff, this`wins, this`base
      ensures Core() && piles == Based(old(piles), src, old(base), Rank(basecard))
      ensures NotBase(piles, src, Rank(basecard))
    {
      hide Links, Partition, CountsOf, BottomsOf, FoundationsOf, Moved;
      HeadOf(next, heads, piles, src);
      LinksSize(next, heads, piles);
      FoundationsBase(piles, Rank(basecard), base);
      while heads[src] != NIL && Rank(heads[src]) == Rank(basecard)
        invariant Core() && |heads| == PILES && |piles| == PILES && 0 <= base
        invariant heads[src] == NIL <==> piles[src] == []
        invariant piles[src] != [] ==> heads[src] == piles[src][0]
        invariant Based(piles, src, base, Rank(basecard)) == Based(old(piles), src, old(base), Rank(basecard))
        decreases |piles[src]|
      {
        FreeFoundation(piles, place, Rank(basecard), base, src);
        FoundationsStart(piles, Rank(basecard), base, src);
        MovedLess(piles, src, FOUND + base + 1);
        ToFoundation(src, base + 1, base + 1);
        base := base + 1;
        HeadOf(next, heads, piles, src);
        LinksSize(next, heads, piles);
        FoundationsBase(piles, Rank(basecard), base);
      }
    }

    /** Can card cp go to pile des of the tableau? */
    method TabOk(cp: int, des: nat, ghost src: nat) returns (ok: bool)
      requires Core() && des < 4 && IsSource(src) && piles[src] != []
      requires cp == if src < 4 then piles[src][|piles[src]| - 1] else piles[src][0]
      ensures ok <==> if piles[des] == [] then src == STOCK || (src == TALON &&
                piles[STOCK] == []) else Builds(cp, piles[des][0])
    {
      hide CountsOf, FoundationsOf, BottomsOf, Partition, Links, RankLower, DiffColor, Builds;
      LinksSize(next, heads, piles);
      HeadOf(next, heads, piles, des);
      HeadOf(next, heads, piles, STOCK);
      BottomSize(piles, place, bottom);
      IsBottom(piles, place, bottom, src, cp);
      NotOnStock(piles, place, src, cp);
      Compared(cp, heads[des]);
      if cp == heads[STOCK] && heads[des] == NIL {
        ok := true;
      } else if heads[des] == NIL {
        ok := heads[STOCK] == NIL && cp != bottom[0] && cp != bottom[1] && cp != bottom[2] && cp != bottom[3];
      } else {
        ok := RankLower(cp, heads[des]) && DiffColor(cp, heads[des]);
      }
    }

    /** Put the top card of the stock or the talon on a pile of the tableau and count it. */
    method PutOnTableau(src: nat, des: nat)
      requires Core() && (src == STOCK || src == TALON) && des < 4 && piles[src] != []
      modifies this`next, this`heads, this`piles, this`place, this`stockcnt, this`taloncnt, this`length, this`bottom,
               this`timesthru
      ensures Core() && piles == Moved(old(piles), src, des) && timesthru == 0
    {
      hide Links, Partition, CountsOf, BottomsOf, FoundationsOf, Rank, Moved;
      LinksSize(next, heads, piles);
      CountsToTableau(piles, length, stockcnt, cinhand, taloncnt, cardsoff, src, des);
      BottomsToTableau(piles, place, bottom, src, des);
      FoundationsMoved(piles, Rank(basecard), base, src, des);
      LengthSize(piles, length, stockcnt, cinhand, taloncnt, cardsoff);
      BottomSize(piles, place, bottom);
      HeadOf(next, heads, piles, src);
      HeadOf(next, heads, piles, des);
      if src != STOCK { HeadsDiffer(next, heads, piles, place, src, STOCK); }
      var origin := if heads[src] == heads[STOCK] then STOCK else TALON;
      if heads[des] == NIL { bottom := bottom[des := heads[src]]; }
      Transit(src, des);
      CountMoved(origin, des);
    }

    /** Count a card that went from the stock or the talon to the tableau. */
    method CountMoved(origin: nat, des: nat)
      requires des < |length|
      modifies this`stockcnt, this`taloncnt, this`length, this`timesthru
      ensures stockcnt == if origin == STOCK then old(stockcnt) - 1 else old(stockcnt)
      ensures taloncnt == if origin == STOCK then old(taloncnt) else old(taloncnt) - 1
      ensures length == old(length)[des := old(length)[des] + 1] && timesthru == 0
    {
      length := length[des := length[des] + 1];
      timesthru := 0;
      if origin == STOCK {
        stockcnt := stockcnt - 1;
      } else {
        taloncnt := taloncnt - 1;
      }
    }

    /** Move a card from the stock or the talon to the tableau. */
    method SimpleTableau(src: nat, des: nat) returns (ok: bool)
      requires Valid() && (src == STOCK || src == TALON) && des < 4
      modifies this`next, this`heads, this`piles, this`place, this`stockcnt, this`taloncnt, this`length, this`bottom,
               this`timesthru
      ensures Core() && TableauOf(piles, Rank(basecard))
      ensures ok <==> MayGo(old(piles), src, des)
      ensures piles == if ok then Moved(old(piles), src, des) else old(piles)
      ensures timesthru == if ok then 0 else old(timesthru)
    {
      hide Links, Partition, CountsOf, BottomsOf, FoundationsOf, TableauOf, Rank, Builds;
      LinksSize(next, heads, piles);
      HeadOf(next, heads, piles, src);
      if heads[src] == NIL { return false; }
      ok := TabOk(heads[src], des, src);
      if ok {
        TableauTo(piles, Rank(basecard), src, des);
        PutOnTableau(src, des);
      }
    }

    /** Link the pile that ends in card temp to the top of another one. */
    method Relink(sour: nat, des: nat, temp: int)
      requires Board() && sour < 4 && des < 4 && sour != des && piles[sour] != []
      requires temp == piles[sour][|piles[sour]| - 1]
      modifies this`next, this`heads, this`piles, this`place
      ensures Board() && piles == Joined(old(piles), sour, des) && place == Placed(old(place), old(piles)[sour], des)
    {
      hide Links, Partition, Placed, Joined;
      LinksSize(next, heads, piles);
      JoinedPartition(piles, place, sour, des);
      JoinedLinks(next, heads, piles, place, sour, des);
      next := next[temp := heads[des]];
      heads := heads[des := heads[sour]];
      heads := heads[sour := NIL];
      place := Placed(place, piles[sour], des);
      piles := Joined(piles, sour, des);
    }

    /** Put a pile of the tableau on top of another one. */
    method JoinPiles(sour: nat, des: nat)
      requires Core() && sour < 4 && des < 4 && sour != des && piles[sour] != []
      requires (piles[des] == [] ==> bottom[des] == NIL)
      modifies this`next, this`heads, this`piles, this`place, this`length, this`bottom, this`timesthru
      ensures Core() && piles == Joined(old(piles), sour, des) && timesthru == 0
    {
      hide Links, Partition, CountsOf, BottomsOf, FoundationsOf, Rank, Placed, Joined;
      LinksSize(next, heads, piles);
      BottomSize(piles, place, bottom);
      BottomIs(piles, place, bottom, sour);
      LengthSize(piles, length, stockcnt, cinhand, taloncnt, cardsoff);
      CountsJoin(piles, length, stockcnt, cinhand, taloncnt, cardsoff, sour, des);
      BottomsJoin(piles, place, bottom, sour, des);
      FoundationsJoined(piles, Rank(basecard), base, sour, des);
      var temp := MoveBottom(sour, des);
      Relink(sour, des, temp);
      CountJoined(sour, des);
    }

    /** The bottom card of a pile that goes to another one, which may be empty. */
    method MoveBottom(sour: nat, des: nat) returns (temp: int)
      requires sour < |bottom| && des < |bottom| && sour != des
      modifies this`bottom
      ensures temp == old(bottom)[sour]
      ensures var b := old(bottom)[sour := NIL]; bottom == if b[des] == NIL then b[des := temp] else b
    {
      temp := bottom[sour];
      bottom := bottom[sour := NIL];
      if bottom[des] == NIL { bottom := bottom[des := temp]; }
    }

    /** Count the cards of a pile for another one. */
    method CountJoined(sour: nat, des: nat)
      requires sour < |length| && des < |length|
      modifies this`length, this`timesthru
      ensures length == old(length)[des := old(length)[des] + (old(length)[sour] - (TABROW - 1))][sour := TABROW - 1]
      ensures timesthru == 0
    {
      length := length[des := length[des] + (length[sour] - (TABROW - 1))];
      length := length[sour := TABROW - 1];
      timesthru := 0;
    }

    /**
     Move a whole pile of the tableau onto another one. A pile cannot go to itself,
     which would link it into a circle.
     */
    method TabToTab(sour: nat, des: nat) returns (ok: bool)
      requires Valid() && sour < 4 && des < 4
      modifies this`next, this`heads, this`piles, this`place, this`length, this`bottom, this`timesthru
      ensures Core() && TableauOf(piles, Rank(basecard))
      ensures ok <==> MayJoin(old(piles), sour, des)
      ensures sour == des ==> !ok
      ensures piles == if ok then Joined(old(piles), sour, des) else old(piles)
      ensures timesthru == if ok then 0 else old(timesthru)
    {
      hide Links, Partition, CountsOf, BottomsOf, FoundationsOf, TableauOf, Rank, Builds;
      LinksSize(next, heads, piles);
      HeadOf(next, heads, piles, sour);
      FoundationsBase(piles, Rank(basecard), base);
      if heads[sour] == NIL { return false; }
      BottomSize(piles, place, bottom);
      BottomIs(piles, place, bottom, sour);
      ok := TabOk(bottom[sour], des, sour);
      if sour == des { NoSelfJoin(piles, Rank(basecard), sour); }
      if ok {
        TableauJoin(piles, Rank(basecard), sour, des);
        JoinPiles(sour, des);
      }
    }

    /** The first foundation that takes the top card of a pile; four if there is none. */
    method FindFoundation(src: nat) returns (k: nat)
      requires Valid() && IsSource(src) && piles[src] != []
      ensures k <= 4 && (k < 4 ==> MayRise(piles, src, FOUND + k))
      ensures forall j :: FOUND <= j < FOUND + k ==> !MayRise(piles, src, j)
      ensures FOUND + k == RisesTo(piles, src, FOUND)
    {
      hide Links, Partition, CountsOf, BottomsOf, FoundationsOf, TableauOf, Rank, RankHigher, Rises, Suit;
      LinksSize(next, heads, piles);
      HeadOf(next, heads, piles, src);
      k := 0;
      while k < 4
        invariant 0 <= k <= 4 && forall j :: FOUND <= j < FOUND + k ==> !MayRise(piles, src, j)
      {
        HeadOf(next, heads, piles, FOUND + k);
        Compared(heads[src], heads[FOUND + k]);
        if heads[FOUND + k] != NIL && RankHigher(heads[src], heads[FOUND + k]) &&
          Suit(heads[src]) == Suit(heads[FOUND + k]) {
          return;
        }
        k := k + 1;
      }
    }

    /** Move a card to the first foundation that takes it. */
    method MoveToFound(src: nat) returns (ok: bool, k: nat)
      requires Valid() && IsSource(src)
      modifies this`next, this`heads, this`piles, this`place, this`stockcnt, this`taloncnt, this`length,
               this`cardsoff, this`wins, this`timesthru
      ensures Core() && TableauOf(piles, Rank(basecard))
      ensures ok ==> k < 4 && MayRise(old(piles), src, FOUND + k)
      ensures ok ==> FOUND + k == RisesTo(old(piles), src, FOUND)
      ensures timesthru == if ok then 0 else old(timesthru)
      ensures ok <==> exists j :: FOUND <= j < STOCK && MayRise(old(piles), src, j)
      ensures piles == if ok then Moved(old(piles), src, FOUND + k) else old(piles)
    {
      hide Links, Partition, CountsOf, BottomsOf, FoundationsOf, TableauOf, Rank, RankHigher, Rises, Suit;
      LinksSize(next, heads, piles);
      HeadOf(next, heads, piles, src);
      if heads[src] == NIL { return false, 4; }
      k := FindFoundation(src);
      ok := k < 4;
      if ok {
        Started(piles, Rank(basecard), base, FOUND + k);
        FoundationsToFound(piles, Rank(basecard), base, src, FOUND + k);
        TableauFrom(piles, Rank(basecard), src, FOUND + k);
        ToFoundation(src, k, base);
        timesthru := 0;
      }
    }

    /** Deal n cards from the hand to the talon; the counters are set afterwards. */
    method DealCards(n: nat)
      requires Board() && CountsOf(piles, length, stockcnt, cinhand, taloncnt, cardsoff) && n <= |piles[HAND]|
      requires Settled(piles, place, bottom, Rank(basecard), base)
      modifies this`next, this`heads, this`piles, this`place
      ensures Board() && CountsOf(piles, length, stockcnt, cinhand - n, taloncnt + n, cardsoff)
      ensures piles == Dealt(old(piles), n) && Settled(piles, place, bottom, Rank(basecard), base)
    {
      hide Links, Partition, CountsOf, Settled, Dealt, Moved, Rank;
      LinksSize(next, heads, piles);
      NoneTurned(piles);
      for i := 0 to n
        invariant Board() && CountsOf(piles, length, stockcnt, cinhand - i, taloncnt + i, cardsoff)
        invariant piles == Dealt(old(piles), i) && Settled(piles, place, bottom, Rank(basecard), base)
      {
        DealtMore(old(piles), i);
        CountsTurn(piles, length, stockcnt, cinhand - i, taloncnt + i, cardsoff, HAND, TALON);
        SettledTurn(piles, place, bottom, Rank(basecard), base, HAND, TALON);
        Transit(HAND, TALON);
      }
    }

    /** Turn the talon over to be the new hand. */
    method TurnTalon()
      requires Board() && CountsOf(piles, length, stockcnt, cinhand, taloncnt, cardsoff)
      requires Settled(piles, place, bottom, Rank(basecard), base)
      modifies this`next, this`heads, this`piles, this`place, this`cinhand, this`taloncnt
      ensures Board() && CountsOf(piles, length, stockcnt, cinhand, taloncnt, cardsoff)
      ensures piles == TurnedOver(old(piles), |old(piles)[TALON]|)
      ensures Settled(piles, place, bottom, Rank(basecard), base)
    {
      hide Links, Partition, CountsOf, Settled, TurnedOver, Moved, Rank;
      LinksSize(next, heads, piles);
      NoneTurned(piles);
      ghost var n := 0;
      ghost var start := piles;
      CountOfTalon(piles, length, stockcnt, cinhand, taloncnt, cardsoff);
      HeadOf(next, heads, piles, TALON);
      while heads[TALON] != NIL
        invariant Board() && |heads| == PILES && n <= |start[TALON]| && piles == TurnedOver(start, n)
        invariant CountsOf(piles, length, stockcnt, cinhand, taloncnt - n, cardsoff)
        invariant Settled(piles, place, bottom, Rank(basecard), base) && taloncnt == old(taloncnt)
        invariant heads[TALON] == NIL <==> n == |start[TALON]|
        decreases |start[TALON]| - n
      {
        TurnedOverMore(start, n);
        CountsTurn(piles, length, stockcnt, cinhand, taloncnt - n, cardsoff, TALON, HAND);
        SettledTurn(piles, place, bottom, Rank(basecard), base, TALON, HAND);
        Transit(TALON, HAND);
        cinhand := cinhand + 1;
        n := n + 1;
        LinksSize(next, heads, piles);
        HeadOf(next, heads, piles, TALON);
        TalonLeft(start, n);
      }
      taloncnt := 0;
    }

    /** Turn n cards onto the talon, and move base cards from it. */
    method TurnCards(n: nat)
      requires Core() && TableauOf(piles, Rank(basecard)) && NotBase(piles, STOCK, Rank(basecard)) && n <= |piles[HAND]|
      modifies this`next, this`heads, this`piles, this`place, this`stockcnt, this`taloncnt, this`cinhand,
               this`length, this`cardsoff, this`wins, this`base
      ensures Valid() && piles == AfterDealing(old(piles), n, old(base), Rank(basecard))
    {
      hide Links, Partition, CountsOf, Settled, Dealt, Rank, Based, TableauOf, FoundationsOf, BottomsOf;
      SettledIs(piles, place, bottom, Rank(basecard), base);
      ghost var before := piles;
      DealCards(n);
      cinhand := cinhand - n;
      taloncnt := taloncnt + n;
      SettledIs(piles, place, bottom, Rank(basecard), base);
      DealtKeeps(before, n);
      BasedKeeps(piles, TALON, base, Rank(basecard));
      TableauKept(piles, Based(piles, TALON, base, Rank(basecard)), Rank(basecard));
      FndBase(TALON);
    }

    /**
     Turn up to three cards from the hand onto the talon; an empty hand is made up
     from the talon first, but not a fourth time without a move between.
     */
    method MoveToTalon()
      requires Core() && TableauOf(piles, Rank(basecard)) && NotBase(piles, STOCK, Rank(basecard))
      requires NotBase(piles, TALON, Rank(basecard))
      modifies this`next, this`heads, this`piles, this`place, this`stockcnt, this`taloncnt, this`cinhand,
               this`length, this`cardsoff, this`wins, this`base, this`timesthru, this`done
      ensures Valid() && Now() == Turned(old(Now()))
      ensures piles == AfterTurning(old(piles), old(timesthru), old(base), Rank(basecard))
      ensures timesthru ==
                if old(piles)[HAND] == [] && old(piles)[TALON] != [] then old(timesthru) + 1 else old(timesthru)
      ensures done == (old(done) || (old(piles)[HAND] == [] && old(piles)[TALON] != [] && old(timesthru) == 3))
    {
      hide Links, Partition, CountsOf, Settled, TurnedOver, Dealt, Rank, Based, TableauOf, FoundationsOf, BottomsOf;
      SettledIs(piles, place, bottom, Rank(basecard), base);
      FoundationsBase(piles, Rank(basecard), base);
      LastStartedIs(piles, Rank(basecard), base);
      CountOfTalon(piles, length, stockcnt, cinhand, taloncnt, cardsoff);
      HeadOf(next, heads, piles, TALON);
      LinksSize(next, heads, piles);
      var fin := 0;
      if cinhand >= 3 {
        fin := 3;
      } else if cinhand > 0 {
        fin := cinhand;
      } else if heads[TALON] != NIL {
        timesthru := timesthru + 1;
        if timesthru != 4 {
          TurnTalon();
          SettledIs(piles, place, bottom, Rank(basecard), base);
          CountOfTalon(piles, length, stockcnt, cinhand, taloncnt, cardsoff);
          HandRefilled(old(piles));
          fin := if cinhand >= 3 then 3 else cinhand;
        } else {
          done := true;
        }
      }
      if fin != 0 { TurnCards(fin); }
    }

    /** Lay out a shuffled deck. */
    method InitGame(deck: seq<int>)
      requires |deck| == DECK && IsDeck(deck)
      modifies this
      ensures Core() && piles == Deal(deck) && base == 0 && basecard == deck[13] && !infullgame && !done
      ensures timesthru == 0 && !startedgame
    {
      hide Links, Partition, Deal, DealPlace, IsThreaded, DealHeads, CountsOf, BottomsOf, FoundationsOf, Rank, IsDeck;
      InitCounts();
      InitPiles(deck);
      DealCounts(deck);
      FoundationsBase(piles, Rank(basecard), base);
    }

    method InitPiles(deck: seq<int>)
      requires |deck| == DECK && IsDeck(deck)
      modifies this`next, this`heads, this`basecard, this`bottom, this`piles, this`place
      ensures Board() && piles == Deal(deck) && place == DealPlace(deck) && basecard == deck[13]
      ensures bottom == [deck[14], deck[15], deck[16], deck[17]]
    {
      hide Links, Partition, Deal, DealPlace, IsThreaded, DealHeads, IsDeck;
      next := ThreadDeck(deck);
      DealPartition(deck);
      DealLinks(deck, next);
      DealSizes(deck);
      heads := DealHeads(deck);
      basecard := deck[13];
      bottom := [deck[14], deck[15], deck[16], deck[17]];
      piles := Deal(deck);
      place := DealPlace(deck);
    }

    method InitCounts()
      modifies this
      ensures stockcnt == 13 && length == [TABROW, TABROW, TABROW, TABROW] && base == 0 && cinhand == 34
      ensures taloncnt == 0
      ensures timesthru == 0 && cardsoff == 1 && !infullgame && wins == 0 && !done && !startedgame
    {
      stockcnt := 13;
      length := [TABROW, TABROW, TABROW, TABROW];
      base := 0;
      cinhand := 34;
      taloncnt := 0;
      timesthru := 0;
      cardsoff := 1;
      startedgame, infullgame, wins, done := false, false, 0, false;
    }

    /** The links of the stock, the foundation, the tableau and the hand. */
    method ThreadDeck(deck: seq<int>) returns (next: seq<int>)
      requires IsDeck(deck)
      ensures IsThreaded(deck, next)
    {
      hide IsDeck, Threads;
      next := seq(DECK, _ => NIL);
      DeckSize(deck);
      NoThreads(deck, next);
      var i := 12;
      while i >= 1
        invariant 0 <= i <= 12 && Threads(deck, next, i + 1, 13)
      {
        ThreadsMore(deck, next, i + 1, 13, i);
        next := next[deck[i] := deck[i - 1]];
        i := i - 1;
      }
      ThreadsMore(deck, next, 1, 13, 0);
      next := next[deck[0] := NIL];
      ThreadsMore(deck, next, 0, 13, 13);
      next := next[deck[13] := NIL];
      i := 14;
      while i < 18
        invariant 14 <= i <= 18 && Threads(deck, next, 0, i)
      {
        ThreadsMore(deck, next, 0, i, i);
        next := next[deck[i] := NIL];
        i := i + 1;
      }
      while i < DECK - 1
        invariant 18 <= i < DECK && Threads(deck, next, 0, i)
      {
        ThreadsMore(deck, next, 0, i, i);
        next := next[deck[i] := deck[i + 1]];
        i := i + 1;
      }
      ThreadsMore(deck, next, 0, DECK - 1, DECK - 1);
      next := next[deck[DECK - 1] := NIL];
      AllThreaded(deck, next);
    }

    /** Move base cards that were dealt to the tableau to the foundations. */
    method MoveDealt(deck: seq<int>)
      requires |deck| == DECK && Core() && basecard == deck[13] && piles[TALON] == [] && piles == DealtUp(deck, 0)
      requires forall i :: 0 <= i < 4 ==> |piles[i]| <= 1
      modifies this`next, this`heads, this`piles, this`place, this`stockcnt, this`taloncnt, this`length,
               this`cardsoff, this`wins, this`base
      ensures Core() && piles[TALON] == [] && piles == DealtUp(deck, 4)
      ensures forall i :: 0 <= i < 4 ==> IsTableau(piles[i], Rank(basecard))
    {
      hide Links, Partition, CountsOf, BottomsOf, FoundationsOf, Rank, Based;
      ghost var rank := Rank(basecard);
      for j := 0 to 4
        invariant Core() && piles[TALON] == [] && piles == DealtUp(deck, j)
        invariant forall i :: 0 <= i < j ==> IsTableau(piles[i], rank)
        invariant forall i :: j <= i < 4 ==> |piles[i]| <= 1
      {
        BasedKeeps(piles, j, base, rank);
        BasedShrinks(piles, j, base, rank);
        LastStartedIs(piles, rank, base);
        FndBase(j);
      }
    }

    /** Start a game with a shuffled deck: base cards go to the foundations and cards are turned. */
    method StartGame(deck: seq<int>)
      requires |deck| == DECK && IsDeck(deck)
      modifies this
      ensures Valid() && basecard == deck[13] && Now() == Opening(deck) && !done
    {
      hide IsDeck, Deal, Links, Partition, CountsOf, BottomsOf, FoundationsOf, Rank, Based, Turned;
      InitGame(deck);
      DealSingles(deck);
      ghost var rank := Rank(basecard);
      MoveDealt(deck);
      BasedKeeps(piles, STOCK, base, rank);
      LastStartedIs(piles, rank, base);
      FndBase(STOCK);
      OpeningGoesOn(Now());
      MoveToTalon();
    }

    /** Make the automatic moves after a command. */
    method MoveBases()
      requires Core() && TableauOf(piles, Rank(basecard))
      modifies this`next, this`heads, this`piles, this`place, this`stockcnt, this`taloncnt, this`length,
               this`cardsoff, this`wins, this`base
      ensures Valid() && BasesMoved(old(piles), piles, Rank(basecard))
      ensures piles == BasesUp(BasesUp(old(piles), STOCK, Rank(basecard)), TALON, Rank(basecard))
    {
      hide Links, Partition, CountsOf, BottomsOf, FoundationsOf, Rank, Based, TableauOf, DropsBases;
      ghost var rank := Rank(basecard);
      LastStartedIs(piles, rank, base);
      BasedDrops(piles, STOCK, base, rank);
      BasedKeeps(piles, STOCK, base, rank);
      TableauKept(piles, Based(piles, STOCK, base, rank), rank);
      FndBase(STOCK);
      LastStartedIs(piles, rank, base);
      BasedDrops(piles, TALON, base, rank);
      BasedKeeps(piles, TALON, base, rank);
      TableauKept(piles, Based(piles, TALON, base, rank), rank);
      FndBase(TALON);
    }

    /**
     One round: turn cards if need be, carry out a command, and make the automatic
     moves. `start` and `mid` are the piles before and after the command; in a game
     that is won or not inspected the command is to quit.
     */
    method Step(cmd: Command) returns (src: char, ghost start: seq<seq<int>>, ghost mid: seq<seq<int>>)
      requires Valid()
      modifies this
      ensures Valid() && basecard == old(basecard) && Now() == Round(old(Now()), cmd)
      ensures start == StartOf(old(piles), old(timesthru), old(base), Rank(basecard)) && |start| == PILES
      ensures src == cmd.src || (src == 'q' && (AllUp(start) || (!old(startedgame) && !cmd.inspect)))
      ensures AllUp(start) ==> src == 'q'
      ensures IsMove(src) ==> MoveMade(start, mid, SourceOf(src), cmd.dest)
      ensures !IsMove(src) && src != 'h' ==> mid == start
      ensures BasesMoved(mid, piles, Rank(basecard))
    {
      hide Links, Partition, CountsOf, BottomsOf, FoundationsOf, Rank, Based, TableauOf, AfterTurning, MoveMade,
           BasesMoved, AllUp, Ready, Effective, Carried, BasesUp, StartOf, Plays;
      Prepare();
      start := piles;
      src := Ask(cmd);
      Carry(src, cmd);
      mid := piles;
      MoveBases();
    }

    /** Turn cards if the talon is empty. */
    method Prepare()
      requires Valid()
      modifies this`next, this`heads, this`piles, this`place, this`stockcnt, this`taloncnt, this`cinhand,
               this`length, this`cardsoff, this`wins, this`base, this`timesthru, this`done
      ensures Valid() && Now() == Ready(old(Now())) && |piles| == PILES
      ensures piles == StartOf(old(piles), old(timesthru), old(base), Rank(basecard))
    {
      hide Links, Partition, CountsOf, BottomsOf, FoundationsOf, Rank, TableauOf, AfterTurning, Turned;
      LinksSize(next, heads, piles);
      HeadOf(next, heads, piles, TALON);
      HeadOf(next, heads, piles, HAND);
      if heads[TALON] == NIL && heads[HAND] != NIL { MoveToTalon(); }
    }

    /** The command to be carried out; the first one that plays raises the question of inspection. */
    method Ask(cmd: Command) returns (src: char)
      requires Valid()
      modifies this`startedgame
      ensures Valid() && src == Effective(old(Now()), cmd)
      ensures startedgame == (old(startedgame) || (!AllUp(piles) && Plays(cmd.src)))
      ensures src == cmd.src || (src == 'q' && (AllUp(piles) || (!old(startedgame) && !cmd.inspect)))
      ensures AllUp(piles) ==> src == 'q'
    {
      hide Links, Partition, CountsOf, BottomsOf, FoundationsOf, Rank, TableauOf, AllUp;
      WonIff(piles, place, length, stockcnt, cinhand, taloncnt, cardsoff);
      src := cmd.src;
      if cardsoff == DECK {
        src := 'q';
      }
      if !startedgame && (src == 't' || src == 's' || src == 'h' || src == '1' || src == '2' || src == '3'
                          || src == '4') {
        startedgame := true;
        if !cmd.inspect { src := 'q'; }
      }
    }

    /** Carry out a command. */
    method Carry(src: char, cmd: Command)
      requires Valid()
      modifies this`next, this`heads, this`piles, this`place, this`stockcnt, this`taloncnt, this`cinhand,
               this`length, this`cardsoff, this`wins, this`base, this`bottom, this`timesthru, this`done, this`infullgame
      ensures Core() && TableauOf(piles, Rank(basecard))
      ensures if IsMove(src) then MoveMade(old(piles), piles, SourceOf(src), cmd.dest)
              else if src == 'h' && (cmd.dest == 't' || cmd.dest == 'T') && (old(infullgame) || cmd.buy)
              then piles == AfterTurning(old(piles), old(timesthru), old(base), Rank(basecard))
              else piles == old(piles)
      ensures Now() == Carried(old(Now()), src, cmd)
      ensures done == (old(done) || src == 'q' || (src == 'h' && (cmd.dest == 't' || cmd.dest == 'T') &&
                ((!old(infullgame) && !cmd.buy) || (RunThrough(old(piles)) && old(timesthru) == 3))))
    {
      hide Links, Partition, CountsOf, BottomsOf, FoundationsOf, Rank, Based, TableauOf, AfterTurning, MoveMade;
      hide Allowed, AfterMove;
      LastStartedIs(piles, Rank(basecard), base);
      if src == 't' {
        Move(TALON, cmd.dest);
      } else if src == 's' {
        Move(STOCK, cmd.dest);
      } else if src == '1' || src == '2' || src == '3' || src == '4' {
        Move(src as int - '1' as int, cmd.dest);
      } else if src == 'h' && (cmd.dest == 't' || cmd.dest == 'T') {
        if !infullgame {
          if !cmd.buy {
            done := true;
            return;
          }
          infullgame := true;
          wins := wins + VALUE_PER_CARD * cardsoff;
        }
        MoveToTalon();
      } else if src == 'q' {
        done := true;
      }
    }

    /** Move a card, or a pile of the tableau; other destinations are refused. */
    method Move(src: nat, dest: char)
      requires Valid() && IsSource(src)
      modifies this`next, this`heads, this`piles, this`place, this`stockcnt, this`taloncnt, this`length,
               this`cardsoff, this`wins, this`bottom, this`timesthru
      ensures Core() && TableauOf(piles, Rank(basecard)) && MoveMade(old(piles), piles, src, dest)
      ensures Now() == Moving(old(Now()), src, dest)
    {
      hide Links, Partition, CountsOf, BottomsOf, FoundationsOf, Rank, TableauOf, MayRise, MayGo, MayJoin, Moved,
           Joined, MoveMade;
      MovingMade(piles, src, dest);
      if dest == 'f' || dest == 'F' {
        var ok, k := MoveToFound(src);
      } else if '1' <= dest <= '4' {
        var des := dest as int - '1' as int;
        if src < 4 {
          var ok := TabToTab(src, des);
        } else {
          var ok := SimpleTableau(src, des);
        }
      }
    }

    /**
     Play a game: whatever the player does, the state stays as it should be. The
     first n commands are carried out by the rules, up to the one that ends the game.
     */
    method Play(deck: seq<int>, cmds: seq<Command>) returns (n: nat)
      requires |deck| == DECK && IsDeck(deck)
      modifies this
      ensures Valid()
      ensures Conserved(piles, length, stockcnt, cinhand, taloncnt, cardsoff)
      ensures n <= |cmds| && Now() == Played(Opening(deck), cmds, n) && (done || n == |cmds|)
      ensures forall m :: 0 <= m < n ==> !Played(Opening(deck), cmds, m).done
    {
      hide IsDeck, Links, Partition, CountsOf, BottomsOf, FoundationsOf, Rank, TableauOf, Conserved, Opening, Round;
      StartGame(deck);
      done := false;
      n := 0;
      while n < |cmds| && !done
        invariant Valid() && n <= |cmds| && Now() == Played(Opening(deck), cmds, n)
        invariant forall m :: 0 <= m < n ==> !Played(Opening(deck), cmds, m).done
      {
        ghost var start, mid;
        var src;
        src, start, mid := Step(cmds[n]);
        n := n + 1;
      }
      CardsCounted(piles, place, length, stockcnt, cinhand, taloncnt, cardsoff);
    }
  }

  /** The counters and other properties of a fresh deal. */
  lemma DealCounts(deck: seq<int>)
    requires IsDeck(deck)
    ensures CountsOf(Deal(deck), [TABROW, TABROW, TABROW, TABROW], 13, 34, 0, 1)
    ensures BottomsOf(Deal(deck), DealPlace(deck), [deck[14], deck[15], deck[16], deck[17]])
    ensures FoundationsOf(Deal(deck), Rank(deck[13]), 0)
  {
    DealSizes(deck);
  }

  /** The piles with an empty hand made up from the talon. */
  ghost function Refilled(piles: seq<seq<int>>): (r: seq<seq<int>>)
    requires |piles| == PILES
    ensures |r| == PILES
  {
    if piles[HAND] == [] then TurnedOver(piles, |piles[TALON]|) else piles
  }

  /** The piles after cards are turned and base cards among them moved. */
  ghost function AfterTurning(piles: seq<seq<int>>, timesthru: int, base: int, rank: int): (r: seq<seq<int>>)
    requires |piles| == PILES && 0 <= base
    ensures |r| == PILES
  {
    if piles[HAND] == [] && (piles[TALON] == [] || timesthru == 3) then piles
    else
      var r := Refilled(piles);
      AfterDealing(r, Three(|r[HAND]|), base, rank)
  }

  ghost function AfterDealing(piles: seq<seq<int>>, n: nat, base: int, rank: int): (r: seq<seq<int>>)
    requires |piles| == PILES && n <= |piles[HAND]| && 0 <= base
    ensures |r| == PILES
  {
    Based(Dealt(piles, n), TALON, base, rank)
  }

  function Three(n: nat): (m: nat)
    ensures m <= n
  {
    if n >= 3 then 3 else n
  }

  lemma SettledIs(piles: seq<seq<int>>, place: seq<int>, bottom: seq<int>, rank: int, base: int)
    ensures Settled(piles, place, bottom, rank, base) <==>
              BottomsOf(piles, place, bottom) && FoundationsOf(piles, rank, base) && TableauOf(piles, rank)
  {
  }

  lemma HandRefilled(piles: seq<seq<int>>)
    requires |piles| == PILES && piles[HAND] == []
    ensures |TurnedOver(piles, |piles[TALON]|)[HAND]| == |piles[TALON]|
    ensures TurnedOver(piles, |piles[TALON]|)[STOCK] == piles[STOCK]
  {
    assert piles[TALON][..|piles[TALON]|] == piles[TALON];
    RevSize(piles[TALON]);
  }

  lemma DealtKeeps(piles: seq<seq<int>>, n: nat)
    requires |piles| == PILES && n <= |piles[HAND]|
    ensures |Dealt(piles, n)| == PILES && Dealt(piles, n)[STOCK] == piles[STOCK]
  {
  }

  lemma {:induction false} BasedShrinks(piles: seq<seq<int>>, src: nat, base: int, rank: int)
    requires |piles| == PILES && IsSource(src) && 0 <= base
    ensures |Based(piles, src, base, rank)| == PILES && |Based(piles, src, base, rank)[src]| <= |piles[src]|
    decreases |piles[src]|
  {
    if piles[src] != [] && Rank(piles[src][0]) == rank && base < 3 {
      BasedShrinks(Moved(piles, src, FOUND + base + 1), src, base + 1, rank);
    }
  }

  lemma DealSingles(deck: seq<int>)
    requires |deck| == DECK
    ensures Deal(deck)[TALON] == [] && forall i :: 0 <= i < 4 ==> |Deal(deck)[i]| == 1
  {
  }

  /** Base cards leave only the pile they were on, for the foundations. */
  lemma {:induction false} BasedKeeps(piles: seq<seq<int>>, src: nat, base: int, rank: int)
    requires |piles| == PILES && IsSource(src) && 0 <= base
    ensures var r := Based(piles, src, base, rank);
            |r| == PILES && forall p :: 0 <= p < PILES && p != src && !(FOUND <= p < STOCK) ==> r[p] == piles[p]
    decreases |piles[src]|
  {
    if piles[src] != [] && Rank(piles[src][0]) == rank && base < 3 {
      BasedKeeps(Moved(piles, src, FOUND + base + 1), src, base + 1, rank);
    }
  }

  lemma CountOfTalon(piles: seq<seq<int>>, length: seq<int>, stockcnt: int, cinhand: int, taloncnt: int, cardsoff: int)
    requires CountsOf(piles, length, stockcnt, cinhand, taloncnt, cardsoff)
    ensures |piles| == PILES && taloncnt == |piles[TALON]| && cinhand == |piles[HAND]|
  {
  }

  lemma TalonLeft(piles: seq<seq<int>>, n: nat)
    requires |piles| == PILES && n <= |piles[TALON]|
    ensures TurnedOver(piles, n)[TALON] == [] <==> n == |piles[TALON]|
  {
  }

  /** The bottom card of a tableau pile is recorded, and no card of the stock or the talon is. */
  lemma IsBottom(piles: seq<seq<int>>, place: seq<int>, bottom: seq<int>, src: nat, cp: int)
    requires BottomsOf(piles, place, bottom) && Partition(piles, place) && IsSource(src) && piles[src] != []
    requires cp == if src < 4 then piles[src][|piles[src]| - 1] else piles[src][0]
    ensures (exists i :: 0 <= i < 4 && cp == bottom[i]) <==> src < 4
  {
    assert IsCard(cp) && place[cp] == src;
    if src < 4 {
      assert BottomOf(piles[src], place, bottom[src]);
      assert cp == bottom[src];
    } else {
      forall i | 0 <= i < 4
        ensures cp != bottom[i]
      {
        assert BottomOf(piles[i], place, bottom[i]);
        if piles[i] != [] { assert place[piles[i][|piles[i]| - 1]] == i; }
      }
    }
  }

  lemma NotOnStock(piles: seq<seq<int>>, place: seq<int>, src: nat, cp: int)
    requires Partition(piles, place) && IsSource(src) && piles[src] != []
    requires cp == if src < 4 then piles[src][|piles[src]| - 1] else piles[src][0]
    ensures cp != NIL && (piles[STOCK] != [] && src != STOCK ==> cp != piles[STOCK][0])
  {
    assert IsCard(cp) && place[cp] == src;
    if piles[STOCK] != [] { assert place[piles[STOCK][0]] == STOCK; }
  }

  lemma Started(piles: seq<seq<int>>, rank: int, base: int, k: nat)
    requires FoundationsOf(piles, rank, base) && FOUND <= k < STOCK && piles[k] != []
    ensures k <= FOUND + base
  {
  }

  lemma BottomSize(piles: seq<seq<int>>, place: seq<int>, bottom: seq<int>)
    requires BottomsOf(piles, place, bottom)
    ensures |bottom| == 4
  {
  }

  lemma BottomIs(piles: seq<seq<int>>, place: seq<int>, bottom: seq<int>, i: nat)
    requires BottomsOf(piles, place, bottom) && i < 4 && Partition(piles, place)
    ensures piles[i] != [] ==> bottom[i] == piles[i][|piles[i]| - 1] && IsCard(bottom[i])
  {
    assert BottomOf(piles[i], place, bottom[i]);
  }

  lemma NoSelfJoin(piles: seq<seq<int>>, rank: int, i: nat)
    requires TableauOf(piles, rank) && 1 <= rank <= 13 && i < 4
    ensures !MayJoin(piles, i, i)
  {
    if piles[i] != [] { NoSelfMove(piles[i], rank); }
  }

  lemma LinksSize(next: seq<int>, heads: seq<int>, piles: seq<seq<int>>)
    requires Links(next, heads, piles)
    ensures |next| == DECK && |heads| == PILES && |piles| == PILES
  {
    assert IsList(next, heads[0], piles[0]);
  }

  lemma PartitionSize(piles: seq<seq<int>>, place: seq<int>)
    requires Partition(piles, place)
    ensures |place| == DECK
  {
  }

  lemma LengthSize(piles: seq<seq<int>>, length: seq<int>, stockcnt: int, cinhand: int, taloncnt: int, cardsoff: int)
    requires CountsOf(piles, length, stockcnt, cinhand, taloncnt, cardsoff)
    ensures |length| == 4
  {
  }

  lemma FoundationsBase(piles: seq<seq<int>>, rank: int, base: int)
    requires FoundationsOf(piles, rank, base)
    ensures 0 <= base < 4 && 1 <= rank <= 13
  {
  }

  lemma MovedLess(piles: seq<seq<int>>, src: nat, dst: nat)
    requires src < |piles| && dst < |piles| && src != dst && piles[src] != []
    ensures |Moved(piles, src, dst)| == |piles| && Moved(piles, src, dst)[src] == piles[src][1..]
  {
  }
}
