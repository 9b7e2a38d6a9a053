/**
 The keyword automaton of fgrep(1): a trie of the keywords, failure links set
 breadth first, and the scan of a line.
 */
module Fgrep {
  import opened FgrepWords

  // ----- the trie -----

  ghost predicate Forward(link: seq<nat>) {
    forall x :: 0 <= x < |link| && link[x] != 0 ==> x < link[x] < |link|
  }

  /**
   A state is a node and the chain of its links: one node for each character
   that leads on, to the state nst. Index 0 is the first state, and stands for
   no node where a link, a next or a failure state is missing. A node spells the
   characters that lead to its state.
   */
  ghost predicate Spells(inp: seq<char>, nst: seq<nat>, link: seq<nat>, spell: seq<string>) {
    && |inp| == |nst| == |link| == |spell| > 0 && spell[0] == "" && Forward(link)
    && (forall x :: 0 <= x < |link| && link[x] != 0 ==> spell[link[x]] == spell[x])
    && (forall x :: 0 <= x < |inp| ==> (nst[x] == 0 <==> inp[x] == '\0') && (inp[x] == '\0' ==> link[x] == 0))
    && (forall x :: 0 <= x < |nst| && nst[x] != 0 ==> x < nst[x] < |nst| && spell[nst[x]] == spell[x] + [inp[x]])
  }

  /** Where c leads from the chain that starts at node x; 0 if it leads nowhere. */
  ghost function Along(inp: seq<char>, nst: seq<nat>, link: seq<nat>, x: nat, c: char): nat
    requires |inp| == |nst| == |link| && Forward(link) && x < |inp|
    decreases |inp| - x
  {
    if inp[x] == c then nst[x] else if link[x] == 0 then 0 else Along(inp, nst, link, link[x], c)
  }

  ghost predicate OnChain(link: seq<nat>, h: nat, x: nat)
    requires Forward(link) && h < |link|
    decreases |link| - h
  {
    h == x || (link[h] != 0 && OnChain(link, link[h], x))
  }

  /** The strings in at are those that nodes spell. */
  ghost predicate StatesAt(spell: seq<string>, at: map<string, nat>) {
    && "" in at && at[""] == 0
    && (forall u :: u in at ==> at[u] < |spell| && spell[at[u]] == u)
    && (forall x :: 0 <= x < |spell| ==> spell[x] in at)
  }

  /** The nodes that spell a string are on the chain of its state. */
  ghost predicate Chained(link: seq<nat>, spell: seq<string>, at: map<string, nat>) {
    && |link| == |spell| && Forward(link)
    && (forall x :: 0 <= x < |spell| ==> spell[x] in at && at[spell[x]] < |link| && OnChain(link, at[spell[x]], x))
  }

  /** Nodes lead to different states. */
  ghost predicate Apart(nst: seq<nat>, spell: seq<string>, at: map<string, nat>) {
    && (forall x :: 0 <= x < |nst| && nst[x] != 0 ==>
          nst[x] < |spell| && spell[nst[x]] in at && at[spell[nst[x]]] == nst[x])
    && (forall x, y :: 0 <= x < y < |nst| && nst[x] != 0 ==> nst[x] != nst[y])
  }

  /** The last character of a string leads to its state. */
  ghost predicate Leads(inp: seq<char>, nst: seq<nat>, link: seq<nat>, at: map<string, nat>) {
    && |inp| == |nst| == |link| && Forward(link)
    && (forall v :: v in at && v != "" ==>
          Init(v) in at && at[Init(v)] < |inp| && Along(inp, nst, link, at[Init(v)], Last(v)) == at[v])
  }

  /** Every string in at has one state, which begins at the node given for it. */
  ghost predicate IsTrie(inp: seq<char>, nst: seq<nat>, link: seq<nat>, spell: seq<string>, at: map<string, nat>) {
    && Spells(inp, nst, link, spell) && StatesAt(spell, at)
    && Chained(link, spell, at) && Apart(nst, spell, at) && Leads(inp, nst, link, at)
  }

  lemma TrieSize(inp: seq<char>, nst: seq<nat>, link: seq<nat>, spell: seq<string>, at: map<string, nat>)
    requires IsTrie(inp, nst, link, spell, at)
    ensures |inp| == |nst| == |link| == |spell| > 0 && spell[0] == "" && Forward(link) && "" in at && at[""] == 0
    ensures IsStates(at.Keys)
    ensures forall u :: u in at ==> at[u] < |spell| && spell[at[u]] == u
    ensures forall x :: 0 <= x < |spell| ==> spell[x] in at
  {
  }

  lemma {:induction false} AlongSpells(inp: seq<char>, nst: seq<nat>, link: seq<nat>, spell: seq<string>,
                                       at: map<string, nat>, x: nat, c: char)
    requires IsTrie(inp, nst, link, spell, at) && x < |inp|
    ensures var t := Along(inp, nst, link, x, c);
            t != 0 ==> t < |spell| && spell[t] == spell[x] + [c] && spell[t] in at && at[spell[t]] == t
    decreases |inp| - x
  {
    if inp[x] != c && link[x] != 0 { AlongSpells(inp, nst, link, spell, at, link[x], c); }
  }

  /** A character leads from a state to the state of the longer string, if there is one. */
  lemma Goto(inp: seq<char>, nst: seq<nat>, link: seq<nat>, spell: seq<string>, at: map<string, nat>, u: string,
             c: char)
    requires IsTrie(inp, nst, link, spell, at) && u in at
    ensures Along(inp, nst, link, at[u], c) == if u + [c] in at then at[u + [c]] else 0
  {
    hide OnChain;
    AlongSpells(inp, nst, link, spell, at, at[u], c);
    assert Init(u + [c]) == u && Last(u + [c]) == c;
  }

  lemma {:induction false} ChainSame(link: seq<nat>, h: nat, x: nat)
    requires Forward(link) && h < |link|
    ensures Forward(link + [0]) && (OnChain(link + [0], h, x) <==> OnChain(link, h, x))
    decreases |link| - h
  {
    if link[h] != 0 { ChainSame(link, link[h], x); }
  }

  lemma {:induction false} ChainMore(link: seq<nat>, s: nat, h: nat, x: nat)
    requires Forward(link) && h < |link| && s < |link| && link[s] == 0
    ensures var more := link[s := |link|] + [0];
            && Forward(more) && (OnChain(link, h, x) ==> OnChain(more, h, x))
            && (OnChain(link, h, s) ==> OnChain(more, h, |link|))
    decreases |link| - h
  {
    if link[h] != 0 { ChainMore(link, s, link[h], x); }
  }

  lemma {:induction false} AlongLink(inp: seq<char>, nst: seq<nat>, link: seq<nat>, s: nat, h: nat, c: char)
    requires |inp| == |nst| == |link| && Forward(link) && h < |link| && s < |link| && link[s] == 0
    ensures Forward(link[s := |link|] + [0])
    ensures var t := Along(inp, nst, link, h, c); t != 0 ==>
              Along(inp + ['\0'], nst + [0], link[s := |link|] + [0], h, c) == t
    decreases |link| - h
  {
    if inp[h] != c && link[h] != 0 { AlongLink(inp, nst, link, s, link[h], c); }
  }

  lemma {:induction false} AlongNext(inp: seq<char>, nst: seq<nat>, link: seq<nat>, s: nat, h: nat, d: char, c: char)
    requires |inp| == |nst| == |link| && Forward(link) && h < |link| && s < |link| && inp[s] == '\0' && link[s] == 0
    requires forall x :: 0 <= x < |inp| ==> (nst[x] == 0 <==> inp[x] == '\0')
    ensures Forward(link + [0])
    ensures var t := Along(inp, nst, link, h, c); var t' := Along(inp[s := d] + ['\0'], nst[s := |link|] + [0],
              link + [0], h, c);
            (t != 0 ==> t' == t) && (c == d && t == 0 && OnChain(link, h, s) && d != '\0' ==> t' == |link|)
    decreases |link| - h
  {
    if inp[h] != c && link[h] != 0 { AlongNext(inp, nst, link, s, link[h], d, c); }
  }

  lemma SpellsLink(inp: seq<char>, nst: seq<nat>, link: seq<nat>, spell: seq<string>, s: nat)
    requires Spells(inp, nst, link, spell) && s < |inp| && link[s] == 0 && inp[s] != '\0'
    ensures Spells(inp + ['\0'], nst + [0], link[s := |link|] + [0], spell + [spell[s]])
  {
  }

  lemma SpellsNext(inp: seq<char>, nst: seq<nat>, link: seq<nat>, spell: seq<string>, s: nat, c: char)
    requires Spells(inp, nst, link, spell) && s < |inp| && inp[s] == '\0' && c != '\0'
    ensures Spells(inp[s := c] + ['\0'], nst[s := |inp|] + [0], link + [0], spell + [spell[s] + [c]])
  {
  }

  lemma ChainedLink(link: seq<nat>, spell: seq<string>, at: map<string, nat>, s: nat)
    requires Chained(link, spell, at) && s < |link| && link[s] == 0
    ensures Chained(link[s := |link|] + [0], spell + [spell[s]], at)
  {
    hide OnChain;
    var spell', link' := spell + [spell[s]], link[s := |link|] + [0];
    ChainMore(link, s, s, s);
    forall x | 0 <= x < |spell'|
      ensures spell'[x] in at && at[spell'[x]] < |link'| && OnChain(link', at[spell'[x]], x)
    {
      ChainMore(link, s, at[spell'[x]], if x < |spell| then x else s);
    }
  }

  lemma LeadsLink(inp: seq<char>, nst: seq<nat>, link: seq<nat>, at: map<string, nat>, s: nat)
    requires Leads(inp, nst, link, at) && s < |link| && link[s] == 0 && forall v :: v in at && v != "" ==> at[v] != 0
    ensures Leads(inp + ['\0'], nst + [0], link[s := |link|] + [0], at)
  {
    hide Along, OnChain;
    AlongLink(inp, nst, link, s, s, '\0');
    forall v | v in at && v != ""
      ensures Along(inp + ['\0'], nst + [0], link[s := |link|] + [0], at[Init(v)], Last(v)) == at[v]
    {
      AlongLink(inp, nst, link, s, at[Init(v)], Last(v));
    }
  }

  lemma StatesNonzero(spell: seq<string>, at: map<string, nat>)
    requires StatesAt(spell, at)
    ensures forall v :: v in at && v != "" ==> at[v] != 0
  {
    forall v | v in at && v != ""
      ensures at[v] != 0
    {
      assert spell[at[v]] == v;
    }
  }

  lemma StatesLink(nst: seq<nat>, spell: seq<string>, at: map<string, nat>, s: nat)
    requires StatesAt(spell, at) && Apart(nst, spell, at) && s < |spell|
    ensures StatesAt(spell + [spell[s]], at) && Apart(nst + [0], spell + [spell[s]], at)
  {
  }

  lemma TrieLink(inp: seq<char>, nst: seq<nat>, link: seq<nat>, spell: seq<string>, at: map<string, nat>, s: nat)
    requires IsTrie(inp, nst, link, spell, at) && s < |inp| && link[s] == 0 && inp[s] != '\0'
    ensures IsTrie(inp + ['\0'], nst + [0], link[s := |link|] + [0], spell + [spell[s]], at)
  {
    TrieSize(inp, nst, link, spell, at);
    hide Spells, StatesAt, Chained, Apart, Leads;
    StatesNonzero(spell, at);
    SpellsLink(inp, nst, link, spell, s);
    StatesLink(nst, spell, at, s);
    ChainedLink(link, spell, at, s);
    LeadsLink(inp, nst, link, at, s);
  }

  lemma StatesNext(spell: seq<string>, at: map<string, nat>, v: string)
    requires StatesAt(spell, at) && v !in at
    ensures StatesAt(spell + [v], at[v := |spell|])
  {
  }

  lemma ApartNext(nst: seq<nat>, spell: seq<string>, at: map<string, nat>, s: nat, v: string)
    requires Apart(nst, spell, at) && s < |nst| == |spell| && v !in at && nst[s] == 0
    ensures Apart(nst[s := |spell|] + [0], spell + [v], at[v := |spell|])
  {
    var nst', spell', at' := nst[s := |spell|] + [0], spell + [v], at[v := |spell|];
    forall x | 0 <= x < |nst'| && nst'[x] != 0
      ensures nst'[x] < |spell'| && spell'[nst'[x]] in at' && at'[spell'[nst'[x]]] == nst'[x]
    {
    }
  }

  lemma ChainedNext(link: seq<nat>, spell: seq<string>, at: map<string, nat>, v: string)
    requires Chained(link, spell, at) && v !in at
    ensures Chained(link + [0], spell + [v], at[v := |spell|])
  {
    hide OnChain;
    var link', spell', at' := link + [0], spell + [v], at[v := |spell|];
    forall x | 0 <= x < |spell'|
      ensures spell'[x] in at' && at'[spell'[x]] < |link'| && OnChain(link', at'[spell'[x]], x)
    {
      if x < |spell| { ChainSame(link, at[spell[x]], x); } else { HereOnChain(link', x); }
    }
  }

  lemma LeadsNext(inp: seq<char>, nst: seq<nat>, link: seq<nat>, at: map<string, nat>, s: nat, c: char, u: string)
    requires Leads(inp, nst, link, at) && s < |inp| && inp[s] == '\0' && link[s] == 0 && c != '\0'
    requires forall x :: 0 <= x < |inp| ==> (nst[x] == 0 <==> inp[x] == '\0')
    requires forall v :: v in at && v != "" ==> at[v] != 0
    requires u in at && at[u] < |inp| && u + [c] !in at
    requires OnChain(link, at[u], s) && Along(inp, nst, link, at[u], c) == 0
    ensures Leads(inp[s := c] + ['\0'], nst[s := |inp|] + [0], link + [0], at[u + [c] := |inp|])
  {
    hide Along, OnChain;
    AlongNext(inp, nst, link, s, s, c, c);
    var at' := at[u + [c] := |inp|];
    assert Init(u + [c]) == u && Last(u + [c]) == c;
    forall v | v in at' && v != ""
      ensures Init(v) in at' && at'[Init(v)] < |inp| + 1
      ensures Along(inp[s := c] + ['\0'], nst[s := |inp|] + [0], link + [0], at'[Init(v)], Last(v)) == at'[v]
    {
      if v == u + [c] {
        AlongNext(inp, nst, link, s, at[u], c, c);
      } else {
        assert Init(v) in at;
        AlongNext(inp, nst, link, s, at[Init(v)], c, Last(v));
      }
    }
  }

  lemma SpellsParts(inp: seq<char>, nst: seq<nat>, link: seq<nat>, spell: seq<string>, s: nat)
    requires Spells(inp, nst, link, spell) && s < |inp|
    ensures forall x :: 0 <= x < |inp| ==> (nst[x] == 0 <==> inp[x] == '\0')
    ensures inp[s] == '\0' ==> link[s] == 0 && nst[s] == 0
  {
  }

  lemma ChainedAt(link: seq<nat>, spell: seq<string>, at: map<string, nat>, s: nat)
    requires Chained(link, spell, at) && s < |spell|
    ensures spell[s] in at && at[spell[s]] < |link| && OnChain(link, at[spell[s]], s)
  {
  }

  lemma TrieNext(inp: seq<char>, nst: seq<nat>, link: seq<nat>, spell: seq<string>, at: map<string, nat>,
                 s: nat, c: char)
    requires IsTrie(inp, nst, link, spell, at) && s < |inp| && inp[s] == '\0' && c != '\0' && spell[s] + [c] !in at
    ensures IsTrie(inp[s := c] + ['\0'], nst[s := |inp|] + [0], link + [0], spell + [spell[s] + [c]],
                   at[spell[s] + [c] := |inp|])
  {
    TrieSize(inp, nst, link, spell, at);
    hide Spells, StatesAt, Chained, Apart, Leads, Along, OnChain;
    var v := spell[s] + [c];
    StatesNonzero(spell, at);
    SpellsParts(inp, nst, link, spell, s);
    SpellsNext(inp, nst, link, spell, s, c);
    StatesNext(spell, at, v);
    ApartNext(nst, spell, at, s, v);
    ChainedAt(link, spell, at, s);
    ChainedNext(link, spell, at, v);
    Goto(inp, nst, link, spell, at, spell[s], c);
    LeadsNext(inp, nst, link, at, s, c, spell[s]);
  }

  lemma HereOnChain(link: seq<nat>, x: nat)
    requires Forward(link) && x < |link|
    ensures OnChain(link, x, x)
  {
  }

  // ----- building the trie -----

  /** Exactly the states of the words are final. */
  ghost predicate Finals(out: seq<bool>, spell: seq<string>, at: map<string, nat>, words: set<string>) {
    && |out| == |spell| && words <= at.Keys
    && forall x :: 0 <= x < |out| ==> (out[x] <==> spell[x] in words && at[spell[x]] == x)
  }

  ghost predicate NoFails(fail: seq<nat>, n: nat) {
    |fail| == n && forall x :: 0 <= x < |fail| ==> fail[x] == 0
  }

  /** Every node but x has a character, or is the only one of its state. */
  ghost predicate Full(inp: seq<char>, spell: seq<string>, at: map<string, nat>, x: nat) {
    |inp| == |spell| && forall y :: 0 <= y < |inp| && y != x && inp[y] == '\0' ==> spell[y] in at && at[spell[y]] == y
  }

  lemma OneNode()
    ensures IsTrie(['\0'], [0], [0], [""], map["" := 0]) && Finals([false], [""], map["" := 0], {}) && NoFails([0], 1)
    ensures Full(['\0'], [""], map["" := 0], 0)
  {
    assert OnChain([0], 0, 0);
  }

  lemma FinalsMore(out: seq<bool>, spell: seq<string>, at: map<string, nat>, words: set<string>, v: string)
    requires Finals(out, spell, at, words) && forall k :: k in at ==> at[k] < |spell|
    ensures v in at ==> Finals(out + [false], spell + [v], at, words)
    ensures v !in at ==> Finals(out + [false], spell + [v], at[v := |spell|], words)
  {
  }

  lemma FinalsAdd(out: seq<bool>, spell: seq<string>, at: map<string, nat>, words: set<string>, s: nat)
    requires Finals(out, spell, at, words) && s < |spell| && spell[s] in at && at[spell[s]] == s
    ensures |out| == |spell| && Finals(out[s := true], spell, at, words + {spell[s]})
  {
  }

  lemma NoFailsMore(fail: seq<nat>, n: nat)
    requires NoFails(fail, n)
    ensures NoFails(fail + [0], n + 1)
  {
  }

  lemma FullMore(inp: seq<char>, spell: seq<string>, at: map<string, nat>, s: nat, c: char, v: string)
    requires s < |inp| && Full(inp, spell, at, s) && c != '\0' && (v in at ==> inp[s] == c)
    ensures v in at ==> Full(inp + ['\0'], spell + [v], at, |inp|)
    ensures v !in at ==> Full(inp[s := c] + ['\0'], spell + [v], at[v := |inp|], |inp|)
  {
  }

  lemma GrowLink(inp: seq<char>, nst: seq<nat>, link: seq<nat>, spell: seq<string>, at: map<string, nat>,
                 out: seq<bool>, words: set<string>, s: nat) returns (v: string)
    requires IsTrie(inp, nst, link, spell, at) && Finals(out, spell, at, words) && Full(inp, spell, at, s)
    requires s < |inp| && link[s] == 0 && inp[s] != '\0'
    ensures |inp| == |nst| == |link| == |spell| == |out| && v == spell[s]
    ensures IsTrie(inp + ['\0'], nst + [0], link[s := |inp|] + [0], spell + [v], at)
    ensures Finals(out + [false], spell + [v], at, words) && Full(inp + ['\0'], spell + [v], at, |inp|)
  {
    v := spell[s];
    TrieLink(inp, nst, link, spell, at, s);
    TrieSize(inp, nst, link, spell, at);
    FinalsMore(out, spell, at, words, v);
    FullMore(inp, spell, at, s, inp[s], v);
  }

  lemma GrowNext(inp: seq<char>, nst: seq<nat>, link: seq<nat>, spell: seq<string>, at: map<string, nat>,
                 out: seq<bool>, words: set<string>, s: nat, c: char) returns (v: string)
    requires IsTrie(inp, nst, link, spell, at) && Finals(out, spell, at, words) && Full(inp, spell, at, s)
    requires s < |inp| && inp[s] == '\0' && c != '\0' && spell[s] + [c] !in at
    ensures |inp| == |nst| == |link| == |spell| == |out| && v == spell[s] + [c]
    ensures IsTrie(inp[s := c] + ['\0'], nst[s := |inp|] + [0], link + [0], spell + [v], at[v := |inp|])
    ensures Finals(out + [false], spell + [v], at[v := |inp|], words)
    ensures Full(inp[s := c] + ['\0'], spell + [v], at[v := |inp|], |inp|)
  {
    v := spell[s] + [c];
    TrieNext(inp, nst, link, spell, at, s, c);
    TrieSize(inp, nst, link, spell, at);
    FinalsMore(out, spell, at, words, v);
    FullMore(inp, spell, at, s, c, v);
  }

  /** The lines that end before position e are the words, and what they begin with are the states. */
  ghost predicate Holds(list: string, e: nat, at: map<string, nat>, words: set<string>) {
    && (forall k :: k in words <==> IsLine(list, e, k))
    && (forall v :: v in at <==> v == "" || BeginsLine(list, e, v))
  }

  ghost predicate HoldsAll(list: string, at: map<string, nat>, words: set<string>) {
    && (forall k :: k in words <==> IsEntered(list, k))
    && (forall v :: v in at <==> v == "" || BeginsKeyword(list, v))
  }

  /** What w begins with is added to the states. */
  ghost predicate Adds(at: map<string, nat>, at': map<string, nat>, w: string) {
    forall v :: v in at' <==> v in at || v <= w
  }

  /** A line that ended is a word now. */
  lemma HoldsMore(list: string, a: nat, b: nat, e: nat, at: map<string, nat>, words: set<string>, at': map<string, nat>)
    requires a <= b < |list| && WordAt(list, a, b) && e == b + 1 && Holds(list, a, at, words)
    requires Adds(at, at', list[a..b])
    ensures Holds(list, e, at', words + {list[a..b]})
  {
    hide IsLine, WordAt, BeginsLine;
    forall k
      ensures IsLine(list, e, k) <==> IsLine(list, a, k) || k == list[a..b]
    {
      LineMore(list, a, b, e, k);
    }
    forall v
      ensures BeginsLine(list, e, v) <==> BeginsLine(list, a, v) || v <= list[a..b]
    {
      BeginsMore(list, a, b, e, v);
    }
  }

  /** The list ends inside a line that begins an earlier one, or behind a newline. */
  lemma HoldsRest(list: string, a: nat, at: map<string, nat>, words: set<string>)
    requires a <= |list| && IsStart(list, a) && NoBreak(list, a, |list|) && Holds(list, a, at, words) && list[a..] in at
    requires IsStates(at.Keys)
    ensures HoldsAll(list, at, words)
  {
    hide IsLine, WordAt, IsRest, IsStart, NoBreak, IsStates, BeginsKeyword;
    forall k
      ensures k in words <==> IsEntered(list, k)
    {
      LinesSame(list, a, k);
      if k == list[a..] && a < |list| {
        var l :| IsLine(list, a, l) && k <= l;
        LinesSame(list, a, l);
      }
    }
    forall v
      ensures v in at <==> v == "" || BeginsKeyword(list, v)
    {
      BeginsSame(list, a, v);
      if v <= list[a..] { PrefixIn(at.Keys, v, list[a..]); }
    }
  }

  /** The list ends with a line that is new. */
  lemma HoldsLast(list: string, a: nat, i: nat, at: map<string, nat>, words: set<string>, at': map<string, nat>)
    requires a < i <= |list| && IsStart(list, a) && NoBreak(list, a, |list|) && Holds(list, a, at, words)
    requires list[a..i] !in at
    requires Adds(at, at', list[a..])
    ensures HoldsAll(list, at', words + {list[a..]})
  {
    hide IsLine, WordAt, IsRest, IsStart, NoBreak, BeginsKeyword;
    forall k
      ensures k in words || k == list[a..] <==> IsEntered(list, k)
    {
      LinesSame(list, a, k);
      forall l | IsLine(list, |list|, l)
        ensures !(list[a..] <= l)
      {
        LinesSame(list, a, l);
      }
    }
    forall v
      ensures v in at' <==> v == "" || BeginsKeyword(list, v)
    {
      BeginsSame(list, a, v);
    }
  }

  // ----- failure states -----

  /** States done have the failure states of their strings; the others have none yet. */
  ghost predicate Linked(fail: seq<nat>, spell: seq<string>, at: map<string, nat>, done: set<string>) {
    && |fail| == |spell|
    && forall x :: 0 <= x < |fail| ==>
         if spell[x] in done then Fail(at.Keys, spell[x]) in at &&
           fail[x] == at[Fail(at.Keys, spell[x])] else fail[x] == 0
  }

  /** States done are final if they end in a word; of the first state only the first node can be final. */
  ghost predicate Marked(out: seq<bool>, spell: seq<string>, at: map<string, nat>, words: set<string>,
                         done: set<string>) {
    && |out| == |spell|
    && (forall v :: v in at ==> at[v] < |out| && (out[at[v]] <==>
      if v in done then Hits(at.Keys, words, v) else v in words))
    && (forall x :: 0 < x < |out| && spell[x] == "" ==> !out[x])
  }

  /** The nodes that spell v get failure state t. */
  ghost predicate FailSet(fail: seq<nat>, fail': seq<nat>, spell: seq<string>, v: string, t: nat) {
    |fail'| == |fail| == |spell| && forall x :: 0 <= x < |fail| ==> fail'[x] == if spell[x] == v then t else fail[x]
  }

  /** The nodes that spell v become final if b is true. */
  ghost predicate OutSet(out: seq<bool>, out': seq<bool>, spell: seq<string>, v: string, b: bool) {
    |out'| == |out| == |spell| && forall x :: 0 <= x < |out| ==> (out'[x] <==> out[x] || (spell[x] == v && b))
  }

  /** As far as the chain of v was followed, up to node q, its nodes have value t. */
  ghost predicate PartSet<T>(f: seq<T>, f': seq<T>, link: seq<nat>, spell: seq<string>, v: string, q: nat, t: T) {
    && |f| == |f'| == |link| == |spell| && Forward(link) && q < |link|
    && forall x :: 0 <= x < |f| ==> f'[x] == if spell[x] == v && !OnChain(link, q, x) then t else f[x]
  }

  ghost predicate AllOf<T>(f: seq<T>, f': seq<T>, spell: seq<string>, v: string, t: T) {
    |f| == |f'| == |spell| && forall x :: 0 <= x < |f| ==> f'[x] == if spell[x] == v then t else f[x]
  }

  ghost predicate FinalAt(out: seq<bool>, at: map<string, nat>, f: string) {
    f != "" && f in at && at[f] < |out| && out[at[f]]
  }

  lemma StartLinked(inp: seq<char>, nst: seq<nat>, link: seq<nat>, spell: seq<string>, at: map<string, nat>,
                    fail: seq<nat>, out: seq<bool>, words: set<string>)
    requires IsTrie(inp, nst, link, spell, at) && Finals(out, spell, at, words) && NoFails(fail, |inp|)
    ensures Linked(fail, spell, at, {""}) && Marked(out, spell, at, words, {""}) && |out| == |fail| == |inp|
  {
    hide OnChain, Along;
  }

  lemma LinkedMore(fail: seq<nat>, fail': seq<nat>, spell: seq<string>, at: map<string, nat>, done: set<string>,
                   v: string)
    requires Linked(fail, spell, at, done) && v !in done && Fail(at.Keys, v) in at
    requires FailSet(fail, fail', spell, v, at[Fail(at.Keys, v)])
    ensures Linked(fail', spell, at, done + {v})
  {
  }

  lemma MarkedMore(out: seq<bool>, out': seq<bool>, spell: seq<string>, at: map<string, nat>, words: set<string>,
                   done: set<string>, v: string)
    requires Marked(out, spell, at, words, done) && v in at && v != "" && v !in done && Fail(at.Keys, v) in done
    requires (forall u :: u in at ==> at[u] < |spell| && spell[at[u]] == u) && Fail(at.Keys, v) in at
    requires OutSet(out, out', spell, v, FinalAt(out, at, Fail(at.Keys, v)))
    ensures Marked(out', spell, at, words, done + {v})
  {
    hide Fail;
  }

  class Automaton {
    var inp: seq<char>
    var out: seq<bool>
    var nst: seq<nat>
    var link: seq<nat>
    var fail: seq<nat>
    /** What every node spells. */
    ghost var spell: seq<string>
    /** The node at which the state of a string begins. */
    ghost var at: map<string, nat>
    ghost var words: set<string>

    /** A trie of words, without failure states. */
    ghost predicate Growing()
      reads this
    {
      IsTrie(inp, nst, link, spell, at) && Finals(out, spell, at, words) && NoFails(fail, |inp|)
    }

    /** One node, for the first state. */
    constructor ()
      ensures Growing() && Full(inp, spell, at, 0) && at == map["" := 0] && words == {}
    {
      hide IsTrie, Finals, NoFails, Full;
      inp, out, nst, link, fail, spell := ['\0'], [false], [0], [0], [0], [""];
      at, words := map["" := 0], {};
      OneNode();
    }

    /** A new node in the chain of a state. */
    method AddLink(s: nat) returns (m: nat)
      requires Growing() && s < |inp| && link[s] == 0 && inp[s] != '\0' && Full(inp, spell, at, s)
      modifies this
      ensures Growing() && m < |inp| && inp[m] == '\0' && spell[m] == old(spell)[s] && Full(inp, spell, at, m)
      ensures at == old(at) && words == old(words)
    {
      hide IsTrie, Finals, NoFails, Full;
      ghost var v := GrowLink(inp, nst, link, spell, at, out, words, s);
      NoFailsMore(fail, |inp|);
      m := |inp|;
      inp, out, nst, link, fail, spell := inp + ['\0'], out + [false], nst + [0], link[s := m] + [0], fail + [0],
        spell + [v];
    }

    /** A new state, to which c leads from node s. */
    method AddNext(s: nat, c: char) returns (m: nat)
      requires Growing() && s < |inp| && inp[s] == '\0' && c != '\0' && spell[s] + [c] !in at && Full(inp, spell, at, s)
      modifies this
      ensures Growing() && m == |old(inp)| < |inp| && inp[m] == '\0' && spell[m] == old(spell)[s] + [c]
      ensures Full(inp, spell, at, m)
      ensures at == old(at)[spell[m] := m] && words == old(words)
    {
      hide IsTrie, Finals, NoFails, Full;
      ghost var v := GrowNext(inp, nst, link, spell, at, out, words, s, c);
      NoFailsMore(fail, |inp|);
      m := |inp|;
      inp, out, nst, link, fail := inp[s := c] + ['\0'], out + [false], nst[s := m] + [0], link + [0], fail + [0];
      spell, at := spell + [v], at[v := m];
    }

    /** Mark a state as final. */
    method Accept(s: nat)
      requires Growing() && s < |inp| && spell[s] in at && at[spell[s]] == s
      modifies this`out, this`words
      ensures Growing() && words == old(words) + {spell[s]}
    {
      TrieSize(inp, nst, link, spell, at);
      hide IsTrie, Finals, NoFails;
      FinalsAdd(out, spell, at, words, s);
      out := out[s := true];
      words := words + {spell[s]};
    }

    /** Follow c from the state of node s, or make room for it. */
    method Follow(s0: nat, c: char) returns (s: nat, known: bool)
      requires Growing() && Full(inp, spell, at, 0) && s0 < |inp| && spell[s0] in at && at[spell[s0]] == s0 && c != '\0'
      modifies this
      ensures Growing() && s < |inp| && at == old(at) && words == old(words)
      ensures var v := old(spell)[s0] + [c];
              if known then spell[s] == v && v in at && at[v] == s && Full(inp, spell, at, 0)
              else spell[s] == old(spell)[s0] && v !in at && inp[s] == '\0' && Full(inp, spell, at, s)
    {
      hide OnChain, Finals, NoFails;
      s, known := s0, false;
      Goto(inp, nst, link, spell, at, spell[s0], c);
      while true
        invariant Growing() && s < |inp| && spell == old(spell) && inp == old(inp) && nst == old(nst)
        invariant link == old(link)
        invariant at == old(at) && words == old(words) && Full(inp, spell, at, 0) && spell[s] == spell[s0]
        invariant Along(inp, nst, link, s, c) == Along(inp, nst, link, s0, c)
        decreases |inp| - s
      {
        if inp[s] == c {
          return nst[s], true;
        }
        if inp[s] == '\0' { return; }
        if link[s] == 0 {
          s := AddLink(s);
          return;
        }
        s := link[s];
      }
    }

    /** Add the rest of a word: the characters from position i - 1 on, up to a newline or the end of the list. */
    method Enter(s0: nat, list: string, ghost a: nat, i0: nat) returns (i: nat)
      requires Growing() && '\0' !in list && s0 < |inp| && inp[s0] == '\0' && Full(inp, spell, at, s0)
      requires a < i0 <= |list| && IsStart(list, a) && NoBreak(list, a, i0) && spell[s0] == list[a..i0 - 1]
      requires list[a..i0] !in at
      modifies this
      ensures Growing() && Full(inp, spell, at, 0)
      ensures i0 <= i <= |list| && WordAt(list, a, i) && words == old(words) + {list[a..i]}
      ensures Adds(old(at), at, list[a..i])
    {
      hide IsTrie, Finals, NoFails, Full, Adds, IsStates;
      var s: nat := s0;
      i := i0;
      TrieSize(inp, nst, link, spell, at);
      AddsNone(at, list, a, i0 - 1);
      while true
        invariant Growing() && |inp| == |spell| && s < |inp| && inp[s] == '\0' && i0 <= i <= |list|
        invariant Full(inp, spell, at, s)
        invariant spell[s] == list[a..i - 1] && NoBreak(list, a, i) && words == old(words)
        invariant Adds(old(at), at, list[a..i - 1])
        decreases |list| - i
      {
        AddsOne(old(at), at, list, a, i0, i, |inp|);
        s := AddNext(s, list[i - 1]);
        TrieSize(inp, nst, link, spell, at);
        if i == |list| || list[i] == '\n' { break; }
        i := i + 1;
      }
      FullHere(inp, spell, at, s, 0);
      Accept(s);
    }

    /** Build the trie of the keywords in the list. */
    method CGoto(list: string)
      requires Growing() && Full(inp, spell, at, 0) && at == map["" := 0] && words == {} && '\0' !in list
      modifies this
      ensures Growing() && Full(inp, spell, at, 0) && HoldsAll(list, at, words)
    {
      hide IsTrie, Finals, NoFails, Full, Holds, HoldsAll, Adds, IsStates;
      TrieSize(inp, nst, link, spell, at);
      NoLines(list, at, words);
      var s: nat, i: nat := 0, 0;
      ghost var a: nat := 0;
      while i < |list|
        invariant Growing() && Full(inp, spell, at, 0) && |inp| == |spell| && s < |inp| && a <= i <= |list|
        invariant IsStart(list, a) && NoBreak(list, a, i) && Holds(list, a, at, words)
        invariant spell[s] == list[a..i] && list[a..i] in at && at[list[a..i]] == s
        decreases |list| - i
      {
        TrieSize(inp, nst, link, spell, at);
        var c := list[i];
        ghost var at1, words1 := at, words;
        i := i + 1;
        if c == '\n' {
          Accept(s);
          AddsNone(at, list, a, i - 1);
          HoldsMore(list, a, i - 1, i, at, words1, at);
          s, a := 0, i;
        } else {
          assert list[a..i] == list[a..i - 1] + [c];
          var known;
          s, known := Follow(s, c);
          if !known {
            ghost var i1 := i;
            i := Enter(s, list, a, i);
            if i == |list| {
              assert list[a..i] == list[a..];
              HoldsLast(list, a, i1, at1, words1, at);
              return;
            }
            HoldsMore(list, a, i, i + 1, at1, words1, at);
            i := i + 1;
            s, a := 0, i;
          }
        }
        TrieSize(inp, nst, link, spell, at);
      }
      TrieSize(inp, nst, link, spell, at);
      assert list[a..i] == list[a..];
      HoldsRest(list, a, at, words);
    }

    ghost predicate Tree()
      reads this
    {
      IsTrie(inp, nst, link, spell, at) && |out| == |fail| == |inp|
    }

    /** Set the failure state of q and of its links, and make them final with it. */
    method SetFail(q0: nat, state: nat, ghost v: string)
      requires Tree() && v in at && q0 == at[v] && state < |inp| && nst[state] != 0 && spell[nst[state]] != v
      modifies this`fail, this`out
      ensures Tree() && FailSet(old(fail), fail, spell, v, nst[state])
      ensures OutSet(old(out), out, spell, v, old(out)[nst[state]])
    {
      hide IsTrie, Spells, PartSet, OnChain, FailSet, OutSet;
      TrieSize(inp, nst, link, spell, at);
      PartStart(inp, nst, link, spell, at, v);
      NextInside(inp, nst, link, spell, at, state);
      ghost var t, b := nst[state], old(out)[nst[state]];
      var q: nat := q0;
      while true
        invariant Tree() && q < |inp| && spell[q] == v && out[t] == b
        invariant PartSet(old(fail), fail, link, spell, v, q, t)
        invariant if b then PartSet(old(out), out, link, spell, v, q, true) else out == old(out)
        decreases |inp| - q
      {
        PartNext(old(fail), fail, link, spell, v, q, t);
        fail := fail[q := nst[state]];
        if out[nst[state]] {
          PartNext(old(out), out, link, spell, v, q, true);
          out := out[q := true];
        }
        if link[q] == 0 { break; }
        LinkInside(inp, nst, link, spell, at, q);
        q := link[q];
      }
      AllSet(old(fail), fail, old(out), out, spell, v, t, b);
    }

    /**
     Find the failure state of the state after node s: where its character leads
     from the failure state of s, or else from the first state.
     */
    method FailOf(s: nat, ghost v: string)
      requires Tree() && s < |inp| && nst[s] != 0 && spell[s] != "" && v == spell[s] + [inp[s]]
      requires fail[s] == FailNode(at, spell[s]) && forall x :: 0 <= x < |inp| && spell[x] == v ==> fail[x] == 0
      modifies this`fail, this`out
      ensures Tree() && FailSet(old(fail), fail, spell, v, FailNode(at, v))
      ensures OutSet(old(out), out, spell, v, FinalAt(old(out), at, Fail(at.Keys, v)))
    {
      hide IsTrie, Spells, FailSet, OutSet, OnChain, Fail;
      TrieSize(inp, nst, link, spell, at);
      NextInside(inp, nst, link, spell, at, s);
      var c := inp[s];
      FailLeads(inp, nst, link, spell, at, spell[s], c);
      var state: nat := fail[s];
      var bstart := state == 0;
      while true
        invariant Tree() && state < |inp| && fail == old(fail) && out == old(out)
        invariant FailNode(at, v) ==
                    if !bstart && Along(inp, nst, link, state, c) != 0 then Along(inp, nst, link, state, c)
                    else Along(inp, nst, link, if bstart then state else 0, c)
        decreases !bstart, |inp| - state
      {
        if inp[state] == c {
          HasNext(inp, nst, link, spell, at, state);
          SetFail(nst[s], state, v);
          return;
        }
        if link[state] != 0 {
          LinkInside(inp, nst, link, spell, at, state);
          state := link[state];
        } else if bstart {
          break;
        } else {
          state, bstart := 0, true;
        }
      }
      NoneSet(fail, out, spell, v);
    }

    /** Queue the states after a state, and set their failure states unless it is the first state. */
    method QueueNext(s0: nat, queue0: seq<nat>, fails: bool, ghost u: string, ghost done0: set<string>)
      returns (queue: seq<nat>, ghost next: seq<string>, ghost done: set<string>)
      requires Tree() && u in at && s0 == at[u] && (fails <==> u != "") && u in done0
      requires Linked(fail, spell, at, done0) && Marked(out, spell, at, words, done0)
      requires forall v :: v in at && |v| <= |u| ==> v in done0
      requires forall v :: v in at && v != "" && Init(v) == u ==> v !in done0
      modifies this`fail, this`out
      ensures Tree() && Linked(fail, spell, at, done) && Marked(out, spell, at, words, done)
      ensures AreNext(at.Keys, u, next) && (forall v :: v in done <==> v in done0 || v in next)
      ensures Queued(queue, queue0, at, next)
    {
      hide IsTrie, Linked, Marked, Queued, FailSet, OutSet, Fail, Along;
      TrieSize(inp, nst, link, spell, at);
      queue, next, done := queue0, [], done0;
      QueuedNone(queue0, at);
      SeenStart(inp, nst, link, spell, at, u);
      var s: nat := s0;
      while true
        invariant Tree() && s < |inp| && spell[s] == u && Linked(fail, spell, at, done)
        invariant Marked(out, spell, at, words, done)
        invariant (forall v :: v in done <==> v in done0 || v in next) && Queued(queue, queue0, at, next)
        invariant Seen(inp, nst, link, at, u, s, next)
        decreases |inp| - s
      {
        if inp[s] != '\0' {
          HasNext(inp, nst, link, spell, at, s);
          NextInside(inp, nst, link, spell, at, s);
          ghost var v := u + [inp[s]];
          SeenNot(inp, nst, link, at, u, s, next, v);
          QueuedMore(queue, queue0, at, next, v);
          queue := queue + [nst[s]];
          ghost var fail1, out1 := fail, out;
          FailReady(inp, nst, link, spell, at, fail, done, done0, u, v);
          if fails {
            LinkedHere(fail, spell, at, done, s);
            FailOf(s, v);
          } else {
            NoneSet(fail, out, spell, v);
          }
          DoneMore(fail1, fail, out1, out, spell, at, words, done, v);
          done := done + {v};
        }
        ghost var next1 := if inp[s] == '\0' then next else next + [u + [inp[s]]];
        TrieStep(inp, nst, link, spell, at, s);
        SeenMore(inp, nst, link, at, u, s, next, next1);
        next := next1;
        if link[s] == 0 { break; }
        LinkInside(inp, nst, link, spell, at, s);
        s := link[s];
      }
    }

    /** Set the failure states, breadth first. */
    method CFail()
      requires Growing()
      modifies this`fail, this`out
      ensures Tree() && Linked(fail, spell, at, at.Keys) && Marked(out, spell, at, words, at.Keys)
    {
      hide IsTrie, Finals, NoFails, Linked, Marked, Queued, AreNext, IsWork, IsStates;
      TrieSize(inp, nst, link, spell, at);
      StartLinked(inp, nst, link, spell, at, fail, out, words);
      WorkStart(at);
      ghost var names, done, left, next := [""], {""}, at.Keys, [];
      WorkFirst(at, [0], names, done, left);
      ghost var done1 := done;
      var queue: seq<nat>;
      queue, next, done := QueueNext(0, [], false, "", done);
      assert [0][1..] == [];
      WorkNext(at, [0], names, done1, left, queue, next, done);
      names, left := names[1..] + next, left - {names[0]};
      while queue != []
        invariant Tree() && Linked(fail, spell, at, done) && Marked(out, spell, at, words, done)
        invariant IsWork(at, queue, names, done, left)
        invariant "" !in names
        decreases |left|
      {
        WorkFirst(at, queue, names, done, left);
        ghost var u, queue1 := names[0], queue;
        done1 := done;
        queue, next, done := QueueNext(queue[0], queue[1..], true, u, done);
        WorkNext(at, queue1, names, done1, left, queue, next, done);
        names, left := names[1..] + next, left - {u};
      }
      WorkDone(at, names, done, left);
    }

    /** The automaton is complete. */
    ghost predicate Ready()
      reads this
    {
      && Tree() && Full(inp, spell, at, 0)
      && Linked(fail, spell, at, at.Keys) && Marked(out, spell, at, words, at.Keys)
    }

    /** One character moves the automaton through links and failure states. */
    method Next(c0: nat, p: char, ghost u: string) returns (c: nat)
      requires Ready() && Stands(link, spell, at, c0, u) && p != '\0'
      ensures Stands(link, spell, at, c, Step(at.Keys, u, p)) && (spell[c] == "" ==> link[c] == 0)
    {
      hide IsTrie, Marked, Linked, Fail, OnChain, IsStates, Full;
      TrieSize(inp, nst, link, spell, at);
      c := c0;
      var restart := false;
      ghost var v := u;
      while true
        invariant c < |inp| && v in at && spell[c] == v && Step(at.Keys, v, p) == Step(at.Keys, u, p)
        invariant restart ==> v == ""
        invariant restart || v != "" ==> Along(inp, nst, link, c, p) == Along(inp, nst, link, at[v], p)
        decreases !restart, |v|, |inp| - c
      {
        AlongSpells(inp, nst, link, spell, at, c, p);
        Goto(inp, nst, link, spell, at, v, p);
        FailHere(inp, nst, link, spell, at, fail, c);
        if inp[c] == p {
          HasNext(inp, nst, link, spell, at, c);
          return nst[c];
        }
        if link[c] != 0 {
          LinkInside(inp, nst, link, spell, at, c);
          c := link[c];
        } else if restart {
          return;
        } else if fail[c] == 0 {
          c, restart, v := 0, true, "";
        } else {
          c, v := fail[c], Fail(at.Keys, v);
        }
      }
    }

    /** Scan a line and the newline after it, up to the first final state. */
    method Scan(line: string) returns (found: bool)
      requires Ready() && '\n' !in line && '\0' !in line && forall v :: v in at ==> '\n' !in v
      ensures found <==> Reports(at.Keys, words, line) || ("" in words && OneLetter(at.Keys))
    {
      hide IsTrie, Marked, Linked, Full, IsStates, Step, Hits, RunFrom, OneLetter, OnChain;
      TrieSize(inp, nst, link, spell, at);
      ghost var text := line + "\n";
      var c: nat, i := 0, 0;
      StartStands(inp, nst, link, spell, at, text);
      while i <= |line|
        invariant 0 <= i <= |text| && Stands(link, spell, at, c, Run(at.Keys, text[..i]))
        invariant forall j :: 0 < j <= i ==> !FinalSeen(at.Keys, words, text, j)
      {
        RunMore(at.Keys, text, i);
        c := Next(c, if i < |line| then line[i] else '\n', Run(at.Keys, text[..i]));
        i := i + 1;
        IsFinal(inp, nst, link, spell, at, out, words, c, Run(at.Keys, text[..i]));
        if out[c] {
          SeenReports(at.Keys, words, line, i);
          return true;
        }
      }
      NoneSeen(at.Keys, words, line);
      found := false;
    }
  }

  /** Node c stands for state u: it is its first node, but any node will do for the first state. */
  ghost predicate Stands(link: seq<nat>, spell: seq<string>, at: map<string, nat>, c: nat, u: string) {
    && |link| == |spell| && u in at && c < |spell| && spell[c] == u && (u != "" ==> c == at[u])
  }

  lemma StartStands(inp: seq<char>, nst: seq<nat>, link: seq<nat>, spell: seq<string>, at: map<string, nat>,
                    text: string)
    requires IsTrie(inp, nst, link, spell, at)
    ensures Stands(link, spell, at, 0, Run(at.Keys, text[..0]))
  {
    TrieSize(inp, nst, link, spell, at);
    hide IsTrie;
  }

  lemma FailHere(inp: seq<char>, nst: seq<nat>, link: seq<nat>, spell: seq<string>, at: map<string, nat>,
                 fail: seq<nat>, c: nat)
    requires IsTrie(inp, nst, link, spell, at) && Linked(fail, spell, at, at.Keys) && c < |spell|
    ensures var f := Fail(at.Keys, spell[c]);
            f in at && fail[c] == at[f] < |spell| && spell[fail[c]] == f && (spell[c] == "" ==> f == "") &&
              (fail[c] == 0 <==> f == "")
  {
    TrieSize(inp, nst, link, spell, at);
    hide IsTrie;
  }

  lemma RunMore(states: set<string>, text: string, i: nat)
    requires i < |text|
    ensures Run(states, text[..i + 1]) == Step(states, Run(states, text[..i]), text[i])
  {
    assert Init(text[..i + 1]) == text[..i];
  }

  /** The state after j characters shows. */
  ghost predicate FinalSeen(states: set<string>, words: set<string>, text: string, j: nat)
    requires j <= |text|
  {
    HitsAt(states, words, text, j) || (Run(states, text[..j]) == "" && "" in words && OneLetter(states))
  }

  lemma IsFinal(inp: seq<char>, nst: seq<nat>, link: seq<nat>, spell: seq<string>, at: map<string, nat>,
                out: seq<bool>, words: set<string>, c: nat, u: string)
    requires IsTrie(inp, nst, link, spell, at) && Full(inp, spell, at, 0) && Marked(out, spell, at, words, at.Keys)
    requires Stands(link, spell, at, c, u) && (u == "" ==> link[c] == 0)
    ensures out[c] <==> if u != "" then Hits(at.Keys, words, u) else "" in words && OneLetter(at.Keys)
  {
    hide Hits;
    LetterIff(inp, nst, link, spell, at);
    TrieSize(inp, nst, link, spell, at);
    if u == "" {
      assert Hits(at.Keys, words, "") <==> "" in words by { EmptyHits(at.Keys, words); }
      assert OnChain(link, 0, c);
      if link[0] == 0 { assert c == 0; }
    }
  }

  lemma EmptyHits(states: set<string>, words: set<string>)
    ensures Hits(states, words, "") <==> "" in words
  {
  }

  /** The first state has one node exactly when all keywords begin with the same character. */
  lemma LetterIff(inp: seq<char>, nst: seq<nat>, link: seq<nat>, spell: seq<string>, at: map<string, nat>)
    requires IsTrie(inp, nst, link, spell, at) && Full(inp, spell, at, 0)
    ensures link[0] == 0 <==> OneLetter(at.Keys)
  {
    hide OnChain;
    if link[0] == 0 {
      forall c, d | [c] in at && [d] in at
        ensures c == d
      {
        Goto(inp, nst, link, spell, at, "", c);
        Goto(inp, nst, link, spell, at, "", d);
        assert "" + [c] == [c] && "" + [d] == [d];
        assert spell[at[[c]]] == [c] && spell[at[[d]]] == [d];
      }
    } else {
      var y := link[0];
      assert spell[y] == "" && inp[y] != '\0';
      assert spell[nst[0]] == "" + [inp[0]] == [inp[0]] && spell[nst[y]] == "" + [inp[y]] == [inp[y]];
      assert nst[0] != nst[y];
    }
  }

  lemma SeenReports(states: set<string>, words: set<string>, line: string, i: nat)
    requires 0 < i <= |line| + 1 && FinalSeen(states, words, line + "\n", i) && forall v :: v in states ==> '\n' !in v
    ensures Reports(states, words, line) || ("" in words && OneLetter(states))
  {
    hide OneLetter, Hits, Step;
    var text := line + "\n";
    if i <= |line| {
      assert text[..i] == line[..i];
      if HitsAt(states, words, text, i) { assert HitsAt(states, words, line, i); }
    } else {
      RunMore(states, text, |line|);
      StepOut(states, Run(states, text[..|line|]), '\n');
    }
  }

  lemma NoneSeen(states: set<string>, words: set<string>, line: string)
    requires (forall j :: 0 < j <= |line| + 1 ==> !FinalSeen(states, words, line + "\n", j))
    requires forall v :: v in states ==> '\n' !in v
    ensures !Reports(states, words, line) && !("" in words && OneLetter(states))
  {
    hide OneLetter, Hits, Step;
    var text := line + "\n";
    RunMore(states, text, |line|);
    StepOut(states, Run(states, text[..|line|]), '\n');
    assert !FinalSeen(states, words, text, |line| + 1);
    forall j | 0 <= j <= |line|
      ensures !HitsAt(states, words, line, j)
    {
      assert text[..j] == line[..j];
      if j > 0 { assert !FinalSeen(states, words, text, j); }
    }
  }

  /** The queue holds the states of names, which are a frontier; left are the states still to be taken from it. */
  ghost predicate IsWork(at: map<string, nat>, queue: seq<nat>, names: seq<string>, done: set<string>,
                         left: set<string>) {
    && IsFrontier(at.Keys, names, done) && Named(queue, names, at) && AreLeft(at.Keys, names, done, left)
    && ("" in names ==> done == {""})
  }

  lemma WorkStart(at: map<string, nat>)
    requires IsStates(at.Keys) && at[""] == 0
    ensures IsWork(at, [0], [""], {""}, at.Keys)
  {
    FrontierStart(at.Keys);
  }

  lemma WorkFirst(at: map<string, nat>, queue: seq<nat>, names: seq<string>, done: set<string>, left: set<string>)
    requires IsWork(at, queue, names, done, left) && queue != []
    ensures names != [] && names[0] in done && names[0] in at && queue[0] == at[names[0]]
    ensures (names[0] == "" ==> done == {""})
    ensures forall v :: v in at && |v| <= |names[0]| ==> v in done
    ensures forall v :: v in at && v != "" && Init(v) == names[0] ==> v !in done
  {
    FrontierFirst(at.Keys, names, done);
  }

  lemma WorkNext(at: map<string, nat>, queue1: seq<nat>, names: seq<string>, done1: set<string>, left: set<string>,
                 queue: seq<nat>, next: seq<string>, done: set<string>)
    requires IsStates(at.Keys) && IsWork(at, queue1, names, done1, left) && queue1 != [] && names != []
    requires AreNext(at.Keys, names[0], next) && (forall v :: v in done <==> v in done1 || v in next)
    requires Queued(queue, queue1[1..], at, next)
    ensures IsWork(at, queue, names[1..] + next, done, left - {names[0]}) && names[0] in left
    ensures "" !in names[1..] + next
  {
    hide IsFrontier, AreNext, Queued, AreLeft, IsStates;
    FrontierNext(at.Keys, names, done1, next, done);
    LeftNext(at.Keys, names, done1, next, done, left);
    NamesOf(queue, queue1[1..], names[1..], at, next);
    NamesNext(at.Keys, names, done1, next);
  }

  lemma WorkDone(at: map<string, nat>, names: seq<string>, done: set<string>, left: set<string>)
    requires IsStates(at.Keys) && IsWork(at, [], names, done, left)
    ensures done == at.Keys
  {
    forall v | v in at
      ensures v in done
    {
      FrontierEnd(at.Keys, done, v);
    }
  }

  ghost predicate Named(queue: seq<nat>, names: seq<string>, at: map<string, nat>) {
    |queue| == |names| && forall i :: 0 <= i < |queue| ==> names[i] in at && queue[i] == at[names[i]]
  }

  /** The states of the strings in next were queued. */
  ghost predicate Queued(queue: seq<nat>, queue0: seq<nat>, at: map<string, nat>, next: seq<string>) {
    |queue0| <= |queue| && queue[..|queue0|] == queue0 && Named(queue[|queue0|..], next, at)
  }

  lemma QueuedNone(queue: seq<nat>, at: map<string, nat>)
    ensures Queued(queue, queue, at, [])
  {
  }

  lemma QueuedMore(queue: seq<nat>, queue0: seq<nat>, at: map<string, nat>, next: seq<string>, v: string)
    requires Queued(queue, queue0, at, next) && v in at
    ensures Queued(queue + [at[v]], queue0, at, next + [v])
  {
  }

  lemma NamesOf(queue: seq<nat>, queue0: seq<nat>, names: seq<string>, at: map<string, nat>, next: seq<string>)
    requires Queued(queue, queue0, at, next) && Named(queue0, names, at)
    ensures Named(queue, names + next, at)
  {
    assert queue == queue0 + queue[|queue0|..];
  }

  lemma NamesNext(states: set<string>, names: seq<string>, done: set<string>, next: seq<string>)
    requires IsFrontier(states, names, done) && names != [] && AreNext(states, names[0], next)
    requires ("" in names ==> done == {""})
    ensures "" !in names[1..] + next
  {
  }

  ghost predicate NoneTwice(next: seq<string>) {
    forall i, j :: 0 <= i < j < |next| ==> next[i] != next[j]
  }

  ghost predicate AreAfter(at: map<string, nat>, u: string, next: seq<string>) {
    forall v :: v in next ==> v in at && v != "" && Init(v) == u
  }

  /** No node from s on leads to a state in next. */
  ghost predicate NotAhead(nst: seq<nat>, at: map<string, nat>, s: nat, next: seq<string>) {
    forall x, i :: s <= x < |nst| && 0 <= i < |next| ==> next[i] in at && nst[x] != at[next[i]]
  }

  /** The chain from s on leads to the states after u that are not in next. */
  ghost predicate Ahead(inp: seq<char>, nst: seq<nat>, link: seq<nat>, at: map<string, nat>, u: string, s: nat,
                        next: seq<string>)
    requires |inp| == |nst| == |link| && Forward(link) && s < |inp|
  {
    forall v :: v in at && v != "" && Init(v) == u && v !in next ==> Along(inp, nst, link, s, Last(v)) == at[v]
  }

  /** Of the chain of u, the nodes before s lead to the states in next. */
  ghost predicate Seen(inp: seq<char>, nst: seq<nat>, link: seq<nat>, at: map<string, nat>, u: string, s: nat,
                       next: seq<string>) {
    && |inp| == |nst| == |link| && Forward(link) && s < |inp|
    && NoneTwice(next) && AreAfter(at, u, next) && NotAhead(nst, at, s, next)
    && Ahead(inp, nst, link, at, u, s, next)
  }

  lemma SeenStart(inp: seq<char>, nst: seq<nat>, link: seq<nat>, spell: seq<string>, at: map<string, nat>, u: string)
    requires IsTrie(inp, nst, link, spell, at) && u in at
    ensures Seen(inp, nst, link, at, u, at[u], [])
  {
    hide OnChain, Along;
  }

  lemma SeenNot(inp: seq<char>, nst: seq<nat>, link: seq<nat>, at: map<string, nat>, u: string, s: nat,
                next: seq<string>, v: string)
    requires Seen(inp, nst, link, at, u, s, next) && v in at && at[v] == nst[s]
    ensures v !in next
  {
    hide Along;
  }

  /** One node of a chain: where it leads, and no other node leads there. */
  ghost predicate IsStep(inp: seq<char>, nst: seq<nat>, link: seq<nat>, at: map<string, nat>, u: string, s: nat) {
    && |inp| == |nst| == |link| && s < |inp|
    && (inp[s] == '\0' ==> link[s] == 0 && nst[s] == 0)
    && (inp[s] != '\0' ==> u + [inp[s]] in at && at[u + [inp[s]]] == nst[s] && forall x :: s < x < |nst| ==>
      nst[x] != nst[s])
    && (link[s] != 0 ==> s < link[s] < |inp|)
    && (forall v :: v in at && v != "" ==> at[v] != 0)
  }

  lemma TrieStep(inp: seq<char>, nst: seq<nat>, link: seq<nat>, spell: seq<string>, at: map<string, nat>, s: nat)
    requires IsTrie(inp, nst, link, spell, at) && s < |inp|
    ensures IsStep(inp, nst, link, at, spell[s], s)
  {
    hide OnChain, Along;
    forall v | v in at && v != ""
      ensures at[v] != 0
    {
      assert spell[at[v]] == v;
    }
  }

  lemma SeenMore(inp: seq<char>, nst: seq<nat>, link: seq<nat>, at: map<string, nat>, u: string, s: nat,
                 next: seq<string>, next': seq<string>)
    requires IsStep(inp, nst, link, at, u, s) && Seen(inp, nst, link, at, u, s, next)
    requires next' == if inp[s] == '\0' then next else next + [u + [inp[s]]]
    ensures if link[s] == 0 then AreNext(at.Keys, u, next') else Seen(inp, nst, link, at, u, link[s], next')
  {
    NextDistinct(inp, nst, link, at, u, s, next, next');
    if link[s] == 0 {
      LastSeen(inp, nst, link, at, u, s, next, next');
    } else {
      NotAgain(inp, nst, link, at, u, s, next, next');
      StillAhead(inp, nst, link, at, u, s, next, next');
      hide NoneTwice, AreAfter, NotAhead, Ahead;
    }
  }

  lemma NextDistinct(inp: seq<char>, nst: seq<nat>, link: seq<nat>, at: map<string, nat>, u: string, s: nat,
                     next: seq<string>, next': seq<string>)
    requires IsStep(inp, nst, link, at, u, s) && Seen(inp, nst, link, at, u, s, next)
    requires next' == if inp[s] == '\0' then next else next + [u + [inp[s]]]
    ensures NoneTwice(next') && AreAfter(at, u, next')
    ensures forall v :: v in next' <==> v in next || (inp[s] != '\0' && v == u + [inp[s]])
  {
    hide Ahead;
    if inp[s] != '\0' {
      var w := u + [inp[s]];
      assert Init(w) == u;
      SeenNot(inp, nst, link, at, u, s, next, w);
    }
  }

  lemma NotAgain(inp: seq<char>, nst: seq<nat>, link: seq<nat>, at: map<string, nat>, u: string, s: nat,
                 next: seq<string>, next': seq<string>)
    requires IsStep(inp, nst, link, at, u, s) && Seen(inp, nst, link, at, u, s, next) && link[s] != 0
    requires next' == if inp[s] == '\0' then next else next + [u + [inp[s]]]
    ensures NotAhead(nst, at, link[s], next')
  {
    hide Ahead, NoneTwice, AreAfter;
    forall x, i | link[s] <= x < |nst| && 0 <= i < |next'|
      ensures next'[i] in at && nst[x] != at[next'[i]]
    {
      if i < |next| { assert next'[i] == next[i]; }
    }
  }

  lemma StillAhead(inp: seq<char>, nst: seq<nat>, link: seq<nat>, at: map<string, nat>, u: string, s: nat,
                   next: seq<string>, next': seq<string>)
    requires IsStep(inp, nst, link, at, u, s) && Seen(inp, nst, link, at, u, s, next) && link[s] != 0
    requires forall v :: v in next' <==> v in next || (inp[s] != '\0' && v == u + [inp[s]])
    ensures Ahead(inp, nst, link, at, u, link[s], next')
  {
    hide Along, NoneTwice, AreAfter, NotAhead;
    forall v | v in at && v != "" && Init(v) == u && v !in next'
      ensures Along(inp, nst, link, link[s], Last(v)) == at[v]
    {
      Unseen(inp, nst, link, at, u, s, next, v);
    }
  }

  lemma LastSeen(inp: seq<char>, nst: seq<nat>, link: seq<nat>, at: map<string, nat>, u: string, s: nat,
                 next: seq<string>, next': seq<string>)
    requires IsStep(inp, nst, link, at, u, s) && Seen(inp, nst, link, at, u, s, next) && link[s] == 0
    requires NoneTwice(next') && AreAfter(at, u, next')
    requires forall v :: v in next' <==> v in next || (inp[s] != '\0' && v == u + [inp[s]])
    ensures AreNext(at.Keys, u, next')
  {
    hide Along, NotAhead;
    forall v | v in at && v != "" && Init(v) == u
      ensures v in next'
    {
      if v !in next' { Unseen(inp, nst, link, at, u, s, next, v); }
    }
  }

  lemma Unseen(inp: seq<char>, nst: seq<nat>, link: seq<nat>, at: map<string, nat>, u: string, s: nat,
               next: seq<string>, v: string)
    requires IsStep(inp, nst, link, at, u, s) && Seen(inp, nst, link, at, u, s, next)
    requires v in at && v != "" && Init(v) == u && v !in next && (inp[s] != '\0' ==> v != u + [inp[s]])
    ensures link[s] != 0 && Along(inp, nst, link, link[s], Last(v)) == at[v]
  {
    assert v == u + [Last(v)];
    assert Along(inp, nst, link, s, Last(v)) == at[v];
  }

  /** What the search for the failure state of v builds on is there. */
  lemma FailReady(inp: seq<char>, nst: seq<nat>, link: seq<nat>, spell: seq<string>, at: map<string, nat>,
                  fail: seq<nat>, done: set<string>, done0: set<string>, u: string, v: string)
    requires IsTrie(inp, nst, link, spell, at) && Linked(fail, spell, at, done) && v in at && v != "" && Init(v) == u
    requires v !in done
    requires done0 <= done && forall w :: w in at && |w| <= |u| ==> w in done0
    ensures Fail(at.Keys, v) in at && Fail(at.Keys, v) in done && (u == "" ==> Fail(at.Keys, v) == "")
    ensures forall x :: 0 <= x < |fail| && spell[x] == v ==> fail[x] == 0
  {
    TrieSize(inp, nst, link, spell, at);
    hide IsTrie;
    FailSuffix(at.Keys, v);
  }

  lemma LinkedHere(fail: seq<nat>, spell: seq<string>, at: map<string, nat>, done: set<string>, s: nat)
    requires Linked(fail, spell, at, done) && s < |spell| && spell[s] in done
    ensures fail[s] == FailNode(at, spell[s])
  {
  }

  lemma DoneMore(fail: seq<nat>, fail': seq<nat>, out: seq<bool>, out': seq<bool>, spell: seq<string>,
                 at: map<string, nat>,
                 words: set<string>, done: set<string>, v: string)
    requires Linked(fail, spell, at, done) && Marked(out, spell, at, words, done) && v in at && v != "" && v !in done
    requires (forall u :: u in at ==> at[u] < |spell| && spell[at[u]] == u) && Fail(at.Keys, v) in at
    requires Fail(at.Keys, v) in done
    requires FailSet(fail, fail', spell, v, FailNode(at, v))
    requires OutSet(out, out', spell, v, FinalAt(out, at, Fail(at.Keys, v)))
    ensures Linked(fail', spell, at, done + {v}) && Marked(out', spell, at, words, done + {v})
  {
    hide Linked, Marked, FailSet, OutSet, FinalAt, Fail;
    LinkedMore(fail, fail', spell, at, done, v);
    MarkedMore(out, out', spell, at, words, done, v);
  }

  /** The node of the failure state of u. */
  ghost function FailNode(at: map<string, nat>, u: string): nat {
    var f := Fail(at.Keys, u);
    if f in at then at[f] else 0
  }

  lemma HasNext(inp: seq<char>, nst: seq<nat>, link: seq<nat>, spell: seq<string>, at: map<string, nat>, x: nat)
    requires IsTrie(inp, nst, link, spell, at) && x < |inp| && inp[x] != '\0'
    ensures nst[x] != 0
  {
    hide OnChain, Along;
  }

  lemma FailLeads(inp: seq<char>, nst: seq<nat>, link: seq<nat>, spell: seq<string>, at: map<string, nat>, u: string,
                  c: char)
    requires IsTrie(inp, nst, link, spell, at) && u in at && u != ""
    ensures var x := FailNode(at, u); var t := if x < |inp| then Along(inp, nst, link, x, c) else 0;
            x < |inp| && FailNode(at, u + [c]) == if x != 0 && t != 0 then t else Along(inp, nst, link, 0, c)
    ensures Fail(at.Keys, u + [c]) in at && |Fail(at.Keys, u + [c])| < |u + [c]|
    ensures Fail(at.Keys, u + [c]) == "" <==> FailNode(at, u + [c]) == 0
  {
    hide Spells, OnChain, Along;
    TrieSize(inp, nst, link, spell, at);
    FailSuffix(at.Keys, u);
    FailSuffix(at.Keys, u + [c]);
    FailNext(at.Keys, u, c);
    Goto(inp, nst, link, spell, at, Fail(at.Keys, u), c);
    Goto(inp, nst, link, spell, at, "", c);
    assert "" + [c] == [c];
  }

  lemma NoneSet(fail: seq<nat>, out: seq<bool>, spell: seq<string>, v: string)
    requires |fail| == |out| == |spell| && forall x :: 0 <= x < |fail| && spell[x] == v ==> fail[x] == 0
    ensures FailSet(fail, fail, spell, v, 0) && OutSet(out, out, spell, v, false)
  {
  }

  lemma NextInside(inp: seq<char>, nst: seq<nat>, link: seq<nat>, spell: seq<string>, at: map<string, nat>, x: nat)
    requires IsTrie(inp, nst, link, spell, at) && x < |inp| && nst[x] != 0
    ensures nst[x] < |inp| && inp[x] != '\0' && spell[nst[x]] == spell[x] + [inp[x]] && at[spell[nst[x]]] == nst[x]
  {
    hide OnChain, Along;
  }

  lemma LinkInside(inp: seq<char>, nst: seq<nat>, link: seq<nat>, spell: seq<string>, at: map<string, nat>, x: nat)
    requires IsTrie(inp, nst, link, spell, at) && x < |inp| && link[x] != 0
    ensures x < link[x] < |inp| && spell[link[x]] == spell[x]
  {
    hide OnChain, Along;
  }

  lemma PartStart(inp: seq<char>, nst: seq<nat>, link: seq<nat>, spell: seq<string>, at: map<string, nat>, v: string)
    requires IsTrie(inp, nst, link, spell, at) && v in at
    ensures forall f: seq<nat>, t :: |f| == |spell| ==> PartSet(f, f, link, spell, v, at[v], t)
    ensures forall f: seq<bool>, t :: |f| == |spell| ==> PartSet(f, f, link, spell, v, at[v], t)
  {
    hide Along, OnChain;
  }

  lemma PartNext<T>(f: seq<T>, f': seq<T>, link: seq<nat>, spell: seq<string>, v: string, q: nat, t: T)
    requires PartSet(f, f', link, spell, v, q, t) && spell[q] == v
    ensures if link[q] == 0 then AllOf(f, f'[q := t], spell, v, t) else PartSet(f, f'[q := t], link, spell, v,
              link[q], t)
  {
    if link[q] != 0 { ChainStep(link, q); }
  }

  lemma AllSet(fail: seq<nat>, fail': seq<nat>, out: seq<bool>, out': seq<bool>, spell: seq<string>, v: string, t: nat,
               b: bool)
    requires AllOf(fail, fail', spell, v, t) && |out| == |spell|
    requires if b then AllOf(out, out', spell, v, true) else out' == out
    ensures FailSet(fail, fail', spell, v, t) && OutSet(out, out', spell, v, b)
  {
  }

  lemma ChainStep(link: seq<nat>, q: nat)
    requires Forward(link) && q < |link| && link[q] != 0
    ensures forall x: nat :: OnChain(link, q, x) <==> x == q || OnChain(link, link[q], x)
    ensures !OnChain(link, link[q], q)
  {
    ChainForward(link, link[q]);
  }

  lemma {:induction false} ChainForward(link: seq<nat>, q: nat)
    requires Forward(link) && q < |link|
    ensures forall x: nat :: OnChain(link, q, x) ==> q <= x
    decreases |link| - q
  {
    if link[q] != 0 { ChainForward(link, link[q]); }
  }

  lemma NoLines(list: string, at: map<string, nat>, words: set<string>)
    requires at == map["" := 0] && words == {}
    ensures Holds(list, 0, at, words)
  {
  }

  lemma FullHere(inp: seq<char>, spell: seq<string>, at: map<string, nat>, x: nat, y: nat)
    requires Full(inp, spell, at, x) && x < |inp| && spell[x] in at && at[spell[x]] == x
    ensures Full(inp, spell, at, y)
  {
  }

  lemma AddsNone(at: map<string, nat>, list: string, a: nat, i: nat)
    requires a <= i <= |list| && list[a..i] in at && IsStates(at.Keys)
    ensures Adds(at, at, list[a..i])
  {
    forall v | v <= list[a..i]
      ensures v in at
    {
      PrefixIn(at.Keys, v, list[a..i]);
    }
  }

  lemma AddsOne(at: map<string, nat>, at': map<string, nat>, list: string, a: nat, i0: nat, i: nat, m: nat)
    requires a < i0 <= i <= |list| && IsStates(at.Keys) && list[a..i0] !in at && Adds(at, at', list[a..i - 1])
    ensures list[a..i] == list[a..i - 1] + [list[i - 1]] && list[a..i] !in at'
    ensures Adds(at, at'[list[a..i] := m], list[a..i])
  {
    var v := list[a..i];
    assert list[a..i0] <= v;
    if v in at { PrefixIn(at.Keys, list[a..i0], v); }
    assert v[..i - 1 - a] == list[a..i - 1];
    forall u
      ensures u in at'[v := m] <==> u in at || u <= v
    {
      if u <= v && u != v { assert u == v[..|u|] == list[a..i - 1][..|u|]; }
    }
  }

  /** The program for one line: build the automaton for the list and scan the line. */
  method FindLine(list: string, line: string) returns (found: bool)
    requires '\0' !in list && IsText(line)
    ensures found <==> Finds(list, line)
    ensures found ==> HasKeyword(list, line)
    ensures NothingSkipped(StatesOf(list)) && ("" in WordsOf(list) ==> OneLetter(StatesOf(list))) ==> (found <==>
              HasEntered(list, line))
    ensures IsGoodList(list) ==> (found <==> HasKeyword(list, line))
  {
    hide IsTrie, Finals, NoFails, Full, HoldsAll, Linked, Marked, StatesOf, WordsOf, Reports, OneLetter, HasKeyword,
         HasEntered, NothingSkipped, IsGoodList;
    var m := new Automaton();
    m.CGoto(list);
    m.CFail();
    SameSets(list, m.at, m.words);
    ListStates(list);
    found := m.Scan(line);
    if found { FindsSound(list, line); }
    if NothingSkipped(StatesOf(list)) && ("" in WordsOf(list) ==> OneLetter(StatesOf(list))) { FindsIff(list, line); }
    if IsGoodList(list) { GoodFinds(list, line); }
  }

  lemma SameSets(list: string, at: map<string, nat>, words: set<string>)
    requires HoldsAll(list, at, words) && '\0' !in list
    ensures at.Keys == StatesOf(list) && words == WordsOf(list)
  {
    hide StatesOf, WordsOf, IsEntered, BeginsKeyword;
    ListStates(list);
    forall v
      ensures v in at <==> v in StatesOf(list)
    {
      StatesBegin(list, v);
    }
  }
}
