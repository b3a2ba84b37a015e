/** The dealer: the 54-card deck and the three physical piles it keeps
    (draw pile, discard pile, treasure), with the public projection of those
    piles that every player may look at. The top of a pile is its last element. */
module Dealing {
  import opened Wrappers
  import opened Seqs
  import opened Cards

  /** Where a player takes a card from. */
  datatype Source = FromDraw | FromDiscard

  /** The thirteen ranks every suit has, in the order the deck is built. */
  const NonJokerRanks: seq<Rank> :=
    [Ace, Two, Three, Four, Five, Six, Seven, Eight, Nine, Ten, Jack, Queen, King]

  /** The position of a non-joker rank in `NonJokerRanks`. */
  function RankIndex(r: Rank): (k: nat)
    requires !r.IsJoker()
    ensures k < |NonJokerRanks| && NonJokerRanks[k] == r
  {
    match r
    case Ace => 0
    case Two => 1
    case Three => 2
    case Four => 3
    case Five => 4
    case Six => 5
    case Seven => 6
    case Eight => 7
    case Nine => 8
    case Ten => 9
    case Jack => 10
    case Queen => 11
    case King => 12
  }

  /** The thirteen cards of one suit. */
  function SuitRow(s: Suit): seq<Card> {
    seq(|NonJokerRanks|, k requires 0 <= k < |NonJokerRanks| => Card(Some(s), NonJokerRanks[k]))
  }

  /** The full deck: suit by suit, each in rank order, then the red and the black joker. */
  function InitDeck(): (deck: seq<Card>)
    ensures |deck| == 54
  {
    SuitRow(Spades) + SuitRow(Hearts) + SuitRow(Diamonds) + SuitRow(Clubs)
      + [Card(None, JokerRed), Card(None, JokerBlack)]
  }

  lemma {:induction false} SuitRowMembers(s: Suit, c: Card)
    ensures c in SuitRow(s) <==> c.suit == Some(s) && !c.rank.IsJoker()
  {
    if c.suit == Some(s) && !c.rank.IsJoker() {
      assert SuitRow(s)[RankIndex(c.rank)] == c;
    }
  }

  lemma {:induction false} SuitRowDistinct(s: Suit)
    ensures Distinct(SuitRow(s))
  {
    forall i, j | 0 <= i < j < |SuitRow(s)|
      ensures SuitRow(s)[i] != SuitRow(s)[j]
    {
      assert RankIndex(NonJokerRanks[i]) == i;
      assert RankIndex(NonJokerRanks[j]) == j;
    }
  }

  /** The deck holds exactly the cards a deck can hold: each non-joker rank
      in each suit, and the two suitless jokers. */
  lemma {:induction false} InitDeckMembers(c: Card)
    ensures c in InitDeck() <==> InDeck(c)
  {
    var rs, rh, rd, rc := SuitRow(Spades), SuitRow(Hearts), SuitRow(Diamonds), SuitRow(Clubs);
    var jokers := [Card(None, JokerRed), Card(None, JokerBlack)];
    assert InitDeck() == rs + rh + rd + rc + jokers;
    SuitRowMembers(Spades, c);
    SuitRowMembers(Hearts, c);
    SuitRowMembers(Diamonds, c);
    SuitRowMembers(Clubs, c);
    if c.rank.IsJoker() && c.suit.None? {
      assert c == Card(None, JokerRed) || c == Card(None, JokerBlack);
      assert c in jokers;
    }
    if !c.rank.IsJoker() && c.suit.Some? {
      match c.suit.value
      case Spades => assert c in rs;
      case Hearts => assert c in rh;
      case Diamonds => assert c in rd;
      case Clubs => assert c in rc;
    }
  }

  /** No card occurs twice in the deck, so its 54 cards are 54 different cards. */
  lemma {:induction false} InitDeckDistinct()
    ensures Distinct(InitDeck())
  {
    var rs, rh, rd, rc := SuitRow(Spades), SuitRow(Hearts), SuitRow(Diamonds), SuitRow(Clubs);
    var jokers := [Card(None, JokerRed), Card(None, JokerBlack)];
    SuitRowDistinct(Spades);
    SuitRowDistinct(Hearts);
    SuitRowDistinct(Diamonds);
    SuitRowDistinct(Clubs);
    forall x | x in rs ensures x !in rh { SuitRowMembers(Spades, x); SuitRowMembers(Hearts, x); }
    DistinctConcat(rs, rh);
    forall x | x in rs + rh ensures x !in rd {
      SuitRowMembers(Spades, x); SuitRowMembers(Hearts, x); SuitRowMembers(Diamonds, x);
    }
    DistinctConcat(rs + rh, rd);
    forall x | x in rs + rh + rd ensures x !in rc {
      SuitRowMembers(Spades, x); SuitRowMembers(Hearts, x);
      SuitRowMembers(Diamonds, x); SuitRowMembers(Clubs, x);
    }
    DistinctConcat(rs + rh + rd, rc);
    forall x | x in rs + rh + rd + rc ensures x !in jokers {
      SuitRowMembers(Spades, x); SuitRowMembers(Hearts, x);
      SuitRowMembers(Diamonds, x); SuitRowMembers(Clubs, x);
    }
    DistinctConcat(rs + rh + rd + rc, jokers);
  }

  /** All the cards held in a sequence of hands. */
  function HandsMultiset(hands: seq<seq<Card>>): multiset<Card> {
    if hands == [] then multiset{}
    else HandsMultiset(hands[..|hands| - 1]) + multiset(Last(hands))
  }

  /** Replacing one hand replaces its cards in the total and leaves every
      other hand's cards where they were. */
  lemma {:induction false} HandsMultisetUpdate(hands: seq<seq<Card>>, k: nat, v: seq<Card>)
    requires k < |hands|
    ensures HandsMultiset(hands[k := v]) + multiset(hands[k]) == HandsMultiset(hands) + multiset(v)
  {
    var m := |hands| - 1;
    var h' := hands[k := v];
    if k == m {
      assert h'[..m] == hands[..m];
      Swap3(HandsMultiset(hands[..m]), multiset(v), multiset(hands[m]));
    } else {
      assert h'[..m] == hands[..m][k := v];
      HandsMultisetUpdate(hands[..m], k, v);
      Swap4(HandsMultiset(h'[..m]), multiset(hands[m]), multiset(hands[k]),
            HandsMultiset(hands[..m]), multiset(v));
    }
  }

  lemma {:induction false} Swap3<T>(a: multiset<T>, b: multiset<T>, c: multiset<T>)
    ensures a + b + c == a + c + b
  {
  }

  lemma {:induction false} Swap4<T>(a: multiset<T>, b: multiset<T>, c: multiset<T>, a': multiset<T>, c': multiset<T>)
    requires a + c == a' + c'
    ensures a + b + c == a' + b + c'
  {
    calc {
      a + b + c;
      (a + c) + b;
      (a' + c') + b;
      a' + b + c';
    }
  }

  /** Adding a card to one hand adds exactly that card to the total. */
  lemma {:induction false} HandsMultisetAppend(hands: seq<seq<Card>>, k: nat, c: Card)
    requires k < |hands|
    ensures HandsMultiset(hands[k := hands[k] + [c]]) == HandsMultiset(hands) + multiset{c}
  {
    HandsMultisetUpdate(hands, k, hands[k] + [c]);
    MultisetAppend(hands[k], c);
    Cancel(HandsMultiset(hands[k := hands[k] + [c]]), HandsMultiset(hands), multiset(hands[k]),
           multiset(hands[k] + [c]), multiset{c});
  }

  /** Taking one card out of one hand takes exactly that card out of the total. */
  lemma {:induction false} HandsMultisetRemove(hands: seq<seq<Card>>, k: nat, i: nat)
    requires k < |hands| && i < |hands[k]|
    ensures HandsMultiset(hands[k := RemoveAt(hands[k], i)]) + multiset{hands[k][i]} == HandsMultiset(hands)
  {
    var v, c := RemoveAt(hands[k], i), hands[k][i];
    var total := HandsMultiset(hands[k := v]);
    HandsMultisetUpdate(hands, k, v);
    forall t ensures (total + multiset{c})[t] == HandsMultiset(hands)[t] {
      assert (total + multiset(hands[k]))[t] == (HandsMultiset(hands) + multiset(v))[t];
      assert (multiset(v) + multiset{c})[t] == multiset(hands[k])[t];
    }
  }

  /** Replacing one card of one hand by `c` trades that card for `c` in the total. */
  lemma {:induction false} HandsMultisetReplace(hands: seq<seq<Card>>, k: nat, i: nat, c: Card)
    requires k < |hands| && i < |hands[k]|
    ensures HandsMultiset(hands[k := hands[k][i := c]]) + multiset{hands[k][i]} == HandsMultiset(hands) + multiset{c}
  {
    var v := hands[k][i := c];
    HandsMultisetUpdate(hands, k, v);
    assert multiset(v) + multiset{hands[k][i]} == multiset(hands[k]) + multiset{c} by {
      assert RemoveAt(v, i) == RemoveAt(hands[k], i);
    }
    var out, total, x := multiset{hands[k][i]}, HandsMultiset(hands[k := v]), multiset(hands[k]);
    calc {
      total + out + x;
      (total + x) + out;
      HandsMultiset(hands) + multiset(v) + out;
      HandsMultiset(hands) + (multiset(v) + out);
      HandsMultiset(hands) + (x + multiset{c});
      (HandsMultiset(hands) + multiset{c}) + x;
    }
    Cancel(total + out, HandsMultiset(hands) + multiset{c}, x, x, multiset{});
  }

  /** Reordering one hand leaves the total unchanged. */
  lemma {:induction false} HandsMultisetPermute(hands: seq<seq<Card>>, k: nat, v: seq<Card>)
    requires k < |hands| && multiset(v) == multiset(hands[k])
    ensures HandsMultiset(hands[k := v]) == HandsMultiset(hands)
  {
    HandsMultisetUpdate(hands, k, v);
    Cancel(HandsMultiset(hands[k := v]), HandsMultiset(hands), multiset(hands[k]), multiset(v), multiset{});
  }

  lemma {:induction false} Cancel<T>(a: multiset<T>, b: multiset<T>, x: multiset<T>, xy: multiset<T>, y: multiset<T>)
    requires a + x == b + xy && xy == x + y
    ensures a == b + y
  {
    forall t ensures a[t] == (b + y)[t] {
      assert (a + x)[t] == (b + xy)[t];
    }
  }

  /** Moving one card from one place to another keeps the total. */
  lemma {:induction false} MoveCard<T>(from0: multiset<T>, from1: multiset<T>, to0: multiset<T>, to1: multiset<T>, x: T)
    requires from1 + multiset{x} == from0 && to1 == to0 + multiset{x}
    ensures to1 + from1 == to0 + from0
  {
    forall t ensures (to1 + from1)[t] == (to0 + from0)[t] {
      assert (from1 + multiset{x})[t] == from0[t];
    }
  }

  lemma {:induction false} MulMono(a: nat, b: nat, n: nat)
    requires a <= b
    ensures a * n <= b * n && n * a <= n * b
  {
  }

  lemma {:induction false} MulSucc(a: nat, n: nat)
    ensures (a + 1) * n == a * n + n && n * (a + 1) == n * a + n
  {
  }

  /** The cards the j-th of `players` players receives when the cards of
      `run`, in the order they are popped, go round-robin one per player per
      pass; a last, incomplete pass gives nothing. */
  function DealtTo(run: seq<Card>, players: nat, j: nat): seq<Card>
    requires j < players
    decreases |run|
  {
    if |run| < players then []
    else DealtTo(run[..|run| - players], players, j) + [run[|run| - players + j]]
  }

  /** Round-robin order: in a deal of `passes` full passes, the j-th player
      holds `passes` cards, and the one received in pass r is the
      (r * players + j)-th card popped, counting from 0. */
  lemma {:induction false} DealtToAt(run: seq<Card>, players: nat, j: nat, passes: nat, r: nat)
    requires j < players && |run| == passes * players && r < passes
    ensures |DealtTo(run, players, j)| == passes
    ensures r * players + j < |run|
    ensures DealtTo(run, players, j)[r] == run[r * players + j]
  {
    MulSucc(passes - 1, players);
    MulMono(r + 1, passes, players);
    MulSucc(r, players);
    var init := run[..|run| - players];
    if r < passes - 1 {
      DealtToAt(init, players, j, passes - 1, r);
    } else {
      DealtToLength(init, players, j, passes - 1);
    }
  }

  lemma {:induction false} DealtToLength(run: seq<Card>, players: nat, j: nat, passes: nat)
    requires j < players && |run| == passes * players
    ensures |DealtTo(run, players, j)| == passes
  {
    if passes > 0 {
      MulSucc(passes - 1, players);
      DealtToLength(run[..|run| - players], players, j, passes - 1);
    }
  }

  /** One pass of the deal, as a value: the i-th hand gains `cards[i]`,
      first player first. */
  function PassDealt(hands: seq<seq<Card>>, cards: seq<Card>): (r: seq<seq<Card>>)
    requires |cards| == |hands|
    ensures |r| == |hands|
  {
    if hands == [] then []
    else
      var m := |hands| - 1;
      PassDealt(hands[..m], cards[..m]) + [hands[m] + [cards[m]]]
  }

  /** The round-robin deal of `run`, as a value: pass after pass, one card
      per hand per pass, in the order the cards are popped. */
  function Deal(hands: seq<seq<Card>>, run: seq<Card>): (r: seq<seq<Card>>)
    ensures |r| == |hands|
    decreases |run|
  {
    if hands == [] || |run| < |hands| then hands
    else PassDealt(Deal(hands, run[..|run| - |hands|]), run[|run| - |hands|..])
  }

  /** In one pass each hand gets exactly its own card. */
  lemma {:induction false} PassDealtAt(hands: seq<seq<Card>>, cards: seq<Card>, i: nat)
    requires |cards| == |hands| && i < |hands|
    ensures PassDealt(hands, cards)[i] == hands[i] + [cards[i]]
  {
    var m := |hands| - 1;
    if i < m {
      PassDealtAt(hands[..m], cards[..m], i);
    }
  }

  /** One pass adds exactly its cards to what the hands hold. */
  lemma {:induction false} PassDealtConserves(hands: seq<seq<Card>>, cards: seq<Card>)
    requires |cards| == |hands|
    ensures HandsMultiset(PassDealt(hands, cards)) == HandsMultiset(hands) + multiset(cards)
  {
    if hands != [] {
      var m := |hands| - 1;
      var r := PassDealt(hands, cards);
      PassDealtConserves(hands[..m], cards[..m]);
      assert r[..m] == PassDealt(hands[..m], cards[..m]);
      assert cards == cards[..m] + [cards[m]];
      AddOneEach(HandsMultiset(hands[..m]), cards[..m], hands[m], cards[m]);
    }
  }

  /** Round-robin order: after the deal, the j-th hand is the old one
      followed by the cards `DealtTo` picks for it. */
  lemma {:induction false} DealAt(hands: seq<seq<Card>>, run: seq<Card>, j: nat)
    requires j < |hands|
    ensures Deal(hands, run)[j] == hands[j] + DealtTo(run, |hands|, j)
    decreases |run|
  {
    var n := |hands|;
    if |run| >= n {
      var init, last := run[..|run| - n], run[|run| - n..];
      DealAt(hands, init, j);
      PassDealtAt(Deal(hands, init), last, j);
    } else {
      assert hands[j] + [] == hands[j];
    }
  }

  /** The cards of `run` a round-robin deal to `players` players leaves
      undealt: the first ones popped, too few for a full pass. */
  function Leftover(run: seq<Card>, players: nat): seq<Card>
    decreases |run|
  {
    if players == 0 || |run| < players then run else Leftover(run[..|run| - players], players)
  }

  /** A run of full passes leaves nothing undealt. */
  lemma {:induction false} LeftoverOfPasses(run: seq<Card>, players: nat, passes: nat)
    requires |run| == players * passes
    ensures Leftover(run, players) == []
  {
    if players > 0 && passes > 0 {
      MulSucc(passes - 1, players);
      LeftoverOfPasses(run[..|run| - players], players, passes - 1);
    }
  }

  /** The deal moves every card of the run into the hands, except those it
      leaves undealt. */
  lemma {:induction false} DealConservesHands(hands: seq<seq<Card>>, run: seq<Card>)
    ensures HandsMultiset(Deal(hands, run)) + multiset(Leftover(run, |hands|))
         == HandsMultiset(hands) + multiset(run)
    decreases |run|
  {
    var n := |hands|;
    if n > 0 && |run| >= n {
      var k := |run| - n;
      var before := Deal(hands, run[..k]);
      DealConservesHands(hands, run[..k]);
      PassDealtConserves(before, run[k..]);
      AddRun(HandsMultiset(hands), HandsMultiset(before), HandsMultiset(Deal(hands, run)),
             multiset(Leftover(run, n)), run, k);
    }
  }

  /** Dealing a run in two steps: first all but the last pass, then the last. */
  lemma {:induction false} AddRun<T>(start: multiset<T>, middle: multiset<T>, end: multiset<T>, left: multiset<T>, s: seq<T>, k: nat)
    requires k <= |s|
    requires middle + left == start + multiset(s[..k]) && end == middle + multiset(s[k..])
    ensures end + left == start + multiset(s)
  {
    assert s == s[..k] + s[k..];
    calc {
      end + left;
      (middle + left) + multiset(s[k..]);
      start + multiset(s[..k]) + multiset(s[k..]);
      start + multiset(s);
    }
  }

  /** Adding one card to each of two sequences, regrouped. */
  lemma {:induction false} AddOneEach<T>(c: multiset<T>, p: seq<T>, d: seq<T>, x: T)
    ensures (c + multiset(p)) + multiset(d + [x]) == (c + multiset(d)) + multiset(p + [x])
  {
    assert multiset(d + [x]) == multiset(d) + multiset{x};
    assert multiset(p + [x]) == multiset(p) + multiset{x};
  }

  /** The `count` cards popped from the top of `pile` after the first `from`,
      in the order they are popped. */
  function PoppedRun(pile: seq<Card>, from: nat, count: nat): (cards: seq<Card>)
    requires from + count <= |pile|
    ensures |cards| == count
  {
    if count == 0 then [] else PoppedRun(pile, from, count - 1) + [pile[|pile| - 1 - (from + count - 1)]]
  }

  /** The i-th card of a popped run is the one i places below its start. */
  lemma {:induction false} PoppedRunAt(pile: seq<Card>, from: nat, count: nat, i: nat)
    requires from + count <= |pile| && i < count
    ensures PoppedRun(pile, from, count)[i] == pile[|pile| - 1 - (from + i)]
  {
    if i < count - 1 {
      PoppedRunAt(pile, from, count - 1, i);
    }
  }

  /** Popping `a` cards and then `b` more pops the run of `a + b` cards. */
  lemma {:induction false} PoppedRunSplit(pile: seq<Card>, from: nat, a: nat, b: nat)
    requires from + a + b <= |pile|
    ensures PoppedRun(pile, from, a + b) == PoppedRun(pile, from, a) + PoppedRun(pile, from + a, b)
  {
    if b > 0 {
      PoppedRunSplit(pile, from, a, b - 1);
    }
  }

  /** Dealing the first `count + |hands|` cards popped is dealing the first
      `count`, then one more pass with the next `|hands|`. */
  lemma {:induction false} DealNextPass(hands: seq<seq<Card>>, pile: seq<Card>, count: nat)
    requires count + |hands| <= |pile|
    ensures Deal(hands, PoppedRun(pile, 0, count + |hands|))
         == PassDealt(Deal(hands, PoppedRun(pile, 0, count)), PoppedRun(pile, count, |hands|))
  {
    var n := |hands|;
    var run := PoppedRun(pile, 0, count + n);
    PoppedRunSplit(pile, 0, count, n);
    assert run[..|run| - n] == PoppedRun(pile, 0, count);
    assert run[|run| - n..] == PoppedRun(pile, count, n);
  }

  /** Partway through a pass, giving the next hand the next card popped
      moves the pass on by one player. */
  lemma {:induction false} PassDealtNext(hands: seq<seq<Card>>, pile: seq<Card>, base: nat, j: nat)
    requires j < |hands| && base + j + 1 <= |pile|
    ensures var dealt := PassDealt(hands[..j], PoppedRun(pile, base, j)) + hands[j..];
      dealt[j := dealt[j] + [pile[|pile| - 1 - (base + j)]]]
        == PassDealt(hands[..j + 1], PoppedRun(pile, base, j + 1)) + hands[j + 1..]
  {
    assert hands[..j + 1][..j] == hands[..j];
  }

  /** Popping `count` cards from the top loses none of them: what is left
      and what was popped make up the pile. */
  lemma {:induction false} PoppedFromTop(pile: seq<Card>, count: nat)
    requires count <= |pile|
    ensures multiset(pile[..|pile| - count]) + multiset(PoppedRun(pile, 0, count)) == multiset(pile)
  {
    if count == 0 {
      PoppedNothing(pile, count);
    } else {
      PoppedFromTop(pile, count - 1);
      PoppedOneMore(pile, count);
    }
  }

  lemma {:induction false} PoppedNothing(pile: seq<Card>, count: nat)
    requires count == 0
    ensures multiset(pile[..|pile| - count]) + multiset(PoppedRun(pile, 0, count)) == multiset(pile)
  {
    assert pile[..|pile|] == pile;
  }

  /** Popping one more card moves it from what is left to what was popped. */
  lemma {:induction false} PoppedOneMore(pile: seq<Card>, count: nat)
    requires 0 < count <= |pile|
    requires multiset(pile[..|pile| - (count - 1)]) + multiset(PoppedRun(pile, 0, count - 1)) == multiset(pile)
    ensures multiset(pile[..|pile| - count]) + multiset(PoppedRun(pile, 0, count)) == multiset(pile)
  {
    var k := |pile| - count;
    assert pile[..k + 1] == pile[..k] + [pile[k]];
    assert PoppedRun(pile, 0, count) == PoppedRun(pile, 0, count - 1) + [pile[k]];
    AddOneEach(multiset{}, pile[..k], PoppedRun(pile, 0, count - 1), pile[k]);
  }

  lemma {:induction false} DealConserves(pile: seq<Card>, handCards: nat, treasureCards: nat)
    requires handCards + treasureCards + 1 <= |pile|
    ensures multiset(pile[..|pile| - (handCards + treasureCards + 1)])
          + multiset(PoppedRun(pile, handCards, treasureCards))
          + multiset{pile[|pile| - 1 - (handCards + treasureCards)]}
          + multiset(PoppedRun(pile, 0, handCards))
         == multiset(pile)
  {
    assert multiset(PoppedRun(pile, 0, handCards + treasureCards + 1))
         == multiset(PoppedRun(pile, 0, handCards)) + multiset(PoppedRun(pile, handCards, treasureCards))
          + multiset{pile[|pile| - 1 - (handCards + treasureCards)]} by {
      DealRunMultiset(pile, handCards, treasureCards);
    }
    assert multiset(pile[..|pile| - (handCards + treasureCards + 1)])
         + multiset(PoppedRun(pile, 0, handCards + treasureCards + 1)) == multiset(pile) by {
      PoppedFromTop(pile, handCards + treasureCards + 1);
    }
    Regroup(multiset(pile[..|pile| - (handCards + treasureCards + 1)]),
            multiset(PoppedRun(pile, 0, handCards)),
            multiset(PoppedRun(pile, handCards, treasureCards)),
            multiset{pile[|pile| - 1 - (handCards + treasureCards)]});
  }

  /** The cards popped by the whole deal: the hands' run, the treasure's run,
      then the first discard. */
  lemma {:induction false} DealRunMultiset(pile: seq<Card>, handCards: nat, treasureCards: nat)
    requires handCards + treasureCards + 1 <= |pile|
    ensures multiset(PoppedRun(pile, 0, handCards + treasureCards + 1))
         == multiset(PoppedRun(pile, 0, handCards)) + multiset(PoppedRun(pile, handCards, treasureCards))
          + multiset{pile[|pile| - 1 - (handCards + treasureCards)]}
  {
    var a, b := PoppedRun(pile, 0, handCards), PoppedRun(pile, handCards, treasureCards);
    var x := pile[|pile| - 1 - (handCards + treasureCards)];
    assert PoppedRun(pile, 0, handCards + treasureCards + 1) == (a + b) + [x] by {
      PoppedRunSplit(pile, 0, handCards, treasureCards);
      PoppedRunSplit(pile, 0, handCards + treasureCards, 1);
      assert PoppedRun(pile, handCards + treasureCards, 1) == [x];
    }
    MultisetAppend(a + b, x);
    MultisetConcat(a, b);
  }

  /** The whole initial deal, hands and piles together, loses and creates no card. */
  lemma {:induction false} InitialDealConserves(hands: seq<seq<Card>>, pile: seq<Card>, handSize: nat, treasureSize: nat,
                                                discard: seq<Card>, treasure: seq<Card>)
    requires |hands| * handSize + treasureSize + 1 <= |pile|
    ensures var handCards := |hands| * handSize;
      multiset(pile[..|pile| - (handCards + treasureSize + 1)])
        + multiset(discard + [pile[|pile| - 1 - (handCards + treasureSize)]])
        + multiset(treasure + PoppedRun(pile, handCards, treasureSize))
        + HandsMultiset(Deal(hands, PoppedRun(pile, 0, handCards)))
      == multiset(pile) + multiset(discard) + multiset(treasure) + HandsMultiset(hands)
  {
    var handCards := |hands| * handSize;
    var run := PoppedRun(pile, 0, handCards);
    var toTreasure := PoppedRun(pile, handCards, treasureSize);
    var x := pile[|pile| - 1 - (handCards + treasureSize)];
    var rest := pile[..|pile| - (handCards + treasureSize + 1)];
    assert HandsMultiset(Deal(hands, run)) + multiset(Leftover(run, |hands|)) == HandsMultiset(hands) + multiset(run)
      && multiset(Leftover(run, |hands|)) == multiset{} by {
      DealConservesHands(hands, run);
      LeftoverOfPasses(run, |hands|, handSize);
    }
    assert multiset(rest) + multiset(toTreasure) + multiset{x} + multiset(run) == multiset(pile) by {
      DealConserves(pile, handCards, treasureSize);
    }
    assert multiset(discard + [x]) == multiset(discard) + multiset{x} by {
      MultisetAppend(discard, x);
    }
    assert multiset(treasure + toTreasure) == multiset(treasure) + multiset(toTreasure) by {
      MultisetConcat(treasure, toTreasure);
    }
    DealTotal(multiset(rest), multiset(discard + [x]), multiset(treasure + toTreasure), HandsMultiset(Deal(hands, run)),
              multiset(discard), multiset(treasure), HandsMultiset(hands),
              multiset(toTreasure), x, multiset(run), multiset(Leftover(run, |hands|)), multiset(pile));
  }

  /** The bookkeeping of the whole deal, over plain multisets. */
  lemma {:induction false} DealTotal<T>(rest: multiset<T>, discardAfter: multiset<T>, treasureAfter: multiset<T>,
                                        handsAfter: multiset<T>, discard: multiset<T>, treasure: multiset<T>,
                                        hands: multiset<T>, toTreasure: multiset<T>, first: T, toHands: multiset<T>,
                                        left: multiset<T>, pile: multiset<T>)
    requires handsAfter + left == hands + toHands && left == multiset{}
    requires rest + toTreasure + multiset{first} + toHands == pile
    requires discardAfter == discard + multiset{first} && treasureAfter == treasure + toTreasure
    ensures rest + discardAfter + treasureAfter + handsAfter == pile + discard + treasure + hands
  {
    assert handsAfter == hands + toHands by {
      assert handsAfter + left == handsAfter;
    }
    calc {
      rest + discardAfter + treasureAfter + handsAfter;
      rest + (discard + multiset{first}) + (treasure + toTreasure) + (hands + toHands);
      (rest + toTreasure + multiset{first} + toHands) + discard + treasure + hands;
      pile + discard + treasure + hands;
    }
  }

  lemma {:induction false} MultisetAppend<T>(s: seq<T>, x: T)
    ensures multiset(s + [x]) == multiset(s) + multiset{x}
  {
  }

  lemma {:induction false} MultisetConcat<T>(s: seq<T>, t: seq<T>)
    ensures multiset(s + t) == multiset(s) + multiset(t)
  {
  }

  lemma {:induction false} Regroup<T>(p: multiset<T>, q: multiset<T>, r: multiset<T>, s: multiset<T>)
    ensures p + (q + r + s) == p + r + s + q
  {
  }

  /** The public projection of the dealer: how many cards the draw pile holds
      (not which) and the whole discard pile. */
  class DealerView {
    var drawPileSize: nat
    var discardPile: seq<Card>

    constructor (drawPileSize: nat, discardPile: seq<Card>)
      ensures this.drawPileSize == drawPileSize && this.discardPile == discardPile
    {
      this.drawPileSize := drawPileSize;
      this.discardPile := discardPile;
    }

    /** Refresh the projection from the dealer's piles. */
    method Update(d: Dealer)
      modifies this
      ensures drawPileSize == |d.drawPile| && discardPile == d.discardPile
    {
      drawPileSize := |d.drawPile|;
      discardPile := d.discardPile;
    }
  }

  class Dealer {
    const handSize: nat
    const treasureSize: nat
    const deck: seq<Card>
    var drawPile: seq<Card>
    var discardPile: seq<Card>
    var treasure: seq<Card>
    const view: DealerView

    /** The public view shows the piles as they are. */
    ghost predicate ViewSynced()
      reads this, view
    {
      view.drawPileSize == |drawPile| && view.discardPile == discardPile
    }

    /** Every card the dealer holds, whatever pile it lies in. */
    ghost function Cards(): multiset<Card>
      reads this
    {
      multiset(drawPile) + multiset(discardPile) + multiset(treasure)
    }

    /** The card c was drawn from the piles draw0 and discard0: it was the
        top of the draw pile, or, when that was empty, one of the discard
        pile's cards under its top, which were shuffled into the draw pile. */
    ghost predicate DrewFrom(c: Card, draw0: seq<Card>, discard0: seq<Card>)
      reads this
    {
      if draw0 != [] then
        c == Last(draw0) && drawPile == draw0[..|draw0| - 1] && discardPile == discard0
      else
        && |discard0| >= 2 && discardPile == [Last(discard0)]
        && multiset(drawPile) + multiset{c} == multiset(discard0[..|discard0| - 1])
    }

    /** The number of cards a deal to `players` players takes: their hands,
        the treasure and the first discard. */
    function Needed(players: nat): nat {
      players * handSize + treasureSize + 1
    }

    constructor (handSize: nat, treasureSize: nat)
      ensures this.handSize == handSize && this.treasureSize == treasureSize
      ensures deck == InitDeck() && drawPile == deck && discardPile == [] && treasure == []
      ensures ViewSynced() && fresh(view)
    {
      this.handSize := handSize;
      this.treasureSize := treasureSize;
      deck := InitDeck();
      drawPile := InitDeck();
      discardPile := [];
      treasure := [];
      view := new DealerView(|InitDeck()|, []);
    }

    /** Start a round: the draw pile becomes some ordering of the whole deck
        and the other two piles are emptied. */
    method ResetDeck()
      modifies this, view
      ensures multiset(drawPile) == multiset(deck) && |drawPile| == |deck|
      ensures discardPile == [] && treasure == []
      ensures ViewSynced()
    {
      var shuffled :| multiset(shuffled) == multiset(deck);
      drawPile := shuffled;
      discardPile := [];
      treasure := [];
      view.Update(this);
    }

    /** Turn the discard pile, except its top card, into a new draw pile in
        some order; the top card stays as the whole discard pile. Whatever the
        draw pile held is dropped (callers only reshuffle an empty one), and
        the public view is not refreshed. */
    method ReshuffleDiscardIntoDraw()
      modifies this
      ensures old(discardPile) == [] ==> drawPile == [] && discardPile == []
      ensures old(discardPile) != [] ==>
        && discardPile == [Last(old(discardPile))]
        && multiset(drawPile) == multiset(old(discardPile)[..|old(discardPile)| - 1])
      ensures multiset(drawPile) + multiset(discardPile) == old(multiset(discardPile))
      ensures treasure == old(treasure)
    {
      var top: Option<Card> := None;
      if discardPile != [] {
        top := Some(Last(discardPile));
        assert discardPile == discardPile[..|discardPile| - 1] + [top.value];
        discardPile := discardPile[..|discardPile| - 1];
      }
      var shuffled :| multiset(shuffled) == multiset(discardPile);
      drawPile := shuffled;
      discardPile := if top.None? then [] else [top.value];
    }

    /** Deal `hands`, one hand per player in seating order, round-robin,
        then the treasure, then the first discard, all popped from the top of
        the draw pile; refuse, changing nothing, when the draw pile is too
        small for all of it. */
    method DealInitialHands(hands: seq<seq<Card>>) returns (r: Result<seq<seq<Card>>>)
      modifies this, view
      ensures r.Err? <==> |old(drawPile)| < Needed(|hands|)
      ensures r.Err? ==> r.error == NotEnoughCards && unchanged(this, view)
      ensures r.Ok? ==>
        var pile, handCards := old(drawPile), |hands| * handSize;
        && handCards + treasureSize + 1 <= |pile|
        && r.value == Deal(hands, PoppedRun(pile, 0, handCards))
        && treasure == old(treasure) + PoppedRun(pile, handCards, treasureSize)
        && discardPile == old(discardPile) + [pile[|pile| - 1 - (handCards + treasureSize)]]
        && drawPile == pile[..|pile| - (handCards + treasureSize + 1)]
        && ViewSynced()
      ensures r.Ok? ==> Cards() + HandsMultiset(r.value) == old(Cards()) + HandsMultiset(hands)
    {
      var n := |hands|;
      if |drawPile| < Needed(n) {
        return Err(NotEnoughCards);
      }
      ghost var pile, discard0, treasure0 := drawPile, discardPile, treasure;
      var handCards := n * handSize;
      var dealt := DealHands(hands, pile);
      DealTreasure(pile, handCards);
      var card := Last(drawPile);
      drawPile := drawPile[..|drawPile| - 1];
      assert drawPile == pile[..|pile| - (handCards + treasureSize + 1)];
      discardPile := discardPile + [card];
      assert card == pile[|pile| - 1 - (handCards + treasureSize)];
      InitialDealConserves(hands, pile, handSize, treasureSize, discard0, treasure0);
      view.Update(this);
      r := Ok(dealt);
    }

    /** The hand-dealing loop: `handSize` passes round the players. */
    method DealHands(hands: seq<seq<Card>>, ghost pile: seq<Card>) returns (dealt: seq<seq<Card>>)
      requires |hands| * handSize <= |pile| && drawPile == pile
      modifies this
      ensures drawPile == pile[..|pile| - |hands| * handSize]
      ensures dealt == Deal(hands, PoppedRun(pile, 0, |hands| * handSize))
      ensures discardPile == old(discardPile) && treasure == old(treasure)
    {
      var n := |hands|;
      dealt := hands;
      var pass := 0;
      ghost var count := 0;
      assert pile[..|pile| - 0] == pile;
      MulMono(0, handSize, n);
      while pass < handSize
        invariant 0 <= pass <= handSize
        invariant count == n * pass <= n * handSize
        invariant drawPile == pile[..|pile| - count]
        invariant dealt == Deal(hands, PoppedRun(pile, 0, count))
        invariant discardPile == old(discardPile) && treasure == old(treasure)
      {
        MulMono(pass + 1, handSize, n);
        MulSucc(pass, n);
        DealNextPass(hands, pile, count);
        dealt := DealPass(dealt, pile, count);
        pass := pass + 1;
        count := count + n;
      }
    }

    /** One pass of the deal: each player in turn gets the top card of the
        draw pile. */
    method DealPass(hands: seq<seq<Card>>, ghost pile: seq<Card>, ghost base: nat) returns (dealt: seq<seq<Card>>)
      requires base + |hands| <= |pile|
      requires drawPile == pile[..|pile| - base]
      modifies this
      ensures drawPile == pile[..|pile| - (base + |hands|)]
      ensures dealt == PassDealt(hands, PoppedRun(pile, base, |hands|))
      ensures discardPile == old(discardPile) && treasure == old(treasure)
    {
      var n := |hands|;
      dealt := hands;
      var j := 0;
      while j < n
        invariant 0 <= j <= n
        invariant drawPile == pile[..|pile| - (base + j)]
        invariant dealt == PassDealt(hands[..j], PoppedRun(pile, base, j)) + hands[j..]
        invariant discardPile == old(discardPile) && treasure == old(treasure)
      {
        var card := Last(drawPile);
        PassDealtNext(hands, pile, base, j);
        drawPile := drawPile[..|drawPile| - 1];
        dealt := dealt[j := dealt[j] + [card]];
        j := j + 1;
      }
      assert hands[..n] == hands;
    }

    /** Pop `treasureSize` cards from the draw pile onto the treasure. */
    method DealTreasure(ghost pile: seq<Card>, ghost from: nat)
      requires from + treasureSize + 1 <= |pile|
      requires drawPile == pile[..|pile| - from]
      modifies this
      ensures drawPile == pile[..|pile| - (from + treasureSize)]
      ensures treasure == old(treasure) + PoppedRun(pile, from, treasureSize)
      ensures discardPile == old(discardPile)
    {
      var t := 0;
      while t < treasureSize
        invariant 0 <= t <= treasureSize
        invariant drawPile == pile[..|pile| - (from + t)]
        invariant treasure == old(treasure) + PoppedRun(pile, from, t)
        invariant discardPile == old(discardPile)
      {
        var card := Last(drawPile);
        drawPile := drawPile[..|drawPile| - 1];
        treasure := treasure + [card];
        t := t + 1;
      }
    }

    /** Pop the top of the draw pile, reshuffling the discard pile into it
        first when it is empty; fail when even then no card is left. */
    method DrawFromDraw() returns (r: Result<Card>)
      modifies this, view
      ensures old(drawPile) != [] ==>
        && r == Ok(Last(old(drawPile)))
        && drawPile == old(drawPile)[..|old(drawPile)| - 1]
        && discardPile == old(discardPile)
      ensures old(drawPile) == [] && |old(discardPile)| >= 2 ==>
        && r.Ok?
        && discardPile == [Last(old(discardPile))]
        && multiset(drawPile) + multiset{r.value} == multiset(old(discardPile)[..|old(discardPile)| - 1])
      ensures old(drawPile) == [] && |old(discardPile)| < 2 ==>
        r == Err(DeckEmpty) && drawPile == [] && discardPile == old(discardPile) && unchanged(view)
      ensures treasure == old(treasure)
      ensures r.Ok? ==> ViewSynced() && Cards() + multiset{r.value} == old(Cards())
      ensures r.Err? ==> Cards() == old(Cards())
    {
      if drawPile == [] {
        ReshuffleDiscardIntoDraw();
      }
      if drawPile != [] {
        var card := Last(drawPile);
        assert drawPile == drawPile[..|drawPile| - 1] + [card];
        drawPile := drawPile[..|drawPile| - 1];
        view.Update(this);
        return Ok(card);
      }
      return Err(DeckEmpty);
    }

    /** Pop the top of the discard pile; fail when it is empty. */
    method DrawFromDiscard() returns (r: Result<Card>)
      modifies this, view
      ensures old(discardPile) != [] ==>
        && r == Ok(Last(old(discardPile)))
        && discardPile == old(discardPile)[..|old(discardPile)| - 1]
        && ViewSynced()
      ensures old(discardPile) == [] ==> r == Err(DiscardEmpty) && discardPile == [] && unchanged(view)
      ensures drawPile == old(drawPile) && treasure == old(treasure)
      ensures r.Ok? ==> Cards() + multiset{r.value} == old(Cards())
      ensures r.Err? ==> Cards() == old(Cards())
    {
      if discardPile != [] {
        var card := Last(discardPile);
        assert discardPile == discardPile[..|discardPile| - 1] + [card];
        discardPile := discardPile[..|discardPile| - 1];
        view.Update(this);
        return Ok(card);
      }
      return Err(DiscardEmpty);
    }

    /** Draw from the chosen pile. */
    method Draw(source: Source) returns (r: Result<Card>)
      modifies this, view
      ensures source == FromDraw && old(drawPile) != [] ==>
        r == Ok(Last(old(drawPile))) && drawPile == old(drawPile)[..|old(drawPile)| - 1]
        && discardPile == old(discardPile)
      ensures source == FromDraw && old(drawPile) == [] ==>
        && (r.Ok? <==> |old(discardPile)| >= 2)
        && (r.Err? ==> drawPile == [])
      ensures source == FromDraw && r.Ok? ==> DrewFrom(r.value, old(drawPile), old(discardPile))
      ensures source == FromDiscard ==>
        && (r.Ok? <==> old(discardPile) != [])
        && (r.Ok? ==> r.value == Last(old(discardPile)) && discardPile == old(discardPile)[..|old(discardPile)| - 1])
        && drawPile == old(drawPile)
      ensures treasure == old(treasure)
      ensures r.Ok? ==> ViewSynced() && Cards() + multiset{r.value} == old(Cards())
      ensures r.Err? ==> Cards() == old(Cards()) && discardPile == old(discardPile)
      ensures r.Err? ==> r.error == if source == FromDraw then DeckEmpty else DiscardEmpty
    {
      match source
      case FromDraw => r := DrawFromDraw();
      case FromDiscard => r := DrawFromDiscard();
    }

    /** Put a card on top of the discard pile. */
    method Discard(card: Card)
      modifies this, view
      ensures discardPile == old(discardPile) + [card]
      ensures drawPile == old(drawPile) && treasure == old(treasure)
      ensures ViewSynced()
      ensures Cards() == old(Cards()) + multiset{card}
    {
      discardPile := discardPile + [card];
      view.Update(this);
    }
  }
}
