/** The game engine: the true hands, the players with their views, the
    dealer, the effects waiting to be applied and the running scores. The
    true hands are a sequence aligned with the seating order, `hands[t]`
    being the hand of `players[t]`. */
module Games {
  import opened Wrappers
  import opened Seqs
  import opened Cards
  import opened Dealing
  import opened Players
  import opened Knowledge
  import opened Scoring

  /** An effect waiting to be applied, with the seat of the player whose
      discard triggered it. */
  datatype Pending = Pending(seat: nat, effect: Effect)

  /** What a player decides when one of its effects is applied. */
  datatype Decision =
    | Target(name: string)                                             // DRAW, SHUFFLE
    | SwapBetween(name1: string, idx1: int, name2: string, idx2: int)  // SWAP
    | PeekAt(name: string, idx: int)                                   // PEEK

  /** SWAP only moves two cards between two hands: the cards held stay the same. */
  lemma {:induction false} HandsMultisetSwap(hands: seq<seq<Card>>, a: nat, i: nat, b: nat, j: nat)
    requires a < |hands| && b < |hands| && a != b && i < |hands[a]| && j < |hands[b]|
    ensures HandsMultiset(SwapCards(hands, a, i, b, j)) == HandsMultiset(hands)
  {
    var x, y := hands[a][i], hands[b][j];
    var h1 := hands[a := hands[a][i := y]];
    HandsMultisetReplace(hands, a, i, y);
    assert h1[b][j] == y && h1[b := h1[b][j := x]] == SwapCards(hands, a, i, b, j);
    HandsMultisetReplace(h1, b, j, x);
    CancelOne(HandsMultiset(SwapCards(hands, a, i, b, j)), HandsMultiset(hands), y);
  }

  /** A player's claim, in allow_discards, that the card at `idx` of its
      hand matches the top of the discard pile. */
  datatype Claim = Claim(seat: nat, idx: nat)

  /** The claims worth considering: those whose position exists in the
      claimant's hand, in seating order. `declared[p]` is the position the
      player at p names. */
  function Candidates(declared: seq<int>, hands: seq<seq<Card>>): (r: seq<Claim>)
    requires |declared| <= |hands|
    ensures forall c :: c in r <==>
      c.seat < |declared| && 0 <= declared[c.seat] < |hands[c.seat]| && c.idx == declared[c.seat]
    ensures forall k, l :: 0 <= k < l < |r| ==> r[k].seat < r[l].seat
  {
    if declared == [] then []
    else
      var m := |declared| - 1;
      var before := Candidates(declared[..m], hands);
      if 0 <= declared[m] < |hands[m]| then before + [Claim(m, declared[m])] else before
  }

  /** The queue `q` is `q0` followed by effects `e` of players seated
      below `n` only. */
  predicate Extends(q0: seq<Pending>, q: seq<Pending>, e: Effect, n: nat) {
    && |q0| <= |q| && q[..|q0|] == q0
    && forall k :: |q0| <= k < |q| ==> q[k].effect == e && q[k].seat < n
  }

  lemma {:induction false} ExtendsTrans(q0: seq<Pending>, q1: seq<Pending>, q2: seq<Pending>, e: Effect, n: nat)
    requires Extends(q0, q1, e, n) && Extends(q1, q2, e, n)
    ensures Extends(q0, q2, e, n)
  {
    assert q2[..|q0|] == q1[..|q1|][..|q0|];
  }

  /** Every queued effect belongs to a player seated below `n`. */
  predicate SeatsBelow(q: seq<Pending>, n: nat) {
    forall k :: 0 <= k < |q| ==> q[k].seat < n
  }

  /** No SHUFFLE among the effects `q`. */
  predicate NoShuffle(q: seq<Pending>) {
    forall k :: 0 <= k < |q| ==> q[k].effect != Shuffle
  }

  /** The queue `q` is what is left of `q0` once its first k effects
      are taken off. */
  predicate Consumed(q0: seq<Pending>, q: seq<Pending>, k: nat) {
    k <= |q0| && q == q0[k..]
  }

  lemma {:induction false} NoShuffleStep(q: seq<Pending>, k: nat)
    requires k < |q|
    ensures NoShuffle(q[..k + 1]) <==> NoShuffle(q[..k]) && q[k].effect != Shuffle
  {
    assert q[..k + 1] == q[..k] + [q[k]];
  }

  /** No hands, one per player. */
  function EmptyHands(players: nat): (r: seq<seq<Card>>)
    ensures |r| == players && forall t :: 0 <= t < players ==> r[t] == []
  {
    seq(players, _ => [])
  }

  lemma {:induction false} EmptyHandsHoldNothing(players: nat)
    ensures HandsMultiset(EmptyHands(players)) == multiset{}
  {
    if players > 0 {
      assert EmptyHands(players)[..players - 1] == EmptyHands(players - 1);
      EmptyHandsHoldNothing(players - 1);
    }
  }

  /** A full deal of `handSize` passes onto empty hands leaves every hand
      with exactly `handSize` cards. */
  lemma {:induction false} DealtOntoEmpty(players: nat, run: seq<Card>, handSize: nat, t: nat)
    requires t < players && |run| == players * handSize
    ensures |Deal(EmptyHands(players), run)[t]| == handSize
  {
    DealAt(EmptyHands(players), run, t);
    DealtToLength(run, players, t, handSize);
  }

  /** Dealing onto hands that still hold last round's cards, as the source
      does, leaves those cards in the hands: each hand ends up longer than a
      hand, and a card both kept and dealt again is held twice. */
  lemma {:induction false} DealOntoKeptHands(hands: seq<seq<Card>>, run: seq<Card>, handSize: nat, t: nat, c: Card)
    requires t < |hands| && |run| == |hands| * handSize
    requires c in hands[t] && c in run
    ensures |Deal(hands, run)[t]| == |hands[t]| + handSize > handSize
    ensures HandsMultiset(Deal(hands, run))[c] >= 2
  {
    assert |hands[t]| > 0;
    assert |Deal(hands, run)[t]| == |hands[t]| + handSize by {
      DealAt(hands, run, t);
      DealtToLength(run, |hands|, t, handSize);
    }
    assert HandsMultiset(Deal(hands, run)) == HandsMultiset(hands) + multiset(run) by {
      DealConservesHands(hands, run);
      LeftoverOfPasses(run, |hands|, handSize);
    }
    assert HandsMultiset(hands)[c] >= 1 by {
      var i :| 0 <= i < |hands[t]| && hands[t][i] == c;
      HandsMultisetRemove(hands, t, i);
    }
  }

  /** A value passed to discard's `card` parameter: Python does not check
      its type, so a position can arrive there. */
  datatype Arg = CardArg(card: Card) | IntArg(position: int)

  /** What one player's discard touches: its hand, its drawn card and the
      discard pile, on which anything passed as a card is laid. */
  datatype Discarder = Discarder(hand: seq<Card>, drawnCard: Option<Card>, pile: seq<Arg>)

  /** The effect of the discarded value, when it has one to read: a
      position has none, and reading it fails. */
  function EffectOf(a: Arg): (r: Option<Effect>)
    ensures r.Some? <==> a.CardArg?
  {
    match a
    case CardArg(c) => Some(c.Effect())
    case IntArg(_) => None
  }

  /** discard as written, on one player, for any pair of arguments: refused
      when neither is given, the drawn card cleared and `card` laid when
      `card` is given, the card at `idx` moved from the hand to the pile
      otherwise, refused when there is no such position. */
  function DiscardArgs(d: Discarder, card: Option<Arg>, idx: Option<int>): (r: Result<Discarder>)
    ensures r.Err? <==> card.None? && (idx.None? || !(0 <= idx.value < |d.hand|))
    ensures card.Some? ==> r == Ok(d.(drawnCard := None, pile := d.pile + [card.value]))
    ensures card.None? && r.Ok? ==>
      && r.value.hand == RemoveAt(d.hand, idx.value) && r.value.drawnCard == d.drawnCard
      && r.value.pile == d.pile + [CardArg(d.hand[idx.value])]
  {
    if card.None? && idx.None? then Err(MissingArgument)
    else if card.Some? then Ok(d.(drawnCard := None, pile := d.pile + [card.value]))
    else if !(0 <= idx.value < |d.hand|) then Err(InvalidIndex)
    else Ok(d.(hand := RemoveAt(d.hand, idx.value), pile := d.pile + [CardArg(d.hand[idx.value])]))
  }

  /** allow_discards hands the position of a matching card to discard
      positionally, so it lands in `card`: the drawn card is forgotten, the
      position itself is laid on the discard pile, the matching card stays
      in the hand, and the effect lookup that follows has nothing to read.
      Passed by name, as `idx`, the same position discards the matching card. */
  lemma {:induction false} PositionalDiscardKeepsCard(d: Discarder, idx: int)
    requires 0 <= idx < |d.hand|
    ensures var r := DiscardArgs(d, Some(IntArg(idx)), None);
      && r.Ok? && r.value.hand == d.hand && r.value.drawnCard == None
      && Last(r.value.pile) == IntArg(idx) && EffectOf(Last(r.value.pile)).None?
      && multiset(r.value.hand)[d.hand[idx]] == multiset(d.hand)[d.hand[idx]]
    ensures var r := DiscardArgs(d, None, Some(idx));
      && r.Ok? && |r.value.hand| == |d.hand| - 1
      && multiset(r.value.hand)[d.hand[idx]] == multiset(d.hand)[d.hand[idx]] - 1
      && Last(r.value.pile) == CardArg(d.hand[idx]) && EffectOf(Last(r.value.pile)) == Some(d.hand[idx].Effect())
  {
  }

  /** The public side of the game that every strategy may look at: the
      dealer's public view, the effects waiting to be applied, whose turn it
      is, the running scores and the round number. */
  class GameView {
    const dealerView: DealerView
    var effectsQueue: seq<Pending>
    var currentPlayerIndex: int
    var scores: seq<int>
    var round: nat

    constructor (dealerView: DealerView, players: nat)
      ensures this.dealerView == dealerView && effectsQueue == [] && currentPlayerIndex == 0 && round == 0
      ensures |scores| == players && forall i :: 0 <= i < players ==> scores[i] == 0
    {
      this.dealerView := dealerView;
      effectsQueue := [];
      currentPlayerIndex := 0;
      scores := seq(players, _ => 0);
      round := 0;
    }

    /** Add each player's points for the round to its running score. */
    method AddRound(points: seq<int>)
      requires |points| == |scores|
      modifies this`scores
      ensures scores == AddScores(old(scores), points)
    {
      var i := 0;
      while i < |points|
        invariant 0 <= i <= |points| && |scores| == |points|
        invariant forall q :: 0 <= q < i ==> scores[q] == old(scores[q]) + points[q]
        invariant forall q :: i <= q < |points| ==> scores[q] == old(scores[q])
      {
        scores := scores[i := scores[i] + points[i]];
        i := i + 1;
      }
    }

    /** Refresh the public view from the game. */
    method Update(game: Game)
      requires game.dealer.view == dealerView
      modifies this`currentPlayerIndex, dealerView
      ensures currentPlayerIndex == game.currentPlayerIndex
      ensures dealerView.drawPileSize == |game.dealer.drawPile| && dealerView.discardPile == game.dealer.discardPile
    {
      dealerView.Update(game.dealer);
      currentPlayerIndex := game.currentPlayerIndex;
    }
  }

  class Game {
    const dealer: Dealer
    const players: seq<Player>
    const view: GameView
    const initiallyKnown: seq<int>
    var hands: seq<seq<Card>>
    var currentPlayerIndex: int
    var callerIndex: int

    /** A game for the players called `names`, in that seating order, with
        nothing dealt yet. */
    constructor (names: seq<string>, handSize: nat, treasureSize: nat, initiallyKnown: seq<int>)
      requires |names| >= 1 && Distinct(names)
      ensures Valid() && Names() == names && this.initiallyKnown == initiallyKnown
      ensures fresh(dealer) && fresh(dealer.view) && fresh(view)
      ensures dealer.handSize == handSize && dealer.treasureSize == treasureSize && dealer.deck == InitDeck()
      ensures forall i :: 0 <= i < |players| ==> fresh(players[i])
      ensures forall i :: 0 <= i < |players| ==> Views()[i] == FreshView(names, i, handSize, treasureSize)
      ensures forall i :: 0 <= i < |hands| ==> hands[i] == []
      ensures currentPlayerIndex == 0 && callerIndex == -1
      ensures view.dealerView == dealer.view && view.effectsQueue == [] && view.round == 0
      ensures forall i :: 0 <= i < |view.scores| ==> view.scores[i] == 0
    {
      var seated: seq<Player> := [];
      var i := 0;
      while i < |names|
        invariant 0 <= i <= |names| && |seated| == i
        invariant forall k :: 0 <= k < i ==> fresh(seated[k])
        invariant forall k :: 0 <= k < i ==> seated[k].name == names[k]
        invariant forall k :: 0 <= k < i ==> seated[k].view == FreshView(names, k, handSize, treasureSize)
        invariant forall k, m :: 0 <= k < i && 0 <= m < i && k != m ==> seated[k] != seated[m]
      {
        var p := new Player(names, i, handSize, treasureSize);
        seated := seated + [p];
        i := i + 1;
      }
      var d := new Dealer(handSize, treasureSize);
      dealer := d;
      players := seated;
      view := new GameView(d.view, |names|);
      this.initiallyKnown := initiallyKnown;
      hands := seq(|names|, _ => []);
      currentPlayerIndex := 0;
      callerIndex := -1;
      new;
      assert Names() == names;
    }

    /** The players' names in seating order. */
    function Names(): (r: seq<string>)
      ensures |r| == |players|
    {
      seq(|players|, i requires 0 <= i < |players| => players[i].name)
    }

    /** The players' views in seating order. */
    function Views(): (r: seq<View>)
      reads players
      ensures |r| == |players|
    {
      seq(|players|, i requires 0 <= i < |players| reads players => players[i].view)
    }

    /** At least one player, each seated once, with distinct names. */
    predicate Seated() {
      && |players| >= 1
      && Distinct(Names())
      && forall i, j :: 0 <= i < |players| && 0 <= j < |players| && i != j ==> players[i] != players[j]
    }

    /** One hand and one score per player, and every queued effect belongs
        to a seated player. */
    ghost predicate Valid()
      reads this, view
    {
      && Seated()
      && |hands| == |players| && |view.scores| == |players|
      && forall k :: 0 <= k < |view.effectsQueue| ==> view.effectsQueue[k].seat < |players|
    }

    /** Once a round is dealt, every view has the shape of the true hands. */
    ghost predicate InPlay()
      reads this, players
    {
      Seated() && Shaped(Views(), Names(), hands)
    }

    /** Nobody believes anything false about any hand. */
    ghost predicate Truthful()
      reads this, players
    {
      InPlay() && Sound(Views(), Names(), hands)
    }

    /** Nobody believes anything false about any hand, except possibly the
        opponents of the player at t about position k of t's hand. */
    ghost predicate TruthfulBut(t: nat, k: nat)
      reads this, players
    {
      InPlay() && SoundButSlot(Views(), Names(), hands, t, k)
    }

    /** Every card on the table: the dealer's piles and the hands. */
    ghost function Table(): multiset<Card>
      reads this, dealer
    {
      dealer.Cards() + HandsMultiset(hands)
    }

    /** From hands0, views0 and piles draw0 and discard0, the player at t
        got one more card, at the end of its hand and unseen by anybody:
        the top of the draw pile, or, when that was empty, a card of the
        discard pile shuffled back under its top card. */
    ghost predicate Penalized(t: nat, hands0: seq<seq<Card>>, views0: seq<View>, draw0: seq<Card>, discard0: seq<Card>)
      reads this, players, dealer
    {
      && Keyed(views0, Names()) && t < |hands0| == |players|
      && |hands| == |hands0| && hands[t] != []
      && hands == hands0[t := hands0[t] + [Last(hands[t])]]
      && Views() == AppendUnknown(views0, Names(), t)
      && dealer.DrewFrom(Last(hands[t]), draw0, discard0)
    }

    /** From hands0, views0 and piles draw0 and discard0, the player at t
        applied `effect` as `decision` says, whenever the decision has the
        shape the effect asks for, with `r` as outcome. */
    ghost predicate Applied(t: nat, effect: Effect, decision: Decision, hands0: seq<seq<Card>>, views0: seq<View>,
                            draw0: seq<Card>, discard0: seq<Card>, r: Outcome)
      requires Shaped(views0, Names(), hands0) && t < |players|
      reads this, players, dealer
    {
      match effect
        case NoEffect => r == Pass
        case Draw =>
          decision.Target? ==>
            && (decision.name !in Names() ==> r == Fail(PlayerNotFound))
            && (decision.name in Names() ==>
                  && (r.Fail? <==> draw0 == [] && |discard0| < 2)
                  && (r.Pass? ==> Penalized(IndexOf(Names(), decision.name), hands0, views0, draw0, discard0)))
        case Shuffle =>
          decision.Target? ==>
            && (r.Fail? <==> decision.name !in Names())
            && (r.Fail? ==> r.error == PlayerNotFound)
            && (r.Pass? ==>
                  var u := IndexOf(Names(), decision.name);
                  && |hands| == |hands0| && hands == hands0[u := hands[u]]
                  && multiset(hands[u]) == multiset(hands0[u])
                  && Views() == ForgetOwn(views0, u)
                  && (Sound(views0, Names(), hands0) ==> SoundExcept(Views(), Names(), hands, u)))
        case Swap =>
          decision.SwapBetween? && decision.name1 != decision.name2 ==>
            && (r.Fail? <==>
                  || decision.name1 !in Names() || decision.name2 !in Names()
                  || PyIndex(decision.idx1, |hands0[IndexOf(Names(), decision.name1)]|).None?
                  || PyIndex(decision.idx2, |hands0[IndexOf(Names(), decision.name2)]|).None?)
            && (r.Fail? ==> r.error in {PlayerNotFound, InvalidIndex})
            && (r.Pass? ==>
                  var a, b := IndexOf(Names(), decision.name1), IndexOf(Names(), decision.name2);
                  var i, j := PyIndex(decision.idx1, |hands0[a]|).value, PyIndex(decision.idx2, |hands0[b]|).value;
                  && hands == SwapCards(hands0, a, i, b, j)
                  && Views() == SwapSlots(views0, Names(), a, i, b, j))
        case Peek =>
          decision.PeekAt? ==>
            && (decision.name !in Names() ==> r == Fail(PlayerNotFound))
            && (decision.name in Names() ==>
                  var u := IndexOf(Names(), decision.name);
                  && (r.Pass? <==> 0 <= decision.idx < |hands0[u]|)
                  && (r.Fail? ==> r.error == InvalidIndex)
                  && (r.Pass? ==> Views() == Learn(views0, Names(), t, u, decision.idx, hands0[u][decision.idx])))
    }

    /** From hands0, views0, queue0 and piles draw0 and discard0, `claim`
        was settled against `top`, with `r` as outcome: the claimed card is
        discarded onto the pile and its effect queued when it is `top`, and
        otherwise its holder is penalized. */
    ghost predicate Settled(claim: Claim, top: Card, hands0: seq<seq<Card>>, views0: seq<View>, queue0: seq<Pending>,
                            draw0: seq<Card>, discard0: seq<Card>, r: Outcome)
      reads this, players, view, dealer
    {
      && Shaped(views0, Names(), hands0) && claim.seat < |hands0| && claim.idx < |hands0[claim.seat]|
      && if hands0[claim.seat][claim.idx] == top then
           && r == Pass
           && hands == hands0[claim.seat := RemoveAt(hands0[claim.seat], claim.idx)]
           && Views() == RemoveSlot(views0, Names(), claim.seat, claim.idx)
           && dealer.drawPile == draw0 && dealer.discardPile == discard0 + [top]
           && view.effectsQueue == queue0 + (if top.Effect() == NoEffect then [] else [Pending(claim.seat, top.Effect())])
         else
           && view.effectsQueue == queue0
           && (r.Fail? <==> draw0 == [] && |discard0| < 2)
           && (r.Fail? ==> r.error == DeckEmpty && hands == hands0 && Views() == views0
                           && dealer.drawPile == draw0 && dealer.discardPile == discard0)
           && (r.Pass? ==> Penalized(claim.seat, hands0, views0, draw0, discard0))
    }

    /** The seat of the player called `name`, the first one if several. */
    method GetPlayerByName(name: string) returns (r: Result<nat>)
      ensures r.Ok? ==> r.value < |players| && Names()[r.value] == name
      ensures r.Ok? ==> forall i :: 0 <= i < r.value ==> Names()[i] != name
      ensures r.Err? <==> name !in Names()
      ensures r.Err? ==> r.error == PlayerNotFound
    {
      var i := 0;
      while i < |players|
        invariant 0 <= i <= |players|
        invariant forall k :: 0 <= k < i ==> Names()[k] != name
      {
        if players[i].name == name {
          return Ok(i);
        }
        i := i + 1;
      }
      return Err(PlayerNotFound);
    }

    /** Every opponent of the player at t replaces what it knows of t's
        hand by `f` of it; the holder's own view is left alone. */
    method UpdateOpponentRows(t: nat, f: seq<Option<Card>> --> seq<Option<Card>>)
      requires Seated() && t < |players| && Keyed(Views(), Names())
      requires forall o :: 0 <= o < |players| && o != t ==> f.requires(Row(Views()[o], Names(), o, t))
      modifies players
      ensures forall o :: 0 <= o < |players| ==>
        Views()[o] == if o == t then old(Views())[o]
                      else SetRow(old(Views())[o], Names(), o, t, f(Row(old(Views())[o], Names(), o, t)))
    {
      var o := 0;
      while o < |players|
        invariant 0 <= o <= |players|
        invariant forall q :: 0 <= q < |players| ==>
          Views()[q] == if q == t || q >= o then old(Views())[q]
                        else SetRow(old(Views())[q], Names(), q, t, f(Row(old(Views())[q], Names(), q, t)))
      {
        if o != t {
          var v := players[o].view;
          assert v == Views()[o] == old(Views())[o];
          players[o].view := SetRow(v, Names(), o, t, f(Row(v, Names(), o, t)));
        }
        o := o + 1;
      }
    }

    /** The holder at t and each of its opponents drop position k of what
        they know of t's hand. */
    method ForgetPosition(t: nat, k: nat)
      requires Seated() && t < |players| && Keyed(Views(), Names())
      requires forall o :: 0 <= o < |players| ==> k < |Row(Views()[o], Names(), o, t)|
      modifies players
      ensures Views() == RemoveSlot(old(Views()), Names(), t, k)
    {
      ghost var views0 := Views();
      assert players[t].view == views0[t] && Row(views0[t], Names(), t, t) == views0[t].hand;
      players[t].view := players[t].view.(hand := RemoveAt(players[t].view.hand, k));
      assert Views() == views0[t := SetRow(views0[t], Names(), t, t, RemoveAt(Row(views0[t], Names(), t, t), k))];
      assert Keyed(Views(), Names());
      UpdateOpponentRows(t, row requires k < |row| => RemoveAt(row, k));
      assert Views() == RemoveSlot(views0, Names(), t, k);
    }

    /** Take the card at position k out of the hand at t, everybody
        forgetting that position. */
    method TakeFromHand(t: nat, k: nat) returns (c: Card)
      requires InPlay() && t < |players| && k < |hands[t]|
      modifies this`hands, players
      ensures c == old(hands[t][k])
      ensures hands == old(hands)[t := RemoveAt(old(hands[t]), k)]
      ensures Views() == RemoveSlot(old(Views()), Names(), t, k)
      ensures HandsMultiset(hands) + multiset{c} == old(HandsMultiset(hands))
      ensures InPlay() && (old(Truthful()) ==> Truthful())
    {
      ghost var views0, hands0 := Views(), hands;
      c := hands[t][k];
      hands := hands[t := RemoveAt(hands[t], k)];
      ForgetPosition(t, k);
      RemoveSlotSound(views0, Names(), hands0, t, k);
      HandsMultisetRemove(hands0, t, k);
    }

    /** The player at t no longer holds a drawn card. */
    method ClearDrawn(t: nat)
      requires InPlay() && t < |players|
      modifies players[t]
      ensures Views() == old(Views())[t := old(Views()[t]).(drawnCard := None)]
      ensures InPlay() && (old(Truthful()) ==> Truthful())
    {
      SetDrawnSound(Views(), Names(), hands, t, None);
      players[t].view := players[t].view.(drawnCard := None);
      assert Views() == old(Views())[t := old(Views()[t]).(drawnCard := None)];
    }

    /** Queue the effect of the card the player at t discarded, if it has one. */
    method QueueEffect(t: nat, c: Card)
      modifies view`effectsQueue
      ensures view.effectsQueue == old(view.effectsQueue) + (if c.Effect() == NoEffect then [] else [Pending(t, c.Effect())])
    {
      if c.Effect() != NoEffect {
        view.effectsQueue := view.effectsQueue + [Pending(t, c.Effect())];
      }
    }

    /** Put c on the discard pile and queue its effect, if it has one, for
        the player at t. */
    method ToDiscardPile(t: nat, c: Card)
      modifies view`effectsQueue, dealer, dealer.view
      ensures dealer.discardPile == old(dealer.discardPile) + [c]
      ensures dealer.drawPile == old(dealer.drawPile) && dealer.treasure == old(dealer.treasure)
      ensures dealer.Cards() == old(dealer.Cards()) + multiset{c}
      ensures view.effectsQueue == old(view.effectsQueue) + (if c.Effect() == NoEffect then [] else [Pending(t, c.Effect())])
      ensures Views() == old(Views()) && InPlay() == old(InPlay()) && Truthful() == old(Truthful())
    {
      dealer.Discard(c);
      QueueEffect(t, c);
    }

    /** Discard the card the player at t has just drawn. */
    method DiscardDrawn(t: nat, c: Card)
      requires InPlay() && t < |players|
      modifies view`effectsQueue, players, dealer, dealer.view
      ensures Views() == old(Views())[t := old(Views()[t]).(drawnCard := None)]
      ensures dealer.discardPile == old(dealer.discardPile) + [c]
      ensures dealer.drawPile == old(dealer.drawPile) && dealer.treasure == old(dealer.treasure)
      ensures view.effectsQueue == old(view.effectsQueue) + (if c.Effect() == NoEffect then [] else [Pending(t, c.Effect())])
      ensures Table() == old(Table()) + multiset{c}
      ensures InPlay() && (old(Truthful()) ==> Truthful())
    {
      ClearDrawn(t);
      ToDiscardPile(t, c);
    }

    /** Discard the card at position k of the hand at t. */
    method DiscardAt(t: nat, k: nat) returns (c: Card)
      requires InPlay() && t < |players| && k < |hands[t]|
      modifies this`hands, view`effectsQueue, players, dealer, dealer.view
      ensures c == old(hands[t][k])
      ensures hands == old(hands)[t := RemoveAt(old(hands[t]), k)]
      ensures Views() == RemoveSlot(old(Views()), Names(), t, k)
      ensures dealer.discardPile == old(dealer.discardPile) + [c]
      ensures dealer.drawPile == old(dealer.drawPile) && dealer.treasure == old(dealer.treasure)
      ensures view.effectsQueue == old(view.effectsQueue) + (if c.Effect() == NoEffect then [] else [Pending(t, c.Effect())])
      ensures Table() == old(Table())
      ensures InPlay() && (old(Truthful()) ==> Truthful())
    {
      ghost var cards0, held0 := dealer.Cards(), HandsMultiset(hands);
      c := TakeFromHand(t, k);
      ToDiscardPile(t, c);
      MoveCard(held0, HandsMultiset(hands), cards0, dealer.Cards(), c);
    }

    /** Discard either the card just drawn (`card`) or the card at position
        `idx` of the own hand, onto the discard pile; the discarded card's
        effect, if it has one, is queued for the player. */
    method Discard(t: nat, card: Option<Card>, idx: Option<int>) returns (r: Outcome)
      requires InPlay() && t < |players|
      modifies this`hands, view`effectsQueue, players, dealer, dealer.view
      ensures InPlay() && (old(Truthful()) ==> Truthful())
      ensures r.Fail? <==> card.None? && (idx.None? || !(0 <= idx.value < |old(hands[t])|))
      ensures r.Fail? ==> r.error == (if idx.None? then MissingArgument else InvalidIndex)
      ensures r.Fail? ==> unchanged(this, view, dealer, dealer.view) && Views() == old(Views())
      ensures card.Some? ==>
        && hands == old(hands)
        && Views() == old(Views())[t := old(Views()[t]).(drawnCard := None)]
      ensures card.None? && r.Pass? ==>
        && hands == old(hands)[t := RemoveAt(old(hands[t]), idx.value)]
        && Views() == RemoveSlot(old(Views()), Names(), t, idx.value)
      ensures r.Pass? ==>
        var c := if card.Some? then card.value else old(hands[t][idx.value]);
        && dealer.discardPile == old(dealer.discardPile) + [c]
        && dealer.drawPile == old(dealer.drawPile) && dealer.treasure == old(dealer.treasure)
        && view.effectsQueue == old(view.effectsQueue) + (if c.Effect() == NoEffect then [] else [Pending(t, c.Effect())])
        && Table() == old(Table()) + (if card.Some? then multiset{c} else multiset{})
    {
      if card.Some? {
        DiscardDrawn(t, card.value);
        return Pass;
      }
      if idx.None? {
        return Fail(MissingArgument);
      }
      if !(0 <= idx.value < |hands[t]|) {
        return Fail(InvalidIndex);
      }
      var _ := DiscardAt(t, idx.value);
      return Pass;
    }

    /** Put `card` at position idx of the hand at t and hand back the card
        that was there; with `learn`, the holder learns the new card. */
    method Exchange(t: nat, idx: int, card: Card, learn: bool) returns (r: Result<Card>)
      requires InPlay() && t < |players|
      modifies this`hands, players[t]
      ensures r.Err? <==> !(0 <= idx < |old(hands[t])|)
      ensures r.Err? ==> r.error == InvalidIndex && hands == old(hands) && Views() == old(Views())
      ensures r.Ok? ==>
        && r.value == old(hands[t][idx])
        && hands == old(hands)[t := old(hands[t])[idx := card]]
        && HandsMultiset(hands) + multiset{r.value} == old(HandsMultiset(hands)) + multiset{card}
      ensures r.Ok? && learn ==> Views() == Learn(old(Views()), Names(), t, t, idx, card)
      ensures r.Ok? && !learn ==> Views() == old(Views())
      ensures InPlay()
      ensures r.Ok? && learn && old(Truthful()) ==> TruthfulBut(t, idx)
    {
      if !(0 <= idx < |hands[t]|) {
        return Err(InvalidIndex);
      }
      ghost var views0, hands0 := Views(), hands;
      var previous := hands[t][idx];
      hands := hands[t := hands[t][idx := card]];
      if learn {
        HolderLearns(t, idx, card);
      }
      ExchangeSoundExcept(views0, Names(), hands0, t, idx, card);
      HandsMultisetReplace(hands0, t, idx, card);
      return Ok(previous);
    }

    /** The player at t learns that position k of its own hand holds `c`. */
    method HolderLearns(t: nat, k: nat, c: Card)
      requires Seated() && Keyed(Views(), Names()) && t < |players| && k < |Row(Views()[t], Names(), t, t)|
      modifies players[t]
      ensures Views() == Learn(old(Views()), Names(), t, t, k, c)
    {
      ghost var views0 := Views();
      assert players[t].view == views0[t] && Row(views0[t], Names(), t, t) == views0[t].hand;
      var _ := players[t].LearnCard(k, c);
      assert Views() == Learn(views0, Names(), t, t, k, c);
    }

    /** Draw a penalty card from the draw pile; nobody's knowledge changes. */
    method DrawPenaltyCard() returns (r: Result<Card>)
      modifies dealer, dealer.view
      ensures old(dealer.drawPile) != [] ==> r == Ok(Last(old(dealer.drawPile)))
      ensures r.Err? <==> old(dealer.drawPile) == [] && |old(dealer.discardPile)| < 2
      ensures r.Err? ==> r.error == DeckEmpty && dealer.Cards() == old(dealer.Cards())
      ensures r.Ok? ==> dealer.Cards() + multiset{r.value} == old(dealer.Cards())
      ensures r.Ok? ==> dealer.DrewFrom(r.value, old(dealer.drawPile), old(dealer.discardPile))
      ensures r.Err? ==> dealer.drawPile == old(dealer.drawPile) && dealer.discardPile == old(dealer.discardPile)
      ensures dealer.treasure == old(dealer.treasure)
      ensures Views() == old(Views()) && InPlay() == old(InPlay()) && Truthful() == old(Truthful())
    {
      r := dealer.Draw(FromDraw);
    }

    /** Add `c` at the end of the hand at t; the holder and each of its
        opponents add an unknown position to what they know of that hand. */
    method AddToHand(t: nat, c: Card)
      requires InPlay() && t < |players|
      modifies this`hands, players
      ensures hands == old(hands)[t := old(hands[t]) + [c]]
      ensures Views() == AppendUnknown(old(Views()), Names(), t)
      ensures HandsMultiset(hands) == old(HandsMultiset(hands)) + multiset{c}
      ensures InPlay() && (old(Truthful()) ==> Truthful())
    {
      ghost var views0, hands0 := Views(), hands;
      hands := hands[t := hands[t] + [c]];
      assert players[t].view == views0[t] && Row(views0[t], Names(), t, t) == views0[t].hand;
      players[t].view := players[t].view.(hand := players[t].view.hand + [None]);
      assert Views() == views0[t := SetRow(views0[t], Names(), t, t, Row(views0[t], Names(), t, t) + [None])];
      assert Keyed(Views(), Names());
      UpdateOpponentRows(t, row => row + [None]);
      assert Views() == AppendUnknown(views0, Names(), t);
      AppendUnknownSound(views0, Names(), hands0, t, c);
      HandsMultisetAppend(hands0, t, c);
    }

    /** Give the player at t a penalty card from the draw pile, unseen by
        anybody; fail, changing nothing, when no card can be drawn. */
    method Penalize(t: nat) returns (r: Outcome)
      requires InPlay() && t < |players|
      modifies this`hands, players, dealer, dealer.view
      ensures InPlay() && (old(Truthful()) ==> Truthful())
      ensures Table() == old(Table())
      ensures r.Fail? <==> old(dealer.drawPile) == [] && |old(dealer.discardPile)| < 2
      ensures r.Fail? ==>
        && r.error == DeckEmpty && hands == old(hands) && Views() == old(Views())
        && dealer.drawPile == old(dealer.drawPile) && dealer.discardPile == old(dealer.discardPile)
      ensures r.Pass? ==> Penalized(t, old(hands), old(Views()), old(dealer.drawPile), old(dealer.discardPile))
      ensures dealer.treasure == old(dealer.treasure)
    {
      ghost var cards0, held0 := dealer.Cards(), HandsMultiset(hands);
      ghost var hands0, views0, draw0, discard0 := hands, Views(), dealer.drawPile, dealer.discardPile;
      var d := DrawPenaltyCard();
      if d.Err? {
        return Fail(d.error);
      }
      AddToHand(t, d.value);
      MoveCard(cards0, dealer.Cards(), held0, HandsMultiset(hands), d.value);
      assert Last(hands[t]) == d.value;
      return Pass;
    }

    /** Every opponent of the player at t learns that position idx of t's
        hand holds `card`; fail, nobody learning anything, when there is
        no such position. */
    method RevealToOthers(t: nat, idx: int, card: Card) returns (r: Outcome)
      requires InPlay() && t < |players|
      modifies players
      ensures r.Pass? <==> |players| == 1 || 0 <= idx < |hands[t]|
      ensures r.Fail? ==> r.error == InvalidIndex && Views() == old(Views())
      ensures r.Pass? && 0 <= idx < |hands[t]| ==> Views() == Reveal(old(Views()), Names(), t, idx, card)
      ensures r.Pass? && !(0 <= idx < |hands[t]|) ==> Views() == old(Views())
      ensures InPlay()
      ensures 0 <= idx < |hands[t]| && card == hands[t][idx] && old(TruthfulBut(t, idx)) ==> Truthful()
    {
      ghost var views0 := Views();
      ghost var learned := false;
      var o := 0;
      while o < |players|
        invariant 0 <= o <= |players|
        invariant learned ==> 0 <= idx < |hands[t]|
        invariant !learned ==> Views() == views0 && o <= 1 && (o == 1 ==> t == 0)
        invariant learned ==> forall q :: 0 <= q < |players| ==>
          Views()[q] == if q == t || q >= o then views0[q]
                        else SetRow(views0[q], Names(), q, t, Row(views0[q], Names(), q, t)[idx := Some(card)])
      {
        if o != t {
          assert players[o].view == views0[o];
          var learnt := players[o].LearnOpponentCard(players[t].name, idx, card);
          if learnt.Fail? {
            return learnt;
          }
          learned := true;
        }
        o := o + 1;
      }
      if learned {
        assert Views() == Reveal(views0, Names(), t, idx, card);
        RevealShaped(views0, Names(), hands, t, idx, card);
        if card == hands[t][idx] && SoundButSlot(views0, Names(), hands, t, idx) {
          RevealRestores(views0, Names(), hands, t, idx);
        }
      }
      return Pass;
    }

    /** DRAW: the player named `name` gets a penalty card. */
    method DrawEffect(name: string) returns (r: Outcome)
      requires InPlay()
      modifies this`hands, players, dealer, dealer.view
      ensures InPlay() && (old(Truthful()) ==> Truthful())
      ensures Table() == old(Table())
      ensures name !in Names() ==> r == Fail(PlayerNotFound)
      ensures r.Fail? ==>
        && r.error in {PlayerNotFound, DeckEmpty} && hands == old(hands) && Views() == old(Views())
        && dealer.drawPile == old(dealer.drawPile) && dealer.discardPile == old(dealer.discardPile)
      ensures name in Names() ==>
        && (r.Fail? <==> old(dealer.drawPile) == [] && |old(dealer.discardPile)| < 2)
        && (r.Pass? ==> Penalized(IndexOf(Names(), name), old(hands), old(Views()), old(dealer.drawPile), old(dealer.discardPile)))
      ensures dealer.treasure == old(dealer.treasure)
    {
      var found := GetPlayerByName(name);
      if found.Err? {
        return Fail(found.error);
      }
      r := Penalize(found.value);
    }

    /** SHUFFLE: the hand of the player named `name` is put in some order
        and that player forgets its own cards; its opponents keep what they
        knew, which may now be wrong. */
    method ShuffleEffect(name: string) returns (r: Outcome)
      requires InPlay()
      modifies this`hands, players
      ensures InPlay()
      ensures HandsMultiset(hands) == old(HandsMultiset(hands))
      ensures r.Fail? <==> name !in Names()
      ensures r.Fail? ==> r.error == PlayerNotFound && hands == old(hands) && Views() == old(Views())
      ensures r.Pass? ==>
        var u := IndexOf(Names(), name);
        && hands == old(hands)[u := hands[u]]
        && multiset(hands[u]) == multiset(old(hands[u]))
        && Views() == ForgetOwn(old(Views()), u)
        && (old(Truthful()) ==> SoundExcept(Views(), Names(), hands, u))
    {
      var found := GetPlayerByName(name);
      if found.Err? {
        return Fail(found.error);
      }
      var u := found.value;
      assert u == IndexOf(Names(), name);
      ghost var views0, hands0 := Views(), hands;
      var shuffled :| multiset(shuffled) == multiset(hands[u]);
      hands := hands[u := shuffled];
      players[u].view := players[u].view.(hand := Nones(|players[u].view.hand|));
      assert Views() == ForgetOwn(views0, u);
      ForgetOwnSound(views0, Names(), hands0, u, shuffled);
      HandsMultisetPermute(hands0, u, shuffled);
      return Pass;
    }

    /** Every player's beliefs about (a, i) and (b, j) trade places. */
    method SwapViews(a: nat, i: nat, b: nat, j: nat)
      requires Seated() && Keyed(Views(), Names()) && a < |players| && b < |players| && a != b
      requires forall o :: 0 <= o < |players| ==> i < |Row(Views()[o], Names(), o, a)| && j < |Row(Views()[o], Names(), o, b)|
      modifies players
      ensures Views() == SwapSlots(old(Views()), Names(), a, i, b, j)
    {
      var o := 0;
      while o < |players|
        invariant 0 <= o <= |players|
        invariant forall q :: 0 <= q < |players| ==>
          Views()[q] == if q >= o then old(Views())[q] else SwapView(old(Views())[q], Names(), q, a, i, b, j)
      {
        var v := players[o].view;
        assert v == Views()[o] == old(Views())[o];
        players[o].view := SwapView(v, Names(), o, a, i, b, j);
        o := o + 1;
      }
    }

    /** SWAP: the card at idx1 of the hand of the player named name1 and
        the card at idx2 of the hand of the player named name2 trade places,
        and so does everybody's knowledge of them. Indices count from the
        end when negative. */
    method SwapEffect(name1: string, idx1: int, name2: string, idx2: int) returns (r: Outcome)
      requires InPlay() && name1 != name2
      modifies this`hands, players
      ensures InPlay() && (old(Truthful()) ==> Truthful())
      ensures HandsMultiset(hands) == old(HandsMultiset(hands))
      ensures r.Fail? ==> r.error in {PlayerNotFound, InvalidIndex} && hands == old(hands) && Views() == old(Views())
      ensures r.Fail? <==>
        || name1 !in Names() || name2 !in Names()
        || PyIndex(idx1, |old(hands)[IndexOf(Names(), name1)]|).None?
        || PyIndex(idx2, |old(hands)[IndexOf(Names(), name2)]|).None?
      ensures r.Pass? ==>
        var a, b := IndexOf(Names(), name1), IndexOf(Names(), name2);
        var i, j := PyIndex(idx1, |old(hands)[a]|).value, PyIndex(idx2, |old(hands)[b]|).value;
        && hands == SwapCards(old(hands), a, i, b, j)
        && Views() == SwapSlots(old(Views()), Names(), a, i, b, j)
    {
      var found1 := GetPlayerByName(name1);
      if found1.Err? {
        return Fail(found1.error);
      }
      var found2 := GetPlayerByName(name2);
      if found2.Err? {
        return Fail(found2.error);
      }
      var a, b := found1.value, found2.value;
      assert a == IndexOf(Names(), name1) && b == IndexOf(Names(), name2) && a != b;
      var at1, at2 := PyIndex(idx1, |hands[a]|), PyIndex(idx2, |hands[b]|);
      if at1.None? || at2.None? {
        return Fail(InvalidIndex);
      }
      SwapAt(a, at1.value, b, at2.value);
      return Pass;
    }

    /** The cards at (a, i) and (b, j) trade places in the hands and in
        every player's knowledge. */
    method SwapAt(a: nat, i: nat, b: nat, j: nat)
      requires InPlay() && a < |players| && b < |players| && a != b && i < |hands[a]| && j < |hands[b]|
      modifies this`hands, players
      ensures hands == SwapCards(old(hands), a, i, b, j)
      ensures Views() == SwapSlots(old(Views()), Names(), a, i, b, j)
      ensures InPlay() && (old(Truthful()) ==> Truthful())
      ensures HandsMultiset(hands) == old(HandsMultiset(hands))
    {
      ghost var views0, hands0 := Views(), hands;
      hands := SwapCards(hands, a, i, b, j);
      SwapSlotsShaped(views0, Names(), hands0, a, i, b, j);
      SwapViews(a, i, b, j);
      if Sound(views0, Names(), hands0) {
        SwapSlotsSound(views0, Names(), hands0, a, i, b, j);
      }
      HandsMultisetSwap(hands0, a, i, b, j);
    }

    /** PEEK: the player at t looks at the card at idx of the hand of the
        player named `name`, possibly its own. */
    method PeekEffect(t: nat, name: string, idx: int) returns (r: Outcome)
      requires InPlay() && t < |players|
      modifies players[t]
      ensures InPlay() && (old(Truthful()) ==> Truthful())
      ensures r.Fail? ==> Views() == old(Views())
      ensures name !in Names() ==> r == Fail(PlayerNotFound)
      ensures name in Names() ==>
        var u := IndexOf(Names(), name);
        && (r.Pass? <==> 0 <= idx < |hands[u]|)
        && (r.Fail? ==> r.error == InvalidIndex)
        && (r.Pass? ==> Views() == Learn(old(Views()), Names(), t, u, idx, hands[u][idx]))
    {
      var found := GetPlayerByName(name);
      if found.Err? {
        return Fail(found.error);
      }
      var u := found.value;
      assert u == IndexOf(Names(), name);
      if !(0 <= idx < |hands[u]|) {
        return Fail(InvalidIndex);
      }
      ghost var views0 := Views();
      LearnSound(views0, Names(), hands, t, u, idx);
      var card := hands[u][idx];
      assert players[t].view == views0[t];
      if u == t {
        r := players[t].LearnCard(idx, card);
      } else {
        r := players[t].LearnOpponentCard(players[u].name, idx, card);
      }
      assert Views() == Learn(views0, Names(), t, u, idx, card);
    }

    /** Apply `effect`, discarded by the player at t, as `decision` says;
        fail when the decision does not fit the effect. */
    method ApplyEffect(t: nat, effect: Effect, decision: Decision) returns (r: Outcome)
      requires InPlay() && t < |players|
      requires effect == Swap && decision.SwapBetween? ==> decision.name1 != decision.name2
      modifies this`hands, players, dealer, dealer.view
      ensures InPlay() && Table() == old(Table())
      ensures effect != Shuffle && old(Truthful()) ==> Truthful()
      ensures r.Fail? || effect == NoEffect ==> hands == old(hands) && Views() == old(Views())
      ensures effect == NoEffect ==> r == Pass
      ensures r == Fail(WrongDecision) <==>
        || (effect in {Draw, Shuffle} && !decision.Target?)
        || (effect == Swap && !decision.SwapBetween?)
        || (effect == Peek && !decision.PeekAt?)
      ensures Applied(t, effect, decision, old(hands), old(Views()), old(dealer.drawPile), old(dealer.discardPile), r)
      ensures r.Fail? || effect != Draw ==>
        dealer.drawPile == old(dealer.drawPile) && dealer.discardPile == old(dealer.discardPile)
      ensures dealer.treasure == old(dealer.treasure)
    {
      match effect
      case NoEffect =>
        return Pass;
      case Draw =>
        if !decision.Target? {
          return Fail(WrongDecision);
        }
        r := DrawEffect(decision.name);
      case Shuffle =>
        if !decision.Target? {
          return Fail(WrongDecision);
        }
        r := ShuffleEffect(decision.name);
      case Swap =>
        if !decision.SwapBetween? {
          return Fail(WrongDecision);
        }
        r := SwapEffect(decision.name1, decision.idx1, decision.name2, decision.idx2);
      case Peek =>
        if !decision.PeekAt? {
          return Fail(WrongDecision);
        }
        r := PeekEffect(t, decision.name, decision.idx);
    }

    /** Take the first queued effect off the queue and apply it as `decision` says. */
    method ResolveNext(decision: Decision) returns (r: Outcome)
      requires InPlay() && view.effectsQueue != [] && view.effectsQueue[0].seat < |players|
      requires view.effectsQueue[0].effect == Swap && decision.SwapBetween? ==> decision.name1 != decision.name2
      modifies view`effectsQueue, this`hands, players, dealer, dealer.view
      ensures view.effectsQueue == old(view.effectsQueue)[1..]
      ensures InPlay() && Table() == old(Table())
      ensures old(view.effectsQueue[0]).effect != Shuffle && old(Truthful()) ==> Truthful()
      ensures var next := old(view.effectsQueue[0]);
        && Applied(next.seat, next.effect, decision, old(hands), old(Views()), old(dealer.drawPile), old(dealer.discardPile), r)
        && (r.Fail? || next.effect != Draw ==>
              dealer.drawPile == old(dealer.drawPile) && dealer.discardPile == old(dealer.discardPile))
      ensures dealer.treasure == old(dealer.treasure)
    {
      var next := view.effectsQueue[0];
      r := ApplyEffect(next.seat, next.effect, decision);
      ghost var views1 := Views();
      view.effectsQueue := view.effectsQueue[1..];
      assert Views() == views1;
    }

    /** Apply the queued effects first in, first out, each as the next of
        `decisions` says, until the queue is empty, the decisions run out or
        an effect fails; an effect is off the queue once it is tried. */
    method ResolveEffects(decisions: seq<Decision>) returns (r: Outcome, ghost applied: nat)
      requires InPlay() && SeatsBelow(view.effectsQueue, |players|)
      requires forall k :: 0 <= k < |decisions| && decisions[k].SwapBetween? ==> decisions[k].name1 != decisions[k].name2
      modifies view`effectsQueue, this`hands, players, dealer, dealer.view
      ensures applied <= |old(view.effectsQueue)| && applied <= |decisions|
      ensures Consumed(old(view.effectsQueue), view.effectsQueue, applied)
      ensures r.Pass? ==> view.effectsQueue == [] || applied == |decisions|
      ensures InPlay() && Table() == old(Table())
      ensures NoShuffle(old(view.effectsQueue)[..applied]) && old(Truthful()) ==> Truthful()
    {
      ghost var queue0, truthful0 := view.effectsQueue, Truthful();
      applied := 0;
      r := Pass;
      var k := 0;
      while view.effectsQueue != [] && k < |decisions|
        invariant k == applied <= |queue0| && k <= |decisions|
        invariant Consumed(queue0, view.effectsQueue, k)
        invariant InPlay() && Table() == old(Table())
        invariant NoShuffle(queue0[..k]) && truthful0 ==> Truthful()
      {
        r := ResolveNext(decisions[k]);
        NoShuffleStep(queue0, k);
        assert Consumed(queue0, view.effectsQueue, k + 1);
        k := k + 1;
        applied := k;
        if r.Fail? {
          return;
        }
      }
    }

    /** Settle one claim against `top`, the card captured on top of the
        discard pile: a claimed card that is not `top` earns its holder a
        penalty card, one that is `top` is discarded. */
    method SettleClaim(claim: Claim, top: Card) returns (r: Outcome)
      requires InPlay() && claim.seat < |players| && claim.idx < |hands[claim.seat]|
      modifies this`hands, view`effectsQueue, players, dealer, dealer.view
      ensures InPlay() && (old(Truthful()) ==> Truthful())
      ensures Table() == old(Table())
      ensures Settled(claim, top, old(hands), old(Views()), old(view.effectsQueue), old(dealer.drawPile), old(dealer.discardPile), r)
      ensures dealer.treasure == old(dealer.treasure)
      ensures Extends(old(view.effectsQueue), view.effectsQueue, top.Effect(), |players|)
    {
      ghost var hands0, views0, queue0 := hands, Views(), view.effectsQueue;
      ghost var draw0, discard0 := dealer.drawPile, dealer.discardPile;
      if hands[claim.seat][claim.idx] != top {
        r := Penalize(claim.seat);
        assert view.effectsQueue[..|queue0|] == queue0;
      } else {
        var _ := DiscardAt(claim.seat, claim.idx);
        r := Pass;
      }
      assert Settled(claim, top, hands0, views0, queue0, draw0, discard0, r);
    }

    /** One pass of allow_discards: among the claims of `declared` whose
        position exists, settle some one against `top`. */
    method DiscardPass(declared: seq<int>, top: Card) returns (r: Outcome, claimed: bool, ghost chosen: Claim)
      requires InPlay() && |declared| == |players|
      modifies this`hands, view`effectsQueue, players, dealer, dealer.view
      ensures InPlay() && (old(Truthful()) ==> Truthful())
      ensures Table() == old(Table())
      ensures r.Fail? ==> r.error == DeckEmpty
      ensures claimed <==> Candidates(declared, old(hands)) != []
      ensures !claimed ==> r == Pass && hands == old(hands) && Views() == old(Views()) && view.effectsQueue == old(view.effectsQueue)
      ensures claimed ==>
        && chosen in Candidates(declared, old(hands))
        && Settled(chosen, top, old(hands), old(Views()), old(view.effectsQueue), old(dealer.drawPile), old(dealer.discardPile), r)
      ensures dealer.treasure == old(dealer.treasure)
      ensures Extends(old(view.effectsQueue), view.effectsQueue, top.Effect(), |players|)
      ensures top.Effect() != NoEffect ==>
        2 * |view.effectsQueue| + |HandsMultiset(hands)|
          == 2 * |old(view.effectsQueue)| + |HandsMultiset(old(hands))| + if claimed && r.Pass? then 1 else 0
    {
      var candidates := Candidates(declared, hands);
      claimed := candidates != [];
      if !claimed {
        assert view.effectsQueue[..|view.effectsQueue|] == view.effectsQueue;
        return Pass, false, Claim(0, 0);
      }
      var pick :| 0 <= pick < |candidates|;
      var claim := candidates[pick];
      assert claim in candidates;
      chosen := claim;
      ghost var hands0, views0, queue0 := hands, Views(), view.effectsQueue;
      ghost var draw0, discard0 := dealer.drawPile, dealer.discardPile;
      r := SettleClaim(claim, top);
      if top.Effect() != NoEffect {
        SettledProgress(claim, top, hands0, views0, queue0, draw0, discard0, r);
      }
    }

    /** With a top card that has an effect, a settled claim that passes
        leaves a trace: a right card puts an effect on the queue (and leaves
        the hands one card lighter), a wrong one puts a card in a hand. So
        twice the queue's length plus the cards held grows by one. */
    lemma SettledProgress(claim: Claim, top: Card, hands0: seq<seq<Card>>, views0: seq<View>, queue0: seq<Pending>,
                          draw0: seq<Card>, discard0: seq<Card>, r: Outcome)
      requires Settled(claim, top, hands0, views0, queue0, draw0, discard0, r) && top.Effect() != NoEffect
      ensures 2 * |view.effectsQueue| + |HandsMultiset(hands)| == 2 * |queue0| + |HandsMultiset(hands0)| + if r.Pass? then 1 else 0
    {
      if hands0[claim.seat][claim.idx] == top {
        HandsMultisetRemove(hands0, claim.seat, claim.idx);
      } else if r.Pass? {
        HandsMultisetAppend(hands0, claim.seat, Last(hands[claim.seat]));
      }
    }

    /** Let the players discard a card matching the top of the discard
        pile, as captured on entry. Pass after pass, `declarations` gives
        the position each player names (one per player); among the claims
        whose position exists, some one is taken: a wrong card earns its
        claimant a penalty card, a right one is discarded. The passes stop
        when nobody has a claim, after the first pass when the top card has
        no effect, when the declarations run out, or when a penalty card
        cannot be drawn. */
    method AllowDiscards(declarations: seq<seq<int>>) returns (r: Outcome, ghost passes: nat, ghost claimedLast: bool, ghost lastChosen: Claim)
      requires InPlay()
      requires forall k :: 0 <= k < |declarations| ==> |declarations[k]| == |players|
      modifies this`hands, view`effectsQueue, players, dealer, dealer.view
      ensures InPlay() && (old(Truthful()) ==> Truthful())
      ensures Table() == old(Table())
      ensures r.Fail? ==> r.error == DeckEmpty
      ensures passes <= |declarations|
      ensures old(dealer.discardPile) == [] ==>
        r == Pass && passes == 0 && hands == old(hands) && Views() == old(Views()) && view.effectsQueue == old(view.effectsQueue)
      ensures old(dealer.discardPile) != [] ==>
        && (Last(old(dealer.discardPile)).Effect() == NoEffect ==> passes <= 1)
        && Extends(old(view.effectsQueue), view.effectsQueue, Last(old(dealer.discardPile)).Effect(), |players|)
      ensures old(dealer.discardPile) != [] && |declarations| > 0 ==> passes >= 1
      ensures r.Fail? ==> claimedLast
      ensures r.Pass? && 0 < passes < |declarations| ==> !claimedLast || Last(old(dealer.discardPile)).Effect() == NoEffect
      ensures passes == 1 ==>
        && (claimedLast <==> Candidates(declarations[0], old(hands)) != [])
        && (!claimedLast ==> hands == old(hands) && Views() == old(Views()) && view.effectsQueue == old(view.effectsQueue))
        && (claimedLast ==>
              && lastChosen in Candidates(declarations[0], old(hands))
              && Settled(lastChosen, Last(old(dealer.discardPile)), old(hands), old(Views()), old(view.effectsQueue),
                         old(dealer.drawPile), old(dealer.discardPile), r))
      ensures old(dealer.discardPile) != [] && Last(old(dealer.discardPile)).Effect() != NoEffect ==>
        2 * |view.effectsQueue| + |HandsMultiset(hands)|
          == 2 * |old(view.effectsQueue)| + |HandsMultiset(old(hands))| + passes
             - if passes > 0 && !(claimedLast && r.Pass?) then 1 else 0
    {
      passes, claimedLast, lastChosen := 0, false, Claim(0, 0);
      if dealer.discardPile == [] {
        return Pass, 0, false, Claim(0, 0);
      }
      var top := Last(dealer.discardPile);
      ghost var queue0, held0 := view.effectsQueue, |HandsMultiset(hands)|;
      assert Extends(queue0, view.effectsQueue, top.Effect(), |players|) by {
        assert view.effectsQueue[..|queue0|] == queue0;
      }
      r := Pass;
      var k := 0;
      while k < |declarations|
        invariant k == passes <= |declarations| && r == Pass
        invariant top.Effect() == NoEffect ==> k == 0
        invariant InPlay() && (old(Truthful()) ==> Truthful())
        invariant Table() == old(Table())
        invariant Extends(queue0, view.effectsQueue, top.Effect(), |players|)
        invariant k == 0 ==>
          && hands == old(hands) && Views() == old(Views()) && view.effectsQueue == old(view.effectsQueue)
          && dealer.drawPile == old(dealer.drawPile) && dealer.discardPile == old(dealer.discardPile)
        invariant 0 < k ==> claimedLast
        invariant top.Effect() != NoEffect ==> 2 * |view.effectsQueue| + |HandsMultiset(hands)| == 2 * |queue0| + held0 + k
        invariant k == 1 ==>
          && (claimedLast <==> Candidates(declarations[0], old(hands)) != [])
          && (claimedLast ==>
                && lastChosen in Candidates(declarations[0], old(hands))
                && Settled(lastChosen, top, old(hands), old(Views()), old(view.effectsQueue),
                           old(dealer.drawPile), old(dealer.discardPile), r))
      {
        ghost var before := view.effectsQueue;
        var claimed;
        r, claimed, lastChosen := DiscardPass(declarations[k], top);
        claimedLast := claimed;
        ExtendsTrans(queue0, before, view.effectsQueue, top.Effect(), |players|);
        k := k + 1;
        passes := k;
        if r.Fail? {
          return;
        }
        if !claimed || top.Effect() == NoEffect {
          break;
        }
      }
    }

    /** Add this round's points to the running scores: every hand's worth,
        except that the caller, at `callerIndex` (counting from the end when
        negative), adds nothing when every other hand is worth more than its
        own, and twice its hand otherwise. */
    method CalculateScores() returns (r: Outcome)
      requires |hands| == |players| == |view.scores|
      modifies view`scores
      ensures r.Fail? <==> PyIndex(callerIndex, |players|).None? || |players| < 2
      ensures r.Fail? ==> view.scores == old(view.scores)
      ensures r.Fail? ==> r.error == if PyIndex(callerIndex, |players|).None? then InvalidIndex else NoOpponents
      ensures r.Pass? ==>
        var c, values := PyIndex(callerIndex, |players|).value, HandValues(hands);
        && view.scores == AddScores(old(view.scores), RoundScores(values, c))
        && (forall j :: 0 <= j < |players| && j != c ==> view.scores[j] == old(view.scores[j]) + values[j])
        && (CallSucceeds(values, c) ==> view.scores[c] == old(view.scores[c]))
        && (!CallSucceeds(values, c) ==> view.scores[c] == old(view.scores[c]) + 2 * values[c])
    {
      var values := HandValues(hands);
      var at := PyIndex(callerIndex, |players|);
      if at.None? {
        return Fail(InvalidIndex);
      }
      if |players| < 2 {
        return Fail(NoOpponents);
      }
      var c := at.value;
      view.AddRound(RoundScores(values, c));
      RoundScoresCaller(values, c);
      return Pass;
    }

    /** End the round: count it, then add its points to the scores. */
    method EndRound() returns (r: Outcome)
      requires |hands| == |players| == |view.scores|
      modifies view`round, view`scores
      ensures view.round == old(view.round) + 1
      ensures r.Fail? <==> PyIndex(callerIndex, |players|).None? || |players| < 2
      ensures r.Fail? ==> view.scores == old(view.scores)
      ensures r.Pass? ==>
        view.scores == AddScores(old(view.scores), RoundScores(HandValues(hands), PyIndex(callerIndex, |players|).value))
    {
      view.round := view.round + 1;
      r := CalculateScores();
    }

    /** The game is over once some player's score has reached the limit. */
    function IsFinished(): (r: bool)
      reads view
      ensures r <==> exists i :: 0 <= i < |view.scores| && view.scores[i] >= Limit
    {
      ReachedLimit(view.scores)
    }

    /** Gather a fresh deck and deal it onto empty hands: every hand gets
        `handSize` cards, the treasure its cards and the discard pile one. */
    method DealRound() returns (r: Outcome)
      requires Seated()
      modifies this`hands, dealer, dealer.view
      ensures r.Fail? <==> |dealer.deck| < dealer.Needed(|players|)
      ensures r.Fail? ==> r.error == NotEnoughCards && hands == old(hands)
      ensures r.Pass? ==>
        && |hands| == |players|
        && (forall t :: 0 <= t < |hands| ==> |hands[t]| == dealer.handSize)
        && Table() == multiset(dealer.deck)
        && |dealer.treasure| == dealer.treasureSize && |dealer.discardPile| == 1
        && |dealer.drawPile| == |dealer.deck| - dealer.Needed(|players|)
    {
      dealer.ResetDeck();
      ghost var pile := dealer.drawPile;
      var dealt := dealer.DealInitialHands(EmptyHands(|players|));
      if dealt.Err? {
        return Fail(dealt.error);
      }
      hands := dealt.value;
      ghost var run := PoppedRun(pile, 0, |players| * dealer.handSize);
      assert forall t :: 0 <= t < |hands| ==> |hands[t]| == dealer.handSize by {
        forall t | 0 <= t < |hands|
          ensures |hands[t]| == dealer.handSize
        {
          DealtOntoEmpty(|players|, run, dealer.handSize, t);
        }
      }
      assert HandsMultiset(EmptyHands(|players|)) == multiset{} by {
        EmptyHandsHoldNothing(|players|);
      }
      return Pass;
    }

    /** The positions `initiallyKnown` all lie within a hand of `handSize`. */
    predicate KnownFit(handSize: nat) {
      forall i :: 0 <= i < |initiallyKnown| ==> 0 <= initiallyKnown[i] < handSize
    }

    /** The player at t forgets everything and looks at the positions
        `initiallyKnown` of its freshly dealt hand; fail at the first
        position the hand does not have. */
    method ShowInitialCards(t: nat) returns (r: Outcome)
      requires |hands| == |players| && t < |players|
      requires |hands[t]| == dealer.handSize
      modifies players[t]
      ensures r.Pass? <==> KnownFit(dealer.handSize)
      ensures r.Fail? ==> r.error == InvalidIndex
      ensures r.Pass? ==> players[t].view == ShownView(t)
    {
      var hs, hand, known := dealer.handSize, hands[t], initiallyKnown;
      players[t].Reset(Names(), t, hs, dealer.treasureSize);
      ghost var fresh0 := players[t].view;
      var i := 0;
      while i < |known|
        invariant 0 <= i <= |known|
        invariant forall j :: 0 <= j < i ==> 0 <= known[j] < hs
        invariant players[t].view == fresh0.(hand := GlimpsePrefix(known, i, hand))
      {
        var at := known[i];
        if !(0 <= at < |hand|) {
          return Fail(InvalidIndex);
        }
        r := players[t].LearnCard(at, hand[at]);
        GlimpsePrefixStep(known, i, hand);
        i := i + 1;
      }
      assert known[..i] == known;
      return Pass;
    }

    /** What the player at t knows once it has looked at its initially
        known cards. */
    ghost function ShownView(t: nat): View
      requires |hands| == |players| && t < |players|
      requires |hands[t]| == dealer.handSize && KnownFit(dealer.handSize)
      reads this, dealer
    {
      FreshView(Names(), t, dealer.handSize, dealer.treasureSize).(hand := Glimpse(Nones(dealer.handSize), initiallyKnown, hands[t]))
    }

    /** Every player, in seating order, forgets everything and looks at the
        positions `initiallyKnown` of its own hand. */
    method ShowStartViews() returns (r: Outcome)
      requires Seated() && |hands| == |players|
      requires forall u :: 0 <= u < |hands| ==> |hands[u]| == dealer.handSize
      modifies players
      ensures r.Pass? <==> KnownFit(dealer.handSize)
      ensures r.Fail? ==> r.error == InvalidIndex
      ensures r.Pass? ==> Views() == StartViews(Names(), hands, dealer.handSize, dealer.treasureSize, initiallyKnown)
    {
      var t := 0;
      r := Pass;
      while t < |players|
        invariant 0 <= t <= |players| && r == Pass
        invariant t > 0 ==> KnownFit(dealer.handSize)
        invariant forall o :: 0 <= o < t ==> players[o].view == ShownView(o)
      {
        r := ShowInitialCards(t);
        if r.Fail? {
          return;
        }
        t := t + 1;
      }
      assert Views() == StartViews(Names(), hands, dealer.handSize, dealer.treasureSize, initiallyKnown);
    }

    /** Start a round: deal a fresh deck onto empty hands, show every player
        its initially known cards, and let the first player start the first
        round and the first holder of the highest score every later one;
        nobody has called yet. */
    method InitRound() returns (r: Outcome)
      requires Valid()
      modifies this`hands, this`currentPlayerIndex, this`callerIndex, players, dealer, dealer.view
      ensures r.Fail? <==> |dealer.deck| < dealer.Needed(|players|) || !KnownFit(dealer.handSize)
      ensures r.Fail? ==> r.error == if |dealer.deck| < dealer.Needed(|players|) then NotEnoughCards else InvalidIndex
      ensures r.Pass? ==>
        && Truthful()
        && (forall t :: 0 <= t < |hands| ==> |hands[t]| == dealer.handSize)
        && Views() == StartViews(Names(), hands, dealer.handSize, dealer.treasureSize, initiallyKnown)
        && Table() == multiset(dealer.deck)
        && callerIndex == -1
        && currentPlayerIndex == if view.round == 0 then 0 else FirstMaxIndex(view.scores)
    {
      r := DealRound();
      if r.Fail? {
        return;
      }
      r := ShowStartViews();
      if r.Fail? {
        return;
      }
      StartViewsSound(Names(), hands, dealer.handSize, dealer.treasureSize, initiallyKnown);
      currentPlayerIndex := if view.round == 0 then 0 else FirstMaxIndex(view.scores);
      callerIndex := -1;
    }
  }
}
