/** A player and what the player knows: its own hand, the hands of its
    opponents and the treasure, position by position, `None` where the card
    is unknown. Strategies (the decisions) are not part of this model: the
    game takes them as parameters. */
module Players {
  import opened Wrappers
  import opened Seqs
  import opened Cards

  /** Everything a player knows about the table. */
  datatype View = View(
    drawnCard: Option<Card>,
    hand: seq<Option<Card>>,
    opponentsHands: map<string, seq<Option<Card>>>,
    treasure: seq<Option<Card>>)

  /** The names of every seated player other than the one at `me`. */
  function OpponentNames(names: seq<string>, me: nat): (r: set<string>)
    requires me < |names|
    ensures forall i :: 0 <= i < |names| && i != me ==> names[i] in r
    ensures forall n :: n in r ==> exists i :: 0 <= i < |names| && i != me && names[i] == n
  {
    set i | 0 <= i < |names| && i != me :: names[i]
  }

  /** The view of a player at the start of a round: no card drawn, and
      every position of the own hand, of each opponent's hand and of the
      treasure unknown. */
  function FreshView(names: seq<string>, me: nat, handSize: nat, treasureSize: nat): (v: View)
    requires me < |names|
    ensures v.drawnCard == None
    ensures v.hand == Nones(handSize) && v.treasure == Nones(treasureSize)
    ensures v.opponentsHands.Keys == OpponentNames(names, me)
    ensures forall n :: n in v.opponentsHands ==> v.opponentsHands[n] == Nones(handSize)
  {
    View(None, Nones(handSize),
         map n | n in OpponentNames(names, me) :: Nones(handSize),
         Nones(treasureSize))
  }

  /** When the players' names are distinct, a player never files its own
      hand under its opponents, and every other player is there. */
  lemma {:induction false} OwnNameNotOpponent(names: seq<string>, me: nat, handSize: nat, treasureSize: nat)
    requires me < |names| && Distinct(names)
    ensures names[me] !in FreshView(names, me, handSize, treasureSize).opponentsHands
    ensures forall i :: 0 <= i < |names| && i != me ==>
      FreshView(names, me, handSize, treasureSize).opponentsHands[names[i]] == Nones(handSize)
  {
  }

  class Player {
    const name: string
    var view: View

    /** A player seated at `me` among `names`, knowing nothing yet. */
    constructor (names: seq<string>, me: nat, handSize: nat, treasureSize: nat)
      requires me < |names|
      ensures name == names[me]
      ensures view == FreshView(names, me, handSize, treasureSize)
    {
      name := names[me];
      view := FreshView(names, me, handSize, treasureSize);
    }

    /** Forget everything, as at the start of a round. */
    method Reset(names: seq<string>, me: nat, handSize: nat, treasureSize: nat)
      requires me < |names|
      modifies this
      ensures view == FreshView(names, me, handSize, treasureSize)
    {
      view := FreshView(names, me, handSize, treasureSize);
    }

    /** Learn the card at position `idx` of the own hand; fail, knowing
        nothing new, when there is no such position. */
    method LearnCard(idx: int, card: Card) returns (r: Outcome)
      modifies this
      ensures r.Pass? <==> 0 <= idx < |old(view.hand)|
      ensures r.Pass? ==> view == old(view).(hand := old(view.hand)[idx := Some(card)])
      ensures r.Fail? ==> r.error == InvalidIndex && view == old(view)
    {
      if 0 <= idx < |view.hand| {
        view := view.(hand := view.hand[idx := Some(card)]);
        return Pass;
      }
      return Fail(InvalidIndex);
    }

    /** Learn the card at position `idx` of the opponent named `opponent`;
        fail, knowing nothing new, when that opponent or position is unknown. */
    method LearnOpponentCard(opponent: string, idx: int, card: Card) returns (r: Outcome)
      modifies this
      ensures r.Pass? <==> opponent in old(view.opponentsHands) && 0 <= idx < |old(view.opponentsHands[opponent])|
      ensures r.Pass? ==>
        view == old(view).(opponentsHands := old(view.opponentsHands)[opponent :=
                                               old(view.opponentsHands[opponent])[idx := Some(card)]])
      ensures opponent !in old(view.opponentsHands) ==> r == Fail(OpponentNotFound) && view == old(view)
      ensures opponent in old(view.opponentsHands) && r.Fail? ==> r.error == InvalidIndex && view == old(view)
    {
      if opponent in view.opponentsHands {
        var known := view.opponentsHands[opponent];
        if 0 <= idx < |known| {
          view := view.(opponentsHands := view.opponentsHands[opponent := known[idx := Some(card)]]);
          return Pass;
        }
        return Fail(InvalidIndex);
      }
      return Fail(OpponentNotFound);
    }
  }
}
