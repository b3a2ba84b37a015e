/** A playing card: a suit (none for the two jokers) and a rank, from which
    its special effect and its point value are derived. */
module Cards {
  import opened Wrappers

  datatype Suit = Spades | Hearts | Diamonds | Clubs

  datatype Rank =
    | Ace | Two | Three | Four | Five | Six | Seven | Eight | Nine | Ten
    | Jack | Queen | King | JokerRed | JokerBlack
  {
    predicate IsJoker() {
      this == JokerRed || this == JokerBlack
    }

    predicate IsFace() {
      this == Jack || this == Queen || this == King
    }
  }

  /** What discarding the card lets its owner do; `NoEffect` is Python's `Effect.NONE`. */
  datatype Effect = NoEffect | Shuffle | Draw | Swap | Peek

  /** Two cards are equal exactly when suit and rank are equal, which is
      what datatype equality is. */
  datatype Card = Card(suit: Option<Suit>, rank: Rank)
  {
    /** The effect fixed when the card is built; it depends on suit and rank alone. */
    function Effect(): Effect {
      EffectOf(suit, rank)
    }

    /** The card's points. */
    function Value(): (v: nat)
      ensures v <= 10
      ensures v == 0 <==> rank.IsJoker()
      ensures rank.IsFace() ==> v == 10
      ensures v == 1 <==> rank == Ace
    {
      if rank.IsJoker() then 0
      else if rank.IsFace() then 10
      else if rank == Ace then 1
      else Pips(rank)
    }
  }

  /** The number a numbered rank stands for (Python's `int(rank)`). */
  function Pips(r: Rank): (n: nat)
    requires !r.IsJoker() && !r.IsFace() && r != Ace
    ensures 2 <= n <= 10
  {
    match r
    case Two => 2
    case Three => 3
    case Four => 4
    case Five => 5
    case Six => 6
    case Seven => 7
    case Eight => 8
    case Nine => 9
    case Ten => 10
  }

  /** The effect a card of this suit and rank carries: red kings shuffle,
      every other king (a suitless one included) forces a draw, queens swap,
      jacks peek, and everything else has none. */
  function EffectOf(suit: Option<Suit>, rank: Rank): (e: Effect)
    ensures e == Shuffle <==> rank == King && suit in {Some(Hearts), Some(Diamonds)}
    ensures e == Draw <==> rank == King && suit !in {Some(Hearts), Some(Diamonds)}
    ensures e == Swap <==> rank == Queen
    ensures e == Peek <==> rank == Jack
    ensures e == NoEffect <==> !rank.IsFace()
  {
    if rank == King then
      (if suit == Some(Hearts) || suit == Some(Diamonds) then Shuffle else Draw)
    else if rank == Queen then Swap
    else if rank == Jack then Peek
    else NoEffect
  }

  /** A card the deck holds: jokers have no suit, every other rank has one. */
  predicate InDeck(c: Card) {
    c.rank.IsJoker() <==> c.suit.None?
  }

  /** Equal cards carry equal effects and equal values. */
  lemma EqualCardsAgree(a: Card, b: Card)
    requires a.suit == b.suit && a.rank == b.rank
    ensures a == b && a.Effect() == b.Effect() && a.Value() == b.Value()
  {
  }

  /** Every numbered rank is worth its number. */
  lemma PipValues(s: Option<Suit>)
    ensures Card(s, Two).Value() == 2 && Card(s, Three).Value() == 3
    ensures Card(s, Four).Value() == 4 && Card(s, Five).Value() == 5
    ensures Card(s, Six).Value() == 6 && Card(s, Seven).Value() == 7
    ensures Card(s, Eight).Value() == 8 && Card(s, Nine).Value() == 9
    ensures Card(s, Ten).Value() == 10
  {
  }
}
