# skibidi card game engine in Dafny

This project models the engine of the skibidi card game. Players hold
hands of cards they mostly cannot see. Each player keeps a *view*: what
they believe about their own hand and about every opponent's hand, one
`Option<Card>` per position. Discarding a king, queen or jack queues an
*effect*:

- DRAW gives a target a penalty card.
- SHUFFLE reorders a target's hand.
- SWAP exchanges two cards between two hands.
- PEEK shows one card to the player who discarded.

A player can call the end of a round. Their hand is then compared with
everybody else's, and the game ends once a score reaches 100.

The model follows the four engine files. Their state is modelled the way
the code changes it.

- `card.dfy` (module `Cards`) is pure. `Card` is a datatype, and its effect
  and point value are functions of suit and rank.
- `dealer.dfy` (module `Dealing`) models `Dealer` as a class. Its fields
  `drawPile`, `discardPile` and `treasure` are `seq<Card>`, and the methods
  pop and append them the way the Python lists are popped and appended.
  - A shuffle is any permutation: `:|` with multiset equality.
  - The round-robin deal is a pair of nested loops. It is proved equal to
    the pure dealing function `Deal`.
  - Card conservation is proved for every operation, as a multiset equation
    over all piles and hands.
- `player.dfy` (module `Players`) models `Player` as a class whose `view`
  is reassigned by the bounds-checked `LearnCard` and `LearnOpponentCard`.
- `game.dfy` (module `Games`) models `Game` as a class. It holds:
  - the true hands, as `seq<seq<Card>>` aligned with the seating order;
  - the players and the dealer;
  - a `GameView` object with the effects queue, scores and round.

  Every operation of `game.py` is a method with a loop where the source
  has one. The strategies' decisions are parameters (`Decision`,
  declarations, claims). `random.choices` is any valid candidate, picked
  with `:|`.
- `knowledge.dfy` (module `Knowledge`) holds the pure description of what
  every player believes. It defines two predicates over views and hands:
  - `Shaped`: every observer's row for every hand has the hand's length;
  - `Sound`: every belief is true.

  It also holds one function per kind of view update (remove a slot,
  append an unknown slot, learn, reveal, swap, forget) and proves that each
  one keeps `Shaped` and keeps or restores `Sound`.
- `scoring.dfy` (module `Scoring`) holds the pure arithmetic of
  `calculate_scores`, `init_round` and `is_finished`.
- `seqs.dfy` and `wrappers.dfy` hold shared helpers:
  - Python's `list.pop(i)` (`RemoveAt`);
  - Python's negative indexing (`PyIndex`);
  - `Option`, `Result`, `Outcome`, and the `Error` values that stand for
    the exceptions Python raises.

The game's invariants are stated on `Game`:

- `InPlay()`: every player's view of every hand has that hand's length.
  Every operation that changes hands or views preserves it.
- `Table()`: the dealer's piles plus all hands. Every operation of a round
  conserves it.
- `Truthful()`: nobody believes anything false. Discard, penalty, DRAW,
  SWAP and PEEK keep it. `exchange` keeps it only for the exchanging
  player, and `reveal_to_others` restores it. SHUFFLE breaks it, and
  `ShuffleMisleadsOpponents` gives a state where it does.

## Model

| member | source | states |
|---|---|---|
| Cards.EffectOf | skibidi/src/skibidi/card.py:51-64 | SHUFFLE exactly for a king of hearts or diamonds, DRAW exactly for any other king, SWAP exactly for a queen, PEEK exactly for a jack, NONE exactly for every non-face rank, jokers included |
| Cards.Card.Value | skibidi/src/skibidi/card.py:66-74 | a value in 0..10; 0 exactly for the jokers, 1 exactly for the ace, 10 for jack, queen and king |
| Cards.Pips | skibidi/src/skibidi/card.py:73-74 | a number rank is worth between 2 and 10 |
| Cards.PipValues | skibidi/src/skibidi/card.py:73-74 | TWO to TEN are worth their number, whatever the suit |
| Cards.EqualCardsAgree | skibidi/src/skibidi/card.py:45-48 | cards with equal suit and rank are equal, so they have the same effect and value |
| Seqs.RemoveAt | skibidi/src/skibidi/game.py:154 | `pop(i)` keeps the elements before i, shifts those after it down by one, and removes exactly one copy of the element at i |
| Seqs.PyIndex | skibidi/src/skibidi/game.py:250-251 | a Python index is valid exactly when -n <= i < n; a negative one counts from the end |
| Seqs.Nones | skibidi/src/skibidi/player.py:13 | `[None] * n` has n entries, all unknown |
| Seqs.IndexOf | skibidi/src/skibidi/game.py:312 | `list.index` returns the first position that holds the value |
| Dealing.InitDeck | skibidi/src/skibidi/dealer.py:47-55 | the deck has 54 cards |
| Dealing.InitDeckMembers | skibidi/src/skibidi/dealer.py:47-55 | the deck holds exactly the suited non-joker cards and the two suitless jokers |
| Dealing.InitDeckDistinct | skibidi/src/skibidi/dealer.py:47-55 | no card appears twice in the deck |
| Dealing.SuitRowMembers | skibidi/src/skibidi/dealer.py:48-53 | one suit's row holds exactly the non-joker ranks of that suit |
| Dealing.DealtToAt | skibidi/src/skibidi/dealer.py:74-77 | round-robin: the r-th card player j receives is card r·players + j of the run |
| Dealing.DealAt | skibidi/src/skibidi/dealer.py:74-77 | dealing appends to player j's hand exactly the cards dealt to j, in order |
| Dealing.DealConservesHands | skibidi/src/skibidi/dealer.py:74-77 | the cards dealt plus any incomplete last pass are exactly the cards added to the hands |
| Dealing.PoppedRunAt | skibidi/src/skibidi/dealer.py:76-83 | the i-th card popped is the i-th from the end of the draw pile |
| Dealing.PoppedFromTop | skibidi/src/skibidi/dealer.py:76-83 | the cards popped from the end plus the rest of the pile are the pile |
| Dealing.DealConserves | skibidi/src/skibidi/dealer.py:74-84 | the remaining draw pile, treasure run, discard card and hand run together are the original draw pile |
| Dealing.InitialDealConserves | skibidi/src/skibidi/dealer.py:70-85 | after the deal, the piles and hands together hold the same cards as before |
| Dealing.HandsMultisetAppend | skibidi/src/skibidi/game.py:180 | adding a card to one hand adds exactly that card to all the cards in hands |
| Dealing.HandsMultisetRemove | skibidi/src/skibidi/game.py:154 | taking one card out of one hand takes exactly that card out of all the cards in hands |
| Dealing.HandsMultisetReplace | skibidi/src/skibidi/game.py:171 | replacing one card trades exactly that card for the new one |
| Dealing.HandsMultisetPermute | skibidi/src/skibidi/game.py:242 | reordering one hand keeps all the cards in hands |
| Dealing.DealerView.constructor | skibidi/src/skibidi/dealer.py:17-19 | the view records the draw pile's size and the discard pile |
| Dealing.DealerView.Update | skibidi/src/skibidi/dealer.py:21-23 | after update the view shows the dealer's current draw-pile size and discard pile |
| Dealing.Dealer.constructor | skibidi/src/skibidi/dealer.py:38-45 | the draw pile is the full deck in order; discard pile and treasure are empty; the view is in sync |
| Dealing.Dealer.ResetDeck | skibidi/src/skibidi/dealer.py:57-62 | the draw pile is a permutation of the 54-card deck; discard pile and treasure are empty; the view shows the new size |
| Dealing.Dealer.ReshuffleDiscardIntoDraw | skibidi/src/skibidi/dealer.py:64-68 | the draw pile becomes a permutation of the discard pile without its top; the discard pile becomes [old top], or [] when it was empty; no card is lost |
| Dealing.Dealer.DealInitialHands | skibidi/src/skibidi/dealer.py:70-85 | fails, changing nothing, exactly when fewer than players·hand_size + treasure_size + 1 cards remain; otherwise the hands get the round-robin deal from the end of the draw pile, the treasure the next treasure_size cards, the discard pile the next one; every card is conserved |
| Dealing.Dealer.DealHands | skibidi/src/skibidi/dealer.py:74-77 | the nested loops produce `Deal` of the popped run and shrink the draw pile by players·hand_size |
| Dealing.Dealer.DealPass | skibidi/src/skibidi/dealer.py:75-77 | one pass gives every player, in seating order, the next card from the end |
| Dealing.Dealer.DealTreasure | skibidi/src/skibidi/dealer.py:79-81 | the treasure receives the next treasure_size cards from the end |
| Dealing.Dealer.DrawFromDraw | skibidi/src/skibidi/dealer.py:87-94 | returns and removes the last card; reshuffles first when the pile is empty; fails with the deck empty exactly when at most one discard remains; conserves cards |
| Dealing.Dealer.DrawFromDiscard | skibidi/src/skibidi/dealer.py:96-101 | pops and returns the top discard; fails on an empty pile; conserves cards |
| Dealing.Dealer.Draw | skibidi/src/skibidi/dealer.py:103-108 | dispatches on the source, with each source's success and error conditions; a card from the draw side is `DrewFrom` the old piles: the draw pile's top, or, after the reshuffle, one of the old discard pile's cards under its top, which alone stays on the discard pile |
| Dealing.Dealer.Discard | skibidi/src/skibidi/dealer.py:110-112 | the card becomes the new top, the draw pile is untouched, and the view is in sync |
| Players.OpponentNames | skibidi/src/skibidi/player.py:14-18 | the opponent keys are exactly the other players' names |
| Players.FreshView | skibidi/src/skibidi/player.py:11-19 | no drawn card, hand_size unknowns for the own hand and for every opponent, treasure_size unknowns for the treasure |
| Players.OwnNameNotOpponent | skibidi/src/skibidi/player.py:14-18 | with distinct names, a player's own name is never an opponent key |
| Players.Player.constructor | skibidi/src/skibidi/player.py:53-56 | the player gets its name and a fresh view |
| Players.Player.Reset | skibidi/src/skibidi/player.py:21-29 | the view becomes the fresh view again |
| Players.Player.LearnCard | skibidi/src/skibidi/player.py:58-62 | succeeds exactly for 0 <= idx < len(hand) and then sets only hand[idx]; otherwise fails and changes nothing |
| Players.Player.LearnOpponentCard | skibidi/src/skibidi/player.py:64-71 | succeeds exactly for a known opponent and a valid index, setting only that entry; an unknown opponent or a bad index fails with its own error and changes nothing |
| Knowledge.AppendUnknownSound | skibidi/src/skibidi/game.py:180-184 | a penalty card with an unknown slot in every view keeps views shaped like hands and every belief true |
| Knowledge.RemoveSlotSound | skibidi/src/skibidi/game.py:154-160 | removing position k from the hand and from every view keeps views shaped and beliefs true |
| Knowledge.LearnSound | skibidi/src/skibidi/game.py:275-283 | learning the true card at a position keeps views shaped and beliefs true |
| Knowledge.SetDrawnSound | skibidi/src/skibidi/game.py:150 | clearing the drawn card touches no belief about hands |
| Knowledge.RevealShaped | skibidi/src/skibidi/game.py:186-190 | revealing changes exactly the opponents' entry for that position |
| Knowledge.RevealRestores | skibidi/src/skibidi/game.py:97-99 | when the only possibly false belief is the revealed slot, revealing the true card makes every belief true |
| Knowledge.ExchangeSoundExcept | skibidi/src/skibidi/game.py:170-173 | after an exchange the holder's beliefs are true; only opponents' beliefs about that slot may be false |
| Knowledge.ExchangeRevealSound | skibidi/src/skibidi/game.py:97-99 | exchange followed by a reveal of the new card leaves every belief true |
| Knowledge.SwapRows | skibidi/src/skibidi/game.py:255-273 | for every observer, the entries for (A, i) and (B, j) trade places, own hand or opponent row alike; other rows stay |
| Knowledge.SwapSlotsShaped | skibidi/src/skibidi/game.py:245-273 | SWAP keeps every view shaped like the hands |
| Knowledge.SwapSlotsSound | skibidi/src/skibidi/game.py:245-273 | knowledge follows the card: SWAP keeps every belief true |
| Knowledge.ForgetOwnSound | skibidi/src/skibidi/game.py:239-243 | after SHUFFLE the target knows nothing of its hand; only opponents' beliefs about that hand may become false |
| Knowledge.ShuffleMisleadsOpponents | skibidi/src/skibidi/game.py:242-243 | a concrete state where an opponent's true belief becomes false after SHUFFLE |
| Knowledge.Glimpse | skibidi/src/skibidi/game.py:308-309 | after looking at the positions `known`, exactly those positions show their card |
| Knowledge.GlimpsePrefixStep | skibidi/src/skibidi/game.py:308-309 | each loop step learns exactly one more position |
| Knowledge.StartRow | skibidi/src/skibidi/game.py:306-309 | at the start of a round each player knows only its glimpsed positions and nothing of opponents |
| Knowledge.StartViewsSound | skibidi/src/skibidi/game.py:302-309 | the start-of-round views are shaped like the hands and every belief is true |
| Scoring.HandValue | skibidi/src/skibidi/game.py:288 | a hand is worth at most 10 per card |
| Scoring.HandValueRemove | skibidi/src/skibidi/game.py:288 | removing a card lowers the hand's worth by that card's value |
| Scoring.HandValuePermutation | skibidi/src/skibidi/game.py:288 | a hand's worth does not depend on card order, so SHUFFLE and SWAP within a hand leave it unchanged |
| Scoring.HandValues | skibidi/src/skibidi/game.py:287-289 | one hand value per player |
| Scoring.MinOf | skibidi/src/skibidi/game.py:292 | `min` is an element no greater than any element |
| Scoring.MaxOf | skibidi/src/skibidi/game.py:312 | `max` is an element no smaller than any element |
| Scoring.FirstMaxIndexIsFirstMax | skibidi/src/skibidi/game.py:311-313 | the starting player holds the highest score and every earlier player holds strictly less |
| Scoring.RoundScores | skibidi/src/skibidi/game.py:290-298 | every player other than the caller adds the value of their hand |
| Scoring.RoundScoresCaller | skibidi/src/skibidi/game.py:291-298 | the caller adds 0 exactly when every other hand is worth strictly more, and twice its hand otherwise |
| Scoring.AddScores | skibidi/src/skibidi/game.py:299-300 | each running score grows by that player's round points |
| Scoring.ReachedLimit | skibidi/src/skibidi/game.py:320-321 | true exactly when some score is at least 100 |
| Games.HandsMultisetSwap | skibidi/src/skibidi/game.py:250-253 | SWAP keeps all the cards in hands |
| Games.Candidates | skibidi/src/skibidi/game.py:206-212 | a claim is a candidate exactly when its position exists in the claimant's hand; candidates come in seating order |
| Games.EmptyHandsHoldNothing | skibidi/src/skibidi/game.py:302-304 | cleared hands hold no card |
| Games.DealtOntoEmpty | skibidi/src/skibidi/game.py:302-304 | dealing onto cleared hands gives each player exactly hand_size cards |
| Games.DealOntoKeptHands | skibidi/src/skibidi/game.py:302-304 | dealing onto last round's hands gives more than hand_size cards, and a card of the old hand that is dealt again is held twice |
| Games.EffectOf | skibidi/src/skibidi/game.py:162 | reading `.effect` succeeds exactly for a card |
| Games.DiscardArgs | skibidi/src/skibidi/game.py:146-163 | fails exactly when no card is given and the index is missing or out of range; a given `card` clears the drawn card and is laid as it is; an index moves that card from the hand to the pile |
| Games.PositionalDiscardKeepsCard | skibidi/src/skibidi/game.py:227 | passing the position positionally keeps the matching card in the hand, lays the int on the pile and leaves no effect to read; passing it as `idx` removes the card |
| Games.GameView.constructor | skibidi/src/skibidi/game.py:12-17 | empty effects queue, player 0 to start, round 0, one zero score per player |
| Games.GameView.AddRound | skibidi/src/skibidi/game.py:299-300 | the loop adds each round score to its running score |
| Games.GameView.Update | skibidi/src/skibidi/game.py:19-21 | the dealer view is refreshed and the current player copied |
| Games.Game.constructor | skibidi/src/skibidi/game.py:39-58 | players in the given order with fresh views, empty hands, caller -1, current player 0, a full deck |
| Games.Game.GetPlayerByName | skibidi/src/skibidi/game.py:140-144 | returns the first seat with that name; fails exactly when no player has it |
| Games.Game.ForgetPosition | skibidi/src/skibidi/game.py:156-160 | position k is removed from the player's own view and from every opponent's row for that player |
| Games.Game.TakeFromHand | skibidi/src/skibidi/game.py:154-160 | pops hand[k] and the matching slot of every view; keeps shape and truth |
| Games.Game.ClearDrawn | skibidi/src/skibidi/game.py:150 | only the player's drawn card is cleared |
| Games.Game.QueueEffect | skibidi/src/skibidi/game.py:162-163 | the queue gets (player, effect) at its end exactly when the effect is not NONE |
| Games.Game.ToDiscardPile | skibidi/src/skibidi/game.py:161-163 | the card tops the discard pile and its effect, if any, is queued |
| Games.Game.DiscardDrawn | skibidi/src/skibidi/game.py:149-163 | discarding a given card clears the drawn card, keeps the hands, tops the pile with it and queues its effect |
| Games.Game.DiscardAt | skibidi/src/skibidi/game.py:151-163 | discarding at a position moves that card from the hand to the pile, removes the slot from every view, queues its effect and conserves the table |
| Games.Game.Discard | skibidi/src/skibidi/game.py:146-163 | fails exactly when neither a card nor a valid index is given, changing nothing; otherwise behaves as DiscardDrawn or DiscardAt; keeps views shaped and beliefs true |
| Games.Game.Exchange | skibidi/src/skibidi/game.py:165-174 | fails exactly on a bad index; returns the old card and puts the new one in its place; with `reveal` the holder learns it; all other slots and views unchanged |
| Games.Game.HolderLearns | skibidi/src/skibidi/game.py:172-173 | the holder learns exactly the exchanged position |
| Games.Game.DrawPenaltyCard | skibidi/src/skibidi/game.py:179 | the penalty card is the draw pile's last card when there is one, and otherwise comes from the reshuffled discard pile (`DrewFrom`); fails with the deck empty, both piles unchanged, exactly when the dealer has no card to give; the treasure is untouched |
| Games.Game.AddToHand | skibidi/src/skibidi/game.py:180-184 | the card goes to the end of the hand and every view gets an unknown slot |
| Games.Game.Penalize | skibidi/src/skibidi/game.py:176-184 | fails exactly when the dealer has no card to give, and then hands, views and piles are unchanged; on success (`Penalized`) only that hand changes, gaining at its end the card the dealer drew (`DrewFrom`: the draw pile's top, or a card of the reshuffled discard pile), and every view of it gains one unknown slot; the treasure is untouched and the table conserved |
| Games.Game.RevealToOthers | skibidi/src/skibidi/game.py:186-190 | every opponent learns the card at idx; fails on a bad index when there is an opponent; revealing the true card restores truth |
| Games.Game.DrawEffect | skibidi/src/skibidi/game.py:233-236 | an unknown name fails with nothing changed; otherwise the named target is penalized as `Penalize` states, failing exactly when no card can be drawn |
| Games.Game.ShuffleEffect | skibidi/src/skibidi/game.py:239-243 | the target's hand becomes a permutation of itself and only the target's own view is wiped |
| Games.Game.SwapViews | skibidi/src/skibidi/game.py:255-273 | every player's view has the two positions' entries exchanged |
| Games.Game.SwapEffect | skibidi/src/skibidi/game.py:245-273 | fails exactly on an unknown name or a bad Python index, changing nothing; otherwise the two cards and everyone's knowledge of them trade places |
| Games.Game.SwapAt | skibidi/src/skibidi/game.py:250-273 | the two cards and all views swap; shape, truth and cards kept |
| Games.Game.PeekEffect | skibidi/src/skibidi/game.py:275-283 | the actor learns exactly the true card at (target, idx), in its own hand or an opponent row; fails on an unknown name or a bad index |
| Games.Game.ApplyEffect | skibidi/src/skibidi/game.py:232-283 | NONE does nothing; a decision of the wrong kind fails with nothing changed; otherwise (`Applied`) DRAW penalizes the named player, SHUFFLE permutes that player's hand and wipes its own view, SWAP trades the two cards in the hands and in every view, PEEK teaches the discarder the card, each failing exactly on an unknown name, a bad index or an empty deck; only DRAW touches the piles; the table and shape are kept, and truth by all but SHUFFLE |
| Games.Game.ResolveNext | skibidi/src/skibidi/game.py:106-111 | takes the first queued effect off the queue and applies it for its discarder as `ApplyEffect` states (`Applied`) |
| Games.Game.ResolveEffects | skibidi/src/skibidi/game.py:106-111 | effects are consumed first in, first out; truth is kept while no SHUFFLE is applied |
| Games.Game.SettleClaim | skibidi/src/skibidi/game.py:219-227 | `Settled`: a claim of the card captured at entry takes it out of the hand and every view of it, lays it on the discard pile and queues its effect; a wrong claim leaves the queue and penalizes the claimant as `Penalize` states, failing exactly when no card can be drawn |
| Games.Game.SettledProgress | skibidi/src/skibidi/game.py:219-227 | with a top that has an effect, a settled claim that passes adds one effect to the queue and removes a card from a hand, or adds a card to a hand, so twice the queue length plus the cards held grows by exactly one |
| Games.Game.DiscardPass | skibidi/src/skibidi/game.py:206-227 | something happens exactly when there is a valid candidate; the chosen claim is then one of the candidates and is settled as `SettleClaim` states; with a top that has an effect, a pass that settles a claim and passes grows twice the queue length plus the cards held by one |
| Games.Game.AllowDiscards | skibidi/src/skibidi/game.py:192-230 | nothing happens when the discard pile is empty; otherwise at least one pass runs; with a NONE top at most one pass runs; passes stop before the declarations run out only after a pass without a claim, a NONE top or a failure, which only a claim can cause; after a single pass the state is that pass's settlement of one candidate against the captured top; with a top that has an effect, every pass but possibly the last settled a claim that left a trace, so twice the queue's growth plus the change in cards held counts those passes (`SettledProgress`); only the captured top's effect is queued; shape, truth and the table are kept |
| Games.Game.CalculateScores | skibidi/src/skibidi/game.py:285-300 | fails exactly when the caller index is invalid or there is no opponent; otherwise others add their hand, the caller adds 0 on a successful call and twice its hand on a failed one |
| Games.Game.EndRound | skibidi/src/skibidi/game.py:316-318 | the round number grows by one and the scores are updated |
| Games.Game.IsFinished | skibidi/src/skibidi/game.py:320-321 | true exactly when some score is at least 100 |
| Games.Game.DealRound | skibidi/src/skibidi/game.py:303-304 | fails exactly when the deck is too small; otherwise every hand has hand_size cards and the piles and hands hold exactly the deck |
| Games.Game.ShowInitialCards | skibidi/src/skibidi/game.py:306-309 | the player's view is reset and shows exactly its initially known positions; fails when one does not exist |
| Games.Game.ShowStartViews | skibidi/src/skibidi/game.py:306-309 | every player's view is its start-of-round view |
| Games.Game.InitRound | skibidi/src/skibidi/game.py:302-314 | on success every hand has hand_size cards, the views are the start views and all true, the table is the deck, caller is -1, and the first player is 0 in round 0 and otherwise the first with the highest score |

## Left out

- The outer `play()` loop (game.py:60-138) is not modelled as a whole. It is driven by strategy callbacks and need not terminate. The model covers its effects loop (105-111) as `ResolveEffects` and every operation a turn calls. It does not model one turn as a single method, nor the re-asking loop that refuses discarding from the discard pile (87-91).
- Strategies, `main.py`, `__repr__`, the `print` calls and `end_game` hold no engine rules and are left out.
- Randomness is left out: only "some permutation" and "some valid candidate" remain. The distributions of `random.shuffle` and `random.choices`, the speed weight of 5 and the `player` argument of `allow_discards` only shape those distributions.
- Games.Game.ResolveEffects: states which effects were consumed (first in, first out) and what every step keeps, but not the state each applied effect produced; that is stated one step at a time by `ResolveNext`, and stating it across the loop would need the sequence of intermediate states.
- Games.Game.AllowDiscards: states the settlement of a pass against the state before it only when a single pass ran. For more passes it states how many passes settled a claim, through the queue's length and the number of cards held, and what all passes keep, but not which claims they settled, since each starts from a state the contract does not name.
- Games.Game.constructor: the default `names=None` path, which seats `n_players` (5) players called "Player 1" to "Player 5" (game.py:41-51), is not modelled; callers pass the names. It also requires at least one name, while game.py:53-57 accepts an empty list; without players the first turn indexes an empty player list (game.py:72), and the seat invariants the model keeps need one player.
- Games.Game.AllowDiscards: Python keeps asking the strategies until nobody has a valid claim. The model receives one list of declarations per pass and also stops when the list runs out, a fuel bound.
- The hands dictionary is a sequence aligned with the seating order, since the dictionary is built from the players list in order (game.py:54). Names are required to be distinct, which a dictionary keyed by name needs anyway.
- Queued effects carry the player's seat instead of the `Player` object.
- `Dealer.View.discard_pile` aliases the dealer's live list in Python (dealer.py:19,23). The model copies the list whenever the view is updated, so a stale alias is not modelled. Such an alias can appear after a failed `draw_from_draw`, whose reshuffle pops the old list (dealer.py:65).
- Dealing.Dealer.Draw: the "invalid source" error (dealer.py:108) cannot happen, because `Source` has only two values.
- The constructors disagree in the source. game.py:47 calls `Dealer(self, …)`, but dealer.py:38 takes `(hand_size, treasure_size)`. game.py:50,53 call `Player(name)`, but player.py:53 takes `(game, name, strategy)`. The model uses the dealer's own signature. A player is built from the seating (`names`, seat) and the sizes, which are what `Player.View` reads from the game.
- `initially_known` defaults to the int 2 (game.py:45,58), but `init_round` iterates over it (game.py:308). The model takes a sequence of positions.
- game.py:312 reads `self.round`, which `Game` never defines. The model reads `view.round`, the counter `end_round` increments (game.py:317).
- A SWAP whose two targets are the same player would index `opponents_hands` by the player's own name, which player.py:14-18 never creates. It is a precondition of `SwapEffect` that the two names differ.
- A decision of the wrong shape makes Python fail while unpacking or looking up a name. The model reports `WrongDecision` for it.
- Python errors raised part-way through `init_round` leave a partly reset round. The model does the same, and promises nothing about that state beyond the error.
- Only the target's own view is wiped by SHUFFLE (game.py:243), as the code does; opponents keep their now possibly false beliefs, which `ShuffleMisleadsOpponents` exhibits.
- `allow_discards` continues after a penalty when the captured top card has an effect, as the code does (game.py:221-230).
- The players' `treasure` rows are never updated by the engine and stay unknown.

## Findings

| source | as written | input that shows it | evidently intended | confidence | as-written member | corrected member |
|---|---|---|---|---|---|---|
| skibidi/src/skibidi/game.py:227 | `self.discard(p, idx)` passes the position positionally, so it lands in the `card` parameter | a correct claim of the card at position 0: the claimant's drawn card is cleared, the int 0 is laid on the discard pile, the matching card stays in the hand, and reading `card.effect` then fails | `self.discard(p, idx=idx)`: the matching card leaves the hand for the pile and its effect is queued | high; not executed | Games.PositionalDiscardKeepsCard | Games.Game.SettleClaim |
| skibidi/src/skibidi/game.py:302-304 | `init_round` deals onto `self.hands` without clearing last round's cards | any second round: each hand already holds its old cards, `deal_initial_hands` appends hand_size more from a full fresh deck, so a card can be held twice and hands outgrow the hand_size-long views | clear every hand before dealing | high; not executed | Games.DealOntoKeptHands | Games.Game.DealRound |
