/** What every player knows about every hand on the table, and how the
    game's moves change it. Players sit at positions 0 .. n-1; `names[t]`
    is the name of the player at t and `hands[t]` the cards that player
    truly holds. Observer o keeps its own hand in `view.hand` and the hand
    of every other player t under `view.opponentsHands[names[t]]`; `Row`
    reads either one the same way. */
module Knowledge {
  import opened Wrappers
  import opened Seqs
  import opened Cards
  import opened Players

  /** What observer o knows of the hand of the player at t. */
  function Row(v: View, names: seq<string>, o: nat, t: nat): seq<Option<Card>>
    requires o < |names| && t < |names| && (t != o ==> names[t] in v.opponentsHands)
  {
    if t == o then v.hand else v.opponentsHands[names[t]]
  }

  /** Observer o's view with its knowledge of the hand at t replaced by `row`. */
  function SetRow(v: View, names: seq<string>, o: nat, t: nat, row: seq<Option<Card>>): (r: View)
    requires o < |names| && t < |names| && (t != o ==> names[t] in v.opponentsHands)
    ensures r.opponentsHands.Keys == v.opponentsHands.Keys
    ensures r.drawnCard == v.drawnCard && r.treasure == v.treasure
  {
    if t == o then v.(hand := row) else v.(opponentsHands := v.opponentsHands[names[t] := row])
  }

  lemma {:induction false} SetRowSame(v: View, names: seq<string>, o: nat, t: nat, row: seq<Option<Card>>)
    requires o < |names| && t < |names| && (t != o ==> names[t] in v.opponentsHands)
    ensures Row(SetRow(v, names, o, t, row), names, o, t) == row
  {
  }

  /** Replacing what o knows of one hand leaves what it knows of every other. */
  lemma {:induction false} SetRowOther(v: View, names: seq<string>, o: nat, t: nat, u: nat, row: seq<Option<Card>>)
    requires o < |names| && t < |names| && u < |names| && t != u && Distinct(names)
    requires t != o ==> names[t] in v.opponentsHands
    requires u != o ==> names[u] in v.opponentsHands
    ensures Row(SetRow(v, names, o, t, row), names, o, u) == Row(v, names, o, u)
  {
    if t != o && u != o {
      assert names[t] != names[u];
    }
  }

  /** Every observer files every other player's hand under that player's name. */
  predicate Keyed(views: seq<View>, names: seq<string>) {
    && |views| == |names|
    && forall o, t :: 0 <= o < |names| && 0 <= t < |names| && o != t ==> names[t] in views[o].opponentsHands
  }

  /** Every observer's knowledge of every hand has as many positions as the hand. */
  predicate Shaped(views: seq<View>, names: seq<string>, hands: seq<seq<Card>>) {
    && Keyed(views, names)
    && |hands| == |names|
    && forall o, t :: 0 <= o < |names| && 0 <= t < |names| ==> |Row(views[o], names, o, t)| == |hands[t]|
  }

  /** What observer o believes about the hand at t is true. */
  predicate SoundAt(views: seq<View>, names: seq<string>, hands: seq<seq<Card>>, o: nat, t: nat)
    requires Shaped(views, names, hands) && o < |names| && t < |names|
  {
    forall k :: 0 <= k < |hands[t]| && Row(views[o], names, o, t)[k].Some? ==>
      Row(views[o], names, o, t)[k].value == hands[t][k]
  }

  /** No player believes anything false about any hand. */
  predicate Sound(views: seq<View>, names: seq<string>, hands: seq<seq<Card>>) {
    && Shaped(views, names, hands)
    && forall o, t :: 0 <= o < |names| && 0 <= t < |names| ==> SoundAt(views, names, hands, o, t)
  }

  // ---------------------------------------------------------------------
  // Penalty: one more, unknown, position at the end of a hand.

  /** Every observer adds an unknown position at the end of the hand at t. */
  function AppendUnknown(views: seq<View>, names: seq<string>, t: nat): (r: seq<View>)
    requires Keyed(views, names) && t < |names|
    ensures |r| == |views|
  {
    seq(|views|, o requires 0 <= o < |views| =>
      SetRow(views[o], names, o, t, Row(views[o], names, o, t) + [None]))
  }

  /** A penalty card keeps every view the shape of the hands and every belief true. */
  lemma {:induction false} AppendUnknownSound(views: seq<View>, names: seq<string>, hands: seq<seq<Card>>, t: nat, c: Card)
    requires Shaped(views, names, hands) && Distinct(names) && t < |names|
    ensures Shaped(AppendUnknown(views, names, t), names, hands[t := hands[t] + [c]])
    ensures Sound(views, names, hands) ==> Sound(AppendUnknown(views, names, t), names, hands[t := hands[t] + [c]])
  {
    var r, h := AppendUnknown(views, names, t), hands[t := hands[t] + [c]];
    forall o, u | 0 <= o < |names| && 0 <= u < |names|
      ensures |Row(r[o], names, o, u)| == |h[u]|
      ensures u != o ==> names[u] in r[o].opponentsHands
      ensures Row(r[o], names, o, u) == (if u == t then Row(views[o], names, o, u) + [None] else Row(views[o], names, o, u))
    {
      RowAfter(views, names, o, t, u, Row(views[o], names, o, t) + [None]);
    }
    assert Shaped(r, names, h);
    if Sound(views, names, hands) {
      forall o, u | 0 <= o < |names| && 0 <= u < |names|
        ensures SoundAt(r, names, h, o, u)
      {
        assert SoundAt(views, names, hands, o, u);
      }
    }
  }

  /** What o knows after its knowledge of the hand at t became `row`. */
  lemma {:induction false} RowAfter(views: seq<View>, names: seq<string>, o: nat, t: nat, u: nat, row: seq<Option<Card>>)
    requires Keyed(views, names) && Distinct(names) && o < |names| && t < |names| && u < |names|
    ensures u != o ==> names[u] in SetRow(views[o], names, o, t, row).opponentsHands
    ensures Row(SetRow(views[o], names, o, t, row), names, o, u)
         == (if u == t then row else Row(views[o], names, o, u))
  {
    if u == t {
      SetRowSame(views[o], names, o, t, row);
    } else {
      SetRowOther(views[o], names, o, t, u, row);
    }
  }

  // ---------------------------------------------------------------------
  // Discard by index: a position disappears from a hand.

  /** Every observer drops position k of its knowledge of the hand at t. */
  function RemoveSlot(views: seq<View>, names: seq<string>, t: nat, k: nat): (r: seq<View>)
    requires Keyed(views, names) && t < |names|
    requires forall o :: 0 <= o < |names| ==> k < |Row(views[o], names, o, t)|
    ensures |r| == |views|
  {
    seq(|views|, o requires 0 <= o < |views| =>
      SetRow(views[o], names, o, t, RemoveAt(Row(views[o], names, o, t), k)))
  }

  /** Dropping the same position from a hand and from everybody's knowledge
      of it keeps every view the shape of the hands and every belief true. */
  lemma {:induction false} RemoveSlotSound(views: seq<View>, names: seq<string>, hands: seq<seq<Card>>, t: nat, k: nat)
    requires Shaped(views, names, hands) && Distinct(names) && t < |names| && k < |hands[t]|
    ensures forall o :: 0 <= o < |names| ==> k < |Row(views[o], names, o, t)|
    ensures Shaped(RemoveSlot(views, names, t, k), names, hands[t := RemoveAt(hands[t], k)])
    ensures Sound(views, names, hands) ==> Sound(RemoveSlot(views, names, t, k), names, hands[t := RemoveAt(hands[t], k)])
  {
    var r, h := RemoveSlot(views, names, t, k), hands[t := RemoveAt(hands[t], k)];
    forall o, u | 0 <= o < |names| && 0 <= u < |names|
      ensures |Row(r[o], names, o, u)| == |h[u]|
      ensures u != o ==> names[u] in r[o].opponentsHands
      ensures Row(r[o], names, o, u)
           == (if u == t then RemoveAt(Row(views[o], names, o, u), k) else Row(views[o], names, o, u))
    {
      RowAfter(views, names, o, t, u, RemoveAt(Row(views[o], names, o, t), k));
    }
    assert Shaped(r, names, h);
    if Sound(views, names, hands) {
      forall o, u | 0 <= o < |names| && 0 <= u < |names|
        ensures SoundAt(r, names, h, o, u)
      {
        assert SoundAt(views, names, hands, o, u);
        if u == t {
          forall m | 0 <= m < |h[u]| && Row(r[o], names, o, u)[m].Some?
            ensures Row(r[o], names, o, u)[m].value == h[u][m]
          {
            if m >= k {
              assert Row(r[o], names, o, u)[m] == Row(views[o], names, o, u)[m + 1];
            }
          }
        }
      }
    }
  }

  // ---------------------------------------------------------------------
  // Learning one card.

  /** Observer o learns that position k of the hand at t holds `c`. */
  function Learn(views: seq<View>, names: seq<string>, o: nat, t: nat, k: nat, c: Card): (r: seq<View>)
    requires Keyed(views, names) && o < |names| && t < |names| && k < |Row(views[o], names, o, t)|
    ensures |r| == |views|
  {
    views[o := SetRow(views[o], names, o, t, Row(views[o], names, o, t)[k := Some(c)])]
  }

  /** Learning the true card keeps every view the shape of the hands and every belief true. */
  lemma {:induction false} LearnSound(views: seq<View>, names: seq<string>, hands: seq<seq<Card>>, o: nat, t: nat, k: nat)
    requires Shaped(views, names, hands) && Distinct(names) && o < |names| && t < |names| && k < |hands[t]|
    ensures k < |Row(views[o], names, o, t)|
    ensures Shaped(Learn(views, names, o, t, k, hands[t][k]), names, hands)
    ensures Sound(views, names, hands) ==> Sound(Learn(views, names, o, t, k, hands[t][k]), names, hands)
  {
    var r := Learn(views, names, o, t, k, hands[t][k]);
    var row := Row(views[o], names, o, t)[k := Some(hands[t][k])];
    forall p, u | 0 <= p < |names| && 0 <= u < |names|
      ensures |Row(r[p], names, p, u)| == |hands[u]|
      ensures u != p ==> names[u] in r[p].opponentsHands
      ensures Row(r[p], names, p, u) == (if p == o && u == t then row else Row(views[p], names, p, u))
    {
      if p == o {
        RowAfter(views, names, o, t, u, row);
      }
    }
    assert Shaped(r, names, hands);
    if Sound(views, names, hands) {
      forall p, u | 0 <= p < |names| && 0 <= u < |names|
        ensures SoundAt(r, names, hands, p, u)
      {
        assert SoundAt(views, names, hands, p, u);
      }
    }
  }

  /** The card a player has just drawn plays no part in what it knows of
      the hands, so setting it keeps every view's shape and every belief. */
  lemma {:induction false} SetDrawnSound(views: seq<View>, names: seq<string>, hands: seq<seq<Card>>, t: nat, d: Option<Card>)
    requires Shaped(views, names, hands) && t < |names|
    ensures Shaped(views[t := views[t].(drawnCard := d)], names, hands)
    ensures Sound(views, names, hands) ==> Sound(views[t := views[t].(drawnCard := d)], names, hands)
  {
    var r := views[t := views[t].(drawnCard := d)];
    forall o, u | 0 <= o < |names| && 0 <= u < |names|
      ensures u != o ==> names[u] in r[o].opponentsHands
      ensures Row(r[o], names, o, u) == Row(views[o], names, o, u)
    {
    }
    assert Shaped(r, names, hands);
    if Sound(views, names, hands) {
      forall o, u | 0 <= o < |names| && 0 <= u < |names|
        ensures SoundAt(r, names, hands, o, u)
      {
        assert SoundAt(views, names, hands, o, u);
      }
    }
  }

  // ---------------------------------------------------------------------
  // Exchange: a card put into a hand, known at once to its holder and,
  // when it came from the discard pile, to everybody else.

  /** Every observer other than the holder at t learns that position k of
      t's hand holds `c`. */
  function Reveal(views: seq<View>, names: seq<string>, t: nat, k: nat, c: Card): (r: seq<View>)
    requires Keyed(views, names) && t < |names|
    requires forall o :: 0 <= o < |names| && o != t ==> k < |Row(views[o], names, o, t)|
    ensures |r| == |views|
  {
    seq(|views|, o requires 0 <= o < |views| =>
      if o == t then views[o] else SetRow(views[o], names, o, t, Row(views[o], names, o, t)[k := Some(c)]))
  }

  /** Every belief is true except, possibly, what the opponents of the
      player at t believe about position k of t's hand. */
  predicate SoundButSlot(views: seq<View>, names: seq<string>, hands: seq<seq<Card>>, t: nat, k: nat) {
    && Shaped(views, names, hands)
    && forall o, u, m :: 0 <= o < |names| && 0 <= u < |names| && 0 <= m < |hands[u]| && (o == t || u != t || m != k) ==>
         var row := Row(views[o], names, o, u);
         row[m].Some? ==> row[m].value == hands[u][m]
  }

  /** Telling everybody else any card at position k of the hand at t
      changes exactly their knowledge of that position, and keeps every
      view the shape of the hands. */
  lemma {:induction false} RevealShaped(views: seq<View>, names: seq<string>, hands: seq<seq<Card>>, t: nat, k: nat, c: Card)
    requires Shaped(views, names, hands) && Distinct(names) && t < |names| && k < |hands[t]|
    ensures forall o :: 0 <= o < |names| && o != t ==> k < |Row(views[o], names, o, t)|
    ensures Shaped(Reveal(views, names, t, k, c), names, hands)
    ensures forall o, u :: 0 <= o < |names| && 0 <= u < |names| ==>
      Row(Reveal(views, names, t, k, c)[o], names, o, u)
        == if u == t && o != t then Row(views[o], names, o, u)[k := Some(c)] else Row(views[o], names, o, u)
  {
    var r := Reveal(views, names, t, k, c);
    forall o, u | 0 <= o < |names| && 0 <= u < |names|
      ensures |Row(r[o], names, o, u)| == |hands[u]|
      ensures u != o ==> names[u] in r[o].opponentsHands
      ensures Row(r[o], names, o, u) == (if u == t && o != t then Row(views[o], names, o, u)[k := Some(c)] else Row(views[o], names, o, u))
    {
      if o != t {
        RowAfter(views, names, o, t, u, Row(views[o], names, o, t)[k := Some(c)]);
      }
    }
  }

  /** Telling everybody else the true card at position k of the hand at t
      makes every belief true again when only their beliefs about that
      position could be wrong. */
  lemma {:induction false} RevealRestores(views: seq<View>, names: seq<string>, hands: seq<seq<Card>>, t: nat, k: nat)
    requires SoundButSlot(views, names, hands, t, k) && Distinct(names) && t < |names| && k < |hands[t]|
    ensures forall o :: 0 <= o < |names| && o != t ==> k < |Row(views[o], names, o, t)|
    ensures Sound(Reveal(views, names, t, k, hands[t][k]), names, hands)
  {
    var c := hands[t][k];
    var r := Reveal(views, names, t, k, c);
    RevealShaped(views, names, hands, t, k, c);
    forall o, u | 0 <= o < |names| && 0 <= u < |names|
      ensures SoundAt(r, names, hands, o, u)
    {
      forall m | 0 <= m < |hands[u]| && Row(r[o], names, o, u)[m].Some?
        ensures Row(r[o], names, o, u)[m].value == hands[u][m]
      {
        if o == t || u != t || m != k {
          var row := Row(views[o], names, o, u);
          assert row[m].Some? ==> row[m].value == hands[u][m];
        }
      }
    }
  }

  /** Putting `c` at position k of the hand at t, with the holder and then
      everybody else learning it, keeps every view the shape of the hands
      and every belief true. */
  lemma {:induction false} ExchangeRevealSound(views: seq<View>, names: seq<string>, hands: seq<seq<Card>>, t: nat, k: nat, c: Card)
    requires Sound(views, names, hands) && Distinct(names) && t < |names| && k < |hands[t]|
    ensures k < |Row(views[t], names, t, t)|
    ensures forall o :: 0 <= o < |names| && o != t ==> k < |Row(Learn(views, names, t, t, k, c)[o], names, o, t)|
    ensures Sound(Reveal(Learn(views, names, t, t, k, c), names, t, k, c), names, hands[t := hands[t][k := c]])
  {
    ExchangeSoundExcept(views, names, hands, t, k, c);
    RevealRestores(Learn(views, names, t, t, k, c), names, hands[t := hands[t][k := c]], t, k);
  }

  /** Without the reveal, only the others' beliefs about the replaced
      position can be false; the holder's, and every belief about every
      other position, stay true. */
  lemma {:induction false} ExchangeSoundExcept(views: seq<View>, names: seq<string>, hands: seq<seq<Card>>, t: nat, k: nat, c: Card)
    requires Shaped(views, names, hands) && Distinct(names) && t < |names| && k < |hands[t]|
    ensures k < |Row(views[t], names, t, t)|
    ensures Shaped(Learn(views, names, t, t, k, c), names, hands[t := hands[t][k := c]])
    ensures Sound(views, names, hands) ==> SoundButSlot(Learn(views, names, t, t, k, c), names, hands[t := hands[t][k := c]], t, k)
  {
    var r, h := Learn(views, names, t, t, k, c), hands[t := hands[t][k := c]];
    var row := Row(views[t], names, t, t)[k := Some(c)];
    forall o, u | 0 <= o < |names| && 0 <= u < |names|
      ensures |Row(r[o], names, o, u)| == |h[u]|
      ensures u != o ==> names[u] in r[o].opponentsHands
      ensures Row(r[o], names, o, u) == (if o == t && u == t then row else Row(views[o], names, o, u))
    {
      if o == t {
        RowAfter(views, names, t, t, u, row);
      }
    }
    if Sound(views, names, hands) {
      forall o, u, m | 0 <= o < |names| && 0 <= u < |names| && 0 <= m < |hands[u]| && (o == t || u != t || m != k)
        ensures var row := Row(r[o], names, o, u); row[m].Some? ==> row[m].value == h[u][m]
      {
        assert SoundAt(views, names, hands, o, u);
      }
    }
  }

  // ---------------------------------------------------------------------
  // SWAP: two cards of two different players trade places.

  /** The true hands after the card at (a, i) and the card at (b, j) trade places. */
  function SwapCards(hands: seq<seq<Card>>, a: nat, i: nat, b: nat, j: nat): (r: seq<seq<Card>>)
    requires a < |hands| && b < |hands| && a != b && i < |hands[a]| && j < |hands[b]|
    ensures |r| == |hands|
  {
    hands[a := hands[a][i := hands[b][j]]][b := hands[b][j := hands[a][i]]]
  }

  /** Observer o's view after its beliefs about (a, i) and (b, j) trade places. */
  function SwapView(v: View, names: seq<string>, o: nat, a: nat, i: nat, b: nat, j: nat): View
    requires o < |names| && a < |names| && b < |names| && a != b
    requires a != o ==> names[a] in v.opponentsHands
    requires b != o ==> names[b] in v.opponentsHands
    requires i < |Row(v, names, o, a)| && j < |Row(v, names, o, b)|
  {
    var ra, rb := Row(v, names, o, a), Row(v, names, o, b);
    SetRow(SetRow(v, names, o, a, ra[i := rb[j]]), names, o, b, rb[j := ra[i]])
  }

  /** Every observer's beliefs about (a, i) and (b, j) trade places. */
  function SwapSlots(views: seq<View>, names: seq<string>, a: nat, i: nat, b: nat, j: nat): (r: seq<View>)
    requires Keyed(views, names) && a < |names| && b < |names| && a != b
    requires forall o :: 0 <= o < |names| ==> i < |Row(views[o], names, o, a)| && j < |Row(views[o], names, o, b)|
    ensures |r| == |views|
  {
    seq(|views|, o requires 0 <= o < |views| => SwapView(views[o], names, o, a, i, b, j))
  }

  /** What o knows after SWAP: the two beliefs traded places and nothing else moved. */
  lemma {:induction false} SwapRows(views: seq<View>, names: seq<string>, a: nat, i: nat, b: nat, j: nat, o: nat, u: nat)
    requires Keyed(views, names) && Distinct(names) && a < |names| && b < |names| && a != b
    requires o < |names| && u < |names|
    requires i < |Row(views[o], names, o, a)| && j < |Row(views[o], names, o, b)|
    ensures u != o ==> names[u] in SwapView(views[o], names, o, a, i, b, j).opponentsHands
    ensures Row(SwapView(views[o], names, o, a, i, b, j), names, o, u)
         == if u == a then Row(views[o], names, o, a)[i := Row(views[o], names, o, b)[j]]
            else if u == b then Row(views[o], names, o, b)[j := Row(views[o], names, o, a)[i]]
            else Row(views[o], names, o, u)
  {
    var v := views[o];
    var ra, rb := Row(v, names, o, a), Row(v, names, o, b);
    var v1 := SetRow(v, names, o, a, ra[i := rb[j]]);
    RowAfter(views, names, o, a, u, ra[i := rb[j]]);
    RowAfter(views[o := v1], names, o, b, u, rb[j := ra[i]]);
    if u == a {
      SetRowOther(v1, names, o, b, a, rb[j := ra[i]]);
    }
    RowAfter(views, names, o, a, b, ra[i := rb[j]]);
  }

  /** SWAP keeps every view the shape of the hands. */
  lemma {:induction false} SwapSlotsShaped(views: seq<View>, names: seq<string>, hands: seq<seq<Card>>,
                                           a: nat, i: nat, b: nat, j: nat)
    requires Shaped(views, names, hands) && Distinct(names)
    requires a < |names| && b < |names| && a != b && i < |hands[a]| && j < |hands[b]|
    ensures forall o :: 0 <= o < |names| ==> i < |Row(views[o], names, o, a)| && j < |Row(views[o], names, o, b)|
    ensures Shaped(SwapSlots(views, names, a, i, b, j), names, SwapCards(hands, a, i, b, j))
  {
    var r, h := SwapSlots(views, names, a, i, b, j), SwapCards(hands, a, i, b, j);
    forall o, u | 0 <= o < |names| && 0 <= u < |names|
      ensures |Row(r[o], names, o, u)| == |h[u]|
      ensures u != o ==> names[u] in r[o].opponentsHands
    {
      SwapRows(views, names, a, i, b, j, o, u);
    }
  }

  /** Knowledge follows the card: what o believed about the card at (a, i)
      it now believes about (b, j), where that card went, and the other way
      round; so no belief of o about the hand at u becomes false. */
  lemma {:induction false} SwapSoundAt(views: seq<View>, names: seq<string>, hands: seq<seq<Card>>,
                                       a: nat, i: nat, b: nat, j: nat, o: nat, u: nat)
    requires Sound(views, names, hands) && Distinct(names)
    requires a < |names| && b < |names| && a != b && i < |hands[a]| && j < |hands[b]|
    requires o < |names| && u < |names|
    requires forall o :: 0 <= o < |names| ==> i < |Row(views[o], names, o, a)| && j < |Row(views[o], names, o, b)|
    requires Shaped(SwapSlots(views, names, a, i, b, j), names, SwapCards(hands, a, i, b, j))
    ensures SoundAt(SwapSlots(views, names, a, i, b, j), names, SwapCards(hands, a, i, b, j), o, u)
  {
    SwapRows(views, names, a, i, b, j, o, u);
    assert SoundAt(views, names, hands, o, a);
    assert SoundAt(views, names, hands, o, b);
    assert SoundAt(views, names, hands, o, u);
  }

  /** SWAP keeps every belief of every player true. */
  lemma {:induction false} SwapSlotsSound(views: seq<View>, names: seq<string>, hands: seq<seq<Card>>,
                                          a: nat, i: nat, b: nat, j: nat)
    requires Sound(views, names, hands) && Distinct(names)
    requires a < |names| && b < |names| && a != b && i < |hands[a]| && j < |hands[b]|
    ensures forall o :: 0 <= o < |names| ==> i < |Row(views[o], names, o, a)| && j < |Row(views[o], names, o, b)|
    ensures Sound(SwapSlots(views, names, a, i, b, j), names, SwapCards(hands, a, i, b, j))
  {
    SwapSlotsShaped(views, names, hands, a, i, b, j);
    forall o, u | 0 <= o < |names| && 0 <= u < |names|
      ensures SoundAt(SwapSlots(views, names, a, i, b, j), names, SwapCards(hands, a, i, b, j), o, u)
    {
      SwapSoundAt(views, names, hands, a, i, b, j, o, u);
    }
  }

  // ---------------------------------------------------------------------
  // SHUFFLE: the target forgets its own hand, the others do not.

  /** The target at t forgets every card of its own hand. */
  function ForgetOwn(views: seq<View>, t: nat): (r: seq<View>)
    requires t < |views|
    ensures |r| == |views|
  {
    views[t := views[t].(hand := Nones(|views[t].hand|))]
  }

  /** Every belief is true, except perhaps what the others believe about the hand at t. */
  predicate SoundExcept(views: seq<View>, names: seq<string>, hands: seq<seq<Card>>, t: nat) {
    && Shaped(views, names, hands)
    && forall o, u :: 0 <= o < |names| && 0 <= u < |names| && (u != t || o == t) ==> SoundAt(views, names, hands, o, u)
  }

  /** After the hand at t is reordered, only what the others believe about
      that hand can have become false: the target's own view is blank, and
      every belief about any other hand is untouched. */
  lemma {:induction false} ForgetOwnSound(views: seq<View>, names: seq<string>, hands: seq<seq<Card>>, t: nat, shuffled: seq<Card>)
    requires Shaped(views, names, hands) && t < |names| && multiset(shuffled) == multiset(hands[t])
    ensures Shaped(ForgetOwn(views, t), names, hands[t := shuffled])
    ensures Sound(views, names, hands) ==> SoundExcept(ForgetOwn(views, t), names, hands[t := shuffled], t)
  {
    var r, h := ForgetOwn(views, t), hands[t := shuffled];
    assert |shuffled| == |hands[t]| by {
      assert |multiset(shuffled)| == |multiset(hands[t])|;
    }
    forall o, u | 0 <= o < |names| && 0 <= u < |names|
      ensures |Row(r[o], names, o, u)| == |h[u]|
      ensures u != o ==> names[u] in r[o].opponentsHands
      ensures Row(r[o], names, o, u) == if o == t && u == t then Nones(|hands[t]|) else Row(views[o], names, o, u)
    {
    }
    assert Shaped(r, names, h);
    if Sound(views, names, hands) {
      forall o, u | 0 <= o < |names| && 0 <= u < |names| && (u != t || o == t)
        ensures SoundAt(r, names, h, o, u)
      {
        assert SoundAt(views, names, hands, o, u);
      }
    }
  }

  /** The others' beliefs about a shuffled hand can indeed become false: an
      opponent who knew both cards of a two-card hand still believes the old
      order after the two cards trade places. */
  lemma ShuffleMisleadsOpponents()
    ensures var c1, c2 := Card(Some(Hearts), Ace), Card(Some(Spades), Two);
      var names := ["P1", "P2"];
      var views := [View(None, [None, None], map["P2" := [None]], []),
                    View(None, [None], map["P1" := [Some(c1), Some(c2)]], [])];
      var hands := [[c1, c2], [c1]];
      && Sound(views, names, hands)
      && multiset([c2, c1]) == multiset(hands[0])
      && !SoundAt(ForgetOwn(views, 0), names, hands[0 := [c2, c1]], 1, 0)
  {
    var c1, c2 := Card(Some(Hearts), Ace), Card(Some(Spades), Two);
    var names := ["P1", "P2"];
    var views := [View(None, [None, None], map["P2" := [None]], []),
                  View(None, [None], map["P1" := [Some(c1), Some(c2)]], [])];
    var hands := [[c1, c2], [c1]];
    assert Row(views[1], names, 1, 0) == [Some(c1), Some(c2)];
    assert Row(ForgetOwn(views, 0)[1], names, 1, 0)[0] == Some(c1);
  }

  // ---------------------------------------------------------------------
  // Start of a round: fresh views, and each player looks at some of its cards.

  /** What a player knows of its own hand after looking at the positions
      `known`: each of those shows its card, every other position is as
      before. */
  function Glimpse(row: seq<Option<Card>>, known: seq<int>, hand: seq<Card>): (r: seq<Option<Card>>)
    requires |row| == |hand|
    requires forall i :: 0 <= i < |known| ==> 0 <= known[i] < |hand|
    ensures |r| == |row|
    ensures forall k :: 0 <= k < |r| ==> r[k] == (if k in known then Some(hand[k]) else row[k])
  {
    if known == [] then row
    else
      var m := |known| - 1;
      assert known == known[..m] + [known[m]];
      Glimpse(row, known[..m], hand)[known[m] := Some(hand[known[m]])]
  }

  /** What looking at the first i of the positions `known` of `hand`
      reveals, nothing else being known. */
  function GlimpsePrefix(known: seq<int>, i: nat, hand: seq<Card>): (r: seq<Option<Card>>)
    requires i <= |known|
    requires forall j :: 0 <= j < i ==> 0 <= known[j] < |hand|
    ensures |r| == |hand|
  {
    Glimpse(Nones(|hand|), known[..i], hand)
  }

  /** Looking at one more position learns exactly the card there. */
  lemma {:induction false} GlimpsePrefixStep(known: seq<int>, i: nat, hand: seq<Card>)
    requires i < |known|
    requires forall j :: 0 <= j <= i ==> 0 <= known[j] < |hand|
    ensures GlimpsePrefix(known, i + 1, hand) == GlimpsePrefix(known, i, hand)[known[i] := Some(hand[known[i]])]
  {
    assert known[..i + 1][..i] == known[..i];
  }

  /** Every player's view at the start of a round: nothing known but the
      positions `known` of its own hand. */
  function StartViews(names: seq<string>, hands: seq<seq<Card>>, handSize: nat, treasureSize: nat, known: seq<int>): (r: seq<View>)
    requires |hands| == |names|
    requires forall t :: 0 <= t < |hands| ==> |hands[t]| == handSize
    requires forall i :: 0 <= i < |known| ==> 0 <= known[i] < handSize
    ensures |r| == |names|
  {
    seq(|names|, o requires 0 <= o < |names| =>
      FreshView(names, o, handSize, treasureSize).(hand := Glimpse(Nones(handSize), known, hands[o])))
  }

  /** At the start of a round observer o knows the positions `known` of its
      own hand and nothing of anyone else's. */
  lemma {:induction false} StartRow(names: seq<string>, hands: seq<seq<Card>>, handSize: nat, treasureSize: nat, known: seq<int>, o: nat, u: nat)
    requires |hands| == |names| && o < |names| && u < |names|
    requires forall t :: 0 <= t < |hands| ==> |hands[t]| == handSize
    requires forall i :: 0 <= i < |known| ==> 0 <= known[i] < handSize
    ensures var r := StartViews(names, hands, handSize, treasureSize, known);
      && (u != o ==> names[u] in r[o].opponentsHands)
      && Row(r[o], names, o, u) == if u == o then Glimpse(Nones(handSize), known, hands[o]) else Nones(handSize)
  {
    if u != o {
      assert names[u] in OpponentNames(names, o);
    }
  }

  /** At the start of a round every view has the shape of the freshly dealt
      hands and every belief is true: a player knows only cards it has seen. */
  lemma {:induction false} StartViewsSound(names: seq<string>, hands: seq<seq<Card>>, handSize: nat, treasureSize: nat, known: seq<int>)
    requires |hands| == |names|
    requires forall t :: 0 <= t < |hands| ==> |hands[t]| == handSize
    requires forall i :: 0 <= i < |known| ==> 0 <= known[i] < handSize
    ensures Sound(StartViews(names, hands, handSize, treasureSize, known), names, hands)
  {
    var r := StartViews(names, hands, handSize, treasureSize, known);
    forall o, u | 0 <= o < |names| && 0 <= u < |names|
      ensures u != o ==> names[u] in r[o].opponentsHands
      ensures Row(r[o], names, o, u) == if u == o then Glimpse(Nones(handSize), known, hands[o]) else Nones(handSize)
    {
      StartRow(names, hands, handSize, treasureSize, known, o, u);
    }
    assert Shaped(r, names, hands);
    forall o, u | 0 <= o < |names| && 0 <= u < |names|
      ensures SoundAt(r, names, hands, o, u)
    {
    }
  }
}
