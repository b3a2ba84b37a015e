/** The arithmetic of the end of a round: what a hand is worth, who called
    successfully, who starts the next round and when the game is over. */
module Scoring {
  import opened Wrappers
  import opened Seqs
  import opened Cards

  /** The points a hand is worth: the sum of its cards' values. */
  function HandValue(hand: seq<Card>): (v: nat)
    ensures v <= 10 * |hand|
  {
    if hand == [] then 0 else HandValue(hand[..|hand| - 1]) + Last(hand).Value()
  }

  /** Taking one card out of a hand takes exactly its value off the hand's worth. */
  lemma {:induction false} HandValueRemove(hand: seq<Card>, k: nat)
    requires k < |hand|
    ensures HandValue(hand) == HandValue(RemoveAt(hand, k)) + hand[k].Value()
  {
    var m := |hand| - 1;
    if k < m {
      HandValueRemove(hand[..m], k);
      assert RemoveAt(hand, k)[..m - 1] == RemoveAt(hand[..m], k);
    } else {
      assert RemoveAt(hand, k) == hand[..m];
    }
  }

  lemma {:induction false} CancelOne<T>(a: multiset<T>, b: multiset<T>, x: T)
    requires a + multiset{x} == b + multiset{x}
    ensures a == b
  {
    forall t ensures a[t] == b[t] {
      assert (a + multiset{x})[t] == (b + multiset{x})[t];
    }
  }

  /** A hand's worth does not depend on the order of its cards, so SHUFFLE
      never changes a score. */
  lemma {:induction false} HandValuePermutation(a: seq<Card>, b: seq<Card>)
    requires multiset(a) == multiset(b)
    ensures HandValue(a) == HandValue(b)
    decreases |a|
  {
    if a != [] {
      var m := |a| - 1;
      var x := a[m];
      var front := a[..m];
      assert multiset(a) == multiset(front) + multiset{x} by {
        assert a == front + [x];
      }
      assert x in multiset(b);
      var k :| 0 <= k < |b| && b[k] == x;
      var rest := RemoveAt(b, k);
      assert multiset(front) == multiset(rest) by {
        CancelOne(multiset(front), multiset(rest), x);
      }
      assert HandValue(b) == HandValue(rest) + x.Value() by {
        HandValueRemove(b, k);
      }
      HandValuePermutation(front, rest);
    }
  }

  /** What each hand is worth, in seating order. */
  function HandValues(hands: seq<seq<Card>>): (v: seq<int>)
    ensures |v| == |hands|
  {
    seq(|hands|, i requires 0 <= i < |hands| => HandValue(hands[i]))
  }

  /** Python's `min`: the least element. */
  function MinOf(s: seq<int>): (m: int)
    requires |s| > 0
    ensures exists i :: 0 <= i < |s| && s[i] == m
    ensures forall i :: 0 <= i < |s| ==> m <= s[i]
  {
    if |s| == 1 then s[0]
    else
      var rest := MinOf(s[..|s| - 1]);
      if Last(s) < rest then Last(s) else rest
  }

  /** Python's `max`: the greatest element. */
  function MaxOf(s: seq<int>): (m: int)
    requires |s| > 0
    ensures exists i :: 0 <= i < |s| && s[i] == m
    ensures forall i :: 0 <= i < |s| ==> s[i] <= m
  {
    if |s| == 1 then s[0]
    else
      var rest := MaxOf(s[..|s| - 1]);
      if Last(s) > rest then Last(s) else rest
  }

  /** Who starts a round after the first: the first player holding the
      highest score. */
  function FirstMaxIndex(scores: seq<int>): (i: nat)
    requires |scores| > 0
  {
    IndexOf(scores, MaxOf(scores))
  }

  /** The starting player holds the highest score, and everybody before it
      holds strictly less. */
  lemma {:induction false} FirstMaxIndexIsFirstMax(scores: seq<int>)
    requires |scores| > 0
    ensures FirstMaxIndex(scores) < |scores|
    ensures forall k :: 0 <= k < |scores| ==> scores[k] <= scores[FirstMaxIndex(scores)]
    ensures forall k :: 0 <= k < FirstMaxIndex(scores) ==> scores[k] < scores[FirstMaxIndex(scores)]
  {
    var i := FirstMaxIndex(scores);
    forall k | 0 <= k < i ensures scores[k] < scores[i] {
      assert scores[k] != MaxOf(scores) && scores[k] <= MaxOf(scores);
    }
  }

  /** The caller's call succeeds when every other player's hand is worth
      strictly more than the caller's. */
  predicate CallSucceeds(values: seq<int>, caller: nat)
    requires caller < |values|
  {
    forall j :: 0 <= j < |values| && j != caller ==> values[j] > values[caller]
  }

  /** The points each player adds at the end of a round, given what each
      hand is worth: a successful caller adds nothing, a failed caller twice
      its hand, everybody else its hand. The caller's hand is compared with
      the least of the others' hands. */
  function RoundScores(values: seq<int>, caller: nat): (r: seq<int>)
    requires caller < |values| && |values| >= 2
    ensures |r| == |values|
    ensures forall j :: 0 <= j < |values| && j != caller ==> r[j] == values[j]
  {
    var others := RemoveAt(values, caller);
    if MinOf(others) > values[caller] then values[caller := 0] else values[caller := 2 * values[caller]]
  }

  /** Comparing with the least of the others is comparing with every other:
      the caller adds 0 exactly when the call succeeds, and twice its hand
      exactly when it fails. */
  lemma {:induction false} RoundScoresCaller(values: seq<int>, caller: nat)
    requires caller < |values| && |values| >= 2
    ensures CallSucceeds(values, caller) ==> RoundScores(values, caller)[caller] == 0
    ensures !CallSucceeds(values, caller) ==> RoundScores(values, caller)[caller] == 2 * values[caller]
  {
    var others := RemoveAt(values, caller);
    if CallSucceeds(values, caller) {
      var i :| 0 <= i < |others| && others[i] == MinOf(others);
      if i < caller {
        assert others[i] == values[i];
      } else {
        assert others[i] == values[i + 1];
      }
    } else {
      var j :| 0 <= j < |values| && j != caller && values[j] <= values[caller];
      if j < caller {
        assert others[j] == values[j];
      } else {
        assert others[j - 1] == values[j];
      }
    }
  }

  /** The scores after a round: each running score plus what its player adds. */
  function AddScores(scores: seq<int>, round: seq<int>): (r: seq<int>)
    requires |scores| == |round|
    ensures |r| == |scores|
    ensures forall i :: 0 <= i < |scores| ==> r[i] == scores[i] + round[i]
  {
    seq(|scores|, i requires 0 <= i < |scores| => scores[i] + round[i])
  }

  /** The score at which the game ends. */
  const Limit: int := 100

  /** The game is over once some player's score has reached the limit. */
  function ReachedLimit(scores: seq<int>): (r: bool)
    ensures r <==> exists i :: 0 <= i < |scores| && scores[i] >= Limit
  {
    if scores == [] then false
    else
      assert forall i :: 1 <= i < |scores| ==> scores[i] == scores[1..][i - 1];
      scores[0] >= Limit || ReachedLimit(scores[1..])
  }
}
