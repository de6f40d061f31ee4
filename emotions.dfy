/** The emotions game (pages/games/Emotions.jsx): a face is shown, the player picks
    one of up to four labels, a correct pick scores a point, and after a short delay
    the next card (cyclically) is shown.

    `Judge` and `Advance` are the two halves of `handlePick` (the immediate update and
    the one run by the 900 ms timer); `EmotionsGame` holds the component state.
    `ShuffleOptions` takes the stream of random pool indices as a parameter. */
module Emotions {
  import opened Common

  datatype Card = Card(id: nat, emoji: string, emotion: string)

  const Cards: seq<Card> := [
    Card(1, "😀", "Feliz"),
    Card(2, "😢", "Triste"),
    Card(3, "😠", "Bravo"),
    Card(4, "😮", "Surpreso"),
    Card(5, "😐", "Neutro")
  ]

  /** The labels the distractors are drawn from. */
  const Pool: seq<string> := ["Feliz", "Triste", "Bravo", "Surpreso", "Neutro", "Ansioso", "Calmo"]

  const CorrectFeedback := "Correto 🎉"
  const WrongFeedback := "Tente novamente"

  /** How many labels `shuffleOptions` offers. */
  const OptionCount := 4

  datatype Round = Round(index: nat, score: int, feedback: Option<string>)

  predicate ValidRound(r: Round)
  {
    r.index < |Cards|
  }

  /** The immediate part of `handlePick`: score and feedback. */
  function Judge(r: Round, answer: string): (s: Round)
    requires ValidRound(r)
    ensures ValidRound(s) && s.index == r.index && s.feedback.Some?
    ensures s.score == r.score + 1 <==> answer == Cards[r.index].emotion
  {
    if Cards[r.index].emotion == answer then
      r.(score := r.score + 1, feedback := Some(CorrectFeedback))
    else
      r.(feedback := Some(WrongFeedback))
  }

  /** The timer part of `handlePick`: clear the feedback and move to the next card. */
  function Advance(r: Round): (s: Round)
    ensures ValidRound(s) && s.feedback == None && s.score == r.score
  {
    r.(feedback := None, index := (r.index + 1) % |Cards|)
  }

  /** The card index after `n` timer steps from `i`. */
  function AdvanceBy(i: nat, n: nat): nat
    decreases n
  {
    if n == 0 then i else Advance(Round(AdvanceBy(i, n - 1), 0, None)).index
  }

  // ---------------------------------------------------------------- properties

  /** A pick scores exactly when it names the shown card's emotion, and the feedback
      says which case happened; the card does not change until the timer runs. */
  lemma JudgeScoresIffCorrect(r: Round, answer: string)
    requires ValidRound(r)
    ensures var s := Judge(r, answer);
      (s.score == r.score + 1 <==> answer == Cards[r.index].emotion) &&
      (s.score == r.score <==> answer != Cards[r.index].emotion) &&
      (s.feedback == Some(CorrectFeedback) <==> answer == Cards[r.index].emotion) &&
      s.index == r.index && ValidRound(s)
  {
  }

  /** The timer keeps the index on a card and clears the feedback. */
  lemma AdvanceStaysOnCard(r: Round)
    ensures ValidRound(Advance(r)) && Advance(r).feedback == None
    ensures r.index + 1 < |Cards| ==> Advance(r).index == r.index + 1
    ensures r.index == |Cards| - 1 ==> Advance(r).index == 0
  {
  }

  /** `n` timer steps from card `i` land on card `(i + n) mod 5`, five being the
      number of cards. */
  lemma {:induction false} AdvanceByIsModular(i: nat, n: nat)
    requires i < |Cards|
    ensures AdvanceBy(i, n) < |Cards|
    ensures AdvanceBy(i, n) == (i + n) % 5
    decreases n
  {
    CardCount();
    if n > 0 {
      AdvanceByIsModular(i, n - 1);
      AdvanceStaysOnCard(Round(AdvanceBy(i, n - 1), 0, None));
      StepMod(i + n - 1);
    }
  }

  /** Adding one after reducing modulo 5 is adding one before. */
  lemma StepMod(m: nat)
    ensures m % 5 + 1 < 5 ==> (m + 1) % 5 == m % 5 + 1
    ensures m % 5 == 4 ==> (m + 1) % 5 == 0
  {
  }

  lemma CardCount()
    ensures |Cards| == 5
  {
  }

  /** Every card `k` is reached from card `i` after fewer than five timer steps. */
  lemma CardsCycle(i: nat, k: nat, d: nat)
    requires i < |Cards| && k < |Cards|
    requires d == if i <= k then k - i else k + |Cards| - i
    ensures AdvanceBy(i, d) == k && d < |Cards|
  {
    CardCount();
    AdvanceByIsModular(i, d);
    SmallMod(k);
  }

  /** A card index modulo 5, with or without one full turn added, is itself. */
  lemma SmallMod(k: nat)
    requires k < 5
    ensures k % 5 == k && (k + 5) % 5 == k
  {
  }

  /** Five more timer steps always lead back to the same card. */
  lemma AdvanceIsPeriodic(i: nat, n: nat)
    requires i < |Cards|
    ensures AdvanceBy(i, n + |Cards|) == AdvanceBy(i, n)
  {
    CardCount();
    AdvanceByIsModular(i, n);
    AdvanceByIsModular(i, n + 5);
    var m := i + n;
    assert (m + 5) % 5 == m % 5;
  }

  /** Every card's correct label is one the pool can also draw. */
  lemma CardLabelsInPool(i: nat)
    requires i < |Cards|
    ensures Cards[i].emotion in Pool
    ensures Cards[i].id == i + 1
  {
  }

  /** The labels the random indices `picks` draw from the pool, in order. */
  function Drawn(picks: seq<nat>): (r: seq<string>)
    requires forall j :: 0 <= j < |picks| ==> picks[j] < |Pool|
    ensures |r| == |picks|
  {
    seq(|picks|, j requires 0 <= j < |picks| => Pool[picks[j]])
  }

  /** `shuffleOptions(current)`: a set seeded with the correct label, grown with pool
      labels drawn by `picks` until it holds four. The labels are returned in
      insertion order; the final random-comparator sort is not modelled. The loop
      also stops if `picks` runs out. */
  method ShuffleOptions(current: Card, picks: seq<nat>) returns (labels: seq<string>)
    requires forall j :: 0 <= j < |picks| ==> picks[j] < |Pool|
    ensures 1 <= |labels| <= OptionCount && labels[0] == current.emotion
    ensures forall i, j :: 0 <= i < j < |labels| ==> labels[i] != labels[j]
    ensures forall i :: 0 < i < |labels| ==> labels[i] in Drawn(picks)
    ensures |labels| < OptionCount ==>
      forall j :: 0 <= j < |picks| ==> Drawn(picks)[j] in labels
  {
    labels := [current.emotion];
    var n := 0;
    ghost var drawnAt: seq<nat> := [0];
    while |labels| < OptionCount && n < |picks|
      invariant 0 <= n <= |picks|
      invariant 1 <= |labels| <= OptionCount && labels[0] == current.emotion
      invariant forall i, j :: 0 <= i < j < |labels| ==> labels[i] != labels[j]
      invariant |drawnAt| == |labels|
      invariant forall i :: 0 < i < |labels| ==>
        drawnAt[i] < n && Pool[picks[drawnAt[i]]] == labels[i]
      invariant forall j :: 0 <= j < n ==> Pool[picks[j]] in labels
    {
      var pick := Pool[picks[n]];
      if pick !in labels {
        labels := labels + [pick];
        drawnAt := drawnAt + [n];
      }
      n := n + 1;
    }
    forall i | 0 < i < |labels|
      ensures labels[i] in Drawn(picks)
    {
      assert Drawn(picks)[drawnAt[i]] == labels[i];
    }
  }

  // ---------------------------------------------------------------- component

  /** The state of the Emotions component. */
  class EmotionsGame {
    var index: nat
    var score: int
    var feedback: Option<string>

    function State(): Round
      reads this
    {
      Round(index, score, feedback)
    }

    constructor ()
      ensures State() == Round(0, 0, None)
    {
      index, score, feedback := 0, 0, None;
    }

    /** The shown card. */
    method Current() returns (card: Card)
      requires ValidRound(State())
      ensures card == Cards[index]
      ensures card.id == index + 1 && card.emotion in Pool
      ensures Judge(State(), card.emotion).score == score + 1
    {
      card := Cards[index];
    }

    /** `handlePick(label)`, up to the timer. */
    method HandlePick(answer: string)
      requires ValidRound(State())
      modifies this
      ensures State() == Judge(old(State()), answer)
    {
      if Cards[index].emotion == answer {
        score := score + 1;
        feedback := Some(CorrectFeedback);
      } else {
        feedback := Some(WrongFeedback);
      }
    }

    /** The 900 ms timer of `handlePick`. */
    method AdvanceCard()
      modifies this
      ensures State() == Advance(old(State()))
    {
      feedback := None;
      index := (index + 1) % |Cards|;
    }
  }
}
