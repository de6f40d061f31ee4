/** The colour-sequence memory game (pages/games/Sequence.jsx): each round appends a
    random colour to the sequence and plays it back; the player must then repeat it.
    A wrong colour resets the game; a completed repetition scores a point.

    `NewRound`, `Pick`, `EndPlayback` and `Reset` are the transitions on a snapshot
    of the component state; `SequenceGame` holds that state and its methods are proved
    to perform them. The random colour is passed in as its index in `Colors`. */
module Sequence {

  datatype Color = Red | Yellow | Green | Blue

  const Colors: seq<Color> := [Red, Yellow, Green, Blue]

  /** Time between the starts of two flashes in the playback, in milliseconds. */
  const FlashGap := 800
  /** How long one flash stays lit. */
  const FlashLength := 500
  /** Delay after the last flash slot before input is accepted again. */
  const SettleDelay := 500

  const WrongMessage := "❌ Errado! Reiniciando..."
  const CorrectMessage := "✅ Correto! Prepare-se..."
  const ResetMessage := "🔄 Jogo reiniciado"

  datatype Board = Board(
    sequence: seq<Color>,
    player: seq<Color>,
    showing: bool,
    score: int,
    message: string)

  predicate IsPrefix(p: seq<Color>, s: seq<Color>)
  {
    |p| <= |s| && s[..|p|] == p
  }

  /** `startRound`: append the drawn colour, clear the player's input, start playback. */
  function NewRound(b: Board, k: nat): (r: Board)
    requires k < |Colors|
    ensures |r.sequence| == |b.sequence| + 1
    ensures r.player == [] && r.showing && r.score == b.score
  {
    b.(message := "", sequence := b.sequence + [Colors[k]], player := [], showing := true)
  }

  /** The last timer of `playSequence`: input is accepted again. */
  function EndPlayback(b: Board): (r: Board)
    ensures !r.showing
    ensures r.sequence == b.sequence && r.player == b.player && r.score == b.score
  {
    b.(showing := false)
  }

  /** The comparison of `handlePick`: the new colour differs from the sequence at the
      same position, or there is no colour at that position (`sequence[i]` is then
      `undefined`). */
  predicate Mismatch(b: Board, c: Color)
  {
    |b.player| >= |b.sequence| || c != b.sequence[|b.player|]
  }

  /** The pick completes the round: it matches and fills the sequence. */
  predicate Completes(b: Board, c: Color)
  {
    !Mismatch(b, c) && |b.player| + 1 == |b.sequence|
  }

  /** `handlePick`. */
  function Pick(b: Board, c: Color): (r: Board)
    ensures b.showing ==> r == b
    ensures r.score == 0 || r.score == b.score || r.score == b.score + 1
    ensures r.sequence == b.sequence || r.sequence == []
  {
    if b.showing then b
    else if Mismatch(b, c) then
      b.(message := WrongMessage, score := 0, sequence := [], player := [])
    else if Completes(b, c) then
      b.(player := b.player + [c], score := b.score + 1, message := CorrectMessage)
    else
      b.(player := b.player + [c])
  }

  /** `resetGame`; `showing` is left as it is. */
  function Reset(b: Board): (r: Board)
    ensures r.sequence == [] && r.player == [] && r.score == 0
    ensures r.showing == b.showing && r.message == ResetMessage
  {
    b.(sequence := [], player := [], score := 0, message := ResetMessage)
  }

  /** A sequence of picks, one after the other. */
  function PickAll(b: Board, cs: seq<Color>): Board
    decreases |cs|
  {
    if cs == [] then b else PickAll(Pick(b, cs[0]), cs[1..])
  }

  /** One full round played without a mistake: start it with colour `k`, let the
      playback finish, then repeat the whole sequence. */
  function PlayRound(b: Board, k: nat): Board
    requires k < |Colors|
  {
    var shown := EndPlayback(NewRound(b, k));
    PickAll(shown, shown.sequence)
  }

  function PlayRounds(b: Board, ks: seq<nat>): Board
    requires forall i :: 0 <= i < |ks| ==> ks[i] < |Colors|
    decreases |ks|
  {
    if ks == [] then b else PlayRounds(PlayRound(b, ks[0]), ks[1..])
  }

  /** The colours drawn by the indices `ks`. */
  function ColorsOf(ks: seq<nat>): (r: seq<Color>)
    requires forall i :: 0 <= i < |ks| ==> ks[i] < |Colors|
  {
    if ks == [] then [] else [Colors[ks[0]]] + ColorsOf(ks[1..])
  }

  // ---------------------------------------------------------------- properties

  /** `startRound` grows the sequence by exactly one colour of the palette, keeps the
      old sequence as its prefix, and empties the player's input. */
  lemma StartRoundAppends(b: Board, k: nat)
    requires k < |Colors|
    ensures var r := NewRound(b, k);
      |r.sequence| == |b.sequence| + 1 && r.sequence[..|b.sequence|] == b.sequence &&
      r.sequence[|b.sequence|] in Colors && r.player == [] && r.showing &&
      r.score == b.score
  {
  }

  /** Input during playback is ignored. */
  lemma PickWhileShowingIgnored(b: Board, c: Color)
    requires b.showing
    ensures Pick(b, c) == b
  {
  }

  /** A wrong colour clears the sequence and the input and zeroes the score. */
  lemma PickMismatchResets(b: Board, c: Color)
    requires !b.showing && Mismatch(b, c)
    ensures var r := Pick(b, c);
      r.score == 0 && r.sequence == [] && r.player == [] && r.message == WrongMessage
  {
  }

  /** A pick on an empty sequence, or once the input is as long as the sequence,
      always takes the reset path. */
  lemma PickBeyondSequenceResets(b: Board, c: Color)
    requires !b.showing && |b.player| >= |b.sequence|
    ensures Pick(b, c).sequence == [] && Pick(b, c).score == 0
  {
  }

  /** The input stays a prefix of the sequence: a pick either resets both or extends
      the input by the colour the sequence has next. */
  lemma {:induction false} PickKeepsPrefix(b: Board, c: Color)
    requires IsPrefix(b.player, b.sequence)
    ensures IsPrefix(Pick(b, c).player, Pick(b, c).sequence)
    ensures !b.showing && !Mismatch(b, c) ==>
      Pick(b, c).player == b.player + [c] && Pick(b, c).sequence == b.sequence
  {
    if !b.showing && !Mismatch(b, c) {
      var p := b.player + [c];
      assert b.sequence[..|p|] == b.sequence[..|b.player|] + [b.sequence[|b.player|]];
    }
  }

  /** The score goes up by exactly one when, and only when, the pick matches and
      completes the sequence. */
  lemma PickScores(b: Board, c: Color)
    requires !b.showing && b.score >= 0
    ensures Pick(b, c).score == b.score + 1 <==> Completes(b, c)
    ensures Completes(b, c) ==> Pick(b, c).message == CorrectMessage
    ensures !Mismatch(b, c) && !Completes(b, c) ==> Pick(b, c).score == b.score
  {
  }

  /** `resetGame` twice is `resetGame` once, and leaves nothing to repeat. */
  lemma ResetIdempotent(b: Board)
    ensures Reset(Reset(b)) == Reset(b)
    ensures Reset(b).sequence == [] && Reset(b).player == [] && Reset(b).score == 0
  {
  }

  /** Repeating the rest of the sequence without a mistake completes the round:
      the input equals the sequence and the score goes up by one. */
  lemma {:induction false} RepeatingWins(b: Board)
    requires !b.showing && IsPrefix(b.player, b.sequence) && |b.player| < |b.sequence|
    ensures var r := PickAll(b, b.sequence[|b.player|..]);
      r == b.(player := b.sequence, score := b.score + 1, message := CorrectMessage)
    decreases |b.sequence| - |b.player|
  {
    var rest := b.sequence[|b.player|..];
    var c := rest[0];
    assert c == b.sequence[|b.player|];
    var next := Pick(b, c);
    PickKeepsPrefix(b, c);
    if |b.player| + 1 == |b.sequence| {
      assert rest[1..] == [];
      assert b.player + [c] == b.sequence;
    } else {
      assert next == b.(player := b.player + [c]);
      assert rest[1..] == next.sequence[|next.player|..];
      RepeatingWins(next);
    }
  }

  /** One round played without a mistake adds the drawn colour, leaves the input
      equal to the sequence and scores one point. */
  lemma PlayRoundWins(b: Board, k: nat)
    requires k < |Colors|
    ensures var r := PlayRound(b, k);
      r.sequence == b.sequence + [Colors[k]] && r.player == r.sequence &&
      r.score == b.score + 1 && !r.showing
  {
    var shown := EndPlayback(NewRound(b, k));
    assert shown.sequence[|shown.player|..] == shown.sequence;
    RepeatingWins(shown);
  }

  /** Rounds played without a mistake append one drawn colour each and score one
      point each: after N rounds the sequence has grown by exactly N colours. */
  lemma {:induction false} RoundsAccumulate(b: Board, ks: seq<nat>)
    requires forall i :: 0 <= i < |ks| ==> ks[i] < |Colors|
    ensures PlayRounds(b, ks).sequence == b.sequence + ColorsOf(ks)
    ensures PlayRounds(b, ks).score == b.score + |ks|
    ensures ks != [] ==> PlayRounds(b, ks).player == PlayRounds(b, ks).sequence
    decreases |ks|
  {
    if ks != [] {
      var next := PlayRound(b, ks[0]);
      PlayRoundWins(b, ks[0]);
      RoundsAccumulate(next, ks[1..]);
      assert PlayRounds(b, ks) == PlayRounds(next, ks[1..]);
      var c, rest := [Colors[ks[0]]], ColorsOf(ks[1..]);
      assert ColorsOf(ks) == c + rest;
      assert next.sequence == b.sequence + c;
      assert (b.sequence + c) + rest == b.sequence + (c + rest);
    }
  }

  // ---------------------------------------------------------------- component

  /** The state of the Sequence component. */
  class SequenceGame {
    var sequence: seq<Color>
    var player: seq<Color>
    var showing: bool
    var score: int
    var message: string

    function State(): Board
      reads this
    {
      Board(sequence, player, showing, score, message)
    }

    constructor ()
      ensures State() == Board([], [], false, 0, "")
    {
      sequence, player, showing, score, message := [], [], false, 0, "";
    }

    /** `startRound`; `k` is the colour index `Math.floor(Math.random() * 4)`. */
    method StartRound(k: nat)
      requires k < |Colors|
      modifies this
      ensures State() == NewRound(old(State()), k)
    {
      message := "";
      sequence := sequence + [Colors[k]];
      player := [];
      showing := true;
    }

    /** The flash times of `playSequence`: colour `i` lights up at `i * 800` ms for
        500 ms, and input reopens at `length * 800 + 500` ms. */
    method PlaybackSchedule() returns (flashAt: seq<int>, reopenAt: int)
      ensures |flashAt| == |sequence|
      ensures forall i :: 0 <= i < |flashAt| ==> flashAt[i] == i * FlashGap
      ensures forall i :: 0 <= i < |flashAt| - 1 ==> flashAt[i] + FlashLength < flashAt[i + 1]
      ensures forall i :: 0 <= i < |flashAt| ==> flashAt[i] + FlashLength < reopenAt
      ensures reopenAt == |sequence| * FlashGap + SettleDelay
    {
      flashAt := [];
      var i := 0;
      while i < |sequence|
        invariant 0 <= i <= |sequence|
        invariant |flashAt| == i
        invariant forall j :: 0 <= j < i ==> flashAt[j] == j * FlashGap
      {
        flashAt := flashAt + [i * FlashGap];
        i := i + 1;
      }
      reopenAt := |sequence| * FlashGap + SettleDelay;
    }

    /** The last playback timer. */
    method PlaybackDone()
      modifies this
      ensures State() == EndPlayback(old(State()))
    {
      showing := false;
    }

    /** `handlePick`; `roundWon` tells the caller to schedule the next `startRound`. */
    method HandlePick(c: Color) returns (roundWon: bool)
      modifies this
      ensures State() == Pick(old(State()), c)
      ensures roundWon <==> !old(showing) && Completes(old(State()), c)
    {
      roundWon := false;
      if showing {
        return;
      }
      var nextPlayer := player + [c];
      player := nextPlayer;
      var i := |nextPlayer| - 1;
      if i >= |sequence| || nextPlayer[i] != sequence[i] {
        message := WrongMessage;
        score := 0;
        sequence := [];
        player := [];
        return;
      }
      if |nextPlayer| == |sequence| {
        score := score + 1;
        message := CorrectMessage;
        roundWon := true;
      }
    }

    /** `resetGame`. */
    method ResetGame()
      modifies this
      ensures State() == Reset(old(State()))
    {
      sequence := [];
      player := [];
      score := 0;
      message := ResetMessage;
    }
  }
}
