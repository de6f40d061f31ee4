/** The font-size setting of the UI context (contexts/UIContext.jsx): the size read
    back from storage at start-up, and the `increase` / `decrease` buttons, which
    clamp to 22 and 12 pixels. The stored entry is the input `stored`: `None` for a
    missing entry or one that does not parse as a number. */
module UiSettings {
  import opened Common

  const DefaultFontSize := 16
  const MinFontSize := 12
  const MaxFontSize := 22

  /** `Number(localStorage.getItem("conectatea_font")) || 16`: a missing, unparsable
      or zero entry falls back to 16; any other number is taken as it is. */
  function StoredFontSize(stored: Option<int>): (s: int)
    ensures stored == None || stored == Some(0) ==> s == DefaultFontSize
    ensures stored.Some? && stored.value != 0 ==> s == stored.value
  {
    match stored
    case None => DefaultFontSize
    case Some(n) => if n == 0 then DefaultFontSize else n
  }

  /** `increase`: `Math.min(s + 1, 22)`. */
  function Increased(s: int): (r: int)
    ensures r <= MaxFontSize
    ensures r <= s + 1
    ensures s < MaxFontSize ==> r == s + 1
  {
    if s + 1 < MaxFontSize then s + 1 else MaxFontSize
  }

  /** `decrease`: `Math.max(s - 1, 12)`. */
  function Decreased(s: int): (r: int)
    ensures r >= MinFontSize
    ensures r >= s - 1
    ensures s > MinFontSize ==> r == s - 1
  {
    if s - 1 > MinFontSize then s - 1 else MinFontSize
  }

  predicate InRange(s: int)
  {
    MinFontSize <= s <= MaxFontSize
  }

  /** A run of button presses: `true` for increase, `false` for decrease. */
  function ApplyAll(s: int, presses: seq<bool>): int
    decreases |presses|
  {
    if presses == [] then s
    else ApplyAll(if presses[0] then Increased(s) else Decreased(s), presses[1..])
  }

  // ---------------------------------------------------------------- properties

  /** Starting inside [12, 22], any run of presses stays inside. */
  lemma {:induction false} PressesStayInRange(s: int, presses: seq<bool>)
    requires InRange(s)
    ensures InRange(ApplyAll(s, presses))
    decreases |presses|
  {
    if presses != [] {
      PressesStayInRange(if presses[0] then Increased(s) else Decreased(s), presses[1..]);
    }
  }

  /** At the bounds the buttons do nothing; inside the range, increase then decrease
      (and decrease then increase) gives the size back. */
  lemma ClampsAtBounds(s: int)
    ensures Increased(MaxFontSize) == MaxFontSize && Decreased(MinFontSize) == MinFontSize
    ensures MinFontSize <= s < MaxFontSize ==> Decreased(Increased(s)) == s
    ensures MinFontSize < s <= MaxFontSize ==> Increased(Decreased(s)) == s
  {
  }

  /** The stored size is not clamped on reading: an entry above 22 survives until a
      button is pressed, and then `increase` makes the text smaller. */
  lemma IncreaseShrinksOversizedEntry(n: int)
    requires n > MaxFontSize
    ensures StoredFontSize(Some(n)) == n
    ensures Increased(StoredFontSize(Some(n))) < StoredFontSize(Some(n))
  {
  }

  /** Every size the buttons produce from the range is written back as a non-zero
      number and read back unchanged at the next start-up. */
  lemma PersistRoundTrip(s: int)
    requires InRange(s)
    ensures StoredFontSize(Some(s)) == s
    ensures StoredFontSize(Some(Increased(s))) == Increased(s)
    ensures StoredFontSize(Some(Decreased(s))) == Decreased(s)
  {
  }

  /** The font-size state together with its storage entry, which the effect rewrites
      after every change. */
  class FontScale {
    var fontSize: int
    var stored: Option<int>

    /** Start-up: read the entry, then the effect writes the size back. */
    constructor (entry: Option<int>)
      ensures fontSize == StoredFontSize(entry) && stored == Some(fontSize)
    {
      fontSize := StoredFontSize(entry);
      stored := Some(StoredFontSize(entry));
    }

    method Increase()
      modifies this
      ensures fontSize == Increased(old(fontSize)) && stored == Some(fontSize)
    {
      fontSize := if fontSize + 1 < MaxFontSize then fontSize + 1 else MaxFontSize;
      stored := Some(fontSize);
    }

    method Decrease()
      modifies this
      ensures fontSize == Decreased(old(fontSize)) && stored == Some(fontSize)
    {
      fontSize := if fontSize - 1 > MinFontSize then fontSize - 1 else MinFontSize;
      stored := Some(fontSize);
    }
  }
}
