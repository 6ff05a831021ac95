/** The font-size switcher: each click on the switcher button moves the
    root element's inline font size one step along 16px, 18px, 20px and back
    to 16px, and records the new size in browser storage under `font-size`. */
module FontSize {
  import opened Wrappers
  import opened Decimal

  /** The sizes in pixels, in the order the clicks visit them. */
  const Cycle: seq<int> := [16, 18, 20]

  /** The size after one click, given the current size as the handler parses
      it from the inline style (`None` when the style is empty or does not
      start with a number). Sizes on the cycle advance to the next one, the
      last wrapping to the first; anything else starts over at the first. */
  function NextFontSize(cur: Option<int>): (r: int)
    ensures r in Cycle
    ensures forall i :: 0 <= i < |Cycle| && cur == Some(Cycle[i]) ==> r == Cycle[(i + 1) % |Cycle|]
    ensures (cur.None? || cur.value !in Cycle) ==> r == Cycle[0]
  {
    // The script first sets `currentFontSize || 16`, which the switch
    // below always overwrites.
    if cur == Some(16) then 18
    else if cur == Some(18) then 20
    else if cur == Some(20) then 16
    else 16
  }

  /** Clicking from a size on the cycle comes back to it after exactly three
      clicks, and not after one or two. */
  lemma PeriodThree(size: int)
    requires size in Cycle
    ensures NextFontSize(Some(NextFontSize(Some(NextFontSize(Some(size)))))) == size
    ensures NextFontSize(Some(size)) != size
    ensures NextFontSize(Some(NextFontSize(Some(size)))) != size
  {
  }

  /** The inline style the handler writes for a size, `${size}px`. */
  function StyleText(size: nat): string {
    NatToString(size) + "px"
  }

  /** Every size on the cycle has two digits, so the handler's next reading,
      the number in the first two characters of the style, is the size it
      wrote. This is what lets `Switcher.fontSize` stand for the style. */
  lemma StyleReadsBack(size: nat)
    requires size in Cycle
    ensures IsDecimal(StyleText(size)[..2]) && DecimalValue(StyleText(size)[..2]) == size
  {
    var digits := NatToString(size);
    assert digits == NatToString(size / 10) + [DigitChar(size % 10)];
    assert |digits| == 2;
    assert StyleText(size)[..2] == digits;
    DecimalRoundTrip(size);
  }

  /** The switcher's state: what the handler reads and writes. */
  class Switcher {
    /** Whether `localStorage` can be written; the handler does not check. */
    const storageAvailable: bool
    /** The root element's inline font size, as the handler parses it. */
    var fontSize: Option<int>
    /** The value stored under `font-size`. */
    var storedFontSize: Option<string>

    /** After a successful click: the size is on the cycle, and the stored
        string is its decimal form. */
    predicate Synced()
      reads this
    {
      fontSize.Some? && fontSize.value in Cycle &&
      storedFontSize == Some(NatToString(fontSize.value))
    }

    constructor (storageAvailable: bool, fontSize: Option<int>, storedFontSize: Option<string>)
      ensures this.storageAvailable == storageAvailable
      ensures this.fontSize == fontSize && this.storedFontSize == storedFontSize
    {
      this.storageAvailable := storageAvailable;
      this.fontSize := fontSize;
      this.storedFontSize := storedFontSize;
    }

    /** One click. Storage is written before the style, so when storage is
        unavailable the handler fails at the write and nothing changes;
        `storageError` reports that failure. Otherwise the new size is stored
        and applied together, and reading the stored string back gives the
        applied size. */
    method Click() returns (storageError: bool)
      modifies this
      ensures storageError == !storageAvailable
      ensures storageError ==> fontSize == old(fontSize) && storedFontSize == old(storedFontSize)
      ensures !storageError ==> fontSize == Some(NextFontSize(old(fontSize))) && Synced()
      ensures !storageError ==> DecimalValue(storedFontSize.value) == fontSize.value
    {
      var newFontSize := NextFontSize(fontSize);
      if !storageAvailable {
        return true;
      }
      storedFontSize := Some(NatToString(newFontSize));
      fontSize := Some(newFontSize);
      DecimalRoundTrip(newFontSize);
      return false;
    }
  }
}
