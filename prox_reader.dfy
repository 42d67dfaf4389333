/**
 * `ProxReaderInfo`: the per-reader record that the pulse handlers and the
 * polling loop update in place. Each method is proved to follow the value
 * model in ReaderSpec.
 */
module ProxReader {
  import opened Options
  import opened WiegandConfig
  import opened BitField
  import opened CardFormat
  import opened ReaderSpec

  class Reader {
    var pinData0: int
    var pinData1: int
    var flagDone: bool
    var cardUnsupported: bool
    var facilityCode: nat
    var cardCode: nat
    var bitCount: nat
    /** `wiegandCounter`: passes left before the frame is taken as complete. */
    var counter: nat
    /** The fixed `MAX_READ_BITS`-cell buffer; bit k of the frame is cell k. */
    const databits: array<int>
    var onCardRead: Option<CallbackId>

    /** The reader's fields as a value. */
    ghost function Snapshot(): ReaderState
      reads this, databits
    {
      ReaderState(pinData0, pinData1, flagDone, cardUnsupported, facilityCode, cardCode,
                   bitCount, counter, databits[..], onCardRead)
    }

    ghost predicate Valid()
      reads this, databits
    {
      databits.Length == MaxReadBits && Inv(Snapshot())
    }

    /**
     * The default constructor: NULL handler, both flags false, codes and
     * counters 0. The pins and the bit buffer are not assigned, so their
     * contents are unknown.
     */
    constructor ()
      ensures onCardRead == None && !flagDone && !cardUnsupported
      ensures facilityCode == 0 && cardCode == 0 && bitCount == 0 && counter == 0
      ensures fresh(databits) && databits.Length == MaxReadBits
    {
      onCardRead := None;
      flagDone := false;
      cardUnsupported := false;
      facilityCode := 0;
      cardCode := 0;
      bitCount := 0;
      counter := 0;
      databits := new int[MaxReadBits];
    }

    /**
     * A reader slot taken from `malloc`/`realloc`, which runs no constructor.
     * The model ASSUMES this memory is zero-filled: every field is 0, false or
     * NULL and every buffer cell is 0.
     */
    constructor FromZeroedMemory()
      ensures Snapshot() == ReaderState(0, 0, false, false, 0, 0, 0, 0, Zeros(MaxReadBits), None)
      ensures fresh(databits)
    {
      pinData0, pinData1 := 0, 0;
      flagDone, cardUnsupported := false, false;
      facilityCode, cardCode := 0, 0;
      bitCount, counter := 0, 0;
      databits := new int[MaxReadBits](_ => 0);
      onCardRead := None;
      new;
      assert databits[..] == Zeros(MaxReadBits);
    }

    /**
     * The field assignments of `addReader` on a zeroed slot: the pins, the
     * handler, and the countdown started at the full wait.
     */
    method Attach(pinData0: int, pinData1: int, onCardRead: Option<CallbackId>)
      requires Snapshot() == ReaderState(0, 0, false, false, 0, 0, 0, 0, Zeros(MaxReadBits), None)
      modifies this
      ensures Valid() && Snapshot() == Registered(pinData0, pinData1, onCardRead)
    {
      this.pinData0 := pinData0;
      this.pinData1 := pinData1;
      counter := WiegandWaitTime;
      this.onCardRead := onCardRead;
    }

    /** `ISR_Data0`: a 0 bit is counted; the buffer is not written. */
    method IsrData0()
      requires Valid() && bitCount < MaxBitCount
      modifies this`bitCount, this`flagDone, this`counter
      ensures Valid() && Snapshot() == OnData0(old(Snapshot()))
      ensures bitCount == old(bitCount) + 1 && databits[..] == old(databits[..])
      ensures !flagDone && counter == WiegandWaitTime
    {
      bitCount := bitCount + 1;
      flagDone := false;
      counter := WiegandWaitTime;
    }

    /**
     * `ISR_Data1`: a 1 is written at the current count, which is then
     * increased. The source does not check the buffer bound, so the model
     * requires room for the bit.
     */
    method IsrData1()
      requires Valid() && bitCount < MaxReadBits
      modifies this`bitCount, this`flagDone, this`counter, databits
      ensures Valid() && Snapshot() == OnData1(old(Snapshot()))
      ensures bitCount == old(bitCount) + 1 && databits[old(bitCount)] == 1
      ensures forall i :: 0 <= i < databits.Length && i != old(bitCount) ==> databits[i] == old(databits[i])
      ensures !flagDone && counter == WiegandWaitTime
    {
      databits[bitCount] := 1;
      bitCount := bitCount + 1;
      flagDone := false;
      counter := WiegandWaitTime;
    }

    /** The countdown at the head of each pass of `loop`. */
    method Countdown()
      requires flagDone || counter >= 1
      modifies this`counter, this`flagDone
      ensures Snapshot() == Tick(old(Snapshot()))
    {
      if !flagDone {
        counter := counter - 1;
        if counter == 0 {
          flagDone := true;
        }
      }
    }

    /**
     * The shift-or loop of the decoder over the bit range [lo, hi): each bit
     * in turn is shifted into `acc`. The result is `acc` shifted past the
     * range plus the range's big-endian value.
     */
    method Accumulate(acc: nat, lo: nat, hi: nat) returns (r: nat)
      requires lo <= hi <= databits.Length && IsBits(databits[lo..hi])
      ensures r == acc * Pow2(hi - lo) + BitsValue(databits[lo..hi])
      ensures acc == 0 ==> r == BitsValue(databits[lo..hi])
    {
      r := acc;
      var i := lo;
      while i < hi
        invariant lo <= i <= hi
        invariant IsBits(databits[lo..i])
        invariant r == acc * Pow2(i - lo) + BitsValue(databits[lo..i])
      {
        assert databits[i] == databits[lo..hi][i - lo];
        assert databits[lo..i + 1] == databits[lo..i] + [databits[i]];
        ShiftInAccumulated(acc, databits[lo..i], databits[i]);
        r := ShiftIn(r, databits[i]);
        i := i + 1;
      }
      assert databits[lo..hi] == databits[lo..i];
    }

    /**
     * The format chosen by exact bit count: the facility and card bit ranges,
     * or `unsupported` for an unrecognised count (the ranges then stay 0).
     */
    method SelectFormat() returns (facStartBit: nat, facStopBit: nat, cardStartBit: nat, cardStopBit: nat,
                                   unsupported: bool)
      ensures unsupported <==> !IsSupportedLength(bitCount)
      ensures !unsupported ==> LayoutFor(bitCount) == Some(Layout(facStartBit, facStopBit, cardStartBit, cardStopBit))
      ensures unsupported ==> facStartBit == facStopBit == cardStartBit == cardStopBit == 0
    {
      facStartBit, facStopBit, cardStartBit, cardStopBit := 0, 0, 0, 0;
      unsupported := false;
      if bitCount == CardFormatCorporate1000 {
        facStartBit, facStopBit := 2, 14;
        cardStartBit, cardStopBit := 14, 34;
      } else if bitCount == CardFormatWiegand26 {
        facStartBit, facStopBit := 1, 9;
        cardStartBit, cardStopBit := 9, 25;
      } else if bitCount == CardFormatWiegand32 {
        facStartBit, facStopBit := 4, 16;
        cardStartBit, cardStopBit := 16, 32;
      } else {
        unsupported := true;
      }
    }

    /**
     * Format selection and field extraction: each code is shifted in from
     * its current value, 0 between frames; an unrecognised count only sets
     * `cardUnsupported`.
     */
    method Decode()
      requires databits.Length == MaxReadBits && IsBits(databits[..])
      requires facilityCode == 0 && cardCode == 0
      modifies this`facilityCode, this`cardCode, this`cardUnsupported
      ensures Decoded(facilityCode, cardCode, cardUnsupported) == DecodeFrame(databits[..], bitCount)
    {
      var facStartBit, facStopBit, cardStartBit, cardStopBit, unsupported := SelectFormat();
      ghost var bits := databits[..];
      if !unsupported {
        DecodeFrameFields(bits, bitCount);
        assert databits[facStartBit..facStopBit] == bits[facStartBit..facStopBit];
        assert databits[cardStartBit..cardStopBit] == bits[cardStartBit..cardStopBit];
        IsBitsSlice(bits, facStartBit, facStopBit);
        IsBitsSlice(bits, cardStartBit, cardStopBit);
        facilityCode := Accumulate(facilityCode, facStartBit, facStopBit);
        cardCode := Accumulate(cardCode, cardStartBit, cardStopBit);
      }
      cardUnsupported := unsupported;
      assert databits[..] == bits;
    }

    /** Clean-up after a frame: count and codes back to 0, every buffer cell 0. */
    method Reset()
      requires databits.Length == MaxReadBits
      modifies this`bitCount, this`facilityCode, this`cardCode, databits
      ensures bitCount == 0 && facilityCode == 0 && cardCode == 0
      ensures databits[..] == Zeros(MaxReadBits)
    {
      bitCount := 0;
      facilityCode := 0;
      cardCode := 0;
      var i := 0;
      while i < MaxReadBits
        invariant 0 <= i <= MaxReadBits
        invariant bitCount == 0 && facilityCode == 0 && cardCode == 0
        invariant forall j :: 0 <= j < i ==> databits[j] == 0
      {
        databits[i] := 0;
        i := i + 1;
      }
      assert databits[..] == Zeros(MaxReadBits);
    }

    /**
     * The frame handling of `loop` after the countdown: with bits pending and
     * the wait over, decode, call the handler if there is one, and reset.
     */
    method ProcessFrame(index: nat) returns (fired: Option<CardRead>)
      requires Valid()
      modifies this, databits
      ensures Valid()
      ensures Snapshot() == Process(old(Snapshot()), index).state
      ensures fired == Process(old(Snapshot()), index).fired
    {
      fired := None;
      if bitCount > 0 && flagDone {
        Decode();
        if onCardRead.Some? {
          fired := Some(CardRead(index, onCardRead.value, bitCount, facilityCode, cardCode, cardUnsupported));
        }
        Reset();
      }
    }

    /**
     * The body of `loop` for the reader at position `index`. Returns the
     * handler call it makes, if any, with the values the handler sees before
     * the reset.
     */
    method Poll(index: nat) returns (fired: Option<CardRead>)
      requires Valid()
      modifies this, databits
      ensures Valid()
      ensures Snapshot() == Step(old(Snapshot()), index).state
      ensures fired == Step(old(Snapshot()), index).fired
    {
      Countdown();
      fired := ProcessFrame(index);
    }
  }
}
