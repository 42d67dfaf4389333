/**
 * The older header HidProxWeigand.h, which is the one HidProxWeigand.cpp
 * includes. It knows only the 35- and 26-bit formats, has no
 * `cardUnsupported` field and calls the countdown `weigandCounter`; its pulse
 * handlers do what the newer header's do.
 */
module LegacyHeader {
  import opened Options
  import opened WiegandConfig
  import opened CardFormat
  import opened ReaderSpec

  /** The constants of the older header. */
  const LegacyMaxReadBits: nat := 100
  const LegacyWaitTime: nat := 3000
  const LegacyCorporate1000: nat := 35
  const LegacyWiegand26: nat := 26

  /** The frame lengths the older header names. */
  predicate IsLegacyLength(bitCount: nat) {
    bitCount == LegacyCorporate1000 || bitCount == LegacyWiegand26
  }

  /**
   * The older header's formats are exactly the newer header's minus the
   * 32-bit one; buffer size and wait are the same.
   */
  lemma LegacyFormats(bitCount: nat)
    ensures LegacyMaxReadBits == MaxReadBits && LegacyWaitTime == WiegandWaitTime
    ensures IsLegacyLength(bitCount) <==> IsSupportedLength(bitCount) && bitCount != CardFormatWiegand32
  {
  }

  /** `SUPPORTED_READERS` as the older header's platform table gives it. */
  function LegacySupportedReaders(board: Board): (cap: nat)
    ensures cap == SupportedReaders(board)
  {
    match board
    case ATmega1280 => 3
    case ATmega2560 => 3
    case ATmega168 => 1
    case ATmega168P => 1
    case ATmega328P => 1
    case ATmega32U4 => 2
    case OtherBoard => 0
  }

  /** `ProxReaderInfo` of the older header. */
  class LegacyReader {
    var pinData0: int
    var pinData1: int
    var flagDone: bool
    var facilityCode: nat
    var cardCode: nat
    var bitCount: nat
    var weigandCounter: nat
    const databits: array<int>
    var onCardRead: Option<CallbackId>

    /** The fields as a newer-header reader state, with no frame flagged unsupported. */
    ghost function AsReaderState(): ReaderState
      reads this, databits
    {
      ReaderState(pinData0, pinData1, flagDone, false, facilityCode, cardCode,
                   bitCount, weigandCounter, databits[..], onCardRead)
    }

    ghost predicate Valid()
      reads this, databits
    {
      databits.Length == LegacyMaxReadBits && Inv(AsReaderState())
    }

    /**
     * The default constructor: NULL handler, flag false, codes and counters
     * 0; the pins and the buffer are left unassigned.
     */
    constructor ()
      ensures onCardRead == None && !flagDone
      ensures facilityCode == 0 && cardCode == 0 && bitCount == 0 && weigandCounter == 0
      ensures fresh(databits) && databits.Length == LegacyMaxReadBits
    {
      onCardRead := None;
      flagDone := false;
      facilityCode := 0;
      cardCode := 0;
      bitCount := 0;
      weigandCounter := 0;
      databits := new int[LegacyMaxReadBits];
    }

    /** `ISR_Data0`: count a 0 bit, restart the wait. */
    method IsrData0()
      requires Valid() && bitCount < MaxBitCount
      modifies this`bitCount, this`flagDone, this`weigandCounter
      ensures Valid() && AsReaderState() == OnData0(old(AsReaderState()))
      ensures bitCount == old(bitCount) + 1 && databits[..] == old(databits[..])
      ensures !flagDone && weigandCounter == LegacyWaitTime
    {
      bitCount := bitCount + 1;
      flagDone := false;
      weigandCounter := LegacyWaitTime;
    }

    /** `ISR_Data1`: write a 1 at the current count, count it, restart the wait. */
    method IsrData1()
      requires Valid() && bitCount < LegacyMaxReadBits
      modifies this`bitCount, this`flagDone, this`weigandCounter, databits
      ensures Valid() && AsReaderState() == OnData1(old(AsReaderState()))
      ensures bitCount == old(bitCount) + 1 && databits[old(bitCount)] == 1
      ensures forall i :: 0 <= i < databits.Length && i != old(bitCount) ==> databits[i] == old(databits[i])
      ensures !flagDone && weigandCounter == LegacyWaitTime
    {
      databits[bitCount] := 1;
      bitCount := bitCount + 1;
      flagDone := false;
      weigandCounter := LegacyWaitTime;
    }
  }
}
