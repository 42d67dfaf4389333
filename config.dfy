/**
 * Compile-time configuration of the reader library, as the newer header
 * src/HidProxWiegand.h defines it.
 */
module WiegandConfig {

  /** Size of each reader's bit buffer (`MAX_READ_BITS`). */
  const MaxReadBits: nat := 100

  /** Polling passes without a pulse after which a frame is complete (`WIEGAND_WAIT_TIME`). */
  const WiegandWaitTime: nat := 3000

  /** Frame lengths of the three recognised card formats (`CARD_FORMAT_*`). */
  const CardFormatCorporate1000: nat := 35
  const CardFormatWiegand26: nat := 26
  const CardFormatWiegand32: nat := 32

  /** Largest value the 8-bit unsigned `bitCount` field can hold. */
  const MaxBitCount: nat := 255

  /**
   * The header's sizes against the field types that hold them: a full buffer's
   * bit count fits the 8-bit `bitCount`, and the wait fits the 16-bit counter.
   */
  lemma HeaderConstants()
    ensures MaxReadBits == 100 && WiegandWaitTime == 3000
    ensures CardFormatCorporate1000 == 35 && CardFormatWiegand26 == 26 && CardFormatWiegand32 == 32
    ensures MaxBitCount + 1 == 256 && MaxReadBits <= MaxBitCount
    ensures WiegandWaitTime < 65536
  {
  }

  /** Identity of a card-read handler (a function pointer in the source). */
  type CallbackId = nat

  /** The board families the header distinguishes when it picks `SUPPORTED_READERS`. */
  datatype Board =
    | ATmega1280 | ATmega2560
    | ATmega168 | ATmega168P | ATmega328P
    | ATmega32U4
    | OtherBoard

  /** External interrupt lines of an AVR board family, as the header's comments state them. */
  function InterruptLines(board: Board): nat
    requires !board.OtherBoard?
  {
    match board
    case ATmega1280 => 6
    case ATmega2560 => 6
    case ATmega168 => 2
    case ATmega168P => 2
    case ATmega328P => 2
    case ATmega32U4 => 5
  }

  /**
   * `SUPPORTED_READERS`: how many readers a board can take. A reader needs two
   * interrupt lines; 0 means "no limit", for boards where any pin can interrupt.
   */
  function SupportedReaders(board: Board): (cap: nat)
    ensures cap == 0 <==> board.OtherBoard?
    ensures !board.OtherBoard? ==> cap == InterruptLines(board) / 2
    ensures cap <= 3
  {
    match board
    case ATmega1280 => 3
    case ATmega2560 => 3
    case ATmega168 => 1
    case ATmega168P => 1
    case ATmega328P => 1
    case ATmega32U4 => 2
    case OtherBoard => 0
  }
}
