/**
 * The card-format table of the frame decoder: which frame lengths are
 * recognised, where the facility and card fields sit in each, and the value
 * decoding gives.
 */
module CardFormat {
  import opened Options
  import opened WiegandConfig
  import opened BitField

  /** The frame lengths the decoder recognises: 35-bit Corporate 1000, 26-bit and 32-bit Wiegand. */
  predicate IsSupportedLength(bitCount: nat) {
    bitCount == CardFormatCorporate1000 || bitCount == CardFormatWiegand26 || bitCount == CardFormatWiegand32
  }

  /** The recognised lengths are exactly 35, 26 and 32, and each frame fits the buffer. */
  lemma SupportedLengths(bitCount: nat)
    ensures IsSupportedLength(bitCount) <==> bitCount in {35, 26, 32}
    ensures IsSupportedLength(bitCount) ==> 0 < bitCount <= MaxReadBits
  {
  }

  /**
   * The facility field is the half-open bit range [facStart, facStop) and the
   * card field [cardStart, cardStop); bit 0 is the first bit received.
   */
  datatype Layout = Layout(facStart: nat, facStop: nat, cardStart: nat, cardStop: nat)

  /** Both fields lie inside a frame of `bitCount` bits, the facility field first, without overlap. */
  predicate Fits(l: Layout, bitCount: nat) {
    l.facStart <= l.facStop <= l.cardStart <= l.cardStop <= bitCount
  }

  /** The format selected by exact frame length, or None for an unrecognised length. */
  function LayoutFor(bitCount: nat): (r: Option<Layout>)
    ensures r.Some? <==> IsSupportedLength(bitCount)
    ensures r.Some? ==> Fits(r.value, bitCount)
    ensures r.Some? ==> r.value.facStop - r.value.facStart <= 12 && r.value.cardStop - r.value.cardStart <= 20
  {
    if bitCount == CardFormatCorporate1000 then Some(Layout(2, 14, 14, 34))
    else if bitCount == CardFormatWiegand26 then Some(Layout(1, 9, 9, 25))
    else if bitCount == CardFormatWiegand32 then Some(Layout(4, 16, 16, 32))
    else None
  }

  /** What the decoder leaves in `facilityCode`, `cardCode` and `cardUnsupported`. */
  datatype Decoded = Decoded(facilityCode: nat, cardCode: nat, unsupported: bool)

  /**
   * Decoding of a frame of `bitCount` bits held in a reader's bit buffer: each
   * field is the big-endian value of its range, or the frame is unsupported
   * and both codes stay 0.
   */
  function DecodeFrame(bits: seq<int>, bitCount: nat): (d: Decoded)
    requires |bits| == MaxReadBits && IsBits(bits)
    ensures d.unsupported <==> !IsSupportedLength(bitCount)
    ensures d.unsupported ==> d.facilityCode == 0 && d.cardCode == 0
    ensures !d.unsupported ==>
              var l := LayoutFor(bitCount).value;
              d.facilityCode < Pow2(l.facStop - l.facStart) && d.cardCode < Pow2(l.cardStop - l.cardStart)
  {
    match LayoutFor(bitCount)
    case None => Decoded(0, 0, true)
    case Some(l) =>
      Decoded(BitsValue(bits[l.facStart..l.facStop]), BitsValue(bits[l.cardStart..l.cardStop]), false)
  }

  /** A recognised frame decodes to the big-endian values of its two field ranges. */
  lemma DecodeFrameFields(bits: seq<int>, bitCount: nat)
    requires |bits| == MaxReadBits && IsBits(bits) && IsSupportedLength(bitCount)
    ensures var l := LayoutFor(bitCount).value;
            DecodeFrame(bits, bitCount)
            == Decoded(BitsValue(bits[l.facStart..l.facStop]), BitsValue(bits[l.cardStart..l.cardStop]), false)
  {
  }

  /** A frame of at most `MaxReadBits` bits as it sits in a buffer whose other cells are 0. */
  function Pad(frame: seq<int>): (bits: seq<int>)
    requires |frame| <= MaxReadBits && IsBits(frame)
    ensures |bits| == MaxReadBits && IsBits(bits) && bits[..|frame|] == frame
  {
    frame + Zeros(MaxReadBits - |frame|)
  }

  /**
   * A synthetic frame of a recognised length carrying the given facility and
   * card codes, every other bit 0 (parity is neither checked nor produced).
   */
  function EncodeFrame(bitCount: nat, facility: nat, card: nat): (frame: seq<int>)
    requires IsSupportedLength(bitCount)
    ensures |frame| == bitCount && IsBits(frame)
  {
    var l := LayoutFor(bitCount).value;
    Zeros(l.facStart) + ToBits(facility, l.facStop - l.facStart)
      + Zeros(l.cardStart - l.facStop) + ToBits(card, l.cardStop - l.cardStart)
      + Zeros(bitCount - l.cardStop)
  }

  /**
   * Every code fits in the source's 32-bit `unsigned long`, and each format's
   * codes stay below 2 to the power of its field width.
   */
  lemma DecodedCodesFit(bits: seq<int>, bitCount: nat)
    requires |bits| == MaxReadBits && IsBits(bits)
    ensures var d := DecodeFrame(bits, bitCount);
            && d.facilityCode < Pow2(32) && d.cardCode < Pow2(32)
            && (bitCount == CardFormatCorporate1000 ==> d.facilityCode <= 4095 && d.cardCode <= 1048575)
            && (bitCount == CardFormatWiegand26 ==> d.facilityCode <= 255 && d.cardCode <= 65535)
            && (bitCount == CardFormatWiegand32 ==> d.facilityCode <= 4095 && d.cardCode <= 65535)
  {
    var d := DecodeFrame(bits, bitCount);
    assert Pow2(8) == 256 && Pow2(12) == 4096 && Pow2(16) == 65536 && Pow2(20) == 1048576;
    assert Pow2(32) == 4294967296;
    if IsSupportedLength(bitCount) {
      var l := LayoutFor(bitCount).value;
      Pow2Monotone(l.facStop - l.facStart, 32);
      Pow2Monotone(l.cardStop - l.cardStart, 32);
    }
  }

  lemma {:induction false} Pow2Monotone(m: nat, n: nat)
    requires m <= n
    ensures Pow2(m) <= Pow2(n)
  {
    if m < n {
      Pow2Monotone(m, n - 1);
    }
  }

  /**
   * Only the two field ranges are read: buffers that agree on them decode
   * alike, whatever the other bits hold.
   */
  lemma DecodeReadsOnlyFields(a: seq<int>, b: seq<int>, bitCount: nat)
    requires |a| == MaxReadBits && IsBits(a) && |b| == MaxReadBits && IsBits(b)
    requires IsSupportedLength(bitCount)
    requires var l := LayoutFor(bitCount).value;
             && (forall i :: l.facStart <= i < l.facStop ==> a[i] == b[i])
             && (forall i :: l.cardStart <= i < l.cardStop ==> a[i] == b[i])
    ensures DecodeFrame(a, bitCount) == DecodeFrame(b, bitCount)
  {
    var l := LayoutFor(bitCount).value;
    assert a[l.facStart..l.facStop] == b[l.facStart..l.facStop];
    assert a[l.cardStart..l.cardStop] == b[l.cardStart..l.cardStop];
  }

  /**
   * In a 26-bit frame the first and last bit, where 26-bit Wiegand puts its
   * parity bits, do not affect the decoded codes: parity is not checked.
   */
  lemma Wiegand26IgnoresParityBits(a: seq<int>, b: seq<int>)
    requires |a| == MaxReadBits && IsBits(a) && |b| == MaxReadBits && IsBits(b)
    requires forall i :: 1 <= i < 25 ==> a[i] == b[i]
    ensures DecodeFrame(a, CardFormatWiegand26) == DecodeFrame(b, CardFormatWiegand26)
  {
    DecodeReadsOnlyFields(a, b, CardFormatWiegand26);
  }

  /** The middle part of a concatenation is recovered by slicing at its offsets. */
  lemma SliceMiddle(a: seq<int>, b: seq<int>, c: seq<int>)
    ensures (a + b + c)[|a|..|a| + |b|] == b
  {
    assert forall i :: 0 <= i < |b| ==> (a + b + c)[|a| + i] == b[i];
  }

  /** A slice inside the first part of a concatenation is a slice of that part. */
  lemma SliceFront(a: seq<int>, b: seq<int>, lo: nat, hi: nat)
    requires lo <= hi <= |a|
    ensures (a + b)[lo..hi] == a[lo..hi]
  {
    assert forall i :: lo <= i < hi ==> (a + b)[i] == a[i];
  }

  /** A synthetic frame carries its facility and card codes in the format's two ranges. */
  lemma EncodedFields(bitCount: nat, facility: nat, card: nat)
    requires IsSupportedLength(bitCount)
    ensures var l := LayoutFor(bitCount).value;
            var frame := EncodeFrame(bitCount, facility, card);
            && frame[l.facStart..l.facStop] == ToBits(facility, l.facStop - l.facStart)
            && frame[l.cardStart..l.cardStop] == ToBits(card, l.cardStop - l.cardStart)
  {
    var l := LayoutFor(bitCount).value;
    var fac := ToBits(facility, l.facStop - l.facStart);
    var crd := ToBits(card, l.cardStop - l.cardStart);
    var head := Zeros(l.facStart) + fac + Zeros(l.cardStart - l.facStop);
    var frame := EncodeFrame(bitCount, facility, card);
    assert frame == head + crd + Zeros(bitCount - l.cardStop);
    SliceMiddle(head, crd, Zeros(bitCount - l.cardStop));
    SliceMiddle(Zeros(l.facStart), fac, Zeros(l.cardStart - l.facStop));
    assert frame[l.facStart..l.facStop] == head[l.facStart..l.facStop];
  }

  /** Decoding a synthetic frame gives back the codes it was built from. */
  lemma DecodeEncode(bitCount: nat, facility: nat, card: nat)
    requires IsSupportedLength(bitCount)
    requires var l := LayoutFor(bitCount).value;
             facility < Pow2(l.facStop - l.facStart) && card < Pow2(l.cardStop - l.cardStart)
    ensures DecodeFrame(Pad(EncodeFrame(bitCount, facility, card)), bitCount) == Decoded(facility, card, false)
  {
    var l := LayoutFor(bitCount).value;
    var frame := EncodeFrame(bitCount, facility, card);
    var bits := Pad(frame);
    EncodedFields(bitCount, facility, card);
    SliceFront(frame, Zeros(MaxReadBits - |frame|), l.facStart, l.facStop);
    SliceFront(frame, Zeros(MaxReadBits - |frame|), l.cardStart, l.cardStop);
    ToBitsRoundTrip(facility, l.facStop - l.facStart);
    ToBitsRoundTrip(card, l.cardStop - l.cardStart);
    DecodeFrameFields(bits, bitCount);
  }

  /**
   * The converse: re-encoding the codes decoded from a buffer reproduces the
   * buffer's field bits.
   */
  lemma EncodeDecode(bits: seq<int>, bitCount: nat)
    requires |bits| == MaxReadBits && IsBits(bits) && IsSupportedLength(bitCount)
    ensures var d := DecodeFrame(bits, bitCount);
            var l := LayoutFor(bitCount).value;
            var frame := EncodeFrame(bitCount, d.facilityCode, d.cardCode);
            && frame[l.facStart..l.facStop] == bits[l.facStart..l.facStop]
            && frame[l.cardStart..l.cardStop] == bits[l.cardStart..l.cardStop]
  {
    var d := DecodeFrame(bits, bitCount);
    var l := LayoutFor(bitCount).value;
    DecodeFrameFields(bits, bitCount);
    EncodedFields(bitCount, d.facilityCode, d.cardCode);
    IsBitsSlice(bits, l.facStart, l.facStop);
    IsBitsSlice(bits, l.cardStart, l.cardStop);
    BitsValueRoundTrip(bits[l.facStart..l.facStop]);
    BitsValueRoundTrip(bits[l.cardStart..l.cardStop]);
  }
}
