/**
 * Bit sequences and their big-endian values: the specification the decoder's
 * shift-or loops are proved against.
 */
module BitField {

  /** Every cell holds 0 or 1. */
  predicate IsBits(s: seq<int>) {
    forall i :: 0 <= i < |s| ==> s[i] == 0 || s[i] == 1
  }

  /** A slice of a bit sequence is a bit sequence. */
  lemma IsBitsSlice(s: seq<int>, lo: nat, hi: nat)
    requires IsBits(s) && lo <= hi <= |s|
    ensures IsBits(s[lo..hi])
  {
  }

  /** `n` zero cells. */
  function Zeros(n: nat): (s: seq<int>)
    ensures |s| == n && IsBits(s)
    ensures forall i :: 0 <= i < n ==> s[i] == 0
  {
    seq(n, _ => 0)
  }

  function Pow2(n: nat): (p: nat)
    ensures p >= 1
  {
    if n == 0 then 1 else 2 * Pow2(n - 1)
  }

  /**
   * `acc << 1 | bit` for one bit: the shift leaves bit 0 clear, so the OR of a
   * 0 or a 1 is an addition.
   */
  function ShiftIn(acc: nat, bit: int): nat
    requires bit == 0 || bit == 1
  {
    2 * acc + bit
  }

  /** Big-endian value of a bit sequence: the first bit is the most significant. */
  function BitsValue(s: seq<int>): (v: nat)
    requires IsBits(s)
    ensures v < Pow2(|s|)
  {
    if s == [] then 0 else ShiftIn(BitsValue(s[..|s| - 1]), s[|s| - 1])
  }

  /** The `width` low bits of `v`, most significant first. */
  function ToBits(v: nat, width: nat): (s: seq<int>)
    ensures |s| == width && IsBits(s)
  {
    if width == 0 then [] else ToBits(v / 2, width - 1) + [v % 2]
  }

  /** Shifting one more bit into a big-endian value appends it. */
  lemma {:induction false} BitsValueSnoc(s: seq<int>, bit: int)
    requires IsBits(s) && (bit == 0 || bit == 1)
    ensures IsBits(s + [bit])
    ensures BitsValue(s + [bit]) == ShiftIn(BitsValue(s), bit)
  {
    assert (s + [bit])[..|s|] == s;
  }

  /**
   * One step of a shift-or accumulation that started from `acc`: after the
   * bits `s` and then `bit`, the accumulator is `acc` shifted past all of
   * them plus their value.
   */
  lemma {:induction false} ShiftInAccumulated(acc: nat, s: seq<int>, bit: int)
    requires IsBits(s) && (bit == 0 || bit == 1)
    ensures IsBits(s + [bit])
    ensures ShiftIn(acc * Pow2(|s|) + BitsValue(s), bit)
            == acc * Pow2(|s| + 1) + BitsValue(s + [bit])
  {
    BitsValueSnoc(s, bit);
    var p := Pow2(|s|);
    assert Pow2(|s| + 1) == 2 * p;
    MulDouble(acc, p);
  }

  lemma MulDouble(a: nat, p: nat)
    ensures a * (2 * p) == 2 * (a * p)
  {
  }

  /** Writing a value that fits in `width` bits and reading it back gives the value. */
  lemma {:induction false} ToBitsRoundTrip(v: nat, width: nat)
    requires v < Pow2(width)
    ensures BitsValue(ToBits(v, width)) == v
  {
    if width > 0 {
      Halve(v, Pow2(width - 1));
      ToBitsRoundTrip(v / 2, width - 1);
      BitsValueSnoc(ToBits(v / 2, width - 1), v % 2);
      assert ToBits(v, width) == ToBits(v / 2, width - 1) + [v % 2];
    }
  }

  /** Reading a bit sequence and writing its value back at the same width gives the sequence. */
  lemma {:induction false} BitsValueRoundTrip(s: seq<int>)
    requires IsBits(s)
    ensures ToBits(BitsValue(s), |s|) == s
  {
    if s != [] {
      var prefix, last := s[..|s| - 1], s[|s| - 1];
      BitsValueRoundTrip(prefix);
      var v := BitsValue(s);
      HalfOfShiftIn(BitsValue(prefix), last);
      assert ToBits(v, |s|) == ToBits(v / 2, |prefix|) + [v % 2];
      assert s == prefix + [last];
    }
  }

  /** A value below `2 * p` is its half, below `p`, shifted left with its low bit in. */
  lemma Halve(v: nat, p: nat)
    requires v < 2 * p
    ensures v / 2 < p && (v % 2 == 0 || v % 2 == 1) && v == ShiftIn(v / 2, v % 2)
  {
  }

  /** Halving `acc << 1 | bit` gives back `acc`, and its low bit is `bit`. */
  lemma HalfOfShiftIn(acc: nat, bit: int)
    requires bit == 0 || bit == 1
    ensures ShiftIn(acc, bit) / 2 == acc && ShiftIn(acc, bit) % 2 == bit
  {
  }
}
