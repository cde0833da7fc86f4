/**
 * The landmark hash of the fingerprinting engine: two frequency bins and a
 * time delta packed into one integer as `(freq1 << 18) | (freq2 << 8) | delta`,
 * and the decoder that takes the fields back out with the masks 0x3FF and 0xFF.
 */
module Hashing {
  import opened Bits

  /** The STFT uses n_fft = 2048, which yields 2048 / 2 + 1 frequency bins. */
  const StftBins: nat := 2048 / 2 + 1

  /** The hash packs a frequency into 10 bits and a delta into 8. */
  const FreqLimit: nat := 1024
  const DeltaLimit: nat := 256

  /** `generate_hash` */
  function GenerateHash(freq1: nat, freq2: nat, deltaTime: nat): nat
  {
    BitOr(BitOr(ShiftLeft(freq1, 18), ShiftLeft(freq2, 8)), deltaTime)
  }

  datatype Decoded = Decoded(freq1: nat, freq2: nat, deltaTime: nat)

  /** `decode_hash`: every decoded field fits its mask, whatever the hash. */
  function DecodeHash(hashValue: nat): (r: Decoded)
    ensures r.freq1 < FreqLimit && r.freq2 < FreqLimit && r.deltaTime < DeltaLimit
  {
    Pow2Values();
    AndBelowMask(ShiftRight(hashValue, 18), 10);
    AndBelowMask(ShiftRight(hashValue, 8), 10);
    AndBelowMask(hashValue, 8);
    Decoded(BitAnd(ShiftRight(hashValue, 18), 0x3FF),
            BitAnd(ShiftRight(hashValue, 8), 0x3FF),
            BitAnd(hashValue, 0xFF))
  }

  lemma Pow2Values()
    ensures Pow2(8) == 256 && Pow2(10) == 1024 && Pow2(18) == 262144
  {
    assert Pow2(8) == 256;
    assert Pow2(10) == 1024;
    assert Pow2(18) == 262144;
  }

  /** Within the field widths the ORs never overlap, so the hash is a sum. */
  lemma HashIsSum(freq1: nat, freq2: nat, deltaTime: nat)
    requires freq2 < FreqLimit && deltaTime < DeltaLimit
    ensures GenerateHash(freq1, freq2, deltaTime) == freq1 * 262144 + freq2 * 256 + deltaTime
  {
    Pow2Values();
    assert ShiftLeft(freq1, 18) == (freq1 * 1024) * Pow2(8);
    assert ShiftLeft(freq2, 8) == freq2 * Pow2(8);
    OrShift(freq1 * 1024, freq2, 8);
    OrIsAddition(freq1, freq2, 10);
    var high := freq1 * 1024 + freq2;
    assert BitOr(ShiftLeft(freq1, 18), ShiftLeft(freq2, 8)) == high * Pow2(8);
    OrIsAddition(high, deltaTime, 8);
  }

  /** Decoding a sum of in-range fields; the first frequency comes back modulo 1024. */
  lemma DecodeSum(h: nat, freq1: nat, freq2: nat, deltaTime: nat)
    requires freq2 < FreqLimit && deltaTime < DeltaLimit
    requires h == freq1 * 262144 + freq2 * 256 + deltaTime
    ensures DecodeHash(h) == Decoded(freq1 % FreqLimit, freq2, deltaTime)
  {
    Pow2Values();
    DivModUnique(h, 256, freq1 * 1024 + freq2, deltaTime);
    DivModUnique(freq1 * 1024 + freq2, 1024, freq1, freq2);
    DivModUnique(h, 262144, freq1, freq2 * 256 + deltaTime);
    AndLowMask(h, 8);
    AndLowMask(ShiftRight(h, 8), 10);
    AndLowMask(ShiftRight(h, 18), 10);
  }

  /** `decode_hash(generate_hash(f1, f2, dt)) == (f1, f2, dt)` within the field widths. */
  lemma RoundTrip(freq1: nat, freq2: nat, deltaTime: nat)
    requires freq1 < FreqLimit && freq2 < FreqLimit && deltaTime < DeltaLimit
    ensures DecodeHash(GenerateHash(freq1, freq2, deltaTime)) == Decoded(freq1, freq2, deltaTime)
  {
    DivModUnique(freq1, FreqLimit, 0, freq1);
    HashIsSum(freq1, freq2, deltaTime);
    DecodeSum(GenerateHash(freq1, freq2, deltaTime), freq1, freq2, deltaTime);
  }

  /** Within the field widths two different triples never share a hash. */
  lemma Injective(a1: nat, a2: nat, ad: nat, b1: nat, b2: nat, bd: nat)
    requires a1 < FreqLimit && a2 < FreqLimit && ad < DeltaLimit
    requires b1 < FreqLimit && b2 < FreqLimit && bd < DeltaLimit
    requires GenerateHash(a1, a2, ad) == GenerateHash(b1, b2, bd)
    ensures a1 == b1 && a2 == b2 && ad == bd
  {
    RoundTrip(a1, a2, ad);
    RoundTrip(b1, b2, bd);
  }

  /**
   * The highest STFT bin, 1024, does not fit the 10-bit field: it spills into
   * the first frequency's field, so two different bin pairs share a hash and
   * the round trip fails.
   */
  lemma TopBinCollides()
    ensures StftBins - 1 == 1024
    ensures GenerateHash(0, StftBins - 1, 1) == GenerateHash(1, 0, 1)
    ensures DecodeHash(GenerateHash(0, StftBins - 1, 1)) == Decoded(1, 0, 1)
  {
    Pow2Values();
    assert ShiftLeft(1024, 8) == 1 * Pow2(18);
    assert BitOr(ShiftLeft(0, 18), ShiftLeft(1024, 8)) == 1 * Pow2(18);
    assert BitOr(ShiftLeft(1, 18), ShiftLeft(0, 8)) == 1 * Pow2(18);
    OrIsAddition(1, 1, 18);
    HashIsSum(1, 0, 1);
    DecodeSum(GenerateHash(1, 0, 1), 1, 0, 1);
  }
}
