/**
 * Landmark pairing (`create_fingerprint`): every peak is an anchor and is
 * paired with the next `fan_value` entries of the peak list; a pair whose time
 * delta lies in [min_time_delta, max_time_delta] yields the record
 * (hash of anchor bin, partner bin and delta; anchor time). The records are
 * then stably sorted by anchor time. Peak extraction is not modelled: the peak
 * list, in whatever order it comes, is the input.
 *
 * The specification first collects the pairs as unpacked landmarks and packs
 * each into its record afterwards; the method hashes inside the loop, as the
 * source does.
 */
module Fingerprinting {
  import opened Hashing
  import opened StableSort

  /** A spectrogram peak as `np.argwhere` yields it: (frequency bin, time frame). */
  datatype Peak = Peak(freq: nat, time: nat)

  /** One fingerprint record: (hash, anchor time frame). */
  datatype Fingerprint = Fingerprint(hash: nat, time: nat)

  /** A pair before hashing: the two bins, their time gap and the anchor time. */
  datatype Landmark = Landmark(anchorFreq: nat, partnerFreq: nat, delta: nat, time: nat)

  /** The tunable pairing parameters of the wizard. */
  datatype Settings = Settings(fanValue: nat, minTimeDelta: nat, maxTimeDelta: int)

  /** The wizard's defaults: fan_value 9, min_time_delta 1, max_time_delta 30. */
  const DefaultSettings := Settings(9, 1, 30)

  function TimeKey(f: Fingerprint): int
  {
    f.time
  }

  predicate InWindow(settings: Settings, delta: int)
  {
    settings.minTimeDelta <= delta <= settings.maxTimeDelta
  }

  /**
   * The partner at index j of the anchor at index i is hashed: j is one of the
   * fanValue entries after i, inside the list, and the delta is in the window.
   */
  predicate ValidPair(peaks: seq<Peak>, settings: Settings, i: int, j: int)
  {
    0 <= i < j < |peaks| && j <= i + settings.fanValue
    && InWindow(settings, peaks[j].time - peaks[i].time)
  }

  function PairLandmark(peaks: seq<Peak>, settings: Settings, i: int, j: int): Landmark
    requires ValidPair(peaks, settings, i, j)
  {
    Landmark(peaks[i].freq, peaks[j].freq, peaks[j].time - peaks[i].time, peaks[i].time)
  }

  /** `(generate_hash(f1, f2, delta), t1)` */
  function Pack(l: Landmark): Fingerprint
  {
    Fingerprint(GenerateHash(l.anchorFreq, l.partnerFreq, l.delta), l.time)
  }

  function PackAll(ls: seq<Landmark>): seq<Fingerprint>
  {
    seq(|ls|, k requires 0 <= k < |ls| => Pack(ls[k]))
  }

  function PairFingerprint(peaks: seq<Peak>, settings: Settings, i: int, j: int): Fingerprint
    requires ValidPair(peaks, settings, i, j)
  {
    Pack(PairLandmark(peaks, settings, i, j))
  }

  /** What the inner loop keeps for anchor i and partner j: one landmark or none. */
  function PairAt(peaks: seq<Peak>, settings: Settings, i: nat, j: nat): seq<Landmark>
  {
    if j >= |peaks| || i >= |peaks| then []
    else
      var delta := peaks[j].time - peaks[i].time;
      if delta < settings.minTimeDelta || delta > settings.maxTimeDelta then []
      else [Landmark(peaks[i].freq, peaks[j].freq, delta, peaks[i].time)]
  }

  /** The landmarks of anchor i with pair indices 1..k. */
  function PartnerPairs(peaks: seq<Peak>, settings: Settings, i: nat, k: nat): seq<Landmark>
  {
    if k == 0 then [] else PartnerPairs(peaks, settings, i, k - 1) + PairAt(peaks, settings, i, i + k)
  }

  /** The landmarks of the anchors 0..n-1. */
  function PairsUpTo(peaks: seq<Peak>, settings: Settings, n: nat): seq<Landmark>
    requires n <= |peaks|
  {
    if n == 0 then []
    else PairsUpTo(peaks, settings, n - 1) + PartnerPairs(peaks, settings, n - 1, settings.fanValue)
  }

  function Landmarks(peaks: seq<Peak>, settings: Settings): seq<Landmark>
  {
    PairsUpTo(peaks, settings, |peaks|)
  }

  /** The list the loops build, before sorting. */
  function Pairings(peaks: seq<Peak>, settings: Settings): seq<Fingerprint>
  {
    PackAll(Landmarks(peaks, settings))
  }

  /** What `create_fingerprint` returns. */
  function Fingerprints(peaks: seq<Peak>, settings: Settings): seq<Fingerprint>
  {
    SortBy(Pairings(peaks, settings), TimeKey)
  }

  /** `create_fingerprint`, with `get_peak_points` replaced by its result. */
  method CreateFingerprint(peaks: seq<Peak>, settings: Settings) returns (fingerprints: seq<Fingerprint>)
    ensures fingerprints == Fingerprints(peaks, settings)
    ensures SortedBy(fingerprints, TimeKey)
    ensures forall f :: f in fingerprints ==> FromPair(peaks, settings, f)
  {
    fingerprints := [];
    for anchorIdx := 0 to |peaks|
      invariant fingerprints == PackAll(PairsUpTo(peaks, settings, anchorIdx))
    {
      fingerprints := PairAnchor(peaks, settings, anchorIdx, fingerprints);
      PackAllAppend(PairsUpTo(peaks, settings, anchorIdx), PartnerPairs(peaks, settings, anchorIdx, settings.fanValue));
    }
    fingerprints := SortBy(fingerprints, TimeKey);
    FingerprintsOrder(peaks, settings, 0);
    FingerprintsSound(peaks, settings);
  }

  /** The inner loop: pair the anchor with the next fanValue entries, appending to the list. */
  method PairAnchor(peaks: seq<Peak>, settings: Settings, anchorIdx: nat, fingerprints: seq<Fingerprint>)
    returns (extended: seq<Fingerprint>)
    requires anchorIdx < |peaks|
    ensures extended == fingerprints + PackAll(PartnerPairs(peaks, settings, anchorIdx, settings.fanValue))
  {
    extended := fingerprints;
    var freqBin1: nat, time1: int := peaks[anchorIdx].freq, peaks[anchorIdx].time;
    for pairIdx := 1 to settings.fanValue + 1
      invariant extended == fingerprints + PackAll(PartnerPairs(peaks, settings, anchorIdx, pairIdx - 1))
    {
      PartnerPairsStep(peaks, settings, anchorIdx, pairIdx);
      if anchorIdx + pairIdx >= |peaks| {
        continue;
      }
      var freqBin2: nat, time2: int := peaks[anchorIdx + pairIdx].freq, peaks[anchorIdx + pairIdx].time;
      var deltaTime := time2 - time1;
      if deltaTime < settings.minTimeDelta || deltaTime > settings.maxTimeDelta {
        continue;
      }
      var generatedHash := GenerateHash(freqBin1, freqBin2, deltaTime);
      extended := extended + [Fingerprint(generatedHash, time1)];
    }
  }

  lemma PackAllAppend(a: seq<Landmark>, b: seq<Landmark>)
    ensures PackAll(a + b) == PackAll(a) + PackAll(b)
  {
    assert forall k :: 0 <= k < |a + b| ==> (a + b)[k] == if k < |a| then a[k] else b[k - |a|];
  }

  /** One step of the inner loop, as the specification records it. */
  lemma PartnerPairsStep(peaks: seq<Peak>, settings: Settings, i: nat, k: nat)
    requires i < |peaks| && k >= 1
    ensures i + k >= |peaks| ==>
              PackAll(PartnerPairs(peaks, settings, i, k)) == PackAll(PartnerPairs(peaks, settings, i, k - 1))
    ensures i + k < |peaks| && !InWindow(settings, peaks[i + k].time - peaks[i].time) ==>
              PackAll(PartnerPairs(peaks, settings, i, k)) == PackAll(PartnerPairs(peaks, settings, i, k - 1))
    ensures i + k < |peaks| && InWindow(settings, peaks[i + k].time - peaks[i].time) ==>
              PackAll(PartnerPairs(peaks, settings, i, k)) == PackAll(PartnerPairs(peaks, settings, i, k - 1))
                + [Fingerprint(GenerateHash(peaks[i].freq, peaks[i + k].freq, peaks[i + k].time - peaks[i].time), peaks[i].time)]
  {
    var before := PartnerPairs(peaks, settings, i, k - 1);
    var step := PairAt(peaks, settings, i, i + k);
    PackAllAppend(before, step);
  }

  /** f is the record of some hashed pair. */
  ghost predicate FromPair(peaks: seq<Peak>, settings: Settings, f: Fingerprint)
  {
    exists i, j :: ValidPair(peaks, settings, i, j) && f == PairFingerprint(peaks, settings, i, j)
  }

  /** l is the landmark of some hashed pair. */
  ghost predicate LandmarkOfPair(peaks: seq<Peak>, settings: Settings, l: Landmark)
  {
    exists i, j :: ValidPair(peaks, settings, i, j) && l == PairLandmark(peaks, settings, i, j)
  }

  lemma PackAllMember(ls: seq<Landmark>, f: Fingerprint) returns (l: Landmark)
    requires f in PackAll(ls)
    ensures l in ls && f == Pack(l)
  {
    var k :| 0 <= k < |ls| && PackAll(ls)[k] == f;
    l := ls[k];
  }

  lemma {:induction false} PartnerPairsSound(peaks: seq<Peak>, settings: Settings, i: nat, k: nat)
    requires k <= settings.fanValue
    ensures forall l :: l in PartnerPairs(peaks, settings, i, k) ==> LandmarkOfPair(peaks, settings, l)
  {
    if k > 0 {
      PartnerPairsSound(peaks, settings, i, k - 1);
      if i + k < |peaks| && InWindow(settings, peaks[i + k].time - peaks[i].time) {
        assert ValidPair(peaks, settings, i, i + k);
        assert LandmarkOfPair(peaks, settings, PairLandmark(peaks, settings, i, i + k));
      }
    }
  }

  lemma {:induction false} PairsUpToSound(peaks: seq<Peak>, settings: Settings, n: nat)
    requires n <= |peaks|
    ensures forall l :: l in PairsUpTo(peaks, settings, n) ==> LandmarkOfPair(peaks, settings, l)
  {
    if n > 0 {
      PairsUpToSound(peaks, settings, n - 1);
      PartnerPairsSound(peaks, settings, n - 1, settings.fanValue);
    }
  }

  /**
   * Every record comes from a pair i < j <= i + fanValue with j inside the
   * list and the delta t_j - t_i in the window; its hash packs (f_i, f_j,
   * t_j - t_i) and its time is the anchor's time t_i.
   */
  lemma PairingsSound(peaks: seq<Peak>, settings: Settings)
    ensures forall f :: f in Pairings(peaks, settings) ==> FromPair(peaks, settings, f)
  {
    PairsUpToSound(peaks, settings, |peaks|);
    forall f | f in Pairings(peaks, settings) ensures FromPair(peaks, settings, f) {
      var l := PackAllMember(Landmarks(peaks, settings), f);
      assert LandmarkOfPair(peaks, settings, l);
      var i, j :| ValidPair(peaks, settings, i, j) && l == PairLandmark(peaks, settings, i, j);
      assert f == PairFingerprint(peaks, settings, i, j);
    }
  }

  /** Sorting keeps every record's origin. */
  lemma FingerprintsSound(peaks: seq<Peak>, settings: Settings)
    ensures forall f :: f in Fingerprints(peaks, settings) ==> FromPair(peaks, settings, f)
  {
    SortByOrders(Pairings(peaks, settings), TimeKey);
    PairingsSound(peaks, settings);
    forall f | f in Fingerprints(peaks, settings) ensures FromPair(peaks, settings, f) {
      assert f in multiset(Pairings(peaks, settings));
    }
  }

  lemma {:induction false} PartnerPairsComplete(peaks: seq<Peak>, settings: Settings, i: nat, k: nat, j: nat)
    requires ValidPair(peaks, settings, i, j) && j <= i + k
    ensures PairLandmark(peaks, settings, i, j) in PartnerPairs(peaks, settings, i, k)
  {
    if j < i + k {
      PartnerPairsComplete(peaks, settings, i, k - 1, j);
    }
  }

  lemma {:induction false} PairsUpToComplete(peaks: seq<Peak>, settings: Settings, n: nat, i: nat, j: nat)
    requires n <= |peaks| && i < n && ValidPair(peaks, settings, i, j)
    ensures PairLandmark(peaks, settings, i, j) in PairsUpTo(peaks, settings, n)
  {
    if i == n - 1 {
      PartnerPairsComplete(peaks, settings, i, settings.fanValue, j);
    } else {
      PairsUpToComplete(peaks, settings, n - 1, i, j);
    }
  }

  /** Conversely, every hashed pair contributes its record. */
  lemma PairingsComplete(peaks: seq<Peak>, settings: Settings, i: nat, j: nat)
    requires ValidPair(peaks, settings, i, j)
    ensures PairFingerprint(peaks, settings, i, j) in Pairings(peaks, settings)
  {
    PairsUpToComplete(peaks, settings, |peaks|, i, j);
    var ls := Landmarks(peaks, settings);
    var k :| 0 <= k < |ls| && ls[k] == PairLandmark(peaks, settings, i, j);
    assert Pairings(peaks, settings)[k] == PairFingerprint(peaks, settings, i, j);
  }

  lemma {:induction false} PartnerPairsLength(peaks: seq<Peak>, settings: Settings, i: nat, k: nat)
    ensures |PartnerPairs(peaks, settings, i, k)| <= k
  {
    if k > 0 {
      PartnerPairsLength(peaks, settings, i, k - 1);
    }
  }

  /** The last anchor has no partner inside the list. */
  lemma {:induction false} LastAnchorAlone(peaks: seq<Peak>, settings: Settings, i: nat, k: nat)
    requires i + 1 >= |peaks|
    ensures PartnerPairs(peaks, settings, i, k) == []
  {
    if k > 0 {
      LastAnchorAlone(peaks, settings, i, k - 1);
    }
  }

  /** n additions of m, so that the length bound stays linear. */
  function Times(n: nat, m: nat): nat
  {
    if n == 0 then 0 else Times(n - 1, m) + m
  }

  lemma {:induction false} TimesIsProduct(n: nat, m: nat)
    ensures Times(n, m) == n * m
  {
    if n > 0 {
      TimesIsProduct(n - 1, m);
      MulStep(n, m);
    }
  }

  lemma MulStep(n: nat, m: nat)
    requires n > 0
    ensures (n - 1) * m + m == n * m
  {
  }

  lemma {:induction false} PairsUpToLength(peaks: seq<Peak>, settings: Settings, n: nat)
    requires n <= |peaks|
    ensures |PairsUpTo(peaks, settings, n)| <= Times(n, settings.fanValue)
  {
    if n > 0 {
      var earlier, last := PairsUpTo(peaks, settings, n - 1), PartnerPairs(peaks, settings, n - 1, settings.fanValue);
      PairsUpToLength(peaks, settings, n - 1);
      PartnerPairsLength(peaks, settings, n - 1, settings.fanValue);
      assert |earlier + last| == |earlier| + |last|;
    }
  }

  /** At most fanValue records per anchor; none at all from fewer than two peaks. */
  lemma FingerprintsLength(peaks: seq<Peak>, settings: Settings)
    ensures |Fingerprints(peaks, settings)| <= |peaks| * settings.fanValue
    ensures |peaks| < 2 ==> Fingerprints(peaks, settings) == []
  {
    PairsUpToLength(peaks, settings, |peaks|);
    TimesIsProduct(|peaks|, settings.fanValue);
    SortByLength(Pairings(peaks, settings), TimeKey);
    if |peaks| == 1 {
      LastAnchorAlone(peaks, settings, 0, settings.fanValue);
      assert Landmarks(peaks, settings) == PairsUpTo(peaks, settings, 0) + PartnerPairs(peaks, settings, 0, settings.fanValue);
    }
  }

  /**
   * The result is ordered by anchor time, is a permutation of the list the
   * loops built, and keeps that list's order among records of equal time.
   */
  lemma FingerprintsOrder(peaks: seq<Peak>, settings: Settings, t: int)
    ensures SortedBy(Fingerprints(peaks, settings), TimeKey)
    ensures multiset(Fingerprints(peaks, settings)) == multiset(Pairings(peaks, settings))
    ensures WithKey(Fingerprints(peaks, settings), TimeKey, t) == WithKey(Pairings(peaks, settings), TimeKey, t)
  {
    SortByOrders(Pairings(peaks, settings), TimeKey);
    SortByStable(Pairings(peaks, settings), TimeKey, t);
  }

  /** The record of one pair decodes to its bins and delta when they fit their fields. */
  lemma PairDecodes(peaks: seq<Peak>, settings: Settings, i: int, j: int)
    requires ValidPair(peaks, settings, i, j)
    requires peaks[i].freq < FreqLimit && peaks[j].freq < FreqLimit
    requires settings.maxTimeDelta < DeltaLimit
    ensures DecodeHash(PairFingerprint(peaks, settings, i, j).hash)
         == Decoded(peaks[i].freq, peaks[j].freq, peaks[j].time - peaks[i].time)
  {
    RoundTrip(peaks[i].freq, peaks[j].freq, peaks[j].time - peaks[i].time);
  }

  /**
   * When every bin fits 10 bits and the window fits 8 bits, each record
   * decodes to the anchor bin, the partner bin and a delta inside the window.
   */
  lemma FingerprintsDecode(peaks: seq<Peak>, settings: Settings, f: Fingerprint)
    requires forall p :: p in peaks ==> p.freq < FreqLimit
    requires settings.maxTimeDelta < DeltaLimit
    requires f in Fingerprints(peaks, settings)
    ensures exists i, j :: ValidPair(peaks, settings, i, j) && f.time == peaks[i].time
              && DecodeHash(f.hash) == Decoded(peaks[i].freq, peaks[j].freq, peaks[j].time - peaks[i].time)
  {
    FingerprintsSound(peaks, settings);
    assert FromPair(peaks, settings, f);
    var i, j :| ValidPair(peaks, settings, i, j) && f == PairFingerprint(peaks, settings, i, j);
    assert peaks[i] in peaks && peaks[j] in peaks;
    PairDecodes(peaks, settings, i, j);
    assert f.time == peaks[i].time;
  }

  /**
   * Under the wizard's default settings the window fits the 8-bit delta
   * field, so every hash of peaks below bin 1024 decodes to its pair.
   */
  lemma DefaultFingerprintsDecode(peaks: seq<Peak>, f: Fingerprint)
    requires forall p :: p in peaks ==> p.freq < FreqLimit
    requires f in Fingerprints(peaks, DefaultSettings)
    ensures exists i, j :: ValidPair(peaks, DefaultSettings, i, j) && f.time == peaks[i].time
              && 1 <= peaks[j].time - peaks[i].time <= 30
              && DecodeHash(f.hash) == Decoded(peaks[i].freq, peaks[j].freq, peaks[j].time - peaks[i].time)
  {
    FingerprintsDecode(peaks, DefaultSettings, f);
  }
}
