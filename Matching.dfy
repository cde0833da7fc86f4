/**
 * Candidate selection of `match_fingerprints_from_db`: each voted song's most
 * common delta, the stable sort by vote count (descending) cut to three, and
 * the confidence gate count / max(1, |filtered rows|) >= CONFIDENCE_THRESHOLD.
 * Offsets stay in frames; the conversion to seconds is not modelled.
 */
module Matching {
  import opened Wrappers
  import opened StableSort
  import opened Fingerprinting
  import opened Voting

  /** (song_id, delta, count) as appended to match_candidates. */
  datatype Candidate = Candidate(song: nat, delta: int, count: nat)

  /** A returned match; its confidence is count / total. */
  datatype Match = Match(song: nat, delta: int, count: nat, total: nat)

  type Positive = d: nat | d > 0 witness 1

  /** CONFIDENCE_THRESHOLD as the exact fraction num / den. */
  datatype Threshold = Threshold(num: int, den: Positive)

  /** The default CONFIDENCE_THRESHOLD, 0.00. */
  const DefaultThreshold: Threshold := Threshold(0, 1)

  /** The slice `[:3]` */
  const MaxResults: nat := 3

  /** `counter.most_common(1)[0]`: the first entry with the largest count. */
  function MostCommonIndex(c: seq<Tally>): (k: nat)
    requires c != []
    ensures k < |c|
    ensures forall m :: 0 <= m < |c| ==> c[m].count <= c[k].count
    ensures forall m :: 0 <= m < k ==> c[m].count < c[k].count
  {
    if |c| == 1 then 0
    else
      var k := MostCommonIndex(c[1..]);
      if c[0].count >= c[k + 1].count then 0 else k + 1
  }

  function CandidateOf(v: SongVotes): Candidate
    requires v.counter != []
  {
    var t := v.counter[MostCommonIndex(v.counter)];
    Candidate(v.song, t.delta, t.count)
  }

  predicate NonEmptyCounters(votes: seq<SongVotes>)
  {
    forall k :: 0 <= k < |votes| ==> votes[k].counter != []
  }

  /** match_candidates, in the insertion order of the votes dictionary. */
  function Candidates(votes: seq<SongVotes>): (r: seq<Candidate>)
    requires NonEmptyCounters(votes)
  {
    seq(|votes|, k requires 0 <= k < |votes| => CandidateOf(votes[k]))
  }

  function NegCount(c: Candidate): int
  {
    -(c.count as int)
  }

  function Take<T>(s: seq<T>, n: nat): seq<T>
  {
    if |s| <= n then s else s[..n]
  }

  /** `sorted(match_candidates, key=count, reverse=True)[:3]` */
  function TopMatches(candidates: seq<Candidate>): seq<Candidate>
  {
    Take(SortBy(candidates, NegCount), MaxResults)
  }

  /** `count / total >= num / den`, with total and den positive. */
  predicate Passes(count: nat, total: Positive, threshold: Threshold)
  {
    count * threshold.den >= threshold.num * total
  }

  /** The results loop: the top candidates that clear the confidence gate. */
  function Gate(top: seq<Candidate>, total: Positive, threshold: Threshold): seq<Match>
  {
    if top == [] then []
    else
      var c := top[|top| - 1];
      Gate(top[..|top| - 1], total, threshold)
        + (if Passes(c.count, total, threshold) then [Match(c.song, c.delta, c.count, total)] else [])
  }

  /** The confidence denominator `max(1, len(filtered_hashes))`. */
  function Total(rows: seq<Row>): Positive
  {
    if |Filtered(rows)| > 1 then |Filtered(rows)| else 1
  }

  /** What `match_fingerprints_from_db` returns, the store query replaced by its rows. */
  function MatchResult(query: seq<Fingerprint>, rows: seq<Row>, threshold: Threshold): Option<seq<Match>>
  {
    var ballots := Ballots(Filtered(rows), query);
    TallyCounts(ballots);
    GoodVotesNonEmpty(TallyVotes(ballots));
    var results := Gate(TopMatches(Candidates(TallyVotes(ballots))), Total(rows), threshold);
    if results == [] then None else Some(results)
  }

  /**
   * The store query: the rows of the fingerprint table whose hash is one of
   * the query's, in the order the table yields them.
   */
  function QueryOutput(table: seq<Row>, keys: set<nat>): seq<Row>
  {
    if table == [] then []
    else
      var row := table[|table| - 1];
      QueryOutput(table[..|table| - 1], keys) + (if row.hash in keys then [row] else [])
  }

  lemma {:induction false} QueryOutputMembers(table: seq<Row>, keys: set<nat>)
    ensures forall r :: r in QueryOutput(table, keys) <==> r in table && r.hash in keys
    ensures |QueryOutput(table, keys)| <= |table|
  {
    if table != [] {
      var init := table[..|table| - 1];
      QueryOutputMembers(init, keys);
      assert table == init + [table[|table| - 1]];
    }
  }

  /** The query over a concatenation answers each part, in order. */
  lemma {:induction false} QueryOutputAppend(a: seq<Row>, b: seq<Row>, keys: set<nat>)
    ensures QueryOutput(a + b, keys) == QueryOutput(a, keys) + QueryOutput(b, keys)
  {
    if b != [] {
      var init := b[..|b| - 1];
      QueryOutputAppend(a, init, keys);
      assert (a + b)[..|a + b| - 1] == a + init;
    } else {
      assert a + b == a;
    }
  }

  /** Each row of a queried hash comes back with all its copies, any other with none. */
  lemma {:induction false} QueryOutputCounts(table: seq<Row>, keys: set<nat>)
    ensures forall r :: multiset(QueryOutput(table, keys))[r] == if r.hash in keys then multiset(table)[r] else 0
  {
    if table != [] {
      var init := table[..|table| - 1];
      QueryOutputCounts(init, keys);
      assert table == init + [table[|table| - 1]];
    }
  }

  /** The query keeps the table's order: a prefix of the table answers with a prefix. */
  lemma QueryOutputInOrder(table: seq<Row>, keys: set<nat>)
    ensures forall n :: 0 <= n <= |table| ==> QueryOutput(table[..n], keys) <= QueryOutput(table, keys)
  {
    forall n | 0 <= n <= |table|
      ensures QueryOutput(table[..n], keys) <= QueryOutput(table, keys)
    {
      QueryOutputAppend(table[..n], table[n..], keys);
      assert table[..n] + table[n..] == table;
    }
  }

  /**
   * `match_fingerprints_from_db`: `table` is the fingerprint table, in the
   * order the store yields it, and `query` the recording's fingerprints.
   */
  method MatchFingerprintsFromDb(query: seq<Fingerprint>, table: seq<Row>, threshold: Threshold)
    returns (result: Option<seq<Match>>)
    ensures result == MatchResult(query, QueryOutput(table, Hashes(query)), threshold)
  {
    var hashValues := GroupQueryTimes(query);
    var rows := QueryOutput(table, hashValues.Keys);
    var filteredHashes := Filtered(rows);
    var votes := CastVotes(query, hashValues, filteredHashes);
    TallyCounts(Ballots(filteredHashes, query));
    GoodVotesNonEmpty(votes);
    var candidates := CollectCandidates(votes);
    var topMatches := TopMatches(candidates);
    var total: Positive := if |filteredHashes| > 1 then |filteredHashes| else 1;
    var results := GateMatches(topMatches, total, threshold);
    result := if results == [] then None else Some(results);
  }

  /** The voting loops: one vote per (row, query time) with a non-negative delta. */
  method CastVotes(query: seq<Fingerprint>, hashValues: map<nat, seq<nat>>, filteredHashes: seq<Row>)
    returns (votes: seq<SongVotes>)
    requires forall h :: Lookup(hashValues, h) == TimesOf(query, h)
    ensures votes == TallyVotes(Ballots(filteredHashes, query))
  {
    votes := [];
    for i := 0 to |filteredHashes|
      invariant votes == TallyVotes(Ballots(filteredHashes[..i], query))
    {
      var row := filteredHashes[i];
      var timestamps := Lookup(hashValues, row.hash);
      ghost var before := Ballots(filteredHashes[..i], query);
      votes := CastRow(row, timestamps, votes, before);
      assert timestamps == TimesOf(query, row.hash);
      BallotsStep(filteredHashes, query, i);
    }
    assert filteredHashes[..|filteredHashes|] == filteredHashes;
  }

  /** The inner loop: one vote per query time of the row's hash that the row's offset does not precede. */
  method CastRow(row: Row, timestamps: seq<nat>, votes: seq<SongVotes>, ghost before: seq<Ballot>)
    returns (updated: seq<SongVotes>)
    requires votes == TallyVotes(before)
    ensures updated == TallyVotes(before + RowBallots(row, timestamps))
  {
    updated := votes;
    assert before + RowBallots(row, timestamps[..0]) == before;
    for j := 0 to |timestamps|
      invariant updated == TallyVotes(before + RowBallots(row, timestamps[..j]))
    {
      var delta := row.offset - timestamps[j];
      RowBallotsStep(row, timestamps, j);
      ghost var cast := before + RowBallots(row, timestamps[..j]);
      if delta < 0 {
        continue;
      }
      TallyVotesSnoc(cast, Ballot(row.song, delta));
      assert before + RowBallots(row, timestamps[..j + 1]) == cast + [Ballot(row.song, delta)];
      updated := Vote(updated, Ballot(row.song, delta));
    }
    assert timestamps[..|timestamps|] == timestamps;
  }

  lemma RowBallotsStep(row: Row, timestamps: seq<nat>, j: nat)
    requires j < |timestamps|
    ensures row.offset - timestamps[j] < 0 ==>
              RowBallots(row, timestamps[..j + 1]) == RowBallots(row, timestamps[..j])
    ensures row.offset - timestamps[j] >= 0 ==>
              RowBallots(row, timestamps[..j + 1])
              == RowBallots(row, timestamps[..j]) + [Ballot(row.song, row.offset - timestamps[j])]
  {
    assert timestamps[..j + 1][..j] == timestamps[..j];
    assert RowBallots(row, timestamps[..j]) + [] == RowBallots(row, timestamps[..j]);
  }

  lemma BallotsStep(rows: seq<Row>, query: seq<Fingerprint>, i: nat)
    requires i < |rows|
    ensures Ballots(rows[..i + 1], query) == Ballots(rows[..i], query) + RowBallots(rows[i], TimesOf(query, rows[i].hash))
  {
    assert rows[..i + 1][..i] == rows[..i];
  }

  lemma TallyVotesSnoc(ballots: seq<Ballot>, b: Ballot)
    ensures TallyVotes(ballots + [b]) == Vote(TallyVotes(ballots), b)
  {
    assert (ballots + [b])[..|ballots|] == ballots;
  }

  /** The loop over `votes.items()` that builds match_candidates. */
  method CollectCandidates(votes: seq<SongVotes>) returns (candidates: seq<Candidate>)
    requires NonEmptyCounters(votes)
    ensures candidates == Candidates(votes)
  {
    candidates := [];
    for i := 0 to |votes|
      invariant |candidates| == i
      invariant forall k :: 0 <= k < i ==> candidates[k] == CandidateOf(votes[k])
    {
      var counter := votes[i].counter;
      var best := counter[MostCommonIndex(counter)];
      candidates := candidates + [Candidate(votes[i].song, best.delta, best.count)];
    }
  }

  /** The results loop over the top matches. */
  method GateMatches(topMatches: seq<Candidate>, total: Positive, threshold: Threshold)
    returns (results: seq<Match>)
    ensures results == Gate(topMatches, total, threshold)
  {
    results := [];
    for i := 0 to |topMatches|
      invariant results == Gate(topMatches[..i], total, threshold)
    {
      var c := topMatches[i];
      assert topMatches[..i + 1][..i] == topMatches[..i];
      if Passes(c.count, total, threshold) {
        results := results + [Match(c.song, c.delta, c.count, total)];
      }
    }
    assert topMatches[..|topMatches|] == topMatches;
  }

  // ---------------------------------------------------------------------------
  // Facts about well-formed counters and vote dictionaries

  lemma {:induction false} DeltasMember(c: seq<Tally>, k: nat)
    requires k < |c|
    ensures c[k].delta in Deltas(c)
  {
    if k > 0 {
      DeltasMember(c[1..], k - 1);
    }
  }

  /** A counter entry's count is what the counter reports for its delta. */
  lemma {:induction false} CounterEntry(c: seq<Tally>, k: nat)
    requires GoodCounter(c) && k < |c|
    ensures c[k].count >= 1 && CountIn(c, c[k].delta) == c[k].count
  {
    if k > 0 {
      DeltasMember(c[1..], k - 1);
      CounterEntry(c[1..], k - 1);
    }
  }

  lemma {:induction false} CountInBounded(c: seq<Tally>, d: int, bound: nat)
    requires forall k :: 0 <= k < |c| ==> c[k].count <= bound
    ensures CountIn(c, d) <= bound
  {
    if c != [] && c[0].delta != d {
      CountInBounded(c[1..], d, bound);
    }
  }

  lemma {:induction false} SongsMember(votes: seq<SongVotes>, k: nat)
    requires k < |votes|
    ensures votes[k].song in Songs(votes)
  {
    if k > 0 {
      SongsMember(votes[1..], k - 1);
    }
  }

  lemma {:induction false} SongsWitness(votes: seq<SongVotes>, s: nat) returns (k: nat)
    requires s in Songs(votes)
    ensures k < |votes| && votes[k].song == s
  {
    if votes[0].song == s {
      k := 0;
    } else {
      k := SongsWitness(votes[1..], s);
      k := k + 1;
    }
  }

  /** The dictionary entry of a song holds that song's counter. */
  lemma {:induction false} VotesEntry(votes: seq<SongVotes>, k: nat)
    requires GoodVotes(votes) && k < |votes|
    ensures votes[k].counter != [] && GoodCounter(votes[k].counter)
    ensures forall d :: VotesFor(votes, votes[k].song, d) == CountIn(votes[k].counter, d)
  {
    if k > 0 {
      SongsMember(votes[1..], k - 1);
      VotesEntry(votes[1..], k - 1);
    }
  }

  lemma {:induction false} DistinctSongs(votes: seq<SongVotes>, i: nat, j: nat)
    requires GoodVotes(votes) && i < j < |votes|
    ensures votes[i].song != votes[j].song
  {
    if i == 0 {
      SongsMember(votes[1..], j - 1);
    } else {
      DistinctSongs(votes[1..], i - 1, j - 1);
    }
  }

  lemma GoodVotesNonEmpty(votes: seq<SongVotes>)
    requires GoodVotes(votes)
    ensures NonEmptyCounters(votes)
  {
    forall k | 0 <= k < |votes| ensures votes[k].counter != [] {
      VotesEntry(votes, k);
    }
  }

  /**
   * The candidate of a voted song holds its most voted delta: its count is
   * the number of ballots for that (song, delta), at least one, and no other
   * delta of the song has more ballots.
   */
  lemma CandidateMaximal(ballots: seq<Ballot>, k: nat)
    requires k < |TallyVotes(ballots)|
    ensures NonEmptyCounters(TallyVotes(ballots))
    ensures var c := Candidates(TallyVotes(ballots))[k];
            c.count >= 1 && c.count == multiset(ballots)[Ballot(c.song, c.delta)]
            && forall d :: multiset(ballots)[Ballot(c.song, d)] <= c.count
  {
    var votes := TallyVotes(ballots);
    TallyCounts(ballots);
    GoodVotesNonEmpty(votes);
    VotesEntry(votes, k);
    var counter := votes[k].counter;
    var best := MostCommonIndex(counter);
    CounterEntry(counter, best);
    forall d ensures multiset(ballots)[Ballot(votes[k].song, d)] <= counter[best].count {
      CountInBounded(counter, d, counter[best].count);
    }
  }

  /** Every candidate is a song that received a ballot. */
  lemma CandidateVoted(ballots: seq<Ballot>, k: nat)
    requires k < |TallyVotes(ballots)|
    ensures NonEmptyCounters(TallyVotes(ballots))
    ensures exists b :: b in ballots && b.song == Candidates(TallyVotes(ballots))[k].song
  {
    var votes := TallyVotes(ballots);
    TallyCounts(ballots);
    GoodVotesNonEmpty(votes);
    SongsMember(votes, k);
    var s := votes[k].song;
    assert s in (set b | b in ballots :: b.song);
    var b :| b in ballots && b.song == s;
  }

  /** Every song that received a ballot has a candidate. */
  lemma BallotHasCandidate(ballots: seq<Ballot>, b: Ballot) returns (k: nat)
    requires b in ballots
    ensures NonEmptyCounters(TallyVotes(ballots))
    ensures k < |Candidates(TallyVotes(ballots))| && Candidates(TallyVotes(ballots))[k].song == b.song
  {
    var votes := TallyVotes(ballots);
    TallyCounts(ballots);
    GoodVotesNonEmpty(votes);
    assert b.song in Songs(votes);
    k := SongsWitness(votes, b.song);
  }

  /** No song has two candidates. */
  lemma CandidatesDistinct(ballots: seq<Ballot>, i: nat, j: nat)
    requires i < j < |TallyVotes(ballots)|
    ensures NonEmptyCounters(TallyVotes(ballots))
    ensures Candidates(TallyVotes(ballots))[i].song != Candidates(TallyVotes(ballots))[j].song
  {
    TallyCounts(ballots);
    GoodVotesNonEmpty(TallyVotes(ballots));
    DistinctSongs(TallyVotes(ballots), i, j);
  }

  lemma {:induction false} CounterOfEntry(votes: seq<SongVotes>, k: nat)
    requires GoodVotes(votes) && k < |votes|
    ensures CounterOf(votes, votes[k].song) == votes[k].counter
  {
    if k > 0 {
      SongsMember(votes[1..], k - 1);
      CounterOfEntry(votes[1..], k - 1);
    }
  }

  /**
   * Ties for the most votes go to the delta voted first: the candidate's
   * delta sits at some place i in the order in which the song's deltas were
   * first voted, and every delta before it has strictly fewer votes.
   */
  lemma CandidateFirstVoted(ballots: seq<Ballot>, k: nat) returns (i: nat)
    requires k < |TallyVotes(ballots)|
    ensures NonEmptyCounters(TallyVotes(ballots))
    ensures var c := Candidates(TallyVotes(ballots))[k];
            var order := Firsts(SongDeltas(ballots, c.song));
            i < |order| && order[i] == c.delta
            && forall m :: 0 <= m < i ==> multiset(ballots)[Ballot(c.song, order[m])] < c.count
  {
    var votes := TallyVotes(ballots);
    TallyCounts(ballots);
    GoodVotesNonEmpty(votes);
    VotesEntry(votes, k);
    var s, counter := votes[k].song, votes[k].counter;
    CounterOfEntry(votes, k);
    TallyDeltaOrder(ballots, s);
    i := MostCommonIndex(counter);
    forall m | 0 <= m < i ensures multiset(ballots)[Ballot(s, counter[m].delta)] < counter[i].count {
      CounterEntry(counter, m);
    }
  }

  /** The candidates come in the order in which their songs were first voted for. */
  lemma CandidateSongOrder(ballots: seq<Ballot>)
    ensures NonEmptyCounters(TallyVotes(ballots))
    ensures |Candidates(TallyVotes(ballots))| == |Firsts(BallotSongs(ballots))|
    ensures forall k :: 0 <= k < |Firsts(BallotSongs(ballots))| ==>
              Candidates(TallyVotes(ballots))[k].song == Firsts(BallotSongs(ballots))[k]
  {
    TallyCounts(ballots);
    GoodVotesNonEmpty(TallyVotes(ballots));
    TallySongOrder(ballots);
  }

  // ---------------------------------------------------------------------------
  // Top three and the gate

  predicate NonIncreasing(s: seq<Candidate>)
  {
    forall i, j :: 0 <= i < j < |s| ==> s[i].count >= s[j].count
  }

  /**
   * The top matches are drawn from the candidates, each at most as often as
   * it occurs there, and candidates with equal counts keep their order.
   */
  lemma TopMatchesSelect(candidates: seq<Candidate>)
    ensures multiset(TopMatches(candidates)) <= multiset(candidates)
    ensures forall k :: WithKey(TopMatches(candidates), NegCount, k) <= WithKey(candidates, NegCount, k)
  {
    var sorted := SortBy(candidates, NegCount);
    SortByOrders(candidates, NegCount);
    var top := TopMatches(candidates);
    var n := |top|;
    assert top == sorted[..n];
    assert sorted == top + sorted[n..];
    assert multiset(sorted) == multiset(top) + multiset(sorted[n..]);
    forall k ensures WithKey(top, NegCount, k) <= WithKey(candidates, NegCount, k) {
      SortByStable(candidates, NegCount, k);
      WithKeyPrefix(sorted, n, NegCount, k);
    }
  }

  predicate SongsDistinct(s: seq<Candidate>)
  {
    forall i, j :: 0 <= i < j < |s| ==> s[i].song != s[j].song
  }

  lemma {:induction false} DistinctOnce(s: seq<Candidate>, x: Candidate)
    requires SongsDistinct(s)
    ensures multiset(s)[x] <= 1
  {
    if s != [] {
      assert SongsDistinct(s[1..]) by {
        forall i, j | 0 <= i < j < |s[1..]| ensures s[1..][i].song != s[1..][j].song {
          assert s[1..][i] == s[i + 1] && s[1..][j] == s[j + 1];
        }
      }
      DistinctOnce(s[1..], x);
      assert s == [s[0]] + s[1..];
      if x == s[0] {
        assert x !in s[1..] by {
          forall j | 0 <= j < |s[1..]| ensures s[1..][j] != x {
            assert s[1..][j] == s[j + 1];
          }
        }
      }
    }
  }

  lemma CountedTwice<T>(s: seq<T>, i: nat, j: nat)
    requires i < j < |s| && s[i] == s[j]
    ensures multiset(s)[s[i]] >= 2
  {
    assert s == s[..j] + s[j..];
    assert s[i] in s[..j] && s[j] in s[j..];
    assert multiset(s)[s[i]] == multiset(s[..j])[s[i]] + multiset(s[j..])[s[i]];
  }

  /** Candidates of distinct songs stay distinct in the top three. */
  lemma TopMatchesDistinct(candidates: seq<Candidate>)
    requires SongsDistinct(candidates)
    ensures SongsDistinct(TopMatches(candidates))
  {
    var top := TopMatches(candidates);
    TopMatchesSelect(candidates);
    forall i, j | 0 <= i < j < |top| ensures top[i].song != top[j].song {
      assert top[i] in multiset(candidates) && top[j] in multiset(candidates);
      var p :| 0 <= p < |candidates| && candidates[p] == top[i];
      var q :| 0 <= q < |candidates| && candidates[q] == top[j];
      if top[i] == top[j] {
        CountedTwice(top, i, j);
        DistinctOnce(candidates, top[i]);
      } else if p != q {
        assert p < q || q < p;
      }
    }
  }

  /**
   * The top matches are at most three candidates in non-increasing count
   * order, and every candidate left out has no more votes than any kept one.
   */
  lemma TopMatchesRanked(candidates: seq<Candidate>)
    ensures |TopMatches(candidates)| == if |candidates| < MaxResults then |candidates| else MaxResults
    ensures NonIncreasing(TopMatches(candidates))
    ensures forall c, t :: c in candidates && c !in TopMatches(candidates) && t in TopMatches(candidates) ==> c.count <= t.count
  {
    var sorted := SortBy(candidates, NegCount);
    SortByOrders(candidates, NegCount);
    SortByLength(candidates, NegCount);
    var top := TopMatches(candidates);
    assert forall k :: 0 <= k < |top| ==> top[k] == sorted[k];
    forall c, t | c in candidates && c !in top && t in top ensures c.count <= t.count {
      assert c in multiset(sorted);
      var i :| 0 <= i < |sorted| && sorted[i] == c;
      var j :| 0 <= j < |top| && top[j] == t;
      assert NegCount(sorted[j]) <= NegCount(sorted[i]);
    }
  }

  /**
   * `sorted(match_candidates, key=count, reverse=True)[:3]`: at most three
   * of the candidates, each kept at most as often as it occurs, best first,
   * ties in candidate order, and none left out beats one kept.
   */
  lemma TopMatchesBest(candidates: seq<Candidate>)
    ensures |TopMatches(candidates)| <= MaxResults
    ensures |TopMatches(candidates)| == if |candidates| < MaxResults then |candidates| else MaxResults
    ensures NonIncreasing(TopMatches(candidates))
    ensures forall t :: t in TopMatches(candidates) ==> t in candidates
    ensures forall c, t :: c in candidates && c !in TopMatches(candidates) && t in TopMatches(candidates) ==> c.count <= t.count
    ensures multiset(TopMatches(candidates)) <= multiset(candidates)
    ensures forall k :: WithKey(TopMatches(candidates), NegCount, k) <= WithKey(candidates, NegCount, k)
  {
    TopMatchesRanked(candidates);
    TopMatchesSelect(candidates);
    forall t | t in TopMatches(candidates) ensures t in candidates {
      assert t in multiset(TopMatches(candidates));
    }
  }

  /**
   * The gate keeps top candidates in their order: each result is a top
   * candidate that passes the threshold, with the common denominator total.
   */
  lemma {:induction false} GateMembers(top: seq<Candidate>, total: Positive, threshold: Threshold)
    ensures |Gate(top, total, threshold)| <= |top|
    ensures forall m :: m in Gate(top, total, threshold) ==>
              Candidate(m.song, m.delta, m.count) in top && m.total == total && Passes(m.count, total, threshold)
  {
    if top != [] {
      var init, c := top[..|top| - 1], top[|top| - 1];
      GateMembers(init, total, threshold);
      assert top == init + [c];
    }
  }

  lemma {:induction false} GateOrdered(top: seq<Candidate>, total: Positive, threshold: Threshold)
    requires NonIncreasing(top)
    ensures forall i, j :: 0 <= i < j < |Gate(top, total, threshold)| ==>
              Gate(top, total, threshold)[i].count >= Gate(top, total, threshold)[j].count
  {
    if top != [] {
      var init, c := top[..|top| - 1], top[|top| - 1];
      assert NonIncreasing(init);
      GateOrdered(init, total, threshold);
      GateMembers(init, total, threshold);
      var earlier := Gate(init, total, threshold);
      // every earlier match is a candidate before c, so it has at least c's votes
      forall m | m in earlier ensures m.count >= c.count {
        var k :| 0 <= k < |init| && init[k] == Candidate(m.song, m.delta, m.count);
        assert top[k] == init[k];
      }
      if Passes(c.count, total, threshold) {
        var g := earlier + [Match(c.song, c.delta, c.count, total)];
        forall i, j | 0 <= i < j < |g| ensures g[i].count >= g[j].count {
          if j == |g| - 1 {
            assert g[i] in earlier;
          }
        }
      }
    }
  }

  /** The gate works candidate by candidate: gating a concatenation gates each part. */
  lemma {:induction false} GateAppend(a: seq<Candidate>, b: seq<Candidate>, total: Positive, threshold: Threshold)
    ensures Gate(a + b, total, threshold) == Gate(a, total, threshold) + Gate(b, total, threshold)
    decreases |b|
  {
    if b == [] {
      assert a + b == a;
    } else {
      var init := b[..|b| - 1];
      GateAppend(a, init, total, threshold);
      assert (a + b)[..|a + b| - 1] == a + init;
    }
  }

  /** A single candidate is kept, once, exactly when it passes. */
  lemma GateSingle(c: Candidate, total: Positive, threshold: Threshold)
    ensures Gate([c], total, threshold)
         == if Passes(c.count, total, threshold) then [Match(c.song, c.delta, c.count, total)] else []
  {
    assert [c][..0] == [];
  }

  function CandidateOfMatch(m: Match): Candidate
  {
    Candidate(m.song, m.delta, m.count)
  }

  /** Matches i and j of g come from places p < q of the top list. */
  predicate FromEarlier(top: seq<Candidate>, g: seq<Match>, i: int, j: int)
    requires 0 <= i < |g| && 0 <= j < |g|
  {
    exists p, q :: 0 <= p < q < |top| && top[p] == CandidateOfMatch(g[i]) && top[q] == CandidateOfMatch(g[j])
  }

  /**
   * The places in the top list of two kept matches: the earlier match comes
   * from the earlier place.
   */
  lemma {:induction false} GatePlaces(top: seq<Candidate>, total: Positive, threshold: Threshold, i: nat, j: nat)
    returns (p: nat, q: nat)
    requires i < j < |Gate(top, total, threshold)|
    ensures p < q < |top|
    ensures top[p] == CandidateOfMatch(Gate(top, total, threshold)[i])
    ensures top[q] == CandidateOfMatch(Gate(top, total, threshold)[j])
  {
    var init, c := top[..|top| - 1], top[|top| - 1];
    var earlier, g := Gate(init, total, threshold), Gate(top, total, threshold);
    assert g == earlier || g == earlier + [Match(c.song, c.delta, c.count, total)];
    assert g[i] == earlier[i];
    if j < |earlier| {
      assert g[j] == earlier[j];
      p, q := GatePlaces(init, total, threshold, i, j);
    } else {
      GateMembers(init, total, threshold);
      assert earlier[i] in earlier;
      var k :| 0 <= k < |init| && init[k] == CandidateOfMatch(earlier[i]);
      p, q := k, |top| - 1;
    }
  }

  /**
   * The gate keeps the top list's order: of two kept matches, the earlier
   * comes from an earlier place in the top list.
   */
  lemma GateInOrder(top: seq<Candidate>, total: Positive, threshold: Threshold)
    ensures forall i, j :: 0 <= i < j < |Gate(top, total, threshold)| ==> FromEarlier(top, Gate(top, total, threshold), i, j)
  {
    forall i, j | 0 <= i < j < |Gate(top, total, threshold)|
      ensures FromEarlier(top, Gate(top, total, threshold), i, j)
    {
      var p, q := GatePlaces(top, total, threshold, i, j);
    }
  }

  lemma {:induction false} GateEmpty(top: seq<Candidate>, total: Positive, threshold: Threshold)
    ensures Gate(top, total, threshold) == [] <==> forall c :: c in top ==> !Passes(c.count, total, threshold)
  {
    if top != [] {
      var init, c := top[..|top| - 1], top[|top| - 1];
      GateEmpty(init, total, threshold);
      assert top == init + [c];
    }
  }

  /** Every top candidate that clears the threshold is kept by the gate. */
  lemma {:induction false} GateComplete(top: seq<Candidate>, total: Positive, threshold: Threshold)
    ensures forall c :: c in top && Passes(c.count, total, threshold) ==>
              Match(c.song, c.delta, c.count, total) in Gate(top, total, threshold)
  {
    if top != [] {
      var init, last := top[..|top| - 1], top[|top| - 1];
      GateComplete(init, total, threshold);
      forall c | c in top && Passes(c.count, total, threshold)
        ensures Match(c.song, c.delta, c.count, total) in Gate(top, total, threshold)
      {
        if c != last {
          var k :| 0 <= k < |top| && top[k] == c;
          assert c in init by { assert init[k] == c; }
        }
      }
    }
  }

  /**
   * The gate keeps exactly the top candidates that clear the threshold, keeps
   * their vote order, and is empty exactly when none clears it.
   */
  lemma GateKeeps(top: seq<Candidate>, total: Positive, threshold: Threshold)
    ensures |Gate(top, total, threshold)| <= |top|
    ensures forall m :: m in Gate(top, total, threshold) ==>
              Candidate(m.song, m.delta, m.count) in top && m.total == total && Passes(m.count, total, threshold)
    ensures NonIncreasing(top) ==>
              forall i, j :: 0 <= i < j < |Gate(top, total, threshold)| ==>
                Gate(top, total, threshold)[i].count >= Gate(top, total, threshold)[j].count
    ensures forall c :: c in top && Passes(c.count, total, threshold) ==>
              Match(c.song, c.delta, c.count, total) in Gate(top, total, threshold)
    ensures forall i, j :: 0 <= i < j < |Gate(top, total, threshold)| ==> FromEarlier(top, Gate(top, total, threshold), i, j)
    ensures Gate(top, total, threshold) == [] <==> forall c :: c in top ==> !Passes(c.count, total, threshold)
  {
    GateMembers(top, total, threshold);
    GateComplete(top, total, threshold);
    GateInOrder(top, total, threshold);
    if NonIncreasing(top) {
      GateOrdered(top, total, threshold);
    }
    GateEmpty(top, total, threshold);
  }

  /**
   * The result is None exactly when no top candidate clears the gate, never
   * an empty list; otherwise one to three matches in non-increasing vote
   * order, each clearing the gate with a denominator of at least one.
   */
  lemma MatchResultShape(query: seq<Fingerprint>, rows: seq<Row>, threshold: Threshold)
    ensures NonEmptyCounters(TallyVotes(Ballots(Filtered(rows), query)))
    ensures var top := TopMatches(Candidates(TallyVotes(Ballots(Filtered(rows), query))));
            MatchResult(query, rows, threshold).None? <==> forall c :: c in top ==> !Passes(c.count, Total(rows), threshold)
    ensures var top := TopMatches(Candidates(TallyVotes(Ballots(Filtered(rows), query))));
            MatchResult(query, rows, threshold).Some? ==>
              var r := MatchResult(query, rows, threshold).value;
              1 <= |r| <= MaxResults
              && (forall i, j :: 0 <= i < j < |r| ==> r[i].count >= r[j].count)
              && (forall m :: m in r ==> m.total >= 1 && m.total == Total(rows) && Passes(m.count, m.total, threshold))
              && (forall m :: m in r ==> Candidate(m.song, m.delta, m.count) in top)
              && (forall c :: c in top && Passes(c.count, Total(rows), threshold) ==>
                   Match(c.song, c.delta, c.count, Total(rows)) in r)
              && (forall i, j :: 0 <= i < j < |r| ==> FromEarlier(top, r, i, j))
              && forall i, j :: 0 <= i < j < |r| ==> r[i].song != r[j].song
  {
    var ballots := Ballots(Filtered(rows), query);
    TallyCounts(ballots);
    GoodVotesNonEmpty(TallyVotes(ballots));
    var candidates := Candidates(TallyVotes(ballots));
    TopMatchesBest(candidates);
    var top := TopMatches(candidates);
    GateKeeps(top, Total(rows), threshold);
    forall i, j | 0 <= i < j < |candidates| ensures candidates[i].song != candidates[j].song {
      CandidatesDistinct(ballots, i, j);
    }
    TopMatchesDistinct(candidates);
    var g := Gate(top, Total(rows), threshold);
    forall i, j | 0 <= i < j < |g| ensures g[i].song != g[j].song {
      assert FromEarlier(top, g, i, j);
      var p, q :| 0 <= p < q < |top| && top[p] == CandidateOfMatch(g[i]) && top[q] == CandidateOfMatch(g[j]);
    }
  }

  /**
   * Each match names a song and a non-negative delta whose vote count is the
   * number of hash-sharing (row, query record) pairs at that offset, and no
   * other delta of that song has more.
   */
  lemma MatchResultVotes(query: seq<Fingerprint>, rows: seq<Row>, threshold: Threshold, m: Match)
    requires MatchResult(query, rows, threshold).Some? && m in MatchResult(query, rows, threshold).value
    ensures m.count >= 1 && m.delta >= 0
    ensures m.count == PairVotes(Filtered(rows), query, m.song, m.delta)
    ensures forall d :: d >= 0 ==> PairVotes(Filtered(rows), query, m.song, d) <= m.count
  {
    var ballots := Ballots(Filtered(rows), query);
    TallyCounts(ballots);
    GoodVotesNonEmpty(TallyVotes(ballots));
    var candidates := Candidates(TallyVotes(ballots));
    TopMatchesBest(candidates);
    GateKeeps(TopMatches(candidates), Total(rows), threshold);
    var c := Candidate(m.song, m.delta, m.count);
    assert c in candidates;
    var k :| 0 <= k < |candidates| && candidates[k] == c;
    CandidateMaximal(ballots, k);
    assert Ballot(m.song, m.delta) in multiset(ballots);
    BallotsNonNegative(Filtered(rows), query);
    BallotsCount(Filtered(rows), query, m.song, m.delta);
    forall d | d >= 0 ensures PairVotes(Filtered(rows), query, m.song, d) <= m.count {
      BallotsCount(Filtered(rows), query, m.song, d);
    }
  }

  lemma {:induction false} RowCountMember(rows: seq<Row>, k: nat)
    requires k < |rows|
    ensures RowCount(rows, rows[k].hash) >= 1
  {
    if k > 0 {
      RowCountMember(rows[1..], k - 1);
    }
  }

  /**
   * With ten rows or fewer from the store every hash is common (its count is
   * at least 1 >= 10% of the rows), so nothing survives the filter and the
   * result is None.
   */
  lemma FewRowsMatchNothing(query: seq<Fingerprint>, rows: seq<Row>, threshold: Threshold)
    requires |rows| <= 10
    ensures Filtered(rows) == []
    ensures MatchResult(query, rows, threshold) == None
  {
    FilteredMembers(rows);
    if Filtered(rows) != [] {
      var r := Filtered(rows)[0];
      var k :| 0 <= k < |rows| && rows[k] == r;
      RowCountMember(rows, k);
      assert false;
    }
    assert Ballots(Filtered(rows), query) == [];
    assert TopMatches(Candidates(TallyVotes([]))) == [];
  }

  /**
   * Under the default threshold every top candidate passes, so the result is
   * None exactly when the filtered rows cast no vote at all.
   */
  lemma DefaultThresholdMatches(query: seq<Fingerprint>, rows: seq<Row>)
    ensures MatchResult(query, rows, DefaultThreshold).None? <==> Ballots(Filtered(rows), query) == []
  {
    var ballots := Ballots(Filtered(rows), query);
    MatchResultShape(query, rows, DefaultThreshold);
    TallyCounts(ballots);
    GoodVotesNonEmpty(TallyVotes(ballots));
    var candidates := Candidates(TallyVotes(ballots));
    TopMatchesBest(candidates);
    var top := TopMatches(candidates);
    if ballots != [] {
      var k := BallotHasCandidate(ballots, ballots[0]);
      assert top[0] in top;
      assert Passes(top[0].count, Total(rows), DefaultThreshold);
    }
  }
}
