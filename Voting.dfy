/**
 * The vote counting of `match_fingerprints_from_db`: the query times grouped
 * by hash, the filter that drops hashes too common among the returned rows,
 * the ballots (song, db_offset - t) cast by the remaining rows, and the
 * insertion-ordered counters (`defaultdict(Counter)`) that tally them.
 */
module Voting {
  import opened Fingerprinting

  /** One row of the fingerprint-table query: (hash, stored anchor time, song id). */
  datatype Row = Row(hash: nat, offset: nat, song: nat)

  /** One vote: a song and an alignment offset db_offset - t. */
  datatype Ballot = Ballot(song: nat, delta: int)

  /** One entry of a song's Counter: a delta and its vote count. */
  datatype Tally = Tally(delta: int, count: nat)

  /** One entry of the votes dictionary: a song and its Counter, in insertion order. */
  datatype SongVotes = SongVotes(song: nat, counter: seq<Tally>)

  // ---------------------------------------------------------------------------
  // hash_values: the query times of each hash, in query order

  function TimesOf(query: seq<Fingerprint>, h: nat): seq<nat>
  {
    if query == [] then []
    else
      var last := query[|query| - 1];
      TimesOf(query[..|query| - 1], h) + (if last.hash == h then [last.time] else [])
  }

  /** A read of the defaultdict: a missing hash reads as the empty list. */
  function Lookup(m: map<nat, seq<nat>>, h: nat): seq<nat>
  {
    if h in m then m[h] else []
  }

  function Hashes(query: seq<Fingerprint>): set<nat>
  {
    set f | f in query :: f.hash
  }

  /** The loop that fills hash_values. */
  method GroupQueryTimes(query: seq<Fingerprint>) returns (hashValues: map<nat, seq<nat>>)
    ensures forall h :: Lookup(hashValues, h) == TimesOf(query, h)
    ensures hashValues.Keys == Hashes(query)
  {
    hashValues := map[];
    for i := 0 to |query|
      invariant forall h :: Lookup(hashValues, h) == TimesOf(query[..i], h)
      invariant hashValues.Keys == Hashes(query[..i])
    {
      var h, t := query[i].hash, query[i].time;
      hashValues := hashValues[h := Lookup(hashValues, h) + [t]];
      assert query[..i + 1][..i] == query[..i];
      assert query[..i + 1] == query[..i] + [query[i]];
    }
    assert query[..|query|] == query;
  }

  // ---------------------------------------------------------------------------
  // The common-hash filter: a hash with at least 10% of all rows is dropped

  function RowCount(rows: seq<Row>, h: nat): nat
  {
    if rows == [] then 0 else (if rows[0].hash == h then 1 else 0) + RowCount(rows[1..], h)
  }

  /** `hash_counter[h] >= len(query_output) * 0.10`, stated exactly. */
  predicate Common(rows: seq<Row>, h: nat)
  {
    10 * RowCount(rows, h) >= |rows|
  }

  function KeepRare(s: seq<Row>, rows: seq<Row>): seq<Row>
  {
    if s == [] then []
    else (if Common(rows, s[0].hash) then [] else [s[0]]) + KeepRare(s[1..], rows)
  }

  /** `filtered_hashes` */
  function Filtered(rows: seq<Row>): seq<Row>
  {
    KeepRare(rows, rows)
  }

  lemma {:induction false} KeepRareMembers(s: seq<Row>, rows: seq<Row>)
    ensures forall r :: r in KeepRare(s, rows) <==> r in s && !Common(rows, r.hash)
    ensures |KeepRare(s, rows)| <= |s|
  {
    if s != [] {
      KeepRareMembers(s[1..], rows);
      assert s == [s[0]] + s[1..];
    }
  }

  /** A row survives the filter exactly when its hash is not common. */
  lemma FilteredMembers(rows: seq<Row>)
    ensures forall r :: r in Filtered(rows) <==> r in rows && !Common(rows, r.hash)
    ensures |Filtered(rows)| <= |rows|
  {
    KeepRareMembers(rows, rows);
  }

  /** Filtering a concatenation filters each part and keeps them in order. */
  lemma {:induction false} KeepRareAppend(a: seq<Row>, b: seq<Row>, rows: seq<Row>)
    ensures KeepRare(a + b, rows) == KeepRare(a, rows) + KeepRare(b, rows)
  {
    if a != [] {
      KeepRareAppend(a[1..], b, rows);
      assert (a + b)[1..] == a[1..] + b;
    } else {
      assert a + b == b;
    }
  }

  /** Each row keeps its multiplicity when its hash is rare and loses it all otherwise. */
  lemma {:induction false} KeepRareCounts(s: seq<Row>, rows: seq<Row>)
    ensures forall r :: multiset(KeepRare(s, rows))[r] == if Common(rows, r.hash) then 0 else multiset(s)[r]
  {
    if s != [] {
      KeepRareCounts(s[1..], rows);
      assert s == [s[0]] + s[1..];
    }
  }

  /**
   * The filter keeps the rows in their order: the rows of a prefix filter to
   * a prefix of the result, and every row of a rare hash keeps all its copies.
   */
  lemma FilteredInOrder(rows: seq<Row>)
    ensures forall n :: 0 <= n <= |rows| ==> KeepRare(rows[..n], rows) <= Filtered(rows)
    ensures forall r :: multiset(Filtered(rows))[r] == if Common(rows, r.hash) then 0 else multiset(rows)[r]
  {
    forall n | 0 <= n <= |rows|
      ensures KeepRare(rows[..n], rows) <= Filtered(rows)
    {
      KeepRareAppend(rows[..n], rows[n..], rows);
      assert rows[..n] + rows[n..] == rows;
    }
    KeepRareCounts(rows, rows);
  }

  // ---------------------------------------------------------------------------
  // Ballots, in the order the voting loops cast them

  /** The inner loop for one row: a vote per query time, unless the offset is negative. */
  function RowBallots(row: Row, times: seq<nat>): seq<Ballot>
  {
    if times == [] then []
    else
      var delta := row.offset - times[|times| - 1];
      RowBallots(row, times[..|times| - 1]) + (if delta < 0 then [] else [Ballot(row.song, delta)])
  }

  function Ballots(rows: seq<Row>, query: seq<Fingerprint>): seq<Ballot>
  {
    if rows == [] then []
    else
      var row := rows[|rows| - 1];
      Ballots(rows[..|rows| - 1], query) + RowBallots(row, TimesOf(query, row.hash))
  }

  /**
   * An independent count of the votes for (s, d): the query records that
   * share a hash with a row of song s whose offset exceeds the record's time
   * by d.
   */
  function QueryHits(query: seq<Fingerprint>, row: Row, d: int): nat
  {
    if query == [] then 0
    else
      var last := query[|query| - 1];
      QueryHits(query[..|query| - 1], row, d)
        + (if last.hash == row.hash && row.offset - last.time == d then 1 else 0)
  }

  function PairVotes(rows: seq<Row>, query: seq<Fingerprint>, s: nat, d: int): nat
  {
    if rows == [] then 0
    else
      var row := rows[|rows| - 1];
      PairVotes(rows[..|rows| - 1], query, s, d) + (if row.song == s then QueryHits(query, row, d) else 0)
  }

  lemma {:induction false} RowBallotsNonNegative(row: Row, times: seq<nat>)
    ensures forall b :: b in RowBallots(row, times) ==> b.delta >= 0 && b.song == row.song
  {
    if times != [] {
      RowBallotsNonNegative(row, times[..|times| - 1]);
    }
  }

  /** No vote is ever cast for a negative offset. */
  lemma {:induction false} BallotsNonNegative(rows: seq<Row>, query: seq<Fingerprint>)
    ensures forall b :: b in Ballots(rows, query) ==> b.delta >= 0
  {
    if rows != [] {
      BallotsNonNegative(rows[..|rows| - 1], query);
      RowBallotsNonNegative(rows[|rows| - 1], TimesOf(query, rows[|rows| - 1].hash));
    }
  }

  lemma {:induction false} RowBallotsAppend(row: Row, a: seq<nat>, b: seq<nat>)
    ensures RowBallots(row, a + b) == RowBallots(row, a) + RowBallots(row, b)
  {
    if b == [] {
      assert a + b == a;
    } else {
      RowBallotsAppend(row, a, b[..|b| - 1]);
      assert (a + b)[..|a + b| - 1] == a + b[..|b| - 1];
    }
  }

  lemma QueryHitsLast(query: seq<Fingerprint>, row: Row, d: int)
    requires query != []
    ensures QueryHits(query, row, d) == QueryHits(query[..|query| - 1], row, d)
              + (if query[|query| - 1].hash == row.hash && row.offset - query[|query| - 1].time == d then 1 else 0)
  {
  }

  lemma CountAppend<T>(a: seq<T>, b: seq<T>, x: T)
    ensures multiset(a + b)[x] == multiset(a)[x] + multiset(b)[x]
  {
    assert multiset(a + b) == multiset(a) + multiset(b);
  }

  /** The ballots one query record adds to a row: its vote for (s, d) is counted once or not at all. */
  lemma RecordBallotCount(row: Row, last: Fingerprint, s: nat, d: int)
    requires d >= 0
    ensures multiset(RowBallots(row, if last.hash == row.hash then [last.time] else []))[Ballot(s, d)]
         == if row.song == s && last.hash == row.hash && row.offset - last.time == d then 1 else 0
  {
    if last.hash == row.hash {
      var tail := [last.time];
      assert tail[..0] == [];
      assert RowBallots(row, tail) == (if row.offset - last.time < 0 then [] else [Ballot(row.song, row.offset - last.time)]);
    }
  }

  lemma {:induction false} RowBallotsCount(row: Row, query: seq<Fingerprint>, s: nat, d: int)
    requires d >= 0
    ensures multiset(RowBallots(row, TimesOf(query, row.hash)))[Ballot(s, d)]
         == if row.song == s then QueryHits(query, row, d) else 0
  {
    if query != [] {
      var init, last := query[..|query| - 1], query[|query| - 1];
      QueryHitsLast(query, row, d);
      RowBallotsCount(row, init, s, d);
      var tail := if last.hash == row.hash then [last.time] else [];
      assert TimesOf(query, row.hash) == TimesOf(init, row.hash) + tail;
      RowBallotsAppend(row, TimesOf(init, row.hash), tail);
      RecordBallotCount(row, last, s, d);
      var earlier, extra := RowBallots(row, TimesOf(init, row.hash)), RowBallots(row, tail);
      assert RowBallots(row, TimesOf(query, row.hash)) == earlier + extra;
      CountAppend(earlier, extra, Ballot(s, d));
    }
  }

  /** The ballots for (s, d), d >= 0, are exactly the hash-sharing pairs of song s at offset d. */
  lemma {:induction false} BallotsCount(rows: seq<Row>, query: seq<Fingerprint>, s: nat, d: int)
    requires d >= 0
    ensures multiset(Ballots(rows, query))[Ballot(s, d)] == PairVotes(rows, query, s, d)
  {
    if rows != [] {
      BallotsCount(rows[..|rows| - 1], query, s, d);
      RowBallotsCount(rows[|rows| - 1], query, s, d);
    }
  }

  lemma {:induction false} BallotsDependOnTimes(rows: seq<Row>, query: seq<Fingerprint>, query': seq<Fingerprint>)
    requires forall r :: r in rows ==> TimesOf(query, r.hash) == TimesOf(query', r.hash)
    ensures Ballots(rows, query) == Ballots(rows, query')
  {
    if rows != [] {
      assert rows[|rows| - 1] in rows;
      assert forall r :: r in rows[..|rows| - 1] ==> r in rows;
      BallotsDependOnTimes(rows[..|rows| - 1], query, query');
    }
  }

  /**
   * A common hash casts no votes: whatever the query holds for that hash, the
   * ballots are the same.
   */
  lemma CommonHashCastsNoVotes(rows: seq<Row>, query: seq<Fingerprint>, query': seq<Fingerprint>, h: nat)
    requires Common(rows, h)
    requires forall g :: g != h ==> TimesOf(query, g) == TimesOf(query', g)
    ensures Ballots(Filtered(rows), query) == Ballots(Filtered(rows), query')
  {
    FilteredMembers(rows);
    BallotsDependOnTimes(Filtered(rows), query, query');
  }

  // ---------------------------------------------------------------------------
  // Counters in insertion order: `votes[song][delta] += 1`

  /** `counter[d] += 1`: an existing key is incremented in place, a new key is appended. */
  function Bump(c: seq<Tally>, d: int): seq<Tally>
  {
    if c == [] then [Tally(d, 1)]
    else if c[0].delta == d then [Tally(d, c[0].count + 1)] + c[1..]
    else [c[0]] + Bump(c[1..], d)
  }

  /** `counter[d]`: zero for a missing key. */
  function CountIn(c: seq<Tally>, d: int): nat
  {
    if c == [] then 0 else if c[0].delta == d then c[0].count else CountIn(c[1..], d)
  }

  function Deltas(c: seq<Tally>): set<int>
  {
    if c == [] then {} else {c[0].delta} + Deltas(c[1..])
  }

  /** A Counter as voting builds it: distinct keys, every count at least one. */
  predicate GoodCounter(c: seq<Tally>)
  {
    c == [] || (c[0].count >= 1 && c[0].delta !in Deltas(c[1..]) && GoodCounter(c[1..]))
  }

  /** `votes[b.song][b.delta] += 1` on the defaultdict of Counters. */
  function Vote(votes: seq<SongVotes>, b: Ballot): seq<SongVotes>
  {
    if votes == [] then [SongVotes(b.song, [Tally(b.delta, 1)])]
    else if votes[0].song == b.song then [SongVotes(b.song, Bump(votes[0].counter, b.delta))] + votes[1..]
    else [votes[0]] + Vote(votes[1..], b)
  }

  /** `votes[s][d]` */
  function VotesFor(votes: seq<SongVotes>, s: nat, d: int): nat
  {
    if votes == [] then 0 else if votes[0].song == s then CountIn(votes[0].counter, d) else VotesFor(votes[1..], s, d)
  }

  function Songs(votes: seq<SongVotes>): set<nat>
  {
    if votes == [] then {} else {votes[0].song} + Songs(votes[1..])
  }

  /** The votes dictionary as voting builds it: distinct songs, each with a non-empty good Counter. */
  predicate GoodVotes(votes: seq<SongVotes>)
  {
    votes == [] ||
    (votes[0].counter != [] && GoodCounter(votes[0].counter)
     && votes[0].song !in Songs(votes[1..]) && GoodVotes(votes[1..]))
  }

  /** The votes dictionary after casting the ballots in order. */
  function TallyVotes(ballots: seq<Ballot>): seq<SongVotes>
  {
    if ballots == [] then [] else Vote(TallyVotes(ballots[..|ballots| - 1]), ballots[|ballots| - 1])
  }

  lemma {:induction false} BumpCounts(c: seq<Tally>, d: int)
    ensures forall e :: CountIn(Bump(c, d), e) == CountIn(c, e) + (if e == d then 1 else 0)
    ensures Deltas(Bump(c, d)) == Deltas(c) + {d}
    ensures GoodCounter(c) ==> GoodCounter(Bump(c, d))
  {
    if c != [] && c[0].delta != d {
      BumpCounts(c[1..], d);
    }
    if c != [] && c[0].delta == d {
      assert Bump(c, d)[1..] == c[1..];
    }
  }

  lemma {:induction false} VoteCounts(votes: seq<SongVotes>, b: Ballot)
    ensures forall s, d :: VotesFor(Vote(votes, b), s, d) == VotesFor(votes, s, d) + (if Ballot(s, d) == b then 1 else 0)
    ensures Songs(Vote(votes, b)) == Songs(votes) + {b.song}
    ensures GoodVotes(votes) ==> GoodVotes(Vote(votes, b))
  {
    if votes == [] {
      var single := [Tally(b.delta, 1)];
      assert single[1..] == [];
      forall s, d ensures VotesFor(Vote(votes, b), s, d) == VotesFor(votes, s, d) + (if Ballot(s, d) == b then 1 else 0) {
        assert VotesFor(Vote(votes, b), s, d) == (if s == b.song then CountIn(single, d) else VotesFor([], s, d));
        assert CountIn(single, d) == if d == b.delta then 1 else CountIn([], d);
      }
    } else if votes[0].song == b.song {
      BumpCounts(votes[0].counter, b.delta);
      assert Vote(votes, b)[1..] == votes[1..];
    } else {
      VoteCounts(votes[1..], b);
      assert Vote(votes, b)[1..] == Vote(votes[1..], b);
    }
  }

  lemma {:induction false} TallyGood(ballots: seq<Ballot>)
    ensures GoodVotes(TallyVotes(ballots))
  {
    if ballots != [] {
      var init, last := ballots[..|ballots| - 1], ballots[|ballots| - 1];
      TallyGood(init);
      VoteCounts(TallyVotes(init), last);
    }
  }

  lemma {:induction false} TallyMultiplicity(ballots: seq<Ballot>)
    ensures forall s, d :: VotesFor(TallyVotes(ballots), s, d) == multiset(ballots)[Ballot(s, d)]
  {
    if ballots != [] {
      var init, last := ballots[..|ballots| - 1], ballots[|ballots| - 1];
      TallyMultiplicity(init);
      VoteCounts(TallyVotes(init), last);
      assert ballots == init + [last];
      assert multiset(ballots) == multiset(init) + multiset{last};
      forall s, d ensures VotesFor(TallyVotes(ballots), s, d) == multiset(ballots)[Ballot(s, d)] {
        assert VotesFor(TallyVotes(ballots), s, d)
            == VotesFor(TallyVotes(init), s, d) + (if Ballot(s, d) == last then 1 else 0);
      }
    }
  }

  lemma {:induction false} TallySongs(ballots: seq<Ballot>)
    ensures Songs(TallyVotes(ballots)) == set b | b in ballots :: b.song
  {
    if ballots != [] {
      var init, last := ballots[..|ballots| - 1], ballots[|ballots| - 1];
      TallySongs(init);
      VoteCounts(TallyVotes(init), last);
      assert ballots == init + [last];
      assert (set b | b in ballots :: b.song) == (set b | b in init :: b.song) + {last.song};
    }
  }

  /**
   * After the voting loops the dictionary is well formed, counts every ballot
   * of each (song, delta), and holds exactly the songs that received a vote.
   */
  lemma TallyCounts(ballots: seq<Ballot>)
    ensures GoodVotes(TallyVotes(ballots))
    ensures forall s, d :: VotesFor(TallyVotes(ballots), s, d) == multiset(ballots)[Ballot(s, d)]
    ensures Songs(TallyVotes(ballots)) == set b | b in ballots :: b.song
  {
    TallyGood(ballots);
    TallyMultiplicity(ballots);
    TallySongs(ballots);
  }

  // ---------------------------------------------------------------------------
  // Insertion order: a Counter and the votes dictionary list their keys in the
  // order of their first vote

  /** The distinct elements of xs in the order of their first occurrence. */
  function Firsts<T(==)>(xs: seq<T>): seq<T>
  {
    if xs == [] then []
    else
      var init, last := xs[..|xs| - 1], xs[|xs| - 1];
      Firsts(init) + (if last in init then [] else [last])
  }

  /** The songs of the ballots, in casting order. */
  function BallotSongs(ballots: seq<Ballot>): seq<nat>
  {
    if ballots == [] then []
    else BallotSongs(ballots[..|ballots| - 1]) + [ballots[|ballots| - 1].song]
  }

  /** The deltas of the ballots for song s, in casting order. */
  function SongDeltas(ballots: seq<Ballot>, s: nat): seq<int>
  {
    if ballots == [] then []
    else
      var last := ballots[|ballots| - 1];
      SongDeltas(ballots[..|ballots| - 1], s) + (if last.song == s then [last.delta] else [])
  }

  /** The keys of a Counter in iteration order. */
  function DeltaKeys(c: seq<Tally>): seq<int>
  {
    seq(|c|, k requires 0 <= k < |c| => c[k].delta)
  }

  /** The keys of the votes dictionary in iteration order. */
  function SongKeys(votes: seq<SongVotes>): seq<nat>
  {
    seq(|votes|, k requires 0 <= k < |votes| => votes[k].song)
  }

  /** `votes[s]` as a read that does not insert: the empty Counter for a missing song. */
  function CounterOf(votes: seq<SongVotes>, s: nat): seq<Tally>
  {
    if votes == [] then [] else if votes[0].song == s then votes[0].counter else CounterOf(votes[1..], s)
  }

  /**
   * `counter[d] += 1` appends a new key at the end and leaves the key order
   * alone for a key already present.
   */
  lemma {:induction false} BumpOrder(c: seq<Tally>, d: int)
    ensures d !in Deltas(c) ==> Bump(c, d) == c + [Tally(d, 1)]
    ensures d in Deltas(c) ==> |Bump(c, d)| == |c| && forall k :: 0 <= k < |c| ==> Bump(c, d)[k].delta == c[k].delta
  {
    if c != [] && c[0].delta != d {
      BumpOrder(c[1..], d);
      assert c == [c[0]] + c[1..];
    }
  }

  /**
   * `votes[song][delta] += 1` appends a new song at the end, with a Counter
   * holding that one vote, and leaves the song order alone otherwise.
   */
  lemma {:induction false} VoteOrder(votes: seq<SongVotes>, b: Ballot)
    ensures b.song !in Songs(votes) ==> Vote(votes, b) == votes + [SongVotes(b.song, [Tally(b.delta, 1)])]
    ensures b.song in Songs(votes) ==>
              |Vote(votes, b)| == |votes| && forall k :: 0 <= k < |votes| ==> Vote(votes, b)[k].song == votes[k].song
  {
    if votes != [] && votes[0].song != b.song {
      VoteOrder(votes[1..], b);
      assert votes == [votes[0]] + votes[1..];
    }
  }

  lemma {:induction false} FirstsMembers<T>(xs: seq<T>)
    ensures forall x :: x in Firsts(xs) <==> x in xs
  {
    if xs != [] {
      var init := xs[..|xs| - 1];
      FirstsMembers(init);
      assert xs == init + [xs[|xs| - 1]];
    }
  }

  lemma {:induction false} DeltaKeysMembers(c: seq<Tally>)
    ensures forall d :: d in DeltaKeys(c) <==> d in Deltas(c)
  {
    if c != [] {
      DeltaKeysMembers(c[1..]);
      assert DeltaKeys(c) == [c[0].delta] + DeltaKeys(c[1..]);
    }
  }

  lemma {:induction false} SongKeysMembers(votes: seq<SongVotes>)
    ensures forall s :: s in SongKeys(votes) <==> s in Songs(votes)
  {
    if votes != [] {
      SongKeysMembers(votes[1..]);
      assert SongKeys(votes) == [votes[0].song] + SongKeys(votes[1..]);
    }
  }

  /** The vote for b changes only the Counter of b's song, by `counter[b.delta] += 1`. */
  lemma {:induction false} CounterOfVote(votes: seq<SongVotes>, b: Ballot, s: nat)
    ensures CounterOf(Vote(votes, b), s) == if b.song == s then Bump(CounterOf(votes, s), b.delta) else CounterOf(votes, s)
  {
    if votes != [] && votes[0].song != b.song {
      CounterOfVote(votes[1..], b, s);
      assert Vote(votes, b)[1..] == Vote(votes[1..], b);
    }
  }

  /** The votes dictionary lists the songs in the order of their first ballot. */
  lemma {:induction false} TallySongOrder(ballots: seq<Ballot>)
    ensures SongKeys(TallyVotes(ballots)) == Firsts(BallotSongs(ballots))
  {
    if ballots != [] {
      var init, last := ballots[..|ballots| - 1], ballots[|ballots| - 1];
      var votes := TallyVotes(init);
      TallySongOrder(init);
      VoteOrder(votes, last);
      SongKeysMembers(votes);
      FirstsMembers(BallotSongs(init));
      assert BallotSongs(ballots)[..|BallotSongs(ballots)| - 1] == BallotSongs(init);
      if last.song !in Songs(votes) {
        assert SongKeys(Vote(votes, last)) == SongKeys(votes) + [last.song];
      } else {
        assert SongKeys(Vote(votes, last)) == SongKeys(votes);
      }
    }
  }

  /** Each song's Counter lists the deltas in the order of their first ballot. */
  lemma {:induction false} TallyDeltaOrder(ballots: seq<Ballot>, s: nat)
    ensures DeltaKeys(CounterOf(TallyVotes(ballots), s)) == Firsts(SongDeltas(ballots, s))
  {
    if ballots != [] {
      var init, last := ballots[..|ballots| - 1], ballots[|ballots| - 1];
      var c := CounterOf(TallyVotes(init), s);
      TallyDeltaOrder(init, s);
      CounterOfVote(TallyVotes(init), last, s);
      if last.song == s {
        BumpOrder(c, last.delta);
        DeltaKeysMembers(c);
        FirstsMembers(SongDeltas(init, s));
        var deltas := SongDeltas(ballots, s);
        assert deltas[..|deltas| - 1] == SongDeltas(init, s);
        if last.delta !in Deltas(c) {
          assert DeltaKeys(Bump(c, last.delta)) == DeltaKeys(c) + [last.delta];
        } else {
          assert DeltaKeys(Bump(c, last.delta)) == DeltaKeys(c);
        }
      } else {
        var x, y := SongDeltas(ballots, s), SongDeltas(init, s);
        assert x == y;
        assert Firsts(x) == Firsts(y);
      }
    }
  }
}
