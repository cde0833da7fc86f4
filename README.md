# Music Wizard fingerprinting core, modelled in Dafny

Music Wizard identifies songs from short recordings by their audio
fingerprints. A song's spectrogram peaks are paired into *landmarks*. Each
landmark is (anchor frequency, partner frequency, time gap), packed into one
integer hash and stored with the anchor's frame index. A recording is matched
in three steps:

1. Look up its hashes in the fingerprint table and drop the common hashes.
2. Let every shared hash vote for a (song, offset) pair.
3. Keep the best-voted songs whose confidence clears a threshold.

This model covers four parts:

- the hash packing and unpacking;
- `create_fingerprint`, the landmark pairing;
- `match_fingerprints_from_db`, the vote and selection stage;
- `/add-song`, which extracts the video id from a YouTube URL and walks a
  chain of checks before ingesting a new song.

Modules, one file each:

- `Bits`: Python's `<<`, `>>`, `|` and `&` on non-negative integers, defined
  by bit recursion. It also holds the arithmetic facts the hash proofs use.
- `Hashing`: `generate_hash` and `decode_hash`. The packing is
  `(f1 << 18) | (f2 << 8) | dt`. The unpacking masks 10, 10 and 8 bits.
- `StableSort`: a stable insertion sort by an integer key. It stands for both
  `list.sort(key=...)` and `sorted(..., reverse=True)`. Python keeps equal
  elements in their original order in both, so descending order is the sort
  by the negated key.
- `Fingerprinting`: the anchor/partner loops of `create_fingerprint` as an
  imperative method. It is proved equal to a recursive specification, then
  sorted by anchor time. The specification collects each valid pair as an
  unhashed landmark and packs every landmark into its (hash, time) record
  afterwards; the method hashes inside the loop, as the code does.
- `Voting`: four pieces of the stage that casts votes:
  - the grouping of query times by hash;
  - the filter that drops common hashes;
  - the ballots the voting loops cast;
  - the `defaultdict(Counter)` of votes, as insertion-ordered association
    lists.
- `Matching`: candidate selection, the top three and the confidence gate,
  plus the imperative `match_fingerprints_from_db` that puts it all together.
- `SongApi`: the `v=([^&]+)` scan, the URL rebuild and the `add_song` guard
  chain over an abstract song store.

Modelling choices:

- **Integers.** Integers are `nat`, and frame deltas are `int`, all
  unbounded. In `create_fingerprint` the peaks come from `np.argwhere` as
  numpy 64-bit integers, so the time difference and the shifts of
  `generate_hash` are 64-bit operations until `int(...)` converts the record.
  No reachable value overflows: bins are at most 1024 and the default window
  keeps deltas at most 30, so every hash stays below 2²⁹.
- **Common-hash filter.** The test `hash_counter[h] < len(rows) * 0.10`
  appears as the exact `10 * count < n`. The double nearest 0.1 is
  0.1·(1 + 2⁻⁵⁴). When `n` is a multiple of 10, `n * 0.10` therefore rounds
  to exactly `n / 10`. The float test and the integer test agree for every
  row count a table can hold.
- **Counters.** `Counter` and `defaultdict` iterate in insertion order. Each
  is modelled as an association list whose new keys are appended.
  `most_common(1)` keeps the first entry with the largest count. So a tie
  between deltas goes to the delta voted first, and a tie between songs in
  the top three goes to the song voted first.
- **Confidence gate.** The confidence `count / max(1, len(filtered_hashes))`
  is compared with `CONFIDENCE_THRESHOLD`. Here the threshold is a fraction
  `num / den` with `den > 0`, and the comparison is the exact
  cross-multiplication `count * den >= num * total`. A match keeps its count
  and the denominator rather than the float quotient. Its offset stays in
  frames.

Notes on the code:

- **No runner-up margin.** The code does not compare the best match with the
  second best.
- **Confidence denominator.** The code divides by the number of filtered rows
  returned by the store, not by a per-song total.
- **Confidence bound.** The code does not keep the confidence below one.
- **Partner order.** Partners are the next `fan_value` peaks in the order
  `argwhere` yields them: by frequency bin first, not by time. A partner can
  therefore lie earlier than its anchor. The model takes peaks in any order.
  Such a pair has a negative delta and is dropped by the
  `min_time_delta <= delta` test.
- **Hash fields.** `n_fft = 2048` gives 1025 frequency bins, 0 to 1024. Only
  bins below 1024 fit the hash's 10-bit fields. The top bin 1024 spills into
  the anchor field, so `generate_hash(0, 1024, 1) == generate_hash(1, 0, 1)`
  (`Hashing.TopBinCollides`). That bin sits far above the 5000 Hz band-pass
  cut-off. The round trip is therefore stated for bins below 1024.
- **Tiny store result.** With ten store rows or fewer, every hash counts as
  common, so nothing can match (`Matching.FewRowsMatchNothing`).

## Model

| member | source | states |
|---|---|---|
| Hashing.GenerateHash | backend/wizard/wizard.py:233-255 | Definition: freq1 shifted left by 18 bits, OR freq2 shifted left by 8 bits, OR delta, with Python's shift and OR on non-negative integers. Its properties are the lemmas below. |
| Hashing.HashIsSum | backend/wizard/wizard.py:255 | With freq2 < 1024 and delta < 256, the OR of the shifted fields equals f1·2¹⁸ + f2·2⁸ + delta: the three fields do not overlap. |
| Hashing.RoundTrip | backend/wizard/wizard.py:255-274 | For f1, f2 < 1024 and delta < 256, decoding the generated hash returns (f1, f2, delta). |
| Hashing.Injective | backend/wizard/wizard.py:255 | On that domain, equal hashes come from equal (f1, f2, delta) triples. |
| Hashing.DecodeHash | backend/wizard/wizard.py:270-274 | For every hash value, the decoded frequencies are below 1024 and the decoded delta is below 256. |
| Hashing.DecodeSum | backend/wizard/wizard.py:270-274 | Decoding f1·2¹⁸ + f2·2⁸ + delta gives (f1 mod 1024, f2, delta): anchor bins of 1024 and above lose their high bits. |
| Hashing.TopBinCollides | backend/wizard/wizard.py:173-201 | With n_fft 2048 the top bin is 1024. Pairing it as partner with anchor 0 gives the same hash as anchor 1 with partner 0, and that hash decodes to (1, 0, 1). |
| Fingerprinting.Pairings | backend/wizard/wizard.py:296-327 | Definition: the records the two loops append, anchor by anchor and, per anchor, partner by partner. |
| Fingerprinting.Fingerprints | backend/wizard/wizard.py:296-330 | Definition: those records stably sorted by anchor time, which is what `create_fingerprint` returns. |
| Fingerprinting.CreateFingerprint | backend/wizard/wizard.py:296-332 | The two loops plus the sort produce the specification `Fingerprints`. The result is ordered by anchor time, and every record comes from a valid pair. |
| Fingerprinting.PairAnchor | backend/wizard/wizard.py:303-327 | The inner loop appends, in pair-index order, the record of every partner among the next fan_value entries that is inside the list and inside the time window, and nothing else. |
| Fingerprinting.PairingsSound | backend/wizard/wizard.py:300-327 | Before sorting, every record built by the loops is the record of a valid pair. |
| Fingerprinting.FingerprintsSound | backend/wizard/wizard.py:300-327 | Every fingerprint comes from indices i < j ≤ i + fan_value, j < number of peaks, with min_time_delta ≤ t_j − t_i ≤ max_time_delta. Its hash is generate_hash(f_i, f_j, t_j − t_i) and its time is t_i. |
| Fingerprinting.PairingsComplete | backend/wizard/wizard.py:300-327 | Every such valid pair contributes its record to the list built by the loops. |
| Fingerprinting.FingerprintsLength | backend/wizard/wizard.py:300-311 | At most number-of-peaks × fan_value records, and none with fewer than two peaks. Partners past the end are skipped. |
| Fingerprinting.PairDecodes | backend/wizard/wizard.py:317-324 | The record of a valid pair whose bins are below 1024, under a window below 256, decodes to the anchor bin, the partner bin and their time gap. |
| Fingerprinting.FingerprintsOrder | backend/wizard/wizard.py:329-330 | The output is non-decreasing in anchor time and a permutation of the built list. For each anchor time it keeps the built order (stable sort). |
| Fingerprinting.FingerprintsDecode | backend/wizard/wizard.py:317-327 | With bins below 1024 and max_time_delta below 256, each emitted hash decodes to the anchor bin, the partner bin and their time gap. |
| Fingerprinting.DefaultFingerprintsDecode | backend/wizard/wizard.py:63-67 | Under the defaults (fan_value 9, min_time_delta 1, max_time_delta 30) every record of peaks below bin 1024 has a gap between 1 and 30 and decodes to its anchor bin, partner bin and gap. |
| StableSort.SortByOrders | backend/wizard/wizard.py:330 | The sort's output is ordered by the key and is a permutation of its input. |
| StableSort.SortByStable | backend/wizard/wizard.py:330 | Elements with equal keys keep their relative order. |
| StableSort.SortBy | backend/wizard/wizard.py:329-330 | Through `SortByOrders`, `SortByStable` and `SortByLength`: the insertion sort standing for Python's `sorted`/`list.sort` gives a key-ordered permutation of its input in which equal keys keep their order. It also sorts the candidates at wizard.py:476. |
| Voting.GroupQueryTimes | backend/wizard/wizard.py:424-426 | The dictionary maps each query hash to its times in query order. Its keys are exactly the query's hashes. |
| Voting.TimesOf | backend/wizard/wizard.py:424-426 | Through `GroupQueryTimes`: the times of one hash, in query order, which is what `hash_values[h].append(t)` accumulates; the empty list for a hash the query lacks. |
| Voting.Filtered | backend/wizard/wizard.py:442-449 | Definition: the returned rows, in order, whose hash has fewer than a tenth of all rows (`10 * count < n`). |
| Voting.FilteredMembers | backend/wizard/wizard.py:442-449 | A row survives exactly when its hash occurs in fewer than a tenth of the returned rows. |
| Voting.Common | backend/wizard/wizard.py:443-449 | Definition: `hash_counter[h] >= len(query_output) * 0.10`, stated exactly as 10 · count ≥ number of rows; a row is kept when this is false. |
| Voting.KeepRare | backend/wizard/wizard.py:445-449 | Through `KeepRareAppend` and `KeepRareCounts`: the list comprehension's filter, row by row in order. |
| Voting.KeepRareAppend | backend/wizard/wizard.py:445-449 | Filtering a concatenation gives the filtered parts in sequence, so the comprehension never reorders rows. |
| Voting.KeepRareCounts | backend/wizard/wizard.py:445-449 | Each row keeps all its copies when its hash is rare and none when it is common. |
| Voting.FilteredInOrder | backend/wizard/wizard.py:445-449 | `filtered_hashes` is an order-preserving subsequence of the returned rows: every prefix of the rows filters to a prefix of it, and a row's multiplicity in it is that in the rows when its hash is rare and zero when common. |
| Voting.CommonHashCastsNoVotes | backend/wizard/wizard.py:442-463 | Changing the query times of a common hash changes no ballot: such a hash casts no votes. |
| Voting.RowBallots | backend/wizard/wizard.py:455-463 | Definition: one row's votes, one per query time of its hash in query order, skipping negative offsets. |
| Voting.Ballots | backend/wizard/wizard.py:452-463 | Definition: the votes of all filtered rows, row by row. |
| Voting.BallotsNonNegative | backend/wizard/wizard.py:455-463 | No ballot has a negative offset. |
| Voting.BallotsCount | backend/wizard/wizard.py:452-463 | For an offset d ≥ 0, the ballots for (song, d) number exactly the (filtered row of that song, query time of the same hash) pairs with row offset − query time = d. |
| Voting.TallyCounts | backend/wizard/wizard.py:419-463 | The vote dictionary holds one counter per song that got a vote, each non-empty and without repeated offsets. Each count is the number of ballots for that (song, offset). |
| Voting.Bump | backend/wizard/wizard.py:463 | Definition: `counter[delta] += 1` on an insertion-ordered Counter. |
| Voting.Vote | backend/wizard/wizard.py:463 | Definition: `votes[song][delta] += 1` on the insertion-ordered `defaultdict(Counter)`. |
| Voting.TallyVotes | backend/wizard/wizard.py:452-463 | Definition: the votes dictionary after casting the ballots in order. |
| Voting.BumpCounts | backend/wizard/wizard.py:463 | `counter[delta] += 1` raises the count for delta by one and leaves every other count unchanged. |
| Voting.VoteCounts | backend/wizard/wizard.py:463 | `votes[song][delta] += 1` raises the (song, delta) count by one and adds the song to the dictionary. |
| Voting.BumpOrder | backend/wizard/wizard.py:463 | A new delta is appended at the end of the Counter with count one. For a delta already present, the Counter's keys keep their places. |
| Voting.VoteOrder | backend/wizard/wizard.py:463 | A new song is appended at the end of the dictionary with a one-vote Counter. For a song already present, the dictionary's keys keep their places. |
| Voting.CounterOfVote | backend/wizard/wizard.py:463 | A vote changes only its own song's Counter, by `counter[delta] += 1`. |
| Voting.TallySongOrder | backend/wizard/wizard.py:452-463 | After voting, the dictionary lists the songs in the order of their first vote. |
| Voting.TallyDeltaOrder | backend/wizard/wizard.py:452-463 | After voting, each song's Counter lists its deltas in the order of their first vote. |
| Matching.MostCommonIndex | backend/wizard/wizard.py:472 | `most_common(1)` picks an entry with the largest count, and no earlier entry ties with it. |
| Matching.CandidateOf | backend/wizard/wizard.py:472-473 | Through `CandidateMaximal`, `CandidateFirstVoted` and `CounterOfEntry`: the candidate of one song, its most common delta with that delta's count. |
| Matching.Candidates | backend/wizard/wizard.py:466-473 | Through `CandidateSongOrder`, `CandidateVoted`, `BallotHasCandidate` and `CandidatesDistinct`: one candidate per voted song, in dictionary order. |
| Matching.CandidateMaximal | backend/wizard/wizard.py:469-473 | Each candidate's delta got at least one vote. Its count equals the ballots for (song, delta), and no other delta of the song has more. |
| Matching.CandidateFirstVoted | backend/wizard/wizard.py:469-473 | Ties go to the delta voted first: every delta of the song first voted before the candidate's delta has strictly fewer votes. |
| Matching.CandidateSongOrder | backend/wizard/wizard.py:466-473 | The candidates come one per song, in the order of each song's first vote. |
| Matching.CandidateVoted | backend/wizard/wizard.py:469-473 | Every candidate is a song that got a vote. |
| Matching.BallotHasCandidate | backend/wizard/wizard.py:469-473 | Every song that got a vote has a candidate. |
| Matching.CandidatesDistinct | backend/wizard/wizard.py:469-473 | No song has two candidates. |
| Matching.TopMatches | backend/wizard/wizard.py:475-476 | Definition: the candidates stably sorted by count, descending, cut to the first three. |
| Matching.TopMatchesRanked | backend/wizard/wizard.py:475-476 | The top list has min(3, number of candidates) entries in non-increasing count order, and no candidate left out has more votes than one kept. |
| Matching.TopMatchesSelect | backend/wizard/wizard.py:476 | The top list is a sub-multiset of the candidates. For every count, the top candidates with that count are a prefix of the candidates with that count, in candidate order (the sort is stable). |
| Matching.TopMatchesBest | backend/wizard/wizard.py:475-476 | The top list has min(3, number of candidates) entries, in non-increasing count order. It is a sub-multiset of the candidates, and ties keep candidate order. No candidate left out has more votes than one kept. |
| Matching.TopMatchesDistinct | backend/wizard/wizard.py:476 | Candidates of pairwise different songs give a top list of pairwise different songs. |
| Matching.Gate | backend/wizard/wizard.py:478-487 | Definition: the top candidates, in order, whose count / total reaches the threshold, each as a match carrying count and total. |
| Matching.Passes | backend/wizard/wizard.py:484-486 | Definition: `count / max(1, len(filtered_hashes)) >= CONFIDENCE_THRESHOLD` for a rational threshold num/den, compared exactly as count · den ≥ num · total. |
| Matching.Total | backend/wizard/wizard.py:484 | Definition: `max(1, len(filtered_hashes))`, the confidence denominator; used by `MatchResultShape` and `MatchResultVotes`. |
| Matching.GateAppend | backend/wizard/wizard.py:478-487 | Gating a concatenation gives the gated parts in sequence: the loop treats each top candidate on its own, in order. |
| Matching.GateSingle | backend/wizard/wizard.py:478-487 | One candidate gives one match with its count and the denominator when it passes, and nothing otherwise. |
| Matching.GatePlaces | backend/wizard/wizard.py:478-487 | For kept matches i < j, gives places p < q in the top list holding their candidates. |
| Matching.GateInOrder | backend/wizard/wizard.py:478-487 | Of two kept matches, the earlier comes from an earlier place in the top list. |
| Matching.GateComplete | backend/wizard/wizard.py:478-487 | Every top candidate whose count / total reaches the threshold is kept. |
| Matching.GateKeeps | backend/wizard/wizard.py:478-487 | The gate keeps exactly the top candidates whose count / total reaches the threshold: every kept match passes and is a top candidate, and every passing top candidate is kept. Of two kept matches the earlier comes from an earlier place in the top list, so order and multiplicity are kept. The gate is empty exactly when none passes. |
| Matching.MatchResult | backend/wizard/wizard.py:402-489 | Definition: filter, vote, pick each song's most common delta, take the top three, gate; None when the gate keeps nothing. |
| Matching.MatchResultShape | backend/wizard/wizard.py:476-489 | The result is None exactly when no top candidate passes, never an empty list. Otherwise it has one to three matches with non-increasing counts. Each is a top candidate passing the gate with a denominator max(1, filtered rows) ≥ 1, and every passing top candidate is among them. The matches keep top-list order and name pairwise different songs. |
| Matching.MatchResultVotes | backend/wizard/wizard.py:452-487 | Each match has a delta ≥ 0 and a count ≥ 1 equal to the pair count at that offset in the filtered rows. No delta ≥ 0 of that song has a larger pair count. |
| Matching.FewRowsMatchNothing | backend/wizard/wizard.py:442-449 | With at most ten returned rows the filter drops every row and the result is None. |
| Matching.DefaultThresholdMatches | backend/config.py:43 | Under the default threshold 0.00 the result is None exactly when no vote is cast. |
| Matching.QueryOutput | backend/wizard/wizard.py:430-440 | Definition: the table rows, in table order, whose hash is one of the query's hashes. |
| Matching.QueryOutputMembers | backend/wizard/wizard.py:430-440 | The store query returns exactly the table rows whose hash occurs in the query. |
| Matching.QueryOutputAppend | backend/wizard/wizard.py:432-440 | The query over a concatenated table answers each part, in order. |
| Matching.QueryOutputCounts | backend/wizard/wizard.py:432-440 | Every row of a queried hash comes back with all its copies, and no other row comes back. |
| Matching.QueryOutputInOrder | backend/wizard/wizard.py:432-440 | The returned rows keep the table's order: each prefix of the table answers with a prefix of the result. |
| Matching.MatchFingerprintsFromDb | backend/wizard/wizard.py:402-489 | The method (grouping, store query, filter, voting loops, candidate loop, top three, gate loop) returns the specification `MatchResult` of the query and the selected rows. |
| Matching.CastVotes | backend/wizard/wizard.py:452-463 | The nested voting loops produce the tally of the specification's ballots. |
| Matching.CastRow | backend/wizard/wizard.py:455-463 | The loop over one row's query times adds that row's ballots to the tally, skipping the negative offsets. |
| Matching.CollectCandidates | backend/wizard/wizard.py:466-473 | The loop over the votes yields one candidate per song, in dictionary order. |
| Matching.GateMatches | backend/wizard/wizard.py:478-487 | The results loop yields the specification `Gate` of the top matches. |
| SongApi.RunLength | backend/main.py:54-55 | The greedy `[^&]+` run stops at the end of the URL or at an `&`, and holds no `&`. |
| SongApi.SearchFrom | backend/main.py:55 | `re.search` returns the leftmost `v=` followed by a non-`&` character, or reports that none exists. |
| SongApi.MatchesAt | backend/main.py:54-55 | Definition: position k starts `v=` followed by a character other than `&`, the condition under which `v=([^&]+)` matches at k; used by `AddSongRejects`, `SearchFrom` and `ExtractVideoId`. |
| SongApi.ExtractVideoId | backend/main.py:54-70 | No id exactly when no position matches. An extracted id is non-empty and free of `&`. |
| SongApi.ExtractVideoIdLeftmost | backend/main.py:55-70 | The id is the maximal non-`&` run after the leftmost match. |
| SongApi.WatchUrlRoundTrip | backend/main.py:82-171 | For a non-empty, `&`-free id, extracting from the watch prefix plus the id gives the id back, also when `&`-parameters follow. |
| SongApi.InvalidUrlRejected | backend/tests/test_api.py:59-71 | `https://www.yt.com/randomc-3rm2` gets BAD_REQUEST (400). |
| SongApi.AddSong | backend/main.py:47-181 | Definition: the guard chain of `add_song`: invalid URL, already stored, download failed or raised, video information failed or raised, ingestion raised, created. The store gains the song whenever ingestion committed it, even when ingestion then raised. |
| SongApi.AddSongRejects | backend/main.py:54-67 | BAD_REQUEST exactly when no `v=` is followed by a non-`&` character. The store is then unchanged and the reply carries the invalid-URL error. |
| SongApi.FindSong | backend/main.py:73 | The duplicate query finds a stored song with that id exactly when one exists. |
| SongApi.AddSongAlreadyStored | backend/main.py:73-92 | ALREADY_REPORTED exactly when the id is valid and stored. The store is then unchanged, and the reply's `yt_url` is the watch prefix plus the stored id. |
| SongApi.AlreadyStoredEchoesUrl | backend/tests/test_api.py:73-103 | For a watch URL of a stored id, the reply's `yt_url` is the URL that was sent. |
| SongApi.AddSongCreates | backend/main.py:94-181 | CREATED exactly when the id is valid and new, the download and the video information succeeded, and ingestion returned. A CREATED reply's `yt_url` is the watch prefix plus the id, its title is the downloaded title, and its `song_id` is whatever id ingestion handed back, which may be null or, after a rolled-back commit, an id that was never stored. An exception from ingestion gives the 500 processing error. |
| SongApi.AddSongStores | backend/main.py:134-159 | The store changes only when ingestion is reached and committed (wizard.py:388-394), whatever it then returned or raised: it grows by exactly the one song under the committed id, with the video id and the downloaded metadata. Otherwise it is unchanged. |
| SongApi.CreatedNamesStoredSong | backend/main.py:134-171 | When a successful commit and refresh hand back the stored id (wizard.py:394-401), a CREATED reply after a commit names the new song's id. |
| SongApi.CollaboratorCrashes | backend/main.py:94-131 | An exception from the downloader or the video information client is not caught: the reply is the framework's plain 500 and the store is unchanged. |
| SongApi.AddTwiceReported | backend/main.py:73-181 | Once the store has grown, sending the same URL again gets ALREADY_REPORTED and leaves the store alone. |

## Left out

- **Audio front end.** Audio loading, resampling, silence trimming, the
  Butterworth band-pass, the STFT and the dB conversion are left out. They
  are numeric library calls on floating point.
- **`get_peak_points`.** It depends on scipy's `maximum_filter` boundary
  rules and on a float mean threshold. Its output is the `peaks` parameter of
  `CreateFingerprint`.
- **Seconds and float confidence.** The conversion to seconds
  (`abs(delta or 0) / frame_rate`) and the float confidence value are left
  out. Matches carry the delta in frames, the count and the denominator. The
  gate compares exactly, so the rounding of the float quotient is not
  modelled.
- **Persistence.** SQLAlchemy sessions, commits and rollbacks become a
  sequence of rows or songs.
  - The fingerprint table is a parameter, taken in the order the store
    yields it. SQL does not fix that order; it decides dictionary insertion
    order and so the order of tied candidates.
  - `create_and_store_fingerprint` is abstracted as the `ingest` parameter.
    Its outcome says separately whether the commit stored the song, and under
    which id, and what came back. It either returns an id, or None, or it
    raises. The returned id need not be a stored one. A rolled-back commit
    can still return the id the flush assigned. A refresh that fails after a
    commit makes reading `song.id` raise, so the reply is the 500 processing
    error although the song is stored.
- **External clients.** The downloader `get_song_from_yt_url` and the video
  information client `get_yt_info` are arrow-typed parameters. They are HTTP
  and Google API clients that also write files. Each returns a value,
  returns None, or raises (a failed request, a malformed reply, a title
  that is not a valid file name); the model keeps only which of the three
  happened. `convert_to_mp3` runs ffmpeg and is not part of this model.
- **Concurrent requests.** Requests are modelled one at a time. Two
  concurrent requests for the same new id can both pass the duplicate
  check; the unique `yt_url` column then rolls back the second commit, which
  the model can only show as an ingestion outcome that stored nothing.
- **Temporary files.** Removing the downloaded file after ingestion
  (`os.remove`) is a file-system effect and is not modelled.
- **Logging and configuration.** Logging, `config.py` apart from the
  threshold's default, the response schemas and the test fixtures are left
  out.
- **Other endpoints.** `match_audio` and `get_all_songs` are left out. They
  handle uploads, paging and HTTP plumbing. Their matching core is what
  `match_fingerprints_from_db` models.
- Fingerprinting.CreateFingerprint: `fan_value` is a `nat`. A negative
  setting leaves `range(1, fan_value + 1)` empty, so it behaves like 0,
  which the model covers.
- Fingerprinting.CreateFingerprint: `min_time_delta` is a `nat`, as its
  default 1 is. A negative setting would let negative deltas into
  `generate_hash`, where Python's `|` on negative integers works in two's
  complement.
- **Reply serialisation.** JSON serialisation is reduced to the fields each
  reply carries. `exclude_none` drops the response model's own None fields
  (`data`, `error`), which are the `Option` fields of `ApiBody`. It does not
  reach inside the `data` dictionary, so a created song for which ingestion
  returned None is reported with `song_id` null. `SongData.songId == None` stands both for
  that null and for the missing key of the already-stored reply.
