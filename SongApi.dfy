/**
 * The `/add-song` endpoint: the video id scan `re.search(r"v=([^&]+)", url)`,
 * the URL rebuilt from an id, and the chain of early returns (invalid URL,
 * already stored, download failed, video info failed, ingestion raised,
 * created). The store is a sequence of songs; the downloader, the video
 * information client and the fingerprint ingestion are parameters.
 */
module SongApi {
  import opened Wrappers

  // ---------------------------------------------------------------------------
  // The video id scanner

  /** `v=` at position i, followed by at least one character other than `&`. */
  predicate MatchesAt(url: string, i: nat)
  {
    i + 2 < |url| && url[i] == 'v' && url[i + 1] == '=' && url[i + 2] != '&'
  }

  /** Length of the greedy `[^&]+` run starting at j. */
  function RunLength(s: string, j: nat): (n: nat)
    requires j <= |s|
    ensures j + n <= |s|
    ensures forall k :: j <= k < j + n ==> s[k] != '&'
    ensures j + n == |s| || s[j + n] == '&'
    decreases |s| - j
  {
    if j == |s| || s[j] == '&' then 0 else 1 + RunLength(s, j + 1)
  }

  /** The leftmost match position at or after i, as `re.search` scans. */
  function SearchFrom(url: string, i: nat): (r: Option<nat>)
    requires i <= |url|
    ensures r.Some? ==> i <= r.value && MatchesAt(url, r.value)
                        && forall k :: i <= k < r.value ==> !MatchesAt(url, k)
    ensures r.None? ==> forall k :: i <= k < |url| ==> !MatchesAt(url, k)
    decreases |url| - i
  {
    if i == |url| then None
    else if MatchesAt(url, i) then Some(i)
    else SearchFrom(url, i + 1)
  }

  /** `match.group(1)`, or None when the pattern does not occur. */
  function ExtractVideoId(url: string): (r: Option<string>)
    ensures r.None? <==> forall k :: 0 <= k < |url| ==> !MatchesAt(url, k)
    ensures r.Some? ==> r.value != [] && forall k :: 0 <= k < |r.value| ==> r.value[k] != '&'
  {
    match SearchFrom(url, 0)
    case None => None
    case Some(i) =>
      var n := RunLength(url, i + 2);
      Some(url[i + 2..i + 2 + n])
  }

  /** The prefix the endpoint puts in front of a stored id. */
  const WatchPrefix: string := "https://www.youtube.com/watch?v="

  /**
   * The extracted id is the maximal run of non-`&` characters after the
   * leftmost `v=` that is followed by a non-`&` character.
   */
  lemma ExtractVideoIdLeftmost(url: string, i: nat)
    requires MatchesAt(url, i)
    requires forall k :: 0 <= k < i ==> !MatchesAt(url, k)
    ensures i + 2 + RunLength(url, i + 2) <= |url|
    ensures ExtractVideoId(url) == Some(url[i + 2..i + 2 + RunLength(url, i + 2)])
  {
  }

  /** The watch prefix ends in `v=` and holds no other `v`. */
  lemma WatchPrefixShape()
    ensures |WatchPrefix| == 32 && WatchPrefix[30] == 'v' && WatchPrefix[31] == '='
    ensures forall k :: 0 <= k < 30 ==> WatchPrefix[k] != 'v'
  {
    assert 'v' !in WatchPrefix[..30];
    forall k | 0 <= k < 30 ensures WatchPrefix[k] != 'v' {
      assert WatchPrefix[k] == WatchPrefix[..30][k];
    }
  }

  /**
   * Behind a prefix that ends in `v=` and holds no earlier `v`, an id that is
   * non-empty and free of `&` is extracted, whatever `&`-led tail follows.
   */
  lemma {:induction false} PrefixedId(prefix: string, id: string, tail: string)
    requires |prefix| >= 2 && prefix[|prefix| - 2] == 'v' && prefix[|prefix| - 1] == '='
    requires forall k :: 0 <= k < |prefix| - 2 ==> prefix[k] != 'v'
    requires id != [] && forall k :: 0 <= k < |id| ==> id[k] != '&'
    requires tail == [] || tail[0] == '&'
    ensures ExtractVideoId(prefix + id + tail) == Some(id)
  {
    var p := |prefix| - 2;
    var url := prefix + id + tail;
    assert forall k :: 0 <= k < |prefix| ==> url[k] == prefix[k];
    assert forall k :: 0 <= k < |id| ==> url[|prefix| + k] == id[k];
    forall k | 0 <= k < p ensures !MatchesAt(url, k) {
      assert url[k] == prefix[k];
    }
    assert MatchesAt(url, p);
    ExtractVideoIdLeftmost(url, p);
    assert |prefix| + |id| == |url| || url[|prefix| + |id|] == '&';
    RunLengthIs(url, p + 2, |id|);
    assert url[p + 2..p + 2 + |id|] == id;
  }

  /**
   * Round trip: an id that is non-empty and free of `&`, behind the watch
   * prefix and optionally followed by further `&` parameters, is extracted
   * unchanged.
   */
  lemma WatchUrlRoundTrip(id: string, rest: string)
    requires id != [] && forall k :: 0 <= k < |id| ==> id[k] != '&'
    ensures ExtractVideoId(WatchPrefix + id) == Some(id)
    ensures ExtractVideoId(WatchPrefix + id + "&" + rest) == Some(id)
  {
    WatchPrefixShape();
    PrefixedId(WatchPrefix, id, []);
    assert WatchPrefix + id + [] == WatchPrefix + id;
    PrefixedId(WatchPrefix, id, "&" + rest);
    assert WatchPrefix + id + ("&" + rest) == WatchPrefix + id + "&" + rest;
  }

  /** The run length is n when n non-`&` characters are followed by the end or a `&`. */
  lemma {:induction false} RunLengthIs(s: string, j: nat, n: nat)
    requires j + n <= |s|
    requires forall k :: j <= k < j + n ==> s[k] != '&'
    requires j + n == |s| || s[j + n] == '&'
    ensures RunLength(s, j) == n
    decreases n
  {
    if n > 0 {
      RunLengthIs(s, j + 1, n - 1);
    }
  }

  /** The URL of the invalid-URL test case holds no `v=` at all. */
  lemma InvalidUrlExample()
    ensures ExtractVideoId("https://www.yt.com/randomc-3rm2") == None
  {
    var url := "https://www.yt.com/randomc-3rm2";
    assert 'v' !in url;
    forall k | 0 <= k < |url| ensures !MatchesAt(url, k) {
      assert url[k] in url;
    }
  }

  // ---------------------------------------------------------------------------
  // The endpoint

  /** A row of the song table: `yt_url` holds the bare video id. */
  datatype Song = Song(id: nat, title: string, ytUrl: string, thumbnail: string, artist: string)

  datatype Status = BadRequest | AlreadyReported | NotFound | InternalServerError | Created

  function Code(s: Status): (c: nat)
    ensures 200 <= c < 600
  {
    match s
    case BadRequest => 400
    case AlreadyReported => 208
    case NotFound => 404
    case InternalServerError => 500
    case Created => 201
  }

  datatype ApiStatus = Success | Error

  /**
   * The `data` dictionary of a response. `songId == None` stands both for a
   * missing `song_id` key (the already-stored reply has none) and for a
   * `song_id` of null (a created song for which ingestion returned None).
   */
  datatype SongData = SongData(title: string, ytUrl: string, thumbnail: string, artist: string, songId: Option<nat>)

  datatype Body =
    | ApiBody(apiStatus: ApiStatus, data: Option<SongData>, error: Option<string>)
    | MessageBody(message: string)
    | PlainText(text: string)

  datatype Response = Response(status: Status, body: Body)

  /**
   * How a collaborator call ends: it returns a value, it returns None, or it
   * raises an exception that `add_song` does not catch.
   */
  datatype Fetch<T> = Fetched(value: T) | NotFetched | Crashed

  /** What the downloader returns: the audio file's path and the song title. */
  datatype Download = Download(path: string, title: string)

  /** What the video information client returns. */
  datatype YtInfo = YtInfo(author: string, thumbnail: string)

  /** The arguments of `create_and_store_fingerprint`. */
  datatype IngestRequest = IngestRequest(title: string, path: string, author: string, thumbnail: string, videoId: string)

  /**
   * How `create_and_store_fingerprint` ends. `stored` is the id under which
   * the commit kept the song, None when nothing was committed (the analysis
   * raised, or the insert or the commit failed and was rolled back).
   * `Returned` carries the `song.id` handed back, which after a rolled-back
   * commit may still be the id the flush assigned; `Raised` is an exception
   * reaching the endpoint, which may come after the commit (reading
   * `song.id` after a failed refresh).
   */
  datatype IngestOutcome = Returned(stored: Option<nat>, songId: Option<nat>) | Raised(stored: Option<nat>)

  /**
   * The relation the source keeps between the two parts of a `Returned`:
   * when the commit and the refresh succeed, the id handed back is the one
   * stored.
   */
  predicate Coherent(outcome: IngestOutcome)
  {
    outcome.Returned? && outcome.stored.Some? ==> outcome.songId == outcome.stored
  }

  datatype AddSongResult = AddSongResult(response: Response, store: seq<Song>)

  /** `session.query(Song).filter(Song.yt_url == video_id).first()` */
  function FindSong(store: seq<Song>, videoId: string): (r: Option<Song>)
    ensures r.Some? ==> r.value in store && r.value.ytUrl == videoId
    ensures r.None? <==> forall k :: 0 <= k < |store| ==> store[k].ytUrl != videoId
  {
    if store == [] then None
    else if store[0].ytUrl == videoId then Some(store[0])
    else FindSong(store[1..], videoId)
  }

  const InvalidUrlError: string := "Invalid YouTube URL. Please provide a valid YouTube video URL."
  const AlreadyExistsError: string := "Song already exists in the database."
  const DownloadError: string := "Failed to download song from YT."
  const InfoError: string := "Failed to fetch YouTube video information."
  const ProcessingMessage: string := "Error processing the song file."

  /** The framework's reply to an exception the endpoint does not catch. */
  const UncaughtResponse: Response := Response(InternalServerError, PlainText("Internal Server Error"))

  function Failure(status: Status, error: string): Response
  {
    Response(status, ApiBody(Error, None, Some(error)))
  }

  /** `add_song(yt_url)` against the store, with its three collaborators as parameters. */
  function AddSong(url: string, store: seq<Song>,
                   download: string -> Fetch<Download>,
                   info: string -> Fetch<YtInfo>,
                   ingest: IngestRequest -> IngestOutcome): AddSongResult
  {
    match ExtractVideoId(url)
    case None => AddSongResult(Failure(BadRequest, InvalidUrlError), store)
    case Some(videoId) =>
      match FindSong(store, videoId)
      case Some(song) =>
        var data := SongData(song.title, WatchPrefix + song.ytUrl, song.thumbnail, song.artist, None);
        AddSongResult(Response(AlreadyReported, ApiBody(Success, Some(data), Some(AlreadyExistsError))), store)
      case None =>
        match download(videoId)
        case Crashed => AddSongResult(UncaughtResponse, store)
        case NotFetched => AddSongResult(Failure(NotFound, DownloadError), store)
        case Fetched(file) =>
          match info(videoId)
          case Crashed => AddSongResult(UncaughtResponse, store)
          case NotFetched => AddSongResult(Failure(NotFound, InfoError), store)
          case Fetched(yt) =>
            var outcome := ingest(IngestRequest(file.title, file.path, yt.author, yt.thumbnail, videoId));
            var store' := Committed(store, outcome, Song(0, file.title, videoId, yt.thumbnail, yt.author));
            match outcome
            case Raised(_) => AddSongResult(Response(InternalServerError, MessageBody(ProcessingMessage)), store')
            case Returned(_, songId) =>
              var data := SongData(file.title, WatchPrefix + videoId, yt.thumbnail, yt.author, songId);
              AddSongResult(Response(Created, ApiBody(Success, Some(data), None)), store')
  }

  /** The store after ingestion: the song appended under its committed id, if any. */
  function Committed(store: seq<Song>, outcome: IngestOutcome, song: Song): seq<Song>
  {
    match outcome.stored
    case None => store
    case Some(id) => store + [song.(id := id)]
  }

  // ---------------------------------------------------------------------------
  // Properties of the endpoint

  /** A URL without a usable `v=` is rejected and nothing else happens. */
  lemma AddSongRejects(url: string, store: seq<Song>, download: string -> Fetch<Download>,
                       info: string -> Fetch<YtInfo>, ingest: IngestRequest -> IngestOutcome)
    ensures var r := AddSong(url, store, download, info, ingest);
            (r.response.status == BadRequest <==> forall k :: 0 <= k < |url| ==> !MatchesAt(url, k))
            && (r.response.status == BadRequest ==> r.store == store && r.response == Failure(BadRequest, InvalidUrlError))
  {
  }

  /** The invalid-URL test case gets 400. */
  lemma InvalidUrlRejected(store: seq<Song>, download: string -> Fetch<Download>,
                           info: string -> Fetch<YtInfo>, ingest: IngestRequest -> IngestOutcome)
    ensures AddSong("https://www.yt.com/randomc-3rm2", store, download, info, ingest).response.status == BadRequest
    ensures Code(AddSong("https://www.yt.com/randomc-3rm2", store, download, info, ingest).response.status) == 400
  {
    InvalidUrlExample();
  }

  /**
   * A known id is reported as already stored, the store is left as it was,
   * and the reported URL is the watch prefix followed by the stored id.
   */
  lemma AddSongAlreadyStored(url: string, store: seq<Song>, download: string -> Fetch<Download>,
                             info: string -> Fetch<YtInfo>, ingest: IngestRequest -> IngestOutcome)
    ensures var r := AddSong(url, store, download, info, ingest);
            (r.response.status == AlreadyReported <==>
               ExtractVideoId(url).Some? && exists s :: s in store && s.ytUrl == ExtractVideoId(url).value)
            && (r.response.status == AlreadyReported ==>
                  r.store == store && r.response.body.ApiBody? && r.response.body.data.Some?
                  && r.response.body.data.value.ytUrl == WatchPrefix + ExtractVideoId(url).value)
  {
    var r := AddSong(url, store, download, info, ingest);
    if ExtractVideoId(url).Some? && exists s :: s in store && s.ytUrl == ExtractVideoId(url).value {
      var s :| s in store && s.ytUrl == ExtractVideoId(url).value;
      var k :| 0 <= k < |store| && store[k] == s;
    }
  }

  /** The id is valid and new, and both the download and the video information succeeded. */
  predicate ReachesIngest(url: string, store: seq<Song>, download: string -> Fetch<Download>,
                          info: string -> Fetch<YtInfo>)
  {
    ExtractVideoId(url).Some? && FindSong(store, ExtractVideoId(url).value).None?
    && download(ExtractVideoId(url).value).Fetched? && info(ExtractVideoId(url).value).Fetched?
  }

  /** What the endpoint hands to ingestion once it gets that far. */
  function RequestFor(url: string, store: seq<Song>, download: string -> Fetch<Download>,
                      info: string -> Fetch<YtInfo>): IngestRequest
    requires ReachesIngest(url, store, download, info)
  {
    var id := ExtractVideoId(url).value;
    IngestRequest(download(id).value.title, download(id).value.path,
                  info(id).value.author, info(id).value.thumbnail, id)
  }

  /**
   * The endpoint reaches 201 exactly when the id is valid and new, the
   * download and the video information succeed and ingestion returns. A
   * CREATED reply carries the watch URL of the id, the downloaded title, and
   * whatever id ingestion handed back; an exception from ingestion is the
   * 500 processing error.
   */
  lemma AddSongCreates(url: string, store: seq<Song>, download: string -> Fetch<Download>,
                       info: string -> Fetch<YtInfo>, ingest: IngestRequest -> IngestOutcome)
    ensures var r := AddSong(url, store, download, info, ingest);
            r.response.status == Created <==>
              ReachesIngest(url, store, download, info) && ingest(RequestFor(url, store, download, info)).Returned?
    ensures var r := AddSong(url, store, download, info, ingest);
            var id := ExtractVideoId(url);
            r.response.status == Created ==>
              r.response.body.ApiBody? && r.response.body.data.Some?
              && r.response.body.data.value.ytUrl == WatchPrefix + id.value
              && r.response.body.data.value.title == download(id.value).value.title
              && r.response.body.data.value.songId == ingest(RequestFor(url, store, download, info)).songId
    ensures ReachesIngest(url, store, download, info) && ingest(RequestFor(url, store, download, info)).Raised? ==>
              AddSong(url, store, download, info, ingest).response
                == Response(InternalServerError, MessageBody(ProcessingMessage))
  {
  }

  /**
   * The store changes only when ingestion is reached and its commit
   * succeeded, whether or not it then returned: it grows by exactly one song,
   * with the committed id, the video id and the downloaded metadata.
   */
  lemma AddSongStores(url: string, store: seq<Song>, download: string -> Fetch<Download>,
                      info: string -> Fetch<YtInfo>, ingest: IngestRequest -> IngestOutcome)
    ensures var r := AddSong(url, store, download, info, ingest);
            r.store == store || (ReachesIngest(url, store, download, info) && |r.store| == |store| + 1
                                 && r.store[..|store|] == store && r.store[|store|].ytUrl == ExtractVideoId(url).value)
    ensures ReachesIngest(url, store, download, info) ==>
              var r := AddSong(url, store, download, info, ingest);
              var req := RequestFor(url, store, download, info);
              (r.store == store <==> ingest(req).stored.None?)
              && (ingest(req).stored.Some? ==>
                    r.store == store + [Song(ingest(req).stored.value, req.title, req.videoId, req.thumbnail, req.author)])
  {
  }

  /**
   * When ingestion keeps the source's coherence (a successful commit and
   * refresh hand back the stored id), a CREATED reply after a commit names
   * the new song's id.
   */
  lemma CreatedNamesStoredSong(url: string, store: seq<Song>, download: string -> Fetch<Download>,
                               info: string -> Fetch<YtInfo>, ingest: IngestRequest -> IngestOutcome)
    requires ReachesIngest(url, store, download, info) ==> Coherent(ingest(RequestFor(url, store, download, info)))
    ensures var r := AddSong(url, store, download, info, ingest);
            r.response.status == Created && r.store != store ==>
              r.response.body.ApiBody? && r.response.body.data.Some?
              && r.response.body.data.value.songId == Some(r.store[|store|].id)
  {
    AddSongCreates(url, store, download, info, ingest);
    AddSongStores(url, store, download, info, ingest);
  }

  /**
   * An exception from the downloader or the video information client is not
   * caught by the endpoint: the framework answers 500 and the store is
   * unchanged.
   */
  lemma CollaboratorCrashes(url: string, store: seq<Song>, download: string -> Fetch<Download>,
                            info: string -> Fetch<YtInfo>, ingest: IngestRequest -> IngestOutcome)
    requires ExtractVideoId(url).Some? && FindSong(store, ExtractVideoId(url).value).None?
    requires download(ExtractVideoId(url).value).Crashed?
             || (download(ExtractVideoId(url).value).Fetched? && info(ExtractVideoId(url).value).Crashed?)
    ensures AddSong(url, store, download, info, ingest) == AddSongResult(UncaughtResponse, store)
  {
  }

  /** Adding the same URL again after it was stored reports it as already stored. */
  lemma AddTwiceReported(url: string, store: seq<Song>, download: string -> Fetch<Download>,
                         info: string -> Fetch<YtInfo>, ingest: IngestRequest -> IngestOutcome,
                         download': string -> Fetch<Download>, info': string -> Fetch<YtInfo>,
                         ingest': IngestRequest -> IngestOutcome)
    requires AddSong(url, store, download, info, ingest).store != store
    ensures var r := AddSong(url, AddSong(url, store, download, info, ingest).store, download', info', ingest');
            r.response.status == AlreadyReported && r.store == AddSong(url, store, download, info, ingest).store
  {
    var store' := AddSong(url, store, download, info, ingest).store;
    AddSongStores(url, store, download, info, ingest);
    AddSongAlreadyStored(url, store', download', info', ingest');
    assert store'[|store|] in store';
  }

  /**
   * For a watch URL the reply to an already stored song carries back the
   * URL that was sent.
   */
  lemma AlreadyStoredEchoesUrl(id: string, store: seq<Song>, download: string -> Fetch<Download>,
                               info: string -> Fetch<YtInfo>, ingest: IngestRequest -> IngestOutcome)
    requires id != [] && forall k :: 0 <= k < |id| ==> id[k] != '&'
    requires exists s :: s in store && s.ytUrl == id
    ensures var r := AddSong(WatchPrefix + id, store, download, info, ingest);
            r.response.status == AlreadyReported && r.response.body.ApiBody? && r.response.body.data.Some?
            && r.response.body.data.value.ytUrl == WatchPrefix + id
  {
    WatchUrlRoundTrip(id, "");
    AddSongAlreadyStored(WatchPrefix + id, store, download, info, ingest);
  }
}
