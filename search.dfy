/** `search_spotify`: one catalog search per (artist, genre) pair, artist-major;
    the hits of every successful search flattened into one list; then the ranking
    pipeline of module Ranking. The HTTP layer is an input: `responses[k]` is what
    the k-th search request returned. */
module Search {
  import opened Wrappers
  import opened Ranking

  /** The fixed request parameters besides `q`. */
  const SearchType: string := "track"
  const PerQueryLimit: int := 5
  const Market: string := "US"

  /** The only status whose body is read; any other response is skipped. */
  const StatusOk: int := 200

  /** The parameters of one GET request to the search endpoint. */
  datatype Query = Query(q: string, kind: string, limit: int, market: string)

  /** The `q` parameter for one (artist, genre) pair. */
  function QueryText(artist: string, genre: string): string {
    "artist:\"" + artist + "\" genre:\"" + genre + "\" year:2010-2025"
  }

  function MakeQuery(artist: string, genre: string): Query {
    Query(QueryText(artist, genre), SearchType, PerQueryLimit, Market)
  }

  /** The searches issued for one artist: one per genre, in genre order. */
  function Row(artist: string, genres: seq<string>): seq<Query> {
    seq(|genres|, j requires 0 <= j < |genres| => MakeQuery(artist, genres[j]))
  }

  /** All searches in the order the two nested loops issue them. */
  function QueryPlan(artists: seq<string>, genres: seq<string>): seq<Query> {
    if artists == [] then [] else Row(artists[0], genres) + QueryPlan(artists[1..], genres)
  }

  /** One entry of `tracks.items` in a search response. A field is `None` when
      reading it raises: a missing `name` or `external_urls.spotify`, an empty
      `artists` list or a first artist without a name. `popularity` is `None` when
      the key is absent. */
  datatype RawTrack = RawTrack(
    name: Option<string>,
    firstArtist: Option<string>,
    spotifyUrl: Option<string>,
    popularity: Option<int>)

  /** What one search request came back with. `Reply` holds the status code and
      `tracks.items` of the body: `Some([])` when the body has no `tracks` or no
      `items` key, `None` when reading them raises (a body that is not JSON, a
      `tracks` or `items` that is `null`). `RequestRaised`: `requests.get` itself
      raised (a connection error, a timeout). */
  datatype Response =
    | Reply(status: int, items: Option<seq<RawTrack>>)
    | RequestRaised

  /** The exceptions that escape `search_spotify`, each with the index of the
      search that raised it. */
  datatype SearchError =
    | RequestFailed(query: nat)   // `requests.get` raised
    | UnreadableBody(query: nat)  // `response.json()` or the `tracks.items` lookup raised
    | MalformedItem(query: nat)   // building the dictionary for an item raised

  /** The dictionary appended to `all_tracks` for one item, or `None` when building
      it raises. */
  function Flatten(raw: RawTrack): Option<Track> {
    if raw.name.None? || raw.firstArtist.None? || raw.spotifyUrl.None? then None
    else Some(Track(raw.name.value, raw.firstArtist.value, raw.spotifyUrl.value, raw.popularity.GetOr(0)))
  }

  predicate WellFormed(raw: RawTrack) {
    raw.name.Some? && raw.firstArtist.Some? && raw.spotifyUrl.Some?
  }

  /** The tracks the inner loop appends for one response, or the index of the first
      item whose flattening raises. */
  function FlattenItems(items: seq<RawTrack>): (r: Result<seq<Track>, nat>)
    ensures r.Ok? <==> forall k :: 0 <= k < |items| ==> WellFormed(items[k])
    ensures r.Ok? ==> |r.value| == |items|
    ensures r.Ok? ==> forall k :: 0 <= k < |items| ==> Some(r.value[k]) == Flatten(items[k])
    ensures r.Err? ==> r.error < |items| && !WellFormed(items[r.error])
    ensures r.Err? ==> forall k :: 0 <= k < r.error ==> WellFormed(items[k])
  {
    if items == [] then Ok([])
    else
      match FlattenItems(items[..|items| - 1])
      case Err(e) => Err(e)
      case Ok(ts) =>
        match Flatten(items[|items| - 1])
        case None => Err(|items| - 1)
        case Some(t) => Ok(ts + [t])
  }

  /** What the search with index `k` appends to `all_tracks`, or what it raises: a
      response with a status other than 200 adds nothing and raises nothing. */
  function Hits(r: Response, k: nat): (h: Result<seq<Track>, SearchError>)
    ensures h.Err? ==> h.error.query == k
  {
    match r
    case RequestRaised => Err(RequestFailed(k))
    case Reply(status, items) =>
      if status != StatusOk then Ok([])
      else
        match items
        case None => Err(UnreadableBody(k))
        case Some(raw) =>
          match FlattenItems(raw)
          case Err(_) => Err(MalformedItem(k))
          case Ok(ts) => Ok(ts)
  }

  /** A response that is read at all: the request returned, with status 200. */
  predicate Successful(r: Response) {
    r.Reply? && r.status == StatusOk
  }

  /** `all_tracks` after the searches whose responses are `responses`, or the error
      raised on the way. */
  function Collected(responses: seq<Response>): Result<seq<Track>, SearchError> {
    if responses == [] then Ok([])
    else
      var n := |responses| - 1;
      match Collected(responses[..n])
      case Err(e) => Err(e)
      case Ok(acc) =>
        match Hits(responses[n], n)
        case Err(e) => Err(e)
        case Ok(ts) => Ok(acc + ts)
  }

  /** What `search_spotify` returns, or raises, given the responses to its searches. */
  function SearchResult(responses: seq<Response>): Result<seq<Track>, SearchError> {
    match Collected(responses)
    case Err(e) => Err(e)
    case Ok(all) => Ok(TopTracks(all))
  }

  // ---------------------------------------------------------------------------
  // Properties of the fan-out and of the collection
  // ---------------------------------------------------------------------------

  lemma {:induction false} QueryPlanLength(artists: seq<string>, genres: seq<string>)
    ensures |QueryPlan(artists, genres)| == |artists| * |genres|
    decreases |artists|
  {
    if artists != [] {
      QueryPlanLength(artists[1..], genres);
      MulSucc(|artists| - 1, |genres|);
    }
  }

  lemma {:induction false} QueryPlanAt(artists: seq<string>, genres: seq<string>, i: nat, j: nat)
    requires i < |artists| && j < |genres|
    ensures i * |genres| + j < |QueryPlan(artists, genres)|
    ensures QueryPlan(artists, genres)[i * |genres| + j] == MakeQuery(artists[i], genres[j])
    decreases i
  {
    QueryPlanLength(artists, genres);
    IndexBound(i, j, |artists|, |genres|);
    if i > 0 {
      var rest := artists[1..];
      QueryPlanAt(rest, genres, i - 1, j);
      MulSucc(i - 1, |genres|);
      assert artists[i] == rest[i - 1];
    }
  }

  /** Collecting one more response. */
  lemma CollectedStep(responses: seq<Response>, k: nat)
    requires k < |responses|
    ensures Collected(responses[..k + 1]) ==
      match Collected(responses[..k])
      case Err(e) => Err(e)
      case Ok(acc) =>
        match Hits(responses[k], k)
        case Err(e) => Err(e)
        case Ok(ts) => Ok(acc + ts)
  {
    assert responses[..k + 1][..k] == responses[..k];
    assert responses[..k + 1][k] == responses[k];
  }

  /** Once a search raises, later responses do not matter. */
  lemma {:induction false} CollectedErrorSticks(responses: seq<Response>, n: nat)
    requires n <= |responses|
    requires Collected(responses[..n]).Err?
    ensures Collected(responses) == Collected(responses[..n])
    decreases |responses| - n
  {
    if n < |responses| {
      var front := responses[..|responses| - 1];
      assert front[..n] == responses[..n];
      CollectedErrorSticks(front, n);
    } else {
      assert responses[..n] == responses;
    }
  }

  /** A search that raises aborts the whole batch: if every search before it went
      through, `search_spotify` raises that search's exception, whatever the later
      responses are. A response with a status other than 200, by contrast, is
      skipped (`FailedSearchSkipped`). */
  lemma RaisedSearchAbortsBatch(responses: seq<Response>, k: nat)
    requires k < |responses|
    requires Collected(responses[..k]).Ok?
    ensures responses[k].RequestRaised? ==> SearchResult(responses) == Err(RequestFailed(k))
    ensures responses[k] == Reply(StatusOk, None) ==> SearchResult(responses) == Err(UnreadableBody(k))
    ensures Successful(responses[k]) && responses[k].items.Some? &&
            (exists m :: 0 <= m < |responses[k].items.value| && !WellFormed(responses[k].items.value[m])) ==>
            SearchResult(responses) == Err(MalformedItem(k))
  {
    CollectedStep(responses, k);
    if Hits(responses[k], k).Err? {
      CollectedErrorSticks(responses, k + 1);
    }
  }

  /** The search with index `k + n` raises what the search with index `k` would,
      with its index shifted by `n`. */
  lemma HitsShift(r: Response, k: nat, n: nat)
    ensures Hits(r, k + n) ==
      match Hits(r, k)
      case Err(e) => Err(e.(query := e.query + n))
      case Ok(ts) => Ok(ts)
  {
  }

  /** Collecting is compositional: the tracks of a batch of searches are the tracks
      of its first part followed by those of its second part, and the first raised
      error wins. */
  lemma {:induction false} CollectedConcat(a: seq<Response>, b: seq<Response>)
    ensures Collected(a + b) ==
      match Collected(a)
      case Err(e) => Err(e)
      case Ok(x) =>
        match Collected(b)
        case Err(e) => Err(e.(query := e.query + |a|))
        case Ok(y) => Ok(x + y)
    decreases |b|
  {
    if b == [] {
      assert a + b == a;
      if Collected(a).Ok? {
        assert Collected(a).value + [] == Collected(a).value;
      }
    } else {
      var b', last := b[..|b| - 1], b[|b| - 1];
      assert (a + b)[..|a + b| - 1] == a + b';
      assert (a + b)[|a + b| - 1] == last;
      CollectedConcat(a, b');
      HitsShift(last, |b'|, |a|);
      match Collected(a)
      case Err(e) =>
      case Ok(x) =>
        match Collected(b')
        case Err(e) =>
        case Ok(y) =>
          if Hits(last, |b'|).Ok? {
            var ts := Hits(last, |b'|).value;
            assert x + (y + ts) == (x + y) + ts;
          }
    }
  }

  /** A search answered with a status other than 200 contributes no tracks and does
      not stop the searches after it. */
  lemma FailedSearchSkipped(a: seq<Response>, r: Response, b: seq<Response>)
    requires r.Reply? && r.status != StatusOk
    ensures Collected(a + [r] + b).Ok? <==> Collected(a + b).Ok?
    ensures Collected(a + b).Ok? ==> Collected(a + [r] + b) == Collected(a + b)
  {
    assert [r][..0] == [];
    assert Hits(r, 0) == Ok([]);
    var none: seq<Track> := [];
    assert none + none == none;
    assert Collected([r]) == Ok([]);
    CollectedConcat(a, [r]);
    CollectedConcat(a + [r], b);
    CollectedConcat(a, b);
    if Collected(a).Ok? {
      assert Collected(a).value + [] == Collected(a).value;
    }
  }

  /** When every search is answered with a status other than 200, the result is
      empty and nothing is raised. */
  lemma {:induction false} AllSearchesFailed(responses: seq<Response>)
    requires forall k :: 0 <= k < |responses| ==> responses[k].Reply? && responses[k].status != StatusOk
    ensures Collected(responses) == Ok([])
    ensures SearchResult(responses) == Ok([])
    decreases |responses|
  {
    if responses != [] {
      var n := |responses| - 1;
      AllSearchesFailed(responses[..n]);
      assert Hits(responses[n], n) == Ok([]);
      assert Collected(responses[..n]).value + [] == [];
    }
  }

  /** `t` is the flattening of an item of a response with status 200. */
  ghost predicate FromSuccessfulSearch(responses: seq<Response>, t: Track) {
    exists k, m :: 0 <= k < |responses| && Successful(responses[k]) && responses[k].items.Some? &&
      0 <= m < |responses[k].items.value| && Flatten(responses[k].items.value[m]) == Some(t)
  }

  /** Every collected track comes from an item of a response with status 200. */
  lemma {:induction false} CollectedFromSuccessful(responses: seq<Response>)
    requires Collected(responses).Ok?
    ensures forall t :: t in Collected(responses).value ==> FromSuccessfulSearch(responses, t)
    decreases |responses|
  {
    if responses != [] {
      var n := |responses| - 1;
      var front := responses[..n];
      CollectedFromSuccessful(front);
      forall t | t in Collected(responses).value ensures FromSuccessfulSearch(responses, t) {
        if t in Collected(front).value {
          var k, m :| 0 <= k < |front| && Successful(front[k]) && front[k].items.Some? &&
            0 <= m < |front[k].items.value| && Flatten(front[k].items.value[m]) == Some(t);
          assert responses[k] == front[k];
        } else {
          var ts := FlattenItems(responses[n].items.value).value;
          var m :| 0 <= m < |ts| && ts[m] == t;
          assert Flatten(responses[n].items.value[m]) == Some(t);
        }
      }
    }
  }

  /** What the caller of `search_spotify` can rely on: at most 20 tracks, no
      (name, artist) pair twice, most popular first, and every track taken from a
      successful search. */
  lemma SearchResultPromises(responses: seq<Response>)
    requires SearchResult(responses).Ok?
    ensures |SearchResult(responses).value| <= MaxResults
    ensures DistinctKeys(SearchResult(responses).value)
    ensures NonIncreasing(SearchResult(responses).value)
    ensures forall t :: t in SearchResult(responses).value ==> FromSuccessfulSearch(responses, t)
  {
    var all := Collected(responses).value;
    TopTracksBounded(all);
    TopTracksOrdered(all);
    CollectedFromSuccessful(responses);
  }

  lemma MulSucc(x: nat, g: nat)
    ensures (x + 1) * g == x * g + g
  {
  }

  lemma {:induction false} MulMonotone(x: nat, y: nat, g: nat)
    requires x <= y
    ensures x * g <= y * g
    decreases y - x
  {
    if x < y {
      MulMonotone(x, y - 1, g);
      MulSucc(y - 1, g);
    }
  }

  /** The search for (artists[i], genres[j]) has a response. */
  lemma IndexBound(i: nat, j: nat, a: nat, g: nat)
    requires i < a && j < g
    ensures i * g + j < a * g
  {
    MulSucc(i, g);
    MulMonotone(i + 1, a, g);
  }

  // ---------------------------------------------------------------------------
  // search_spotify
  // ---------------------------------------------------------------------------

  /** The first item whose flattening raises is the error `FlattenItems` reports. */
  lemma FlattenItemsFirstError(items: seq<RawTrack>, n: nat)
    requires n < |items| && !WellFormed(items[n])
    requires forall k :: 0 <= k < n ==> WellFormed(items[k])
    ensures FlattenItems(items) == Err(n)
  {
    var r := FlattenItems(items);
    assert r.Err?;
    assert !(r.error < n);
  }

  /** The inner loop over one successful response: appends each item's track to
      `allTracks`, or stops at the first item whose flattening raises. */
  method AppendHits(allTracks: seq<Track>, items: seq<RawTrack>) returns (r: Result<seq<Track>, nat>)
    ensures r == match FlattenItems(items)
                 case Err(e) => Err(e)
                 case Ok(ts) => Ok(allTracks + ts)
  {
    var acc := allTracks;
    var n := 0;
    while n < |items|
      invariant 0 <= n <= |items|
      invariant forall k :: 0 <= k < n ==> WellFormed(items[k])
      invariant FlattenItems(items[..n]).Ok?
      invariant acc == allTracks + FlattenItems(items[..n]).value
    {
      var raw := items[n];
      if raw.name.None? || raw.firstArtist.None? || raw.spotifyUrl.None? {
        FlattenItemsFirstError(items, n);
        return Err(n);
      }
      assert items[..n + 1][..n] == items[..n];
      assert items[..n + 1][n] == raw;
      acc := acc + [Track(raw.name.value, raw.firstArtist.value, raw.spotifyUrl.value, raw.popularity.GetOr(0))];
      n := n + 1;
    }
    assert items[..n] == items;
    return Ok(acc);
  }

  /** The body of the inner loop of `search_spotify` after the request: skip a
      response with a status other than 200, otherwise read `tracks.items` and
      append its tracks to `allTracks`. */
  method HandleResponse(allTracks: seq<Track>, response: Response, k: nat)
    returns (r: Result<seq<Track>, SearchError>)
    ensures r == match Hits(response, k)
                 case Err(e) => Err(e)
                 case Ok(ts) => Ok(allTracks + ts)
  {
    match response
    case RequestRaised =>
      return Err(RequestFailed(k));
    case Reply(status, items) =>
      if status != StatusOk {
        assert allTracks + [] == allTracks;
        return Ok(allTracks);
      }
      if items.None? {
        return Err(UnreadableBody(k));
      }
      var appended := AppendHits(allTracks, items.value);
      if appended.Err? {
        return Err(MalformedItem(k));
      }
      return Ok(appended.value);
  }

  /** The `seen` / `unique_tracks` loop. */
  method Deduplicate(ranked: seq<Track>) returns (unique: seq<Track>)
    ensures unique == Dedup(ranked)
  {
    var seen: set<TrackKey> := {};
    unique := [];
    var n := 0;
    while n < |ranked|
      invariant 0 <= n <= |ranked|
      invariant unique == Dedup(ranked[..n])
      invariant seen == Keys(unique)
    {
      var t := ranked[n];
      var key := (t.name, t.artist);
      assert ranked[..n + 1][..n] == ranked[..n];
      if key !in seen {
        KeysAppend(unique, t);
        unique := unique + [t];
        seen := seen + {key};
      }
      n := n + 1;
    }
    assert ranked[..n] == ranked;
  }

  /** Issues the searches, collects their hits, ranks, deduplicates and truncates.
      `issued` lists the searches sent, in order. */
  method SearchSpotify(artists: seq<string>, genres: seq<string>, responses: seq<Response>)
    returns (issued: seq<Query>, outcome: Result<seq<Track>, SearchError>)
    requires |responses| == |artists| * |genres|
    ensures outcome == SearchResult(responses)
    ensures outcome.Ok? ==> issued == QueryPlan(artists, genres)
    ensures outcome.Err? ==>
      outcome.error.query < |QueryPlan(artists, genres)| &&
      issued == QueryPlan(artists, genres)[..outcome.error.query + 1]
  {
    QueryPlanLength(artists, genres);
    ghost var plan := QueryPlan(artists, genres);
    var allTracks: seq<Track> := [];
    issued := [];
    var k := 0;
    var i := 0;
    while i < |artists|
      invariant 0 <= i <= |artists|
      invariant k == i * |genres| && k <= |responses|
      invariant issued == plan[..k]
      invariant Collected(responses[..k]) == Ok(allTracks)
    {
      var artist := artists[i];
      var j := 0;
      while j < |genres|
        invariant 0 <= j <= |genres|
        invariant k == i * |genres| + j && k <= |responses|
        invariant issued == plan[..k]
        invariant Collected(responses[..k]) == Ok(allTracks)
      {
        var genre := genres[j];
        QueryPlanAt(artists, genres, i, j);
        var query := MakeQuery(artist, genre);
        var response := responses[k];
        assert plan[..k + 1] == plan[..k] + [query];
        issued := issued + [query];
        CollectedStep(responses, k);
        var step := HandleResponse(allTracks, response, k);
        if step.Err? {
          outcome := Err(step.error);
          assert Collected(responses[..k + 1]) == outcome;
          CollectedErrorSticks(responses, k + 1);
          return;
        }
        allTracks := step.value;
        k := k + 1;
        j := j + 1;
      }
      MulSucc(i, |genres|);
      i := i + 1;
    }
    assert responses[..k] == responses;
    assert Collected(responses) == Ok(allTracks);

    var ranked := Ranked(allTracks);
    var unique := Deduplicate(ranked);
    outcome := Ok(unique[..if |unique| < MaxResults then |unique| else MaxResults]);
    assert outcome.value == Truncate(unique);
  }
}
