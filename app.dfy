/** The steps after the image analysis: read `music_genre` from the parsed reply,
    normalise it, check the access token, and search for the fixed artists. */
module App {
  import opened Wrappers
  import opened Ranking
  import opened Search
  import opened Genres

  /** `ARTISTS`: the fixed roster searched for every genre. */
  const Artists: seq<string> := ["Kanye West", "Frank Ocean", "ASAP Rocky", "Kendrick Lamar", "J. Cole", "Drake"]

  /** What `get_spotify_access_token` came back with: the `access_token` entry of
      the reply, `None` when absent, or `TokenRequestRaised` when `requests.post` or
      `response.json()` raised. */
  datatype TokenReply =
    | Token(accessToken: Option<string>)
    | TokenRequestRaised

  /** What the page ends up showing. */
  datatype Outcome =
    | TokenRaised                      // the token request raised out of the script
    | AuthFailed                       // "Spotify Authentication Failed!"
    | SearchRaised(error: SearchError) // `search_spotify` raised
    | Songs(tracks: seq<Track>)        // the list, possibly empty ("No songs found")

  /** `not access_token`: both a missing token and the empty string are falsy. */
  predicate TokenMissing(token: Option<string>) {
    token.None? || token.value == ""
  }

  /** `musicGenre` is the reply's `music_genre` entry, `None` when absent; `token` is
      what the token request returned; `responses` answer the searches in order. */
  method Recommend(musicGenre: Option<seq<string>>, token: TokenReply, responses: seq<Response>)
    returns (genres: seq<string>, issued: seq<Query>, outcome: Outcome)
    requires |responses| == |Artists| * |NormalizedGenres(musicGenre.GetOr([]))|
    ensures genres == NormalizedGenres(musicGenre.GetOr([]))
    ensures outcome == TokenRaised <==> token.TokenRequestRaised?
    ensures outcome == AuthFailed <==> token.Token? && TokenMissing(token.accessToken)
    ensures outcome == TokenRaised || outcome == AuthFailed ==> issued == []
    ensures token.Token? && !TokenMissing(token.accessToken) ==>
      outcome == match SearchResult(responses)
                 case Ok(tracks) => Songs(tracks)
                 case Err(e) => SearchRaised(e)
    ensures outcome.Songs? ==> issued == QueryPlan(Artists, genres) && |issued| == 6 * |genres|
    ensures outcome.SearchRaised? ==>
      outcome.error.query < |QueryPlan(Artists, genres)| &&
      issued == QueryPlan(Artists, genres)[..outcome.error.query + 1]
  {
    var predicted := musicGenre.GetOr([]);
    genres := NormalizeGenres(predicted);
    match token
    case TokenRequestRaised =>
      issued := [];
      outcome := TokenRaised;
    case Token(accessToken) =>
      if TokenMissing(accessToken) {
        issued := [];
        outcome := AuthFailed;
      } else {
        var result;
        issued, result := SearchSpotify(Artists, genres, responses);
        QueryPlanLength(Artists, genres);
        match result
        case Ok(tracks) => outcome := Songs(tracks);
        case Err(e) => outcome := SearchRaised(e);
      }
  }
}
