# outfit-to-song: genre normalisation, catalog search ranking and tolerant model-output parsing

This project models, in Dafny, the deterministic core of `streamlit_app.py`. That
script turns a photo of an outfit into a list of songs. The model covers three parts:

- **Tolerant parsing of the vision model's reply** (`image_model`, module
  `ModelOutput`, `model_output.dfy`). The reply is stripped with Python's whitespace
  set, and an empty reply raises before anything is parsed. Otherwise there is a
  strict JSON parse, and if that fails, a parse of the first match of
  `\{[\s\S]*\}`: the text from the first `{` to the last `}`. `json.loads` is a
  parameter (`string -> Option<D>`). The model also records which texts were handed
  to it, so "no parse was attempted" is a statement about the model.
- **Genre normalisation** (the block at lines 188-198 with `GENRE_MAPPING`, module
  `Genres`, `genres.dfy`). Each label is lower-cased and looked up in the table.
  Hits are kept in order, with repeats, and misses are dropped. An empty outcome
  becomes `["hip-hop"]`. It is written as a method with the source's loop, proved
  against the function `NormalizedGenres`.
- **Catalog search and ranking** (`search_spotify`, modules `Search` and `Ranking`,
  `search.dfy`, `ranking.dfy`). There is one search per (artist, genre) pair,
  artist-major. A response whose status is not 200 is skipped. The hits of the other
  responses are flattened, with popularity 0 when it is absent. The list is then
  stable-sorted by popularity, descending, deduplicated on (name, artist) with the
  first occurrence winning, and cut to 20. The HTTP layer is an input:
  `responses[k]` is the reply to the k-th search, or the fact that the request
  raised. A raised request, an unreadable body (not JSON, `tracks` or `items` null)
  and a malformed item all escape `search_spotify` and abort the batch.
  `SearchSpotify` keeps the source's nested loops, its `seen`/`unique_tracks` loop and its inner append loop. It is
  proved against the function `SearchResult`, and the properties of that function
  are lemmas.
- The glue after the analysis (lines 188-205, module `App`, `app.dfy`). It reads
  `music_genre`, normalises it and checks the token for falsiness (`None` or `""`).
  Only when a token is present does it search for the fixed `ARTISTS`. A token
  request that raises escapes the script.

`wrappers.dfy` holds the `Option` and `Result` types, which stand for `None`,
missing keys and raised exceptions.

Three behaviours of the code are easy to misread, and the model keeps them as
written:
- The fallback candidate runs from the first `{` to the last `}` (a greedy regular
  expression). It is not found by a balanced-brace scan.
- When that candidate does not parse, the `json.loads` error escapes (line 71).
  That is `CandidateInvalid`, distinct from the "not valid JSON" error of line 73.
- The normalised genre list keeps repeated genres.

## Model

| member | source | states |
|---|---|---|
| `ModelOutput.StripLeading` | streamlit_app.py:59 | the result is a suffix of the reply, everything dropped is whitespace, and it does not start with whitespace |
| `ModelOutput.StripTrailing` | streamlit_app.py:59 | the result is a prefix of the text, everything dropped is whitespace, and it does not end with whitespace |
| `ModelOutput.StripProperties` | streamlit_app.py:59-62 | the stripped reply is empty exactly when the reply is all whitespace; otherwise it has no whitespace at either end; stripping is idempotent |
| `ModelOutput.StripKeeps` | streamlit_app.py:59 | text with no whitespace at either end is unchanged by stripping |
| `ModelOutput.FirstIndex` | streamlit_app.py:69 | none exactly when the character is absent; otherwise an index holding it with no earlier occurrence |
| `ModelOutput.LastIndex` | streamlit_app.py:69 | none exactly when the character is absent; otherwise an index holding it with no later occurrence |
| `ModelOutput.BraceCandidateIsFirstMatch` | streamlit_app.py:69-70 | there is no candidate exactly when no `{` has a `}` after it; otherwise the candidate is the leftmost, longest (greedy) match of `\{[\s\S]*\}`, as `re.findall(...)[0]` returns it |
| `ModelOutput.BraceCandidateMatch` | streamlit_app.py:69-71 | every candidate is such a first greedy match, and the lemma gives its bounds |
| `ModelOutput.BraceCandidateAfterPrefix` | streamlit_app.py:69-71 | text without `{` before an object that ends the reply is dropped, and the object is the candidate |
| `ModelOutput.ParseModelOutput` | streamlit_app.py:59-75 | the empty-output error is raised exactly when the stripped reply is empty, and exactly then nothing is parsed; the first parse is of the stripped reply, and when it succeeds its value is returned with no second parse; when it fails and a brace candidate exists, the candidate is parsed (and only then is there a second parse); a result is what the last parse returned; when it fails and there is no candidate, the error is "not valid JSON" carrying the stripped reply; a failed second parse gives `CandidateInvalid` carrying the candidate |
| `ModelOutput.EmptyOutputNeverParses` | streamlit_app.py:59-62 | whitespace-only output yields the empty-output error with no parse attempted, whatever the parser |
| `ModelOutput.WrappedObjectRecovered` | streamlit_app.py:64-71 | for `Here is the result: {"people_count": 1, "music_genre": ["Hip-Hop"]}` the strict parse is tried, then the object itself is parsed and returned |
| `Genres.NormalizeGenres` | streamlit_app.py:188-198 | the loop and fallback compute `NormalizedGenres`; the result is non-empty and uses only catalog genres |
| `Genres.VocabularyIsMappingImage` | streamlit_app.py:95-106 | the values of `GENRE_MAPPING` are exactly the ten catalog genres |
| `Genres.LowerIdempotent` | streamlit_app.py:192-193 | lower-casing is idempotent, so a label and its lower-cased form map alike |
| `Genres.MappedLabelsConcat` | streamlit_app.py:190-194 | mapping works label by label: a concatenation maps to the concatenation of the images, in order and with repeats |
| `Genres.MappedLabelsMembers` | streamlit_app.py:190-194 | a genre is in the mapped list exactly when some label lower-cases to a key that maps to it |
| `Genres.MappedLabelsEmpty` | streamlit_app.py:190-196 | the mapped list is empty exactly when no label maps |
| `Genres.NormalizedGenresPromises` | streamlit_app.py:190-198 | the result is never empty and holds only catalog genres; if no label maps (an empty input included) it is exactly `["hip-hop"]`; otherwise it is the mapped list unchanged |
| `Genres.NormalizedGenresExample` | streamlit_app.py:188-198 | `["Hip-Hop", "Jazz", "R&B", "hip-hop"]` gives `["hip-hop", "r-n-b", "hip-hop"]` (case ignored, unknown dropped, repeats kept); unknown-only and empty inputs give `["hip-hop"]` |
| `Search.QueryPlanLength` | streamlit_app.py:131-133 | exactly `\|artists\| * \|genres\|` searches are issued |
| `Search.QueryPlanAt` | streamlit_app.py:131-139 | the search for `(artists[i], genres[j])` is number `i * \|genres\| + j` (artist-major) and carries `q = artist:"<a>" genre:"<g>" year:2010-2025`, type `track`, limit 5, market `US` |
| `Search.FlattenItems` | streamlit_app.py:145-152 | it succeeds exactly when every item has a name, a first artist and a URL; it then yields one track per item, in order, each the item's flattening with popularity 0 when absent; otherwise it reports the first malformed item |
| `Search.HandleResponse` | streamlit_app.py:140-152 | the body of the inner search loop computes `Hits` of the response: the tracks that search appends to `all_tracks`, or the error it raises (what each case raises is stated by `Search.RaisedSearchAbortsBatch` and `Search.FailedSearchSkipped`) |
| `Search.CollectedStep` | streamlit_app.py:140-152 | collecting one more response appends what that search adds, or raises what it raises, unless an earlier search already raised |
| `Search.CollectedErrorSticks` | streamlit_app.py:140-152 | once a search raises, later responses do not change the outcome |
| `Search.RaisedSearchAbortsBatch` | streamlit_app.py:140-152 | when every earlier search went through, a raised request, a status-200 body whose items cannot be read, or a status-200 body with a malformed item makes `search_spotify` raise the matching error for that search, whatever the later responses |
| `Search.CollectedConcat` | streamlit_app.py:131-152 | collection is compositional: the tracks of a batch are those of its first part followed by those of its second part, and the first error wins |
| `Search.FailedSearchSkipped` | streamlit_app.py:142-143 | a search answered with a status other than 200 contributes no tracks and does not stop later searches |
| `Search.AllSearchesFailed` | streamlit_app.py:142-164 | when every search is answered with a status other than 200, the result is the empty list and nothing is raised |
| `Search.CollectedFromSuccessful` | streamlit_app.py:142-152 | every collected track is the flattening of an item of a response with status 200 |
| `Search.SearchResultPromises` | streamlit_app.py:124-164 | a returned list has at most 20 tracks, no (name, artist) twice, is ordered most popular first, and every track comes from a successful search |
| `Search.AppendHits` | streamlit_app.py:146-152 | the inner loop appends the flattened items to `all_tracks`, or stops at the first malformed item |
| `Search.Deduplicate` | streamlit_app.py:156-162 | the `seen`/`unique_tracks` loop computes `Dedup` of the sorted list |
| `Search.SearchSpotify` | streamlit_app.py:124-164 | the loops compute `SearchResult` of the responses; the searches sent are the whole artist-major plan, or its prefix up to and including the search whose item raised |
| `Ranking.RankedSortedPermutation` | streamlit_app.py:154 | the sorted list is ordered by popularity, most popular first, and is a permutation of the collected list |
| `Ranking.RankedStable` | streamlit_app.py:154 | for each popularity, the entries with that popularity appear in the sorted list exactly in their collected order (Python's sort is stable under `reverse=True`) |
| `Ranking.RankedIsTheStableSort` | streamlit_app.py:154 | any list ordered by popularity that keeps the collected order within each popularity equals `Ranked` of the collected list |
| `Ranking.SortedByFilters` | streamlit_app.py:154 | two lists ordered by popularity that agree within every popularity are equal |
| `Ranking.DedupSubsequence` | streamlit_app.py:156-162 | the deduplicated list keeps the entries it takes in their order |
| `Ranking.DedupKeys` | streamlit_app.py:156-162 | it has the same (name, artist) keys as its input, one entry per key |
| `Ranking.DedupDistinct` | streamlit_app.py:156-162 | no two entries share a (name, artist) key |
| `Ranking.DedupFirstWins` | streamlit_app.py:156-162 | each kept entry is the first entry of the input with its key |
| `Ranking.DedupNonIncreasing` | streamlit_app.py:154-162 | deduplicating a list sorted by popularity keeps it sorted |
| `Ranking.DedupKeepsMaximum` | streamlit_app.py:154-162 | over a list sorted by popularity, the kept entry for a key is at least as popular as every entry with that key |
| `Ranking.TopTracksBounded` | streamlit_app.py:156-164 | the result has at most 20 entries, no key twice, and exactly min(20, number of distinct collected keys) entries |
| `Ranking.TopTracksOrdered` | streamlit_app.py:154-164 | every returned entry was collected; the result is ordered most popular first; for each popularity, its entries are a subsequence of the collected ones in collected order |
| `Ranking.TopTracksBestPerKey` | streamlit_app.py:154-164 | the entry returned for a key has the maximum popularity among the collected entries with that key, and is the first such in ranked order |
| `Ranking.TruncateSkipsOnlyWorse` | streamlit_app.py:164 | in a list sorted by popularity, an entry is among the first 20, or those 20 are all present and none is less popular |
| `Ranking.TopTracksNothingSkipped` | streamlit_app.py:154-164 | a collected key is missing from the result only when the result is full, and then every returned entry is at least as popular as every entry with the missing key |
| `App.Recommend` | streamlit_app.py:188-205 | genres are normalised from `music_genre` (absent means empty); a token request that raises ends the run with no search; a falsy token (`None` or `""`) fails authentication and issues no search; otherwise the outcome is `search_spotify`'s result over `ARTISTS`, with all 6 × \|genres\| searches in plan order when it returns, and the plan up to and including the raising search when it raises |

## Left out

- The vision model call, its prompt (`prompt.py`) and the format instructions of the `ImageInformation` schema (lines 28-58) are foreign library calls. The model starts from the reply's text.
- The JSON grammar. `json.loads` is the parameter `loads`, which returns `None` where the real parser raises. A parsed value that is not an object, or whose `music_genre` is `null`, is not modelled.
- The token request (`get_spotify_access_token`, lines 108-122), the search request itself (line 140) and the base64 encoding of the credentials and the image (lines 40-45, 109-110) are network and library calls. Their results are inputs: the token reply is an optional `access_token` or the fact that the request raised, and `responses` holds one response per search (a reply or a raised request).
- Which particular exception a raising request or an unreadable body gives (connection error, timeout, `JSONDecodeError`, `AttributeError`, `TypeError`) is not distinguished. Each is one `SearchError` variant.
- A `popularity` that is `null` or not a number, and an `access_token` that is not a string. Malformed items are reduced to a missing name, a missing first artist or a missing URL.
- `str.lower` is modelled as far as a lookup in `GENRE_MAPPING` can tell: ASCII letters and the Kelvin sign. Other characters are kept. Neither they nor their true lower-case forms occur in a key.
- Streamlit page setup, upload, file writing, rendering and the secrets store (lines 21-25, 88-89, 166-212 except the parts modelled in `App.Recommend`) are presentation and configuration.
- The particular exception classes (`ValueError`, `KeyError`, `IndexError`, `JSONDecodeError`) are not distinguished beyond `ParseError` and `SearchError`.
