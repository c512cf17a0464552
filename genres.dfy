/** Genre normalisation: the block that turns the model's `music_genre` labels
    into genres the catalog search understands, with the `GENRE_MAPPING` table. */
module Genres {

  /** `GENRE_MAPPING`: lower-cased label to catalog genre. */
  const GenreMapping: map<string, string> := map[
    "hip-hop" := "hip-hop",
    "trap" := "trap",
    "r&b" := "r-n-b",
    "pop" := "pop",
    "soul" := "soul",
    "edm" := "edm",
    "rock" := "rock",
    "indie rock" := "indie",
    "synthwave" := "synthwave",
    "electronic" := "electronic"
  ]

  /** The genres the search may be asked for. */
  const Vocabulary: set<string> :=
    {"hip-hop", "trap", "r-n-b", "pop", "soul", "edm", "rock", "indie", "synthwave", "electronic"}

  /** The genre used when no label maps. */
  const DefaultGenre: string := "hip-hop"

  /** `str.lower` on one character, as far as it matters for a lookup in
      `GENRE_MAPPING`, whose keys are ASCII: A-Z become a-z and the Kelvin sign,
      whose lower case is the ASCII letter k, becomes 'k'. Other characters are
      kept; no key contains them or what they lower-case to. */
  function LowerChar(c: char): char {
    if 'A' <= c <= 'Z' then (c as int + 32) as char
    else if c == '\U{212A}' then 'k'
    else c
  }

  function Lower(s: string): string {
    seq(|s|, i requires 0 <= i < |s| => LowerChar(s[i]))
  }

  /** The label has an entry in `GENRE_MAPPING` once lower-cased. */
  predicate Maps(genre: string) {
    Lower(genre) in GenreMapping
  }

  /** `mapped_genres` after the loop: the image of every label that maps, in label
      order; labels that do not map are dropped. */
  function MappedLabels(labels: seq<string>): seq<string> {
    if labels == [] then []
    else
      var last := labels[|labels| - 1];
      MappedLabels(labels[..|labels| - 1]) + (if Maps(last) then [GenreMapping[Lower(last)]] else [])
  }

  /** `mapped_genres` after the fallback. */
  function NormalizedGenres(labels: seq<string>): seq<string> {
    var mapped := MappedLabels(labels);
    if mapped == [] then [DefaultGenre] else mapped
  }

  /** The loop over `predicted_genres` and the fallback to hip-hop. */
  method NormalizeGenres(predicted: seq<string>) returns (mapped: seq<string>)
    ensures mapped == NormalizedGenres(predicted)
    ensures mapped != []
    ensures forall g :: g in mapped ==> g in Vocabulary
  {
    mapped := [];
    var n := 0;
    while n < |predicted|
      invariant 0 <= n <= |predicted|
      invariant mapped == MappedLabels(predicted[..n])
    {
      var key := Lower(predicted[n]);
      assert predicted[..n + 1][..n] == predicted[..n];
      if key in GenreMapping {
        mapped := mapped + [GenreMapping[key]];
      }
      n := n + 1;
    }
    assert predicted[..n] == predicted;
    if mapped == [] {
      mapped := [DefaultGenre];
    }
    NormalizedGenresPromises(predicted);
  }

  // ---------------------------------------------------------------------------
  // Properties
  // ---------------------------------------------------------------------------

  lemma VocabularyIsMappingImage()
    ensures GenreMapping.Values == Vocabulary
  {
    assert GenreMapping["hip-hop"] == "hip-hop";
    assert GenreMapping["trap"] == "trap";
    assert GenreMapping["r&b"] == "r-n-b";
    assert GenreMapping["pop"] == "pop";
    assert GenreMapping["soul"] == "soul";
    assert GenreMapping["edm"] == "edm";
    assert GenreMapping["rock"] == "rock";
    assert GenreMapping["indie rock"] == "indie";
    assert GenreMapping["synthwave"] == "synthwave";
    assert GenreMapping["electronic"] == "electronic";
  }

  /** Lower-casing twice changes nothing more, so a label and its lower-cased form
      map alike. */
  lemma LowerIdempotent(s: string)
    ensures Lower(Lower(s)) == Lower(s)
    ensures Maps(s) <==> Maps(Lower(s))
  {
    forall i | 0 <= i < |s| ensures LowerChar(LowerChar(s[i])) == LowerChar(s[i]) {
    }
  }

  /** Mapping is label by label: the labels of a concatenation map to the
      concatenation of their images, in order and with repetitions. */
  lemma {:induction false} MappedLabelsConcat(a: seq<string>, b: seq<string>)
    ensures MappedLabels(a + b) == MappedLabels(a) + MappedLabels(b)
    decreases |b|
  {
    if b == [] {
      assert a + b == a;
    } else {
      var b' := b[..|b| - 1];
      assert (a + b)[..|a + b| - 1] == a + b';
      assert (a + b)[|a + b| - 1] == b[|b| - 1];
      MappedLabelsConcat(a, b');
    }
  }

  /** The label lower-cases to a key of `GENRE_MAPPING` whose genre is `g`. */
  predicate MapsTo(genre: string, g: string) {
    Maps(genre) && GenreMapping[Lower(genre)] == g
  }

  /** A genre is in the mapped list exactly when some label maps to it. */
  lemma {:induction false} MappedLabelsMembers(labels: seq<string>)
    ensures forall g :: g in MappedLabels(labels) <==> exists i :: 0 <= i < |labels| && MapsTo(labels[i], g)
    decreases |labels|
  {
    if labels != [] {
      var front, last := labels[..|labels| - 1], labels[|labels| - 1];
      MappedLabelsMembers(front);
      var image := if Maps(last) then [GenreMapping[Lower(last)]] else [];
      assert MappedLabels(labels) == MappedLabels(front) + image;
      assert forall g :: g in image <==> MapsTo(last, g);
      forall g ensures g in MappedLabels(labels) <==> exists i :: 0 <= i < |labels| && MapsTo(labels[i], g)
      {
        if g in MappedLabels(front) {
          var i :| 0 <= i < |front| && MapsTo(front[i], g);
          assert labels[i] == front[i];
        }
        if exists i :: 0 <= i < |labels| && MapsTo(labels[i], g) {
          var i :| 0 <= i < |labels| && MapsTo(labels[i], g);
          if i < |front| {
            assert front[i] == labels[i];
          }
        }
      }
    }
  }

  /** Nothing maps exactly when the mapped list is empty. */
  lemma {:induction false} MappedLabelsEmpty(labels: seq<string>)
    ensures MappedLabels(labels) == [] <==> forall i :: 0 <= i < |labels| ==> !Maps(labels[i])
    decreases |labels|
  {
    if labels != [] {
      var front := labels[..|labels| - 1];
      MappedLabelsEmpty(front);
      assert forall i :: 0 <= i < |front| ==> front[i] == labels[i];
    }
  }

  /** The normalised list is never empty and uses only catalog genres; when no label
      maps (an empty list included) it is exactly [hip-hop], and otherwise it is the
      mapped list, unchanged. */
  lemma NormalizedGenresPromises(labels: seq<string>)
    ensures NormalizedGenres(labels) != []
    ensures forall g :: g in NormalizedGenres(labels) ==> g in Vocabulary
    ensures (forall i :: 0 <= i < |labels| ==> !Maps(labels[i])) ==> NormalizedGenres(labels) == [DefaultGenre]
    ensures (exists i :: 0 <= i < |labels| && Maps(labels[i])) ==> NormalizedGenres(labels) == MappedLabels(labels)
  {
    MappedLabelsEmpty(labels);
    MappedLabelsMembers(labels);
    VocabularyIsMappingImage();
  }

  /** Case is ignored, unknown labels are dropped, and repeated genres are kept. */
  lemma NormalizedGenresExample()
    ensures NormalizedGenres(["Hip-Hop", "Jazz", "R&B", "hip-hop"]) == ["hip-hop", "r-n-b", "hip-hop"]
    ensures NormalizedGenres(["Jazz", "Classical"]) == [DefaultGenre]
    ensures NormalizedGenres([]) == [DefaultGenre]
  {
    var hh, jazz, rb, hh2, cl := "Hip-Hop", "Jazz", "R&B", "hip-hop", "Classical";
    assert Lower(hh) == "hip-hop" && Lower(hh2) == "hip-hop";
    assert Lower(rb) == "r&b";
    assert Lower(jazz) == "jazz" && "jazz" !in GenreMapping;
    assert Lower(cl) == "classical" && "classical" !in GenreMapping;
    var ls := [hh, jazz, rb, hh2];
    assert ls[..3][..2][..1][..0] == [];
    assert MappedLabels(ls[..1]) == ["hip-hop"] by {
      assert ls[..1][..0] == [];
    }
    assert MappedLabels(ls[..2]) == ["hip-hop"] by {
      assert ls[..2][..1] == ls[..1];
    }
    assert MappedLabels(ls[..3]) == ["hip-hop", "r-n-b"] by {
      assert ls[..3][..2] == ls[..2];
    }
    assert MappedLabels(ls) == ["hip-hop", "r-n-b", "hip-hop"] by {
      assert ls[..3] == ls[..|ls| - 1];
    }
    var js := [jazz, cl];
    assert MappedLabels(js) == [] by {
      assert js[..1] == [jazz];
      assert js[..1][..0] == [];
    }
  }
}
