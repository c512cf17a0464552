/** The list pipeline at the end of `search_spotify`: a stable sort on popularity,
    descending, then deduplication on (name, artist) keeping the first occurrence,
    then truncation to the first 20 entries. */
module Ranking {

  /** One flattened search hit, as `search_spotify` appends it to `all_tracks`. */
  datatype Track = Track(name: string, artist: string, url: string, popularity: int)

  type TrackKey = (string, string)

  /** Identity under deduplication: the exact, case-sensitive (name, artist) pair. */
  function Key(t: Track): TrackKey {
    (t.name, t.artist)
  }

  /** Size of the returned list (`unique_tracks[:20]`). */
  const MaxResults: nat := 20

  /** The keys occurring in `s`. */
  function Keys(s: seq<Track>): set<TrackKey> {
    set t | t in s :: Key(t)
  }

  ghost predicate NonIncreasing(s: seq<Track>) {
    forall i, j :: 0 <= i < j < |s| ==> s[i].popularity >= s[j].popularity
  }

  ghost predicate DistinctKeys(s: seq<Track>) {
    forall i, j :: 0 <= i < j < |s| ==> Key(s[i]) != Key(s[j])
  }

  /** `a` is `b` with some entries dropped, the rest kept in order. */
  ghost predicate Subsequence<T>(a: seq<T>, b: seq<T>)
    decreases |b|
  {
    if a == [] then true
    else if b == [] then false
    else (a[|a| - 1] == b[|b| - 1] && Subsequence(a[..|a| - 1], b[..|b| - 1]))
         || Subsequence(a, b[..|b| - 1])
  }

  /** The entries of `s` whose popularity is `p`, in the order of `s`. */
  function WithPopularity(s: seq<Track>, p: int): seq<Track> {
    if s == [] then []
    else WithPopularity(s[..|s| - 1], p) + (if s[|s| - 1].popularity == p then [s[|s| - 1]] else [])
  }

  // ---------------------------------------------------------------------------
  // sorted(all_tracks, key=lambda x: x['popularity'], reverse=True)
  // ---------------------------------------------------------------------------

  /** Places `t` in front of the first entry that is not more popular than it. */
  function Insert(t: Track, s: seq<Track>): seq<Track> {
    if s == [] || t.popularity >= s[0].popularity then [t] + s
    else [s[0]] + Insert(t, s[1..])
  }

  /** Python's stable sort on popularity with `reverse=True`: most popular first,
      equal popularities in their original order. */
  function Ranked(s: seq<Track>): seq<Track> {
    if s == [] then [] else Insert(s[0], Ranked(s[1..]))
  }

  // ---------------------------------------------------------------------------
  // The `seen` / `unique_tracks` loop
  // ---------------------------------------------------------------------------

  /** Deduplication on `Key`, first occurrence wins: what `unique_tracks` holds
      after the loop has looked at every entry of `s`. */
  function Dedup(s: seq<Track>): seq<Track> {
    if s == [] then []
    else
      var d := Dedup(s[..|s| - 1]);
      if Key(s[|s| - 1]) in Keys(d) then d else d + [s[|s| - 1]]
  }

  /** The first entry of `s` with key `k`. */
  function FirstWithKey(s: seq<Track>, k: TrackKey): Track
    requires k in Keys(s)
  {
    var front := s[..|s| - 1];
    if k in Keys(front) then FirstWithKey(front, k) else s[|s| - 1]
  }

  /** `unique_tracks[:20]`. */
  function Truncate(s: seq<Track>): seq<Track> {
    if |s| <= MaxResults then s else s[..MaxResults]
  }

  /** What `search_spotify` returns for the collected list `all`. */
  function TopTracks(all: seq<Track>): seq<Track> {
    Truncate(Dedup(Ranked(all)))
  }

  // ---------------------------------------------------------------------------
  // Subsequences
  // ---------------------------------------------------------------------------

  lemma {:induction false} SubsequenceReflexive<T>(a: seq<T>)
    ensures Subsequence(a, a)
    decreases |a|
  {
    if a != [] {
      SubsequenceReflexive(a[..|a| - 1]);
    }
  }

  lemma {:induction false} SubsequenceMembers<T>(a: seq<T>, b: seq<T>)
    requires Subsequence(a, b)
    ensures forall x :: x in a ==> x in b
    decreases |b|
  {
    if a != [] {
      var a', b' := a[..|a| - 1], b[..|b| - 1];
      assert b == b' + [b[|b| - 1]];
      if a[|a| - 1] == b[|b| - 1] && Subsequence(a', b') {
        SubsequenceMembers(a', b');
        assert a == a' + [a[|a| - 1]];
      } else {
        SubsequenceMembers(a, b');
      }
    }
  }

  lemma {:induction false} SubsequenceTransitive<T>(a: seq<T>, b: seq<T>, c: seq<T>)
    requires Subsequence(a, b) && Subsequence(b, c)
    ensures Subsequence(a, c)
    decreases |c|
  {
    if a != [] {
      var a', b', c' := a[..|a| - 1], b[..|b| - 1], c[..|c| - 1];
      if b[|b| - 1] == c[|c| - 1] && Subsequence(b', c') {
        if a[|a| - 1] == b[|b| - 1] && Subsequence(a', b') {
          SubsequenceTransitive(a', b', c');
        } else {
          SubsequenceTransitive(a, b', c');
        }
      } else {
        SubsequenceTransitive(a, b, c');
      }
    }
  }

  /** A prefix is a subsequence. */
  lemma {:induction false} PrefixSubsequence<T>(s: seq<T>, n: nat)
    requires n <= |s|
    ensures Subsequence(s[..n], s)
    decreases |s|
  {
    if n == |s| {
      assert s[..n] == s;
      SubsequenceReflexive(s);
    } else {
      PrefixSubsequence(s[..|s| - 1], n);
      assert s[..|s| - 1][..n] == s[..n];
    }
  }

  // ---------------------------------------------------------------------------
  // Filtering by popularity
  // ---------------------------------------------------------------------------

  lemma {:induction false} WithPopularityConcat(a: seq<Track>, b: seq<Track>, p: int)
    ensures WithPopularity(a + b, p) == WithPopularity(a, p) + WithPopularity(b, p)
    decreases |b|
  {
    if b == [] {
      assert a + b == a;
    } else {
      var b' := b[..|b| - 1];
      assert (a + b)[..|a + b| - 1] == a + b';
      WithPopularityConcat(a, b', p);
    }
  }

  lemma {:induction false} WithPopularityMembers(s: seq<Track>, p: int)
    ensures forall t :: t in WithPopularity(s, p) <==> t in s && t.popularity == p
    decreases |s|
  {
    if s != [] {
      WithPopularityMembers(s[..|s| - 1], p);
      assert s == s[..|s| - 1] + [s[|s| - 1]];
    }
  }

  /** Keeping only one popularity does not disturb the relative order. */
  lemma {:induction false} WithPopularitySubsequence(a: seq<Track>, b: seq<Track>, p: int)
    requires Subsequence(a, b)
    ensures Subsequence(WithPopularity(a, p), WithPopularity(b, p))
    decreases |b|
  {
    if a == [] {
    } else {
      var a', b' := a[..|a| - 1], b[..|b| - 1];
      var x := b[|b| - 1];
      if a[|a| - 1] == x && Subsequence(a', b') {
        WithPopularitySubsequence(a', b', p);
        var fa, fb := WithPopularity(a', p), WithPopularity(b', p);
        if x.popularity == p {
          assert WithPopularity(a, p) == fa + [x];
          assert WithPopularity(b, p) == fb + [x];
          assert (fa + [x])[..|fa + [x]| - 1] == fa;
          assert (fb + [x])[..|fb + [x]| - 1] == fb;
        } else {
          assert WithPopularity(a, p) == fa;
          assert WithPopularity(b, p) == fb;
        }
      } else {
        WithPopularitySubsequence(a, b', p);
        var fa, fb := WithPopularity(a, p), WithPopularity(b', p);
        if x.popularity == p {
          assert WithPopularity(b, p) == fb + [x];
          assert (fb + [x])[..|fb + [x]| - 1] == fb;
        } else {
          assert WithPopularity(b, p) == fb;
        }
      }
    }
  }

  // ---------------------------------------------------------------------------
  // The sort: ordered, stable, a permutation
  // ---------------------------------------------------------------------------

  lemma WithPopularityCons(t: Track, s: seq<Track>, p: int)
    ensures WithPopularity([t] + s, p) == (if t.popularity == p then [t] else []) + WithPopularity(s, p)
  {
    WithPopularityConcat([t], s, p);
    assert [t][..0] == [];
  }

  lemma {:induction false} InsertStable(t: Track, s: seq<Track>, p: int)
    ensures WithPopularity(Insert(t, s), p)
         == (if t.popularity == p then [t] else []) + WithPopularity(s, p)
    decreases |s|
  {
    if s == [] || t.popularity >= s[0].popularity {
      WithPopularityCons(t, s, p);
    } else {
      var r := Insert(t, s[1..]);
      assert Insert(t, s) == [s[0]] + r;
      InsertStable(t, s[1..], p);
      WithPopularityCons(s[0], r, p);
      WithPopularityCons(s[0], s[1..], p);
      assert [s[0]] + s[1..] == s;
      var head, tail := (if s[0].popularity == p then [s[0]] else []), WithPopularity(s[1..], p);
      var own := if t.popularity == p then [t] else [];
      assert head == [] || own == [];
      assert head + (own + tail) == own + (head + tail);
    }
  }

  /** Ties keep their order: for every popularity, the entries with that popularity
      appear in the sorted list exactly as they did in the input. */
  lemma {:induction false} RankedStable(s: seq<Track>, p: int)
    ensures WithPopularity(Ranked(s), p) == WithPopularity(s, p)
    decreases |s|
  {
    if s != [] {
      RankedStable(s[1..], p);
      InsertStable(s[0], Ranked(s[1..]), p);
      WithPopularityCons(s[0], s[1..], p);
      assert [s[0]] + s[1..] == s;
    }
  }

  lemma {:induction false} InsertPermutation(t: Track, s: seq<Track>)
    ensures multiset(Insert(t, s)) == multiset(s) + multiset{t}
    decreases |s|
  {
    if s != [] && t.popularity < s[0].popularity {
      InsertPermutation(t, s[1..]);
      assert s == [s[0]] + s[1..];
    }
  }

  /** An entry at least as popular as every entry of a sorted list can go first. */
  lemma ConsNonIncreasing(a: Track, r: seq<Track>)
    requires NonIncreasing(r)
    requires forall x :: x in r ==> x.popularity <= a.popularity
    ensures NonIncreasing([a] + r)
  {
    var r' := [a] + r;
    forall i, j | 0 <= i < j < |r'| ensures r'[i].popularity >= r'[j].popularity {
      assert r'[j] == r[j - 1];
      if i > 0 {
        assert r'[i] == r[i - 1];
      }
    }
  }

  lemma {:induction false} InsertNonIncreasing(t: Track, s: seq<Track>)
    requires NonIncreasing(s)
    ensures NonIncreasing(Insert(t, s))
    decreases |s|
  {
    if s != [] && t.popularity < s[0].popularity {
      assert NonIncreasing(s[1..]);
      InsertNonIncreasing(t, s[1..]);
      InsertPermutation(t, s[1..]);
      var r := Insert(t, s[1..]);
      forall x | x in r ensures x.popularity <= s[0].popularity {
        assert x in multiset(r);
        if x != t {
          var k :| 0 <= k < |s[1..]| && s[1..][k] == x;
          assert s[k + 1] == x;
        }
      }
      ConsNonIncreasing(s[0], r);
    }
  }

  /** The sorted list is ordered by popularity, most popular first, and holds
      exactly the entries of the input. */
  lemma {:induction false} RankedSortedPermutation(s: seq<Track>)
    ensures NonIncreasing(Ranked(s))
    ensures multiset(Ranked(s)) == multiset(s)
    decreases |s|
  {
    if s != [] {
      var rest := Ranked(s[1..]);
      assert Ranked(s) == Insert(s[0], rest);
      RankedSortedPermutation(s[1..]);
      InsertNonIncreasing(s[0], rest);
      InsertPermutation(s[0], rest);
      assert s == [s[0]] + s[1..];
      assert multiset(s) == multiset{s[0]} + multiset(s[1..]);
    }
  }

  lemma SameFiltersSameMembers(r: seq<Track>, q: seq<Track>)
    requires forall p :: WithPopularity(r, p) == WithPopularity(q, p)
    ensures forall t :: t in r <==> t in q
  {
    forall t ensures t in r <==> t in q {
      WithPopularityMembers(r, t.popularity);
      WithPopularityMembers(q, t.popularity);
    }
  }

  /** Two lists with the same entries, both sorted by popularity, end with entries
      of the same popularity. */
  lemma SortedLastPopularity(r: seq<Track>, q: seq<Track>)
    requires NonIncreasing(r) && NonIncreasing(q)
    requires r != [] && q != []
    requires forall t :: t in r <==> t in q
    ensures r[|r| - 1].popularity == q[|q| - 1].popularity
  {
    var a, b := r[|r| - 1], q[|q| - 1];
    assert a in r && b in q;
    var i :| 0 <= i < |q| && q[i] == a;
    var j :| 0 <= j < |r| && r[j] == b;
  }

  lemma WithPopularitySnoc(s: seq<Track>, x: Track, p: int)
    ensures WithPopularity(s + [x], p) == WithPopularity(s, p) + (if x.popularity == p then [x] else [])
  {
    assert (s + [x])[..|s|] == s;
  }

  lemma SnocCancel(x: seq<Track>, a: Track, y: seq<Track>, b: Track)
    requires x + [a] == y + [b]
    ensures x == y && a == b
  {
    assert |x| == |y|;
    assert (x + [a])[..|x|] == x && (y + [b])[..|y|] == y;
    assert (x + [a])[|x|] == a && (y + [b])[|y|] == b;
  }

  /** Dropping two last entries of the same popularity, for one popularity `p`. */
  lemma FilterDropLastAt(r: seq<Track>, a: Track, q: seq<Track>, b: Track, p: int)
    requires a.popularity == b.popularity
    requires WithPopularity(r + [a], p) == WithPopularity(q + [b], p)
    ensures WithPopularity(r, p) == WithPopularity(q, p)
    ensures p == a.popularity ==> a == b
  {
    WithPopularitySnoc(r, a, p);
    WithPopularitySnoc(q, b, p);
    var x, y := WithPopularity(r, p), WithPopularity(q, p);
    if p == a.popularity {
      assert x + [a] == y + [b];
      SnocCancel(x, a, y, b);
    } else {
      assert x + [] == x && y + [] == y;
    }
  }

  /** Agreement within every popularity survives dropping two last entries of the
      same popularity, and those entries are equal. */
  lemma FiltersDropLast(r: seq<Track>, a: Track, q: seq<Track>, b: Track)
    requires a.popularity == b.popularity
    requires forall p :: WithPopularity(r + [a], p) == WithPopularity(q + [b], p)
    ensures a == b
    ensures forall p :: WithPopularity(r, p) == WithPopularity(q, p)
  {
    forall p ensures WithPopularity(r, p) == WithPopularity(q, p) {
      FilterDropLastAt(r, a, q, b, p);
    }
    FilterDropLastAt(r, a, q, b, a.popularity);
  }

  lemma NonIncreasingDropLast(s: seq<Track>)
    requires NonIncreasing(s) && s != []
    ensures NonIncreasing(s[..|s| - 1])
  {
  }

  /** Two lists sorted by popularity that agree entry for entry within every
      popularity are the same list. */
  lemma {:induction false} SortedByFilters(r: seq<Track>, q: seq<Track>)
    requires NonIncreasing(r) && NonIncreasing(q)
    requires forall p :: WithPopularity(r, p) == WithPopularity(q, p)
    ensures r == q
    decreases |r|
  {
    SameFiltersSameMembers(r, q);
    assert r != [] ==> r[0] in q;
    assert q != [] ==> q[0] in r;
    if r != [] && q != [] {
      var r', a := r[..|r| - 1], r[|r| - 1];
      var q', b := q[..|q| - 1], q[|q| - 1];
      SortedLastPopularity(r, q);
      assert r == r' + [a] && q == q' + [b];
      FiltersDropLast(r', a, q', b);
      NonIncreasingDropLast(r);
      NonIncreasingDropLast(q);
      SortedByFilters(r', q');
    }
  }

  /** `Ranked` is the stable descending sort: any list ordered by popularity, most
      popular first, that keeps the input's entries of each popularity in their
      input order is `Ranked` of the input. */
  lemma RankedIsTheStableSort(s: seq<Track>, r: seq<Track>)
    requires NonIncreasing(r)
    requires forall p :: WithPopularity(r, p) == WithPopularity(s, p)
    ensures r == Ranked(s)
  {
    RankedSortedPermutation(s);
    forall p ensures WithPopularity(r, p) == WithPopularity(Ranked(s), p) {
      RankedStable(s, p);
    }
    SortedByFilters(r, Ranked(s));
  }

  // ---------------------------------------------------------------------------
  // Deduplication
  // ---------------------------------------------------------------------------

  lemma KeysAppend(s: seq<Track>, t: Track)
    ensures Keys(s + [t]) == Keys(s) + {Key(t)}
  {
    assert forall x :: x in s + [t] <==> x in s || x == t;
  }

  /** `unique_tracks` keeps the entries it takes in their order. */
  lemma {:induction false} DedupSubsequence(s: seq<Track>)
    ensures Subsequence(Dedup(s), s)
    decreases |s|
  {
    if s != [] {
      var s', x := s[..|s| - 1], s[|s| - 1];
      DedupSubsequence(s');
      var d := Dedup(s');
      if Key(x) !in Keys(d) {
        assert (d + [x])[..|d|] == d;
      }
    }
  }

  /** `unique_tracks` covers every key of its input, with one entry per key. */
  lemma {:induction false} DedupKeys(s: seq<Track>)
    ensures Keys(Dedup(s)) == Keys(s)
    ensures |Dedup(s)| == |Keys(s)|
    decreases |s|
  {
    if s != [] {
      var s', x := s[..|s| - 1], s[|s| - 1];
      assert s == s' + [x];
      DedupKeys(s');
      KeysAppend(s', x);
      var d := Dedup(s');
      if Key(x) !in Keys(d) {
        KeysAppend(d, x);
      }
    }
  }

  /** `unique_tracks` never holds the same (name, artist) pair twice. */
  lemma {:induction false} DedupDistinct(s: seq<Track>)
    ensures DistinctKeys(Dedup(s))
    decreases |s|
  {
    if s != [] {
      var s', x := s[..|s| - 1], s[|s| - 1];
      DedupDistinct(s');
      var d := Dedup(s');
      if Key(x) !in Keys(d) {
        forall i | 0 <= i < |d| ensures Key(d[i]) != Key(x) {
          assert d[i] in d;
        }
      }
    }
  }

  /** First occurrence wins: each kept entry is the first entry of the input with
      its key. */
  lemma {:induction false} DedupFirstWins(s: seq<Track>)
    ensures forall t :: t in Dedup(s) ==> Key(t) in Keys(s) && t == FirstWithKey(s, Key(t))
    decreases |s|
  {
    if s != [] {
      var s', x := s[..|s| - 1], s[|s| - 1];
      assert s == s' + [x];
      DedupFirstWins(s');
      DedupKeys(s');
      KeysAppend(s', x);
    }
  }

  lemma {:induction false} DedupNonIncreasing(s: seq<Track>)
    requires NonIncreasing(s)
    ensures NonIncreasing(Dedup(s))
    decreases |s|
  {
    if s != [] {
      var s', x := s[..|s| - 1], s[|s| - 1];
      assert NonIncreasing(s');
      DedupNonIncreasing(s');
      var d := Dedup(s');
      if Key(x) !in Keys(d) {
        DedupSubsequence(s');
        SubsequenceMembers(d, s');
        var r := d + [x];
        forall i, j | 0 <= i < j < |r| ensures r[i].popularity >= r[j].popularity {
          if j == |d| {
            assert r[i] in s';
          }
        }
      }
    }
  }

  /** In a list sorted by popularity, the last entry is the least popular. */
  lemma SortedLastIsLeast(s: seq<Track>)
    requires NonIncreasing(s) && s != []
    ensures forall v :: v in s[..|s| - 1] ==> s[|s| - 1].popularity <= v.popularity
  {
    forall v | v in s[..|s| - 1] ensures s[|s| - 1].popularity <= v.popularity {
      var i :| 0 <= i < |s| - 1 && s[i] == v;
    }
  }

  /** One step of `DedupKeepsMaximum`: the last entry `x` is the least popular, so
      whether it is kept or dropped, no kept entry is beaten by an entry with its key. */
  lemma KeepsMaximumStep(s: seq<Track>, x: Track)
    requires forall t, u :: t in Dedup(s) && u in s && Key(u) == Key(t) ==> u.popularity <= t.popularity
    requires forall v :: v in Dedup(s) ==> v in s
    requires forall v :: v in s ==> x.popularity <= v.popularity
    requires Keys(Dedup(s)) == Keys(s)
    ensures forall t, u :: t in Dedup(s + [x]) && u in s + [x] && Key(u) == Key(t) ==> u.popularity <= t.popularity
  {
    var d := Dedup(s);
    assert (s + [x])[..|s|] == s;
    assert Dedup(s + [x]) == if Key(x) in Keys(d) then d else d + [x];
    forall t, u | t in Dedup(s + [x]) && u in s + [x] && Key(u) == Key(t) ensures u.popularity <= t.popularity {
      if u == x {
        if t != x {
          assert t in d;
        }
      } else {
        assert u in s;
        assert Key(u) in Keys(s);
        assert t in d;
      }
    }
  }

  /** Over a list sorted by popularity, the entry kept for a key is at least as
      popular as every entry with that key. */
  lemma {:induction false} DedupKeepsMaximum(s: seq<Track>)
    requires NonIncreasing(s)
    ensures forall t, u :: t in Dedup(s) && u in s && Key(u) == Key(t) ==> u.popularity <= t.popularity
    decreases |s|
  {
    if s != [] {
      var s' := s[..|s| - 1];
      assert NonIncreasing(s');
      DedupKeepsMaximum(s');
      DedupKeys(s');
      DedupSubsequence(s');
      SubsequenceMembers(Dedup(s'), s');
      SortedLastIsLeast(s);
      assert s == s' + [s[|s| - 1]];
      KeepsMaximumStep(s', s[|s| - 1]);
    }
  }

  // ---------------------------------------------------------------------------
  // What `search_spotify` promises of its result
  // ---------------------------------------------------------------------------

  lemma RankedMembers(all: seq<Track>)
    ensures forall x :: x in Ranked(all) <==> x in all
    ensures Keys(Ranked(all)) == Keys(all)
  {
    RankedSortedPermutation(all);
    forall x ensures x in Ranked(all) <==> x in all {
      assert x in Ranked(all) <==> x in multiset(Ranked(all));
    }
  }

  /** At most 20 entries, no (name, artist) pair twice, and exactly
      min(20, number of distinct collected pairs) entries. */
  lemma TopTracksBounded(all: seq<Track>)
    ensures |TopTracks(all)| <= MaxResults
    ensures DistinctKeys(TopTracks(all))
    ensures |TopTracks(all)| == if |Keys(all)| <= MaxResults then |Keys(all)| else MaxResults
  {
    var r := Ranked(all);
    DedupKeys(r);
    DedupDistinct(r);
    RankedMembers(all);
  }

  /** Every returned entry was collected; the result is ordered by popularity, most
      popular first; entries of equal popularity keep their collected order. */
  lemma TopTracksOrdered(all: seq<Track>)
    ensures forall t :: t in TopTracks(all) ==> t in all
    ensures NonIncreasing(TopTracks(all))
    ensures forall p :: Subsequence(WithPopularity(TopTracks(all), p), WithPopularity(all, p))
  {
    var r := Ranked(all);
    var d := Dedup(r);
    RankedSortedPermutation(all);
    RankedMembers(all);
    DedupSubsequence(r);
    DedupNonIncreasing(r);
    var top := TopTracks(all);
    PrefixSubsequence(d, |top|);
    assert top == d[..|top|];
    SubsequenceTransitive(top, d, r);
    SubsequenceMembers(top, r);
    forall p ensures Subsequence(WithPopularity(top, p), WithPopularity(all, p)) {
      WithPopularitySubsequence(top, r, p);
      RankedStable(all, p);
    }
  }

  /** The entry returned for a (name, artist) pair is the most popular collected
      entry with that pair, and the first such in ranked order. */
  lemma TopTracksBestPerKey(all: seq<Track>)
    ensures forall t, u :: t in TopTracks(all) && u in all && Key(u) == Key(t) ==> u.popularity <= t.popularity
    ensures forall t :: t in TopTracks(all) ==>
      Key(t) in Keys(Ranked(all)) && t == FirstWithKey(Ranked(all), Key(t))
  {
    var r := Ranked(all);
    var d := Dedup(r);
    RankedSortedPermutation(all);
    RankedMembers(all);
    DedupKeepsMaximum(r);
    DedupFirstWins(r);
    var top := TopTracks(all);
    assert top == d[..|top|];
  }

  /** In a list sorted by popularity, an entry is either among the first 20, or
      those are all there and none of them is less popular. */
  lemma TruncateSkipsOnlyWorse(d: seq<Track>, m: nat)
    requires NonIncreasing(d)
    requires m < |d|
    ensures d[m] in Truncate(d)
         || (|Truncate(d)| == MaxResults && forall t :: t in Truncate(d) ==> t.popularity >= d[m].popularity)
  {
    var top := Truncate(d);
    if m < |top| {
      assert top[m] == d[m];
    } else {
      forall t | t in top ensures t.popularity >= d[m].popularity {
        var i :| 0 <= i < |top| && top[i] == t;
        assert top[i] == d[i];
      }
    }
  }

  /** Nothing better is skipped: a collected (name, artist) pair missing from the
      result only happens when the result is full, and then every returned entry is
      at least as popular as every entry with the missing pair. */
  lemma TopTracksNothingSkipped(all: seq<Track>)
    ensures forall u :: u in all && Key(u) !in Keys(TopTracks(all)) ==>
      |TopTracks(all)| == MaxResults && forall t :: t in TopTracks(all) ==> t.popularity >= u.popularity
  {
    var r := Ranked(all);
    var d := Dedup(r);
    RankedSortedPermutation(all);
    RankedMembers(all);
    DedupKeys(r);
    DedupNonIncreasing(r);
    DedupKeepsMaximum(r);
    var top := TopTracks(all);
    forall u | u in all && Key(u) !in Keys(top)
      ensures |top| == MaxResults && forall t :: t in top ==> t.popularity >= u.popularity
    {
      assert Key(u) in Keys(d);
      var m :| 0 <= m < |d| && Key(d[m]) == Key(u);
      assert d[m] !in top;
      TruncateSkipsOnlyWorse(d, m);
      assert d[m] in d;
    }
  }
}
