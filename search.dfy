/** The search filter: the queue is the playlist's tracks whose title or artist contains the query. */
module Search {
  import opened Catalog
  import Text

  /** Case-insensitive match of the query against the title or the artist. */
  predicate Matches(t: Track, query: string)
    ensures query == "" ==> Matches(t, query)
  {
    Text.Includes(Text.Lower(t.title), Text.Lower(query)) ||
    Text.Includes(Text.Lower(t.artist), Text.Lower(query))
  }

  /** `tracks.filter(t => Matches(t, query))`. */
  function Filter(tracks: seq<Track>, query: string): (r: seq<Track>)
    ensures |r| <= |tracks|
    ensures forall t :: t in r ==> t in tracks && Matches(t, query)
  {
    if tracks == [] then []
    else (if Matches(tracks[0], query) then [tracks[0]] else []) + Filter(tracks[1..], query)
  }

  /** `r` is `s` with some elements deleted, the rest kept in their order. */
  predicate IsSubsequence(r: seq<Track>, s: seq<Track>)
    decreases |s|
  {
    if r == [] then true
    else if s == [] then false
    else (r[0] == s[0] && IsSubsequence(r[1..], s[1..])) || IsSubsequence(r, s[1..])
  }

  /** A track is kept exactly when it is in the input and matches the query. */
  lemma {:induction false} FilterMembers(tracks: seq<Track>, query: string, t: Track)
    ensures t in Filter(tracks, query) <==> t in tracks && Matches(t, query)
  {
    if tracks != [] {
      FilterMembers(tracks[1..], query, t);
      assert tracks == [tracks[0]] + tracks[1..];
    }
  }

  /** Each track occurs in the result as often as in the input if it matches, else never. */
  lemma {:induction false} FilterCounts(tracks: seq<Track>, query: string, t: Track)
    ensures multiset(Filter(tracks, query))[t] == if Matches(t, query) then multiset(tracks)[t] else 0
  {
    if tracks != [] {
      FilterCounts(tracks[1..], query, t);
      assert tracks == [tracks[0]] + tracks[1..];
    }
  }

  /** The result keeps the catalog order of the tracks it keeps. */
  lemma {:induction false} FilterIsSubsequence(tracks: seq<Track>, query: string)
    ensures IsSubsequence(Filter(tracks, query), tracks)
  {
    if tracks != [] {
      FilterIsSubsequence(tracks[1..], query);
      var r := Filter(tracks, query);
      if Matches(tracks[0], query) {
        assert r[0] == tracks[0] && r[1..] == Filter(tracks[1..], query);
      } else {
        assert r == Filter(tracks[1..], query);
      }
    }
  }

  /** Filtering a concatenation filters each part: the relative order of kept tracks is preserved. */
  lemma {:induction false} FilterConcat(a: seq<Track>, b: seq<Track>, query: string)
    ensures Filter(a + b, query) == Filter(a, query) + Filter(b, query)
  {
    if a != [] {
      var head := if Matches(a[0], query) then [a[0]] else [];
      assert (a + b)[0] == a[0] && (a + b)[1..] == a[1..] + b;
      calc {
        Filter(a + b, query);
        head + Filter(a[1..] + b, query);
        { FilterConcat(a[1..], b, query); }
        head + (Filter(a[1..], query) + Filter(b, query));
        (head + Filter(a[1..], query)) + Filter(b, query);
      }
    } else {
      assert a + b == b;
    }
  }

  /** When every track matches, the filter returns its input unchanged. */
  lemma {:induction false} FilterAllMatch(tracks: seq<Track>, query: string)
    requires forall t :: t in tracks ==> Matches(t, query)
    ensures Filter(tracks, query) == tracks
  {
    if tracks != [] {
      FilterAllMatch(tracks[1..], query);
      assert tracks == [tracks[0]] + tracks[1..];
    }
  }

  /** The empty query keeps the whole track list, in order. */
  lemma FilterEmptyQuery(tracks: seq<Track>)
    ensures Filter(tracks, "") == tracks
  {
    FilterAllMatch(tracks, "");
  }

  /** Filtering twice with the same query is filtering once. */
  lemma FilterIdempotent(tracks: seq<Track>, query: string)
    ensures Filter(Filter(tracks, query), query) == Filter(tracks, query)
  {
    FilterAllMatch(Filter(tracks, query), query);
  }

  /** Filtering a list with unique ids gives a list with unique ids. */
  lemma {:induction false} FilterUniqueIds(tracks: seq<Track>, query: string)
    requires UniqueIds(tracks)
    ensures UniqueIds(Filter(tracks, query))
  {
    if tracks != [] {
      var rest := Filter(tracks[1..], query);
      FilterUniqueIds(tracks[1..], query);
      if Matches(tracks[0], query) {
        var r := Filter(tracks, query);
        assert r == [tracks[0]] + rest;
        forall i, j | 0 <= i < j < |r| ensures r[i].id != r[j].id {
          if i == 0 {
            assert r[j] in rest;
            var k :| 1 <= k < |tracks| && tracks[k] == r[j];
          } else {
            assert r[i] == rest[i - 1] && r[j] == rest[j - 1];
          }
        }
      }
    }
  }
}
