/**
 * `search_songs` (app.py): looks every song up in the catalog, keeps the first
 * match of each search that returns one, and skips songs whose search returns
 * nothing or raises.
 */
module TrackSearch {
  import opened Outcomes
  import opened Services
  import opened SongParser

  /** The catalog query for one song. */
  function SearchQuery(song: Song): string {
    "track:" + song.title + " artist:" + song.artist
  }

  /** The search requests for `songs`: one per song, in order. */
  function SearchCalls(songs: seq<Song>): (calls: seq<Call>)
    ensures |calls| == |songs|
  {
    seq(|songs|, k requires 0 <= k < |songs| => Search(SearchQuery(songs[k])))
  }

  /** One more song adds its request at the end. */
  lemma SearchCallsSnoc(a: seq<Song>, song: Song)
    ensures SearchCalls(a + [song]) == SearchCalls(a) + [Search(SearchQuery(song))]
  {
    assert forall k :: 0 <= k < |a| ==> (a + [song])[k] == a[k];
  }

  /** What one search contributes: the first match, or nothing for no match or an exception. */
  function TopHit(r: Result<seq<Uri>>): seq<Uri> {
    if r.Ok? && r.value != [] then [r.value[0]] else []
  }

  /** The identifiers found for `songs`, in the order of the songs, at most one per song. */
  function Resolve(songs: seq<Song>, search: Searcher): (uris: seq<Uri>)
    ensures |uris| <= |songs|
  {
    if songs == [] then []
    else TopHit(search(SearchQuery(songs[0]))) + Resolve(songs[1..], search)
  }

  /** Songs are resolved independently and in order: resolving `a + b` resolves `a`, then `b`. */
  lemma {:induction false} ResolveAppend(a: seq<Song>, b: seq<Song>, search: Searcher)
    ensures Resolve(a + b, search) == Resolve(a, search) + Resolve(b, search)
  {
    if a != [] {
      assert (a + b)[1..] == a[1..] + b;
      ResolveAppend(a[1..], b, search);
    } else {
      assert a + b == b;
    }
  }

  /** A song whose search finds nothing or raises contributes nothing, and the songs after it
      are still resolved. */
  lemma ResolveSkipsMiss(a: seq<Song>, song: Song, b: seq<Song>, search: Searcher)
    requires search(SearchQuery(song)).Raised? || search(SearchQuery(song)) == Ok([])
    ensures Resolve(a + [song] + b, search) == Resolve(a, search) + Resolve(b, search)
  {
    ResolveAppend(a + [song], b, search);
    ResolveAppend(a, [song], search);
  }

  /** A song whose search finds tracks contributes exactly the first of them, in its place. */
  lemma ResolveKeepsHit(a: seq<Song>, song: Song, b: seq<Song>, search: Searcher)
    requires search(SearchQuery(song)).Ok? && search(SearchQuery(song)).value != []
    ensures Resolve(a + [song] + b, search) ==
      Resolve(a, search) + [search(SearchQuery(song)).value[0]] + Resolve(b, search)
  {
    ResolveAppend(a + [song], b, search);
    ResolveAppend(a, [song], search);
  }

  /** `search_songs`: one search per song, in order; the loop never stops early. */
  method SearchSongs(songs: seq<Song>, search: Searcher) returns (uris: seq<Uri>, calls: seq<Call>)
    ensures uris == Resolve(songs, search)
    ensures calls == SearchCalls(songs)
  {
    uris, calls := [], [];
    for i := 0 to |songs|
      invariant uris == Resolve(songs[..i], search)
      invariant calls == SearchCalls(songs[..i])
    {
      var song := songs[i];
      var query := SearchQuery(song);
      calls := calls + [Search(query)];
      var results := search(query);
      match results {
        case Ok(tracks) =>
          if tracks != [] {
            uris := uris + [tracks[0]];
          }
        case Raised(_) =>
          // the failure is logged and the song skipped
      }
      assert songs[..i + 1] == songs[..i] + [song];
      assert Resolve(songs[..i] + [song], search) == Resolve(songs[..i], search) + TopHit(results) by {
        ResolveAppend(songs[..i], [song], search);
      }
      SearchCallsSnoc(songs[..i], song);
    }
    assert songs[..|songs|] == songs;
  }
}
