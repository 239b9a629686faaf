/**
 * The playlist statistics object: it owns the artist count table, fills it from the
 * playlists of one user, and reports the most credited artists.
 */
module Analyzer {
  import opened Wrappers
  import opened Spotify
  import opened Tally
  import opened Playlists
  import opened Ranking

  /** Every artist credit of a list of tracks, track after track. */
  function Credits(tracks: seq<Track>): seq<string> {
    if tracks == [] then [] else Credits(tracks[..|tracks| - 1]) + tracks[|tracks| - 1].artists
  }

  /** The credits a playlist contributes: those of its first page of tracks, or none when that fetch fails. */
  function FetchedCredits(c: Client, p: Playlist): seq<string> {
    match c.playlistTracks(p.ownerId, p.id)
    case Ok(page) => Credits(page.tracks)
    case Err(_) => []
  }

  /** The credits all playlists of the working set contribute, playlist after playlist. */
  function PlaylistCredits(c: Client, ws: seq<Playlist>): seq<string> {
    if ws == [] then [] else PlaylistCredits(c, ws[..|ws| - 1]) + FetchedCredits(c, ws[|ws| - 1])
  }

  /** The credits of two runs of playlists are those of the first run, then those of the second. */
  lemma {:induction false} PlaylistCreditsAppend(c: Client, xs: seq<Playlist>, ys: seq<Playlist>)
    ensures PlaylistCredits(c, xs + ys) == PlaylistCredits(c, xs) + PlaylistCredits(c, ys)
  {
    if ys == [] {
      assert xs + ys == xs;
    } else {
      assert (xs + ys)[..|xs + ys| - 1] == xs + ys[..|ys| - 1];
      PlaylistCreditsAppend(c, xs, ys[..|ys| - 1]);
    }
  }

  /** A playlist whose tracks cannot be fetched counts for nothing: the others are still processed. */
  lemma FailedPlaylistSkipped(c: Client, xs: seq<Playlist>, p: Playlist, ys: seq<Playlist>)
    requires c.playlistTracks(p.ownerId, p.id).Err?
    ensures PlaylistCredits(c, xs + [p] + ys) == PlaylistCredits(c, xs + ys)
  {
    var pre := xs + [p];
    assert pre[..|pre| - 1] == xs;
    assert PlaylistCredits(c, pre) == PlaylistCredits(c, xs) + [];
    assert PlaylistCredits(c, xs) + [] == PlaylistCredits(c, xs);
    PlaylistCreditsAppend(c, pre, ys);
    PlaylistCreditsAppend(c, xs, ys);
  }

  /** How many credits of a list of tracks name the artist, counted track by track from the front. */
  function TrackCredits(tracks: seq<Track>, a: string): nat {
    if tracks == [] then 0 else multiset(tracks[0].artists)[a] + TrackCredits(tracks[1..], a)
  }

  /** The flattened credits name an artist as often as the tracks do, summed track by track. */
  lemma {:induction false} CreditsCount(tracks: seq<Track>, a: string)
    ensures multiset(Credits(tracks))[a] == TrackCredits(tracks, a)
  {
    if tracks != [] {
      var n := |tracks| - 1;
      CreditsCount(tracks[..n], a);
      if n > 0 {
        TrackCreditsSnoc(tracks[..n], tracks[n], a);
        assert tracks[..n] + [tracks[n]] == tracks;
      } else {
        assert tracks[..n] == [] && tracks[1..] == [];
      }
    }
  }

  /** Counting from the front agrees with appending a last track. */
  lemma {:induction false} TrackCreditsSnoc(tracks: seq<Track>, t: Track, a: string)
    ensures TrackCredits(tracks + [t], a) == TrackCredits(tracks, a) + multiset(t.artists)[a]
  {
    if tracks == [] {
      assert ([] + [t])[1..] == [];
    } else {
      assert (tracks + [t])[1..] == tracks[1..] + [t];
      TrackCreditsSnoc(tracks[1..], t, a);
    }
  }

  /**
   * A fresh analysis counts each artist once per credit: after analysing a working
   * set from an empty table, the keys are exactly the credited artists and each
   * count is the number of (playlist, track, artist) credits naming that artist.
   */
  lemma FreshAnalysisCounts(c: Client, ws: seq<Playlist>, a: string)
    ensures a in AddAll(map[], PlaylistCredits(c, ws)) <==> a in PlaylistCredits(c, ws)
    ensures Get(AddAll(map[], PlaylistCredits(c, ws)), a) == multiset(PlaylistCredits(c, ws))[a]
  {
    FreshTable(PlaylistCredits(c, ws));
    AddAllCounts(map[], PlaylistCredits(c, ws));
  }

  /** The credits of two tracks are the first track's artists, then the second's. */
  lemma TwoTrackCredits(first: seq<string>, second: seq<string>)
    ensures Credits([Track(first), Track(second)]) == first + second
  {
    var tracks := [Track(first), Track(second)];
    assert tracks[..1] == [Track(first)] && tracks[..1][..0] == [];
    assert Credits(tracks[..1]) == [] + first;
    assert [] + first == first;
  }

  /** The credits x, y, x name x twice and y once, and no other artist. */
  lemma ThreeCredits(x: string, y: string)
    requires x != y
    ensures multiset([x, y, x])[x] == 2 && multiset([x, y, x])[y] == 1
    ensures Names([x, y, x]) == {x, y}
  {
    assert [x, y, x] == [x] + [y] + [x];
    assert [x, y, x][0] == x && [x, y, x][1] == y;
  }

  /**
   * One playlist with two tracks crediting [x, y] and [x], for distinct artists x and
   * y: the table becomes {x: 2, y: 1}, so no artist reaches the report threshold.
   */
  lemma SmallLibrary(x: string, y: string)
    requires x != y
    ensures var table := AddAll(map[], Credits([Track([x, y]), Track([x])]));
      && table.Keys == {x, y}
      && table[x] == 2 && table[y] == 1
      && table[x] < Threshold && table[y] < Threshold
  {
    var names := [x, y, x];
    assert Credits([Track([x, y]), Track([x])]) == names by {
      TwoTrackCredits([x, y], [x]);
      assert [x, y] + [x] == names;
    }
    ThreeCredits(x, y);
    FreshTable(names);
  }

  /**
   * The threshold prefix of a sorted listing of the table is the report printStats
   * promises: sorted, each line an entry of the table with a count at the
   * threshold or above, every such entry present, and no artist twice.
   */
  lemma ReportOfSorted(m: map<string, int>, sorted: seq<Pair>, report: seq<Pair>)
    requires Lists(sorted, m) && SortedDesc(sorted)
    requires report <= sorted
    requires forall i :: 0 <= i < |report| ==> report[i].val >= Threshold
    requires |report| < |sorted| ==> sorted[|report|].val < Threshold
    ensures SortedDesc(report)
    ensures forall i :: 0 <= i < |report| ==>
      report[i].key in m && m[report[i].key] == report[i].val && report[i].val >= Threshold
    ensures forall a :: a in m && m[a] >= Threshold ==> a in KeysOf(report)
    ensures forall i, j :: 0 <= i < j < |report| ==> report[i].key != report[j].key
  {
    DistinctKeys(sorted);
    forall i | 0 <= i < |report| ensures report[i] == sorted[i] {
    }
    ReportComplete(m, sorted, report);
  }

  /** No entry of the table at the threshold or above is missing from the threshold prefix. */
  lemma ReportComplete(m: map<string, int>, sorted: seq<Pair>, report: seq<Pair>)
    requires Lists(sorted, m) && SortedDesc(sorted)
    requires report <= sorted
    requires forall i :: 0 <= i < |report| ==> report[i].val >= Threshold
    requires |report| < |sorted| ==> sorted[|report|].val < Threshold
    ensures forall a :: a in m && m[a] >= Threshold ==> a in KeysOf(report)
  {
    ThresholdPrefixExact(sorted, report);
    forall a | a in m && m[a] >= Threshold ensures a in KeysOf(report) {
      assert a in KeysOf(sorted);
      var i :| 0 <= i < |sorted| && sorted[i].key == a;
      assert report[i] == sorted[i];
    }
  }

  /** `playlistStats`: the client it calls and the artist count table it fills. */
  class PlaylistStats {
    const c: Client
    var artistCount: map<string, int>

    /** Every artist in the table has been credited at least once. */
    ghost predicate Valid()
      reads this
    {
      forall a :: a in artistCount ==> artistCount[a] > 0
    }

    /** `newPlaylistStats`: a client and an empty count table. */
    constructor (c: Client)
      ensures this.c == c
      ensures artistCount == map[]
      ensures Valid()
    {
      this.c := c;
      artistCount := map[];
    }

    /**
     * `updateFromPlaylist`: count every artist credit on the first page of the
     * playlist's tracks. A failed fetch is returned and leaves the table unchanged.
     */
    method UpdateFromPlaylist(owner: string, playlistID: string) returns (err: Option<ApiError>)
      requires Valid()
      modifies this
      ensures Valid()
      ensures match c.playlistTracks(owner, playlistID)
        case Err(e) => err == Some(e) && artistCount == old(artistCount)
        case Ok(page) => err == None && artistCount == AddAll(old(artistCount), Credits(page.tracks))
    {
      var tpage := c.playlistTracks(owner, playlistID);
      if tpage.Err? {
        return Some(tpage.error);
      }
      var tracks := tpage.value.tracks;
      for i := 0 to |tracks|
        invariant artistCount == AddAll(old(artistCount), Credits(tracks[..i]))
      {
        var artists := tracks[i].artists;
        ghost var before := artistCount;
        for j := 0 to |artists|
          invariant artistCount == AddAll(before, artists[..j])
        {
          var name := artists[j];
          AddAllSnoc(before, artists[..j], name);
          assert artists[..j + 1] == artists[..j] + [name];
          artistCount := artistCount[name := (if name in artistCount then artistCount[name] else 0) + 1];
        }
        assert artists[..|artists|] == artists;
        AddAllAppend(old(artistCount), Credits(tracks[..i]), artists);
        assert tracks[..i + 1][..i] == tracks[..i];
      }
      assert tracks[..|tracks|] == tracks;
      AddAllPositive(old(artistCount), Credits(tracks));
      return None;
    }

    /**
     * `analyzeUser`: discover the working set of playlists, then count the credits of
     * every playlist in it, in order. A failed page fetch aborts before anything is
     * counted; a failed track fetch is ignored and the next playlist is processed.
     */
    method AnalyzeUser(userID: string, ghost bound: int) returns (err: Option<ApiError>)
      requires Valid() && c.Paginates(userID, bound)
      modifies this
      ensures Valid()
      ensures match WorkingSet(c, userID, bound)
        case Err(e) => err == Some(e) && artistCount == old(artistCount)
        case Ok(ws) => err == None && artistCount == AddAll(old(artistCount), PlaylistCredits(c, ws))
    {
      var found, _ := CollectPlaylists(c, userID, bound);
      if found.Err? {
        return Some(found.error);
      }
      var playlists := found.value;
      for i := 0 to |playlists|
        invariant Valid()
        invariant artistCount == AddAll(old(artistCount), PlaylistCredits(c, playlists[..i]))
      {
        var p := playlists[i];
        ghost var before := artistCount;
        var ignored := UpdateFromPlaylist(p.ownerId, p.id);
        assert artistCount == AddAll(before, FetchedCredits(c, p));
        assert playlists[..i + 1][..i] == playlists[..i];
        assert PlaylistCredits(c, playlists[..i + 1]) == PlaylistCredits(c, playlists[..i]) + FetchedCredits(c, p);
        AddAllAppend(old(artistCount), PlaylistCredits(c, playlists[..i]), FetchedCredits(c, p));
      }
      assert playlists[..|playlists|] == playlists;
      return None;
    }

    /**
     * `printStats`: the report lines, as (artist, count) pairs: the table's entries
     * sorted by descending count, up to the first count below the threshold.
     */
    method PrintStats() returns (report: seq<Pair>)
      ensures SortedDesc(report)
      ensures forall i :: 0 <= i < |report| ==>
        report[i].key in artistCount && artistCount[report[i].key] == report[i].val && report[i].val >= Threshold
      ensures forall a :: a in artistCount && artistCount[a] >= Threshold ==> a in KeysOf(report)
      ensures forall i, j :: 0 <= i < j < |report| ==> report[i].key != report[j].key
    {
      var entries := Entries(artistCount);
      var aCounts := new Pair[|entries|](i requires 0 <= i < |entries| => entries[i]);
      assert aCounts[..] == entries;
      SortPairs(aCounts);
      ghost var sorted := aCounts[..];
      ListsPermutation(entries, sorted, artistCount);
      report := AboveThreshold(aCounts[..]);
      ReportOfSorted(artistCount, sorted, report);
    }
  }
}
