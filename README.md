# Playlist analyzer core, modelled in Dafny

This project models the analysis core of a command-line tool. The tool walks a
user's playlists on a music-streaming service, counts how often each artist is
credited on their tracks, and prints the most credited artists. The modelled
core is `analyzer.go`:

- `newPlaylistStats` and the `playlistStats` object, which owns the artist count
  table (a `map[string]int`). This is the class `Analyzer.PlaylistStats`, whose
  field `artistCount` the methods reassign.
- `analyzeUser`. It first discovers the working set of playlists by pagination
  (`Playlists.CollectPlaylists`): the first page is kept whole, and later pages
  keep only the user's own or collaborative playlists. It then counts the
  credits of every playlist in that set.
- `updateFromPlaylist`, which increments the table once per artist credit on the
  first page of a playlist's tracks.
- `printStats` with `pairList` (`Len`, `Less`, `Swap`). The table's entries become
  pairs, the pairs are sorted by descending count, and the entries are reported
  up to the first count below 5.

The streaming service's client is a value, `Spotify.Client`. It holds three total
functions that stand for the three library calls the core makes: the first
playlist page, the playlist page at an offset with a page size, and the first page
of a playlist's tracks. Each returns a page or an error. The report is returned as
the list of (artist, count) pairs that would be printed.

Modules:

- `Wrappers`: Option and Result.
- `Spotify`: the service's data and the client.
- `Tally`: the count table and the increments.
- `Playlists`: the ownership filter, the pagination loop and its specification
  `Paginate` and `WorkingSet`.
- `Ranking`: pairs, `Less`, `Swap`, the sort and the threshold cut.
- `Analyzer`: the `PlaylistStats` class.

Error handling and page sizes, as the code does them:

- Only a failed playlist-page fetch aborts the analysis (analyzer.go:36-39,
  48-51). `analyzeUser` discards the error `updateFromPlaylist` returns for a
  failed track fetch and goes on to the next playlist (analyzer.go:64).
- Each later request sends the page size of the page last received, and the
  offset grows by that size (analyzer.go:46, 48, 58).

Two source behaviours are kept as written. The first page is not filtered by
ownership. Only the first page of a playlist's tracks is counted.

## Model

| member | source | states |
|---|---|---|
| Analyzer.PlaylistStats.constructor | analyzer.go:27-32 | a new stats object holds the given client and an empty count table |
| Analyzer.PlaylistStats.UpdateFromPlaylist | analyzer.go:73-89 | a failed track fetch is returned and leaves the table unchanged; otherwise the table is the old table incremented once per artist credit of the fetched tracks, in order; every count stays positive |
| Analyzer.PlaylistStats.AnalyzeUser | analyzer.go:34-71 | if discovery of the working set fails, that error is returned and the table is unchanged; otherwise no error is returned and the table is the old table incremented by the credits of every playlist of the working set, in order, with failed track fetches contributing nothing |
| Analyzer.PlaylistStats.PrintStats | analyzer.go:91-107 | the report is sorted by non-increasing count; each line is an entry of the table with a count of at least 5; every entry with a count of at least 5 is reported; no artist is reported twice |
| Analyzer.ReportOfSorted | analyzer.go:100-106 | the threshold prefix of any sorted listing of the table has the four report properties above |
| Analyzer.PlaylistCreditsAppend | analyzer.go:63-65 | processing two runs of playlists in turn counts the credits of the first run, then those of the second |
| Analyzer.FailedPlaylistSkipped | analyzer.go:64-78 | a playlist whose track fetch fails contributes no credit, and the playlists around it are still counted |
| Analyzer.CreditsCount | analyzer.go:80-87 | the number of credits naming an artist equals the sum, over the tracks, of the number of times the track credits that artist |
| Analyzer.FreshAnalysisCounts | analyzer.go:61-69 | from an empty table, an artist has a key exactly when some processed playlist credits it, and its count is the number of such credits |
| Analyzer.SmallLibrary | analyzer.go:80-106 | for any two distinct artists x and y, tracks crediting [x, y] and [x] give the table {x: 2, y: 1}, in which no count reaches the report threshold |
| Analyzer.ReportComplete | analyzer.go:101-106 | no entry of the table with a count of at least 5 is missing from the threshold prefix of a sorted listing |
| Playlists.CollectPlaylists | analyzer.go:35-59 | the discovery loop returns exactly the working set, or the error of the first failed page fetch, and sends exactly the specified sequence of page requests |
| Playlists.AppendQualifying | analyzer.go:52-57 | one page's pass appends exactly the page's qualifying playlists, in page order |
| Playlists.WorkingSetShape | analyzer.go:35-59 | a failed first fetch or a failed later fetch yields that error; on success the first page's playlists come first, unfiltered and in order, and the rest holds exactly the qualifying playlists of the later pages |
| Playlists.Qualifies | analyzer.go:54 | a later-page playlist is kept exactly when its owner is the user or it is collaborative |
| Playlists.KeepMembers | analyzer.go:54 | a playlist is kept if and only if it occurs in the input and its owner is the user or it is collaborative |
| Playlists.KeepMultiset | analyzer.go:52-57 | every copy of a qualifying playlist is kept and no copy of any other |
| Playlists.KeepSubsequence | analyzer.go:52-57 | the kept playlists appear in page order |
| Playlists.KeepAppend | analyzer.go:52-57 | filtering page after page is filtering the concatenation |
| Playlists.PaginateAnswers | analyzer.go:43-51 | every received page answers the request sent for it, and a failure answers the last request sent |
| Playlists.PaginateStart | analyzer.go:42-43 | the loop sends a first request exactly when the starting offset (the first page's size) is below the reported total, and that request is at the starting offset with the starting page size |
| Playlists.PaginateStops | analyzer.go:43-58 | when no fetch fails, either no request was sent because the offset was not below the total, or every request got its page and the offset grown by the last page's size reaches the total that page reported |
| Playlists.PaginateSteps | analyzer.go:43-58 | each later request is at the previous offset plus the size of the page just received, with that page's size, and is sent only while that offset is below the total the page reported |
| Playlists.PaginateStep | analyzer.go:43-58 | one pass of the loop seen from the whole run: a failed fetch ends the run with that error after the request just sent; a successful one leaves the run from the grown offset with the received page's size and total |
| Playlists.PaginateIncreasing | analyzer.go:42-58 | request offsets strictly increase, so no page is requested twice; every request after the first stays below the bound on reported totals |
| Tally.Increment | analyzer.go:85 | `m[k]++` adds k to the keys, raises k's count by one (from zero when absent), and changes no other count |
| Tally.AddAllCounts | analyzer.go:81-86 | after the increments, each artist's count is its old count plus the number of times the artist is credited, and the keys are the old keys plus the credited artists |
| Tally.AddAllAppend | analyzer.go:63-65 | incrementing for two credit lists in turn is incrementing for their concatenation |
| Tally.AddAllMonotone | analyzer.go:85 | counts never decrease, and artists not credited keep their count |
| Tally.AddAllPositive | analyzer.go:85 | a table whose counts are all positive keeps all counts positive |
| Tally.FreshTable | analyzer.go:30-86 | from an empty table, the keys are exactly the credited artists and each count is the artist's number of credits |
| Ranking.Entries | analyzer.go:96-99 | the collected pairs list the table: one pair per key, each with that key's count, in an unspecified order |
| Ranking.KeysOfSize | analyzer.go:96-99 | a list of pairs has no more distinct artists than pairs |
| Ranking.DistinctKeys | analyzer.go:96-99 | a list of pairs with as many distinct artists as pairs names no artist twice |
| Ranking.ListsPermutation | analyzer.go:100 | any reordering of a listing of the table is again a listing of the table |
| Ranking.Less | analyzer.go:19 | pair i goes before pair j exactly when its count is larger |
| Ranking.SortedIsNotLess | analyzer.go:19 | being sorted by non-increasing count is exactly that no later pair is `Less` than an earlier one |
| Ranking.Swap | analyzer.go:20 | the two pairs trade places, and the array holds the same pairs |
| Ranking.SortPairs | analyzer.go:100 | the array ends up ordered by `Less`, with counts non-increasing, and is a permutation of its old contents |
| Ranking.Sink | analyzer.go:100 | one insertion step: with the first i pairs sorted, moving the i-th pair down with `Less` and `Swap` leaves the first i+1 pairs sorted and holding the same pairs as before, and the pairs after slot i untouched |
| Ranking.SwapDown | analyzer.go:100 | the swap loop of an insertion step: the first i+1 pairs end sorted, the pairs after slot i stay in place, and the array holds the same pairs |
| Ranking.PrefixMultiset | analyzer.go:100 | two arrangements of the same pairs that agree from slot n on hold the same pairs before slot n |
| Ranking.AboveThreshold | analyzer.go:101-106 | the reported pairs are the longest prefix whose counts are all at least 5 |
| Ranking.ThresholdPrefixExact | analyzer.go:101-106 | on a sorted list, a pair lies in that prefix if and only if its count is at least 5 |

## Left out

- `main.go` is not part of this model. It holds the OAuth authorization-code flow, the HTTP handlers, the token cache file, flag parsing and the race on the client channel. All of these are network I/O, file I/O, concurrency or calls into libraries.
- The client library calls (`GetPlaylistsForUser`, `GetPlaylistsForUserOpt`, `GetPlaylistTracksOpt`) are total functions held in `Spotify.Client`. The library's HTTP behaviour is not modelled.
- The progress percentage (a float32), the `analyzed` counter that feeds it, the log lines and the report banner are console output only. The report is returned as the pairs that would be printed.
- The unused `artists` slice in `updateFromPlaylist` has no observable effect.
- `pairList.Len` is the length of the sequence. It is not a separate member.
- Ranking.SortPairs: `sort.Sort`'s own algorithm is library code. The model sorts by insertion, using `Less` and `Swap`. Only the library's promise is claimed: ordered by `Less`, and a permutation. The relative order of equal counts may differ from the library's.
- Ranking.Entries: Go visits a map in an unspecified order. The model picks any unvisited key at each step.
- Playlists.CollectPlaylists: requires that every page the service can return after the first, for any offset and page size, reports a positive page size and a total of at most some bound. The source may loop forever on a service that breaks this, and that behaviour is not modelled. The requirement is stronger than termination needs. It also constrains answers to requests the loop never sends, and it excludes services on which the source does stop, such as one whose only later page has size 0 and total 0.
- Analyzer.PlaylistStats.AnalyzeUser: carries the same requirement on the service, for the same reason.
- Counts and offsets are unbounded integers. Go's 64-bit `int` overflow is not modelled.
- The error returned by `analyzeUser` is ignored by its caller in `main.go`, which is outside the model.
