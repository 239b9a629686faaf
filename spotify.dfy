/**
 * The part of the streaming service's client library the analyzer calls, as values.
 * Every call is a total function of its arguments: the remote service is fixed for
 * the duration of one analysis, and a call either answers with a page or fails.
 */
module Spotify {
  import opened Wrappers

  /** A failed call to the service (network, authorization or HTTP status). */
  datatype ApiError = ApiError(message: string)

  /** A playlist summary, as listed on a page of a user's playlists. */
  datatype Playlist = Playlist(id: string, ownerId: string, collaborative: bool)

  /** A track of a playlist, with the display names of its credited artists. */
  datatype Track = Track(artists: seq<string>)

  /** One page of a user's playlists: the page size used and the size of the whole list. */
  datatype PlaylistPage = PlaylistPage(playlists: seq<Playlist>, limit: int, total: int)

  /** The first page of a playlist's tracks. */
  datatype TrackPage = TrackPage(tracks: seq<Track>)

  /**
   * An authenticated client:
   *  - playlistsForUser(user) is the first page of the user's playlists;
   *  - playlistsForUserOpt(user, offset, limit) is the page starting at offset;
   *  - playlistTracks(owner, playlist) is the first page of a playlist's tracks.
   */
  datatype Client = Client(
    playlistsForUser: string -> Result<PlaylistPage, ApiError>,
    playlistsForUserOpt: (string, int, int) -> Result<PlaylistPage, ApiError>,
    playlistTracks: (string, string) -> Result<TrackPage, ApiError>)
  {
    /**
     * The service pages sensibly for this user: every page it returns after the first
     * has a positive page size and reports a total of at most `bound`. Without this the
     * pagination loop need not terminate.
     */
    ghost predicate Paginates(userID: string, bound: int) {
      forall offset, limit :: playlistsForUserOpt(userID, offset, limit).Ok? ==>
        && 0 < playlistsForUserOpt(userID, offset, limit).value.limit
        && playlistsForUserOpt(userID, offset, limit).value.total <= bound
    }
  }
}
