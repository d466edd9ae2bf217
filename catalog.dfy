/** The catalog entities the player receives from the track listing: tracks and playlists. */
module Catalog {
  import opened Optional

  /** One audio file with its metadata; `id` is the file's position in its listing plus one. */
  datatype Track = Track(
    id: int,
    title: string,
    artist: string,
    album: string,
    year: string,
    duration: nat,
    url: string,
    coverArt: Option<string>)

  /** A named, ordered list of tracks (the catalog order). */
  datatype Playlist = Playlist(name: string, tracks: seq<Track>, coverArt: string)

  /** No two tracks of `s` share an id. */
  predicate UniqueIds(s: seq<Track>) {
    forall i, j :: 0 <= i < j < |s| ==> s[i].id != s[j].id
  }
}
