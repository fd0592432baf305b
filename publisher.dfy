/**
 * `create_spotify_playlist` (app.py): creates a public playlist for the fixed
 * account, adds the tracks when there are any, and returns the share link, or
 * nothing when any step raises.
 */
module Publisher {
  import opened Outcomes
  import opened Services

  /** The account every playlist is created for. */
  const SpotifyUser := "helloniam"

  /** The musical-notes sign of the assistant, Melody. */
  const Notes := "\U{1F3B6}"

  /** The description every playlist is created with. */
  const Description := "A custom playlist generated by Melody " + Notes

  /** The share link (or None) and the requests sent to the catalog. */
  datatype Published = Published(url: Option<string>, calls: seq<Call>)

  /** The creation request for a playlist called `name`. */
  function Request(name: string): CreateRequest {
    CreateRequest(SpotifyUser, name, true, Description)
  }

  /** `create_spotify_playlist`: every exception inside it (authentication, creation, a missing
      key of the playlist record, adding the tracks) ends in None. */
  function CreateSpotifyPlaylist(name: string, uris: seq<Uri>, create: Creator, addItems: Adder): (p: Published)
    ensures 1 <= |p.calls| <= 2 && p.calls[0] == CreatePlaylist(Request(name))
    ensures |p.calls| == 2 <==>
      uris != [] && create(Request(name)).Ok? && create(Request(name)).value.id.Some?
    ensures |p.calls| == 2 ==>
      p.calls[1] == AddItems(create(Request(name)).value.id.value, uris)
    ensures p.url.Some? <==>
      create(Request(name)).Ok? && create(Request(name)).value.shareUrl.Some?
      && (uris == [] || (|p.calls| == 2 && addItems(p.calls[1].playlistId, uris).Ok?))
    ensures p.url.Some? ==> p.url == create(Request(name)).value.shareUrl
  {
    var request := CreateRequest(SpotifyUser, name, true, Description);
    var first := [CreatePlaylist(request)];
    match create(request)
    case Raised(_) => Published(None, first)
    case Ok(playlist) =>
      if uris == [] then Published(playlist.shareUrl, first)
      else
        match playlist.id
        case None => Published(None, first)
        case Some(id) =>
          match addItems(id, uris)
          case Raised(_) => Published(None, first + [AddItems(id, uris)])
          case Ok(_) => Published(playlist.shareUrl, first + [AddItems(id, uris)])
  }
}
