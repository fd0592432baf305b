/**
 * The external collaborators of the assistant, seen only at their interface:
 * the text generator and the music catalog. Each request the assistant sends
 * is recorded as a `Call`, so that contracts can say which requests a message
 * causes and in what order.
 */
module Services {
  import opened Outcomes

  /** A catalog track identifier (a Spotify URI). */
  type Uri = string

  /** The two system prompts the generator is asked with. */
  datatype Prompt =
    | ClassifyPrompt  // find the mood and genre in the user's message
    | PlaylistPrompt  // write a ten-song playlist for a mood and genre

  /** The arguments of a playlist-creation request. */
  datatype CreateRequest = CreateRequest(user: string, name: string, public: bool, description: string)

  /** The playlist record the catalog returns; either key may be missing from it. */
  datatype PlaylistRecord = PlaylistRecord(id: Option<string>, shareUrl: Option<string>)

  /** One request sent to an external service. */
  datatype Call =
    | Generate(prompt: Prompt, query: string)
    | Search(query: string)
    | CreatePlaylist(request: CreateRequest)
    | AddItems(playlistId: string, uris: seq<Uri>)

  /** The generator: the `response` text it returns for a prompt and a query ("" when absent). */
  type Generator = (Prompt, string) -> string

  /** Catalog search: the identifiers of the matching tracks, or the exception it raises
      (`ServiceError`: the code catches every kind alike). */
  type Searcher = string -> Result<seq<Uri>>

  /** Playlist creation, including authentication: the new playlist's record, or an exception. */
  type Creator = CreateRequest -> Result<PlaylistRecord>

  /** Adding tracks to a playlist: nothing, or an exception. */
  type Adder = (string, seq<Uri>) -> Result<()>
}
