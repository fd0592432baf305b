# Melody: the chat turn of a music-therapy assistant, in Dafny

Melody is a chat bot (app.py) that runs one turn per user message:

1. It asks a text generator to find a mood and a genre in the message. The
   generator is given the message and the preferences remembered so far.
2. It classifies the generator's answer. The answer may be a content-filter
   notice, a reply whose markers cannot be split, a question to pass back to the
   user, or a `Mood: … / Genre: …` pair.
3. For a pair, it overwrites the remembered preferences and asks the generator
   for a numbered playlist. It parses `"<n>. <title> - <artist>"` lines out of
   that playlist and looks each song up in the Spotify catalog.
4. It creates a public playlist with the tracks it found. The reply is the
   playlist text followed by either the share link or a notice that publishing
   failed.

The model keeps the code's own string semantics throughout:

- Python's `split`, `strip` and `in` are modelled as written. `lower` and `isdigit` are modelled on
  ASCII only (see "## Left out").
- `line[0]` is tested before stripping.
- The title is the text between the first and the second `". "` (so
  `"1. Mr. Brightside"` gives `"Mr"`).
- A numbered entry line whose text before the first `" - "` has no `". "` raises an
  `IndexError`, and that error escapes the whole turn.
- The case-insensitive marker test is separate from the case-sensitive split on
  `"Mood:"` / `"Genre:"`.
- An empty share link counts as no link.

The generator and the catalog are parameters (`Services`). The catalog
operations are pure functions from a request to a response or to an exception.
The generator is a pure function from a request to its response text, and it
never raises (see "## Left out"). Every request a turn sends is recorded
as a `Call`, so the contracts can say which requests happen, in what order, and
which never happen.

Modules:

- `Outcomes`: `Option`, and `Result` with the exceptions that can occur.
- `PyStr`: the Python string operations used.
- `Services`: the oracle interface.
- `SongParser`: `extract_songs`.
- `Preferences`: the reply branches of `music_assistant_llm`.
- `TrackSearch`: `search_songs`.
- `Publisher`: `create_spotify_playlist`.
- `Assistant`: `generate_playlist`, the reply text, and the `Session` class.
  `Session`'s method `Respond` is `music_assistant_llm`; it overwrites the
  session's preferences in place.

## Model

| member | source | states |
|---|---|---|
| PyStr.Strip | app.py:39-39 | `strip()` removes exactly the leading and trailing whitespace: the result is empty iff the line is all whitespace, otherwise it starts and ends with non-whitespace, and a line already without outer whitespace is unchanged |
| PyStr.StripPadded | app.py:39-39 | `strip()` of text padded with whitespace around a core that starts and ends with non-whitespace is exactly that core |
| PyStr.Split | app.py:37-37 | `split(sep)` always gives at least one piece and at most one more than the text has characters (the full behaviour is pinned down by SplitFields, JoinSplit and SplitPiecesLack) |
| PyStr.Lower | app.py:141-141 | `lower()` keeps the length, leaves no capital letter, changes exactly the capitals, and turns each into its own small letter |
| PyStr.Find | app.py:141-141 | the substring test `in` / the first-occurrence search: the index returned is an occurrence and no earlier index is one; -1 means no index is one |
| PyStr.SplitFields | app.py:147-148 | `split(sep)[0]` is the text before the first separator; `[1]` exists iff the separator occurs and is then the text between the first and second occurrence |
| PyStr.JoinSplit | app.py:37-37 | `split` loses nothing: joining the pieces with the separator gives the text back |
| PyStr.SplitPiecesLack | app.py:40-40 | no piece of a split contains the separator |
| PyStr.SplitJoin | app.py:37-37 | text made of lines without a newline, joined by newlines, splits back into exactly those lines |
| PyStr.ContainsLower | app.py:145-145 | an occurrence in the text is an occurrence of the lowered substring in the lowered text |
| Preferences.MarkersLower | app.py:145-147 | whenever the case-sensitive split markers "Mood:" / "Genre:" occur, the case-insensitive test sees them too |
| SongParser.LineEntry | app.py:39-44 | one pass of the loop body: only a non-blank line starting with a digit and holding " - " contributes anything (its full behaviour is LineEntrySpec) |
| SongParser.LineEntrySpec | app.py:39-44 | a line contributes something iff it is a non-blank line starting with a digit with a " - " and no further " - " after the first; it raises iff such a line has no ". " before its first " - "; the artist is the stripped text after " - ", the title the stripped text between the first and second ". " before it |
| SongParser.IndentedLineSkipped | app.py:39-39 | an empty line or one with leading whitespace contributes nothing (and `line[0]` is never read out of range) |
| SongParser.Collect | app.py:36-45 | the songs of the loop number at most the lines; a failure is always an `IndexError` |
| SongParser.ExtractSongs | app.py:34-45 | the loop over the lines returns the songs of the line outcomes in order, or the `IndexError` of the first raising line |
| SongParser.CollectAppend | app.py:38-44 | lines are handled independently and in order: the songs of `a + b` are those of `a` then those of `b`, and an exception in `a` wins |
| SongParser.CollectRaisesIff | app.py:42-42 | the call raises iff some line raises |
| SongParser.CollectEntries | app.py:36-45 | lines that are all entries give one song per line, in order |
| SongParser.EntrySeparatorFirst | app.py:40-41 | an entry line with a dash-safe title and an artist without " - " splits on " - " into exactly the numbered title and the artist |
| SongParser.EntryLineParses | app.py:39-44 | a "<n>. <title> - <artist>" line with a digit-string number and a plain title and artist (one line each, already stripped, no " - ", a title without ". " and without a '-' at either end) yields exactly that song |
| SongParser.TitleCutAtSecondDot | app.py:42-43 | a title holding ". " is cut: only the text up to the second ". " of the line is kept, stripped |
| SongParser.MrBrightside | app.py:42-42 | "1. Mr. Brightside - The Killers" gives the song ("Mr", "The Killers") |
| SongParser.ParseListing | app.py:34-45 | text whose every line is "<n>. <title> - <artist>", with plain titles and artists, gives back exactly those songs in that order |
| Preferences.Classify | app.py:139-153 | a found mood and genre are both non-empty, and a passed-back reply is the stripped answer itself (when each branch is taken is stated by ClassifyFiltered, ClassifyUndetermined and ClassifyComplete) |
| Preferences.ClassifyFiltered | app.py:141-142 | the retry case happens iff the lowered, stripped answer contains "blocked by content filtering", before any other test |
| Preferences.ClassifyUndetermined | app.py:145-150 | the "couldn't determine" case happens iff there is no filter notice, both markers occur case-insensitively, and a case-sensitive marker is missing |
| Preferences.ClassifyComplete | app.py:144-156 | a mood and genre are found iff there is no filter notice, both case-sensitive markers occur, and both fields as the splits cut them are non-empty; they are then those fields |
| Preferences.ClassifyRendered | app.py:145-148 | an answer in the requested "Mood: m\nGenre: g" format gives exactly `m` and `g` (fields stripped, non-empty, without capital M or G, no filter notice) |
| Preferences.ClassifyHappyPop | app.py:147-148 | "Mood: happy\nGenre: pop" gives mood "happy" and genre "pop" |
| Preferences.ClassifyLowerCaseMarkers | app.py:145-150 | the same answer with lower-case markers passes the case-insensitive test but fails the split: "couldn't determine" |
| Preferences.ClassifyMissingGenre | app.py:152-153 | "Mood: happy" without a genre is passed back unchanged |
| TrackSearch.SearchCalls | app.py:51-53 | exactly one search request per song |
| TrackSearch.SearchCallsSnoc | app.py:51-53 | one more song adds one request, for that song, at the end |
| TrackSearch.Resolve | app.py:50-59 | at most one track per song |
| TrackSearch.ResolveAppend | app.py:51-59 | songs are resolved independently and in order |
| TrackSearch.ResolveSkipsMiss | app.py:52-58 | a song whose search finds nothing or raises contributes nothing, and the loop goes on with the next song |
| TrackSearch.ResolveKeepsHit | app.py:54-56 | a song whose search finds tracks contributes exactly the first one, in its place |
| TrackSearch.SearchSongs | app.py:48-59 | the loop sends one search per song in order and returns the tracks of the specification `Resolve` |
| Publisher.CreateSpotifyPlaylist | app.py:62-86 | the first request creates the public playlist with the fixed user and description; tracks are added (second request) iff there are tracks, creation succeeded and the record has an id; a link comes back iff creation succeeded, the record has a link, and adding (if needed) succeeded; any exception ends in None |
| Assistant.GeneratePlaylist | app.py:89-116 | one playlist request with the mood and genre; the result is the specification `DraftFor` |
| Assistant.DraftFor | app.py:111-116 | no playlist comes with the message of app.py:114; a playlist has non-empty text and at most one song per line of it; the only exception is `IndexError` |
| Assistant.DraftForSpec | app.py:111-116 | there is no playlist iff the stripped text is empty; otherwise it holds that text and exactly the parsed songs; it raises iff some line raises, and then with `IndexError` |
| Assistant.ComposeReply | app.py:165-168 | the reply starts with the playlist text and is longer than it |
| Assistant.ComposeReplyTrailer | app.py:165-168 | the playlist text is followed by the share link iff a non-empty link came back, and by the notice iff not; never both |
| Assistant.ChatTurn | app.py:119-168 | every turn sends the classifier request, with the message and the current preferences, first |
| Assistant.TurnFrom | app.py:141-158 | after the classifier's outcome, the preferences change exactly when a mood and a genre were found, and then to those; otherwise nothing else is requested |
| Assistant.PlaylistTurn | app.py:155-160 | past the classifier the preferences are the found ones whatever happens, the playlist request comes next, and without a playlist nothing else is requested |
| Assistant.PublishTurn | app.py:162-168 | a produced playlist gives a reply that starts with the playlist text, after one request per song and at least the creation request |
| Assistant.Session.constructor | app.py:28-31 | a new session has no mood and no genre |
| Assistant.Session.Respond | app.py:119-168 | the reply, the new preferences, and the requests sent are those of the turn function `ChatTurn` applied to the old preferences |
| Assistant.TurnKeepsPreferences | app.py:139-153 | unless mood and genre are both found, only the classifier is asked, the preferences are unchanged, and the reply is the retry message, the "couldn't determine" message, or the stripped answer |
| Assistant.TurnOverwritesPreferences | app.py:155-158 | once mood and genre are found, they overwrite the preferences whatever happens next, and the second request is the playlist request for them |
| Assistant.CompleteTurn | app.py:155-158 | a complete outcome leads to the playlist stage for those fields, with those preferences |
| Assistant.TurnAdoptsRequestedForm | app.py:145-156 | an answer in the requested "Mood: m\nGenre: g" format sets the preferences to exactly `m` and `g` when the fields are stripped, non-empty and without capital M or G, and the answer holds no filter notice |
| Assistant.PlaylistTurnEmpty | app.py:158-160 | an empty playlist text gives the fixed failure message, and no search or playlist creation is requested |
| Assistant.PlaylistTurnRaises | app.py:158-162 | the turn raises iff the playlist text has an entry line whose text before the first " - " has no ". "; it raises `IndexError`, and no search is requested |
| Assistant.PlaylistTurnPublishes | app.py:162-168 | a produced playlist is shown verbatim, the reply is `ComposeReply` of the link that came back, with the link iff a non-empty link came back and the notice otherwise; its songs are searched in order, then the playlist is published with the tracks found |

## Left out

- The HTTP route `main` (app.py:171-181) is left out: it is request and response handling. That includes the `strip()` it applies to the message, so `Respond` takes the message as it arrives in `music_assistant_llm`.
- The generator's system prompts, model name and sampling parameters (app.py:91-109, 121-137) are foreign-service configuration. The generator is one function of a prompt tag and the query, so two equal requests get equal answers. The same holds for the catalog oracles: the `Searcher` is one function of the query, so a song listed twice gets the same search answer both times, and a failed search followed by a successful retry cannot be expressed. The real service's nondeterminism and its `lastk` conversation memory are not modelled.
- Services.Generator: the generator always returns a text. An exception from `generate`, or a response without a usable `response` text, escapes `music_assistant_llm` in the code. At app.py:121 this happens before anything changes; at app.py:91 it happens after the preferences were overwritten (app.py:155-156). The model does not capture either failure.
- Spotify authentication is folded into the oracles, where an authentication failure is an exception like any other. `SpotifyClientCredentials` (app.py:21-24) configures the client that only `sp.search` uses (app.py:53), so its failures belong to the `Searcher` oracle, where `search_songs` catches them and skips the song. `SpotifyOAuth` (app.py:65-71) belongs to the `Creator` oracle.
- The `search`, `user_playlist_create` and `playlist_add_items` calls are oracles too. Their arguments (`limit=1`, `type="track"`) are not modelled.
- `load_dotenv` and `os.getenv` (app.py:11-15) and the `print` logging (app.py:58, 85) are input and output.
- Requests racing on the global `session` dict are concurrency. `Session` is single-threaded state.
- The `state` entry of `session` (app.py:29) is never read.
- SearchSongs: a search response without `tracks` or `items` keys is modelled as an empty result, and every malformed response body as an exception.
- Assistant.ClassifyQuery: the f-string renders the preferences dict with Python's `repr`. `Repr` writes `None` or the value in single quotes, and does not model the escaping or the choice of double quotes that `repr` makes for values holding quotes.
- Preferences.ClassifyRendered: requires the fields to have no capital M or G, which is stronger than needed (the fields only need to lack "Mood:" and "Genre:") and keeps the proof small. Answers such as "Mood: Mellow\nGenre: Metal" are covered by ClassifyComplete instead.
- Assistant.TurnAdoptsRequestedForm: has the same stronger hypothesis on the fields, for the same reason.
- PyStr.Lower: `str.lower` is modelled on the ASCII letters only, so other letters stay unchanged.
- PyStr.IsDigit: `str.isdigit` is modelled on the ASCII digits only. Other Unicode digits, which Python also accepts on app.py:39, are treated as non-digits.
- SongParser.ExtractSongs: on a numbered line `" - "`-split into two parts whose first part has no `". "`, the code raises `IndexError`. Nothing in `extract_songs`, `generate_playlist` or `music_assistant_llm` catches it, so the model follows the code: the exception escapes the whole turn, after the preferences were overwritten. If such a line were skipped instead, the turn would go on to search and publish the remaining songs rather than fail.
- Assistant.EmptyPlaylistMessage: `generate_playlist`'s own message for an empty text (app.py:114) is returned but never shown. The caller replaces it with its own message (app.py:160), and the model keeps both to show this.
