/**
 * `generate_playlist` and `music_assistant_llm` (app.py): one chat turn.  The
 * classifier's reply either ends the turn with a fixed message or the reply
 * itself, or yields a mood and a genre; these overwrite the session's
 * preferences, a playlist is generated, its songs are looked up, a playlist is
 * published, and the reply is the playlist text followed by the share link or
 * by a notice that publishing failed.
 */
module Assistant {
  import opened Outcomes
  import opened PyStr
  import opened Services
  import opened SongParser
  import opened Preferences
  import opened TrackSearch
  import opened Publisher

  /** The warning sign most replies start with. */
  const Warning := "\U{26A0}\U{FE0F}"

  /** Reply when the classifier's answer was blocked by content filtering. */
  const RetryMessage := "\U{1F3B5} **Oops! Something went wrong.** Let's try again! Please share your mood and favorite genre, and I'll make a playlist for you. \U{1F60A}"

  /** Reply when the markers occur but a case-sensitive split finds no field. */
  const UndeterminedMessage := Warning + " I couldn't determine both mood and genre. Try again!"

  /** What `generate_playlist` returns beside an empty playlist; no caller shows it. */
  const EmptyPlaylistMessage := Warning + " Sorry, I couldn't generate a playlist. Try again!"

  /** Reply when the generated playlist text is empty. */
  const NoPlaylistMessage := Warning + " Couldn't generate a playlist. Try again!"

  /** Put between the playlist text and its share link. */
  const ListenPrefix := "\n\n" + Notes + " **Listen on Spotify:** "

  /** Put after the playlist text when no share link came back. */
  const DegradedNotice := "\n\n" + Warning + " Couldn't create a Spotify playlist, but here are the songs!"

  /** Python's repr of a preference value: `None` or the quoted string (quotes inside the
      value are not escaped here). */
  function Repr(v: Option<string>): string {
    match v
    case None => "None"
    case Some(s) => "'" + s + "'"
  }

  /** The classifier query: the user's message and the current preferences. */
  function ClassifyQuery(message: string, mood: Option<string>, genre: Option<string>): string {
    "User input: '" + message + "'\nCurrent preferences: {'mood': " + Repr(mood) + ", 'genre': " + Repr(genre) + "}"
  }

  /** The playlist generator's query. */
  function PlaylistQuery(mood: string, genre: string): string {
    "Mood: " + mood + ", Genre: " + genre
  }

  /** The name of the published playlist. */
  function PlaylistName(mood: string, genre: string): string {
    mood + " " + genre + " Playlist"
  }

  /** What `generate_playlist` returns: no playlist with its message, or the text and its songs. */
  datatype Draft = NoPlaylist(message: string) | Playlist(text: string, songs: seq<Song>)

  /** The stripped playlist text the generator produces for `mood` and `genre`. */
  function PlaylistText(mood: string, genre: string, generate: Generator): string {
    Strip(generate(PlaylistPrompt, PlaylistQuery(mood, genre)))
  }

  /** What `generate_playlist` returns for `mood` and `genre`. */
  function DraftFor(mood: string, genre: string, generate: Generator): (r: Result<Draft>)
    ensures r.Ok? && r.value.NoPlaylist? ==> r.value.message == EmptyPlaylistMessage
    ensures r.Ok? && r.value.Playlist? ==>
      r.value.text != [] && |r.value.songs| <= |Split(r.value.text, "\n")|
    ensures r.Raised? ==> r.error == IndexError
  {
    var text := PlaylistText(mood, genre, generate);
    if text == [] then Ok(NoPlaylist(EmptyPlaylistMessage))
    else match Collect(LineOutcomes(Split(text, "\n")))
      case Ok(songs) => Ok(Playlist(text, songs))
      case Raised(e) => Raised(e)
  }

  /** `generate_playlist`: one generator request; an empty text gives no playlist, otherwise
      the text and the songs parsed from it, or the parser's exception. */
  method GeneratePlaylist(mood: string, genre: string, generate: Generator) returns (r: Result<Draft>, call: Call)
    ensures call == Generate(PlaylistPrompt, PlaylistQuery(mood, genre))
    ensures r == DraftFor(mood, genre, generate)
  {
    var query := PlaylistQuery(mood, genre);
    call := Generate(PlaylistPrompt, query);
    var text := Strip(generate(PlaylistPrompt, query));
    if text == [] {
      r := Ok(NoPlaylist(EmptyPlaylistMessage));
    } else {
      var songs := ExtractSongs(text);
      match songs
      case Ok(list) => r := Ok(Playlist(text, list));
      case Raised(e) => r := Raised(e);
    }
  }

  /** The draft has no playlist exactly when the generated text is empty; otherwise it holds
      that text and exactly the songs the parser finds in it, and fails only with the parser's
      `IndexError`. */
  lemma DraftForSpec(mood: string, genre: string, generate: Generator)
    ensures DraftFor(mood, genre, generate).Ok? && DraftFor(mood, genre, generate).value.NoPlaylist?
      <==> PlaylistText(mood, genre, generate) == []
    ensures DraftFor(mood, genre, generate).Ok? && DraftFor(mood, genre, generate).value.Playlist? ==>
      DraftFor(mood, genre, generate).value.text == PlaylistText(mood, genre, generate)
      && Collect(LineOutcomes(Split(PlaylistText(mood, genre, generate), "\n")))
         == Ok(DraftFor(mood, genre, generate).value.songs)
    ensures DraftFor(mood, genre, generate).Raised? <==>
      PlaylistText(mood, genre, generate) != []
      && Raises in LineOutcomes(Split(PlaylistText(mood, genre, generate), "\n"))
    ensures DraftFor(mood, genre, generate).Raised? ==> DraftFor(mood, genre, generate).error == IndexError
  {
    CollectRaisesIff(LineOutcomes(Split(PlaylistText(mood, genre, generate), "\n")));
  }

  /** The reply carries the share link. */
  predicate HasLink(text: string, reply: string) {
    |text + ListenPrefix| <= |reply| && reply[..|text + ListenPrefix|] == text + ListenPrefix
  }

  /** The reply carries the notice that publishing failed. */
  predicate HasNotice(text: string, reply: string) {
    reply == text + DegradedNotice
  }

  /** The final reply for a published (or unpublished) playlist; an empty link counts as none. */
  function ComposeReply(text: string, url: Option<string>): (reply: string)
    ensures |text| < |reply| && reply[..|text|] == text
  {
    if url.Some? && url.value != [] then text + ListenPrefix + url.value
    else text + DegradedNotice
  }

  /** The playlist text is followed by exactly one of the share link, which is there exactly
      when a non-empty link came back, and the notice. */
  lemma ComposeReplyTrailer(text: string, url: Option<string>)
    ensures HasLink(text, ComposeReply(text, url)) <==> url.Some? && url.value != []
    ensures HasNotice(text, ComposeReply(text, url)) <==> !(url.Some? && url.value != [])
    ensures HasLink(text, ComposeReply(text, url)) ==>
      ComposeReply(text, url) == text + ListenPrefix + url.value
  {
    var reply := ComposeReply(text, url);
    var n := |text| + 2;
    assert (text + ListenPrefix)[n] == Notes[0];
    assert (text + DegradedNotice)[n] == Warning[0];
    if url.Some? && url.value != [] {
      assert reply == (text + ListenPrefix) + url.value;
      assert reply[..|text + ListenPrefix|] == text + ListenPrefix;
      assert reply[n] == Notes[0];
    } else {
      assert reply[n] == Warning[0];
      assert reply[..|text + ListenPrefix|][n] == reply[n];
    }
  }

  /** The classifier's raw answer to `message` under the given preferences. */
  function ClassifierText(message: string, mood: Option<string>, genre: Option<string>, generate: Generator): string {
    generate(ClassifyPrompt, ClassifyQuery(message, mood, genre))
  }

  /** What the assistant makes of that answer. */
  function ClassifierReply(message: string, mood: Option<string>, genre: Option<string>, generate: Generator): PreferenceReply {
    Classify(ClassifierText(message, mood, genre, generate))
  }

  /** The outcome of one turn: the reply (or the exception that escapes it), the preferences
      afterwards, and the requests sent, in order. */
  datatype Turn = Turn(reply: Result<string>, mood: Option<string>, genre: Option<string>, calls: seq<Call>)

  /** One turn of `music_assistant_llm` from preferences `mood` and `genre`: the classifier is
      always asked first. */
  function ChatTurn(message: string, mood: Option<string>, genre: Option<string>,
                    generate: Generator, search: Searcher, create: Creator, addItems: Adder): (t: Turn)
    ensures t.calls != [] && t.calls[0] == Generate(ClassifyPrompt, ClassifyQuery(message, mood, genre))
  {
    TurnFrom(ClassifierReply(message, mood, genre, generate), Generate(ClassifyPrompt, ClassifyQuery(message, mood, genre)),
             mood, genre, generate, search, create, addItems)
  }

  /** The turn once the classifier request `classify` has been answered with outcome `c`: the
      preferences change exactly when a mood and a genre were found, and then to those. */
  function TurnFrom(c: PreferenceReply, classify: Call, mood: Option<string>, genre: Option<string>,
                    generate: Generator, search: Searcher, create: Creator, addItems: Adder): (t: Turn)
    ensures t.calls != [] && t.calls[0] == classify
    ensures !c.Complete? ==> t.mood == mood && t.genre == genre && t.calls == [classify]
    ensures c.Complete? ==> t.mood == Some(c.mood) && t.genre == Some(c.genre)
  {
    match c
    case Filtered => Turn(Ok(RetryMessage), mood, genre, [classify])
    case Undetermined => Turn(Ok(UndeterminedMessage), mood, genre, [classify])
    case PassThrough(text) => Turn(Ok(text), mood, genre, [classify])
    case Complete(m, g) => PlaylistTurn(m, g, [classify], DraftFor(m, g, generate), search, create, addItems)
  }

  /** The rest of a turn once the preferences are `m` and `g` and `generate_playlist` has
      returned `draft`, after the requests `before`: whatever happens, the preferences stay
      `m` and `g`, and the playlist request follows `before`. */
  function PlaylistTurn(m: string, g: string, before: seq<Call>, draft: Result<Draft>,
                        search: Searcher, create: Creator, addItems: Adder): (t: Turn)
    ensures t.mood == Some(m) && t.genre == Some(g)
    ensures |t.calls| > |before|
    ensures t.calls[..|before| + 1] == before + [Generate(PlaylistPrompt, PlaylistQuery(m, g))]
    ensures !(draft.Ok? && draft.value.Playlist?) ==>
      t.calls == before + [Generate(PlaylistPrompt, PlaylistQuery(m, g))]
  {
    var head := before + [Generate(PlaylistPrompt, PlaylistQuery(m, g))];
    match draft
    case Raised(e) => Turn(Raised(e), Some(m), Some(g), head)
    case Ok(NoPlaylist(_)) => Turn(Ok(NoPlaylistMessage), Some(m), Some(g), head)
    case Ok(Playlist(text, songs)) => PublishTurn(m, g, text, songs, head, search, create, addItems)
  }

  /** The end of a turn that produced `text` listing `songs`, after the requests `before`: the
      reply is the playlist text with its trailer, after one search per song and at least the
      creation request. */
  function PublishTurn(m: string, g: string, text: string, songs: seq<Song>, before: seq<Call>,
                       search: Searcher, create: Creator, addItems: Adder): (t: Turn)
    ensures t.mood == Some(m) && t.genre == Some(g)
    ensures t.reply.Ok? && |text| < |t.reply.value| && t.reply.value[..|text|] == text
    ensures |t.calls| > |before| + |songs| && t.calls[..|before|] == before
  {
    var published := CreateSpotifyPlaylist(PlaylistName(m, g), Resolve(songs, search), create, addItems);
    var calls := before + SearchCalls(songs) + published.calls;
    assert calls[..|before|] == before;
    Turn(Ok(ComposeReply(text, published.url)), Some(m), Some(g), calls)
  }

  /** The chat session: the preferences `music_assistant_llm` reads and overwrites. */
  class Session {
    var mood: Option<string>
    var genre: Option<string>

    /** A new session has no preferences. */
    constructor ()
      ensures mood == None && genre == None
    {
      mood, genre := None, None;
    }

    /** `music_assistant_llm`: one turn, returning the reply and the requests sent. */
    method Respond(message: string, generate: Generator, search: Searcher, create: Creator, addItems: Adder)
      returns (reply: Result<string>, calls: seq<Call>)
      modifies this
      ensures Turn(reply, mood, genre, calls)
        == ChatTurn(message, old(mood), old(genre), generate, search, create, addItems)
    {
      var query := ClassifyQuery(message, mood, genre);
      calls := [Generate(ClassifyPrompt, query)];
      var outcome := Classify(generate(ClassifyPrompt, query));
      match outcome
      case Filtered =>
        reply := Ok(RetryMessage);
      case Undetermined =>
        reply := Ok(UndeterminedMessage);
      case PassThrough(text) =>
        reply := Ok(text);
      case Complete(m, g) =>
        mood, genre := Some(m), Some(g);
        var draft, call := GeneratePlaylist(m, g, generate);
        calls := calls + [call];
        match draft
        case Raised(e) =>
          reply := Raised(e);
        case Ok(NoPlaylist(_)) =>
          reply := Ok(NoPlaylistMessage);
        case Ok(Playlist(text, songs)) =>
          var uris, searches := SearchSongs(songs, search);
          var published := CreateSpotifyPlaylist(PlaylistName(m, g), uris, create, addItems);
          calls := calls + searches + published.calls;
          reply := Ok(ComposeReply(text, published.url));
    }
  }

  /** Unless both fields are found, the turn asks only the classifier, keeps the preferences, and
      answers with the retry message (filtered answers), the "couldn't determine" message, or the
      stripped answer itself. */
  lemma TurnKeepsPreferences(message: string, mood: Option<string>, genre: Option<string>,
                             generate: Generator, search: Searcher, create: Creator, addItems: Adder)
    ensures var answer := ClassifierText(message, mood, genre, generate);
      var t := ChatTurn(message, mood, genre, generate, search, create, addItems);
      !Classify(answer).Complete? ==>
        t.mood == mood && t.genre == genre
        && t.calls == [Generate(ClassifyPrompt, ClassifyQuery(message, mood, genre))]
        && (Contains(Lower(Strip(answer)), FilterMarker) ==> t.reply == Ok(RetryMessage))
        && (Classify(answer).Undetermined? ==> t.reply == Ok(UndeterminedMessage))
        && (Classify(answer).PassThrough? ==> t.reply == Ok(Strip(answer)))
  {
    var answer := ClassifierText(message, mood, genre, generate);
    ClassifyFiltered(answer);
  }

  /** When both fields are found, they overwrite the preferences whatever happens next, and the
      playlist is requested for them (`ClassifyComplete` says what the fields are). */
  lemma TurnOverwritesPreferences(message: string, mood: Option<string>, genre: Option<string>,
                                  generate: Generator, search: Searcher, create: Creator, addItems: Adder)
    ensures var c := ClassifierReply(message, mood, genre, generate);
      var t := ChatTurn(message, mood, genre, generate, search, create, addItems);
      c.Complete? ==>
        t.mood == Some(c.mood) && t.genre == Some(c.genre)
        && |t.calls| >= 2
        && t.calls[..2] == [Generate(ClassifyPrompt, ClassifyQuery(message, mood, genre)),
                            Generate(PlaylistPrompt, PlaylistQuery(c.mood, c.genre))]
        && t == PlaylistTurn(c.mood, c.genre, [Generate(ClassifyPrompt, ClassifyQuery(message, mood, genre))],
                             DraftFor(c.mood, c.genre, generate), search, create, addItems)
  {
    var c := ClassifierReply(message, mood, genre, generate);
    if c.Complete? {
      CompleteTurn(c.mood, c.genre, Generate(ClassifyPrompt, ClassifyQuery(message, mood, genre)),
                   mood, genre, generate, search, create, addItems);
    }
  }

  /** A turn whose classifier outcome is complete is the playlist stage for those fields. */
  lemma CompleteTurn(m: string, g: string, classify: Call, mood: Option<string>, genre: Option<string>,
                     generate: Generator, search: Searcher, create: Creator, addItems: Adder)
    ensures var t := TurnFrom(Complete(m, g), classify, mood, genre, generate, search, create, addItems);
      t.mood == Some(m) && t.genre == Some(g)
      && |t.calls| >= 2
      && t.calls[..2] == [classify, Generate(PlaylistPrompt, PlaylistQuery(m, g))]
      && t == PlaylistTurn(m, g, [classify], DraftFor(m, g, generate), search, create, addItems)
  {
  }

  /** An answer in the requested form "Mood: <m>\nGenre: <g>" (plain fields, no filter notice)
      sets the preferences to exactly `m` and `g`. */
  lemma TurnAdoptsRequestedForm(message: string, mood: Option<string>, genre: Option<string>,
                                generate: Generator, search: Searcher, create: Creator, addItems: Adder,
                                m: string, g: string)
    requires ClassifierText(message, mood, genre, generate) == "Mood: " + m + "\nGenre: " + g
    requires m != [] && g != [] && Strip(m) == m && Strip(g) == g
    requires 'M' !in m + g && 'G' !in m + g  // stronger than needed ("Mood:"/"Genre:" absent), to keep the proof cheap
    requires !Contains(Lower("Mood: " + m + "\nGenre: " + g), FilterMarker)
    ensures ChatTurn(message, mood, genre, generate, search, create, addItems).mood == Some(m)
    ensures ChatTurn(message, mood, genre, generate, search, create, addItems).genre == Some(g)
  {
    assert ClassifierReply(message, mood, genre, generate) == Complete(m, g) by {
      ClassifyRendered(m, g);
    }
    var before := [Generate(ClassifyPrompt, ClassifyQuery(message, mood, genre))];
    assert ChatTurn(message, mood, genre, generate, search, create, addItems)
      == PlaylistTurn(m, g, before, DraftFor(m, g, generate), search, create, addItems);
  }

  /** An empty playlist ends the turn with the fixed failure message; nothing but the two
      generator requests is sent, so no search and no playlist creation. */
  lemma PlaylistTurnEmpty(m: string, g: string, before: seq<Call>,
                          generate: Generator, search: Searcher, create: Creator, addItems: Adder)
    requires PlaylistText(m, g, generate) == []
    ensures var t := PlaylistTurn(m, g, before, DraftFor(m, g, generate), search, create, addItems);
      t.reply == Ok(NoPlaylistMessage)
      && t.calls == before + [Generate(PlaylistPrompt, PlaylistQuery(m, g))]
  {
    DraftForSpec(m, g, generate);
  }

  /** The turn escapes with an exception exactly when the playlist text has an entry line whose
      text before the first " - " has no ". "; that exception is `IndexError`, and no search is requested before it. */
  lemma PlaylistTurnRaises(m: string, g: string, before: seq<Call>,
                           generate: Generator, search: Searcher, create: Creator, addItems: Adder)
    ensures var t := PlaylistTurn(m, g, before, DraftFor(m, g, generate), search, create, addItems);
      t.reply.Raised? <==>
        PlaylistText(m, g, generate) != []
        && Raises in LineOutcomes(Split(PlaylistText(m, g, generate), "\n"))
    ensures var t := PlaylistTurn(m, g, before, DraftFor(m, g, generate), search, create, addItems);
      t.reply.Raised? ==>
        t.reply.error == IndexError && t.calls == before + [Generate(PlaylistPrompt, PlaylistQuery(m, g))]
  {
    DraftForSpec(m, g, generate);
  }

  /** A playlist that is produced is shown verbatim, followed by the share link when a non-empty
      one came back and by the notice otherwise; its songs are searched in order, then the
      playlist is published with whatever was found. */
  lemma PlaylistTurnPublishes(m: string, g: string, before: seq<Call>,
                              generate: Generator, search: Searcher, create: Creator, addItems: Adder)
    requires DraftFor(m, g, generate).Ok? && DraftFor(m, g, generate).value.Playlist?
    ensures var text := PlaylistText(m, g, generate);
      var songs := DraftFor(m, g, generate).value.songs;
      var published := CreateSpotifyPlaylist(PlaylistName(m, g), Resolve(songs, search), create, addItems);
      var t := PlaylistTurn(m, g, before, DraftFor(m, g, generate), search, create, addItems);
      t.reply == Ok(ComposeReply(text, published.url))
      && |text| < |t.reply.value| && t.reply.value[..|text|] == text
      && (HasLink(text, t.reply.value) <==> published.url.Some? && published.url.value != [])
      && (HasNotice(text, t.reply.value) <==> !(published.url.Some? && published.url.value != []))
      && t.calls == before + [Generate(PlaylistPrompt, PlaylistQuery(m, g))] + SearchCalls(songs) + published.calls
  {
    DraftForSpec(m, g, generate);
    var songs := DraftFor(m, g, generate).value.songs;
    var published := CreateSpotifyPlaylist(PlaylistName(m, g), Resolve(songs, search), create, addItems);
    ComposeReplyTrailer(PlaylistText(m, g, generate), published.url);
  }
}
