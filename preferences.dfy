/**
 * The preference-extraction step of `music_assistant_llm` (app.py): the
 * classifier's reply is either a content-filter notice, a reply whose markers
 * cannot be split, a question to pass back to the user, or a mood and a genre.
 */
module Preferences {
  import opened PyStr

  /** How the classifier's reply is handled. */
  datatype PreferenceReply =
    | Filtered                            // the generator reported content filtering
    | Undetermined                        // both markers occur in some case, but a split on them fails
    | PassThrough(text: string)           // no usable mood and genre: the reply goes back verbatim
    | Complete(mood: string, genre: string)

  /** The substring, in lower case, that marks a reply blocked by content filtering. */
  const FilterMarker := "blocked by content filtering"

  /** The mood: the stripped text after the first "Mood:", up to the next "Mood:", then up to the
      first "Genre:" in that. */
  function MoodField(text: string): string {
    Strip(Before(Before(After(text, "Mood:"), "Mood:"), "Genre:"))
  }

  /** The genre: the stripped text between the first "Genre:" and the next. */
  function GenreField(text: string): string {
    Strip(Before(After(text, "Genre:"), "Genre:"))
  }

  /** The reply's classification, in the order of the source: the filter check on the lower-cased
      text, then the case-insensitive marker check, then the case-sensitive splits, then the
      emptiness check. `response` is the generator's raw text; it is stripped first, and
      whatever is passed back to the user is that stripped text. */
  function Classify(response: string): (r: PreferenceReply)
    ensures r.Complete? ==> r.mood != [] && r.genre != []
    ensures r.PassThrough? ==> r.text == Strip(response)
  {
    var text := Strip(response);
    var lower := Lower(text);
    if Contains(lower, FilterMarker) then Filtered
    else if Contains(lower, "mood:") && Contains(lower, "genre:") then
      var moodParts := Split(text, "Mood:");
      if |moodParts| < 2 then Undetermined
      else
        var mood := Strip(Split(moodParts[1], "Genre:")[0]);
        var genreParts := Split(text, "Genre:");
        if |genreParts| < 2 then Undetermined
        else
          var genre := Strip(genreParts[1]);
          if mood == [] || genre == [] then PassThrough(text) else Complete(mood, genre)
    else PassThrough(text)
  }

  /** A case-sensitive marker is also a case-insensitive one. */
  lemma MarkersLower(text: string)
    ensures Contains(text, "Mood:") ==> Contains(Lower(text), "mood:")
    ensures Contains(text, "Genre:") ==> Contains(Lower(text), "genre:")
  {
    ContainsLower(text, "Mood:");
    ContainsLower(text, "Genre:");
    assert Lower("Mood:") == "mood:" && Lower("Genre:") == "genre:";
  }

  /** The filter notice wins over everything else in the reply. */
  lemma ClassifyFiltered(response: string)
    ensures Classify(response).Filtered? <==> Contains(Lower(Strip(response)), FilterMarker)
  {
  }

  /** The "couldn't determine" case: both markers occur case-insensitively, but one of the
      case-sensitive markers the split uses is missing. */
  lemma ClassifyUndetermined(response: string)
    ensures Classify(response).Undetermined? <==>
      !Contains(Lower(Strip(response)), FilterMarker)
      && Contains(Lower(Strip(response)), "mood:") && Contains(Lower(Strip(response)), "genre:")
      && !(Contains(Strip(response), "Mood:") && Contains(Strip(response), "Genre:"))
  {
    var text := Strip(response);
    SplitFields(text, "Mood:");
    SplitFields(text, "Genre:");
  }

  /** Preferences are found exactly when both case-sensitive markers occur and both fields,
      as the splits cut them, are non-empty; the fields are then the mood and the genre. */
  lemma ClassifyComplete(response: string)
    ensures Classify(response).Complete? <==>
      !Contains(Lower(Strip(response)), FilterMarker)
      && Contains(Strip(response), "Mood:") && Contains(Strip(response), "Genre:")
      && MoodField(Strip(response)) != [] && GenreField(Strip(response)) != []
    ensures Classify(response).Complete? ==>
      Classify(response).mood == MoodField(Strip(response))
      && Classify(response).genre == GenreField(Strip(response))
  {
    var text := Strip(response);
    MarkersLower(text);
    SplitFields(text, "Mood:");
    SplitFields(text, "Genre:");
    if Contains(text, "Mood:") {
      MoodFieldCut(text);
    }
  }

  /** The mood as the splits cut it is the mood field. */
  lemma MoodFieldCut(text: string)
    requires Contains(text, "Mood:")
    ensures Split(Split(text, "Mood:")[1], "Genre:")[0] == Before(Before(After(text, "Mood:"), "Mood:"), "Genre:")
  {
    SplitFields(text, "Mood:");
    SplitFields(Before(After(text, "Mood:"), "Mood:"), "Genre:");
  }

  /** The requested reply format "Mood: <m>\nGenre: <g>", grouped around its two markers. */
  function RequestedForm(m: string, g: string): string {
    "Mood:" + (" " + m + "\n") + "Genre:" + (" " + g)
  }

  /** In `k1 + " " + m + "\n" + k2 + " " + g`, with markers whose first characters occur
      nowhere else, the text after the first `k1` and before the first `k2` is `" " + m + "\n"`,
      and the text after the first `k2` is `" " + g`. */
  lemma MarkedFields(k1: string, k2: string, m: string, g: string)
    requires |k1| > 0 && |k2| > 0
    requires k1[0] !in m + g + k2 && k2[0] !in m + g + k1
    requires k1[0] != ' ' && k1[0] != '\n' && k2[0] != ' ' && k2[0] != '\n'
    ensures var text := k1 + (" " + m + "\n") + k2 + (" " + g);
      Contains(text, k1) && Contains(text, k2)
      && Before(Before(After(text, k1), k1), k2) == " " + m + "\n"
      && Before(After(text, k2), k2) == " " + g
  {
    var middle := " " + m + "\n";
    var tail := " " + g;
    var rest := middle + k2 + tail;
    var text := k1 + middle + k2 + tail;
    assert Contains(text, k1) && After(text, k1) == rest by {
      assert text == k1 + rest;
      FindAtStart(k1, rest);
    }
    assert Before(rest, k1) == rest by {
      assert k1[0] !in rest;
      LacksChar(rest, k1, 0);
    }
    assert Before(rest, k2) == middle by {
      assert k2[0] !in middle;
      FindAfterPrefix(middle, k2, tail);
    }
    assert Contains(text, k2) && After(text, k2) == tail by {
      assert k2[0] !in k1 + middle;
      FindAfterPrefix(k1 + middle, k2, tail);
    }
    assert Before(tail, k2) == tail by {
      assert k2[0] !in tail;
      LacksChar(tail, k2, 0);
    }
  }

  /** In the requested format the fields are `m` and `g` when they are stripped and non-empty
      and have no capital M or G. */
  lemma RenderedFields(m: string, g: string)
    requires m != [] && g != [] && Strip(m) == m && Strip(g) == g
    requires 'M' !in m + g && 'G' !in m + g
    ensures MoodField(RequestedForm(m, g)) == m && GenreField(RequestedForm(m, g)) == g
  {
    assert 'M' !in m + g + "Genre:" && 'G' !in m + g + "Mood:";
    MarkedFields("Mood:", "Genre:", m, g);
    StripPadded(" ", m, "\n");
    assert " " + g == " " + g + "";
    StripPadded(" ", g, "");
  }

  /** The requested format is stripped and has both case-sensitive markers. */
  lemma RenderedMarkers(m: string, g: string)
    requires g != [] && !IsSpace(g[|g| - 1])
    requires 'M' !in m + g && 'G' !in m + g
    ensures Strip(RequestedForm(m, g)) == RequestedForm(m, g)
    ensures Contains(RequestedForm(m, g), "Mood:") && Contains(RequestedForm(m, g), "Genre:")
  {
    var text := RequestedForm(m, g);
    assert Strip(text) == text by {
      assert text[0] == 'M' && text[|text| - 1] == g[|g| - 1];
    }
    assert 'M' !in m + g + "Genre:" && 'G' !in m + g + "Mood:";
    MarkedFields("Mood:", "Genre:", m, g);
  }

  /** A reply in the requested "Mood: <mood>\nGenre: <genre>" format gives back that mood and
      genre, for instance "happy" and "pop", when the fields are stripped, non-empty, free of
      the letters that start the markers, and the reply does not mention the filter notice. */
  lemma ClassifyRendered(m: string, g: string)
    requires m != [] && g != [] && Strip(m) == m && Strip(g) == g
    requires 'M' !in m + g && 'G' !in m + g  // stronger than needed ("Mood:"/"Genre:" absent), to keep the proof cheap
    requires !Contains(Lower("Mood: " + m + "\nGenre: " + g), FilterMarker)
    ensures Classify("Mood: " + m + "\nGenre: " + g) == Complete(m, g)
  {
    assert RequestedForm(m, g) == "Mood: " + m + "\nGenre: " + g;
    RenderedMarkers(m, g);
    RenderedFields(m, g);
    ClassifyComplete(RequestedForm(m, g));
  }

  /** Lower-case markers at the start of the reply and of its second line are found by the
      case-insensitive check. */
  lemma LowerCaseMarkersFound(m: string, g: string)
    ensures Contains(Lower("mood: " + m + "\ngenre: " + g), "mood:")
    ensures Contains(Lower("mood: " + m + "\ngenre: " + g), "genre:")
  {
    var text := "mood: " + m + "\ngenre: " + g;
    var lower := Lower(text);
    assert Contains(lower, "mood:") by {
      assert lower[..5] == "mood:";
      OccursAtSlice(lower, "mood:", 0);
      OccursContains(lower, "mood:", 0);
    }
    var e := |m| + 7;
    assert Contains(lower, "genre:") by {
      assert text[e..e + 6] == "genre:";
      assert lower[e..e + 6] == "genre:";
      OccursAtSlice(lower, "genre:", e);
      OccursContains(lower, "genre:", e);
    }
  }

  /** The same reply with all-lower-case markers passes the case-insensitive check but has no
      "Mood:" to split on: it is the "couldn't determine" case. */
  lemma ClassifyLowerCaseMarkers(m: string, g: string)
    requires g != [] && !IsSpace(g[|g| - 1])
    requires 'M' !in m + g
    requires !Contains(Lower("mood: " + m + "\ngenre: " + g), FilterMarker)
    ensures Classify("mood: " + m + "\ngenre: " + g).Undetermined?
  {
    LowerCaseFormStripped(m, g);
    LowerCaseMarkersFound(m, g);
    LowerCaseFormLacksMood(m, g);
    ClassifyUndetermined("mood: " + m + "\ngenre: " + g);
  }

  /** The lower-case form is stripped when the genre does not end in white space. */
  lemma LowerCaseFormStripped(m: string, g: string)
    requires g != [] && !IsSpace(g[|g| - 1])
    ensures Strip("mood: " + m + "\ngenre: " + g) == "mood: " + m + "\ngenre: " + g
  {
    var text := "mood: " + m + "\ngenre: " + g;
    assert text[0] == 'm' && text[|text| - 1] == g[|g| - 1];
  }

  /** Without a capital M in the fields, the lower-case form has no "Mood:". */
  lemma LowerCaseFormLacksMood(m: string, g: string)
    requires 'M' !in m + g
    ensures !Contains("mood: " + m + "\ngenre: " + g, "Mood:")
  {
    var text := "mood: " + m + "\ngenre: " + g;
    assert 'M' !in text;
    LacksChar(text, "Mood:", 0);
  }

  /** A reply without a genre marker, "Mood: happy", is passed back unchanged.
      (Examples here take their literals as parameters fixed by the precondition, which keeps
      the solver off the whole literal.) */
  lemma ClassifyMissingGenre(text: string)
    requires text == "Mood: happy"
    ensures Classify(text) == PassThrough(text)
  {
    MissingGenreFacts(text);
  }

  /** The example is stripped and has neither the filter notice nor a genre marker. */
  lemma MissingGenreFacts(text: string)
    requires text == "Mood: happy"
    ensures Strip(text) == text
    ensures !Contains(Lower(text), FilterMarker) && !Contains(Lower(text), "genre:")
  {
    assert !IsSpace(text[0]) && !IsSpace(text[|text| - 1]);
    assert 'b' !in text && 'B' !in text && 'g' !in text && 'G' !in text;
    NoFilterNotice(text);
    LowerLacks(text, 'g');
    LacksChar(Lower(text), "genre:", 0);
  }

  /** A reply without the letter b, in either case, cannot hold the filter notice. */
  lemma NoFilterNotice(text: string)
    requires 'b' !in text && 'B' !in text
    ensures !Contains(Lower(text), FilterMarker)
  {
    LowerLacks(text, 'b');
    LacksChar(Lower(text), FilterMarker, 0);
  }

  /** The fields of the example are stripped. */
  lemma HappyPopStripped(m: string, g: string)
    requires m == "happy" && g == "pop"
    ensures m != [] && g != [] && Strip(m) == m && Strip(g) == g
  {
    assert !IsSpace(m[0]) && !IsSpace(m[|m| - 1]) && !IsSpace(g[0]) && !IsSpace(g[|g| - 1]);
  }

  /** The example has no capital M or G in its fields and no letter b at all. */
  lemma HappyPopLetters(m: string, g: string)
    requires m == "happy" && g == "pop"
    ensures 'M' !in m + g && 'G' !in m + g
    ensures 'b' !in "Mood: " + m + "\nGenre: " + g && 'B' !in "Mood: " + m + "\nGenre: " + g
  {
  }

  /** The example of the requested format: "Mood: happy\nGenre: pop" gives mood "happy" and
      genre "pop".
      (Examples here take their literals as parameters fixed by the precondition, which keeps
      the solver off the whole literal.) */
  lemma ClassifyHappyPop(m: string, g: string)
    requires m == "happy" && g == "pop"
    ensures Classify("Mood: " + m + "\nGenre: " + g) == Complete("happy", "pop")
  {
    HappyPopStripped(m, g);
    HappyPopLetters(m, g);
    NoFilterNotice("Mood: " + m + "\nGenre: " + g);
    ClassifyRendered(m, g);
  }
}
