/**
 * `extract_songs` (app.py): turns the generator's numbered playlist text,
 * one "<n>. <title> - <artist>" entry per line, into the ordered list of
 * (title, artist) pairs.
 */
module SongParser {
  import opened Outcomes
  import opened PyStr

  /** One playlist entry. */
  datatype Song = Song(title: string, artist: string)

  /** What one line of the playlist text contributes. */
  datatype LineOutcome =
    | Skip           // not an entry: the line is dropped
    | Entry(song: Song)
    | Raises         // `parts[0].split(". ")[1]` is out of range: an IndexError

  /** A line is looked at only if it is not blank and its raw first character is a digit. */
  predicate IsCandidate(line: string) {
    Strip(line) != [] && IsDigit(line[0])
  }

  /** The contribution of one line: the body of the loop in `extract_songs`. Only a candidate
      line with a " - " contributes anything. */
  function LineEntry(line: string): (r: LineOutcome)
    ensures r != Skip ==> IsCandidate(line) && Contains(line, " - ")
  {
    if IsCandidate(line) then
      var parts := Split(line, " - ");
      if |parts| == 2 then
        var ordinal := Split(parts[0], ". ");
        if |ordinal| < 2 then Raises
        else Entry(Song(Strip(ordinal[1]), Strip(parts[1])))
      else Skip
    else Skip
  }

  /** What a line contributes, in terms of the first " - " and the first ". " before it:
      an entry needs a " - " and no further " - " after the first one (Python's split does not
      count overlapping copies, so "1. a - - b" is an entry with artist "- b"); the title is the text between the first and the
      second ". " of the part before it, the artist the text after it, both stripped. */
  lemma LineEntrySpec(line: string)
    ensures LineEntry(line) != Skip <==>
      IsCandidate(line) && Contains(line, " - ") && !Contains(After(line, " - "), " - ")
    ensures LineEntry(line) == Raises <==>
      LineEntry(line) != Skip && !Contains(Before(line, " - "), ". ")
    ensures LineEntry(line).Entry? ==>
      LineEntry(line).song.artist == Strip(After(line, " - "))
    ensures LineEntry(line).Entry? ==>
      LineEntry(line).song.title == Strip(Before(After(Before(line, " - "), ". "), ". "))
  {
    SplitFields(line, " - ");
    SplitFields(After(line, " - "), " - ");
    SplitFields(Before(line, " - "), ". ");
  }

  /** A line with leading whitespace, and in particular an empty line, contributes nothing. */
  lemma IndentedLineSkipped(line: string)
    requires line == [] || IsSpace(line[0])
    ensures LineEntry(line) == Skip
  {
  }

  /** Puts `songs` in front of the songs of a successful result; an exception stays an exception. */
  function Prepend(songs: seq<Song>, r: Result<seq<Song>>): Result<seq<Song>> {
    match r
    case Ok(rest) => Ok(songs + rest)
    case Raised(e) => Raised(e)
  }

  lemma PrependEmpty(r: Result<seq<Song>>)
    ensures Prepend([], r) == r
  {
    if r.Ok? {
      assert [] + r.value == r.value;
    }
  }

  lemma PrependAssoc(a: seq<Song>, b: seq<Song>, r: Result<seq<Song>>)
    ensures Prepend(a, Prepend(b, r)) == Prepend(a + b, r)
  {
    if r.Ok? {
      assert a + (b + r.value) == (a + b) + r.value;
    }
  }

  /** The songs of a sequence of line outcomes, in order; the first `Raises` aborts the whole call. */
  function Collect(outcomes: seq<LineOutcome>): (r: Result<seq<Song>>)
    ensures r.Ok? ==> |r.value| <= |outcomes|
    ensures r.Raised? ==> r.error == IndexError
  {
    if outcomes == [] then Ok([])
    else
      match outcomes[0]
      case Skip => Collect(outcomes[1..])
      case Entry(song) => Prepend([song], Collect(outcomes[1..]))
      case Raises => Raised(IndexError)
  }

  /** The outcome of every line, in order. */
  function LineOutcomes(lines: seq<string>): (outcomes: seq<LineOutcome>)
    ensures |outcomes| == |lines|
  {
    seq(|lines|, k requires 0 <= k < |lines| => LineEntry(lines[k]))
  }

  /** `extract_songs`: split the text into lines and collect the entry of every line that has one. */
  method ExtractSongs(playlistText: string) returns (r: Result<seq<Song>>)
    ensures r == Collect(LineOutcomes(Split(playlistText, "\n")))
  {
    var lines := Split(playlistText, "\n");
    ghost var outcomes := LineOutcomes(lines);
    var songs: seq<Song> := [];
    var i := 0;
    assert outcomes[i..] == outcomes;
    PrependEmpty(Collect(outcomes));
    while i < |lines|
      invariant 0 <= i <= |lines|
      invariant Collect(outcomes) == Prepend(songs, Collect(outcomes[i..]))
    {
      var line := lines[i];
      assert outcomes[i..][0] == LineEntry(line);
      assert outcomes[i..][1..] == outcomes[i + 1..];
      if Strip(line) != [] && IsDigit(line[0]) {
        var parts := Split(line, " - ");
        if |parts| == 2 {
          var ordinal := Split(parts[0], ". ");
          if |ordinal| < 2 {
            return Raised(IndexError);
          }
          var title := Strip(ordinal[1]);
          var artist := Strip(parts[1]);
          PrependAssoc(songs, [Song(title, artist)], Collect(outcomes[i + 1..]));
          songs := songs + [Song(title, artist)];
        }
      }
      i := i + 1;
    }
    assert outcomes[i..] == [] && songs + [] == songs;
    return Ok(songs);
  }

  /** Lines are handled independently and in order: the songs of `a + b` are those of `a`
      followed by those of `b`, and an exception in `a` is raised whatever `b` holds. */
  lemma {:induction false} CollectAppend(a: seq<LineOutcome>, b: seq<LineOutcome>)
    ensures Collect(a + b) ==
      match Collect(a)
      case Ok(songs) => Prepend(songs, Collect(b))
      case Raised(e) => Raised(e)
  {
    if a == [] {
      assert a + b == b;
      match Collect(b)
      case Ok(s) => assert [] + s == s;
      case Raised(_) =>
    } else {
      assert (a + b)[1..] == a[1..] + b;
      CollectAppend(a[1..], b);
      match a[0]
      case Skip =>
      case Raises =>
      case Entry(song) =>
        match Collect(a[1..])
        case Raised(_) =>
        case Ok(s) =>
          match Collect(b)
          case Raised(_) =>
          case Ok(t) => assert [song] + (s + t) == ([song] + s) + t;
    }
  }

  /** Collecting raises exactly when some line raises. */
  lemma {:induction false} CollectRaisesIff(outcomes: seq<LineOutcome>)
    ensures Collect(outcomes).Raised? <==> Raises in outcomes
  {
    if outcomes != [] {
      CollectRaisesIff(outcomes[1..]);
      assert outcomes == [outcomes[0]] + outcomes[1..];
    }
  }

  /** Lines that are all entries give their songs, in order. */
  lemma {:induction false} CollectEntries(outcomes: seq<LineOutcome>)
    requires forall k :: 0 <= k < |outcomes| ==> outcomes[k].Entry?
    ensures Collect(outcomes).Ok?
    ensures |Collect(outcomes).value| == |outcomes|
    ensures forall k :: 0 <= k < |outcomes| ==> Collect(outcomes).value[k] == outcomes[k].song
  {
    if outcomes != [] {
      CollectEntries(outcomes[1..]);
      assert outcomes[0] == Entry(outcomes[0].song);
      var tail := Collect(outcomes[1..]).value;
      assert Collect(outcomes) == Ok([outcomes[0].song] + tail);
      assert forall k :: 1 <= k < |outcomes| ==> outcomes[k] == outcomes[1..][k - 1];
    }
  }

  /** A numbering such as "7" or "10": a non-empty run of digits. */
  predicate IsOrdinal(num: string) {
    |num| > 0 && forall k :: 0 <= k < |num| ==> IsDigit(num[k])
  }

  /** A title that cannot form " - " in an entry line: it has none, and it neither starts nor
      ends with '-' (which would make one with the spaces around it). */
  predicate DashSafe(t: string) {
    !Contains(t, " - ") && (t != [] ==> t[0] != '-' && t[|t| - 1] != '-')
  }

  /** A title that survives the round trip: one line, already stripped, without ". ", and
      dash-safe. */
  predicate PlainTitle(t: string) {
    '\n' !in t && Strip(t) == t && !Contains(t, ". ") && DashSafe(t)
  }

  /** An artist that survives the round trip: one line, already stripped, without " - ". */
  predicate PlainArtist(a: string) {
    '\n' !in a && Strip(a) == a && !Contains(a, " - ")
  }

  /** The line the generator is asked to write for one song. */
  function EntryLine(num: string, song: Song): string {
    num + ". " + song.title + " - " + song.artist
  }

  /** Before the separator that follows the title there is no " - ": not in the digits,
      not around the ". ", not inside the title and not across its ends. */
  lemma NoEntrySeparatorBefore(line: string, n: nat, t: string)
    requires n > 0 && n + 2 + |t| + 3 <= |line|
    requires forall k :: 0 <= k < n ==> IsDigit(line[k])
    requires line[n] == '.' && line[n + 1] == ' '
    requires line[n + 2..n + 2 + |t|] == t
    requires line[n + 2 + |t|] == ' '
    requires DashSafe(t)
    ensures forall i: nat :: i < n + 2 + |t| ==> !OccursAt(line, " - ", i)
  {
    var p := n + 2 + |t|;
    forall i: nat | i < p ensures !OccursAt(line, " - ", i) {
      if i < n {
        assert !IsSpace(line[i]);
        Mismatch(line, " - ", i, 0);
      } else if i == n {
        Mismatch(line, " - ", i, 0);
      } else if i == n + 1 {
        assert t != [] ==> line[i + 1] == t[0];
        Mismatch(line, " - ", i, 1);
      } else if i + 3 <= p {
        OccursWithin(line, n + 2, t, " - ", i - n - 2);
        assert !OccursAt(t, " - ", i - n - 2);
      } else if i + 2 == p {
        assert line[i + 1] == t[|t| - 1];
        Mismatch(line, " - ", i, 1);
      } else {
        Mismatch(line, " - ", i, 1);
      }
    }
  }

  /** In an entry line with a dash-safe title, the first " - " is the one after the title. */
  lemma EntrySeparatorFound(num: string, t: string, a: string)
    requires IsOrdinal(num) && DashSafe(t)
    ensures Find(num + ". " + t + " - " + a, " - ") == |num| + 2 + |t|
  {
    var line := num + ". " + t + " - " + a;
    var p := |num| + 2 + |t|;
    assert forall k :: 0 <= k < |num| ==> line[k] == num[k];
    assert line[|num|] == '.' && line[|num| + 1] == ' ';
    assert line[|num| + 2..p] == t;
    assert line[p] == ' ' && line[p + 1] == '-' && line[p + 2] == ' ';
    NoEntrySeparatorBefore(line, |num|, t);
    OccursAt3(line, " - ", p);
    FindIs(line, " - ", p);
  }

  /** In a well-formed entry line the first " - " is the one after the title, and it is the only one. */
  lemma EntrySeparatorFirst(num: string, t: string, a: string)
    requires IsOrdinal(num) && DashSafe(t) && !Contains(a, " - ")
    ensures Split(num + ". " + t + " - " + a, " - ") == [num + ". " + t, a]
  {
    EntrySeparatorFound(num, t, a);
    SplitInTwo(num + ". " + t, " - ", a);
  }

  /** After a number, the first ". " is the one that follows it. */
  lemma OrdinalSeparatorFirst(num: string, t: string)
    requires IsOrdinal(num)
    ensures Split(num + ". " + t, ". ") == [num] + Split(t, ". ")
  {
    var head := num + ". " + t;
    assert OccursAt(head, ". ", |num|);
    forall i: nat | i < |num| ensures !OccursAt(head, ". ", i) {
      assert head[i] == num[i];
      Mismatch(head, ". ", i, 0);
    }
    FindIs(head, ". ", |num|);
    SplitAtFirst(num, ". ", t);
  }

  /** A well-formed entry line yields exactly its song. */
  lemma EntryLineParses(num: string, song: Song)
    requires IsOrdinal(num) && PlainTitle(song.title) && PlainArtist(song.artist)
    ensures LineEntry(EntryLine(num, song)) == Entry(song)
  {
    EntrySeparatorFirst(num, song.title, song.artist);
    OrdinalPieces(num, song.title);
    EntryLineCandidate(num, song);
    EntryFromParts(EntryLine(num, song), num + ". " + song.title, song.artist);
  }

  /** A numbered head whose title has no ". " splits into the number and the title. */
  lemma OrdinalPieces(num: string, t: string)
    requires IsOrdinal(num) && !Contains(t, ". ")
    ensures Split(num + ". " + t, ". ") == [num, t]
  {
    OrdinalSeparatorFirst(num, t);
    SplitAbsent(t, ". ");
  }

  /** An entry line is a candidate. */
  lemma EntryLineCandidate(num: string, song: Song)
    requires IsOrdinal(num)
    ensures IsCandidate(EntryLine(num, song))
  {
    assert EntryLine(num, song)[0] == num[0];
    DigitLineIsCandidate(EntryLine(num, song));
  }

  /** A line that starts with a digit is a candidate. */
  lemma DigitLineIsCandidate(line: string)
    requires line != [] && IsDigit(line[0])
    ensures IsCandidate(line)
  {
    assert !AllSpace(line) by { assert !IsSpace(line[0]); }
  }

  /** A candidate with exactly two " - " pieces, the first with a ". ", is an entry. */
  lemma EntryFromParts(line: string, head: string, a: string)
    requires IsCandidate(line) && Split(line, " - ") == [head, a] && |Split(head, ". ")| >= 2
    ensures LineEntry(line) == Entry(Song(Strip(Split(head, ". ")[1]), Strip(a)))
  {
  }

  /** The first ". " of `t1 + ". " + t2` is the one after `t1` when `t1` has none. */
  lemma FirstDotAfter(t1: string, t2: string)
    requires !Contains(t1, ". ")
    ensures Before(t1 + ". " + t2, ". ") == t1
  {
    var t := t1 + ". " + t2;
    assert OccursAt(t, ". ", |t1|);
    forall i: nat | i < |t1| ensures !OccursAt(t, ". ", i) {
      if i + 2 <= |t1| {
        OccursWithin(t, 0, t1, ". ", i);
      } else {
        Mismatch(t, ". ", i, 1);
      }
    }
    FindIs(t, ". ", |t1|);
    assert t[..|t1|] == t1;
  }

  /** A title holding ". " is cut at it: only the text up to the second ". " of the line is
      kept, stripped. */
  lemma TitleCutAtSecondDot(num: string, t1: string, t2: string, a: string)
    requires IsOrdinal(num) && DashSafe(t1 + ". " + t2) && !Contains(t1, ". ") && !Contains(a, " - ")
    ensures LineEntry(num + ". " + (t1 + ". " + t2) + " - " + a) == Entry(Song(Strip(t1), Strip(a)))
  {
    var t := t1 + ". " + t2;
    var line := num + ". " + t + " - " + a;
    EntrySeparatorFirst(num, t, a);
    TitleCutPieces(num, t1, t2);
    assert line[0] == num[0];
    DigitLineIsCandidate(line);
    EntryFromParts(line, num + ". " + t, a);
  }

  /** The second ". " piece of a numbered head is the text up to the next ". ". */
  lemma TitleCutPieces(num: string, t1: string, t2: string)
    requires IsOrdinal(num) && !Contains(t1, ". ")
    ensures |Split(num + ". " + (t1 + ". " + t2), ". ")| >= 2
    ensures Split(num + ". " + (t1 + ". " + t2), ". ")[1] == t1
  {
    OrdinalSeparatorFirst(num, t1 + ". " + t2);
    FirstDotAfter(t1, t2);
    SplitFields(t1 + ". " + t2, ". ");
  }

  /** "1. Mr. Brightside - The Killers" gives the title "Mr". The pieces of the line come in
      as parameters fixed by the precondition, which keeps the solver off the whole literal. */
  lemma MrBrightside(num: string, t1: string, t2: string, a: string)
    requires num == "1" && t1 == "Mr" && t2 == "Brightside" && a == "The Killers"
    ensures LineEntry(num + ". " + (t1 + ". " + t2) + " - " + a) == Entry(Song("Mr", "The Killers"))
  {
    var t := t1 + ". " + t2;
    assert '-' !in t && '-' !in a && '.' !in t1;
    LacksChar(t, " - ", 1);
    LacksChar(a, " - ", 1);
    LacksChar(t1, ". ", 0);
    assert !IsSpace(t1[0]) && !IsSpace(t1[|t1| - 1]) && !IsSpace(a[0]) && !IsSpace(a[|a| - 1]);
    TitleCutAtSecondDot(num, t1, t2, a);
  }

  /** The lines of a playlist written in the expected format, numbered by `nums`. */
  function Listing(nums: seq<string>, songs: seq<Song>): (lines: seq<string>)
    requires |nums| == |songs|
    ensures |lines| == |songs|
  {
    seq(|songs|, k requires 0 <= k < |songs| => EntryLine(nums[k], songs[k]))
  }

  /** Text in which every line is "<n>. <title> - <artist>", with plain titles and artists,
      gives back exactly those songs in that order. */
  lemma ParseListing(nums: seq<string>, songs: seq<Song>)
    requires |nums| == |songs|
    requires forall k :: 0 <= k < |nums| ==> IsOrdinal(nums[k])
    requires forall k :: 0 <= k < |songs| ==> PlainTitle(songs[k].title) && PlainArtist(songs[k].artist)
    ensures Collect(LineOutcomes(Split(Join(Listing(nums, songs), "\n"), "\n"))) == Ok(songs)
  {
    var lines := Listing(nums, songs);
    if songs == [] {
      assert Split("", "\n") == [""];
      assert LineOutcomes([""]) == [Skip];
    } else {
      forall k | 0 <= k < |lines| ensures '\n' !in lines[k] {
        var num := nums[k];
        assert '\n' !in num by {
          assert forall j :: 0 <= j < |num| ==> num[j] != '\n';
        }
        assert lines[k] == num + ". " + songs[k].title + " - " + songs[k].artist;
      }
      SplitJoin(lines, '\n');
      var outcomes := LineOutcomes(lines);
      forall k | 0 <= k < |lines| ensures outcomes[k] == Entry(songs[k]) {
        EntryLineParses(nums[k], songs[k]);
      }
      CollectEntries(outcomes);
      assert Collect(outcomes).value == songs;
    }
  }
}
