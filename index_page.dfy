/** The `Index` page: its catalogue of tracks and radio stations, the
    case-insensitive search filter, the library slice, the play/pause icon of
    a row, and the page's own playback state with its three handlers. */
module IndexPage {
  import opened JsValues

  /** A track as the page declares it (it has no source URL). */
  datatype Track = Track(id: string, title: string, artist: string, duration: string, album: Option<string>)

  datatype RadioStation = RadioStation(id: string, name: string, genre: string, url: string)

  /** The duration label of a live stream. */
  const LiveDuration: string := "\U{221E}"

  /** How many catalogue tracks the library tab shows. */
  const LibrarySize: nat := 4

  const MockTracks: seq<Track> := [
    Track("1", "Funeral Fog", "Mayhem", "5:47", Some("De Mysteriis Dom Sathanas")),
    Track("2", "Freezing Moon", "Mayhem", "6:23", Some("De Mysteriis Dom Sathanas")),
    Track("3", "Transilvanian Hunger", "Darkthrone", "6:09", Some("Transilvanian Hunger")),
    Track("4", "Under a Funeral Moon", "Darkthrone", "5:07", Some("Under a Funeral Moon")),
    Track("5", "In the Shadow of the Horns", "Darkthrone", "7:07", Some("A Blaze in the Northern Sky")),
    Track("6", "Dunkelheit", "Burzum", "7:05", Some("Filosofem")),
    Track("7", "Det Som Engang Var", "Burzum", "14:21", Some("Det Som Engang Var")),
    Track("8", "Pure Fucking Armageddon", "Mayhem", "3:30", Some("Pure Fucking Armageddon"))
  ]

  const MockRadioStations: seq<RadioStation> := [
    RadioStation("r1", "Black Metal Radio", "Black Metal", "https://stream.radio.co/black-metal"),
    RadioStation("r2", "Death Metal Station", "Death Metal", "https://stream.radio.co/death-metal"),
    RadioStation("r3", "Doom Channel", "Doom Metal", "https://stream.radio.co/doom"),
    RadioStation("r4", "Atmospheric Black", "Atmospheric", "https://stream.radio.co/atmospheric")
  ]

  // ---------------------------------------------------------------------
  // Search

  /** `toLowerCase` on one character, for the ASCII letters. */
  function LowerChar(c: char): (r: char)
    ensures 'A' <= c <= 'Z' ==> r as int == c as int + 32
    ensures !('A' <= c <= 'Z') ==> r == c
    ensures !('A' <= r <= 'Z')
  {
    if 'A' <= c <= 'Z' then (c as int - 'A' as int + 'a' as int) as char else c
  }

  /** `s.toLowerCase()`: every character lowered, nothing else changed. */
  function ToLower(s: string): (r: string)
    ensures |r| == |s|
    ensures forall i :: 0 <= i < |s| ==> r[i] == LowerChar(s[i])
  {
    if s == [] then [] else [LowerChar(s[0])] + ToLower(s[1..])
  }

  /** Lowering twice is lowering once. */
  lemma ToLowerIdempotent(s: string)
    ensures ToLower(ToLower(s)) == ToLower(s)
  {
    var t := ToLower(s);
    assert forall i :: 0 <= i < |t| ==> ToLower(t)[i] == t[i];
  }

  /** `hay.includes(needle)`: `needle` is a prefix of `hay` or of one of its
      suffixes. */
  predicate Includes(hay: string, needle: string)
    decreases |hay|
  {
    needle <= hay || (hay != [] && Includes(hay[1..], needle))
  }

  /** `needle` occurs in `hay` starting at index `i`. */
  predicate OccursAt(hay: string, needle: string, i: nat) {
    i + |needle| <= |hay| && hay[i..i + |needle|] == needle
  }

  /** `Includes` holds exactly when `needle` occurs somewhere in `hay`. */
  lemma {:induction false} IncludesIffOccurs(hay: string, needle: string)
    ensures Includes(hay, needle) <==> exists i: nat :: OccursAt(hay, needle, i)
    decreases |hay|
  {
    if needle <= hay {
      assert OccursAt(hay, needle, 0);
    } else if hay == [] {
      forall i: nat ensures !OccursAt(hay, needle, i) {
      }
    } else {
      IncludesIffOccurs(hay[1..], needle);
      if Includes(hay[1..], needle) {
        var i: nat :| OccursAt(hay[1..], needle, i);
        OccursShift(hay, needle, i);
      } else {
        forall i: nat | 0 < i ensures !OccursAt(hay, needle, i) {
          OccursShift(hay, needle, i - 1);
        }
        assert !OccursAt(hay, needle, 0);
      }
    }
  }

  /** An occurrence in the tail of `hay` is an occurrence in `hay` one place on. */
  lemma OccursShift(hay: string, needle: string, i: nat)
    requires hay != []
    ensures OccursAt(hay[1..], needle, i) <==> OccursAt(hay, needle, i + 1)
  {
    if i + 1 + |needle| <= |hay| {
      assert hay[1..][i..i + |needle|] == hay[i + 1..i + 1 + |needle|];
    }
  }

  /** The empty query is included in every string. */
  lemma IncludesEmpty(hay: string)
    ensures Includes(hay, "")
  {
  }

  /** The search predicate: the lowered title or the lowered artist includes
      the lowered query. */
  predicate Matches(track: Track, query: string) {
    Includes(ToLower(track.title), ToLower(query)) || Includes(ToLower(track.artist), ToLower(query))
  }

  /** `a` is `b` with some elements left out, order kept. */
  predicate IsSubsequence(a: seq<Track>, b: seq<Track>)
    decreases |b|
  {
    if a == [] then true
    else if b == [] then false
    else (a[0] == b[0] && IsSubsequence(a[1..], b[1..])) || IsSubsequence(a, b[1..])
  }

  /** `filteredTracks`: the tracks that match the query, in catalogue order.
      Every matching occurrence is kept and no other. */
  function FilterTracks(tracks: seq<Track>, query: string): (r: seq<Track>)
    ensures IsSubsequence(r, tracks)
    ensures forall t :: multiset(r)[t] == if Matches(t, query) then multiset(tracks)[t] else 0
    ensures forall t :: t in r <==> t in tracks && Matches(t, query)
  {
    if tracks == [] then []
    else
      var rest := FilterTracks(tracks[1..], query);
      assert tracks == [tracks[0]] + tracks[1..];
      if Matches(tracks[0], query) then
        assert ([tracks[0]] + rest)[1..] == rest;
        [tracks[0]] + rest
      else
        rest
  }

  /** The empty query keeps the whole catalogue. */
  lemma {:induction false} FilterEmptyQuery(tracks: seq<Track>)
    ensures FilterTracks(tracks, "") == tracks
  {
    if tracks != [] {
      assert ToLower("") == "";
      IncludesEmpty(ToLower(tracks[0].title));
      assert Matches(tracks[0], "");
      assert FilterTracks(tracks, "") == [tracks[0]] + FilterTracks(tracks[1..], "");
      FilterEmptyQuery(tracks[1..]);
      assert tracks == [tracks[0]] + tracks[1..];
    }
  }

  /** Filtering the filtered list again with the same query changes nothing. */
  lemma {:induction false} FilterIdempotent(tracks: seq<Track>, query: string)
    ensures FilterTracks(FilterTracks(tracks, query), query) == FilterTracks(tracks, query)
  {
    if tracks != [] {
      FilterIdempotent(tracks[1..], query);
      var rest := FilterTracks(tracks[1..], query);
      if Matches(tracks[0], query) {
        assert ([tracks[0]] + rest)[1..] == rest;
      }
    }
  }

  /** Two queries that lower to the same text select the same tracks. */
  lemma {:induction false} FilterCaseInsensitive(tracks: seq<Track>, q1: string, q2: string)
    requires ToLower(q1) == ToLower(q2)
    ensures FilterTracks(tracks, q1) == FilterTracks(tracks, q2)
  {
    if tracks != [] {
      FilterCaseInsensitive(tracks[1..], q1, q2);
    }
  }

  /** In particular the query and its lowered form select the same tracks. */
  lemma FilterLoweredQuery(tracks: seq<Track>, query: string)
    ensures FilterTracks(tracks, ToLower(query)) == FilterTracks(tracks, query)
  {
    ToLowerIdempotent(query);
    FilterCaseInsensitive(tracks, ToLower(query), query);
  }

  // ---------------------------------------------------------------------
  // Library and row icons

  /** `myLibrary`: `tracks.slice(0, 4)`, the first four tracks or all of
      them when there are fewer. */
  function MyLibrary(tracks: seq<Track>): (r: seq<Track>)
    ensures |r| == if |tracks| < LibrarySize then |tracks| else LibrarySize
    ensures r <= tracks
  {
    if |tracks| < LibrarySize then tracks else tracks[..LibrarySize]
  }

  /** The library tab of the catalogue holds tracks "1" to "4". */
  lemma MyLibraryOfMockTracks()
    ensures |MyLibrary(MockTracks)| == 4
    ensures MyLibrary(MockTracks)[0].id == "1" && MyLibrary(MockTracks)[3].id == "4"
    ensures MyLibrary(MockTracks) == MockTracks[..4]
  {
  }

  /** The icon of a track row: "Pause" exactly when that track is the current
      one (by id) and the page is playing, "Play" otherwise. */
  function RowIcon(current: Option<Track>, isPlaying: bool, track: Track): (r: string)
    ensures r == "Pause" || r == "Play"
    ensures r == "Pause" <==> current.Some? && current.value.id == track.id && isPlaying
  {
    if current.Some? && current.value.id == track.id && isPlaying then "Pause" else "Play"
  }

  predicate DistinctIds(rows: seq<Track>) {
    forall i, j :: 0 <= i < j < |rows| ==> rows[i].id != rows[j].id
  }

  lemma MockTracksDistinctIds()
    ensures DistinctIds(MockTracks)
  {
  }

  /** Leaving rows out keeps their ids distinct. */
  lemma {:induction false} SubsequenceDistinctIds(a: seq<Track>, b: seq<Track>)
    requires IsSubsequence(a, b) && DistinctIds(b)
    ensures DistinctIds(a)
    decreases |b|
  {
    if a != [] && b != [] {
      if a[0] == b[0] && IsSubsequence(a[1..], b[1..]) {
        SubsequenceDistinctIds(a[1..], b[1..]);
        SubsequenceMembers(a[1..], b[1..]);
        forall j | 0 < j < |a| ensures a[0].id != a[j].id {
          assert a[j] == a[1..][j - 1];
          assert a[j] in a[1..];
          var k :| 0 <= k < |b[1..]| && b[1..][k] == a[j];
          assert b[k + 1] == a[j];
        }
      } else {
        SubsequenceDistinctIds(a, b[1..]);
      }
    }
  }

  /** Every row of a subsequence is a row of the whole. */
  lemma {:induction false} SubsequenceMembers(a: seq<Track>, b: seq<Track>)
    requires IsSubsequence(a, b)
    ensures forall x :: x in a ==> x in b
    decreases |b|
  {
    if a != [] && b != [] {
      if a[0] == b[0] && IsSubsequence(a[1..], b[1..]) {
        SubsequenceMembers(a[1..], b[1..]);
        assert a == [a[0]] + a[1..];
      } else {
        SubsequenceMembers(a, b[1..]);
      }
    }
  }

  /** In the search results at most one row shows "Pause". */
  lemma AtMostOnePauseRow(query: string, current: Option<Track>, isPlaying: bool)
    ensures var rows := FilterTracks(MockTracks, query);
      forall i, j ::
        (0 <= i < |rows| && 0 <= j < |rows| &&
         RowIcon(current, isPlaying, rows[i]) == "Pause" &&
         RowIcon(current, isPlaying, rows[j]) == "Pause") ==> i == j
  {
    var rows := FilterTracks(MockTracks, query);
    MockTracksDistinctIds();
    SubsequenceDistinctIds(rows, MockTracks);
  }

  // ---------------------------------------------------------------------
  // The page's playback state

  /** The page's own state: a playing flag, the current track and the
      search query. */
  class Page {
    var isPlaying: bool
    var currentTrack: Option<Track>
    var searchQuery: string

    constructor ()
      ensures !isPlaying && currentTrack == None && searchQuery == ""
    {
      isPlaying := false;
      currentTrack := None;
      searchQuery := "";
    }

    /** `handlePlayTrack(track)`: loads the track and plays it, even when it
        is already the current one; there is no toggle here. */
    method HandlePlayTrack(track: Track)
      modifies this
      ensures currentTrack == Some(track) && isPlaying
      ensures searchQuery == old(searchQuery)
    {
      currentTrack := Some(track);
      isPlaying := true;
    }

    /** `togglePlay()`: flips the playing flag and nothing else. */
    method TogglePlay()
      modifies this
      ensures isPlaying == !old(isPlaying)
      ensures currentTrack == old(currentTrack) && searchQuery == old(searchQuery)
    {
      isPlaying := !isPlaying;
    }

    /** The "listen" button of a radio station: plays a placeholder track
        named after the station, its genre as artist, an infinite duration
        label and no album. */
    method ListenStation(station: RadioStation)
      modifies this
      ensures isPlaying
      ensures currentTrack == Some(Track(station.id, station.name, station.genre, LiveDuration, None))
      ensures searchQuery == old(searchQuery)
    {
      isPlaying := true;
      currentTrack := Some(Track(station.id, station.name, station.genre, LiveDuration, None));
    }

    /** The search input's change handler. */
    method SetSearchQuery(query: string)
      modifies this
      ensures searchQuery == query
      ensures isPlaying == old(isPlaying) && currentTrack == old(currentTrack)
    {
      searchQuery := query;
    }
  }

  /** Clicking the same row twice keeps it playing, and its row shows
      "Pause"; a toggle then shows "Play" again. */
  method ClickRowTwice(track: Track) returns (page: Page, before: string, after: string)
    ensures page.currentTrack == Some(track)
    ensures before == "Pause" && after == "Play"
    ensures !page.isPlaying
  {
    page := new Page();
    page.HandlePlayTrack(track);
    page.HandlePlayTrack(track);
    before := RowIcon(page.currentTrack, page.isPlaying, track);
    page.TogglePlay();
    after := RowIcon(page.currentTrack, page.isPlaying, track);
  }

  /** Listening to the first station of the catalogue: the page plays a
      track with the station's id, its name as title, its genre as artist
      and the infinite duration label; the stream URL is not carried over. */
  method ListenFirstStation() returns (page: Page)
    ensures page.isPlaying
    ensures page.currentTrack == Some(Track("r1", "Black Metal Radio", "Black Metal", LiveDuration, None))
    ensures page.searchQuery == ""
  {
    page := new Page();
    page.ListenStation(MockRadioStations[0]);
  }
}
