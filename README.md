# Music player transport and search, in Dafny

This project models the playback logic of a browser music player. It has two parts.

**The `useAudioPlayer` hook** (`audio_player.dfy`, module `AudioPlayer`) is the transport state machine. It keeps one shared media element. Beside it, it keeps the React state: the current track, a playing flag, a position, a duration and a volume. The model has two classes:

- `AudioElement` holds `src`, `currentTime`, `duration` and `paused`. Besides `load`, `play()` and `pause()` it has two events of its own: the arrival of metadata and the end of the media, after which it pauses itself and a later `play()` starts over.
- `Player` holds `audio` (null until the mount effect runs), whether the listeners are installed, and the five state fields.

Every operation is a method. This covers `playTrack`, `togglePlay`, `seek`, `skipForward`, `skipBackward` and the raw volume setter. It also covers the mount effect, its cleanup and the four listeners (`timeupdate`, `loadedmetadata`, `ended`, `error`). Each method's `ensures` states its whole new state, case by case. The outcome of the asynchronous `play()` is an explicit `playSucceeds` parameter. `formatTime` is a pure function. It is proved equal to an integer-only clock rendering for non-negative input, and that rendering is proved to read back to the whole seconds.

**The `Index` page** (`index_page.dfy`, module `IndexPage`) has three parts:

- The search filter, proved to be an order-preserving subsequence of the catalogue that keeps exactly the matching tracks. It is also proved case-insensitive and idempotent, and the empty query keeps everything.
- The library slice and the play/pause icon of a row.
- The page's own simpler state, with `handlePlayTrack`, `togglePlay` and the radio "listen" button.

`js_values.dfy` (module `JsValues`) holds the JavaScript semantics these need:

- optional values;
- numbers that may be NaN or infinite;
- `%` with the sign of the dividend;
- `toString` of integers and `padStart`.

Concrete runs are written as client methods (for example `ReplaySameTrack`, `PlaceholderAfterRealTrack`). Each one states what it ends in.

Behaviour a caller might not expect, which the model follows as written:

- `playTrack` does not reset the position state when it loads a new track. Only the element's own position goes to 0, and the state catches up at the next `timeupdate`.
- `setVolume` stores its argument unclamped.
- The invariant "playing implies a track is loaded" (`Player.PlayingHasTrack`) holds after `playTrack` and the listeners. `togglePlay` with nothing loaded breaks it (`ToggleWithoutTrack`).
- A failed `play()` inside `togglePlay` leaves the flag as it was, rather than forcing it to false. These agree, because that branch is only reached when the flag is false.
- A placeholder loaded while a real track plays leaves the element playing the old source. A toggle afterwards only clears the flag (`PlaceholderAfterRealTrack`).

## Model

| member | source | states |
|---|---|---|
| JsValues.Trunc | src/hooks/useAudioPlayer.ts:130 | rounds toward zero: the floor for non-negative numbers, within one above a negative number |
| JsValues.Rem | src/hooks/useAudioPlayer.ts:130 | JavaScript `%`: the dividend minus a whole multiple of the divisor; for a positive divisor the remainder lies in [0, divisor) for a non-negative dividend and in (-divisor, 0] for a negative one |
| JsValues.NatToString | src/hooks/useAudioPlayer.ts:131 | `toString` of a natural: at least one character, all decimal digits, one digit exactly below 10, no leading zero |
| JsValues.IntToString | src/hooks/useAudioPlayer.ts:131 | `toString` of an integer: a non-negative one renders as non-empty decimal digits without a leading zero that read back as the number; a negative one as '-' followed by digits, the first not '0', that read back as its magnitude |
| JsValues.PadStart | src/hooks/useAudioPlayer.ts:131 | `padStart`: length is the larger of width and input length, the input is the suffix, everything before it is the fill |
| JsValues.NatToStringRoundTrip | src/hooks/useAudioPlayer.ts:131 | reading the decimal text of n back gives n |
| JsValues.NatToStringInjective | src/hooks/useAudioPlayer.ts:131 | different naturals render to different texts |
| AudioPlayer.SkipForwardTarget | src/hooks/useAudioPlayer.ts:117 | `min(position + 10, duration)`: never above a finite duration nor above position + 10 and equal to one of them; position + 10 for an infinite duration; no assignment for NaN |
| AudioPlayer.SkipBackwardTarget | src/hooks/useAudioPlayer.ts:123 | `max(position - 10, 0)`: never below 0 nor below position - 10, and equal to one of them |
| AudioPlayer.FormatTime | src/hooks/useAudioPlayer.ts:127-132 | "0:00" for NaN and both infinities; for a non-negative number, exactly the integer clock text of its whole seconds |
| AudioPlayer.FormatFiniteClock | src/hooks/useAudioPlayer.ts:129-131 | for non-negative input the real-valued minutes/seconds rendering equals the integer clock text |
| AudioPlayer.WholeSecondsSplit | src/hooks/useAudioPlayer.ts:129-130 | for non-negative x, `floor(x / 60)` and `floor(x % 60)` are the quotient and remainder of `floor(x)` by 60 |
| AudioPlayer.TwoDigitSeconds | src/hooks/useAudioPlayer.ts:130-131 | seconds in [0, 59] padded to two characters are exactly their tens and units digits |
| AudioPlayer.ClockTextRoundTrip | src/hooks/useAudioPlayer.ts:127-132 | the clock text is digits, ':', two digits; the seconds part is below 60 and minutes * 60 + seconds gives back the whole seconds |
| AudioPlayer.FormatTimeExamples | src/hooks/useAudioPlayer.ts:127-132 | NaN and the infinities give "0:00"; 75 gives "1:15"; 5 gives "0:05"; 59.9 gives "0:59" |
| AudioPlayer.FormatTimeNegativeExample | src/hooks/useAudioPlayer.ts:129-131 | -5 gives "-1:-5": the sign-keeping `%` yields unpadded negative seconds |
| AudioPlayer.AudioElement.constructor | src/hooks/useAudioPlayer.ts:22 | a new element has no source, position 0, NaN duration and is paused |
| AudioPlayer.AudioElement.Load | src/hooks/useAudioPlayer.ts:76 | assigning `src` sets it, pauses, rewinds to 0 and makes the duration NaN |
| AudioPlayer.AudioElement.Play | src/hooks/useAudioPlayer.ts:78 | a successful `play()` unpauses and, when playback had ended, first seeks back to 0; a refused one changes nothing |
| AudioPlayer.AudioElement.ReceiveMetadata | src/hooks/useAudioPlayer.ts:32-34 | the metadata that precedes `loadedmetadata` makes the element's duration known and changes nothing else |
| AudioPlayer.AudioElement.ReachEnd | src/hooks/useAudioPlayer.ts:36-39 | a playing element that reaches the end before `ended` stands at its duration, paused, with playback ended |
| AudioPlayer.AudioElement.Pause | src/hooks/useAudioPlayer.ts:97 | `pause()` pauses and changes nothing else |
| AudioPlayer.Player.constructor | src/hooks/useAudioPlayer.ts:13-18 | no element, nothing loaded, not playing, position 0, duration 0, volume 75 |
| AudioPlayer.Player.Mount | src/hooks/useAudioPlayer.ts:20-50 | the element exists afterwards, an existing one is kept (never recreated), a new one has no source, position 0, NaN duration and is paused; the listeners are installed, the state is unchanged |
| AudioPlayer.Player.Unmount | src/hooks/useAudioPlayer.ts:51-56 | listeners removed, element and state kept |
| AudioPlayer.Player.PlayTrack | src/hooks/useAudioPlayer.ts:65-87 | no element: nothing changes; same id: exactly `togglePlay`, track unchanged; new track: it becomes current; without a URL it plays and the element is untouched; with one the element gets the URL and the flag equals the `play()` outcome; keeps "playing implies a track" |
| AudioPlayer.Player.TogglePlay | src/hooks/useAudioPlayer.ts:89-106 | without element or real source the flag is negated; playing: element paused and flag false; paused: flag becomes the `play()` outcome, a success after the end restarts the element at 0, and a failure changes nothing; track never changes |
| AudioPlayer.Player.Seek | src/hooks/useAudioPlayer.ts:108-113 | with a real source both element and state position become the target; otherwise nothing changes |
| AudioPlayer.Player.SkipForward | src/hooks/useAudioPlayer.ts:115-119 | with a real source the element moves to the forward target and never above a finite duration; otherwise the element is unchanged; the state is never touched |
| AudioPlayer.Player.SkipBackward | src/hooks/useAudioPlayer.ts:121-125 | with a real source the element moves to the backward target and never below 0; otherwise the element is unchanged |
| AudioPlayer.Player.SetVolume | src/hooks/useAudioPlayer.ts:145 | stores any finite volume as given, unclamped and not rounded, and nothing else |
| AudioPlayer.Player.HandleTimeUpdate | src/hooks/useAudioPlayer.ts:28-30 | the position state becomes the element's position; nothing else changes |
| AudioPlayer.Player.HandleLoadedMetadata | src/hooks/useAudioPlayer.ts:32-34 | the duration state becomes the element's duration; nothing else changes |
| AudioPlayer.Player.HandleEnded | src/hooks/useAudioPlayer.ts:36-39 | not playing, position 0, same track, no advance |
| AudioPlayer.Player.HandleError | src/hooks/useAudioPlayer.ts:41-44 | not playing; track, position and duration unchanged |
| AudioPlayer.ReplaySameTrack | src/hooks/useAudioPlayer.ts:68-86 | loading a real track and then its id again leaves it loaded, playing only if the first `play()` failed and the second succeeded, with the element paused exactly when not playing |
| AudioPlayer.PlayPlaceholder | src/hooks/useAudioPlayer.ts:84-86 | a placeholder plays at once with the element left empty and paused |
| AudioPlayer.ToggleWithoutTrack | src/hooks/useAudioPlayer.ts:90-92 | toggling with nothing loaded sets the flag with no track: the playing-implies-track invariant fails |
| AudioPlayer.PlaceholderAfterRealTrack | src/hooks/useAudioPlayer.ts:84-92 | after a real track, a placeholder and a toggle, the flag is false while the element still plays the old source |
| AudioPlayer.PlayUntilEnded | src/hooks/useAudioPlayer.ts:32-39 | after play, metadata, seek, the end of media and the `ended` event the track stays loaded, not playing, at position 0 with the duration known, while the element waits paused at the end |
| AudioPlayer.PlayAgainAfterEnd | src/hooks/useAudioPlayer.ts:89-102 | toggling after the end plays again from 0: the element and the position state agree |
| IndexPage.LowerChar | src/pages/Index.tsx:63 | ASCII capitals move to lower case, every other character is kept, no capital remains |
| IndexPage.ToLower | src/pages/Index.tsx:63-64 | same length, each character lowered |
| IndexPage.ToLowerIdempotent | src/pages/Index.tsx:63-64 | lowering twice equals lowering once |
| IndexPage.IncludesIffOccurs | src/pages/Index.tsx:63-64 | `includes` holds iff the needle occurs at some index of the haystack |
| IndexPage.IncludesEmpty | src/pages/Index.tsx:63-64 | the empty string is included in every string |
| IndexPage.FilterTracks | src/pages/Index.tsx:61-65 | the result is an order-preserving subsequence; each track occurs as often as in the input if it matches and never otherwise; a track is in it iff it is in the input and its lowered title or artist includes the lowered query |
| IndexPage.FilterEmptyQuery | src/pages/Index.tsx:61-65 | the empty query returns the input unchanged |
| IndexPage.FilterIdempotent | src/pages/Index.tsx:61-65 | filtering the result again with the same query changes nothing |
| IndexPage.FilterCaseInsensitive | src/pages/Index.tsx:61-65 | two queries with the same lowered form give the same result |
| IndexPage.FilterLoweredQuery | src/pages/Index.tsx:61-65 | a query and its lowered form give the same result |
| IndexPage.MyLibrary | src/pages/Index.tsx:50 | `slice(0, 4)`: a prefix of length min(4, n) |
| IndexPage.MyLibraryOfMockTracks | src/pages/Index.tsx:32-50 | the library of the catalogue is its first four tracks, ids "1" to "4" |
| IndexPage.RowIcon | src/pages/Index.tsx:127 | "Pause" iff the current track has this row's id and the page is playing, else "Play" |
| IndexPage.MockTracksDistinctIds | src/pages/Index.tsx:32-41 | the catalogue's ids are pairwise distinct |
| IndexPage.SubsequenceDistinctIds | src/pages/Index.tsx:61-65 | a subsequence of rows with distinct ids has distinct ids |
| IndexPage.AtMostOnePauseRow | src/pages/Index.tsx:117-127 | in any search result at most one row shows "Pause" |
| IndexPage.Page.constructor | src/pages/Index.tsx:26-29 | not playing, no track, empty query |
| IndexPage.Page.HandlePlayTrack | src/pages/Index.tsx:52-55 | the track becomes current and the page plays, even for the current track: no toggle |
| IndexPage.Page.TogglePlay | src/pages/Index.tsx:57-59 | the flag is negated and the track kept |
| IndexPage.Page.ListenStation | src/pages/Index.tsx:207-210 | plays a placeholder with the station's id, name as title, genre as artist, duration "∞" and no album |
| IndexPage.Page.SetSearchQuery | src/pages/Index.tsx:110 | the query is replaced and the playback state kept |
| IndexPage.ListenFirstStation | src/pages/Index.tsx:195-210 | listening to the first catalogue station plays track "r1" titled "Black Metal Radio", artist "Black Metal", duration "∞", no album; the query stays empty |
| IndexPage.ClickRowTwice | src/pages/Index.tsx:52-59 | clicking a row twice leaves it playing with a "Pause" icon; a toggle then shows "Play" |

## Left out

- The visualizer components: canvas drawing, the Web Audio analyser graph, animation-frame loops, floating-point bar geometry and `Math.random`. This is rendering and timing, not state logic.
- The catalogue HTTP client and the Python database handler. Both are network and database I/O.
- The element's `volume` (`volume / 100`, a floating-point assignment) and `preload`. Only the hook's `volume` state is modelled, stored as given.
- AudioPlayer.Player.HandleEnded: the element's own progress during playback is not modelled. Its position moves only by seeks and by reaching the end in one step (`AudioElement.ReachEnd`), so the `timeupdate` events of ordinary playback are not generated. `AudioElement.Ended` ignores the playback direction and the `loop` attribute, which the hook never changes.
- AudioPlayer.Player.SetVolume: takes finite numbers only. A NaN or infinite volume, which the setter would also store, is not modelled.
- Console logging in the error paths, and the `audioElement` handle the hook returns.
- Asynchrony: `play()` is one atomic step whose outcome is a parameter. React's batched setters and stale closures are not modelled, so state is read fresh.
- IEEE-754 rounding: finite numbers are exact reals. NaN and the infinities are kept as separate values. JavaScript renders numbers of 1e21 and above in exponent form, so `NatToString` and `FormatTime` match `toString` only below that.
- The page's volume slider, tab switching and all markup.
- AudioPlayer.Player.Seek: the target is a finite real. The TypeError the element raises for a non-finite target is not modelled. Nor is the element's clamping of the target to [0, end of media]: the model gives the element the target as passed, so `seek(-5)` leaves the element at -5 here, while a browser would hold 0 and the state -5.
- AudioPlayer.AudioElement.Play: only a `play()` refused at once is modelled, leaving the element paused. A `play()` that first unpauses the element and fails later (an unsupported source, a network error) would leave `paused` false; the `paused` clauses of `PlayTrack`, `TogglePlay` and `ReplaySameTrack` assume the immediate refusal.
- IndexPage.ToLower: lowers ASCII letters only. The full Unicode case mapping of `toLowerCase` is not modelled.
- AudioPlayer.FormatTime: its contract describes non-negative input only. Negative input follows the code as written and is shown by one example.
