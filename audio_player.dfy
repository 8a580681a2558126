/** The playback transport of the `useAudioPlayer` hook: one shared audio
    element, the React state mirrored beside it (current track, playing
    flag, position, duration, volume), the transport operations, the four
    element event handlers and the `m:ss` time formatter. */
module AudioPlayer {
  import opened JsValues

  /** A track as the hook receives it; `audioUrl` absent or empty marks a
      placeholder that has no real source. */
  datatype Track = Track(
    id: string,
    title: string,
    artist: string,
    duration: string,
    album: Option<string>,
    audioUrl: Option<string>)

  /** JavaScript truthiness of an optional string: present and not empty. */
  predicate Truthy(s: Option<string>) { s.Some? && s.value != "" }

  /** `if (track.audioUrl)`: the track has a real source. */
  predicate HasUrl(track: Track) { Truthy(track.audioUrl) }

  /** `currentTrack?.audioUrl`: a track is loaded and it has a real source. */
  predicate HasSource(current: Option<Track>) { current.Some? && HasUrl(current.value) }

  /** `currentTrack?.id === track.id`: false when nothing is loaded. */
  predicate SameTrack(current: Option<Track>, track: Track) {
    current.Some? && current.value.id == track.id
  }

  /** The fixed step of the skip buttons, in seconds. */
  const SkipStep: real := 10.0

  /** The position `Math.min(position + 10, duration)` that skipping forward
      assigns to the element, or None when that value is not finite (NaN or
      minus infinity), which the element refuses with a TypeError so that
      nothing changes. */
  function SkipForwardTarget(position: real, duration: Num): (r: Option<real>)
    ensures r.Some? <==> duration.Finite? || duration == PositiveInfinity
    ensures duration.Finite? ==>
      r.value <= duration.value && r.value <= position + SkipStep &&
      (r.value == duration.value || r.value == position + SkipStep)
    ensures duration == PositiveInfinity ==> r == Some(position + SkipStep)
  {
    match duration
    case Finite(d) => Some(if position + SkipStep < d then position + SkipStep else d)
    case PositiveInfinity => Some(position + SkipStep)
    case _ => None
  }

  /** The position `Math.max(position - 10, 0)` that skipping backward assigns. */
  function SkipBackwardTarget(position: real): (r: real)
    ensures 0.0 <= r && position - SkipStep <= r
    ensures r == 0.0 || r == position - SkipStep
  {
    if position - SkipStep > 0.0 then position - SkipStep else 0.0
  }

  /** `formatTime`: "0:00" for NaN and the infinities; otherwise the
      `Math.floor` of the minutes, a colon, and the `Math.floor` of the
      JavaScript remainder modulo 60 padded on the left with '0' to two
      characters. For a non-negative number this is the whole-second clock
      text of its integer part. */
  function FormatTime(seconds: Num): (r: string)
    ensures !seconds.Finite? ==> r == "0:00"
    ensures seconds.Finite? && 0.0 <= seconds.value ==> r == ClockText(seconds.value.Floor)
  {
    match seconds
    case Finite(x) =>
      if 0.0 <= x then FormatFiniteClock(x); FormatFinite(x) else FormatFinite(x)
    case _ => "0:00"
  }

  /** The text `formatTime` builds for a finite number. */
  function FormatFinite(x: real): string {
    var mins := (x / 60.0).Floor;
    var secs := Rem(x, 60.0).Floor;
    IntToString(mins) + ":" + PadStart(IntToString(secs), 2, '0')
  }

  /** For a non-negative number the real arithmetic of `formatTime` agrees
      with the integer clock text of its whole seconds. */
  lemma FormatFiniteClock(x: real)
    requires 0.0 <= x
    ensures FormatFinite(x) == ClockText(x.Floor)
  {
    WholeSecondsSplit(x);
    var n := x.Floor;
    var mins, secs := (x / 60.0).Floor, Rem(x, 60.0).Floor;
    assert mins == n / 60 && secs == n % 60;
    TwoDigitSeconds(secs);
    assert IntToString(mins) == NatToString(n / 60);
    assert PadStart(IntToString(secs), 2, '0') == [Digit(n % 60 / 10), Digit(n % 60 % 10)];
  }

  /** Reference rendering of a whole number of seconds as minutes, a colon
      and exactly two second digits, computed on integers alone. */
  function ClockText(n: nat): string {
    NatToString(n / 60) + ":" + [Digit(n % 60 / 10), Digit(n % 60 % 10)]
  }

  /** For a non-negative number the real-valued minute and second parts that
      `formatTime` computes are the integer quotient and remainder of its
      whole seconds by 60. */
  lemma WholeSecondsSplit(x: real)
    ensures 0.0 <= x ==> (x / 60.0).Floor == x.Floor / 60
    ensures 0.0 <= x ==> Rem(x, 60.0).Floor == x.Floor % 60
  {
    if 0.0 <= x {
      var n := x.Floor;
      var m, s := n / 60, n % 60;
      assert n == 60 * m + s;
      assert (m as real) <= x / 60.0 < (m as real) + 1.0;
      assert Trunc(x / 60.0) == m;
      assert (s as real) <= Rem(x, 60.0) < (s as real) + 1.0;
    }
  }

  /** A second count below 60, rendered and padded to two characters, is its
      tens digit followed by its units digit. */
  lemma TwoDigitSeconds(s: int)
    requires 0 <= s < 60
    ensures PadStart(IntToString(s), 2, '0') == [Digit(s / 10), Digit(s % 10)]
  {
    if s < 10 {
      var t := [Digit(s)];
      assert IntToString(s) == t;
      assert PadStart(t, 2, '0') == PadStart(['0'] + t, 2, '0');
      assert PadStart(['0'] + t, 2, '0') == ['0'] + t;
      assert Digit(0) == '0';
    } else {
      var t := NatToString(s / 10) + [Digit(s % 10)];
      assert IntToString(s) == t;
      assert NatToString(s / 10) == [Digit(s / 10)];
      assert PadStart(t, 2, '0') == t;
    }
  }

  /** Reading the clock text back: the part before the colon is the number
      of minutes, the two digits after it are the seconds (below 60), and
      together they give back the whole seconds. */
  lemma {:induction false} ClockTextRoundTrip(n: nat)
    ensures var t := ClockText(n);
      4 <= |t| && t[|t| - 3] == ':' &&
      (forall i :: 0 <= i < |t| - 3 ==> IsDigit(t[i])) &&
      (forall i :: |t| - 2 <= i < |t| ==> IsDigit(t[i])) &&
      DecimalValue(t[..|t| - 3]) * 60 + DecimalValue(t[|t| - 2..]) == n &&
      DecimalValue(t[|t| - 2..]) < 60
  {
    var t := ClockText(n);
    var mins := NatToString(n / 60);
    var secs := [Digit(n % 60 / 10), Digit(n % 60 % 10)];
    assert t == mins + ":" + secs;
    assert t[..|t| - 3] == mins;
    assert t[|t| - 2..] == secs;
    NatToStringRoundTrip(n / 60);
    assert secs[..1] == [Digit(n % 60 / 10)];
    assert DecimalValue(secs) == DecimalValue(secs[..1]) * 10 + DigitValue(secs[1]);
    assert DecimalValue(secs[..1]) == DecimalValue(secs[..0]) * 10 + DigitValue(secs[0]);
  }

  /** The outputs quoted for `formatTime`. */
  lemma FormatTimeExamples()
    ensures FormatTime(NaN) == "0:00"
    ensures FormatTime(PositiveInfinity) == "0:00" && FormatTime(NegativeInfinity) == "0:00"
    ensures FormatTime(Finite(75.0)) == "1:15"
    ensures FormatTime(Finite(5.0)) == "0:05"
    ensures FormatTime(Finite(59.9)) == "0:59"
  {
    assert NatToString(1) == "1" && NatToString(0) == "0";
    assert ClockText(75) == "1:15";
    assert ClockText(5) == "0:05";
    assert ClockText(59) == "0:59";
  }

  /** A negative number: JavaScript's `%` keeps the sign of the dividend,
      so the seconds come out negative and are not padded. */
  lemma FormatTimeNegativeExample()
    ensures FormatTime(Finite(-5.0)) == "-1:-5"
  {
    assert (-5.0 / 60.0).Floor == -1;
    assert Trunc(-5.0 / 60.0) == 0;
    assert Rem(-5.0, 60.0).Floor == -5;
    assert NatToString(1) == "1" && NatToString(5) == "5";
    assert IntToString(-1) == "-1" && IntToString(-5) == "-5";
    assert PadStart("-5", 2, '0') == "-5";
  }

  /** The media element: its source, playback position, duration and
      whether it is paused. Assigning `src` runs the media element load
      algorithm of the HTML standard, which pauses the element, moves its
      position to 0 and makes its duration NaN until metadata arrives. */
  class AudioElement {
    var src: string
    var currentTime: real
    var duration: Num
    var paused: bool

    /** `new Audio()`: no source, position 0, unknown duration, paused. */
    constructor ()
      ensures src == "" && currentTime == 0.0 && duration == NaN && paused
    {
      src, currentTime, duration, paused := "", 0.0, NaN, true;
    }

    /** `audio.src = url`. */
    method Load(url: string)
      modifies this
      ensures src == url && currentTime == 0.0 && duration == NaN && paused
    {
      src, currentTime, duration, paused := url, 0.0, NaN, true;
    }

    /** Playback has ended: the duration is known and the position has
        reached it. */
    predicate Ended()
      reads this
    {
      duration.Finite? && duration.value <= currentTime
    }

    /** `audio.play()`, its promise settled: `succeeds` says whether it
        resolved. A successful play unpauses the element and, when playback
        had ended, first seeks back to the start. Only a play refused at once
        is modelled: it leaves the element as it was. */
    method Play(succeeds: bool)
      modifies this
      ensures paused == (old(paused) && !succeeds)
      ensures currentTime == if succeeds && old(Ended()) then 0.0 else old(currentTime)
      ensures src == old(src) && duration == old(duration)
    {
      if succeeds {
        if Ended() {
          currentTime := 0.0;
        }
        paused := false;
      }
    }

    /** The metadata of the source arrives: the duration becomes known.
        The element then fires `loadedmetadata`. */
    method ReceiveMetadata(length: real)
      requires 0.0 <= length
      modifies this
      ensures duration == Finite(length)
      ensures src == old(src) && currentTime == old(currentTime) && paused == old(paused)
    {
      duration := Finite(length);
    }

    /** A playing element reaches the end of its media: the position is the
        duration and the element pauses itself. The element then fires
        `ended`. */
    method ReachEnd()
      requires !paused && duration.Finite?
      modifies this
      ensures src == old(src) && duration == old(duration)
      ensures currentTime == duration.value && paused && Ended()
    {
      currentTime := duration.value;
      paused := true;
    }

    /** `audio.pause()`. */
    method Pause()
      modifies this
      ensures paused
      ensures src == old(src) && currentTime == old(currentTime) && duration == old(duration)
    {
      paused := true;
    }
  }

  /** The hook's state: `audioRef.current` (null until the mount effect has
      run), whether the four event listeners are installed, and the React
      state fields. */
  class Player {
    var audio: AudioElement?
    var listening: bool
    var isPlaying: bool
    var currentTrack: Option<Track>
    var currentTime: real
    var duration: Num
    var volume: real

    /** Intended invariant: playing implies a loaded track. Loading tracks
        and the event handlers keep it; `TogglePlay` does not (see
        `ToggleWithoutTrack`). */
    ghost predicate PlayingHasTrack()
      reads this
    {
      isPlaying ==> currentTrack.Some?
    }

    /** The state change `togglePlay` makes, `playSucceeds` being the
        outcome of the `play()` it may call. Without an element or a real
        source it only flips the flag. With one, a playing element is paused
        and the flag cleared; a paused one is asked to play and the flag is
        set only if that succeeds, otherwise nothing changes. */
    twostate predicate Toggled(playSucceeds: bool)
      reads this, audio
    {
      audio == old(audio) && currentTrack == old(currentTrack) &&
      listening == old(listening) && currentTime == old(currentTime) &&
      duration == old(duration) && volume == old(volume) &&
      if audio == null || !HasSource(currentTrack) then
        isPlaying == !old(isPlaying) && (audio != null ==> unchanged(audio))
      else
        audio.src == old(audio.src) && audio.duration == old(audio.duration) &&
        if old(isPlaying) then
          !isPlaying && audio.paused && audio.currentTime == old(audio.currentTime)
        else
          isPlaying == playSucceeds && audio.paused == (old(audio.paused) && !playSucceeds) &&
          audio.currentTime ==
            if playSucceeds && old(audio.Ended()) then 0.0 else old(audio.currentTime)
    }

    /** The hook's initial state: no element yet, nothing loaded, paused,
        position and duration 0, volume 75. */
    constructor ()
      ensures audio == null && !listening
      ensures !isPlaying && currentTrack == None
      ensures currentTime == 0.0 && duration == Finite(0.0) && volume == 75.0
    {
      audio := null;
      listening := false;
      isPlaying := false;
      currentTrack := None;
      currentTime := 0.0;
      duration := Finite(0.0);
      volume := 75.0;
    }

    /** The mount effect: creates the element only if there is none yet
        (an existing one is reused, never replaced) and installs the four
        listeners. */
    method Mount()
      requires !listening
      modifies this
      ensures listening && audio != null
      ensures old(audio) != null ==> audio == old(audio)
      ensures old(audio) == null ==>
        fresh(audio) && audio.src == "" && audio.currentTime == 0.0 &&
        audio.duration == NaN && audio.paused
      ensures isPlaying == old(isPlaying) && currentTrack == old(currentTrack)
      ensures currentTime == old(currentTime) && duration == old(duration) && volume == old(volume)
    {
      if audio == null {
        audio := new AudioElement();
      }
      listening := true;
    }

    /** The mount effect's cleanup: removes the listeners, keeps the element. */
    method Unmount()
      requires listening
      modifies this
      ensures !listening && audio == old(audio)
      ensures isPlaying == old(isPlaying) && currentTrack == old(currentTrack)
      ensures currentTime == old(currentTime) && duration == old(duration) && volume == old(volume)
    {
      listening := false;
    }

    /** `playTrack(track)`, `playSucceeds` being the outcome of `play()`.
        Before the element exists it does nothing. The loaded track's id
        again means `togglePlay`. Otherwise the track becomes current; a
        placeholder starts "playing" without touching the element, while a
        real source is assigned to the element and the flag follows whether
        `play()` succeeded. The position state is not reset here. */
    method PlayTrack(track: Track, playSucceeds: bool)
      modifies this, audio
      ensures old(audio) == null ==> unchanged(this)
      ensures old(audio) != null && SameTrack(old(currentTrack), track) ==> Toggled(playSucceeds)
      ensures old(audio) != null && !SameTrack(old(currentTrack), track) ==>
        audio == old(audio) && currentTrack == Some(track) &&
        listening == old(listening) && currentTime == old(currentTime) &&
        duration == old(duration) && volume == old(volume) &&
        (!HasUrl(track) ==> isPlaying && unchanged(audio)) &&
        (HasUrl(track) ==>
          isPlaying == playSucceeds && audio.src == track.audioUrl.value &&
          audio.currentTime == 0.0 && audio.duration == NaN && audio.paused == !playSucceeds)
      ensures old(audio) != null ==> currentTrack.Some?
      ensures old(PlayingHasTrack()) ==> PlayingHasTrack()
    {
      if audio == null {
        return;
      }
      if SameTrack(currentTrack, track) {
        TogglePlay(playSucceeds);
        return;
      }
      currentTrack := Some(track);
      if HasUrl(track) {
        audio.Load(track.audioUrl.value);
        audio.Play(playSucceeds);
        if playSucceeds {
          isPlaying := true;
        } else {
          isPlaying := false;
        }
      } else {
        isPlaying := true;
      }
    }

    /** `togglePlay()`, `playSucceeds` being the outcome of `play()` if it is called. */
    method TogglePlay(playSucceeds: bool)
      modifies this, audio
      ensures Toggled(playSucceeds)
    {
      if audio == null || !HasSource(currentTrack) {
        isPlaying := !isPlaying;
        return;
      }
      if isPlaying {
        audio.Pause();
        isPlaying := false;
      } else {
        audio.Play(playSucceeds);
        if playSucceeds {
          isPlaying := true;
        }
      }
    }

    /** `seek(time)`: with a real source, moves the element and the position
        state to `time`; otherwise nothing changes. */
    method Seek(time: real)
      modifies this, audio
      ensures audio == old(audio) && listening == old(listening)
      ensures isPlaying == old(isPlaying) && currentTrack == old(currentTrack)
      ensures duration == old(duration) && volume == old(volume)
      ensures old(audio != null && HasSource(currentTrack)) ==>
        currentTime == time && audio.currentTime == time &&
        audio.src == old(audio.src) && audio.duration == old(audio.duration) &&
        audio.paused == old(audio.paused)
      ensures !old(audio != null && HasSource(currentTrack)) ==>
        currentTime == old(currentTime) && (audio != null ==> unchanged(audio))
    {
      if audio != null && HasSource(currentTrack) {
        audio.currentTime := time;
        currentTime := time;
      }
    }

    /** `skipForward()`: with a real source, moves the element 10 seconds
        on but never past the duration state. Only the element moves; the
        position state follows at the next `timeupdate`. */
    method SkipForward()
      modifies audio
      ensures audio != null ==>
        audio.src == old(audio.src) && audio.duration == old(audio.duration) &&
        audio.paused == old(audio.paused)
      ensures audio != null && HasSource(currentTrack) ==>
        audio.currentTime ==
          match SkipForwardTarget(old(audio.currentTime), duration)
          case Some(t) => t
          case None => old(audio.currentTime)
      ensures audio != null && HasSource(currentTrack) && duration.Finite? ==>
        audio.currentTime <= duration.value
      ensures audio != null && !HasSource(currentTrack) ==> unchanged(audio)
    {
      if audio != null && HasSource(currentTrack) {
        var target := SkipForwardTarget(audio.currentTime, duration);
        if target.Some? {
          audio.currentTime := target.value;
        }
      }
    }

    /** `skipBackward()`: with a real source, moves the element 10 seconds
        back but never before 0. */
    method SkipBackward()
      modifies audio
      ensures audio != null ==>
        audio.src == old(audio.src) && audio.duration == old(audio.duration) &&
        audio.paused == old(audio.paused)
      ensures audio != null && HasSource(currentTrack) ==>
        audio.currentTime == SkipBackwardTarget(old(audio.currentTime)) &&
        0.0 <= audio.currentTime
      ensures audio != null && !HasSource(currentTrack) ==> unchanged(audio)
    {
      if audio != null && HasSource(currentTrack) {
        audio.currentTime := SkipBackwardTarget(audio.currentTime);
      }
    }

    /** The raw `setVolume` setter: stores any finite number as given,
        unclamped and not rounded. */
    method SetVolume(v: real)
      modifies this
      ensures volume == v
      ensures audio == old(audio) && listening == old(listening)
      ensures isPlaying == old(isPlaying) && currentTrack == old(currentTrack)
      ensures currentTime == old(currentTime) && duration == old(duration)
    {
      volume := v;
    }

    /** The `timeupdate` listener: copies the element's position into the state. */
    method HandleTimeUpdate()
      requires listening && audio != null
      modifies this
      ensures audio == old(audio) && listening == old(listening)
      ensures currentTime == audio.currentTime
      ensures isPlaying == old(isPlaying) && currentTrack == old(currentTrack)
      ensures duration == old(duration) && volume == old(volume)
    {
      currentTime := audio.currentTime;
    }

    /** The `loadedmetadata` listener: copies the element's duration into the state. */
    method HandleLoadedMetadata()
      requires listening && audio != null
      modifies this
      ensures audio == old(audio) && listening == old(listening)
      ensures duration == audio.duration
      ensures isPlaying == old(isPlaying) && currentTrack == old(currentTrack)
      ensures currentTime == old(currentTime) && volume == old(volume)
    {
      duration := audio.duration;
    }

    /** The `ended` listener: stops and rewinds the position state; the track
        stays loaded and nothing is advanced. */
    method HandleEnded()
      requires listening && audio != null
      modifies this
      ensures !isPlaying && currentTime == 0.0
      ensures audio == old(audio) && listening == old(listening)
      ensures currentTrack == old(currentTrack)
      ensures duration == old(duration) && volume == old(volume)
      ensures PlayingHasTrack()
    {
      isPlaying := false;
      currentTime := 0.0;
    }

    /** The `error` listener: clears the playing flag (the console log is left out). */
    method HandleError()
      requires listening && audio != null
      modifies this
      ensures !isPlaying
      ensures audio == old(audio) && listening == old(listening)
      ensures currentTrack == old(currentTrack)
      ensures currentTime == old(currentTime) && duration == old(duration) && volume == old(volume)
      ensures PlayingHasTrack()
    {
      isPlaying := false;
    }
  }

  /** Loading a track with a real source and then loading the same id again:
      the second call toggles. If the first `play()` succeeded the track ends
      up paused; otherwise the second call tries `play()` once more. The
      track stays loaded either way. */
  method ReplaySameTrack(track: Track, again: Track, firstPlay: bool, secondPlay: bool)
    returns (p: Player)
    requires HasUrl(track) && again.id == track.id
    ensures p.currentTrack == Some(track)
    ensures p.isPlaying == (!firstPlay && secondPlay)
    ensures p.audio != null && p.audio.src == track.audioUrl.value
    ensures p.audio != null && p.audio.paused == !p.isPlaying
  {
    p := new Player();
    p.Mount();
    p.PlayTrack(track, firstPlay);
    assert p.isPlaying == firstPlay;
    p.PlayTrack(again, secondPlay);
  }

  /** A placeholder starts "playing" at once and leaves a fresh element
      untouched. */
  method PlayPlaceholder(station: Track) returns (p: Player)
    requires !HasUrl(station)
    ensures p.isPlaying && p.currentTrack == Some(station)
    ensures p.audio != null && p.audio.src == "" && p.audio.paused
  {
    p := new Player();
    p.Mount();
    p.PlayTrack(station, false);
  }

  /** `togglePlay` with nothing loaded sets the playing flag while no track
      is loaded, so `PlayingHasTrack` does not hold afterwards. */
  method ToggleWithoutTrack() returns (p: Player)
    ensures p.isPlaying && p.currentTrack == None
    ensures !p.PlayingHasTrack()
  {
    p := new Player();
    p.Mount();
    p.TogglePlay(false);
  }

  /** A placeholder loaded while a real track plays leaves the element
      playing the old source, and toggling it afterwards only clears the
      flag: the element keeps playing. */
  method PlaceholderAfterRealTrack(song: Track, placeholder: Track) returns (p: Player)
    requires HasUrl(song) && !HasUrl(placeholder) && song.id != placeholder.id
    ensures p.currentTrack == Some(placeholder) && !p.isPlaying
    ensures p.audio != null && p.audio.src == song.audioUrl.value && !p.audio.paused
  {
    p := new Player();
    p.Mount();
    p.PlayTrack(song, true);
    p.PlayTrack(placeholder, true);
    assert p.isPlaying;
    p.TogglePlay(true);
  }

  /** A track plays to its end: its metadata arrives, the listener copies
      the duration, a seek moves both positions, the element reaches the end
      and pauses itself, and the `ended` listener clears the flag and rewinds
      the position state. The same track stays loaded, while the element
      waits paused at the end. */
  method PlayUntilEnded(track: Track, length: real, position: real) returns (p: Player)
    requires HasUrl(track) && 0.0 <= length
    ensures p.currentTrack == Some(track) && !p.isPlaying && p.currentTime == 0.0
    ensures p.duration == Finite(length)
    ensures p.audio != null && p.audio.paused && p.audio.currentTime == length
  {
    p := new Player();
    p.Mount();
    p.PlayTrack(track, true);
    var audio := p.audio;
    audio.ReceiveMetadata(length);
    p.HandleLoadedMetadata();
    p.Seek(position);
    assert p.currentTime == position;
    audio.ReachEnd();
    p.HandleEnded();
  }

  /** Playing again after the end: the toggle finds the flag cleared, calls
      `play()`, and the element starts over from the beginning, in step with
      the rewound position state. */
  method PlayAgainAfterEnd(track: Track, length: real) returns (p: Player)
    requires HasUrl(track) && 0.0 <= length
    ensures p.currentTrack == Some(track) && p.isPlaying
    ensures p.audio != null && !p.audio.paused
    ensures p.audio.currentTime == 0.0 && p.currentTime == 0.0
  {
    p := new Player();
    p.Mount();
    p.PlayTrack(track, true);
    var audio := p.audio;
    audio.ReceiveMetadata(length);
    p.HandleLoadedMetadata();
    audio.ReachEnd();
    p.HandleEnded();
    p.TogglePlay(true);
  }
}
