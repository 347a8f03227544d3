/** The lesson video player (src/components/course/VideoPlayer.tsx): its
    React state, the `<video>` element behind `videoRef`, the handlers of
    its controls and of the element's events, and the time display. */
module VideoPlayer {
  import opened Seqs
  import opened Text

  /** The fields of the `<video>` element the player reads and writes. */
  datatype Media = Media(currentTime: real, duration: real, volume: real, paused: bool)

  /** The player's React state together with the element behind `videoRef`,
      which is `None` before the element is attached. */
  datatype Player = Player(video: Option<Media>, isPlaying: bool, currentTime: real,
                           duration: real, volume: real, isMuted: bool)

  /** The element's volume is the stored volume, or 0 while muted. */
  ghost predicate VolumeSynced(s: Player) {
    s.video.Some? ==> s.video.value.volume == (if s.isMuted then 0.0 else s.volume)
  }

  /** The element plays exactly when the player says it does. */
  ghost predicate PlaySynced(s: Player) {
    s.video.Some? ==> s.video.value.paused == !s.isPlaying
  }

  ghost predicate Synced(s: Player) {
    VolumeSynced(s) && PlaySynced(s)
  }

  /** The state of a freshly mounted player: paused, at 0, full volume. */
  function Initial(video: Option<Media>): (r: Player)
    ensures !r.isPlaying && r.currentTime == 0.0 && r.duration == 0.0
    ensures r.volume == 1.0 && !r.isMuted && r.video == video
    ensures (video.Some? ==> video.value.volume == 1.0 && video.value.paused) ==> Synced(r)
  {
    Player(video, false, 0.0, 0.0, 1.0, false)
  }

  /** `togglePlay()`: pauses a playing element, starts a paused one, and
      flips `isPlaying`. */
  function TogglePlayed(s: Player): (r: Player)
    ensures s.video.None? ==> r == s
    ensures s.video.Some? ==> r.isPlaying == !s.isPlaying
    ensures s.video.Some? ==> r.video == Some(s.video.value.(paused := s.isPlaying))
    ensures r.(video := s.video, isPlaying := s.isPlaying) == s
  {
    match s.video
    case None => s
    case Some(m) => s.(video := Some(m.(paused := s.isPlaying)), isPlaying := !s.isPlaying)
  }

  /** `handleSeek` with the slider at `percent`: element and state jump to
      that share of the known duration. */
  function Seeked(s: Player, percent: real): (r: Player)
    ensures s.video.None? ==> r == s
    ensures s.video.Some? ==> r.currentTime == percent / 100.0 * s.duration
    ensures s.video.Some? ==> r.video == Some(s.video.value.(currentTime := r.currentTime))
    ensures r.(video := s.video, currentTime := s.currentTime) == s
  {
    match s.video
    case None => s
    case Some(m) =>
      var newTime := percent / 100.0 * s.duration;
      s.(video := Some(m.(currentTime := newTime)), currentTime := newTime)
  }

  /** The seek slider's value: `duration ? (currentTime / duration) * 100 : 0`. */
  function SeekSlider(s: Player): (r: real)
    ensures s.duration == 0.0 ==> r == 0.0
    ensures s.duration != 0.0 ==> r * s.duration == 100.0 * s.currentTime
  {
    if s.duration != 0.0 then s.currentTime / s.duration * 100.0 else 0.0
  }

  /** A seek inside the slider's range lands inside the video, and the slider
      then shows the position it was moved to. */
  lemma SeekRoundTrip(s: Player, percent: real)
    requires s.video.Some?
    ensures 0.0 <= percent <= 100.0 && s.duration >= 0.0 ==>
              0.0 <= Seeked(s, percent).currentTime <= s.duration
    ensures s.duration != 0.0 ==> SeekSlider(Seeked(s, percent)) == percent
  {
    var f := percent / 100.0;
    if 0.0 <= percent <= 100.0 && s.duration >= 0.0 {
      assert 0.0 <= f <= 1.0;
      assert f * s.duration <= 1.0 * s.duration;
    }
    if s.duration != 0.0 {
      assert f * s.duration / s.duration == f;
    }
  }

  /** `handleVolumeChange` with the slider at `percent`: element and state
      take `percent / 100`, muted exactly when that is 0. */
  function VolumeChanged(s: Player, percent: real): (r: Player)
    ensures s.video.None? ==> r == s
    ensures s.video.Some? ==> r.volume == percent / 100.0 && (r.isMuted <==> percent == 0.0)
    ensures s.video.Some? ==> r.video == Some(s.video.value.(volume := percent / 100.0))
    ensures r.(video := s.video, volume := s.volume, isMuted := s.isMuted) == s
  {
    match s.video
    case None => s
    case Some(m) =>
      var newVolume := percent / 100.0;
      s.(video := Some(m.(volume := newVolume)), volume := newVolume, isMuted := newVolume == 0.0)
  }

  /** The volume slider's value: `isMuted ? 0 : volume * 100`. */
  function VolumeSlider(s: Player): (r: real)
    ensures s.isMuted ==> r == 0.0
    ensures VolumeSynced(s) && s.video.Some? ==> r == 100.0 * s.video.value.volume
  {
    if s.isMuted then 0.0 else s.volume * 100.0
  }

  /** After a move of the volume slider it shows the position it was moved to. */
  lemma VolumeRoundTrip(s: Player, percent: real)
    requires s.video.Some?
    ensures VolumeSlider(VolumeChanged(s, percent)) == percent
  {
  }

  /** `toggleMute()`: muting silences the element, unmuting gives it back the
      stored volume; the stored volume itself never changes. */
  function MuteToggled(s: Player): (r: Player)
    ensures s.video.None? ==> r == s
    ensures s.video.Some? && s.isMuted ==> !r.isMuted && r.video == Some(s.video.value.(volume := s.volume))
    ensures s.video.Some? && !s.isMuted ==> r.isMuted && r.video == Some(s.video.value.(volume := 0.0))
    ensures r.(video := s.video, isMuted := s.isMuted) == s
  {
    match s.video
    case None => s
    case Some(m) =>
      if s.isMuted then s.(video := Some(m.(volume := s.volume)), isMuted := false)
      else s.(video := Some(m.(volume := 0.0)), isMuted := true)
  }

  /** Muting and unmuting again restores the whole player, the element's
      volume included. */
  lemma MuteTwiceRestores(s: Player)
    requires VolumeSynced(s)
    ensures MuteToggled(MuteToggled(s)) == s
  {
  }

  /** `Math.max(0, Math.min(duration, current + seconds))`. */
  function SkipTarget(current: real, duration: real, seconds: real): (r: real)
    ensures 0.0 <= r
    ensures duration >= 0.0 ==> r <= duration
    ensures 0.0 <= current + seconds <= duration ==> r == current + seconds
    ensures current + seconds < 0.0 ==> r == 0.0
    ensures 0.0 <= duration < current + seconds ==> r == duration
  {
    var capped := if duration < current + seconds then duration else current + seconds;
    if capped > 0.0 then capped else 0.0
  }

  /** `skip(seconds)`: moves the element only; the React `currentTime` follows
      at the element's next `timeupdate`. */
  function Skipped(s: Player, seconds: real): (r: Player)
    ensures s.video.None? ==> r == s
    ensures s.video.Some? ==>
              r.video == Some(s.video.value.(currentTime := SkipTarget(s.video.value.currentTime, s.duration, seconds)))
    ensures r.(video := s.video) == s
  {
    match s.video
    case None => s
    case Some(m) => s.(video := Some(m.(currentTime := SkipTarget(m.currentTime, s.duration, seconds))))
  }

  /** The `timeupdate` listener: the state takes the element's position. */
  function TimeUpdated(s: Player): (r: Player)
    ensures s.video.None? ==> r == s
    ensures s.video.Some? ==> r.currentTime == s.video.value.currentTime
    ensures r.(currentTime := s.currentTime) == s
  {
    match s.video
    case None => s
    case Some(m) => s.(currentTime := m.currentTime)
  }

  /** The figure the `timeupdate` listener hands to `onProgress`:
      `(currentTime / duration) * 100`, or `None` where that is not a finite
      number because the element reports no duration. */
  function ReportedProgress(m: Media): (r: Option<real>)
    ensures r.Some? <==> m.duration != 0.0
    ensures r.Some? ==> r.value * m.duration == 100.0 * m.currentTime
  {
    if m.duration != 0.0 then Some(m.currentTime / m.duration * 100.0) else None
  }

  /** A position inside the video is reported as a percentage from 0 to 100. */
  lemma ReportedProgressInRange(m: Media)
    requires 0.0 <= m.currentTime <= m.duration && m.duration > 0.0
    ensures 0.0 <= ReportedProgress(m).value <= 100.0
  {
    var q := m.currentTime / m.duration;
    assert q * m.duration == m.currentTime;
    assert (1.0 - q) * m.duration == m.duration - m.currentTime;
    assert 0.0 <= q <= 1.0;
    assert ReportedProgress(m).value == q * 100.0;
  }

  /** The `loadedmetadata` listener: the state learns the element's duration. */
  function MetadataLoaded(s: Player): (r: Player)
    ensures s.video.None? ==> r == s
    ensures s.video.Some? ==> r.duration == s.video.value.duration
    ensures r.(duration := s.duration) == s
  {
    match s.video
    case None => s
    case Some(m) => s.(duration := m.duration)
  }

  /** The `ended` event: the element has paused at its end and the listener
      clears `isPlaying`. */
  function Ended(s: Player): (r: Player)
    ensures s.video.None? ==> r == s
    ensures s.video.Some? ==> !r.isPlaying && r.video == Some(s.video.value.(paused := true))
    ensures r.(video := s.video, isPlaying := s.isPlaying) == s
  {
    match s.video
    case None => s
    case Some(m) => s.(video := Some(m.(paused := true)), isPlaying := false)
  }

  /** Every control and every event keeps the element in step with the state. */
  lemma EveryStepKeepsSynced(s: Player, percent: real, seconds: real)
    requires Synced(s)
    ensures Synced(TogglePlayed(s)) && Synced(Seeked(s, percent)) && Synced(VolumeChanged(s, percent))
    ensures Synced(MuteToggled(s)) && Synced(Skipped(s, seconds)) && Synced(TimeUpdated(s))
    ensures Synced(MetadataLoaded(s)) && Synced(Ended(s))
  {
  }

  /** JavaScript's `x % 60`: the remainder takes the sign of `x`. */
  function Rem60(x: real): (r: real)
    ensures x >= 0.0 ==> 0.0 <= r < 60.0
    ensures x < 0.0 ==> -60.0 < r <= 0.0
    ensures (x - r) / 60.0 == ((x - r) / 60.0).Floor as real
  {
    var q := x / 60.0;
    var truncated := if q >= 0.0 then q.Floor else -((-q).Floor);
    TruncatedQuotient(x, truncated);
    x - 60.0 * truncated as real
  }

  /** The quotient `x / 60` rounded toward zero leaves a remainder of the sign of `x`. */
  lemma TruncatedQuotient(x: real, t: int)
    requires t == if x / 60.0 >= 0.0 then (x / 60.0).Floor else -((-(x / 60.0)).Floor)
    ensures x >= 0.0 ==> 0.0 <= x - 60.0 * t as real < 60.0
    ensures x < 0.0 ==> -60.0 < x - 60.0 * t as real <= 0.0
    ensures (60.0 * t as real) / 60.0 == t as real
  {
    var q := x / 60.0;
    assert x == 60.0 * q;
    if q >= 0.0 {
      assert t as real <= q < t as real + 1.0;
    } else {
      assert t as real - 1.0 < q <= t as real;
    }
  }

  /** The template literal of `formatTime`: the minutes, a colon, and the
      seconds padded to two characters. */
  function Clock(minutes: int, seconds: int): string {
    IntToString(minutes) + ":" + PadStart2(IntToString(seconds))
  }

  /** `formatTime(time)` shows the floored minutes and the floored remainder of
      seconds. For a time of at least 0 that is the decimal minutes, a colon,
      and two digits of seconds below 60, and it reads back as the whole
      seconds of the time. */
  function FormatTime(time: real): (r: string)
    ensures time >= 0.0 ==> |r| >= 4 && r == NatToString((time / 60.0).Floor) + ":" + r[|r| - 2..]
    ensures time >= 0.0 ==> |r| >= 4 && AllDigits(r[|r| - 2..]) && ParseNat(r[|r| - 2..]) < 60
    ensures time >= 0.0 ==> ClockSeconds(r) == Some(time.Floor)
  {
    var minutes := (time / 60.0).Floor;
    var seconds := Rem60(time).Floor;
    if time >= 0.0 then
      SplitMinutes(time);
      ClockRoundTrip(minutes, seconds);
      Clock(minutes, seconds)
    else
      Clock(minutes, seconds)
  }

  /** Reads an `M:SS` clock back as a number of whole seconds: decimal
      minutes, a colon and two digits. */
  function ClockSeconds(s: string): Option<int> {
    if |s| >= 4 && s[|s| - 3] == ':' && AllDigits(s[..|s| - 3]) && AllDigits(s[|s| - 2..])
    then Some(60 * ParseNat(s[..|s| - 3]) + ParseNat(s[|s| - 2..]))
    else None
  }

  lemma FloorUnique(x: real, n: int)
    requires n as real <= x < n as real + 1.0
    ensures x.Floor == n
  {
  }

  /** The minutes and the remainder split the whole seconds of a time of
      at least 0. */
  lemma SplitMinutes(time: real)
    requires time >= 0.0
    ensures (time / 60.0).Floor >= 0
    ensures Rem60(time).Floor == time.Floor - 60 * (time / 60.0).Floor
    ensures 0 <= Rem60(time).Floor < 60
  {
    var m := (time / 60.0).Floor;
    assert 60.0 * m as real <= time < 60.0 * m as real + 60.0;
    assert Rem60(time) == time - 60.0 * m as real;
    FloorUnique(time - 60.0 * m as real, time.Floor - 60 * m);
  }

  /** Seconds below 60 are shown as exactly two digits that read back as them. */
  lemma PaddedSeconds(sec: nat)
    requires sec < 60
    ensures var p := PadStart2(NatToString(sec));
      |p| == 2 && AllDigits(p) && ParseNat(p) == sec
  {
    ParseNatToString(sec);
    var p := PadStart2(NatToString(sec));
    if sec >= 10 {
      assert |NatToString(sec / 10)| == 1;
    } else {
      assert p[..1] == "0";
    }
  }

  /** An `M:SS` clock reads back as `60 * M + SS`. */
  lemma ClockOf(m: nat, secs: string)
    requires |secs| == 2 && AllDigits(secs)
    ensures ClockSeconds(NatToString(m) + ":" + secs) == Some(60 * m + ParseNat(secs))
  {
    var mins := NatToString(m);
    var s := mins + ":" + secs;
    assert s[|s| - 3] == ':';
    assert s[..|s| - 3] == mins;
    assert s[|s| - 2..] == secs;
    ParseNatToString(m);
  }

  lemma ClockOfNaturals(minutes: nat, seconds: nat)
    ensures Clock(minutes, seconds) == NatToString(minutes) + ":" + PadStart2(NatToString(seconds))
  {
  }

  /** A clock of whole minutes and seconds below 60 is the decimal minutes, a
      colon and two digits, and it reads back as `60 * minutes + seconds`. */
  lemma ClockRoundTrip(minutes: nat, seconds: nat)
    requires seconds < 60
    ensures var s := Clock(minutes, seconds); |s| >= 4 && s == NatToString(minutes) + ":" + s[|s| - 2..]
    ensures var s := Clock(minutes, seconds);
      |s| >= 4 && AllDigits(s[|s| - 2..]) && ParseNat(s[|s| - 2..]) == seconds
    ensures ClockSeconds(Clock(minutes, seconds)) == Some(60 * minutes + seconds)
  {
    PaddedSeconds(seconds);
    var padded := PadStart2(NatToString(seconds));
    ClockOf(minutes, padded);
    ClockOfNaturals(minutes, seconds);
  }

  /** The mounted player: its React state and the element `videoRef` points at. */
  class PlayerState {
    var video: Option<Media>
    var isPlaying: bool
    var currentTime: real
    var duration: real
    var volume: real
    var isMuted: bool

    function State(): Player
      reads this
    {
      Player(video, isPlaying, currentTime, duration, volume, isMuted)
    }

    constructor (video: Option<Media>)
      ensures State() == Initial(video)
    {
      this.video := video;
      isPlaying, currentTime, duration, volume, isMuted := false, 0.0, 0.0, 1.0, false;
    }

    method TogglePlay()
      modifies this
      ensures State() == TogglePlayed(old(State()))
    {
      if video.None? {
        return;
      }
      if isPlaying {
        video := Some(video.value.(paused := true));
      } else {
        video := Some(video.value.(paused := false));
      }
      isPlaying := !isPlaying;
    }

    method HandleSeek(percent: real)
      modifies this
      ensures State() == Seeked(old(State()), percent)
    {
      if video.None? {
        return;
      }
      ghost var before := State();
      var newTime := percent / 100.0 * duration;
      video := Some(video.value.(currentTime := newTime));
      currentTime := newTime;
      assert before.duration == duration;
      assert newTime == percent / 100.0 * before.duration;
      assert Seeked(before, percent).currentTime == newTime;
      assert Seeked(before, percent).video == video;
    }

    /** The slider runs from 0 to 100, and the element accepts volumes from 0 to 1. */
    method HandleVolumeChange(percent: real)
      requires 0.0 <= percent <= 100.0
      modifies this
      ensures State() == VolumeChanged(old(State()), percent)
    {
      if video.None? {
        return;
      }
      var newVolume := percent / 100.0;
      video := Some(video.value.(volume := newVolume));
      volume := newVolume;
      isMuted := newVolume == 0.0;
    }

    method ToggleMute()
      modifies this
      ensures State() == MuteToggled(old(State()))
    {
      if video.None? {
        return;
      }
      if isMuted {
        video := Some(video.value.(volume := volume));
        isMuted := false;
      } else {
        video := Some(video.value.(volume := 0.0));
        isMuted := true;
      }
    }

    method Skip(seconds: real)
      modifies this
      ensures State() == Skipped(old(State()), seconds)
    {
      if video.None? {
        return;
      }
      var target := SkipTarget(video.value.currentTime, duration, seconds);
      video := Some(video.value.(currentTime := target));
    }

    /** The `timeupdate` listener; `progress` is what it hands to `onProgress`. */
    method HandleTimeUpdate() returns (progress: Option<real>)
      modifies this
      ensures State() == TimeUpdated(old(State()))
      ensures progress == if video.Some? then ReportedProgress(video.value) else None
    {
      if video.None? {
        return None;
      }
      currentTime := video.value.currentTime;
      progress := ReportedProgress(video.value);
    }

    method HandleLoadedMetadata()
      modifies this
      ensures State() == MetadataLoaded(old(State()))
    {
      if video.Some? {
        duration := video.value.duration;
      }
    }

    /** The `ended` listener; `completed` says whether `onComplete` would be
        called if the player was given one. */
    method HandleEnded() returns (completed: bool)
      modifies this
      ensures State() == Ended(old(State()))
      ensures completed <==> video.Some?
    {
      if video.None? {
        return false;
      }
      video := Some(video.value.(paused := true));
      isPlaying := false;
      completed := true;
    }
  }
}
