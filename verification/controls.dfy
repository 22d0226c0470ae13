/** The player's control bar (`Controls`): the time display formatter and the
    handlers that apply play/pause, mute, volume, seek and fullscreen intents
    to the video element and to the React state the bar renders from. */
module Controls {
  import opened JsText
  import opened VisualHelper
  import opened VolumeControls

  // ---------------------------------------------------------------------------
  // Time display

  datatype Clock = Clock(hrs: nat, min: nat, sec: nat)

  /** The hours, minutes and seconds `formatTime` derives from a whole number
      of seconds: minutes and seconds by floor division by 60, and hours only
      once the minutes exceed 59. */
  function SplitTime(t: nat): (c: Clock)
    ensures c.sec < 60 && c.min < 60
    ensures c.hrs > 0 <==> t >= 3600
  {
    var min := t / 60;
    var sec := t % 60;
    if min > 59 then Clock(min / 60, min % 60, sec) else Clock(0, min, sec)
  }

  /** The three fields add back up to the time they were split from. */
  lemma SplitTimeSums(t: nat)
    ensures var c := SplitTime(t); c.hrs * 3600 + c.min * 60 + c.sec == t
  {
  }

  /** `n.toString().padStart(2, "0")`: below 100, exactly two digits that
      read back as `n`. */
  function TwoDigits(n: nat): (r: string)
    ensures n < 100 ==> |r| == 2 && AllDigits(r) && DigitsValue(r) == n
  {
    var s := NatToString(n);
    var r := PadStart(s, 2, '0');
    assert |s| == 1 ==> r == ['0'] + s && r[..1] == ['0'] && r[..1][..0] == [] && s[..0] == [];
    r
  }

  /** The hours part of the display: the hour count and a colon, or nothing. */
  function HoursPrefix(hrs: nat): (p: string)
    ensures p == [] <==> hrs == 0
  {
    if hrs > 0 then NatToString(hrs) + ":" else ""
  }

  /** The display joined from its parts: "[H:]MM:SS". */
  function Assemble(head: string, mm: string, ss: string): (s: string)
    ensures |s| == |head| + |mm| + 1 + |ss|
  {
    head + (mm + ":" + ss)
  }

  /** `formatTime`: "[H:]MM:SS", hours only when there are any. */
  function FormatTime(t: nat): (s: string)
    ensures |s| >= 5
    ensures |s| > 5 <==> t >= 3600
  {
    var c := SplitTime(t);
    Assemble(HoursPrefix(c.hrs), TwoDigits(c.min), TwoDigits(c.sec))
  }

  /** Reads an hours prefix back: nothing means zero hours, otherwise an
      hour count without leading zeros followed by a colon. */
  function ParseHours(head: string): (r: Option<nat>)
    ensures r.Some? && head != [] ==> r.value > 0
  {
    if head == [] then Some(0)
    else
      var hh := head[..|head| - 1];
      if head[|head| - 1] == ':' && hh != [] && AllDigits(hh) && hh[0] != '0' then
        DigitsLeadingNonZero(hh);
        Some(DigitsValue(hh))
      else None
  }

  /** A digit string that does not start with '0' denotes a positive number. */
  lemma {:induction false} DigitsLeadingNonZero(s: string)
    requires s != [] && AllDigits(s) && s[0] != '0'
    ensures DigitsValue(s) > 0
  {
    if |s| > 1 {
      assert s[..|s| - 1][0] == s[0];
      DigitsLeadingNonZero(s[..|s| - 1]);
    }
  }

  /** Reads a display string back into seconds: two-digit minutes and seconds
      below 60 behind an hours prefix. Anything else is rejected. */
  function ParseTime(s: string): (r: Option<nat>)
  {
    if |s| < 5 || s[|s| - 3] != ':' then None
    else
      var mm, ss := s[|s| - 5..|s| - 3], s[|s| - 2..];
      if !(AllDigits(mm) && AllDigits(ss)) || DigitsValue(mm) >= 60 || DigitsValue(ss) >= 60 then None
      else
        match ParseHours(s[..|s| - 5])
        case None => None
        case Some(h) => Some(h * 3600 + DigitsValue(mm) * 60 + DigitsValue(ss))
  }

  lemma HoursRoundTrip(hrs: nat)
    ensures ParseHours(HoursPrefix(hrs)) == Some(hrs)
  {
  }

  /** Where the parts of "[H:]MM:SS" sit in the assembled string. */
  lemma AssembleLayout(head: string, mm: string, ss: string)
    requires |mm| == 2 && |ss| == 2
    ensures var s := Assemble(head, mm, ss);
            && s[..|s| - 5] == head && s[|s| - 5..|s| - 3] == mm
            && s[|s| - 3] == ':' && s[|s| - 2..] == ss
  {
  }

  /** Decoding a string assembled from a readable hours prefix and two
      in-range two-digit fields adds the fields up. */
  lemma ParseAssembled(head: string, mm: string, ss: string, h: nat, m: nat, sec: nat)
    requires |mm| == 2 && |ss| == 2 && AllDigits(mm) && AllDigits(ss)
    requires DigitsValue(mm) == m < 60 && DigitsValue(ss) == sec < 60 && ParseHours(head) == Some(h)
    ensures ParseTime(Assemble(head, mm, ss)) == Some(h * 3600 + m * 60 + sec)
  {
    AssembleLayout(head, mm, ss);
  }

  /** Any in-range split fields read back from their display. */
  lemma ClockRoundTrip(c: Clock)
    requires c.min < 60 && c.sec < 60
    ensures ParseTime(Assemble(HoursPrefix(c.hrs), TwoDigits(c.min), TwoDigits(c.sec)))
         == Some(c.hrs * 3600 + c.min * 60 + c.sec)
  {
    HoursRoundTrip(c.hrs);
    ParseAssembled(HoursPrefix(c.hrs), TwoDigits(c.min), TwoDigits(c.sec), c.hrs, c.min, c.sec);
  }

  /** The display string determines the time: decoding it gives back `t`. */
  lemma FormatTimeRoundTrip(t: nat)
    ensures ParseTime(FormatTime(t)) == Some(t)
  {
    ClockRoundTrip(SplitTime(t));
    SplitTimeSums(t);
  }

  // ---------------------------------------------------------------------------
  // Pure decisions inside the handlers

  /** The feedback `updateVolume` shows: "volume-high" when the new percent is
      above the element's volume before the change, else "mute" for zero,
      else "volume-low". */
  function VolumeFeedback(vol: int, elementVolume: real): (e: HelperEvent)
    ensures e == VolumeHigh || e == Mute || e == VolumeLow
    ensures e == VolumeHigh <==> vol as real > elementVolume * 100.0
    ensures e == Mute <==> vol == 0 && vol as real <= elementVolume * 100.0
    ensures 0.0 <= elementVolume && vol == 0 ==> e == Mute
    ensures 0 < vol && vol as real <= elementVolume * 100.0 ==> e == VolumeLow
  {
    if vol as real > elementVolume * 100.0 then VolumeHigh
    else if vol == 0 then Mute
    else VolumeLow
  }

  /** ArrowUp: five points louder, capped at 100. */
  function VolumeUp(v: int): (r: int)
    ensures r <= 100
    ensures r == v + 5 || (r == 100 && v + 5 >= 100)
    ensures 0 <= v <= 100 ==> v <= r
  {
    if v < 95 then v + 5 else 100
  }

  /** ArrowDown: five points quieter, floored at 0. */
  function VolumeDown(v: int): (r: int)
    ensures r >= 0
    ensures r == v - 5 || (r == 0 && v - 5 <= 0)
    ensures 0 <= v <= 100 ==> r <= v
  {
    if v > 5 then v - 5 else 0
  }

  /** Where the bounds "0" and "9" put a key name: after "0" it starts with
      a digit or more; up to "9" it starts below '9' or is "9" itself. */
  lemma DigitBounds(key: string)
    ensures LexLessEq("0", key) && LexLessEq(key, "9") ==> |key| > 0 && IsDigit(key[0])
    ensures |key| == 1 ==> (LexLessEq("0", key) && LexLessEq(key, "9") <==> IsDigit(key[0]))
  {
    var zero, nine := "0", "9";
    assert zero[0] == '0' && zero[1..] == [] && nine[0] == '9' && nine[1..] == [];
    if |key| > 0 && key[0] == '0' {
      assert LexLessEq(zero, key) == LexLessEq(zero[1..], key[1..]);
    }
    if |key| > 0 && key[0] == '9' {
      assert LexLessEq(key, nine) == LexLessEq(key[1..], nine[1..]);
    }
  }

  /** JavaScript's `key >= "0" && key <= "9"` on the key name: a key in this
      range starts with a digit, and among one-character keys the range is
      exactly the ten digits. */
  function InDigitRange(key: string): (r: bool)
    ensures r ==> |key| > 0 && IsDigit(key[0])
    ensures |key| == 1 ==> (r <==> IsDigit(key[0]))
  {
    DigitBounds(key);
    LexLessEq("0", key) && LexLessEq(key, "9")
  }

  lemma SingleDigitValue(key: string)
    ensures |key| == 1 && IsDigit(key[0]) ==> ParseInt(key) == Some(DigitValue(key[0]))
  {
    if |key| == 1 && IsDigit(key[0]) {
      DigitPrefixStops(key, "");
      assert key + "" == key;
      assert key[..0] == [];
      assert DigitsValue(key) == DigitsValue(key[..0]) * 10 + DigitValue(key[0]);
    }
  }

  /** What a keypress asks for, in the order the keypress listener tests the key. */
  datatype PressAction =
    | ToggleFullscreen
    | PlayPause
    | SeekBy(delta: real)
    | MuteUnmute
    | EscapeKey
    | SeekToTenths(tenths: nat)
    | Suppressed
    | Unbound

  function PressActionOf(key: string, alt: bool, ctrl: bool, meta: bool): (a: PressAction)
    ensures a == Suppressed <==> InDigitRange(key) && (alt || ctrl || meta)
    ensures a.SeekToTenths? <==> InDigitRange(key) && !(alt || ctrl || meta)
    ensures a.SeekToTenths? ==> ParseInt(key) == Some(a.tenths)
    ensures |key| == 1 && IsDigit(key[0]) && !(alt || ctrl || meta) ==> a == SeekToTenths(DigitValue(key[0]))
    ensures a == ToggleFullscreen <==> key == "f"
    ensures a == PlayPause <==> key == " " || key == "k"
    ensures a == MuteUnmute <==> key == "m"
    ensures a == EscapeKey <==> key == "Escape"
    ensures a.SeekBy? <==> key == "l" || key == "j"
    ensures a.SeekBy? ==> a.delta == if key == "l" then 10.0 else -11.0
  {
    SingleDigitValue(key);
    if key == "f" then ToggleFullscreen
    else if key == " " || key == "k" then PlayPause
    else if key == "l" then SeekBy(10.0)
    else if key == "j" then SeekBy(-11.0)
    else if key == "m" then MuteUnmute
    else if key == "Escape" then EscapeKey
    else if InDigitRange(key) then
      if alt || ctrl || meta then Suppressed else SeekToTenths(ParseInt(key).value)
    else Unbound
  }

  // ---------------------------------------------------------------------------
  // The control bar's state and handlers

  /** The fields of the video element the handlers touch, the fullscreen
      container, the props the parent passes in (and lets the bar set through
      `setIsPaused` and `setVolume`), the bar's own state cells, and the calls
      it has made to the parent's `showVisualHelper` and `showControlsFor`. */
  class Player {
    var hasVideo: bool           // `videoRef.current` is not null
    var paused: bool
    var muted: bool
    var volume: real             // the element's volume, in [0, 1]
    var currentTime: real
    var hasContainer: bool       // `contRef.current` is not null
    var fullscreen: bool         // `document.fullscreenElement` is set
    var isPaused: bool
    var volumePercent: int
    var isFullScreen: bool
    var videoDuration: real
    var currVideoTime: real
    var loadedDuration: real
    var isMute: bool
    var helperEvents: seq<HelperEvent>
    var shownFor: seq<int>

    /** The element's volume and the volume prop stay in range, and the mute
        icon state mirrors the element's muted flag. */
    ghost predicate Valid()
      reads this`volume, this`volumePercent, this`hasVideo, this`isMute, this`muted
    {
      0.0 <= volume <= 1.0 && 0 <= volumePercent <= 100 && (hasVideo ==> isMute == muted)
    }

    /** First render followed by the mount effect: the duration is read from
        the element, and a muted element shows as muted. */
    constructor (hasVideo: bool, paused: bool, muted: bool, volume: real, currentTime: real, duration: real,
                 hasContainer: bool, fullscreen: bool, isPaused: bool, volumePercent: int, isFullScreen: bool)
      requires 0.0 <= volume <= 1.0 && 0 <= volumePercent <= 100
      ensures Valid()
      ensures this.hasVideo == hasVideo && this.paused == paused && this.muted == muted
      ensures this.volume == volume && this.currentTime == currentTime
      ensures this.hasContainer == hasContainer && this.fullscreen == fullscreen
      ensures this.isPaused == isPaused && this.volumePercent == volumePercent && this.isFullScreen == isFullScreen
      ensures videoDuration == (if hasVideo then duration else 0.0)
      ensures isMute == (hasVideo && muted)
      ensures currVideoTime == 0.0 && loadedDuration == 0.0
      ensures helperEvents == [] && shownFor == []
    {
      this.hasVideo, this.paused, this.muted, this.volume, this.currentTime := hasVideo, paused, muted, volume, currentTime;
      this.hasContainer, this.fullscreen := hasContainer, fullscreen;
      this.isPaused, this.volumePercent, this.isFullScreen := isPaused, volumePercent, isFullScreen;
      videoDuration, currVideoTime, loadedDuration, isMute := 0.0, 0.0, 0.0, false;
      helperEvents, shownFor := [], [];
      new;
      if hasVideo {
        videoDuration := duration;
        if muted {
          isMute := true;
        }
      }
    }

    /** `togglePlayPause`: a paused element is played with "play" feedback,
        a playing one paused with "pause" feedback; no element, no effect. */
    method TogglePlayPause()
      modifies this`paused, this`isPaused, this`helperEvents
      ensures hasVideo ==> paused == !old(paused) && isPaused == paused
      ensures hasVideo ==> helperEvents == old(helperEvents) + [if old(paused) then Play else Pause]
      ensures !hasVideo ==> paused == old(paused) && isPaused == old(isPaused) && helperEvents == old(helperEvents)
    {
      if hasVideo {
        if paused {
          helperEvents := helperEvents + [Play];
          isPaused := false;
          paused := false;
        } else {
          helperEvents := helperEvents + [Pause];
          isPaused := true;
          paused := true;
        }
      }
    }

    /** `toggleMuteUnmute`: flips the element's muted flag and the mute state
        together; un-muting restores the element's volume from the volume
        prop with "volume" feedback, muting keeps it with "mute" feedback. */
    method ToggleMuteUnmute()
      requires Valid()
      modifies this`muted, this`isMute, this`volume, this`helperEvents
      ensures Valid()
      ensures hasVideo ==> muted == !old(muted) && isMute == muted
      ensures hasVideo && old(muted) ==> volume == volumePercent as real / 100.0 && helperEvents == old(helperEvents) + [Volume]
      ensures hasVideo && !old(muted) ==> volume == old(volume) && helperEvents == old(helperEvents) + [Mute]
      ensures !hasVideo ==> muted == old(muted) && isMute == old(isMute) && volume == old(volume) && helperEvents == old(helperEvents)
    {
      if hasVideo {
        if muted {
          muted := false;
          isMute := false;
          volume := volumePercent as real / 100.0;
          helperEvents := helperEvents + [Volume];
        } else {
          muted := true;
          isMute := true;
          helperEvents := helperEvents + [Mute];
        }
      }
    }

    /** `updateVolume`: sets the volume prop and the element's volume to `vol`
        percent, with feedback chosen against the element's volume before the
        change; the muted flag is left as it is. */
    method UpdateVolume(vol: int)
      requires Valid() && 0 <= vol <= 100
      modifies this`volumePercent, this`volume, this`helperEvents
      ensures Valid()
      ensures hasVideo ==> volumePercent == vol && volume == vol as real / 100.0
      ensures hasVideo ==> helperEvents == old(helperEvents) + [VolumeFeedback(vol, old(volume))]
      ensures !hasVideo ==> volumePercent == old(volumePercent) && volume == old(volume) && helperEvents == old(helperEvents)
    {
      if hasVideo {
        volumePercent := vol;
        helperEvents := helperEvents + [VolumeFeedback(vol, volume)];
        volume := vol as real / 100.0;
      }
    }

    /** The slider's `onChange`: forwards the parsed slider value to `updateVolume`. */
    method SliderChange(value: string)
      requires Valid() && SliderVolume(value).Some? && SliderVolume(value).value <= 100
      modifies this`volumePercent, this`volume, this`helperEvents
      ensures Valid()
      ensures hasVideo ==> volumePercent == SliderVolume(value).value && volume == volumePercent as real / 100.0
      ensures hasVideo ==> helperEvents == old(helperEvents) + [VolumeFeedback(volumePercent, old(volume))]
      ensures !hasVideo ==> volumePercent == old(volumePercent) && volume == old(volume) && helperEvents == old(helperEvents)
    {
      UpdateVolume(SliderVolume(value).value);
    }

    /** `toggleExpandCollapseVideo`: leaves fullscreen when it is active,
        enters it otherwise; no container, no effect. */
    method ToggleExpandCollapse()
      modifies this`fullscreen
      ensures fullscreen == if hasContainer then !old(fullscreen) else old(fullscreen)
    {
      if hasContainer {
        fullscreen := !fullscreen;
      }
    }

    /** `seekVideoTo`: moves the element and the displayed time to the given
        fraction of the duration, and sets the element's volume to 0.7. */
    method SeekVideoTo(fraction: real)
      requires Valid()
      modifies this`currentTime, this`currVideoTime, this`volume
      ensures Valid()
      ensures hasVideo ==> currentTime == fraction * videoDuration && currVideoTime == currentTime && volume == 0.7
      ensures !hasVideo ==> currentTime == old(currentTime) && currVideoTime == old(currVideoTime) && volume == old(volume)
    {
      if hasVideo {
        var time := fraction * videoDuration;
        currentTime := time;
        currVideoTime := time;
        volume := 0.7;
      }
    }

    /** What the keypress listener's switch does for `action` on a present
        element: the fullscreen toggle (also on "Escape" while the bar shows
        fullscreen), `togglePlayPause`, a relative seek, `toggleMuteUnmute`,
        or an absolute seek to tenths of the duration; any other action
        changes none of these fields. */
    twostate predicate PressEffect(action: PressAction)
      reads this`fullscreen, this`hasContainer, this`isFullScreen, this`paused, this`isPaused
      reads this`helperEvents, this`muted, this`isMute, this`volume, this`volumePercent
      reads this`currentTime, this`videoDuration
    {
      && fullscreen == (if hasContainer && (action == ToggleFullscreen || (action == EscapeKey && isFullScreen))
                        then !old(fullscreen) else old(fullscreen))
      && (if action == PlayPause then
            paused == !old(paused) && isPaused == paused
            && helperEvents == old(helperEvents) + [if old(paused) then Play else Pause]
          else paused == old(paused) && isPaused == old(isPaused))
      && (if action == MuteUnmute then
            muted == !old(muted) && isMute == muted
            && volume == (if old(muted) then volumePercent as real / 100.0 else old(volume))
            && helperEvents == old(helperEvents) + [if old(muted) then Volume else Mute]
          else muted == old(muted) && isMute == old(isMute) && volume == old(volume))
      && (action != PlayPause && action != MuteUnmute ==> helperEvents == old(helperEvents))
      && currentTime == match action
                        case SeekBy(delta) => old(currentTime) + delta
                        case SeekToTenths(tenths) => tenths as real * videoDuration / 10.0
                        case _ => old(currentTime)
    }

    /** The keypress listener. Without an element, or for a digit pressed with
        a modifier, it changes nothing. Otherwise it performs the key's action,
        shows the controls for two seconds and copies the element's time into
        the displayed time. Only "Escape" has its default action prevented. */
    method Keypress(key: string, alt: bool, ctrl: bool, meta: bool) returns (prevented: bool)
      requires Valid()
      modifies this`fullscreen, this`paused, this`isPaused, this`helperEvents, this`currentTime
      modifies this`muted, this`isMute, this`volume, this`currVideoTime, this`shownFor
      ensures Valid()
      ensures prevented <==> hasVideo && key == "Escape"
      ensures var a := PressActionOf(key, alt, ctrl, meta);
              PressEffect(if hasVideo then a else Unbound)
      ensures var handled := hasVideo && PressActionOf(key, alt, ctrl, meta) != Suppressed;
              && shownFor == (if handled then old(shownFor) + [2] else old(shownFor))
              && currVideoTime == (if handled then currentTime else old(currVideoTime))
    {
      prevented := false;
      if !hasVideo {
        return;
      }
      var action := PressActionOf(key, alt, ctrl, meta);
      if action == Suppressed {
        return;
      }
      Perform(action);
      prevented := action == EscapeKey;
      shownFor := shownFor + [2];
      currVideoTime := currentTime;
    }

    /** The body of the keypress listener's switch, on a present element. */
    method Perform(action: PressAction)
      requires Valid() && hasVideo
      modifies this`fullscreen, this`paused, this`isPaused, this`helperEvents, this`currentTime
      modifies this`muted, this`isMute, this`volume
      ensures Valid() && PressEffect(action)
    {
      match action {
        case ToggleFullscreen =>
          ToggleExpandCollapse();
        case PlayPause =>
          TogglePlayPause();
        case SeekBy(delta) =>
          currentTime := currentTime + delta;
        case MuteUnmute =>
          ToggleMuteUnmute();
        case EscapeKey =>
          if isFullScreen {
            ToggleExpandCollapse();
          }
        case SeekToTenths(tenths) =>
          currentTime := tenths as real * videoDuration / 10.0;
        case Suppressed =>
        case Unbound =>
      }
    }

    /** The keydown listener: arrow keys step the volume by five points
        within [0, 100] and the time by five seconds; every key copies the
        element's time into the displayed time. It never shows the controls. */
    method Keydown(key: string)
      requires Valid()
      modifies this`volumePercent, this`volume, this`helperEvents, this`currentTime, this`currVideoTime
      ensures Valid()
      ensures hasVideo && key == "ArrowUp" ==> volumePercent == VolumeUp(old(volumePercent))
      ensures hasVideo && key == "ArrowDown" ==> volumePercent == VolumeDown(old(volumePercent))
      ensures hasVideo && (key == "ArrowUp" || key == "ArrowDown") ==>
                volume == volumePercent as real / 100.0
                && helperEvents == old(helperEvents) + [VolumeFeedback(volumePercent, old(volume))]
      ensures !(hasVideo && (key == "ArrowUp" || key == "ArrowDown")) ==>
                volumePercent == old(volumePercent) && volume == old(volume) && helperEvents == old(helperEvents)
      ensures currentTime == if hasVideo && key == "ArrowRight" then old(currentTime) + 5.0
                             else if hasVideo && key == "ArrowLeft" then old(currentTime) - 5.0
                             else old(currentTime)
      ensures currVideoTime == if hasVideo then currentTime else old(currVideoTime)
    {
      if !hasVideo {
        return;
      }
      if key == "ArrowUp" {
        UpdateVolume(VolumeUp(volumePercent));
      } else if key == "ArrowDown" {
        UpdateVolume(VolumeDown(volumePercent));
      } else if key == "ArrowRight" {
        currentTime := currentTime + 5.0;
      } else if key == "ArrowLeft" {
        currentTime := currentTime - 5.0;
      }
      currVideoTime := currentTime;
    }

    /** A click on the video toggles play/pause and shows the controls. */
    method VideoClick()
      modifies this`paused, this`isPaused, this`helperEvents, this`shownFor
      ensures hasVideo ==> paused == !old(paused) && isPaused == paused
      ensures hasVideo ==> helperEvents == old(helperEvents) + [if old(paused) then Play else Pause]
      ensures shownFor == if hasVideo then old(shownFor) + [2] else old(shownFor)
      ensures !hasVideo ==> paused == old(paused) && isPaused == old(isPaused) && helperEvents == old(helperEvents)
    {
      if hasVideo {
        TogglePlayPause();
        shownFor := shownFor + [2];
      }
    }

    /** Mouse movement over, or leaving, the video shows the controls. */
    method VideoPointerActivity()
      modifies this`shownFor
      ensures shownFor == if hasVideo then old(shownFor) + [2] else old(shownFor)
    {
      if hasVideo {
        shownFor := shownFor + [2];
      }
    }

    /** `onFragLoad`: the loaded watermark becomes the end of the fragment just
        reported, whether or not it lies beyond the previous one. */
    method OnFragLoad(start: real, duration: real)
      modifies this`loadedDuration
      ensures loadedDuration == if hasVideo then start + duration else old(loadedDuration)
    {
      if hasVideo {
        loadedDuration := start + duration;
      }
    }

    /** `updateCurrentTime`, run every 100 ms while the video is not paused:
        copies the element's time into the displayed time and marks the video
        paused once that time equals the duration. */
    method PollTick()
      modifies this`currVideoTime, this`isPaused
      ensures hasVideo && !old(isPaused) ==> currVideoTime == currentTime && isPaused == (currentTime == videoDuration)
      ensures !(hasVideo && !old(isPaused)) ==> currVideoTime == old(currVideoTime) && isPaused == old(isPaused)
    {
      if isPaused || !hasVideo {
        return;
      }
      currVideoTime := currentTime;
      if currentTime == videoDuration {
        isPaused := true;
      }
    }
  }

  // ---------------------------------------------------------------------------
  // Scenarios

  /** Muting twice restores the muted flag and the mute state. */
  method MuteTwice(p: Player)
    requires p.Valid() && p.hasVideo
    modifies p
    ensures p.Valid() && p.muted == old(p.muted) && p.isMute == old(p.isMute)
    ensures p.helperEvents == old(p.helperEvents) + if old(p.muted) then [Volume, Mute] else [Mute, Volume]
  {
    p.ToggleMuteUnmute();
    p.ToggleMuteUnmute();
  }

  /** Fragments reported out of order: the watermark is the last one's end, 5, not 15. */
  method FragmentsOutOfOrder(p: Player)
    requires p.hasVideo
    modifies p
    ensures p.loadedDuration == 5.0
  {
    p.OnFragLoad(10.0, 5.0);
    p.OnFragLoad(2.0, 3.0);
  }

  /** Key "5" on a 100-second video seeks to 50, shows 50 and shows the
      controls once. */
  method DigitFive(p: Player)
    requires p.Valid() && p.hasVideo && p.videoDuration == 100.0
    modifies p
    ensures p.currentTime == 50.0 && p.currVideoTime == 50.0
    ensures p.shownFor == old(p.shownFor) + [2]
  {
    var _ := p.Keypress("5", false, false, false);
  }

  /** Ctrl+"5" returns before anything happens: no seek, no time sync, the
      controls are not shown and the default action is not prevented. */
  method CtrlFive(p: Player) returns (prevented: bool)
    requires p.Valid() && p.hasVideo
    modifies p
    ensures !prevented
    ensures p.currentTime == old(p.currentTime) && p.currVideoTime == old(p.currVideoTime)
    ensures p.shownFor == old(p.shownFor) && p.helperEvents == old(p.helperEvents)
    ensures p.paused == old(p.paused) && p.muted == old(p.muted) && p.fullscreen == old(p.fullscreen)
  {
    prevented := p.Keypress("5", false, true, false);
  }

  /** Reaching the end pauses on the first tick and syncs the displayed time. */
  method TicksAtEnd(p: Player)
    requires p.hasVideo && !p.isPaused && p.currentTime == p.videoDuration
    modifies p
    ensures p.isPaused && p.currVideoTime == p.currentTime
  {
    p.PollTick();
  }

  /** Once paused, further ticks change nothing: the interval is gone. */
  method TickWhilePaused(p: Player)
    requires p.isPaused
    modifies p
    ensures p.isPaused && p.currVideoTime == old(p.currVideoTime)
  {
    p.PollTick();
    p.PollTick();
  }
}
