# Video player controls, modelled in Dafny

This project models the playback-control logic of a React/hls.js video
player. The model has one module per source file:

- `Controls` (`controls.dfy`): the control bar.
  - `formatTime` is a pure function. It has a decoder `ParseTime` as its partner, and the model proves the round trip.
  - The handlers are methods of a class `Player`. The class holds:
    - the fields of the video element the handlers touch (`paused`, `muted`, `volume` in [0, 1], `currentTime`);
    - the fullscreen flag;
    - the props and state cells the bar reads and writes (`isPaused`, the volume percent, `isFullScreen`, `videoDuration`, `currVideoTime`, `loadedDuration`, `isMute`);
    - the calls made to the parent: the feedback events passed to `showVisualHelper` and the arguments passed to `showControlsFor`.
- `Timeline` (`timeline.dfy`): the scrub bar.
  - It is a two-state machine on `isScrubbing`.
  - It turns the pointer's x coordinate and the track's rectangle into seek fractions. Mousedown clamps the fraction below only; mousemove clamps it to [0, 1].
  - The class `Scrubber` keeps the handled pointer events as a ghost trace. Its invariant is that its state equals the pure run (`Run`) of that trace.
- `VolumeControls` (`volume_controls.dfy`): the mute button's icon and the slider's `parseInt` forwarding.
- `VisualHelper` (`visual_helper.dfy`): the feedback overlay's event-to-glyph chain and the label's `startsWith("volume")` styling rule.
- `JsText` (`js_text.dfy`): the JavaScript string builtins the code relies on, on the inputs it gives them:
  - `Number.prototype.toString` for naturals;
  - `parseInt`, read as the value of the leading decimal digits;
  - `padStart` with a one-character fill;
  - the lexicographic string `<=`.

Numbers are modelled as follows:
- Times, track coordinates and the element's volume are `real`.
- The volume percent is `int`.
- `formatTime` takes a natural number of seconds.

The handlers that touch the video element act only when `videoRef.current` is set, and so does the fragment-loaded handler, which is registered only inside `if (video)`. The model treats a missing element as "no effect" for them. The fullscreen toggle depends only on the container, as in the source.

## Model

| member | source | states |
|---|---|---|
| Controls.SplitTime | src/components/video/Controls/index.tsx:134-142 | seconds and minutes are below 60; hours are positive exactly when t >= 3600 |
| Controls.SplitTimeSums | src/components/video/Controls/index.tsx:134-142 | hrs*3600 + min*60 + sec == t: the split loses nothing |
| Controls.TwoDigits | src/components/video/Controls/index.tsx:144-146 | below 100, `toString().padStart(2, "0")` gives exactly two digits whose value is the number |
| Controls.HoursPrefix | src/components/video/Controls/index.tsx:144 | the hours part is empty exactly when there are no hours |
| Controls.FormatTime | src/components/video/Controls/index.tsx:131-147 | the display has at least five characters, and more than five (an hours prefix) exactly when t >= 3600 |
| Controls.AssembleLayout | src/components/video/Controls/index.tsx:144-146 | in "[H:]MM:SS" the minutes and seconds are the two-character fields before and after the last colon, and the hours prefix is everything before them |
| Controls.ClockRoundTrip | src/components/video/Controls/index.tsx:144-146 | in-range hours, minutes and seconds are decoded back from their display |
| Controls.FormatTimeRoundTrip | src/components/video/Controls/index.tsx:131-147 | decoding `formatTime(t)` gives back t, for every natural t |
| Controls.VolumeFeedback | src/components/video/Controls/index.tsx:97-99 | exactly one of "volume-high", "mute" and "volume-low": "volume-high" iff vol exceeds the old element volume times 100; "mute" iff not that and vol is 0 |
| Controls.VolumeUp | src/components/video/Controls/index.tsx:219-220 | five points louder, capped at 100; never quieter from a volume in range |
| Controls.VolumeDown | src/components/video/Controls/index.tsx:222-223 | five points quieter, floored at 0; never louder from a volume in range |
| Controls.InDigitRange | src/components/video/Controls/index.tsx:203 | `key >= "0" && key <= "9"`: a key in the range starts with a digit; among one-character keys the range is exactly the ten digits |
| Controls.SingleDigitValue | src/components/video/Controls/index.tsx:206 | `parseInt` of a one-digit key is that digit's value |
| Controls.PressActionOf | src/components/video/Controls/index.tsx:188-207 | the branch the keypress listener takes, for each key: "f", " "/"k", "l" (+10), "j" (-11), "m", "Escape", a key in the digit range (suppressed iff a modifier is held; otherwise seek to parseInt(key) tenths) |
| Controls.Player.constructor | src/components/video/Controls/index.tsx:43-46 | the state cells start at 0/false; the mount effect then reads the duration and shows a muted element as muted |
| Controls.Player.TogglePlayPause | src/components/video/Controls/index.tsx:51-67 | a paused element is played with "play" feedback and isPaused false; a playing one is paused with "pause" feedback and isPaused true; no element, no change |
| Controls.Player.ToggleMuteUnmute | src/components/video/Controls/index.tsx:72-86 | muted and isMute flip together; un-muting restores volume/100 with "volume" feedback; muting keeps the volume with "mute" feedback |
| Controls.Player.UpdateVolume | src/components/video/Controls/index.tsx:92-102 | sets the volume prop to vol and the element's volume to vol/100; exactly one feedback event, chosen against the volume before the change; muted is untouched |
| Controls.Player.SliderChange | src/components/video/Volume/index.tsx:51-53 | a slider change is `updateVolume` of the parsed slider value: the volume prop becomes that value, the element's volume that value / 100, with its feedback event |
| Controls.Player.ToggleExpandCollapse | src/components/video/Controls/index.tsx:107-114 | with a container, fullscreen flips; without one, nothing changes |
| Controls.Player.SeekVideoTo | src/components/video/Controls/index.tsx:120-129 | currentTime and currVideoTime both become fraction*duration, unclamped, and the element's volume becomes 0.7 |
| Controls.Player.Keypress | src/components/video/Controls/index.tsx:188-211 | the action of the key is performed; every handled key shows the controls for 2 s and copies currentTime into currVideoTime; a digit with a modifier changes nothing; only "Escape" is prevented |
| Controls.Player.Perform | src/components/video/Controls/index.tsx:189-207 | each branch of the keypress switch: fullscreen toggle (on "Escape" only while isFullScreen), play/pause, relative seek, mute toggle, seek to tenths of the duration |
| Controls.Player.Keydown | src/components/video/Controls/index.tsx:215-230 | arrows up/down step the volume within [0, 100] through `updateVolume`; arrows right/left move currentTime by ±5; every key syncs currVideoTime; the controls are never shown |
| Controls.Player.VideoClick | src/components/video/Controls/index.tsx:177-180 | a click toggles play/pause and shows the controls for 2 s |
| Controls.Player.VideoPointerActivity | src/components/video/Controls/index.tsx:181-182 | mouse movement over, or leaving, the video shows the controls for 2 s |
| Controls.Player.OnFragLoad | src/components/video/Controls/index.tsx:166-174 | with an element, loadedDuration becomes start + duration of the reported fragment, with no maximum taken; without one nothing changes |
| Controls.Player.PollTick | src/components/video/Controls/index.tsx:252-267 | while not paused, a tick copies currentTime into currVideoTime and sets isPaused exactly when that time equals the duration |
| Controls.MuteTwice | src/components/video/Controls/index.tsx:72-86 | toggling mute twice restores muted and isMute and emits both feedback events in order |
| Controls.FragmentsOutOfOrder | src/components/video/Controls/index.tsx:172-174 | the last fragment wins: fragments ending at 15 and then 5 leave loadedDuration at 5 |
| Controls.DigitFive | src/components/video/Controls/index.tsx:203-210 | "5" on a 100-second video seeks to 50, shows 50 and shows the controls once |
| Controls.CtrlFive | src/components/video/Controls/index.tsx:203-205 | ctrl+"5" returns early: time, displayed time, feedback, controls, play state, mute and fullscreen are unchanged, and nothing is prevented |
| Controls.TicksAtEnd | src/components/video/Controls/index.tsx:258-266 | at the end of the video a tick sets isPaused and syncs the displayed time |
| Controls.TickWhilePaused | src/components/video/Controls/index.tsx:252-253 | while paused, ticks change neither isPaused nor the displayed time |
| Timeline.DownFraction | src/components/video/Timeline/index.tsx:29-32 | the mousedown fraction is never negative; it is 0 left of the track and at most 1 iff x <= right; inside the track it maps back to x |
| Timeline.MoveFraction | src/components/video/Timeline/index.tsx:44-49 | the mousemove fraction is in [0, 1]; it is the mousedown fraction capped at 1; it maps back to x inside the track and is 1 right of it |
| Timeline.MoveFractionMonotone | src/components/video/Timeline/index.tsx:45-49 | for a fixed track, the mousemove fraction is non-decreasing in x |
| Timeline.Step | src/components/video/Timeline/index.tsx:26-51 | one event: scrubbing after it iff mousedown or a move while scrubbing; a seek is issued in exactly those cases, never negative, and at most 1 on a move |
| Timeline.RunSeeksNonNegative | src/components/video/Timeline/index.tsx:26-51 | over any run every seek is non-negative; each event issues at most one seek and each mousedown exactly one |
| Timeline.IdleMovesDoNothing | src/components/video/Timeline/index.tsx:39-40 | moves while idle issue no seek and leave the bar idle |
| Timeline.MouseUpEndsIdle | src/components/video/Timeline/index.tsx:35-38 | a run that ends with mouseup ends idle, whatever came before |
| Timeline.SeeksWithinTrack | src/components/video/Timeline/index.tsx:26-51 | when no mousedown lies right of the track, every seek is in [0, 1] |
| Timeline.ClickSeeksOnce | src/components/video/Timeline/index.tsx:26-38 | mousedown then mouseup issues exactly the mousedown fraction and ends idle |
| Timeline.RunAppend | src/components/video/Timeline/index.tsx:26-51 | handling one more event continues the run from the state it reached |
| Timeline.Scrubber.constructor | src/components/video/Timeline/index.tsx:16 | the bar starts idle with no seeks |
| Timeline.Scrubber.MouseDownListener | src/components/video/Timeline/index.tsx:26-34 | the bar starts scrubbing and issues the mousedown fraction; the state is still the run of the trace |
| Timeline.Scrubber.MouseMoveListener | src/components/video/Timeline/index.tsx:39-51 | idle: nothing happens; scrubbing: the mousemove fraction is issued |
| Timeline.Scrubber.MouseUpListener | src/components/video/Timeline/index.tsx:35-38 | the bar becomes idle and no seek is issued |
| Timeline.PressAndRelease | src/components/video/Timeline/index.tsx:26-38 | press and release on the scrubber issues one seek and leaves it idle |
| VolumeControls.IconFor | src/components/video/Volume/index.tsx:30-32 | muted or volume 0: Mute; otherwise below 50: Low; from 50: High |
| VolumeControls.IconMonotone | src/components/video/Volume/index.tsx:30-32 | unmuted, a louder non-negative volume never shows a quieter icon |
| VolumeControls.IconNotMonotoneBelowZero | src/components/video/Volume/index.tsx:30-31 | below zero the order breaks: -1 shows Low while 0 shows Mute |
| VolumeControls.SliderVolume | src/components/video/Volume/index.tsx:51-53 | the slider yields a number exactly when its value starts with a digit |
| VolumeControls.SliderForwardsValue | src/components/video/Volume/index.tsx:44-53 | for a slider value in 0..100, the number forwarded is that value |
| VisualHelper.GlyphFor | src/components/video/VisualHelper/index.tsx:19-28 | "play", "pause" and "mute" get their glyphs; "volume" and "volume-high" get VolumeHigh; "volume-low" gets VolumeLow; any other name gets the empty fragment (each as an iff) |
| VisualHelper.LabelClass | src/components/video/VisualHelper/index.tsx:31 | the label gets helperClass exactly when the event's first six characters are "volume", and no class otherwise |
| VisualHelper.LabelText | src/components/video/VisualHelper/index.tsx:33 | the label is exactly `toString` of the volume number followed by "%", and `parseInt` reads the number back |
| VisualHelper.EmittedEventsAreDrawn | src/components/video/VisualHelper/index.tsx:19-33 | every event the controls emit has a glyph; its label is styled exactly for the two volume glyphs |
| VisualHelper.GlyphsSeparateEvents | src/components/video/VisualHelper/index.tsx:20-27 | distinct events get distinct glyphs, except "volume" and "volume-high" |
| JsText.NatToString | src/components/video/Controls/index.tsx:144 | `toString` of a natural: a non-empty digit string, without a leading zero, whose value is the number |
| JsText.ParseInt | src/components/video/Volume/index.tsx:52 | `parseInt` yields a number exactly when the string starts with a digit |
| JsText.ParseIntOfNatToString | src/components/video/Volume/index.tsx:52 | `parseInt` reads back what `toString` wrote, whatever non-digit text follows |
| JsText.LexLessEq | src/components/video/Controls/index.tsx:203 | JavaScript's string `<=`: a string is below each of its extensions (the empty string below all), and a string below another starts with a character no greater |
| JsText.LexTotal | src/components/video/Controls/index.tsx:203 | any two strings are comparable |
| JsText.LexAntisymmetric | src/components/video/Controls/index.tsx:203 | two strings below each other are equal |
| JsText.PadStart | src/components/video/Controls/index.tsx:144-146 | `padStart` yields the target width or the string's own length, keeps the string as a suffix and fills the rest |

## Left out

- Rendering: JSX, CSS modules and the `--progress`/`--loaded` style properties. They are presentation only.
- `console.log` calls. They have no behaviour.
- Listener registration and removal, and `useEffect` dependency arrays. Each handler is a method on the current state.
- Stale closures. `keydownListener` reads the `volume` prop captured when it was bound, and the keypress handler reads a captured `isFullScreen`. The model reads the current state instead.
- Timeline.Scrubber.MouseMoveListener: the source's `mouseMoveListener` reads the `isScrubbing` captured when it was bound, so moves between a mousedown and the next render are ignored there. The model's scrubber sees the new flag at once.
- Re-running the mount effect. Its dependencies include `toggleExpandCollapseVideo`, a new closure on every render, so the source reads `video.duration` again after each render. Controls.Player.constructor reads the duration once, and no handler of the model changes `videoDuration` afterwards, so a duration still unknown at mount is never updated.
- The `setInterval`/`clearInterval` timing. Only the tick body is modelled, together with the `if (isPaused) return` that decides whether the interval exists.
- The fullscreen API (`requestFullscreen`, `exitFullscreen`, `document.fullscreenElement`). It is a flag that the toggle flips.
- The hls.js subscription. Only the fragment-loaded handler body is modelled.
- `HTMLMediaElement` behaviour:
  - clamping `currentTime` to the seekable range;
  - the promise `play()` returns;
  - the exception `volume` throws outside [0, 1].
- Controls.Player.UpdateVolume: requires a percent in 0..100, the range its callers (slider and arrow keys) supply. Outside it the element's volume setter would throw.
- IEEE-754 rounding in `video.volume * 100` and in the time arithmetic. The model uses exact `real` arithmetic.
- `Math.round` before `formatTime`. `formatTime` is modelled on natural numbers of seconds. NaN, infinities and negative times are not modelled.
- The progress and loaded percentages, which divide by `videoDuration`.
- Parts of `parseInt` the controls never reach: leading white space, signs, radix prefixes, and digits beyond the safe-integer range.
- Timeline: a zero-width track. The fraction divides by the track's width, which is NaN/Infinity in JavaScript, so the fraction functions require `left < right`.
- `setIsPaused` and `setVolume`: these belong to the parent. The model stores them in `isPaused` and the volume percent directly.
- `showVisualHelper` and `showControlsFor`: only the calls made to them are recorded, not what they do.
