/** The transient feedback overlay (`VisualHelpers`): the glyph drawn for a
    feedback event and the styling of the volume-percent label beside it. */
module VisualHelper {
  import opened JsText

  /** The feedback events the controls emit through `showVisualHelper`. */
  datatype HelperEvent = Play | Pause | Mute | Volume | VolumeHigh | VolumeLow
  {
    /** The event name the overlay receives. */
    function Name(): string
    {
      match this
      case Play => "play"
      case Pause => "pause"
      case Mute => "mute"
      case Volume => "volume"
      case VolumeHigh => "volume-high"
      case VolumeLow => "volume-low"
    }
  }

  /** What the overlay draws; `NoGlyph` is the empty fragment. */
  datatype Glyph = PlayGlyph | PauseGlyph | MuteGlyph | VolumeHighGlyph | VolumeLowGlyph | NoGlyph

  /** The if/else chain choosing the overlay's glyph from the event name. */
  function GlyphFor(event: string): (g: Glyph)
    ensures g == PlayGlyph <==> event == "play"
    ensures g == PauseGlyph <==> event == "pause"
    ensures g == MuteGlyph <==> event == "mute"
    ensures g == VolumeHighGlyph <==> event == "volume" || event == "volume-high"
    ensures g == VolumeLowGlyph <==> event == "volume-low"
    ensures g == NoGlyph <==> event !in {"play", "pause", "mute", "volume", "volume-high", "volume-low"}
  {
    if event == "play" then PlayGlyph
    else if event == "pause" then PauseGlyph
    else if event == "mute" then MuteGlyph
    else if event == "volume" then VolumeHighGlyph
    else if event == "volume-high" then VolumeHighGlyph
    else if event == "volume-low" then VolumeLowGlyph
    else NoGlyph
  }

  /** The class the volume label gets: `helperClass` exactly when the event
      name starts with "volume", otherwise none (`<=` on sequences is the
      prefix relation, JavaScript's `startsWith`). */
  function LabelClass(event: string, helperClass: string): (c: string)
    ensures |event| >= 6 && event[..6] == "volume" ==> c == helperClass
    ensures !(|event| >= 6 && event[..6] == "volume") ==> c == ""
  {
    if "volume" <= event then helperClass else ""
  }

  /** The label text: the volume percent followed by a percent sign. */
  function LabelText(volumeLabel: nat): (t: string)
    ensures |t| >= 2 && t[|t| - 1] == '%'
    ensures t[..|t| - 1] == NatToString(volumeLabel)
    ensures ParseInt(t) == Some(volumeLabel)
  {
    ParseIntOfNatToString(volumeLabel, "%");
    NatToString(volumeLabel) + "%"
  }

  /** Every event the controls emit has a glyph of its own kind, and its label
      is styled exactly when the glyph is one of the two volume glyphs. */
  lemma {:induction false} EmittedEventsAreDrawn(e: HelperEvent, helperClass: string)
    requires helperClass != ""
    ensures GlyphFor(e.Name()) != NoGlyph
    ensures LabelClass(e.Name(), helperClass) == helperClass
        <==> GlyphFor(e.Name()) in {VolumeHighGlyph, VolumeLowGlyph}
  {
    match e
    case Play =>
      assert e.Name()[0] != "volume"[0];
    case Pause =>
      assert e.Name()[0] != "volume"[0];
    case Mute =>
      assert e.Name()[0] != "volume"[0];
    case Volume =>
    case VolumeHigh =>
      assert e.Name()[..6] == "volume";
    case VolumeLow =>
      assert e.Name()[..6] == "volume";
  }

  /** Distinct events are drawn as distinct glyphs, except that "volume" and
      "volume-high" share one. */
  lemma GlyphsSeparateEvents(e1: HelperEvent, e2: HelperEvent)
    requires GlyphFor(e1.Name()) == GlyphFor(e2.Name())
    ensures e1 == e2 || {e1, e2} == {Volume, VolumeHigh}
  {
  }
}
