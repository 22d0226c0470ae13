/** The volume control (`VolumeControls`): the icon on the mute button and the
    range slider that forwards its value to the player's `updateVolume`. */
module VolumeControls {
  import opened JsText

  datatype VolumeIcon = MuteIcon | LowIcon | HighIcon

  /** Loudness order of the icons: Mute < Low < High. */
  function Level(i: VolumeIcon): nat
  {
    match i
    case MuteIcon => 0
    case LowIcon => 1
    case HighIcon => 2
  }

  /** The inner `Volume` component: which icon the mute button shows. */
  function IconFor(isMute: bool, vol: int): (i: VolumeIcon)
    ensures isMute || vol == 0 ==> i == MuteIcon
    ensures !isMute && 0 < vol < 50 ==> i == LowIcon
    ensures !isMute && vol >= 50 ==> i == HighIcon
  {
    if isMute || vol == 0 then MuteIcon
    else if vol < 50 then LowIcon
    else HighIcon
  }

  /** Unmuted, a louder non-negative volume never shows a quieter icon. */
  lemma IconMonotone(v1: int, v2: int)
    requires 0 <= v1 <= v2
    ensures Level(IconFor(false, v1)) <= Level(IconFor(false, v2))
  {
  }

  /** Below zero the order breaks: -1 shows the low icon, 0 the mute icon. */
  lemma IconNotMonotoneBelowZero()
    ensures Level(IconFor(false, -1)) > Level(IconFor(false, 0))
  {
  }

  /** The slider's `onChange`: `parseInt` of the input's value. */
  function SliderVolume(value: string): (vol: Option<nat>)
    ensures vol.Some? <==> |value| > 0 && IsDigit(value[0])
  {
    ParseInt(value)
  }

  /** The range input reports its value as the decimal spelling of a number in
      0..100; the slider forwards exactly that number. */
  lemma SliderForwardsValue(n: nat)
    requires n <= 100
    ensures SliderVolume(NatToString(n)) == Some(n)
  {
    ParseIntOfNatToString(n, "");
    assert NatToString(n) + "" == NatToString(n);
  }
}
