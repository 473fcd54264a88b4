/** The volume control of the overlay's audio manager. Volumes are real
    numbers; NaN, which `Math.min`/`Math.max` would pass through, is not a
    value here. */
module Audio {

  /** The volume a new manager starts with. */
  const DefaultVolume: real := 0.8

  /** `Math.max` */
  function Max(a: real, b: real): real {
    if a >= b then a else b
  }

  /** `Math.min` */
  function Min(a: real, b: real): real {
    if a <= b then a else b
  }

  /** The clamp of `setMasterVolume`: the result lies in [0, 1], a volume
      already in range is kept, and one outside moves to the nearer bound. */
  function Clamp(volume: real): (r: real)
    ensures 0.0 <= r <= 1.0
    ensures 0.0 <= volume <= 1.0 ==> r == volume
    ensures volume < 0.0 ==> r == 0.0
    ensures volume > 1.0 ==> r == 1.0
  {
    Max(0.0, Min(1.0, volume))
  }

  class AudioManager {
    var masterVolume: real

    constructor()
      ensures masterVolume == DefaultVolume
    {
      masterVolume := DefaultVolume;
    }

    /** `setMasterVolume` */
    method SetMasterVolume(volume: real)
      modifies this
      ensures masterVolume == Clamp(volume)
      ensures 0.0 <= masterVolume <= 1.0
    {
      masterVolume := Max(0.0, Min(1.0, volume));
    }
  }
}
