/**
 * The control handlers of `src/components/video/VideoPlayer.tsx`. The
 * player keeps React state (`isPlaying`, `isMuted`, `volume`,
 * `currentTime`) next to the `<video>` element it drives; both are part of
 * the model so that the handlers can be seen to keep them in step. Every
 * handler does nothing while the element is not mounted.
 */
module VideoPlayer {

  /** The `<video>` element's own properties the handlers write. */
  datatype Element = Element(paused: bool, muted: bool, volume: real, currentTime: real)

  /** The player: whether the element is mounted, the element, and the React state. */
  datatype Player = Player(
    mounted: bool,
    element: Element,
    isPlaying: bool,
    isMuted: bool,
    volume: real,
    currentTime: real)

  /** The player as first rendered, over an element in its default state. */
  function Initial(mounted: bool): Player {
    Player(mounted, Element(true, false, 1.0, 0.0), false, false, 1.0, 0.0)
  }

  /** The element's mute and volume agree with the React state. */
  predicate InStep(p: Player) {
    p.element.muted == p.isMuted && p.element.volume == p.volume
  }

  /**
   * Play/pause: pauses the element when the state says playing, else
   * plays it, and flips `isPlaying`.
   */
  function TogglePlay(p: Player): (q: Player)
    ensures !p.mounted ==> q == p
    ensures p.mounted ==> q == p.(isPlaying := !p.isPlaying, element := p.element.(paused := p.isPlaying))
  {
    if !p.mounted then p
    else p.(element := p.element.(paused := p.isPlaying), isPlaying := !p.isPlaying)
  }

  /** Mute button: sets the element's mute to the negated state and flips `isMuted`. */
  function ToggleMute(p: Player): (q: Player)
    ensures !p.mounted ==> q == p
    ensures p.mounted ==> q.isMuted == !p.isMuted && q.element.muted == q.isMuted
    ensures p.mounted ==> q == p.(isMuted := q.isMuted, element := p.element.(muted := q.isMuted))
  {
    if !p.mounted then p
    else p.(element := p.element.(muted := !p.isMuted), isMuted := !p.isMuted)
  }

  /**
   * Volume slider: sets the volume of both. Dragging to zero while unmuted
   * mutes; dragging above zero while muted unmutes; otherwise the mute
   * flag is left alone.
   */
  function ChangeVolume(p: Player, value: real): (q: Player)
    ensures !p.mounted ==> q == p
    ensures p.mounted ==> q.volume == value && q.element.volume == value
    ensures p.mounted && value == 0.0 && !p.isMuted ==> q.isMuted && q.element.muted
    ensures p.mounted && value > 0.0 && p.isMuted ==> !q.isMuted && !q.element.muted
    ensures p.mounted && !(value == 0.0 && !p.isMuted) && !(value > 0.0 && p.isMuted) ==>
      q.isMuted == p.isMuted && q.element.muted == p.element.muted
    ensures q.isPlaying == p.isPlaying && q.currentTime == p.currentTime && q.element.paused == p.element.paused
  {
    if !p.mounted then p
    else
      var tuned := p.(element := p.element.(volume := value), volume := value);
      if value == 0.0 && !p.isMuted then tuned.(isMuted := true, element := tuned.element.(muted := true))
      else if value > 0.0 && p.isMuted then tuned.(isMuted := false, element := tuned.element.(muted := false))
      else tuned
  }

  /** Seek slider: moves both the element and the state to the slider's time. */
  function SeekTo(p: Player, value: real): (q: Player)
    ensures !p.mounted ==> q == p
    ensures p.mounted ==> q.currentTime == value && q.element.currentTime == value
    ensures q.isMuted == p.isMuted && q.volume == p.volume && q.isPlaying == p.isPlaying
  {
    if !p.mounted then p
    else p.(element := p.element.(currentTime := value), currentTime := value)
  }

  /**
   * For a volume the slider can produce (it never goes below zero), the
   * player ends muted exactly when the volume is zero, whatever it was
   * before.
   */
  lemma MutedIffSilent(p: Player, value: real)
    requires p.mounted && value >= 0.0
    ensures ChangeVolume(p, value).isMuted <==> value == 0.0
  {
  }

  /** Every handler keeps the element's mute and volume in step with the state. */
  lemma HandlersKeepInStep(p: Player, value: real)
    requires InStep(p)
    ensures InStep(TogglePlay(p)) && InStep(ToggleMute(p)) && InStep(ChangeVolume(p, value)) && InStep(SeekTo(p, value))
  {
  }

  /** Pressing play twice, or mute twice, restores the player. */
  lemma TogglesAreInvolutions(p: Player)
    requires p.element.paused == !p.isPlaying
    ensures TogglePlay(TogglePlay(p)) == p
    ensures InStep(p) ==> ToggleMute(ToggleMute(p)) == p
  {
  }

  /** The slider shows zero while muted, else the volume. */
  function SliderValue(p: Player): (v: real)
    ensures p.isMuted ==> v == 0.0
    ensures !p.isMuted ==> v == p.volume
  {
    if p.isMuted then 0.0 else p.volume
  }
}
