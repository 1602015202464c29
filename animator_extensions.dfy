/**
 * The animator helpers shared by the enemy and player animators: the dominant-axis rule
 * that both use to pick a facing, and `AnimatorExtensions.PlayAnimation`
 * (Enemy/EnemyAnimator.cs), which turns a state name into a cross-fade request.
 */
module AnimatorExtensions {
  import opened Wrappers
  import opened Vectors

  datatype Facing = Front | Back | Left | Right

  /**
   * The facing both animators derive from a vector: horizontal exactly when |x| > |y|
   * (so ties go vertical), then Right for positive x, Back for positive y.
   */
  function Dominant(v: Vec2): (f: Facing)
    ensures (f == Left || f == Right) <==> Abs(v.x) > Abs(v.y)
    ensures f == Right ==> v.x > 0.0
    ensures f == Left ==> v.x <= 0.0 && v.x != 0.0
    ensures f == Back ==> v.y > 0.0
    ensures f == Front ==> v.y <= 0.0
  {
    if Abs(v.x) > Abs(v.y) then (if v.x > 0.0 then Right else Left)
    else (if v.y > 0.0 then Back else Front)
  }

  /** A `CrossFade(state, duration, layer)` call made on the Animator. */
  datatype CrossFade = CrossFade(state: string, duration: real, layer: int)

  const FramesPerSecond: real := 60.0
  const MinTransition: real := 0.01

  /** `Mathf.Max(0.01f, smoothFrames / 60f)`: frames at 60 fps, never under 0.01 s. */
  function TransitionDuration(smoothFrames: int): (d: real)
    ensures d >= MinTransition
    ensures smoothFrames >= 1 ==> d == smoothFrames as real / FramesPerSecond
    ensures smoothFrames <= 0 ==> d == MinTransition
  {
    var seconds := smoothFrames as real / FramesPerSecond;
    if seconds < MinTransition then MinTransition else seconds
  }

  /** `PlayAnimation`: no request without an animator or for an empty name. */
  function PlayAnimation(hasAnimator: bool, stateName: string, smoothFrames: int, layer: int): (r: Option<CrossFade>)
    ensures r.None? <==> !hasAnimator || stateName == ""
    ensures r.Some? ==> r.value.state == stateName && r.value.layer == layer
    ensures r.Some? ==> r.value.duration >= MinTransition
  {
    if !hasAnimator || stateName == "" then None
    else Some(CrossFade(stateName, TransitionDuration(smoothFrames), layer))
  }
}
