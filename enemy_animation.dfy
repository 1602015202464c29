/** The enemy's animation-state selection (Enemy/EnemyAnimator.cs). */
module EnemyAnimation {
  import opened Wrappers
  import opened Vectors
  import opened AnimatorExtensions
  import Combat

  /**
   * The `EnemyAnimationState` names, by facing and by walking or attacking. None is empty,
   * so `PlayAnimation` never skips one, and the suffix tells attacking from walking.
   */
  function StateName(f: Facing, attacking: bool): (r: string)
    ensures r != ""
    ensures attacking <==> |r| >= 9 && r[|r| - 9..] == "Attacking"
  {
    match f
    case Front => if attacking then "Front_Attacking" else "Front_Walking"
    case Back => if attacking then "Back_Attacking" else "Back_Walking"
    case Left => if attacking then "Left_Attacking" else "Left_Walking"
    case Right => if attacking then "Right_Attacking" else "Right_Walking"
  }

  /** The eight names are distinct: the name determines the facing and the mode. */
  lemma StateNamesDistinct(f: Facing, a: bool, g: Facing, b: bool)
    ensures StateName(f, a) == StateName(g, b) <==> f == g && a == b
  {
  }

  /** Below this squared length a walking enemy's direction counts as none. */
  const IdleThreshold: real := 0.001

  /**
   * The state `Animate` asks for: an attack state exactly while attacking, facing the
   * dominant axis of the direction; a walk state otherwise, Front when the direction is
   * (nearly) zero.
   */
  function SelectState(dir: Vec2, attacking: bool): (r: string)
    ensures IsAttackState(Some(r)) <==> attacking
    ensures attacking ==> r == StateName(Dominant(dir), true)
    ensures !attacking && SqrMagnitude(dir) <= IdleThreshold ==> r == StateName(Front, false)
    ensures !attacking && SqrMagnitude(dir) > IdleThreshold ==> r == StateName(Dominant(dir), false)
  {
    AttackNamesAreAttackStates(Dominant(dir), attacking);
    AttackNamesAreAttackStates(Front, attacking);
    if attacking then
      if Abs(dir.x) > Abs(dir.y) then (if dir.x > 0.0 then "Right_Attacking" else "Left_Attacking")
      else (if dir.y > 0.0 then "Back_Attacking" else "Front_Attacking")
    else if SqrMagnitude(dir) <= IdleThreshold then "Front_Walking"
    else if Abs(dir.x) > Abs(dir.y) then (if dir.x > 0.0 then "Right_Walking" else "Left_Walking")
    else (if dir.y > 0.0 then "Back_Walking" else "Front_Walking")
  }

  /** `IsAttackState`: false for a null or empty name, otherwise one of the four attack names. */
  predicate IsAttackState(stateName: Option<string>): (r: bool)
    ensures r <==> exists f :: stateName == Some(StateName(f, true))
  {
    assert StateName(Front, true) == "Front_Attacking" && StateName(Back, true) == "Back_Attacking";
    assert StateName(Left, true) == "Left_Attacking" && StateName(Right, true) == "Right_Attacking";
    if stateName.None? || stateName.value == "" then false
    else
      stateName.value == "Front_Attacking" || stateName.value == "Back_Attacking"
      || stateName.value == "Left_Attacking" || stateName.value == "Right_Attacking"
  }

  /** Of the eight state names, IsAttackState holds exactly for the attacking ones. */
  lemma AttackNamesAreAttackStates(f: Facing, attacking: bool)
    ensures IsAttackState(Some(StateName(f, attacking))) <==> attacking
  {
    var n := StateName(f, attacking);
    if !attacking {
      assert |n| <= 13;
    }
  }

  /**
   * `IsCurrentStateStillPlaying`: the animator's current state (`playingState`) is the
   * named one and its normalised time is below 0.98.
   */
  predicate IsCurrentStateStillPlaying(hasAnimator: bool, stateName: Option<string>, playingState: string,
                                       normalizedTime: real): (r: bool)
    ensures r ==> hasAnimator && stateName == Some(playingState) && playingState != ""
    ensures r ==> normalizedTime < 0.98
    ensures hasAnimator && stateName == Some(playingState) && playingState != "" && !r ==> normalizedTime >= 0.98
  {
    if !hasAnimator || stateName.None? || stateName.value == "" then false
    else playingState == stateName.value && normalizedTime < 0.98
  }

  class EnemyAnimator {
    const hasAnimator: bool
    /** `GetComponent<Enemy>()`, or null. */
    const enemy: Combat.Enemy?
    const smoothFrames: int
    /** `_currentAnim`, null until the first request. */
    var currentAnim: Option<string>
    /** Every cross-fade requested so far. */
    var requests: seq<CrossFade>

    constructor (hasAnimator: bool, enemy: Combat.Enemy?, smoothFrames: int)
      ensures this.hasAnimator == hasAnimator && this.enemy == enemy && this.smoothFrames == smoothFrames
      ensures currentAnim == None && requests == []
    {
      this.hasAnimator := hasAnimator;
      this.enemy := enemy;
      this.smoothFrames := smoothFrames;
      currentAnim := None;
      requests := [];
    }

    /**
     * One frame of `Animate`; `playingState` and `normalizedTime` describe the clip the
     * Animator is playing on layer 0.  A request is made only on a change, and never
     * while an attack clip is still short of 0.98 of its length.
     */
    method Animate(playingState: string, normalizedTime: real)
      modifies this`currentAnim, this`requests
      ensures !hasAnimator || enemy == null ==> currentAnim == old(currentAnim) && requests == old(requests)
      ensures hasAnimator && enemy != null ==>
        var next := SelectState(enemy.direction, enemy.isAttacking);
        if Some(next) == old(currentAnim)
           || (IsAttackState(old(currentAnim))
               && IsCurrentStateStillPlaying(hasAnimator, old(currentAnim), playingState, normalizedTime))
        then currentAnim == old(currentAnim) && requests == old(requests)
        else currentAnim == Some(next) && requests == old(requests) + [CrossFade(next, TransitionDuration(smoothFrames), 0)]
    {
      if !hasAnimator || enemy == null { return; }
      var next := SelectState(enemy.direction, enemy.isAttacking);
      if Some(next) != currentAnim {
        if IsAttackState(currentAnim) && IsCurrentStateStillPlaying(hasAnimator, currentAnim, playingState, normalizedTime) {
          return;
        }
        var request := PlayAnimation(hasAnimator, next, smoothFrames, 0);
        if request.Some? {
          requests := requests + [request.value];
        }
        currentAnim := Some(next);
      }
    }
  }
}
