/** The player's body and head animation selection (Player/PlayerAnimator.cs). */
module PlayerAnimation {
  import opened Wrappers
  import opened Vectors
  import opened AnimatorExtensions

  /**
   * The `PlayerAnimationState` body names, by facing and by walking or idle. Each starts
   * with `Body_`, so no body name is a head name, and ends in `Walking` exactly when walking.
   */
  function BodyName(f: Facing, walking: bool): (r: string)
    ensures |r| > 5 && r[..5] == "Body_"
    ensures walking <==> |r| >= 7 && r[|r| - 7..] == "Walking"
  {
    match f
    case Front => if walking then "Body_Front_Walking" else "Body_Front_Idle"
    case Back => if walking then "Body_Back_Walking" else "Body_Back_Idle"
    case Left => if walking then "Body_Left_Walking" else "Body_Left_Idle"
    case Right => if walking then "Body_Right_Walking" else "Body_Right_Idle"
  }

  /**
   * The `PlayerAnimationState` head names, by facing and by walking or idle. Each starts
   * with `Head_`, and ends in `Walking` exactly when walking.
   */
  function HeadName(f: Facing, walking: bool): (r: string)
    ensures |r| > 5 && r[..5] == "Head_"
    ensures walking <==> |r| >= 7 && r[|r| - 7..] == "Walking"
  {
    match f
    case Front => if walking then "Head_Front_Walking" else "Head_Front_Idle"
    case Back => if walking then "Head_Back_Walking" else "Head_Back_Idle"
    case Left => if walking then "Head_Left_Walking" else "Head_Left_Idle"
    case Right => if walking then "Head_Right_Walking" else "Head_Right_Idle"
  }

  /** The eight body names are distinct: the name determines the facing and the mode. */
  lemma BodyNamesDistinct(f: Facing, a: bool, g: Facing, b: bool)
    ensures BodyName(f, a) == BodyName(g, b) <==> f == g && a == b
  {
  }

  /** The eight head names are distinct: the name determines the facing and the mode. */
  lemma HeadNamesDistinct(f: Facing, a: bool, g: Facing, b: bool)
    ensures HeadName(f, a) == HeadName(g, b) <==> f == g && a == b
  {
  }

  /** No body name is a head name, so the two layers never request each other's states. */
  lemma BodyAndHeadNamesDisjoint(f: Facing, a: bool, g: Facing, b: bool)
    ensures BodyName(f, a) != HeadName(g, b)
  {
    assert BodyName(f, a)[..5] != HeadName(g, b)[..5];
  }

  /** Walking: the move input is longer than the walk threshold. */
  predicate IsWalking(moveDir: Vec2, walkThreshold: real): (r: bool)
    ensures r ==> moveDir != Zero
    ensures Abs(moveDir.x) > Abs(walkThreshold) ==> r
    ensures Abs(moveDir.y) > Abs(walkThreshold) ==> r
  {
    SquareNonNegative(walkThreshold);
    AxisExceeds(moveDir.x, moveDir.y, walkThreshold);
    AxisExceeds(moveDir.y, moveDir.x, walkThreshold);
    SqrMagnitude(moveDir) > walkThreshold * walkThreshold
  }

  /**
   * The facing vector: from the player to the mouse's world point when there is a camera
   * (`mouseWorld` is that point), and the move input itself when there is none.
   */
  function FaceDirection(mouseWorld: Option<Vec2>, position: Vec2, moveDir: Vec2): (r: Vec2)
    ensures mouseWorld.None? ==> r == moveDir
    ensures mouseWorld.Some? ==> Add(position, r) == mouseWorld.value
  {
    if mouseWorld.Some? then Sub(mouseWorld.value, position) else moveDir
  }

  /**
   * The body state: while walking it faces along the move input and is a walk state;
   * while idle it faces along the facing vector and is an idle state.
   */
  function SelectBody(isWalking: bool, moveDir: Vec2, faceDir: Vec2): (r: string)
    ensures isWalking ==> r == BodyName(Dominant(moveDir), true)
    ensures !isWalking ==> r == BodyName(Dominant(faceDir), false)
  {
    if isWalking then
      if Abs(moveDir.x) > Abs(moveDir.y) then (if moveDir.x > 0.0 then "Body_Right_Walking" else "Body_Left_Walking")
      else (if moveDir.y > 0.0 then "Body_Back_Walking" else "Body_Front_Walking")
    else
      if Abs(faceDir.x) > Abs(faceDir.y) then (if faceDir.x > 0.0 then "Body_Right_Idle" else "Body_Left_Idle")
      else (if faceDir.y > 0.0 then "Body_Back_Idle" else "Body_Front_Idle")
  }

  /** The head state: always facing along the facing vector, walk or idle as the body is. */
  function SelectHead(isWalking: bool, faceDir: Vec2): (r: string)
    ensures r == HeadName(Dominant(faceDir), isWalking)
  {
    if Abs(faceDir.x) > Abs(faceDir.y) then
      if faceDir.x > 0.0 then (if isWalking then "Head_Right_Walking" else "Head_Right_Idle")
      else (if isWalking then "Head_Left_Walking" else "Head_Left_Idle")
    else
      if faceDir.y > 0.0 then (if isWalking then "Head_Back_Walking" else "Head_Back_Idle")
      else (if isWalking then "Head_Front_Walking" else "Head_Front_Idle")
  }

  class PlayerAnimator {
    const hasAnimator: bool
    const smoothFrames: int
    const walkThreshold: real
    /** `_currentBodyAnim` (layer 0) and `_currentHeadAnim` (layer 1), null until first requested. */
    var currentBody: Option<string>
    var currentHead: Option<string>
    /** Every cross-fade requested so far. */
    var requests: seq<CrossFade>

    constructor (hasAnimator: bool, smoothFrames: int, walkThreshold: real)
      ensures this.hasAnimator == hasAnimator && this.smoothFrames == smoothFrames
      ensures this.walkThreshold == walkThreshold
      ensures currentBody == None && currentHead == None && requests == []
    {
      this.hasAnimator := hasAnimator;
      this.smoothFrames := smoothFrames;
      this.walkThreshold := walkThreshold;
      currentBody := None;
      currentHead := None;
      requests := [];
    }

    /**
     * One frame of `Animate`.  `hasInput` says the input handler exists, `mouseWorld` is
     * the mouse's world point (None without a camera) and `position` the player's.
     * Each layer is requested only when its state changes, body before head.
     */
    method Animate(hasInput: bool, moveDir: Vec2, mouseWorld: Option<Vec2>, position: Vec2)
      modifies this`currentBody, this`currentHead, this`requests
      ensures !hasAnimator || !hasInput ==>
        currentBody == old(currentBody) && currentHead == old(currentHead) && requests == old(requests)
      ensures hasAnimator && hasInput ==>
        var walking := IsWalking(moveDir, walkThreshold);
        var face := FaceDirection(mouseWorld, position, moveDir);
        var body := SelectBody(walking, moveDir, face);
        var head := SelectHead(walking, face);
        var d := TransitionDuration(smoothFrames);
        currentBody == Some(body) && currentHead == Some(head)
        && requests == old(requests)
                       + (if Some(body) != old(currentBody) then [CrossFade(body, d, 0)] else [])
                       + (if Some(head) != old(currentHead) then [CrossFade(head, d, 1)] else [])
    {
      if !hasAnimator || !hasInput { return; }
      var walking := IsWalking(moveDir, walkThreshold);
      var face := FaceDirection(mouseWorld, position, moveDir);
      var body := SelectBody(walking, moveDir, face);
      if Some(body) != currentBody {
        var request := PlayAnimation(hasAnimator, body, smoothFrames, 0);
        if request.Some? {
          requests := requests + [request.value];
        }
        currentBody := Some(body);
      }
      var head := SelectHead(walking, face);
      if Some(head) != currentHead {
        var request := PlayAnimation(hasAnimator, head, smoothFrames, 1);
        if request.Some? {
          requests := requests + [request.value];
        }
        currentHead := Some(head);
      }
    }
  }
}
