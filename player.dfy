/** The player's fire and footstep gating (Player/PlayerController.cs). */
module PlayerControl {
  import opened Vectors
  import opened HealthRules
  import Combat

  /** The squared input length above which the player counts as moving. */
  const MovingThreshold: real := 0.01

  /** Moving: the input is longer than 0.1, the square root of the threshold. */
  predicate IsMoving(moveDir: Vec2): (r: bool)
    ensures r ==> moveDir != Zero
    ensures Abs(moveDir.x) > 0.1 ==> r
    ensures Abs(moveDir.y) > 0.1 ==> r
  {
    AxisExceeds(moveDir.x, moveDir.y, 0.1);
    AxisExceeds(moveDir.y, moveDir.x, 0.1);
    SqrMagnitude(moveDir) > MovingThreshold
  }

  /** A cooldown timer after one frame: it runs down by `dt` only while it is positive. */
  function Countdown(timer: real, dt: real): (r: real)
    ensures timer <= 0.0 ==> r == timer
    ensures timer > 0.0 && dt >= 0.0 ==> r <= timer
    ensures timer > 0.0 && dt > 0.0 ==> r < timer
  {
    if timer > 0.0 then timer - dt else timer
  }

  /** `Fire`'s gate: not over UI, firing held, cooldown run out, and health strictly above the cost. */
  predicate MayFire(pointerOverUI: bool, isFiring: bool, cooldown: real, health: int, bulletCost: int): (r: bool)
    ensures r ==> health - bulletCost >= 1
    ensures !pointerOverUI && isFiring && cooldown <= 0.0 && !r ==> health <= bulletCost
  {
    !pointerOverUI && isFiring && cooldown <= 0.0 && health > bulletCost
  }

  /**
   * A shot the gate lets through never kills: the player either is already dead (and the
   * damage is refused) or keeps `health - cost`, which is above zero.
   */
  lemma FiringNeverKills(pointerOverUI: bool, isFiring: bool, cooldown: real, health: int, bulletCost: int)
    requires MayFire(pointerOverUI, isFiring, cooldown, health, bulletCost)
    ensures IsAlive(health) ==> DamageStep(health, bulletCost) == Applied(health - bulletCost, false)
    ensures !IsAlive(health) ==> DamageStep(health, bulletCost) == Refused
  {
  }

  class PlayerController {
    const moveSpeed: real
    const fireRate: real
    const bulletCost: int
    const moveSoundInterval: real
    /** `_playerHealth`, the HealthSystem on the player. */
    const health: Combat.HealthSystem
    var position: Vec2
    var fireCooldown: real
    var isFiring: bool
    var moveSoundTimer: real

    constructor (moveSpeed: real, fireRate: real, bulletCost: int, moveSoundInterval: real,
                 health: Combat.HealthSystem, position: Vec2)
      ensures this.moveSpeed == moveSpeed && this.fireRate == fireRate && this.bulletCost == bulletCost
      ensures this.moveSoundInterval == moveSoundInterval && this.health == health && this.position == position
      ensures fireCooldown == 0.0 && !isFiring && moveSoundTimer == 0.0
    {
      this.moveSpeed := moveSpeed;
      this.fireRate := fireRate;
      this.bulletCost := bulletCost;
      this.moveSoundInterval := moveSoundInterval;
      this.health := health;
      this.position := position;
      fireCooldown := 0.0;
      isFiring := false;
      moveSoundTimer := 0.0;
    }

    /**
     * One frame: MovePlayer, then Fire, then both timers run down.  `footstep` says the
     * move sound played and `fired` that a bullet was instantiated.
     */
    method Update(dt: real, moveDir: Vec2, pointerOverUI: bool, hasAudio: bool) returns (footstep: bool, fired: bool)
      requires health.Valid()
      modifies this`position, this`fireCooldown, this`moveSoundTimer, health.Footprint()
      ensures footstep == (IsMoving(moveDir) && old(moveSoundTimer) <= 0.0 && hasAudio)
      ensures position == Add(old(position), Scale(moveDir, moveSpeed * dt))
      ensures fired == MayFire(pointerOverUI, isFiring, old(fireCooldown), old(health.currentHealth), bulletCost)
      ensures moveSoundTimer == Countdown(if footstep then moveSoundInterval else old(moveSoundTimer), dt)
      ensures fireCooldown == Countdown(if fired then fireRate else old(fireCooldown), dt)
      ensures fired ==> health.DamageTaken(bulletCost)
      ensures health.Valid()
      ensures fired && old(health.currentHealth) > 0 ==>
        health.currentHealth == old(health.currentHealth) - bulletCost > 0
      ensures !fired ==> unchanged(health.Footprint())
    {
      footstep := MovePlayer(dt, moveDir, hasAudio);
      fired := Fire(pointerOverUI);
      if fireCooldown > 0.0 {
        fireCooldown := fireCooldown - dt;
      }
      if moveSoundTimer > 0.0 {
        moveSoundTimer := moveSoundTimer - dt;
      }
    }

    method MovePlayer(dt: real, moveDir: Vec2, hasAudio: bool) returns (footstep: bool)
      modifies this`position, this`moveSoundTimer
      ensures footstep == (IsMoving(moveDir) && old(moveSoundTimer) <= 0.0 && hasAudio)
      ensures moveSoundTimer == if footstep then moveSoundInterval else old(moveSoundTimer)
      ensures position == Add(old(position), Scale(moveDir, moveSpeed * dt))
    {
      footstep := IsMoving(moveDir) && moveSoundTimer <= 0.0 && hasAudio;
      if footstep {
        moveSoundTimer := moveSoundInterval;
      }
      position := Add(position, Scale(moveDir, moveSpeed * dt));
    }

    method Fire(pointerOverUI: bool) returns (fired: bool)
      requires health.Valid()
      modifies this`fireCooldown, health.Footprint()
      ensures fired == MayFire(pointerOverUI, isFiring, old(fireCooldown), old(health.currentHealth), bulletCost)
      ensures fireCooldown == if fired then fireRate else old(fireCooldown)
      ensures fired ==> health.DamageTaken(bulletCost)
      ensures health.Valid()
      ensures fired && old(health.currentHealth) > 0 ==>
        health.currentHealth == old(health.currentHealth) - bulletCost > 0
      ensures !fired ==> unchanged(health.Footprint())
    {
      fired := MayFire(pointerOverUI, isFiring, fireCooldown, health.currentHealth, bulletCost);
      if !fired { return; }
      FiringNeverKills(pointerOverUI, isFiring, fireCooldown, health.currentHealth, bulletCost);
      health.TakeDmg(bulletCost);
      fireCooldown := fireRate;
    }

    /** The `OnFire` input callback. */
    method Firing(isFiring: bool)
      modifies this`isFiring
      ensures this.isFiring == isFiring
    {
      this.isFiring := isFiring;
    }
  }
}
