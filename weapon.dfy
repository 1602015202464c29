/** The player's projectile (Bullet.cs): a lifetime, a straight flight and one collision rule. */
module Weapon {
  import opened Wrappers
  import opened Vectors
  import opened HealthRules
  import Combat

  /** How `OnTriggerEnter2D` resolved a collision. */
  datatype Resolution =
    | Ignored           // the Player's own collider: the bullet flies on
    | DamagedEnemy      // an Enemy with a living HealthSystem took `_bulletDmg`
    | Spent             // anything else: destroyed without dealing damage

  /**
   * The collision rule, from the collider's tag, whether it has a HealthSystem and whether
   * that health is above zero.  The bullet survives only its owner's collider, and only a
   * living enemy is damaged.
   */
  function Resolve(tag: Tag, hasHealth: bool, healthPositive: bool): (r: Resolution)
    ensures r == Ignored <==> tag == PlayerTag
    ensures r == DamagedEnemy <==> tag == EnemyTag && hasHealth && healthPositive
    ensures tag == Untagged ==> r == Spent
  {
    if tag == PlayerTag then Ignored
    else if tag == EnemyTag && hasHealth && healthPositive then DamagedEnemy
    else Spent
  }

  class Bullet {
    const bulletSpeed: real
    const maxLifeTime: real
    const bulletDmg: int
    /** The bullet's local up axis, fixed by the fire point's rotation when it is instantiated. */
    const up: Vec2
    var position: Vec2
    /** False once `Destroy(gameObject)` has run. */
    var alive: bool
    /** The time of the destruction `Start` schedules. */
    var destroyAt: Option<real>

    constructor (bulletSpeed: real, maxLifeTime: real, bulletDmg: int, up: Vec2, position: Vec2)
      requires SqrMagnitude(up) == 1.0
      ensures this.bulletSpeed == bulletSpeed && this.maxLifeTime == maxLifeTime
      ensures this.bulletDmg == bulletDmg && this.up == up && this.position == position
      ensures alive && destroyAt == None
    {
      this.bulletSpeed := bulletSpeed;
      this.maxLifeTime := maxLifeTime;
      this.bulletDmg := bulletDmg;
      this.up := up;
      this.position := position;
      alive := true;
      destroyAt := None;
    }

    /** `Start` at time `now` schedules destruction `_maxLifeTime` later. */
    method Start(now: real)
      modifies this`destroyAt
      ensures destroyAt == Some(now + maxLifeTime)
    {
      destroyAt := Some(now + maxLifeTime);
    }

    /** `Update`: `Translate(Vector3.up * speed * dt)` moves along the local up axis. */
    method Update(dt: real)
      modifies this`position
      ensures position == Add(old(position), Scale(Scale(up, bulletSpeed), dt))
      ensures SqrMagnitude(up) == 1.0 ==>
        SqrMagnitude(Sub(position, old(position))) == (bulletSpeed * dt) * (bulletSpeed * dt)
    {
      var step := Scale(Scale(up, bulletSpeed), dt);
      position := Add(position, step);
      assert Sub(position, old(position)) == step;
      ScaleSqrMagnitude(up, bulletSpeed);
      ScaleSqrMagnitude(Scale(up, bulletSpeed), dt);
    }

    /**
     * `OnTriggerEnter2D` for a collider tagged `otherTag` whose own HealthSystem is
     * `health`.  The scheduled lifetime is left as it is.
     */
    method OnTriggerEnter2D(otherTag: Tag, health: Combat.HealthSystem?) returns (r: Resolution)
      requires health != null ==> health.Valid()
      modifies this`alive, if otherTag == EnemyTag && health != null then health.Footprint() else {}
      ensures r == Resolve(otherTag, health != null, health != null && old(health.currentHealth) > 0)
      ensures alive == (old(alive) && r == Ignored)
      ensures r == DamagedEnemy ==> health.DamageTaken(bulletDmg)
      ensures health != null && r != DamagedEnemy ==> unchanged(health.Footprint())
      ensures health != null ==> health.Valid()
    {
      if otherTag == PlayerTag { return Ignored; }
      r := Spent;
      if otherTag == EnemyTag {
        if health != null && health.currentHealth > 0 {
          health.TakeDmg(bulletDmg);
          r := DamagedEnemy;
        }
      }
      alive := false;
    }
  }
}
