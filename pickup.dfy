/** The health orb pickup (HealthOrb.cs): attraction to the player, healing on contact, a shared sound cooldown. */
module Pickup {
  import opened Wrappers
  import opened Vectors
  import opened HealthRules
  import Combat

  /** A handle to a live entity; a destroyed entity's handle is no longer in the live table. */
  type EntityId = nat

  /** `SOUND_INTERVAL`: the least time between two pickup sounds, over all orbs. */
  const SoundInterval: real := 0.1

  /** The pickup sound may play: at least SoundInterval after the last one, so strictly later. */
  predicate SoundDue(now: real, lastSoundTime: real): (r: bool)
    ensures r <==> now >= lastSoundTime + SoundInterval
    ensures r ==> now > lastSoundTime
  {
    now - lastSoundTime >= SoundInterval
  }

  /** The times at which the pickup sound plays, for pickups at the given times. */
  function SoundTimes(lastSoundTime: real, pickups: seq<real>): seq<real>
    decreases |pickups|
  {
    if pickups == [] then []
    else if SoundDue(pickups[0], lastSoundTime) then [pickups[0]] + SoundTimes(pickups[0], pickups[1..])
    else SoundTimes(lastSoundTime, pickups[1..])
  }

  /**
   * However many orbs are collected and whenever, every pickup sound comes at least
   * SoundInterval after the previous one (and after the last sound before the run).
   */
  lemma {:induction false} SoundsRateLimited(lastSoundTime: real, pickups: seq<real>)
    ensures var t := SoundTimes(lastSoundTime, pickups);
      (|t| > 0 ==> t[0] - lastSoundTime >= SoundInterval)
      && forall i :: 0 <= i < |t| - 1 ==> t[i + 1] - t[i] >= SoundInterval
    decreases |pickups|
  {
    if pickups != [] {
      if SoundDue(pickups[0], lastSoundTime) {
        SoundsRateLimited(pickups[0], pickups[1..]);
        var rest := SoundTimes(pickups[0], pickups[1..]);
        var t := [pickups[0]] + rest;
        forall i | 0 <= i < |t| - 1 ensures t[i + 1] - t[i] >= SoundInterval {
          if i > 0 {
            assert t[i] == rest[i - 1] && t[i + 1] == rest[i];
          }
        }
      } else {
        SoundsRateLimited(lastSoundTime, pickups[1..]);
      }
    }
  }

  /** The static `_lastPickupSoundTime`, one object shared by every orb. */
  class PickupSoundClock {
    var lastPickupSoundTime: real

    constructor ()
      ensures lastPickupSoundTime == 0.0
    {
      lastPickupSoundTime := 0.0;
    }
  }

  /** How a contact ended. */
  datatype ContactOutcome =
    | NotPlayer        // not the player's collider: nothing happens
    | Consumed         // the player was healed and the orb destroyed
    | MissingHealth    // no HealthSystem in the player's parents: Heal throws and the orb stays

  predicate Live(target: Option<EntityId>, world: map<EntityId, Vec2>) {
    target.Some? && target.value in world
  }

  class HealthOrb {
    const healthRestoreAmount: int
    const attractSpeed: real
    const clock: PickupSoundClock
    var position: Vec2
    var target: Option<EntityId>
    var isAttracted: bool
    /** False once `Destroy(gameObject)` has run. */
    var alive: bool

    constructor (healthRestoreAmount: int, attractSpeed: real, clock: PickupSoundClock, position: Vec2)
      ensures this.healthRestoreAmount == healthRestoreAmount && this.attractSpeed == attractSpeed
      ensures this.clock == clock && this.position == position
      ensures target == None && !isAttracted && alive
    {
      this.healthRestoreAmount := healthRestoreAmount;
      this.attractSpeed := attractSpeed;
      this.clock := clock;
      this.position := position;
      target := None;
      isAttracted := false;
      alive := true;
    }

    /**
     * `PlayerAttraction`, run every frame.  `hit` is the detection query's result, `world`
     * the positions of the entities still alive, and `dist` the distance to the target.
     */
    method PlayerAttraction(dt: real, hit: Option<EntityId>, world: map<EntityId, Vec2>, dist: real)
      requires isAttracted && Live(target, world) ==> IsMagnitude(Sub(world[target.value], position), dist)
      modifies this`position, this`target, this`isAttracted
      ensures !old(isAttracted) && hit.Some? ==> target == hit && isAttracted && position == old(position)
      ensures !old(isAttracted) && hit.None? ==>
        target == old(target) && !isAttracted && position == old(position)
      ensures old(isAttracted) && !Live(old(target), world) ==>
        !isAttracted && target == old(target) && position == old(position)
      ensures old(isAttracted) && Live(old(target), world) ==>
        isAttracted && target == old(target)
        && position == MoveTowards(old(position), world[target.value], attractSpeed * dt, dist)
    {
      if !isAttracted {
        if hit.Some? {
          target := hit;
          isAttracted := true;
        }
      } else {
        if !Live(target, world) {
          isAttracted := false;
          return;
        }
        position := MoveTowards(position, world[target.value], attractSpeed * dt, dist);
      }
    }

    /**
     * `OnTriggerEnter2D` at time `now` with a collider tagged `otherTag`; `health` is
     * what `GetComponentInParent<HealthSystem>()` finds.  The sound check runs before Heal.
     */
    method OnTriggerEnter2D(otherTag: Tag, now: real, health: Combat.HealthSystem?)
      returns (outcome: ContactOutcome, soundPlayed: bool)
      requires health != null ==> health.Valid()
      modifies clock, this`alive, if otherTag == PlayerTag && health != null then {health} else {}
      ensures otherTag != PlayerTag ==>
        outcome == NotPlayer && !soundPlayed && alive == old(alive)
        && clock.lastPickupSoundTime == old(clock.lastPickupSoundTime)
      ensures otherTag == PlayerTag ==>
        soundPlayed == SoundDue(now, old(clock.lastPickupSoundTime))
        && clock.lastPickupSoundTime == if soundPlayed then now else old(clock.lastPickupSoundTime)
      ensures otherTag == PlayerTag && health == null ==> outcome == MissingHealth && alive == old(alive)
      ensures otherTag == PlayerTag && health != null ==>
        outcome == Consumed && !alive && health.Healed(healthRestoreAmount) && health.Valid()
    {
      soundPlayed := false;
      if otherTag != PlayerTag { return NotPlayer, false; }
      if SoundDue(now, clock.lastPickupSoundTime) {
        soundPlayed := true;
        clock.lastPickupSoundTime := now;
      }
      if health == null { return MissingHealth, soundPlayed; }
      health.Heal(healthRestoreAmount);
      alive := false;
      outcome := Consumed;
    }
  }
}
