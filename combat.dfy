/**
 * The two gameplay objects that call each other: the health component
 * (HealthSystem.cs), whose death dispatch calls `Enemy.Die`, and the enemy agent
 * (Enemy/Enemy.cs), whose `Attack` calls `HealthSystem.TakeDmg`.  They share a module
 * because Dafny modules cannot import each other in a cycle.
 */
module Combat {
  import opened Wrappers
  import opened Vectors
  import opened HealthRules
  import Score
  import UnityRandom

  /** A health component attached to one GameObject (an enemy, the player, or other). */
  class HealthSystem {
    const maxHealth: int
    /** The tag of the owning GameObject, compared by HandleDeath. */
    const tag: Tag
    /** `GetComponent<Enemy>()` on the owning GameObject, or null. */
    const owner: Enemy?
    /** Whether `GameManager.Instance` exists. */
    const hasGameManager: bool
    var currentHealth: int
    /** Every notification fired so far, in order. */
    var events: seq<HealthEvent>
    /** Every TakeDmg and Heal call made so far, accepted or refused. */
    ghost var history: seq<Call>

    /** The objects a damage call may change: this component and, through Die, its enemy and the score ledger. */
    function Footprint(): set<object> {
      if owner == null then {this} else {this, owner, owner.ledger}
    }

    function Dispatcher(): Dispatch {
      Dispatch(tag, owner != null, hasGameManager)
    }

    /**
     * The component's state is the replay of its calls from full health: the Awake
     * announcement, then exactly the notifications the calls fired.
     */
    ghost predicate Valid()
      reads this
    {
      |events| >= 1 && events[0] == HealthChanged(maxHealth)
      && Replay(maxHealth, Dispatcher(), maxHealth, history) == Run(currentHealth, events[1..])
    }

    /** What the invariant gives: at most one death notification, and health in range for non-negative amounts. */
    lemma ValidConsequences()
      requires Valid()
      ensures Deaths(events) <= 1
      ensures maxHealth >= 0 && NonNegativeAmounts(history) ==> 0 <= currentHealth <= maxHealth
    {
      assert events == [events[0]] + events[1..];
      DeathsAppend([events[0]], events[1..]);
      DeathAtMostOnce(maxHealth, Dispatcher(), maxHealth, history);
      if maxHealth >= 0 && NonNegativeAmounts(history) {
        HealthStaysInRange(maxHealth, Dispatcher(), maxHealth, history);
      }
    }

    /** `Awake` calls `ResetHealth`: full health, announced once. */
    constructor (maxHealth: int, tag: Tag, owner: Enemy?, hasGameManager: bool)
      ensures this.maxHealth == maxHealth && this.tag == tag && this.owner == owner
      ensures this.hasGameManager == hasGameManager
      ensures currentHealth == maxHealth && events == [HealthChanged(maxHealth)]
      ensures history == [] && Valid()
    {
      this.maxHealth := maxHealth;
      this.tag := tag;
      this.owner := owner;
      this.hasGameManager := hasGameManager;
      currentHealth := maxHealth;
      events := [HealthChanged(maxHealth)];
      history := [];
    }

    /** `IsAlive`: exactly when it holds, every damage or heal call is accepted; otherwise each is refused. */
    predicate IsAlive(): (r: bool)
      reads this
      ensures r ==> forall c :: Apply(maxHealth, currentHealth, c).Applied?
      ensures !r ==> forall c :: Apply(maxHealth, currentHealth, c) == Refused
    {
      HealthRules.IsAlive(currentHealth)
    }

    twostate predicate OwnerUnchanged()
      reads Footprint()
    {
      owner != null ==> owner.Untouched()
    }

    /**
     * The state after `TakeDmg(amount)`: nothing changes when the call is refused;
     * otherwise the new health is announced, and a lethal call fires the death dispatch,
     * which for an enemy with an Enemy component runs its Die.
     */
    twostate predicate DamageTaken(amount: int)
      reads Footprint()
    {
      var s := DamageStep(old(currentHealth), amount);
      if s.Refused? then
        currentHealth == old(currentHealth) && events == old(events) && OwnerUnchanged()
      else
        currentHealth == s.health
        && events == old(events) + StepEvents(s, Dispatcher())
        && if s.died && tag == EnemyTag && owner != null then owner.DiedInPlay() else OwnerUnchanged()
    }

    method TakeDmg(amount: int)
      requires Valid()
      modifies Footprint()
      ensures DamageTaken(amount)
      ensures history == old(history) + [Damage(amount)] && Valid()
      ensures Deaths(events) <= 1
    {
      ghost var step := DamageStep(currentHealth, amount);
      ghost var before := events;
      ReplaySnoc(maxHealth, Dispatcher(), maxHealth, history, Damage(amount));
      history := history + [Damage(amount)];
      if !IsAlive() {
        ValidConsequences();
        return;
      }
      currentHealth := currentHealth - amount;
      if currentHealth < 0 {
        currentHealth := 0;
      }
      events := events + [HealthChanged(currentHealth)];
      if currentHealth <= 0 {
        HandleDeath();
      }
      assert events == before + StepEvents(step, Dispatcher());
      TailOfAppend(before, StepEvents(step, Dispatcher()));
      ValidConsequences();
    }

    /** The state after `Heal(amount)`: unchanged when refused, otherwise the capped health, announced. */
    twostate predicate Healed(amount: int)
      reads this
    {
      var s := HealStep(maxHealth, old(currentHealth), amount);
      if s.Refused? then currentHealth == old(currentHealth) && events == old(events)
      else currentHealth == s.health && events == old(events) + [HealthChanged(s.health)]
    }

    method Heal(amount: int)
      requires Valid()
      modifies this
      ensures Healed(amount)
      ensures history == old(history) + [HealthRules.Heal(amount)] && Valid()
    {
      ReplaySnoc(maxHealth, Dispatcher(), maxHealth, history, HealthRules.Heal(amount));
      history := history + [HealthRules.Heal(amount)];
      if !IsAlive() { return; }
      ghost var before := events;
      currentHealth := Min(currentHealth + amount, maxHealth);
      events := events + [HealthChanged(currentHealth)];
      TailOfAppend(before, [HealthChanged(currentHealth)]);
    }

    /** The death dispatch on the owner's tag; health is left as it is. */
    method HandleDeath()
      modifies Footprint()
      ensures currentHealth == old(currentHealth) && history == old(history)
      ensures events == old(events) + DeathEvents(tag, owner != null, hasGameManager)
      ensures if tag == EnemyTag && owner != null then owner.DiedInPlay() else OwnerUnchanged()
    {
      events := events + [DeathNotified];
      if tag == EnemyTag {
        if owner != null {
          events := events + [EnemyDieCalled];
          owner.Die();
        }
      } else if tag == PlayerTag {
        if hasGameManager {
          events := events + [GameOverRequested];
        }
        events := events + [DestroyScheduled(PlayerDestroyDelay)];
      }
    }
  }

  lemma TailOfAppend<T>(a: seq<T>, b: seq<T>)
    requires |a| >= 1
    ensures (a + b)[1..] == a[1..] + b
  {
  }

  /** What `Enemy.Attack` ended with. */
  datatype AttackOutcome =
    | Missed            // the range query found nothing
    | HealthNotFound    // a hit without a HealthSystem: only a warning is logged
    | Struck            // `_enemyDamage` was dealt to the hit's HealthSystem

  /**
   * The number of orbs `DropHealthOrb` draws: `Random.Range(min, max + 1)` over the
   * normalised range, so both ends are included even when the range is given reversed.
   */
  function OrbCount(x: int, y: int, pick: nat): (r: int)
    ensures Min(x, y) <= r <= Max(x, y)
  {
    UnityRandom.Range(Min(x, y), Max(x, y) + 1, pick)
  }

  /** Every count in the normalised range, its maximum included, is drawn by some pick. */
  lemma OrbCountCoversRange(x: int, y: int, n: int)
    requires Min(x, y) <= n <= Max(x, y)
    ensures OrbCount(x, y, (n - Min(x, y)) as nat) == n
  {
    UnityRandom.RangeCoversAll(Min(x, y), Max(x, y) + 1, n);
  }

  /** An orb dropped at `offset` (a point of the unit disc) scaled by `radius` lies within `radius` of the enemy. */
  lemma OrbWithinSpawnRadius(position: Vec2, offset: Vec2, radius: real)
    requires SqrMagnitude(offset) <= 1.0
    ensures SqrMagnitude(Sub(Add(position, Scale(offset, radius)), position)) <= radius * radius
  {
    assert Sub(Add(position, Scale(offset, radius)), position) == Scale(offset, radius);
    ScaleSqrMagnitude(offset, radius);
    assert radius * radius * SqrMagnitude(offset) <= radius * radius * 1.0;
  }

  /** An enemy agent: seeks the player, stops to attack when in range, drops orbs when killed. */
  class Enemy {
    const moveSpeed: real
    const enemyDamage: int
    /** Whether the `_healthOrb` prefab is set. */
    const hasOrbPrefab: bool
    /** `_orbCountRange.x` and `_orbCountRange.y`, in either order. */
    const orbRangeX: int
    const orbRangeY: int
    const scoreIncrease: int
    const orbSpawnRadius: real
    /** `ScoreManager.Instance`. */
    const ledger: Score.ScoreManager
    var position: Vec2
    var direction: Vec2
    var isAttacking: bool
    /** Set by Die: the destruction that follows is a gameplay death. */
    var shouldSpawnOrb: bool
    /** `Destroy(gameObject)` has been requested. */
    var destroyRequested: bool

    constructor (moveSpeed: real, enemyDamage: int, hasOrbPrefab: bool, orbRangeX: int, orbRangeY: int,
                 scoreIncrease: int, orbSpawnRadius: real, ledger: Score.ScoreManager, position: Vec2)
      ensures this.moveSpeed == moveSpeed && this.enemyDamage == enemyDamage
      ensures this.hasOrbPrefab == hasOrbPrefab && this.orbRangeX == orbRangeX && this.orbRangeY == orbRangeY
      ensures this.scoreIncrease == scoreIncrease && this.orbSpawnRadius == orbSpawnRadius
      ensures this.ledger == ledger && this.position == position
      ensures direction == Zero && !isAttacking && !shouldSpawnOrb && !destroyRequested
    {
      this.moveSpeed := moveSpeed;
      this.enemyDamage := enemyDamage;
      this.hasOrbPrefab := hasOrbPrefab;
      this.orbRangeX := orbRangeX;
      this.orbRangeY := orbRangeY;
      this.scoreIncrease := scoreIncrease;
      this.orbSpawnRadius := orbSpawnRadius;
      this.ledger := ledger;
      this.position := position;
      direction := Zero;
      isAttacking := false;
      shouldSpawnOrb := false;
      destroyRequested := false;
    }

    /** The state after Die: flagged for orbs, destruction requested, score credited, nothing else changed. */
    twostate predicate DiedInPlay()
      reads this, ledger
    {
      shouldSpawnOrb && destroyRequested
      && position == old(position) && direction == old(direction) && isAttacking == old(isAttacking)
      && ledger.score == Score.Credit(old(ledger.score), scoreIncrease)
      && ledger.ops == old(ledger.ops) + [Score.ScoreOp.AddScore(scoreIncrease)]
      && (old(ledger.Valid()) ==> ledger.Valid())
    }

    twostate predicate Untouched()
      reads this, ledger
    {
      unchanged(this) && unchanged(ledger)
    }

    /**
     * One frame: first MoveTowardsPlayer, which decides on the previous frame's
     * `isAttacking`, then InAttackRange.  `player` is the player's position (None when
     * there is no player), `mag` the distance to it, `inRange` the result of the range query.
     */
    method Update(dt: real, player: Option<Vec2>, mag: real, inRange: bool)
      requires player.Some? ==> IsMagnitude(Sub(player.value, position), mag)
      modifies this`position, this`direction, this`isAttacking
      ensures player.None? ==> direction == old(direction)
      ensures player.Some? ==> direction == Normalized(Sub(player.value, old(position)), mag)
      ensures position == if player.Some? && !old(isAttacking)
                          then Add(old(position), Scale(Scale(direction, moveSpeed), dt))
                          else old(position)
      ensures isAttacking == inRange
    {
      MoveTowardsPlayer(dt, player, mag);
      InAttackRange(inRange);
    }

    method MoveTowardsPlayer(dt: real, player: Option<Vec2>, mag: real)
      requires player.Some? ==> IsMagnitude(Sub(player.value, position), mag)
      modifies this`position, this`direction
      ensures player.None? ==> direction == old(direction) && position == old(position)
      ensures player.Some? ==> direction == Normalized(Sub(player.value, old(position)), mag)
      ensures player.Some? && isAttacking ==> position == old(position)
      ensures player.Some? && !isAttacking ==> position == Add(old(position), Scale(Scale(direction, moveSpeed), dt))
    {
      if player.None? { return; }
      direction := Normalized(Sub(player.value, position), mag);
      if isAttacking { return; }
      position := Add(position, Scale(Scale(direction, moveSpeed), dt));
    }

    method InAttackRange(hit: bool)
      modifies this`isAttacking
      ensures isAttacking == hit
    {
      isAttacking := hit;
    }

    /**
     * `Attack`, run by the animation: `hit` is the range query's result and `target` the
     * HealthSystem found in the hit's parents.
     */
    method Attack(hit: bool, target: HealthSystem?) returns (outcome: AttackOutcome)
      requires target != null ==> target.Valid()
      modifies if hit && target != null then target.Footprint() else {}
      ensures outcome == if !hit then Missed else if target == null then HealthNotFound else Struck
      ensures outcome == Struck ==> target.DamageTaken(enemyDamage) && target.Valid()
    {
      if !hit { return Missed; }
      if target == null { return HealthNotFound; }
      target.TakeDmg(enemyDamage);
      outcome := Struck;
    }

    method Die()
      modifies this`shouldSpawnOrb, this`destroyRequested, ledger
      ensures DiedInPlay()
    {
      shouldSpawnOrb := true;
      ledger.AddScore(scoreIncrease);
      destroyRequested := true;
    }

    /**
     * `OnDestroy`: orbs drop only when the application is playing and the destruction
     * follows Die.  `pick` is the count draw and `offsets(i)` the i-th `insideUnitCircle`
     * draw, a point of the unit disc.
     */
    method OnDestroy(isPlaying: bool, pick: nat, offsets: nat -> Vec2) returns (orbs: seq<Vec2>)
      requires forall i :: SqrMagnitude(offsets(i)) <= 1.0
      ensures orbs != [] ==> isPlaying && shouldSpawnOrb && hasOrbPrefab
      ensures isPlaying && shouldSpawnOrb && hasOrbPrefab ==>
        |orbs| == Max(0, OrbCount(orbRangeX, orbRangeY, pick))
      ensures forall i :: 0 <= i < |orbs| ==> orbs[i] == Add(position, Scale(offsets(i), orbSpawnRadius))
      ensures forall i :: 0 <= i < |orbs| ==>
        SqrMagnitude(Sub(orbs[i], position)) <= orbSpawnRadius * orbSpawnRadius
    {
      if !isPlaying || !shouldSpawnOrb { return []; }
      orbs := DropHealthOrb(pick, offsets);
    }

    /** The spawn positions of the orbs `DropHealthOrb` instantiates. */
    method DropHealthOrb(pick: nat, offsets: nat -> Vec2) returns (orbs: seq<Vec2>)
      requires forall i :: SqrMagnitude(offsets(i)) <= 1.0
      ensures !hasOrbPrefab ==> orbs == []
      ensures hasOrbPrefab ==> |orbs| == Max(0, OrbCount(orbRangeX, orbRangeY, pick))
      ensures forall i :: 0 <= i < |orbs| ==> orbs[i] == Add(position, Scale(offsets(i), orbSpawnRadius))
      ensures forall i :: 0 <= i < |orbs| ==>
        SqrMagnitude(Sub(orbs[i], position)) <= orbSpawnRadius * orbSpawnRadius
    {
      orbs := [];
      if !hasOrbPrefab { return; }
      var lo := Min(orbRangeX, orbRangeY);
      var hi := Max(orbRangeX, orbRangeY);
      var count := UnityRandom.Range(lo, hi + 1, pick);
      var i := 0;
      while i < count
        invariant 0 <= i && (count >= 0 ==> i <= count) && (count < 0 ==> i == 0)
        invariant |orbs| == i
        invariant forall j :: 0 <= j < i ==> orbs[j] == Add(position, Scale(offsets(j), orbSpawnRadius))
      {
        orbs := orbs + [Add(position, Scale(offsets(i), orbSpawnRadius))];
        i := i + 1;
      }
      forall i | 0 <= i < |orbs|
        ensures SqrMagnitude(Sub(orbs[i], position)) <= orbSpawnRadius * orbSpawnRadius
      {
        OrbWithinSpawnRadius(position, offsets(i), orbSpawnRadius);
      }
    }
  }
}
