/**
 * The decision rules of the health component (HealthSystem.cs), as values: one damage or
 * heal call, the notifications it fires, and whole sequences of calls.
 */
module HealthRules {
  /** The Unity tag of the GameObject that owns a health component. */
  datatype Tag = Untagged | EnemyTag | PlayerTag

  /** What a health component announces, in the order it announces it. */
  datatype HealthEvent =
    | HealthChanged(value: int)       // OnHealthChanged.Invoke(currentHealth)
    | DeathNotified                   // OnDeath.Invoke()
    | EnemyDieCalled                  // GetComponent<Enemy>()?.Die() found an Enemy
    | GameOverRequested               // GameManager.Instance.ShowGameOver()
    | DestroyScheduled(delay: real)   // Destroy(gameObject, delay)

  /** The outcome of one damage or heal call: refused, or applied with the new health. */
  datatype Step = Refused | Applied(health: int, died: bool)

  /** The grace delay before a dead player is destroyed. */
  const PlayerDestroyDelay: real := 0.1

  /** `IsAlive`: health strictly above zero. */
  predicate IsAlive(health: int) { health > 0 }

  function Max(a: int, b: int): int { if a < b then b else a }

  function Min(a: int, b: int): int { if a < b then a else b }

  /**
   * `TakeDmg(amount)`: refused when dead; otherwise health drops by `amount`, clamped at
   * zero, and the call is a death exactly when the clamped health is zero.
   */
  function DamageStep(health: int, amount: int): (r: Step)
    ensures r.Refused? <==> !IsAlive(health)
    ensures r.Applied? ==> r.health == Max(0, health - amount)
    ensures r.Applied? ==> (r.died <==> r.health == 0)
    ensures r.Applied? && amount >= 0 ==> r.health <= health
  {
    if !IsAlive(health) then Refused
    else
      var h := health - amount;
      var clamped := if h < 0 then 0 else h;
      Applied(clamped, clamped <= 0)
  }

  /**
   * `Heal(amount)`: refused when dead; otherwise health rises by `amount`, capped at
   * `maxHealth`.  A heal never reports a death.
   */
  function HealStep(maxHealth: int, health: int, amount: int): (r: Step)
    ensures r.Refused? <==> !IsAlive(health)
    ensures r.Applied? ==> r.health == Min(health + amount, maxHealth) && !r.died
    ensures r.Applied? && amount >= 0 && health <= maxHealth ==> health <= r.health <= maxHealth
  {
    if !IsAlive(health) then Refused
    else Applied(Min(health + amount, maxHealth), false)
  }

  /**
   * `HandleDeath`: the death notification first, then the reaction chosen by the owner's
   * tag -- an enemy's Die (when it has an Enemy component), or a player's game-over
   * request (when a game manager exists) followed by its delayed destruction.
   */
  function DeathEvents(tag: Tag, hasEnemy: bool, hasGameManager: bool): (r: seq<HealthEvent>)
    ensures |r| >= 1 && r[0] == DeathNotified && DeathNotified !in r[1..]
    ensures EnemyDieCalled in r <==> tag == EnemyTag && hasEnemy
    ensures GameOverRequested in r <==> tag == PlayerTag && hasGameManager
    ensures DestroyScheduled(PlayerDestroyDelay) in r <==> tag == PlayerTag
    ensures tag == Untagged ==> r == [DeathNotified]
  {
    [DeathNotified] +
    match tag
    case EnemyTag => if hasEnemy then [EnemyDieCalled] else []
    case PlayerTag => (if hasGameManager then [GameOverRequested] else []) + [DestroyScheduled(PlayerDestroyDelay)]
    case Untagged => []
  }

  /** One call on a health component. */
  datatype Call = Damage(amount: int) | Heal(amount: int)

  function Apply(maxHealth: int, health: int, c: Call): Step {
    match c
    case Damage(a) => DamageStep(health, a)
    case Heal(a) => HealStep(maxHealth, health, a)
  }

  /** What decides the death dispatch: the owner's tag and which collaborators exist. */
  datatype Dispatch = Dispatch(tag: Tag, hasEnemy: bool, hasGameManager: bool)

  lemma DeathEventsCountOne(d: Dispatch)
    ensures Deaths(DeathEvents(d.tag, d.hasEnemy, d.hasGameManager)) == 1
  {
    var r := DeathEvents(d.tag, d.hasEnemy, d.hasGameManager);
    assert r == [DeathNotified] + r[1..];
    DeathsAppend([DeathNotified], r[1..]);
    DeathsAbsent(r[1..]);
  }

  lemma {:induction false} DeathsAbsent(events: seq<HealthEvent>)
    requires DeathNotified !in events
    ensures Deaths(events) == 0
  {
    if events != [] {
      assert events[0] in events;
      assert forall i :: 0 <= i < |events[1..]| ==> events[1..][i] == events[i + 1];
      DeathsAbsent(events[1..]);
    }
  }

  /** The notifications of an applied step: the change, then the death dispatch when it killed. */
  function StepEvents(s: Step, d: Dispatch): seq<HealthEvent>
    requires s.Applied?
  {
    [HealthChanged(s.health)] + if s.died then DeathEvents(d.tag, d.hasEnemy, d.hasGameManager) else []
  }

  lemma StepEventsDeaths(s: Step, d: Dispatch)
    requires s.Applied?
    ensures Deaths(StepEvents(s, d)) == if s.died then 1 else 0
  {
    var death := if s.died then DeathEvents(d.tag, d.hasEnemy, d.hasGameManager) else [];
    DeathsAppend([HealthChanged(s.health)], death);
    assert Deaths([HealthChanged(s.health)]) == 0;
    if s.died {
      DeathEventsCountOne(d);
    }
  }

  /** The final health and every notification of a sequence of calls. */
  datatype Run = Run(health: int, events: seq<HealthEvent>)

  function Replay(maxHealth: int, d: Dispatch, health: int, calls: seq<Call>): Run
    decreases |calls|
  {
    if calls == [] then Run(health, [])
    else
      var s := Apply(maxHealth, health, calls[0]);
      if s.Refused? then Replay(maxHealth, d, health, calls[1..])
      else
        var rest := Replay(maxHealth, d, s.health, calls[1..]);
        Run(rest.health, StepEvents(s, d) + rest.events)
  }

  /** Replaying one more call extends the run by that call's step. */
  lemma {:induction false} ReplaySnoc(maxHealth: int, d: Dispatch, health: int, calls: seq<Call>, c: Call)
    ensures var r := Replay(maxHealth, d, health, calls);
      var s := Apply(maxHealth, r.health, c);
      Replay(maxHealth, d, health, calls + [c])
        == if s.Refused? then r else Run(s.health, r.events + StepEvents(s, d))
    decreases |calls|
  {
    if calls == [] {
      assert calls + [c] == [c];
      assert [c][1..] == [];
    } else {
      assert (calls + [c])[0] == calls[0];
      assert (calls + [c])[1..] == calls[1..] + [c];
      var s0 := Apply(maxHealth, health, calls[0]);
      if s0.Refused? {
        ReplaySnoc(maxHealth, d, health, calls[1..], c);
      } else {
        ReplaySnoc(maxHealth, d, s0.health, calls[1..], c);
      }
    }
  }

  /** The number of death notifications in a list of events. */
  function Deaths(events: seq<HealthEvent>): nat {
    if events == [] then 0
    else (if events[0] == DeathNotified then 1 else 0) + Deaths(events[1..])
  }

  lemma {:induction false} DeathsAppend(a: seq<HealthEvent>, b: seq<HealthEvent>)
    ensures Deaths(a + b) == Deaths(a) + Deaths(b)
  {
    if a == [] {
      assert a + b == b;
    } else {
      assert (a + b)[1..] == a[1..] + b;
      DeathsAppend(a[1..], b);
    }
  }

  predicate NonNegativeAmounts(calls: seq<Call>) {
    forall i :: 0 <= i < |calls| ==> calls[i].amount >= 0
  }

  /** Once dead, every further call is refused: health and notifications stay as they are. */
  lemma {:induction false} DeadIsInert(maxHealth: int, d: Dispatch, health: int, calls: seq<Call>)
    requires !IsAlive(health)
    ensures Replay(maxHealth, d, health, calls) == Run(health, [])
    decreases |calls|
  {
    if calls != [] {
      DeadIsInert(maxHealth, d, health, calls[1..]);
    }
  }

  /** With non-negative amounts, health stays within [0, maxHealth] across any sequence of calls. */
  lemma {:induction false} HealthStaysInRange(maxHealth: int, d: Dispatch, health: int, calls: seq<Call>)
    requires 0 <= health <= maxHealth
    requires NonNegativeAmounts(calls)
    ensures 0 <= Replay(maxHealth, d, health, calls).health <= maxHealth
    decreases |calls|
  {
    if calls != [] {
      assert NonNegativeAmounts(calls[1..]) by {
        forall i | 0 <= i < |calls[1..]| ensures calls[1..][i].amount >= 0 {
          assert calls[1..][i] == calls[i + 1];
        }
      }
      var s := Apply(maxHealth, health, calls[0]);
      assert calls[0].amount >= 0;
      if s.Refused? {
        HealthStaysInRange(maxHealth, d, health, calls[1..]);
      } else {
        HealthStaysInRange(maxHealth, d, s.health, calls[1..]);
      }
    }
  }

  /** Death fires at most once per entity, and never for one that starts dead. */
  lemma {:induction false} DeathAtMostOnce(maxHealth: int, d: Dispatch, health: int, calls: seq<Call>)
    ensures Deaths(Replay(maxHealth, d, health, calls).events) <= if IsAlive(health) then 1 else 0
    decreases |calls|
  {
    if calls == [] {
    } else if !IsAlive(health) {
      DeadIsInert(maxHealth, d, health, calls);
    } else {
      var s := Apply(maxHealth, health, calls[0]);
      var rest := Replay(maxHealth, d, s.health, calls[1..]);
      DeathsAppend(StepEvents(s, d), rest.events);
      StepEventsDeaths(s, d);
      if s.died {
        DeadIsInert(maxHealth, d, s.health, calls[1..]);
      } else {
        DeathAtMostOnce(maxHealth, d, s.health, calls[1..]);
      }
    }
  }

  /**
   * For a living entity and non-negative amounts, death is notified exactly when the calls
   * leave health at zero: the only way down to zero is a damage call, and that call dies.
   */
  lemma {:induction false} DeathIffDepleted(maxHealth: int, d: Dispatch, health: int, calls: seq<Call>)
    requires 0 < health <= maxHealth
    requires NonNegativeAmounts(calls)
    ensures Deaths(Replay(maxHealth, d, health, calls).events) == 1
        <==> Replay(maxHealth, d, health, calls).health == 0
    decreases |calls|
  {
    if calls != [] {
      assert NonNegativeAmounts(calls[1..]) by {
        forall i | 0 <= i < |calls[1..]| ensures calls[1..][i].amount >= 0 {
          assert calls[1..][i] == calls[i + 1];
        }
      }
      var s := Apply(maxHealth, health, calls[0]);
      assert calls[0].amount >= 0;
      var rest := Replay(maxHealth, d, s.health, calls[1..]);
      DeathsAppend(StepEvents(s, d), rest.events);
      StepEventsDeaths(s, d);
      if s.died {
        DeadIsInert(maxHealth, d, s.health, calls[1..]);
      } else {
        DeathIffDepleted(maxHealth, d, s.health, calls[1..]);
      }
    }
  }

  /**
   * An enemy with thirty health and an Enemy component takes three hits of ten: 20, 10,
   * 0, and a single death, dispatched to its Die, after the third hit.
   */
  lemma ThreeHitsScenario()
    ensures Replay(30, Dispatch(EnemyTag, true, false), 30, [Damage(10), Damage(10), Damage(10)])
         == Run(0, [HealthChanged(20), HealthChanged(10), HealthChanged(0), DeathNotified, EnemyDieCalled])
  {
    var d := Dispatch(EnemyTag, true, false);
    var calls := [Damage(10), Damage(10), Damage(10)];
    assert calls[1..] == [Damage(10), Damage(10)];
    assert calls[1..][1..] == [Damage(10)];
    assert Replay(30, d, 0, []) == Run(0, []);
  }
}
