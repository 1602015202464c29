# BloodShot gameplay core in Dafny

This project models the gameplay rules of BloodShot, a top-down Unity shooter. The player
fires bullets that cost health, enemies seek the player and strike when in range, slain enemies
drop health orbs that fly to the player, and a spawner releases enemies ever faster. Each
gameplay component is modelled in the form its C# source has:

- Per-frame components become Dafny classes with the same fields, updated by methods with
  `modifies` frames: `HealthSystem`, `ScoreManager`, `Enemy`, `EnemySpawner`, `Bullet`,
  `HealthOrb`, `PlayerController`, `EnemyAnimator` and `PlayerAnimator`.
- Their decision rules are pure functions, and properties of whole call sequences are lemmas
  about those functions: damage and heal steps, the death dispatch, the score credit, the
  spawn-interval ramp, the bullet's collision rule and the animation-state tables.
- `HealthSystem` and `ScoreManager` each keep a ghost history of their calls. Their invariant
  `Valid()` says the real fields equal a replay of that history, so the sequence lemmas
  (health stays in range, death fires at most once, the score never goes negative) apply to
  the objects themselves.

How the engine is represented:

- Engine services become parameters. This covers the physics queries (`OverlapCircle`,
  trigger contacts), `Random.Range` and `insideUnitCircle`, the camera's mouse projection,
  the animator's current clip and normalised time, `Time.time`, `Time.deltaTime`, and whether
  the audio manager, game manager or input handler exist.
- Square roots are not computed. A vector's length is passed in with the precondition
  `IsMagnitude`, which says its square is the vector's squared length.
- `Destroy` clears an `alive` flag or sets a `destroyRequested` flag.
- Health, damage and score are `int`. Timers, speeds and positions are `real`, in the
  two-dimensional plane the game uses.
- Notifications are recorded: the health component's `OnHealthChanged`, `OnDeath`, the call
  to `Enemy.Die`, the game-over request and the delayed destruction become a list of
  `HealthEvent`s.
- The cross-fades requested from the Animator and the enemies instantiated by the spawner are
  lists of records.

Behaviour of the code worth noting, which the model reproduces:

- Non-positive amounts are not ignored. `TakeDmg` and `Heal` apply any amount: a negative
  damage heals past `maxHealth`, and a negative heal can kill without firing the death
  dispatch. Health therefore stays in `[0, maxHealth]` only for non-negative amounts, which
  is how `HealthRules.HealthStaysInRange` is stated.
- Firing cannot bring the player to exactly 0. The gate `health > bulletCost` is strict, so a
  shot always leaves at least 1 health (`PlayerControl.FiringNeverKills`).
- Two failures that the model reproduces are not graceful; each throws and stops that frame's handler. The references the model assumes present, whose absence would also throw, are listed under "## Left out".
  - An orb touching a player that has no `HealthSystem` in its parents: `Heal` is called on
    null. The orb survives, but the pickup sound and its timestamp have already been updated.
  - The spawner, when a spawn is due and `enemyPrefabs` is empty: the index is out of range.
    The spawn timer is not reset and that frame's ramp check is skipped.
- One bullet can damage twice. `Bullet.OnTriggerEnter2D` does not check whether the bullet has
  already been destroyed. Unity's `Destroy` takes effect at the end of the frame, so two
  contacts delivered in the same frame would both deal damage. The model reproduces that:
  the method does not consult `alive`.

## Model

| member | source | states |
|---|---|---|
| Vectors.Normalized | Assets/Scripts/Enemy/Enemy.cs:47 | `.normalized` is the zero vector when the length is at most 1e-5; otherwise it has length one and scaled by the length gives back the input |
| Vectors.MoveTowardsNoOvershoot | Assets/Scripts/HealthOrb.cs:68 | `MoveTowards` moves at most `maxDelta`, lands on the target when it is within reach and otherwise leaves exactly `dist - maxDelta` to go |
| UnityRandom.Range | Assets/Scripts/Enemy/EnemySpawner.cs:52 | `Random.Range(lo, hi)` over ints lies in `[lo, hi)`, or is `lo` for an empty range |
| UnityRandom.RangeCoversAll | Assets/Scripts/Enemy/Enemy.cs:128-129 | every value of the half-open range is produced by some draw |
| HealthRules.DamageStep | Assets/Scripts/HealthSystem.cs:29-47 | a damage call is refused exactly when health is not above 0; otherwise health becomes `max(0, h - d)`, the call is lethal exactly when that is 0, and non-negative damage never raises health |
| HealthRules.HealStep | Assets/Scripts/HealthSystem.cs:48-54 | a heal is refused exactly when dead; otherwise health becomes `min(h + a, maxHealth)`, never a death, and stays within range for a non-negative amount |
| HealthRules.DeathEvents | Assets/Scripts/HealthSystem.cs:55-77 | `OnDeath` fires first and only once; `Enemy.Die` runs iff the owner is Enemy-tagged with an Enemy component; game over is requested iff Player-tagged with a game manager; a 0.1 s destruction is scheduled iff Player-tagged; an untagged owner only notifies |
| HealthRules.DeathEventsCountOne | Assets/Scripts/HealthSystem.cs:57 | the death dispatch contains exactly one death notification |
| HealthRules.StepEventsDeaths | Assets/Scripts/HealthSystem.cs:39-46 | an accepted call's notifications hold one death notification if it was lethal and none otherwise |
| HealthRules.ReplaySnoc | Assets/Scripts/HealthSystem.cs:29-54 | one more damage or heal call extends a run by exactly that call's step and notifications |
| HealthRules.DeadIsInert | Assets/Scripts/HealthSystem.cs:31 | once health is at or below 0, any sequence of calls leaves health unchanged and fires nothing |
| HealthRules.HealthStaysInRange | Assets/Scripts/HealthSystem.cs:29-54 | with non-negative amounts, health stays within `[0, maxHealth]` across any sequence of calls |
| HealthRules.DeathAtMostOnce | Assets/Scripts/HealthSystem.cs:29-47 | across any sequence of calls the death notification fires at most once, and never for an entity that starts dead |
| HealthRules.DeathIffDepleted | Assets/Scripts/HealthSystem.cs:33-47 | from a living start with non-negative amounts, death is notified exactly when the calls leave health at 0 |
| HealthRules.ThreeHitsScenario | Assets/Scripts/HealthSystem.cs:29-47 | an enemy with 30 health hit three times by 10 announces 20, 10, 0 and dies once, dispatching to `Die`, after the third hit |
| Combat.HealthSystem.constructor | Assets/Scripts/HealthSystem.cs:78-82 | `Awake` through `ResetHealth`: health starts at `maxHealth`, announced once, with an empty call history |
| Combat.HealthSystem.IsAlive | Assets/Scripts/HealthSystem.cs:20 | alive exactly when every damage and heal call would be accepted; when not alive every call is refused |
| Combat.HealthSystem.ValidConsequences | Assets/Scripts/HealthSystem.cs:29-54 | a component that satisfies its invariant has fired at most one death notification and, for non-negative amounts, holds health within `[0, maxHealth]` |
| Combat.HealthSystem.TakeDmg | Assets/Scripts/HealthSystem.cs:29-47 | refused when dead with nothing changed; otherwise the clamped health is stored and announced, a lethal call runs the death dispatch and an enemy's `Die`; the invariant is kept and at most one death is ever notified |
| Combat.HealthSystem.Heal | Assets/Scripts/HealthSystem.cs:48-54 | refused when dead; otherwise the capped health is stored and announced; the invariant is kept |
| Combat.HealthSystem.HandleDeath | Assets/Scripts/HealthSystem.cs:55-77 | appends exactly the tag-dependent death dispatch, runs `Die` on an Enemy-tagged owner's enemy, and leaves health alone |
| Combat.OrbCount | Assets/Scripts/Enemy/Enemy.cs:124-129 | the drawn orb count lies in `[min(x, y), max(x, y)]`, both ends included, whatever the order of x and y |
| Combat.OrbCountCoversRange | Assets/Scripts/Enemy/Enemy.cs:124-129 | every count in that range, the maximum included, is drawn by some pick |
| Combat.OrbWithinSpawnRadius | Assets/Scripts/Enemy/Enemy.cs:134-135 | an orb placed at a unit-disc offset scaled by the radius lies within the radius of the enemy |
| Combat.Enemy.Update | Assets/Scripts/Enemy/Enemy.cs:33-40 | the direction is recomputed toward a present player; the move uses the previous frame's attacking flag; the flag then becomes the range query's result |
| Combat.Enemy.MoveTowardsPlayer | Assets/Scripts/Enemy/Enemy.cs:42-53 | without a player nothing changes; with one the direction is the normalised offset, and the position advances by direction·speed·dt only when not attacking |
| Combat.Enemy.InAttackRange | Assets/Scripts/Enemy/Enemy.cs:55-60 | the attacking flag equals whether the range query hit |
| Combat.Enemy.Attack | Assets/Scripts/Enemy/Enemy.cs:62-100 | a miss does nothing, a hit without a health component only warns, otherwise exactly `_enemyDamage` is dealt to that component, which keeps its invariant |
| Combat.Enemy.Die | Assets/Scripts/Enemy/Enemy.cs:102-107 | sets the orb flag, requests destruction and credits `_scoreIncrease` to the ledger, keeping the ledger's invariant |
| Combat.Enemy.OnDestroy | Assets/Scripts/Enemy/Enemy.cs:109-117 | orbs drop only while playing, after `Die`, with a prefab; then their number is the drawn count, each lies at the enemy's position plus its scaled offset, and every orb is within `_orbSpawnRadius` of the enemy |
| Combat.Enemy.DropHealthOrb | Assets/Scripts/Enemy/Enemy.cs:119-138 | no orbs without a prefab; otherwise exactly the drawn count of orbs, the i-th at the position plus the i-th unit-disc offset times the spawn radius, so within the spawn radius of the enemy |
| Combat.Enemy.constructor | Assets/Scripts/Enemy/Enemy.cs:7-22 | the serialized settings are stored; the enemy starts with no direction, not attacking, without the orb flag and not destroyed |
| Score.Credit | Assets/Scripts/ScoreManager.cs:24-28 | a non-positive amount leaves the score unchanged; a positive amount raises it by exactly that amount |
| Score.ReplaySnoc | Assets/Scripts/ScoreManager.cs:24-32 | one more call applies that call to the score reached so far |
| Score.ScoreNeverNegative | Assets/Scripts/ScoreManager.cs:24-32 | from a non-negative start no sequence of calls makes the score negative |
| Score.ScoreMonotoneWithoutReset | Assets/Scripts/ScoreManager.cs:24-28 | without `ResetScore` the score never decreases and grows by exactly the sum of the positive amounts |
| Score.PositiveTotal | Assets/Scripts/ScoreManager.cs:26-27 | the sum of the credited amounts is never negative |
| Score.ScoreManager.ValidScoreNonNegative | Assets/Scripts/ScoreManager.cs:8-32 | a ledger that satisfies its invariant holds a non-negative score |
| Score.ScoreManager.constructor | Assets/Scripts/ScoreManager.cs:8 | the score starts at 0 with no calls made |
| Score.ScoreManager.AddScore | Assets/Scripts/ScoreManager.cs:24-28 | the score becomes the credit of the amount, the call is recorded and the invariant kept |
| Score.ScoreManager.GetScore | Assets/Scripts/ScoreManager.cs:30 | returns the score and changes nothing |
| Score.ScoreManager.ResetScore | Assets/Scripts/ScoreManager.cs:32 | the score becomes 0, the call is recorded and the invariant kept |
| Spawning.RampStep | Assets/Scripts/Enemy/EnemySpawner.cs:44 | a ramp step never goes below the floor and is either the floor or the interval minus the decrease; only from an interval at or above the floor with a non-negative decrease does it never raise the interval (an interval below the floor is raised to it, and a negative decrease raises it) |
| Spawning.RampStepsClosedForm | Assets/Scripts/Enemy/EnemySpawner.cs:41-46 | from an interval at or above the floor, for a decrease of either sign, n ramp steps give `max(floor, interval - n * decrease)` |
| Spawning.RampStepsMonotone | Assets/Scripts/Enemy/EnemySpawner.cs:44 | from an interval at or above the floor with a non-negative decrease, the interval after more ramp steps is never larger, and never below the floor |
| Spawning.TenRampStepsReachFloor | Assets/Scripts/Enemy/EnemySpawner.cs:7-16 | from 2.0 with step 0.2 and floor 0.25, ten steps leave exactly 0.25 |
| Spawning.PrefabIndex | Assets/Scripts/Enemy/EnemySpawner.cs:52 | the prefab index lies in `[0, enemyPrefabs.Length)` for a non-empty array |
| Spawning.EnemySpawner.constructor | Assets/Scripts/Enemy/EnemySpawner.cs:6-20 | timers start at 0 with nothing spawned |
| Spawning.EnemySpawner.Update | Assets/Scripts/Enemy/EnemySpawner.cs:27-53 | both timers advance by dt first; a spawn happens exactly when the timer reaches the interval and resets it; the ramp check then runs independently; an empty prefab array stops the frame; after a ramp the interval is at or above the floor; from an interval at or above the floor with a non-negative decrease, the new interval lies between the floor and the old one |
| Weapon.Resolve | Assets/Scripts/Bullet.cs:24-47 | a collision is ignored iff with the Player; damage is dealt iff the collider is an Enemy with a living health component; anything else spends the bullet |
| Weapon.Bullet.constructor | Assets/Scripts/Bullet.cs:9-11 | requires the up axis to be a unit vector, as `transform.up` is; speed, lifetime and damage are stored; the bullet starts alive with no destruction scheduled before `Start` |
| Weapon.Bullet.Start | Assets/Scripts/Bullet.cs:15-18 | destruction is scheduled `_maxLifeTime` after start |
| Weapon.Bullet.Update | Assets/Scripts/Bullet.cs:19-22 | the bullet moves along its up axis by speed·dt; for the unit up axis the constructor requires, the squared distance moved is exactly (speed·dt)² |
| Weapon.Bullet.OnTriggerEnter2D | Assets/Scripts/Bullet.cs:24-47 | the result is the collision rule; the bullet stays alive only for the Player's collider; a damaged enemy took exactly `_bulletDmg`; any other collider's health component, a dead enemy's included, is left unchanged; the component keeps its invariant in every case |
| Pickup.SoundsRateLimited | Assets/Scripts/HealthOrb.cs:34-38 | over any sequence of pickups, consecutive pickup sounds are at least 0.1 s apart |
| Pickup.SoundDue | Assets/Scripts/HealthOrb.cs:34 | the pickup sound is due exactly when at least 0.1 s passed since the last one, so only at a strictly later time |
| Pickup.PickupSoundClock.constructor | Assets/Scripts/HealthOrb.cs:15 | the shared last-sound time starts at 0 |
| Pickup.HealthOrb.constructor | Assets/Scripts/HealthOrb.cs:6-12 | the heal amount, attraction speed and shared clock are stored; the orb starts alive, without a target and not attracted |
| Pickup.HealthOrb.PlayerAttraction | Assets/Scripts/HealthOrb.cs:46-70 | unattracted: a hit latches the target, a miss changes nothing; attracted with the target gone: reverts without moving; otherwise moves by `MoveTowards` at attractSpeed·dt |
| Pickup.HealthOrb.OnTriggerEnter2D | Assets/Scripts/HealthOrb.cs:29-45 | only the Player's contact acts; the sound plays iff 0.1 s passed since the shared timestamp, which it then records; the player is healed by `_healthRestoreAmount` and the orb destroyed, unless no health component exists |
| PlayerControl.IsMoving | Assets/Scripts/Player/PlayerController.cs:58 | a moving input is non-zero, and an input longer than 0.1 along either axis is moving |
| PlayerControl.Countdown | Assets/Scripts/Player/PlayerController.cs:48-51 | a timer runs down only while positive, and then strictly for a positive dt |
| PlayerControl.MayFire | Assets/Scripts/Player/PlayerController.cs:97-100 | a permitted shot leaves health at least 1 above its cost; off UI, holding fire with the cooldown run out, the only refusal is health at most the cost |
| PlayerControl.FiringNeverKills | Assets/Scripts/Player/PlayerController.cs:100-106 | a shot the gate allows either is refused on a dead player or leaves `health - cost`, which is above 0, with no death |
| PlayerControl.PlayerController.constructor | Assets/Scripts/Player/PlayerController.cs:8-21 | the settings and the player's health component are stored; the cooldown and footstep timer start at 0 and firing is not held |
| PlayerControl.PlayerController.Update | Assets/Scripts/Player/PlayerController.cs:43-53 | movement and footstep first, then fire, then both timers run down from their post-fire values; a shot costs exactly `bulletCost` and never kills; without a shot the player's health component, its history and everything its death could touch are unchanged |
| PlayerControl.PlayerController.MovePlayer | Assets/Scripts/Player/PlayerController.cs:55-68 | a footstep plays iff moving, the timer has run out and audio exists, and then resets the timer; the position advances by speed·dt·input |
| PlayerControl.PlayerController.Fire | Assets/Scripts/Player/PlayerController.cs:94-108 | fires iff off UI, firing held, cooldown run out and health above cost; a shot deals `bulletCost` to the player, leaves health positive and sets the cooldown to the fire rate; otherwise nothing changes |
| PlayerControl.PlayerController.Firing | Assets/Scripts/Player/PlayerController.cs:110-113 | sets the firing flag and nothing else |
| AnimatorExtensions.Dominant | Assets/Scripts/Enemy/EnemyAnimator.cs:45-55 | a facing is horizontal iff `abs(x) > abs(y)`, Right for positive x, otherwise Back for positive y and Front else |
| AnimatorExtensions.TransitionDuration | Assets/Scripts/Enemy/EnemyAnimator.cs:127 | the cross-fade lasts `smoothFrames / 60` seconds, never less than 0.01 |
| AnimatorExtensions.PlayAnimation | Assets/Scripts/Enemy/EnemyAnimator.cs:120-131 | no request without an animator or for an empty name; otherwise a cross-fade to that state on that layer |
| EnemyAnimation.StateName | Assets/Scripts/Enemy/EnemyAnimator.cs:3-14 | each of the eight enemy state names is non-empty and ends in `Attacking` exactly when it is an attack state |
| EnemyAnimation.StateNamesDistinct | Assets/Scripts/Enemy/EnemyAnimator.cs:3-14 | two enemy state names are equal exactly when their facing and mode are |
| EnemyAnimation.SelectState | Assets/Scripts/Enemy/EnemyAnimator.cs:40-71 | the state is an attack state iff attacking, on the dominant axis when attacking; a walking enemy with a near-zero direction walks Front, otherwise walks on the dominant axis |
| EnemyAnimation.IsAttackState | Assets/Scripts/Enemy/EnemyAnimator.cs:88-95 | a state name is an attack state exactly when it is one of the four attacking names, so never for a null or empty name |
| EnemyAnimation.AttackNamesAreAttackStates | Assets/Scripts/Enemy/EnemyAnimator.cs:88-95 | `IsAttackState` holds exactly for the four attack names among the eight state names |
| EnemyAnimation.IsCurrentStateStillPlaying | Assets/Scripts/Enemy/EnemyAnimator.cs:97-115 | true only with an animator whose current state is the named, non-empty state at under 0.98 of its length; for that state it is false exactly from 0.98 on |
| EnemyAnimation.EnemyAnimator.constructor | Assets/Scripts/Enemy/EnemyAnimator.cs:18-29 | the animator, the enemy and the smoothing are stored; no state is current and nothing is requested yet |
| EnemyAnimation.EnemyAnimator.Animate | Assets/Scripts/Enemy/EnemyAnimator.cs:36-86 | nothing without an animator or an enemy; a new state is requested, and becomes current, only when it differs and no attack clip is still under 0.98 of its length |
| PlayerAnimation.BodyName | Assets/Scripts/Player/PlayerAnimator.cs:4-13 | each body state name starts with `Body_` and ends in `Walking` exactly when it is a walk state |
| PlayerAnimation.HeadName | Assets/Scripts/Player/PlayerAnimator.cs:16-23 | each head state name starts with `Head_` and ends in `Walking` exactly when it is a walk state |
| PlayerAnimation.BodyNamesDistinct | Assets/Scripts/Player/PlayerAnimator.cs:6-13 | two body state names are equal exactly when their facing and mode are |
| PlayerAnimation.HeadNamesDistinct | Assets/Scripts/Player/PlayerAnimator.cs:16-23 | two head state names are equal exactly when their facing and mode are |
| PlayerAnimation.BodyAndHeadNamesDisjoint | Assets/Scripts/Player/PlayerAnimator.cs:4-25 | no body state name is a head state name |
| PlayerAnimation.FaceDirection | Assets/Scripts/Player/PlayerAnimator.cs:57-71 | the facing points from the player to the mouse's world point, or equals the move input without a camera |
| PlayerAnimation.IsWalking | Assets/Scripts/Player/PlayerAnimator.cs:55 | only a non-zero input walks, and an input longer than the threshold along either axis always walks |
| PlayerAnimation.SelectBody | Assets/Scripts/Player/PlayerAnimator.cs:73-98 | walking selects the walk state on the move input's dominant axis, idle the idle state on the facing's |
| PlayerAnimation.SelectHead | Assets/Scripts/Player/PlayerAnimator.cs:107-124 | the head faces along the facing's dominant axis, in its walk or idle variant as the player walks or not |
| PlayerAnimation.PlayerAnimator.constructor | Assets/Scripts/Player/PlayerAnimator.cs:28-40 | the animator, smoothing and walk threshold are stored; neither layer has a current state and nothing is requested yet |
| PlayerAnimation.PlayerAnimator.Animate | Assets/Scripts/Player/PlayerAnimator.cs:48-132 | nothing without an animator or input; otherwise the body state is requested on layer 0 and the head state on layer 1, each only if it changed, and both become current |

## Left out

- Audio and particles are not modelled. `PlaySFX` and `PlayParticle` are opaque effects, except the two gated sounds (the pickup sound and the footstep), whose gates are modelled. A missing `ParticleManager` would throw; the model assumes one exists.
- `UpdateFirePoint` is not modelled: it only places the fire point and makes no gameplay decision. The bullet's up axis is a constructor argument.
- The spawn position (`GetRandomPointOutsideCamera`) is not modelled. It is trigonometry with a possible division by zero; the spawner takes the position as an argument.
- The z axis is dropped. All gameplay happens in the x-y plane.
- `Random.Range` and `insideUnitCircle` are left to the engine. They are the arguments `pick` and `offsets`. `pick` is any natural number, reduced into the requested range by `UnityRandom.Range`. Every `offsets(i)` is required to lie in the unit disc, as `insideUnitCircle` guarantees. The uniform distribution of either draw is not modelled.
- The physics queries' radii and layers (`_attackRange`, `_detectionRadius`, the layer masks) are not modelled: the queries' results are arguments.
- Floating point is not modelled. Health is `float` in the source and `int` here, since damage is always an integer. So are the heal amount (`float` in `Heal`'s signature) and `_maxHealth`.
- Combat.OrbCount: does not model the overflow of `max + 1` when the range's maximum is `int.MaxValue`.
- Score.Credit: does not model 32-bit wrap-around of the score, because integers here are unbounded.
- Several references are assumed present; in the source each throws mid-handler when it is missing, and the model drops that path:
  - `ScoreManager.Instance` when an enemy dies: a null would throw in `Die`.
  - The player's `HealthSystem` in `PlayerController`, read by `Fire` and `Update`.
  - `_bulletPrefab` and `_firePoint` in `Fire`: unlike `UpdateFirePoint`, `Fire` does not check them. A null would throw after the gate passes but before `TakeDmg` and the cooldown, so the shot would cost nothing and be retried every frame.
  - `Camera.main` in the spawner, read without a check when a spawn position is drawn.
  - A null element of `enemyPrefabs`: `Instantiate` would throw, and like the empty array the spawn timer would not be reset and that frame's ramp would be skipped. The model only has a prefab count, so every element is taken to exist.
- The singleton set-up in `ScoreManager.Awake` (keep the first instance, destroy duplicates) is not modelled.
- The timing of `Destroy` is not modelled. It becomes a flag, so the frames an object survives before removal are not represented. So are the delayed `Destroy(gameObject, 0.1f)` and `Destroy(gameObject, _maxLifeTime)`: each is recorded as its delay or time.
- A null state name is `None` and an empty one `""`; `string.IsNullOrEmpty` tests for either.
- Animator hash collisions are not modelled: `Animator.StringToHash` is treated as injective.
- The ten-step scenario of the spawn ramp is stated as ten applications of the ramp step, rather than as 300 simulated seconds of frames.
- `Debug.DrawRay`, `Debug.Log*`, `print` and the gizmo drawing are left out.
