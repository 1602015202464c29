/** The enemy spawn controller (Enemy/EnemySpawner.cs): two accumulating timers and a ramped spawn interval. */
module Spawning {
  import opened Vectors
  import UnityRandom

  function RealMax(a: real, b: real): real { if a < b then b else a }

  /** One ramp step: the interval shrinks by `decrease`, never below `floor`. */
  function RampStep(interval: real, floor: real, decrease: real): (r: real)
    ensures r >= floor
    ensures r == floor || r == interval - decrease
    ensures interval >= floor && decrease >= 0.0 ==> r <= interval
  {
    RealMax(floor, interval - decrease)
  }

  /** The interval after `n` ramp steps. */
  function RampSteps(interval: real, floor: real, decrease: real, n: nat): real
    decreases n
  {
    if n == 0 then interval else RampStep(RampSteps(interval, floor, decrease, n - 1), floor, decrease)
  }

  /** From at or above the floor, n ramp steps give max(floor, interval - n * decrease), whatever the step's sign. */
  lemma {:induction false} RampStepsClosedForm(interval: real, floor: real, decrease: real, n: nat)
    requires interval >= floor
    ensures RampSteps(interval, floor, decrease, n) == RealMax(floor, interval - n as real * decrease)
    decreases n
  {
    if n > 0 {
      RampStepsClosedForm(interval, floor, decrease, n - 1);
      assert (n - 1) as real * decrease + decrease == n as real * decrease;
    }
  }

  /** The interval never increases over ramp steps and never leaves the floor once it is on or above it. */
  lemma {:induction false} RampStepsMonotone(interval: real, floor: real, decrease: real, m: nat, n: nat)
    requires interval >= floor && decrease >= 0.0 && m <= n
    ensures floor <= RampSteps(interval, floor, decrease, n) <= RampSteps(interval, floor, decrease, m)
    decreases n
  {
    if n > 0 {
      if m < n {
        RampStepsMonotone(interval, floor, decrease, m, n - 1);
      }
    }
  }

  /** Start 2.0, step 0.2, floor 0.25: ten ramp steps (300 s at one step per 30 s) reach the floor. */
  lemma TenRampStepsReachFloor()
    ensures RampSteps(2.0, 0.25, 0.2, 10) == 0.25
  {
    RampStepsClosedForm(2.0, 0.25, 0.2, 10);
  }

  /**
   * The prefab index `SpawnEnemy` uses: `Random.Range(0, count)`, which lies in
   * `[0, count)`, except that an empty array yields 0, an index out of bounds.
   */
  function PrefabIndex(count: nat, pick: nat): (r: int)
    ensures count > 0 ==> 0 <= r < count
    ensures count == 0 ==> r == 0
  {
    UnityRandom.Range(0, count, pick)
  }

  /** One spawned enemy: the prefab it was made from and where. */
  datatype SpawnRecord = SpawnRecord(prefab: nat, position: Vec2)

  /** What one `Update` did. */
  datatype TickOutcome =
    | Ticked(spawned: bool, ramped: bool)
    | SpawnFailed     // the spawn was due but `enemyPrefabs` is empty: the indexing throws and the frame stops

  class EnemySpawner {
    /** `enemyPrefabs.Length`. */
    const prefabCount: nat
    const spawnIncreaseInterval: real
    const spawnIntervalDecrease: real
    const minSpawnInterval: real
    var spawnInterval: real
    var timer: real
    var increaseTimer: real
    /** Every enemy instantiated so far. */
    var spawns: seq<SpawnRecord>

    constructor (prefabCount: nat, spawnInterval: real, spawnIncreaseInterval: real,
                 spawnIntervalDecrease: real, minSpawnInterval: real)
      ensures this.prefabCount == prefabCount && this.spawnInterval == spawnInterval
      ensures this.spawnIncreaseInterval == spawnIncreaseInterval
      ensures this.spawnIntervalDecrease == spawnIntervalDecrease && this.minSpawnInterval == minSpawnInterval
      ensures timer == 0.0 && increaseTimer == 0.0 && spawns == []
    {
      this.prefabCount := prefabCount;
      this.spawnInterval := spawnInterval;
      this.spawnIncreaseInterval := spawnIncreaseInterval;
      this.spawnIntervalDecrease := spawnIntervalDecrease;
      this.minSpawnInterval := minSpawnInterval;
      timer := 0.0;
      increaseTimer := 0.0;
      spawns := [];
    }

    /**
     * One frame: both timers advance by `dt`; then the spawn check (with `pick` the prefab
     * draw and `spawnPos` the chosen position), then the independent ramp check.
     */
    method Update(dt: real, pick: nat, spawnPos: Vec2) returns (outcome: TickOutcome)
      modifies this`spawnInterval, this`timer, this`increaseTimer, this`spawns
      ensures var due := old(timer) + dt >= old(spawnInterval);
        if due && prefabCount == 0 then
          outcome == SpawnFailed
          && timer == old(timer) + dt && increaseTimer == old(increaseTimer) + dt
          && spawnInterval == old(spawnInterval) && spawns == old(spawns)
        else
          var ramp := old(increaseTimer) + dt >= spawnIncreaseInterval;
          outcome == Ticked(due, ramp)
          && timer == (if due then 0.0 else old(timer) + dt)
          && spawns == old(spawns) + (if due then [SpawnRecord(PrefabIndex(prefabCount, pick) as nat, spawnPos)] else [])
          && increaseTimer == (if ramp then 0.0 else old(increaseTimer) + dt)
          && spawnInterval == if ramp then RampStep(old(spawnInterval), minSpawnInterval, spawnIntervalDecrease)
                              else old(spawnInterval)
      ensures outcome.Ticked? && outcome.ramped ==> spawnInterval >= minSpawnInterval
      ensures old(spawnInterval) >= minSpawnInterval && spawnIntervalDecrease >= 0.0 ==>
        minSpawnInterval <= spawnInterval <= old(spawnInterval)
      ensures old(spawns) <= spawns
      ensures forall k :: |old(spawns)| <= k < |spawns| ==> spawns[k].prefab < prefabCount
    {
      timer := timer + dt;
      increaseTimer := increaseTimer + dt;
      var spawned := false;
      if timer >= spawnInterval {
        var index := PrefabIndex(prefabCount, pick);
        if index >= prefabCount {
          return SpawnFailed;
        }
        spawns := spawns + [SpawnRecord(index as nat, spawnPos)];
        timer := 0.0;
        spawned := true;
      }
      var ramped := false;
      if increaseTimer >= spawnIncreaseInterval {
        spawnInterval := RampStep(spawnInterval, minSpawnInterval, spawnIntervalDecrease);
        increaseTimer := 0.0;
        ramped := true;
      }
      outcome := Ticked(spawned, ramped);
    }
  }
}
