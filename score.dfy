/** The score ledger (ScoreManager.cs): a positive-only accumulator with a reset. */
module Score {
  /** The score after `AddScore(amount)`: non-positive amounts are ignored. */
  function Credit(score: int, amount: int): (r: int)
    ensures amount <= 0 ==> r == score
    ensures amount > 0 ==> r == score + amount && r > score
  {
    if amount <= 0 then score else score + amount
  }

  /** One call that changes the ledger. */
  datatype ScoreOp = AddScore(amount: int) | ResetScore

  /** The score after one call. */
  function Next(score: int, op: ScoreOp): int {
    match op
    case AddScore(a) => Credit(score, a)
    case ResetScore => 0
  }

  /** The score after a sequence of calls, starting from `score`. */
  function Replay(score: int, ops: seq<ScoreOp>): int
    decreases |ops|
  {
    if ops == [] then score else Replay(Next(score, ops[0]), ops[1..])
  }

  /** Replaying one more call applies that call to the score reached so far. */
  lemma {:induction false} ReplaySnoc(score: int, ops: seq<ScoreOp>, op: ScoreOp)
    ensures Replay(score, ops + [op]) == Next(Replay(score, ops), op)
    decreases |ops|
  {
    if ops == [] {
      assert ops + [op] == [op];
      assert [op][1..] == [];
    } else {
      assert (ops + [op])[0] == ops[0];
      assert (ops + [op])[1..] == ops[1..] + [op];
      ReplaySnoc(Next(score, ops[0]), ops[1..], op);
    }
  }

  /** From a non-negative start, no sequence of calls makes the score negative. */
  lemma {:induction false} ScoreNeverNegative(score: int, ops: seq<ScoreOp>)
    requires score >= 0
    ensures Replay(score, ops) >= 0
    decreases |ops|
  {
    if ops != [] {
      ScoreNeverNegative(Next(score, ops[0]), ops[1..]);
    }
  }

  /** Without a reset the score never decreases, and it grows by the sum of the positive amounts. */
  lemma {:induction false} ScoreMonotoneWithoutReset(score: int, ops: seq<ScoreOp>)
    requires ResetScore !in ops
    ensures Replay(score, ops) == score + PositiveTotal(ops)
    ensures Replay(score, ops) >= score
    decreases |ops|
  {
    if ops != [] {
      assert ops[0] in ops;
      assert ResetScore !in ops[1..] by {
        forall i | 0 <= i < |ops[1..]| ensures ops[1..][i] != ResetScore {
          assert ops[1..][i] == ops[i + 1];
        }
      }
      ScoreMonotoneWithoutReset(Credit(score, ops[0].amount), ops[1..]);
    }
  }

  /** The sum of the positive `AddScore` amounts of a reset-free sequence of calls. */
  function PositiveTotal(ops: seq<ScoreOp>): (t: int)
    ensures t >= 0
    decreases |ops|
  {
    if ops == [] then 0
    else
      (match ops[0] case AddScore(a) => if a > 0 then a else 0 case ResetScore => 0)
      + PositiveTotal(ops[1..])
  }

  /** The ledger object: the single scene-wide ScoreManager. */
  class ScoreManager {
    var score: int
    /** Every AddScore and ResetScore call made so far. */
    ghost var ops: seq<ScoreOp>

    /** The score is the replay of the calls made since the ledger was created. */
    ghost predicate Valid()
      reads this
    {
      score == Replay(0, ops)
    }

    /** What the invariant gives: the score is never negative. */
    lemma ValidScoreNonNegative()
      requires Valid()
      ensures score >= 0
    {
      ScoreNeverNegative(0, ops);
    }

    /** The field starts at its default, zero. */
    constructor ()
      ensures score == 0 && ops == [] && Valid()
    {
      score := 0;
      ops := [];
    }

    method AddScore(amount: int)
      modifies this
      ensures score == Credit(old(score), amount)
      ensures ops == old(ops) + [ScoreOp.AddScore(amount)]
      ensures old(Valid()) ==> Valid()
    {
      ReplaySnoc(0, ops, ScoreOp.AddScore(amount));
      ops := ops + [ScoreOp.AddScore(amount)];
      if amount <= 0 { return; }
      score := score + amount;
    }

    /** A read of the field that changes nothing. */
    method GetScore() returns (s: int)
      ensures s == score
    {
      s := score;
    }

    method ResetScore()
      modifies this
      ensures score == 0
      ensures ops == old(ops) + [ScoreOp.ResetScore]
      ensures old(Valid()) ==> Valid()
    {
      ReplaySnoc(0, ops, ScoreOp.ResetScore);
      ops := ops + [ScoreOp.ResetScore];
      score := 0;
    }
  }
}
