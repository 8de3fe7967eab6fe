/** How the pool's member count selects a citizen-index shard: the member who
    joins a pool of `total` members goes to shard `total / MAX_CITIZENS_PER_INDEX`
    (the index account's seeds, use_invite.rs:37), and a shard is complete
    when the new total is a multiple of the capacity (use_invite.rs:102). */
module Shards {
  import opened Types

  /** Number of the shard that receives the member who joins when the pool
      already has `total` members. */
  function ShardOf(total: nat): nat {
    total / MAX_CITIZENS_PER_INDEX
  }

  /** Position of that member inside its shard. */
  function SlotOf(total: nat): nat {
    total % MAX_CITIZENS_PER_INDEX
  }

  /** Index, in the pool's join order, of the first member of shard `n`. */
  function ShardStart(n: nat): nat {
    n * MAX_CITIZENS_PER_INDEX
  }

  lemma {:induction false} ProductSign(x: int, m: int)
    requires m > 0
    ensures x >= 1 ==> x * m >= m
    ensures x <= -1 ==> x * m <= -m
  {
    if x >= 1 {
      calc {
        x * m;
      ==
        (x - 1) * m + m;
      >= { assert (x - 1) * m >= 0; }
        m;
      }
    } else if x <= -1 {
      calc {
        x * m;
      ==
        (x + 1) * m - m;
      <= { assert (-x - 1) * m >= 0; }
        -m;
      }
    }
  }

  /** Writing a join position as shard start plus slot is unique: the shard
      number and the slot can be read back. */
  lemma {:induction false} SplitUnique(q: nat, r: nat)
    requires r < MAX_CITIZENS_PER_INDEX
    ensures ShardOf(ShardStart(q) + r) == q && SlotOf(ShardStart(q) + r) == r
  {
    var m := MAX_CITIZENS_PER_INDEX;
    var a := q * m + r;
    var d := a / m - q;
    assert d * m == r - a % m;
    ProductSign(d, m);
    assert d == 0;
  }

  /** Every join position is the start of its shard plus its slot, and the
      slot lies inside the shard. */
  lemma PositionSplits(total: nat)
    ensures ShardStart(ShardOf(total)) + SlotOf(total) == total
    ensures SlotOf(total) < MAX_CITIZENS_PER_INDEX
  {
  }

  /** Shard starts are strictly increasing and a whole shard apart. */
  lemma {:induction false} StartsIncrease(n: nat, c: nat)
    requires n < c
    ensures ShardStart(n) + MAX_CITIZENS_PER_INDEX <= ShardStart(c)
  {
    ProductSign(c - n, MAX_CITIZENS_PER_INDEX);
    assert ShardStart(c) - ShardStart(n) == (c - n) * MAX_CITIZENS_PER_INDEX;
  }

  /** The rollover rule: one more member stays in the same shard, one slot
      further, unless it fills the shard; then the next join opens the next
      shard at slot 0. The test `total % MAX == 0` made on the new total is
      therefore exactly "the shard number moved on". */
  lemma {:induction false} Rollover(total: nat)
    ensures SlotOf(total) + 1 < MAX_CITIZENS_PER_INDEX ==>
      ShardOf(total + 1) == ShardOf(total) && SlotOf(total + 1) == SlotOf(total) + 1
    ensures SlotOf(total) + 1 == MAX_CITIZENS_PER_INDEX ==>
      ShardOf(total + 1) == ShardOf(total) + 1 && SlotOf(total + 1) == 0
    ensures (total + 1) % MAX_CITIZENS_PER_INDEX == 0 <==> ShardOf(total + 1) == ShardOf(total) + 1
    ensures ShardOf(total) <= ShardOf(total + 1) <= ShardOf(total) + 1
  {
    var q, r := ShardOf(total), SlotOf(total);
    PositionSplits(total);
    if r + 1 < MAX_CITIZENS_PER_INDEX {
      SplitUnique(q, r + 1);
    } else {
      assert total + 1 == ShardStart(q + 1) by {
        assert ShardStart(q + 1) == ShardStart(q) + MAX_CITIZENS_PER_INDEX;
      }
      SplitUnique(q + 1, 0);
    }
  }
}
