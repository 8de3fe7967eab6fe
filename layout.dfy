/** How a pool's members are laid out across its citizen-index shards. The
    member who joins a pool of `total` members is appended to shard
    `total / MAX_CITIZENS_PER_INDEX` (use_invite.rs:37, 92-96), so the shards,
    read in order, hold the pool's members in join order. This module states
    that layout as an invariant and proves that every successful redemption
    keeps it; one consequence is that a pool in this state never reports
    `CitizenIndexFull`. */
module Layout {
  import opened Types
  import opened Records
  import opened Shards
  import opened Redemption

  /** A pool together with its shards, by shard number. A number absent from
      the map stands for an index account that exists at its address but has
      never been written, so is bound to no pool. */
  datatype Roster = Roster(pool: PoolData, shards: map<nat, IndexData>)

  /** The data of shard `n` of the roster's pool. */
  function ShardAt(g: Roster, n: nat): IndexData {
    if n in g.shards then g.shards[n] else IndexData(Seeds(g.pool.key, n), DEFAULT_PUBKEY, [], 0)
  }

  /** The shard the next member will be appended to. */
  function Current(g: Roster): IndexData {
    ShardAt(g, ShardOf(g.pool.totalCitizens))
  }

  /** The roster after a successful redemption that used the current shard. */
  function Record(g: Roster, after: Accounts): Roster {
    Roster(after.pool, g.shards[ShardOf(g.pool.totalCitizens) := after.index])
  }

  /** Shard `n` is full and holds the `n`-th block of members, in join order. */
  ghost predicate Complete(g: Roster, members: seq<Pubkey>, n: nat) {
    n in g.shards
    && g.shards[n].governancePool == g.pool.key
    && ShardStart(n) + MAX_CITIZENS_PER_INDEX <= |members|
    && g.shards[n].citizens == members[ShardStart(n)..ShardStart(n) + MAX_CITIZENS_PER_INDEX]
    && g.shards[n].count == MAX_CITIZENS_PER_INDEX
  }

  /** The current shard, once bound, holds the members who joined since the
      previous shard filled up; it is bound unless that block is empty. */
  ghost predicate Partial(g: Roster, members: seq<Pubkey>) {
    var cur := Current(g);
    var bound := Bind(cur, g.pool.key);
    (cur.governancePool == DEFAULT_PUBKEY || cur.governancePool == g.pool.key)
    && ShardStart(ShardOf(g.pool.totalCitizens)) <= |members|
    && bound.citizens == members[ShardStart(ShardOf(g.pool.totalCitizens))..]
    && bound.count == |bound.citizens|
  }

  /** `members` lists the pool's members in join order, and the shards hold
      exactly them: every shard before the current one full, the current one
      partly filled, every later one unbound. */
  ghost predicate Laid(g: Roster, members: seq<Pubkey>) {
    g.pool.key != DEFAULT_PUBKEY
    && |members| == g.pool.totalCitizens
    && (forall n :: n in g.shards ==> g.shards[n].seeds == Seeds(g.pool.key, n))
    && (forall n :: n in g.shards && n > ShardOf(g.pool.totalCitizens) ==>
          g.shards[n].governancePool == DEFAULT_PUBKEY)
    && (forall n: nat :: n < ShardOf(g.pool.totalCitizens) ==> Complete(g, members, n))
    && Partial(g, members)
  }

  /** A pool with no members and no shard written is laid out correctly. */
  lemma EmptyPoolLaid(key: Pubkey, indices: nat)
    requires key != DEFAULT_PUBKEY
    ensures Laid(Roster(PoolData(key, 0, indices), map[]), [])
  {
  }

  lemma {:induction false} KeepBlock(members: seq<Pubkey>, member: Pubkey, lo: nat, hi: nat)
    requires lo <= hi <= |members|
    ensures (members + [member])[lo..hi] == members[lo..hi]
  {
  }

  /** The current shard of a correctly laid-out pool is the one the seeds
      constraint asks for, and, once bound, it holds the members who joined
      since the last shard filled up: fewer than its capacity. */
  lemma CurrentHasRoom(g: Roster, members: seq<Pubkey>)
    requires Laid(g, members)
    ensures Current(g).seeds == SeedsFor(g.pool)
    ensures |Bind(Current(g), g.pool.key).citizens| == SlotOf(g.pool.totalCitizens) < MAX_CITIZENS_PER_INDEX
  {
    PositionSplits(g.pool.totalCitizens);
  }

  /** The shard written by a successful redemption: the current shard, bound
      to the pool, with the new member appended. */
  ghost predicate Appended(g: Roster, index: IndexData, member: Pubkey) {
    var bound := Bind(Current(g), g.pool.key);
    index.seeds == bound.seeds
    && index.governancePool == g.pool.key
    && index.citizens == bound.citizens + [member]
    && index.count == |index.citizens|
  }

  /** Recording one more member leaves every full shard full and holding
      the same block of members. */
  lemma {:induction false} RecordKeepsComplete(g: Roster, members: seq<Pubkey>, after: Accounts, member: Pubkey)
    requires Laid(g, members)
    requires after.pool.key == g.pool.key && after.pool.totalCitizens == g.pool.totalCitizens + 1
    ensures forall n: nat :: n < ShardOf(g.pool.totalCitizens) ==> Complete(Record(g, after), members + [member], n)
  {
    var c := ShardOf(g.pool.totalCitizens);
    forall n: nat | n < c ensures Complete(Record(g, after), members + [member], n) {
      assert Complete(g, members, n);
      StartsIncrease(n, c);
      KeepBlock(members, member, ShardStart(n), ShardStart(n) + MAX_CITIZENS_PER_INDEX);
    }
  }

  /** When the current shard still has room after the append, it stays the
      current shard. */
  lemma {:induction false} RecordWithinShard(g: Roster, members: seq<Pubkey>, after: Accounts, member: Pubkey)
    requires Laid(g, members)
    requires after.pool.key == g.pool.key && after.pool.totalCitizens == g.pool.totalCitizens + 1
    requires Appended(g, after.index, member)
    requires SlotOf(g.pool.totalCitizens) + 1 < MAX_CITIZENS_PER_INDEX
    ensures Partial(Record(g, after), members + [member])
    ensures ShardOf(after.pool.totalCitizens) == ShardOf(g.pool.totalCitizens)
  {
    var t := g.pool.totalCitizens;
    CurrentHasRoom(g, members);
    Rollover(t);
    var ms := members + [member];
    assert after.index.citizens == ms[ShardStart(ShardOf(t))..];
  }

  /** When the append fills the current shard, that shard becomes complete. */
  lemma {:induction false} RecordFillsShard(g: Roster, members: seq<Pubkey>, after: Accounts, member: Pubkey)
    requires Laid(g, members)
    requires after.pool.key == g.pool.key && after.pool.totalCitizens == g.pool.totalCitizens + 1
    requires Appended(g, after.index, member)
    requires SlotOf(g.pool.totalCitizens) + 1 == MAX_CITIZENS_PER_INDEX
    ensures Complete(Record(g, after), members + [member], ShardOf(g.pool.totalCitizens))
  {
    var t := g.pool.totalCitizens;
    var c := ShardOf(t);
    CurrentHasRoom(g, members);
    PositionSplits(t);
    var ms := members + [member];
    assert |ms| == ShardStart(c) + MAX_CITIZENS_PER_INDEX;
    assert after.index.citizens == ms[ShardStart(c)..];
  }

  /** ... and the next shard, still unbound, becomes the current one. */
  lemma {:induction false} RecordOpensShard(g: Roster, members: seq<Pubkey>, after: Accounts, member: Pubkey)
    requires Laid(g, members)
    requires after.pool.key == g.pool.key && after.pool.totalCitizens == g.pool.totalCitizens + 1
    requires SlotOf(g.pool.totalCitizens) + 1 == MAX_CITIZENS_PER_INDEX
    ensures ShardOf(after.pool.totalCitizens) == ShardOf(g.pool.totalCitizens) + 1
    ensures Current(Record(g, after)).governancePool == DEFAULT_PUBKEY
    ensures Partial(Record(g, after), members + [member])
  {
    var t := g.pool.totalCitizens;
    var c := ShardOf(t);
    PositionSplits(t);
    Rollover(t);
    var g' := Record(g, after);
    assert ShardStart(c + 1) == ShardStart(c) + MAX_CITIZENS_PER_INDEX == t + 1;
    assert ShardAt(g', c + 1) == ShardAt(g, c + 1);
    assert Current(g') == ShardAt(g, c + 1);
  }

  /** Recording one more member, appended to the current shard, keeps the
      layout; the shard number moves on exactly when that shard fills up. */
  lemma {:induction false} RecordKeepsLayout(g: Roster, members: seq<Pubkey>, after: Accounts, member: Pubkey)
    requires Laid(g, members)
    requires after.pool.key == g.pool.key && after.pool.totalCitizens == g.pool.totalCitizens + 1
    requires Appended(g, after.index, member)
    ensures Laid(Record(g, after), members + [member])
  {
    var c := ShardOf(g.pool.totalCitizens);
    RecordKeepsComplete(g, members, after, member);
    Rollover(g.pool.totalCitizens);
    if SlotOf(g.pool.totalCitizens) + 1 < MAX_CITIZENS_PER_INDEX {
      RecordWithinShard(g, members, after, member);
    } else {
      RecordFillsShard(g, members, after, member);
      RecordOpensShard(g, members, after, member);
    }
  }

  /** A redemption against the current shard of a correctly laid-out pool
      never fails for lack of room or for a wrong shard, and when it succeeds
      the pool, with the written shard, is laid out correctly for the members
      extended by the new one. */
  lemma {:induction false} JoinKeepsLayout(g: Roster, members: seq<Pubkey>, invite: InviteData,
                                           citizen: CitizenData, member: Pubkey, p: Profile, now: int)
    requires Laid(g, members)
    ensures var r := Redeem(Accounts(g.pool, invite, citizen, Current(g)), member, p, now);
      r != Err(CitizenIndexFull) && r != Err(ConstraintSeeds)
      && (r.Ok? ==> Laid(Record(g, r.value), members + [member]))
  {
    var acc := Accounts(g.pool, invite, citizen, Current(g));
    CurrentHasRoom(g, members);
    if ConstraintCheck(acc.pool, acc.invite, acc.index, now) == None && ProfileCheck(p) == None {
      CapacityErrors(acc, member, p, now);
    }
    var r := Redeem(acc, member, p, now);
    if r.Ok? {
      assert Appended(g, r.value.index, member);
      RecordKeepsLayout(g, members, r.value, member);
    }
  }

  /** In a correctly laid-out pool the member who joined `k`-th sits in shard
      `k / MAX_CITIZENS_PER_INDEX`, at position `k % MAX_CITIZENS_PER_INDEX`. */
  lemma {:induction false} MemberLocation(g: Roster, members: seq<Pubkey>, k: nat)
    requires Laid(g, members)
    requires k < |members|
    ensures var shard := ShardAt(g, ShardOf(k));
      shard.governancePool == g.pool.key
      && SlotOf(k) < |shard.citizens|
      && shard.citizens[SlotOf(k)] == members[k]
  {
    var t := g.pool.totalCitizens;
    var n, c := ShardOf(k), ShardOf(t);
    PositionSplits(k);
    PositionSplits(t);
    if n > c {
      StartsIncrease(c, n);
      assert false;
    } else if n < c {
      assert Complete(g, members, n);
    } else {
      assert Partial(g, members);
      assert Current(g).governancePool == g.pool.key;
    }
  }
}
