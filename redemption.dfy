/** The "use governance invite" instruction (use_invite.rs) as functions on
    account data. `Handle` is the handler body, `use_governance_invite`, which
    may leave partial writes behind when it fails; `Redeem` is the whole
    transaction: Anchor's account constraints, then the handler, and on any
    error the runtime's revert of every account. */
module Redemption {
  import opened Types
  import opened Records
  import opened Shards

  /** Anchor's constraints on the invite account, in declaration order; the
      first one that fails is reported (use_invite.rs:17-19). */
  function InviteCheck(invite: InviteData, poolKey: Pubkey, now: int): Option<Error> {
    if invite.governancePool != poolKey then Some(InvalidInvite)
    else if invite.isUsed then Some(InviteAlreadyUsed)
    else if now > invite.expiresAt then Some(InviteExpired)
    else None
  }

  /** The seeds the index account must have been derived from: the pool and
      the shard that the pool's current member count selects (use_invite.rs:37). */
  function SeedsFor(pool: PoolData): Seeds {
    Seeds(pool.key, ShardOf(pool.totalCitizens))
  }

  /** Anchor's account constraints, checked before the handler runs: those
      on the invite, then the seeds of the index account. */
  function ConstraintCheck(pool: PoolData, invite: InviteData, index: IndexData, now: int): Option<Error> {
    match InviteCheck(invite, pool.key, now)
    case Some(e) => Some(e)
    case None => if index.seeds != SeedsFor(pool) then Some(ConstraintSeeds) else None
  }

  /** Validation of the instruction's arguments, in the handler's order
      (use_invite.rs:69-72). */
  function ProfileCheck(p: Profile): Option<Error> {
    if |p.name| > MAX_NAME_LENGTH then Some(InvalidInput)
    else if p.region >= REGION_CODES then Some(InvalidDemographic)
    else if p.ageGroup >= AGE_GROUP_CODES then Some(InvalidDemographic)
    else if p.otherDemographic >= OTHER_DEMOGRAPHIC_CODES then Some(InvalidDemographic)
    else None
  }

  /** The record written for a new member (use_invite.rs:75-82). */
  function Enrolment(poolKey: Pubkey, p: Profile): CitizenData {
    CitizenData(p.name, poolKey, true, 0, p.region, p.ageGroup, p.otherDemographic, true)
  }

  /** A shard never bound to a pool is emptied and bound to this one; a bound
      shard is kept as it is (use_invite.rs:85-89). */
  function Bind(index: IndexData, poolKey: Pubkey): IndexData {
    if index.governancePool == DEFAULT_PUBKEY then index.(governancePool := poolKey, citizens := [], count := 0)
    else index
  }

  /** Appending a member's key to a shard of bounded capacity
      (use_invite.rs:92-96). */
  function Push(index: IndexData, member: Pubkey): (r: Result<IndexData>)
    ensures r.Err? <==> |index.citizens| >= MAX_CITIZENS_PER_INDEX
    ensures r.Err? ==> r.error == CitizenIndexFull
    ensures r.Ok? ==> r.value.citizens == index.citizens + [member] && r.value.count == index.count + 1
    ensures r.Ok? ==> |r.value.citizens| <= MAX_CITIZENS_PER_INDEX
    ensures r.Ok? ==> r.value.seeds == index.seeds && r.value.governancePool == index.governancePool
    ensures r.Ok? && index.count == |index.citizens| ==> r.value.count == |r.value.citizens|
  {
    if |index.citizens| >= MAX_CITIZENS_PER_INDEX then Err(CitizenIndexFull)
    else Ok(index.(citizens := index.citizens + [member], count := index.count + 1))
  }

  /** Counting one more member (use_invite.rs:99-104). `total_citizens` is a
      `u32` whose addition is checked: at `u32::MAX` it panics. The shard
      counter moves exactly when the shard selected by the member count moves,
      so its distance to that shard number never changes. */
  function Enlist(pool: PoolData): (r: Result<PoolData>)
    ensures r.Err? <==> pool.totalCitizens == U32_MAX
    ensures r.Err? ==> r.error == ArithmeticOverflow
    ensures r.Ok? ==> r.value.key == pool.key && r.value.totalCitizens == pool.totalCitizens + 1
    ensures r.Ok? ==>
      r.value.totalCitizenIndices - ShardOf(r.value.totalCitizens) ==
      pool.totalCitizenIndices - ShardOf(pool.totalCitizens)
    ensures r.Ok? ==> pool.totalCitizenIndices <= r.value.totalCitizenIndices <= pool.totalCitizenIndices + 1
    ensures r.Ok? ==>
      (r.value.totalCitizenIndices == pool.totalCitizenIndices + 1 <==>
       r.value.totalCitizens % MAX_CITIZENS_PER_INDEX == 0)
  {
    if pool.totalCitizens == U32_MAX then Err(ArithmeticOverflow)
    else
      var total := pool.totalCitizens + 1;
      Rollover(pool.totalCitizens);
      var indices := if total % MAX_CITIZENS_PER_INDEX == 0 then pool.totalCitizenIndices + 1
                     else pool.totalCitizenIndices;
      Ok(PoolData(pool.key, total, indices))
  }

  /** The invite after use (use_invite.rs:107-108). */
  function Consume(invite: InviteData, member: Pubkey): InviteData {
    invite.(isUsed := true, usedBy := Some(member))
  }

  /** What one run of the handler body returns and leaves in the accounts. */
  datatype Run = Run(outcome: Result<()>, after: Accounts)

  /** The handler body, `use_governance_invite` (use_invite.rs:54-117). On its
      own it is not all-or-nothing: the citizen record is written before the
      capacity check, and the shard before the counter update. It does keep
      the pool and the invite untouched unless it succeeds. */
  function Handle(acc: Accounts, member: Pubkey, p: Profile): (run: Run)
    ensures run.outcome.Err? ==> run.after.pool == acc.pool && run.after.invite == acc.invite
    ensures ProfileCheck(p).Some? ==> run == Run(Err(ProfileCheck(p).value), acc)
    ensures run.outcome.Ok? ==> run.after.invite.isUsed && run.after.invite.usedBy == Some(member)
    ensures run.outcome.Ok? ==> run.after.pool.totalCitizens == acc.pool.totalCitizens + 1
  {
    match ProfileCheck(p)
    case Some(e) => Run(Err(e), acc)
    case None =>
      var citizen := Enrolment(acc.pool.key, p);
      var bound := Bind(acc.index, acc.pool.key);
      match Push(bound, member)
      case Err(e) => Run(Err(e), acc.(citizen := citizen, index := bound))
      case Ok(index) =>
        match Enlist(acc.pool)
        case Err(e) => Run(Err(e), acc.(citizen := citizen, index := index))
        case Ok(pool) => Run(Ok(()), Accounts(pool, Consume(acc.invite, member), citizen, index))
  }

  /** The accounts a successful handler run leaves: the record, the shard and
      the counters it computed, and the consumed invite. */
  lemma HandleSuccess(acc: Accounts, member: Pubkey, p: Profile)
    ensures Handle(acc, member, p).outcome.Ok? ==>
      ProfileCheck(p) == None
      && Push(Bind(acc.index, acc.pool.key), member).Ok?
      && Enlist(acc.pool).Ok?
      && Handle(acc, member, p).after ==
         Accounts(Enlist(acc.pool).value, Consume(acc.invite, member), Enrolment(acc.pool.key, p),
                  Push(Bind(acc.index, acc.pool.key), member).value)
  {
  }

  /** What the accounts hold after a successful handler run, field by field. */
  lemma RedeemedState(acc: Accounts, member: Pubkey, p: Profile)
    requires Handle(acc, member, p).outcome.Ok?
    ensures var after := Handle(acc, member, p).after;
      var unbound := acc.index.governancePool == DEFAULT_PUBKEY;
      after.citizen == CitizenData(p.name, acc.pool.key, true, 0, p.region, p.ageGroup, p.otherDemographic, true)
      && after.invite == InviteData(acc.invite.governancePool, true, Some(member), acc.invite.expiresAt)
      && after.index.seeds == acc.index.seeds
      && after.index.governancePool == (if unbound then acc.pool.key else acc.index.governancePool)
      && after.index.citizens == (if unbound then [] else acc.index.citizens) + [member]
      && after.index.count == (if unbound then 0 else acc.index.count) + 1
      && |after.index.citizens| <= MAX_CITIZENS_PER_INDEX
      && after.pool.key == acc.pool.key
      && after.pool.totalCitizens == acc.pool.totalCitizens + 1
      && acc.pool.totalCitizenIndices <= after.pool.totalCitizenIndices <= acc.pool.totalCitizenIndices + 1
      && (after.pool.totalCitizenIndices == acc.pool.totalCitizenIndices + 1 <==>
          after.pool.totalCitizens % MAX_CITIZENS_PER_INDEX == 0)
  {
    HandleSuccess(acc, member, p);
    var bound := Bind(acc.index, acc.pool.key);
    var index := Push(bound, member).value;
    var pool := Enlist(acc.pool).value;
    assert Handle(acc, member, p).after == Accounts(pool, Consume(acc.invite, member), Enrolment(acc.pool.key, p), index);
  }

  /** The whole transaction: the account constraints, then the handler. An
      error leaves no account changed, because the runtime discards the
      writes of a failed transaction; so `Err` carries no new state. */
  function Redeem(acc: Accounts, member: Pubkey, p: Profile, now: int): (r: Result<Accounts>)
    ensures r.Ok? ==>
      acc.invite.governancePool == acc.pool.key && !acc.invite.isUsed && now <= acc.invite.expiresAt
    ensures r.Ok? ==> acc.index.seeds == Seeds(acc.pool.key, acc.pool.totalCitizens / MAX_CITIZENS_PER_INDEX)
    ensures r.Ok? ==>
      |p.name| <= MAX_NAME_LENGTH && p.region < 8 && p.ageGroup < 5 && p.otherDemographic < 4
    ensures r.Ok? ==>
      r.value.citizen == CitizenData(p.name, acc.pool.key, true, 0, p.region, p.ageGroup, p.otherDemographic, true)
    ensures r.Ok? ==>
      r.value.invite == InviteData(acc.invite.governancePool, true, Some(member), acc.invite.expiresAt)
    ensures r.Ok? ==>
      var unbound := acc.index.governancePool == DEFAULT_PUBKEY;
      r.value.index.seeds == acc.index.seeds &&
      r.value.index.governancePool == (if unbound then acc.pool.key else acc.index.governancePool) &&
      r.value.index.citizens == (if unbound then [] else acc.index.citizens) + [member] &&
      r.value.index.count == (if unbound then 0 else acc.index.count) + 1 &&
      |r.value.index.citizens| <= MAX_CITIZENS_PER_INDEX
    ensures r.Ok? && acc.index.count == |acc.index.citizens| ==> r.value.index.count == |r.value.index.citizens|
    ensures r.Ok? ==>
      r.value.pool.key == acc.pool.key &&
      r.value.pool.totalCitizens == acc.pool.totalCitizens + 1 &&
      acc.pool.totalCitizenIndices <= r.value.pool.totalCitizenIndices <= acc.pool.totalCitizenIndices + 1 &&
      (r.value.pool.totalCitizenIndices == acc.pool.totalCitizenIndices + 1 <==>
       r.value.pool.totalCitizens % MAX_CITIZENS_PER_INDEX == 0)
  {
    match ConstraintCheck(acc.pool, acc.invite, acc.index, now)
    case Some(e) => Err(e)
    case None =>
      var run := Handle(acc, member, p);
      if run.outcome.Err? then Err(run.outcome.error)
      else
        HandleSuccess(acc, member, p);
        RedeemedState(acc, member, p);
        Ok(run.after)
  }

  /** The invite constraints come first, and each failure has its own error:
      a foreign invite, then a used one, then an expired one. */
  lemma InviteErrors(acc: Accounts, member: Pubkey, p: Profile, now: int)
    ensures acc.invite.governancePool != acc.pool.key ==> Redeem(acc, member, p, now) == Err(InvalidInvite)
    ensures acc.invite.governancePool == acc.pool.key && acc.invite.isUsed ==>
      Redeem(acc, member, p, now) == Err(InviteAlreadyUsed)
    ensures acc.invite.governancePool == acc.pool.key && !acc.invite.isUsed && now > acc.invite.expiresAt ==>
      Redeem(acc, member, p, now) == Err(InviteExpired)
  {
  }

  /** Expiry is inclusive: up to and including `expiresAt` the time of the
      call makes no difference to the outcome. */
  lemma ExpiryInclusive(acc: Accounts, member: Pubkey, p: Profile, now: int)
    requires now <= acc.invite.expiresAt
    ensures Redeem(acc, member, p, now) == Redeem(acc, member, p, acc.invite.expiresAt)
    ensures Redeem(acc, member, p, now) != Err(InviteExpired)
  {
  }

  /** After the invite constraints, the index account must be the shard the
      pool's member count selects. */
  lemma ShardSeedsError(acc: Accounts, member: Pubkey, p: Profile, now: int)
    requires InviteCheck(acc.invite, acc.pool.key, now) == None
    ensures acc.index.seeds != Seeds(acc.pool.key, acc.pool.totalCitizens / MAX_CITIZENS_PER_INDEX) ==>
      Redeem(acc, member, p, now) == Err(ConstraintSeeds)
  {
  }

  /** Once the accounts are accepted, the arguments are validated: the name
      length first, then the three demographic codes. */
  lemma ArgumentErrors(acc: Accounts, member: Pubkey, p: Profile, now: int)
    requires ConstraintCheck(acc.pool, acc.invite, acc.index, now) == None
    ensures |p.name| > MAX_NAME_LENGTH ==> Redeem(acc, member, p, now) == Err(InvalidInput)
    ensures |p.name| <= MAX_NAME_LENGTH && (p.region >= 8 || p.ageGroup >= 5 || p.otherDemographic >= 4) ==>
      Redeem(acc, member, p, now) == Err(InvalidDemographic)
  {
  }

  /** Once everything is valid, the shard's capacity and the `u32` member
      count are the only remaining reasons to fail, in that order. */
  lemma CapacityErrors(acc: Accounts, member: Pubkey, p: Profile, now: int)
    requires ConstraintCheck(acc.pool, acc.invite, acc.index, now) == None && ProfileCheck(p) == None
    ensures |Bind(acc.index, acc.pool.key).citizens| >= MAX_CITIZENS_PER_INDEX ==>
      Redeem(acc, member, p, now) == Err(CitizenIndexFull)
    ensures |Bind(acc.index, acc.pool.key).citizens| < MAX_CITIZENS_PER_INDEX && acc.pool.totalCitizens == U32_MAX ==>
      Redeem(acc, member, p, now) == Err(ArithmeticOverflow)
    ensures |Bind(acc.index, acc.pool.key).citizens| < MAX_CITIZENS_PER_INDEX && acc.pool.totalCitizens < U32_MAX ==>
      Redeem(acc, member, p, now).Ok?
  {
  }

  /** An invite is single-use: whatever accounts, member, arguments and time
      a later transaction presents together with the used invite, it fails,
      and against the same pool it fails with `InviteAlreadyUsed`. */
  lemma OneShot(acc: Accounts, member: Pubkey, p: Profile, now: int,
                later: Accounts, member': Pubkey, p': Profile, now': int)
    requires Redeem(acc, member, p, now).Ok?
    requires later.invite == Redeem(acc, member, p, now).value.invite
    ensures Redeem(later, member', p', now').Err?
    ensures later.pool.key == acc.pool.key ==> Redeem(later, member', p', now') == Err(InviteAlreadyUsed)
  {
  }
}
