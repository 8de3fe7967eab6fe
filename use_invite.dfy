/** The accounts the instruction writes, as objects whose fields are updated
    in place, and the instruction itself as methods over them. */
module UseInvite {
  import opened Types
  import opened Records
  import opened Shards
  import opened Redemption

  /** `GovernancePool`: only its two member counters change here. */
  class GovernancePool {
    const key: Pubkey
    var totalCitizens: U32
    var totalCitizenIndices: nat

    function View(): PoolData
      reads this
    {
      PoolData(key, totalCitizens, totalCitizenIndices)
    }

    /** Overwrites the stored data; the runtime uses it to restore an
        account when a transaction fails. */
    method Load(d: PoolData)
      requires d.key == key
      modifies this
      ensures View() == d
    {
      totalCitizens, totalCitizenIndices := d.totalCitizens, d.totalCitizenIndices;
    }

    /** Counts one more member (use_invite.rs:99-104): the checked `u32`
        addition fails at `u32::MAX` and then nothing is written; the shard
        counter moves when the new total completes a shard. */
    method AddCitizen() returns (r: Result<()>)
      modifies this
      ensures match Enlist(old(View()))
              case Ok(d) => r == Ok(()) && View() == d
              case Err(e) => r == Err(e) && View() == old(View())
      ensures r.Ok? ==> totalCitizens == old(totalCitizens) + 1
    {
      if totalCitizens == U32_MAX {
        return Err(ArithmeticOverflow);
      }
      totalCitizens := totalCitizens + 1;
      if totalCitizens % MAX_CITIZENS_PER_INDEX == 0 {
        totalCitizenIndices := totalCitizenIndices + 1;
      }
      return Ok(());
    }
  }

  /** `GovernanceInvite`. */
  class GovernanceInvite {
    var governancePool: Pubkey
    var isUsed: bool
    var usedBy: Option<Pubkey>
    var expiresAt: int

    function View(): InviteData
      reads this
    {
      InviteData(governancePool, isUsed, usedBy, expiresAt)
    }

    method Load(d: InviteData)
      modifies this
      ensures View() == d
    {
      governancePool, isUsed, usedBy, expiresAt := d.governancePool, d.isUsed, d.usedBy, d.expiresAt;
    }

    /** Marks the invite consumed by `member` (use_invite.rs:107-108). */
    method MarkUsed(member: Pubkey)
      modifies this
      ensures View() == Consume(old(View()), member)
      ensures isUsed && usedBy == Some(member)
      ensures governancePool == old(governancePool) && expiresAt == old(expiresAt)
    {
      isUsed := true;
      usedBy := Some(member);
    }
  }

  /** `Citizen`: the new member's record. */
  class Citizen {
    var name: seq<U8>
    var governancePool: Pubkey
    var isEligible: bool
    var lastParticipation: int
    var region: U8
    var ageGroup: U8
    var otherDemographic: U8
    var isInitialized: bool

    function View(): CitizenData
      reads this
    {
      CitizenData(name, governancePool, isEligible, lastParticipation, region, ageGroup, otherDemographic, isInitialized)
    }

    method Load(d: CitizenData)
      modifies this
      ensures View() == d
    {
      name, governancePool, isEligible, lastParticipation := d.name, d.governancePool, d.isEligible, d.lastParticipation;
      region, ageGroup, otherDemographic, isInitialized := d.region, d.ageGroup, d.otherDemographic, d.isInitialized;
    }

    /** Fills in the record of a member of pool `poolKey` (use_invite.rs:75-82). */
    method Enrol(poolKey: Pubkey, p: Profile)
      modifies this
      ensures View() == Enrolment(poolKey, p)
      ensures name == p.name && governancePool == poolKey && isEligible && lastParticipation == 0
      ensures region == p.region && ageGroup == p.ageGroup && otherDemographic == p.otherDemographic
      ensures isInitialized
    {
      name := p.name;
      governancePool := poolKey;
      isEligible := true;
      lastParticipation := 0;
      region := p.region;
      ageGroup := p.ageGroup;
      otherDemographic := p.otherDemographic;
      isInitialized := true;
    }
  }

  /** `CitizenIndex`: one shard of a pool's member list. `seeds` records what
      the account's address was derived from. */
  class CitizenIndex {
    const seeds: Seeds
    var governancePool: Pubkey
    var citizens: seq<Pubkey>
    var count: nat

    function View(): IndexData
      reads this
    {
      IndexData(seeds, governancePool, citizens, count)
    }

    method Load(d: IndexData)
      requires d.seeds == seeds
      modifies this
      ensures View() == d
    {
      governancePool, citizens, count := d.governancePool, d.citizens, d.count;
    }

    /** Binds a shard never used before to pool `poolKey`, emptying it; a
        bound shard is left as it is (use_invite.rs:85-89). */
    method BindTo(poolKey: Pubkey)
      modifies this
      ensures View() == Bind(old(View()), poolKey)
      ensures old(governancePool) == DEFAULT_PUBKEY ==> governancePool == poolKey && citizens == [] && count == 0
      ensures old(governancePool) != DEFAULT_PUBKEY ==> View() == old(View())
    {
      if governancePool == DEFAULT_PUBKEY {
        governancePool := poolKey;
        citizens := [];
        count := 0;
      }
    }

    /** Appends `member` unless the shard is full (use_invite.rs:92-96). */
    method Push(member: Pubkey) returns (r: Result<()>)
      modifies this
      ensures match Redemption.Push(old(View()), member)
              case Ok(d) => r == Ok(()) && View() == d
              case Err(e) => r == Err(e) && View() == old(View())
      ensures r.Ok? ==> citizens == old(citizens) + [member] && count == old(count) + 1
      ensures r.Err? <==> |old(citizens)| >= MAX_CITIZENS_PER_INDEX
    {
      if |citizens| >= MAX_CITIZENS_PER_INDEX {
        return Err(CitizenIndexFull);
      }
      citizens := citizens + [member];
      count := count + 1;
      return Ok(());
    }
  }

  /** The data of all four accounts. */
  function Snapshot(pool: GovernancePool, invite: GovernanceInvite, citizen: Citizen, index: CitizenIndex): Accounts
    reads pool, invite, citizen, index
  {
    Accounts(pool.View(), invite.View(), citizen.View(), index.View())
  }

  /** Anchor's account constraints: those on the invite in declaration order
      (use_invite.rs:17-19), then the seeds of the index account
      (use_invite.rs:35-40). Reads the accounts and changes nothing. */
  method CheckConstraints(pool: GovernancePool, invite: GovernanceInvite, index: CitizenIndex, now: int)
    returns (e: Option<Error>)
    ensures e == None <==>
      invite.governancePool == pool.key && !invite.isUsed && now <= invite.expiresAt
      && index.seeds == Seeds(pool.key, pool.totalCitizens / MAX_CITIZENS_PER_INDEX)
    ensures e.Some? ==> e.value in {InvalidInvite, InviteAlreadyUsed, InviteExpired, ConstraintSeeds}
    ensures e == ConstraintCheck(pool.View(), invite.View(), index.View(), now)
  {
    if invite.governancePool != pool.key {
      return Some(InvalidInvite);
    }
    if invite.isUsed {
      return Some(InviteAlreadyUsed);
    }
    if now > invite.expiresAt {
      return Some(InviteExpired);
    }
    if index.seeds != Seeds(pool.key, pool.totalCitizens / MAX_CITIZENS_PER_INDEX) {
      return Some(ConstraintSeeds);
    }
    return None;
  }

  /** The handler body, `use_governance_invite` (use_invite.rs:54-117),
      statement by statement. On an error it returns at once and leaves
      behind what it has already written. */
  method Handler(pool: GovernancePool, invite: GovernanceInvite, citizen: Citizen, index: CitizenIndex,
                 member: Pubkey, p: Profile)
    returns (r: Result<()>)
    modifies pool, invite, citizen, index
    ensures Run(r, Snapshot(pool, invite, citizen, index)) == Handle(old(Snapshot(pool, invite, citizen, index)), member, p)
    ensures r.Err? ==> pool.View() == old(pool.View()) && invite.View() == old(invite.View())
  {
    if |p.name| > MAX_NAME_LENGTH {
      return Err(InvalidInput);
    }
    if p.region >= REGION_CODES {
      return Err(InvalidDemographic);
    }
    if p.ageGroup >= AGE_GROUP_CODES {
      return Err(InvalidDemographic);
    }
    if p.otherDemographic >= OTHER_DEMOGRAPHIC_CODES {
      return Err(InvalidDemographic);
    }
    assert ProfileCheck(p) == None;

    citizen.Enrol(pool.key, p);
    index.BindTo(pool.key);
    r := index.Push(member);
    if r.Err? {
      return;
    }
    r := pool.AddCitizen();
    if r.Err? {
      return;
    }
    invite.MarkUsed(member);
  }

  /** One "use governance invite" transaction: the account constraints, the
      handler, and, if either fails, the runtime's revert of every account
      to its data before the transaction. The outcome and the new data are
      those `Redeem` gives; a failure changes nothing. */
  method UseGovernanceInvite(pool: GovernancePool, invite: GovernanceInvite, citizen: Citizen, index: CitizenIndex,
                             member: Pubkey, p: Profile, now: int)
    returns (r: Result<()>)
    modifies pool, invite, citizen, index
    ensures var expected := Redeem(old(Snapshot(pool, invite, citizen, index)), member, p, now);
      (r.Ok? <==> expected.Ok?)
      && (expected.Ok? ==> Snapshot(pool, invite, citizen, index) == expected.value)
      && (expected.Err? ==> r == Err(expected.error))
    ensures r.Err? ==> Snapshot(pool, invite, citizen, index) == old(Snapshot(pool, invite, citizen, index))
    ensures r.Ok? ==> invite.isUsed && invite.usedBy == Some(member)
                      && index.citizens[..|index.citizens| - 1] == old(Bind(index.View(), pool.key).citizens)
                      && index.citizens[|index.citizens| - 1] == member
                      && pool.totalCitizens == old(pool.totalCitizens) + 1
  {
    var saved := Snapshot(pool, invite, citizen, index);
    var e := CheckConstraints(pool, invite, index, now);
    if e.Some? {
      return Err(e.value);
    }
    r := Handler(pool, invite, citizen, index, member, p);
    if r.Err? {
      pool.Load(saved.pool);
      invite.Load(saved.invite);
      citizen.Load(saved.citizen);
      index.Load(saved.index);
    }
  }

  /** A client: after one successful use, a second use of the same invite is
      refused and changes nothing, whatever the other accounts and arguments:
      the pool, the invite and the first call's accounts hold what the first
      redemption wrote, and any other accounts the second call is given hold
      their data from before. */
  method UseTwice(pool: GovernancePool, invite: GovernanceInvite, citizen: Citizen, index: CitizenIndex,
                  citizen': Citizen, index': CitizenIndex,
                  member: Pubkey, p: Profile, member': Pubkey, p': Profile, now: int, now': int)
    returns (first: Result<()>, second: Result<()>)
    modifies pool, invite, citizen, index, citizen', index'
    ensures first.Ok? ==> second == Err(InviteAlreadyUsed) && invite.usedBy == Some(member)
    ensures first.Ok? ==>
      var expected := Redeem(old(Snapshot(pool, invite, citizen, index)), member, p, now);
      expected.Ok?
      && pool.View() == expected.value.pool
      && invite.View() == expected.value.invite
      && citizen.View() == expected.value.citizen
      && index.View() == expected.value.index
    ensures first.Ok? && citizen' != citizen ==> citizen'.View() == old(citizen'.View())
    ensures first.Ok? && index' != index ==> index'.View() == old(index'.View())
  {
    first := UseGovernanceInvite(pool, invite, citizen, index, member, p, now);
    second := UseGovernanceInvite(pool, invite, citizen', index', member', p', now');
  }
}
