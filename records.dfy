/** The data of the four accounts the instruction touches, as values. Only
    the fields the instruction reads or writes are kept. */
module Records {
  import opened Types

  /** `GovernancePool`: its address and its two counters. */
  datatype PoolData = PoolData(key: Pubkey, totalCitizens: U32, totalCitizenIndices: nat)

  /** `GovernanceInvite`: the pool it admits to, its one-shot flag, who used it
      and its expiry (a Unix timestamp). */
  datatype InviteData = InviteData(governancePool: Pubkey, isUsed: bool, usedBy: Option<Pubkey>, expiresAt: int)

  /** `Citizen`: one member's record. `name` holds the UTF-8 bytes of the name. */
  datatype CitizenData = CitizenData(
    name: seq<U8>,
    governancePool: Pubkey,
    isEligible: bool,
    lastParticipation: int,
    region: U8,
    ageGroup: U8,
    otherDemographic: U8,
    isInitialized: bool)

  /** The seeds a citizen-index address is derived from: the pool's key and
      the shard number. */
  datatype Seeds = Seeds(pool: Pubkey, shard: nat)

  /** `CitizenIndex`: one shard of the pool's member list. A shard whose
      `governancePool` is the default key has never been bound to a pool. */
  datatype IndexData = IndexData(seeds: Seeds, governancePool: Pubkey, citizens: seq<Pubkey>, count: nat)

  /** The writable accounts of one "use governance invite" instruction. */
  datatype Accounts = Accounts(pool: PoolData, invite: InviteData, citizen: CitizenData, index: IndexData)

  /** The instruction's arguments: the new member's name and demographic codes. */
  datatype Profile = Profile(name: seq<U8>, region: U8, ageGroup: U8, otherDemographic: U8)
}
