# Use governance invite: a Dafny model

This project models one instruction of the `sortition` Solana program:
`use_governance_invite` (`programs/sortition/src/contexts/use_invite.rs`).
With it, a new member redeems an invite to join a sortition governance pool.
In order, the transaction:

- checks the invite account: it must belong to the pool, be unused and not be
  expired. These are Anchor account constraints, checked before the handler runs;
- checks that the citizen-index account is the shard the pool's member count
  selects. That shard is number `total_citizens / MAX_CITIZENS_PER_INDEX`,
  taken from the account's address seeds;
- validates the name length and the three demographic codes;
- writes the new member's `Citizen` record;
- binds the shard to the pool on first use, then appends the member's key to
  it, within its capacity;
- counts the member in the pool. The shard counter moves whenever a shard
  fills up;
- marks the invite used by the new member.

The model has two layers.

- **Values** (`Redemption`). `Handle` is the handler body on its own. It is
  not all-or-nothing: the citizen record is written before the capacity check,
  and the shard before the counter update. `Redeem` is the whole transaction:
  the account constraints, then the handler. Any error discards every write,
  because the Solana runtime reverts a failed transaction, so `Err` carries no
  new state.
- **Objects** (`UseInvite`). The four accounts are classes whose fields the
  methods update in place. `Handler` follows the handler statement by
  statement and is proved equal to `Handle`, partial writes included.
  `UseGovernanceInvite` is the transaction: the constraint check, the handler,
  and on failure a restore of every account's data from a snapshot (the
  runtime's revert). It is proved equal to `Redeem`, and its contract says
  outright that a failure changes nothing.

On top of this, `Layout` states how a pool's members are spread over its
shards. Shard `n` holds the members who joined in positions
`n * MAX .. n * MAX + MAX - 1`, in join order. `Layout` proves that every
successful redemption keeps this layout. It follows that a pool in this state
never reports `CitizenIndexFull`.

Modelling choices:

- Public keys are natural numbers; `Pubkey::default()` is 0.
- `u8` and `u32` are subset types of `int`.
- The name is the sequence of its UTF-8 bytes, since `String::len` counts bytes.
- The current time, read in the source from `Clock::get()`, is a parameter `now`.
- `MAX_CITIZENS_PER_INDEX` and `MAX_NAME_LENGTH` are defined outside
  `use_invite.rs`. Here they are constants of unknown value: both are positive,
  and `MAX_CITIZENS_PER_INDEX` fits in a `u32`, because the program casts it
  `as u32`.
- `total_citizens` is a `u32`; the `as u32` casts at lines 37 and 102 force
  that. Its `+= 1` is taken as a checked addition, because Anchor's project
  template sets `overflow-checks = true` for release builds. At `u32::MAX` it panics, modelled
  as the error `ArithmeticOverflow`, and the transaction is reverted.
- The seeds constraint on the index account is modelled as the error
  `ConstraintSeeds`. Each index account records the seeds its address was
  derived from.

## Model

| member | source | states |
|---|---|---|
| Redemption.Push | programs/sortition/src/contexts/use_invite.rs:92-96 | The append fails with `CitizenIndexFull` exactly when the shard already holds `MAX_CITIZENS_PER_INDEX` keys. Otherwise the key is appended at the end, earlier entries are unchanged, `count` rises by one, the length stays within capacity, and `count == len` is preserved |
| Redemption.Enlist | programs/sortition/src/contexts/use_invite.rs:99-104 | Counting a member fails exactly at `u32::MAX`. Otherwise the total rises by one, and the shard counter rises by one exactly when the new total is a multiple of the capacity. So `total_citizen_indices - total_citizens / MAX` never changes |
| Redemption.Handle | programs/sortition/src/contexts/use_invite.rs:54-117 | The handler body alone: any error leaves the pool and the invite untouched, and a validation error writes nothing. Success marks the invite used by the member and adds one to the total |
| Redemption.RedeemedState | programs/sortition/src/contexts/use_invite.rs:75-108 | After a successful handler run, field by field: the citizen record holds the arguments and the pool key; the invite is used by the member; the shard (reset first if unbound) has the member appended and one more `count`; the total rose by one; and the shard counter rose by one exactly when the new total is a multiple of MAX |
| Redemption.Redeem | programs/sortition/src/contexts/use_invite.rs:15-117 | A successful transaction implies all of: the invite belongs to the pool, is unused and `now <= expires_at`; the index is shard `total / MAX`; the arguments are valid. On success the citizen record holds exactly the arguments, the pool key, `is_eligible`, `last_participation = 0` and `is_initialized`. The invite changes only in `is_used` and `used_by`. The shard, reset first if unbound, gains the member at its end, and `count == len` is kept. The total rises by one, and the shard counter rises by one exactly when the new total is a multiple of MAX |
| Redemption.InviteErrors | programs/sortition/src/contexts/use_invite.rs:15-21 | A foreign invite fails with `InvalidInvite`. A used invite of the pool fails with `InviteAlreadyUsed`. An unused one past `expires_at` fails with `InviteExpired`. The invite checks come before every other check |
| Redemption.ExpiryInclusive | programs/sortition/src/contexts/use_invite.rs:19 | Up to and including `expires_at`, the outcome does not depend on the time, and the invite is never reported expired |
| Redemption.ShardSeedsError | programs/sortition/src/contexts/use_invite.rs:35-40 | Once the invite passes, an index account not derived for shard `total / MAX` of this pool is refused |
| Redemption.ArgumentErrors | programs/sortition/src/contexts/use_invite.rs:69-72 | Once the accounts pass, a name over `MAX_NAME_LENGTH` bytes fails with `InvalidInput`. Otherwise `region >= 8`, `age_group >= 5` or `other_demographic >= 4` fails with `InvalidDemographic` |
| Redemption.CapacityErrors | programs/sortition/src/contexts/use_invite.rs:92-104 | Once everything is valid, a full shard (after binding) fails with `CitizenIndexFull`. Failing that, a total at `u32::MAX` fails with `ArithmeticOverflow`. Otherwise the transaction succeeds |
| Redemption.OneShot | programs/sortition/src/contexts/use_invite.rs:107-108 | After a successful redemption, any later transaction presenting the same invite fails, whatever the accounts, arguments and time. Against the same pool it fails with `InviteAlreadyUsed`, through the check at line 18 |
| Shards.Rollover | programs/sortition/src/contexts/use_invite.rs:99-104 | One more member stays in the same shard one slot further on, unless that fills the shard; then the next shard starts at slot 0. The test `new_total % MAX == 0` holds exactly when the selected shard number moves on |
| Layout.EmptyPoolLaid | programs/sortition/src/contexts/use_invite.rs:35-40 | A pool with no members and no shard written satisfies the layout invariant |
| Layout.CurrentHasRoom | programs/sortition/src/contexts/use_invite.rs:37 | In a laid-out pool, the current shard is the one the seeds constraint selects. Once bound, it holds `total % MAX < MAX` members |
| Layout.RecordKeepsComplete | programs/sortition/src/contexts/use_invite.rs:92-96 | Appending to the current shard leaves every earlier, full shard and its block of members unchanged |
| Layout.RecordWithinShard | programs/sortition/src/contexts/use_invite.rs:92-104 | If the shard still has room after the append, the shard number stays the same, and that shard holds the members since the last rollover, the new one last |
| Layout.RecordFillsShard | programs/sortition/src/contexts/use_invite.rs:92-104 | An append that fills the shard leaves it holding exactly the next `MAX` members in join order |
| Layout.RecordOpensShard | programs/sortition/src/contexts/use_invite.rs:99-104 | After an append that fills the shard, the member count selects the next shard, which is still unbound (its pool key is the default key) and so is reset on first use |
| Layout.RecordKeepsLayout | programs/sortition/src/contexts/use_invite.rs:85-104 | Counting one more member, appended to the current shard, preserves the layout invariant for the extended member list |
| Layout.JoinKeepsLayout | programs/sortition/src/contexts/use_invite.rs:15-117 | A redemption against the current shard of a laid-out pool never fails with `CitizenIndexFull` or `ConstraintSeeds`. On success the pool stays laid out, with the new member last |
| Layout.MemberLocation | programs/sortition/src/contexts/use_invite.rs:37 | In a laid-out pool, the member who joined `k`-th is at position `k % MAX` of shard `k / MAX`, and that shard is bound to the pool |
| UseInvite.GovernancePool.AddCitizen | programs/sortition/src/contexts/use_invite.rs:99-104 | Updates the counters in place as `Enlist` says. At `u32::MAX` it writes nothing and fails |
| UseInvite.GovernanceInvite.MarkUsed | programs/sortition/src/contexts/use_invite.rs:107-108 | Sets `is_used` and `used_by = Some(member)`; the invite's pool and `expires_at` are unchanged |
| UseInvite.Citizen.Enrol | programs/sortition/src/contexts/use_invite.rs:75-82 | Every field of the record is set to the given arguments and the pool key, with `is_eligible`, `last_participation = 0` and `is_initialized` |
| UseInvite.CitizenIndex.BindTo | programs/sortition/src/contexts/use_invite.rs:85-89 | A shard bound to the default key is emptied, with `count = 0`, and bound to the pool. A bound shard is left as it is |
| UseInvite.CitizenIndex.Push | programs/sortition/src/contexts/use_invite.rs:92-96 | Fails with `CitizenIndexFull`, writing nothing, exactly when the shard is full. Otherwise it appends the key and adds one to `count` |
| UseInvite.CheckConstraints | programs/sortition/src/contexts/use_invite.rs:15-40 | Reports no error exactly when the invite belongs to the pool, is unused and not expired, and the index is shard `total / MAX` of the pool. Otherwise it reports the first failing constraint in declaration order |
| UseInvite.Handler | programs/sortition/src/contexts/use_invite.rs:54-117 | The handler run statement by statement over the account objects yields the outcome and the data `Handle` gives, partial writes included. On any error the pool and the invite are unchanged |
| UseInvite.UseGovernanceInvite | programs/sortition/src/contexts/use_invite.rs:15-117 | The whole transaction over the account objects: the outcome and new data are those `Redeem` gives. A failure leaves all four accounts as they were. On success the invite is used by the member, the shard holds its earlier keys followed by the member's key, and the total rose by one |
| UseInvite.UseTwice | programs/sortition/src/contexts/use_invite.rs:18 | After one successful use, a second use of the same invite fails with `InviteAlreadyUsed`, even with other citizen and index accounts and arguments. Afterwards the pool, the invite and the first use's accounts hold exactly the data the first redemption (`Redeem`) wrote, and any other citizen or index account given to the second use holds the data it had before |

## Left out

- Anchor account plumbing is not modelled: PDA derivation and bumps, `init`, `payer`, `space`, rent, the `Signer` check and the System program (use_invite.rs:23-33, 50-51). These are runtime and library behaviour. In particular, creating the `Citizen` account with `init` fails when the account already exists, so a key cannot join the same pool twice. That failure is not modelled. The seeds of the index account are kept only as the pair (pool, shard number).
- `Clock::get()` is a sysvar call, so the time is a parameter. The failure of that call (its `?`) is not modelled.
- The token account and mint constraints (use_invite.rs:42-48) are SPL library checks and are not modelled. The token amount is read only for the event.
- The `CitizenAddedToGovernance` event (use_invite.rs:110-114, 119-124) is log output with no effect on account state.
- The declarations of `GovernancePool`, `GovernanceInvite`, `Citizen`, `CitizenIndex` and `GovernanceError` are not part of this model. Only the fields this instruction touches are kept. The widths of `total_citizen_indices` and `count` are not visible, so both are unbounded: an overflow of either is not modelled.
- Account serialisation, and the account size limit behind `Citizen::SPACE`, are not modelled. So a name that fits `MAX_NAME_LENGTH` is always assumed to fit the account.
- Shard accounts are created by an instruction that is not part of this model. The layout invariant (`Layout.Laid`) therefore assumes what such an instruction must ensure: every shard past the current one is still unbound. A pre-bound later shard would not be reset on first use.
- Whether a name is valid UTF-8 is not modelled: a name is any byte sequence.
- The order of the invite constraints relative to the `init` of the citizen account, and to Anchor's ownership and discriminator checks, is not modelled. Those checks are left out.
