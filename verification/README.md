# Trac Network settlement ledger: a verified model

The repository is a validator node: a replicated state machine that applies signed
operations in batches, the byte arithmetic and packed records beneath it, and the services
around it. This project models that core in Dafny and proves what it keeps.

- `Bytes`, `BufferMath`, `AmountBuffers`, `Balances`: big-endian buffers, the loops for sum,
  difference, shift, long division and multiplication, and the 16-byte balances made of them.
- `Records`, `NodeEntry`, `LengthEntry`: the packed 69-byte node entry, whose decoder hands out
  views and whose setters partly write in place and partly copy, and the four-byte counters.
- `Ledger`: one call of the apply function on values: thirteen operations, the penalty, batches.
- `StateMachine`: the same with stored buffers, copies, views and puts, proved to do what
  `Ledger` says; `Outcomes` connects the two. Its methods may write to the state object only, so
  no buffer in the store is ever written to.
- `Dispatch`, `Invariant`, `Runs`, `History`, `AdminKey`, `Conservation`, `Supply`: what operations,
  batches and runs keep, never lose, issue, burn and cannot overflow; `SelfRemoval`: the one run that
  breaks the invariant.
- `Authorization`, `Statuses`, `Effects`, `Initialization`: who may do what, when it succeeds, and what every
  field is afterwards, as tables over all operations that the handlers are proved to follow.
- `PreCheck`, `Views`, `AcceptedBatches`: the checks before a validator countersigns, against what the state
  machine does with one such operation and with a batch of them; `WrongKey`: one that is accepted and fails.
- `DecimalAmounts`, `StoreKeys`: amounts as text, and the text keys of the store.
- `RateLimiter`, `Commits`, `Pool`, `Settlements`: three services, each as a class and as a protocol over runs.

## Premises

The theorems about the ledger rest on these facts about its surroundings.

- All nodes of one call of apply come from one writer, and that writer is in the writer set
  (`Runs.LegalBatch`).
- The writer set is a map from key to indexer flag that `addWriter` and `removeWriter` change at
  once, with both spellings of the flag (`indexer` and `isIndexer`) understood; the consensus
  library itself is not part of this model. The sequence state is a function of the set of indexers.
- The admin does not take itself off the indexers: no operation meets a state in which it is a
  REMOVE_INDEXER of the admin for itself that passes every check (`Invariant.SelfDemotes`, asked of each
  operation in the state it meets by `Runs.LegalNodes`). The message builder refuses to build it
  (`src/messages/state/ApplyStateMessageBuilder.js:422-425`); the same operation from anyone else is
  refused by the handler and covered. `Invariant.PremiseIsExact` shows that this is all that is needed,
  and `SelfRemoval.SelfRemovalBreaksInvariant` that it is.
- What the supply theorems say holds while the supply and what is issued on the way stay below 2 to the
  power 128; only the admin issues, and only during initialization (`Conservation.OnlyAdminIssues`).
  `History`, `AdminKey.ReachableRegistersKeys` and `AdminKey.AdminIsNeverPenalized` rest on none of the above.
- The licence and writer counters stay below 2 to the power 32 (`State.CountersHaveRoom`).
- Hashes, signatures and address validity are uninterpreted functions in `Ledger.Env`; an address
  and its ASCII buffer are one value; operations arrive decoded, with fields of the right length.
- Where one hash or one signature is to name one request, the two messages in question are taken not to
  collide, and a signature to be good for one hash (`Authorization`).
- `Env.cap` is where a balance overflows. It is 2 to the power 128 in the byte layer; the ledger
  keeps it as a parameter so that "never overflows" can be said as "the limit makes no difference".
- Transactions of the legacy protocol enter the pool with a hash of 64 hexadecimal digits, which its
  own validators have seen to.
- The rate limiter's clock does not go back, and peers are evicted after a second or more.

## Where the code differs from its documentation

- `docs/fee_distribution.md:34` says that removing a writer unregisters its key. The key leaves the
  writer set but stays registered to its address for good, and the model follows the code.
- `src/core/state/utils/balance.js:9` asks for a term of 32 bytes; the length argument is ignored and
  the term has 16.
- A transfer whose amount and fee together reach 2 to the power 128 is a failure, not ignored like
  other transfers that the sender cannot afford.

## Model

| member | source | states |
|---|---|---|
| `Invariant.OperationKeepsInv` | src/core/state/State.js:416-470 | every operation from a consensus writer, refused or not, keeps the invariant of the store and the writer set (stakes, membership, keys, licences, deployments, admin) and leaves the signing key a writer, but for the one by which the admin takes itself off the indexers in the state it meets |
| `Invariant.PremiseIsExact` | src/core/state/State.js:2287-2385 | an operation keeps the invariant if and only if it does not meet the guard of that one branch: a REMOVE_INDEXER that passes the admin checks, names the admin itself and finds the fee in its balance |
| `SelfRemoval.SelfRemovalBreaksInvariant` | src/core/state/State.js:2287-2385 | a concrete run of five operations to a network with two indexers, whose admin then removes itself: the operation succeeds, the other indexer stays and the invariant is broken |
| `Invariant.RolesDecide` | src/core/state/State.js:1654-1662 | stake is 10 fees exactly for writers and indexers and 0 for everyone else; an entry's key is a consensus writer exactly when its role is writer or indexer, and an indexer there exactly when its role is indexer; the writer set holds nobody else |
| `Invariant.KeysAreUnique` | src/core/state/State.js:1576-1585 | no two entries share a writing key other than the all-zero placeholder |
| `Invariant.LicensesAreOneToOne` | src/core/state/State.js:3734-3750 | licence numbers 1 to the count map one-to-one onto the addresses that hold a licence, and each entry's licence points back to it |
| `Invariant.PenalizeKeepsInv` | src/core/state/State.js:3601-3728 | the penalty keeps the invariant |
| `Invariant.RecoveryKeepsRunning` | src/core/state/State.js:1111-1122 | replacing the admin's key in the writer set, the registry, the admin record and the node entry together keeps the invariant |
| `Invariant.AddWriterRuns` | src/core/state/State.js:1537-1686 | adding a writer, with a new key or with its own old one, keeps the invariant |
| `Invariant.RemoveWriterRuns` | src/core/state/State.js:1837-1950 | removing a writer keeps the invariant |
| `Invariant.AddIndexerRuns` | src/core/state/State.js:2073-2168 | promoting a writer keeps the invariant |
| `Invariant.RemoveIndexerRuns` | src/core/state/State.js:2287-2385 | demoting an indexer other than the admin keeps the invariant |
| `Invariant.BanValidatorRuns` | src/core/state/State.js:2387-2586 | banning keeps the invariant |
| `Invariant.AppendWhitelistRuns` | src/core/state/State.js:1135-1382 | whitelisting, with a new licence or the one the node already holds, keeps the invariant |
| `Runs.ReachableSatisfiesInv` | src/core/state/State.js:416-470 | every ledger that a run of batches from current writers reaches from the empty store satisfies the invariant |
| `Runs.RunKeepsInv` | src/core/state/State.js:416-470 | the same from any ledger that satisfies the invariant |
| `Runs.CutsAgree` | src/core/state/State.js:428-469 | a list of operations none of which fails leaves the same store and writer set however it is cut into non-empty batches of at most ten |
| `Runs.ApplyNodesSplits` | src/core/state/State.js:428-461 | the loop over two lists of nodes in turn is the loop over their concatenation, failures added up |
| `Statuses.StatusExactly` | src/core/state/State.js:472-489 | on every ledger of the invariant whose supply is below 2 to the power 128, each of the thirteen types succeeds, is ignored or fails exactly as one table says, in terms of the caller, roles, keys, deployments and what the requester can pay; nothing throws |
| `Effects.SuccessFollows` | src/core/state/State.js:491-3389 | a success of any type changes each field of each entry, and each field of the store and writer set, as one table per field says, whichever parties coincide, and nothing else: balances by what is paid, earned and gained, stake, role, key and licence, the flag, the admin, the registry, the indexes, the deployments and the record |
| `Effects.FundsMove` | src/core/state/State.js:3240-3389 | a transfer moves the amount to the recipient and three quarters of the fee to the validator, and takes both and the burned quarter from the sender, at every address and for every coincidence of the three |
| `Effects.FeeMoves` | src/core/state/State.js:3758-3909 | a subnetwork transaction takes the fee from the requester and gives half to the validator and a quarter to a creator who is not the requester, at every address |
| `Authorization.SuccessIsAuthorized` | src/core/state/State.js:710-735 | whatever succeeds has no blank field, a valid requester whose signature verifies over the hash of its fields, the current indexers and a new hash; and a validator's countersignature over network, hash, nonce and type under the key of the block, or the admin's key, or for the first admin the bootstrap key |
| `Authorization.HashNamesRequest` | src/core/state/State.js:3077-3084 | two operations under one hash that both succeed, on any ledgers, under any keys and on any networks, agree in type and in everything the requester decides, unless the two signed messages are a collision of the hash |
| `Authorization.SealNamesRequest` | src/core/state/State.js:1476-1515 | a validator's signature completes one request with one nonce and no other |
| `Authorization.SignatureNamesRequest` | src/core/state/State.js:3077-3095 | a requester's signature is for one request |
| `Initialization.FlagExactly` | src/core/state/State.js:636-739 | on any ledger, adding the admin opens initialization, DISABLE_INITIALIZATION ends it, and nothing else touches the flag |
| `Initialization.EndIsForGood` | src/core/state/State.js:636-739 | once DISABLE_INITIALIZATION has succeeded no balance is set any more, in the rest of its batch or in any run that follows, whoever signs |
| `History.EffectIsAtomic` | src/core/state/State.js:428-461 | a handler that fails, ignores or throws leaves store and writer set as they were; one that succeeds had an unrecorded hash, and records it, once, with itself |
| `History.ReplayChangesNothing` | src/core/state/State.js:1517-1522 | an operation whose hash is recorded fails or is ignored and changes nothing |
| `History.AtMostOnce` | src/core/state/State.js:416-470 | over any run, an operation with a given hash takes effect exactly once if the hash became recorded in that run, and never otherwise |
| `History.OperationExtends` | src/core/state/State.js:1576-1585 | an operation loses or overwrites no recorded hash, registered key, deployment or licence, keeps nonzero licences and the admin's address, and never re-enables initialization; it is enough that licences are given out in order and that there is nothing before the admin |
| `History.RunExtends` | src/core/state/State.js:416-470 | the same over every run, penalties included, whoever signs its batches and whatever they hold |
| `History.NothingIsLost` | src/core/state/State.js:416-470 | what any run from the empty store has registered at some point is there, unchanged, at its end, also when the admin removes itself or outsiders sign |
| `Conservation.OperationConserves` | src/core/state/State.js:416-470 | at any time each operation changes the sum of balances and stakes by exactly what it issues less what it burns: the admin's start and the balances it initializes on one side, a quarter, half or whole fee or the balance overwritten on the other, and nothing unless it succeeds |
| `Conservation.OnlyAdminIssues` | src/core/state/State.js:491-634 | money is issued when the first admin is added, and after that only under the admin's key and only until initialization is over |
| `Conservation.TransferFundsConserve` | src/core/state/State.js:3240-3389 | a transfer burns a quarter fee, whichever of sender, recipient and validator coincide |
| `Conservation.TransferFeeConserves` | src/core/state/State.js:3758-3909 | a subnetwork transaction burns a quarter fee, or half when the requester created the subnetwork |
| `Conservation.AddWriterConserves` | src/core/state/State.js:1537-1686 | adding a writer burns a quarter fee and moves the stake without loss |
| `Conservation.RemoveWriterConserves` | src/core/state/State.js:1837-1950 | removing a writer burns a quarter fee and returns the stake without loss |
| `Conservation.AdminRecoveryConserves` | src/core/state/State.js:884-1133 | recovery burns a quarter fee |
| `Conservation.DeployBootstrapConserves` | src/core/state/State.js:2588-2819 | a deployment burns a quarter fee |
| `Conservation.AppendWhitelistConserves` | src/core/state/State.js:1135-1382 | whitelisting burns a whole fee once initialization is over, and nothing before |
| `Conservation.AddIndexerConserves` | src/core/state/State.js:2073-2168 | promoting burns a whole fee |
| `Conservation.RemoveIndexerConserves` | src/core/state/State.js:2287-2385 | demoting burns a whole fee |
| `Conservation.BanConserves` | src/core/state/State.js:2387-2586 | banning burns a whole fee and returns the stake without loss |
| `Conservation.PenaltyConserves` | src/core/state/State.js:3601-3728 | a penalty that is carried out burns the lesser of the stake and n fees |
| `Conservation.SlashingIsExact` | src/core/state/State.js:3601-3728 | a writer other than the admin with n invalid operations leaves the writer set, becomes whitelisted with stake 0 and gets back 10 - n fees; nothing else changes; the admin loses nothing |
| `Conservation.OversizedIsTenInvalid` | src/core/state/State.js:421-426 | a batch of more than ten nodes, whatever they are, has the effect of ten invalid operations |
| `AdminKey.AdminIsNeverPenalized` | src/core/state/State.js:3612-3614 | on every ledger that a run from the empty store reaches, whoever signed and whatever, a batch signed by the admin's key is never penalised, whatever is in it |
| `AdminKey.OperationKeepsKeys` | src/core/state/State.js:884-1133 | every operation leaves keys registered to their owners; what the admin's key signs leaves it with the admin, since the recovery that would move it has to be countersigned with another node's key |
| `AdminKey.ReachableRegistersKeys` | src/core/state/State.js:416-470 | after every run from the empty store, legal or not, the keys in the entries and the admin's key are registered to their owners |
| `Supply.OperationNeverOverflows` | src/core/state/State.js:3367-3374 | while the supply is below 2 to the power 128, an operation does the same under every larger limit on balances and never throws, from the empty store on |
| `Supply.PenaltyNeverOverflows` | src/core/state/State.js:3665-3684 | nor does the refund of a penalty overflow |
| `Supply.BatchSettles` | src/core/state/State.js:416-470 | one batch, at any time: as long as the supply with what the batch issues is below 2 to the power 128 there is no throw and no overflow, and the supply changes by exactly what is issued and burned, penalty included |
| `Supply.BatchIsSlashed` | src/core/state/State.js:416-470 | a batch of at most ten with n invalid operations, at any time, costs its writer, unless that is the admin, n fees out of the stake, the role and the place in the writer set; the operations that succeeded stand |
| `Supply.NothingIssued` | src/core/state/State.js:491-634 | a batch of a writer other than the admin, or of anyone after initialization, issues nothing |
| `Supply.RestSettles` | src/core/state/State.js:636-739 | the rest of the batch in which initialization ends, whoever signs it, issues nothing, does not throw and burns its schedule |
| `Supply.RunBalances` | src/core/state/State.js:416-470 | every legal run goes through without a throw or an overflow, as long as the supply and what is issued in the run stay below 2 to the power 128, and changes the supply by exactly what it issues and burns |
| `Supply.SupplyIsIssuedLessBurned` | src/core/state/State.js:416-470 | from the empty store on, the supply of the ledger that a legal run reaches is all that was issued in it less all that was burned |
| `Supply.RunSettles` | src/core/state/State.js:416-470 | from the end of initialization on with a supply below 2 to the power 128, every run goes through without a throw or an overflow, and the supply falls by exactly the sum of the scheduled burns |
| `Supply.ThrowsExactly` | src/core/state/State.js:3367-3374 | a handler throws if and only if an otherwise acceptable transfer goes to its own validator and the amount no longer fits there (the second add then runs on null) |
| `StateMachine.State.constructor` | src/core/state/State.js:416-420 | the empty store, with the bootstrap key as its one writer |
| `StateMachine.State.Apply` | src/core/state/State.js:416-470 | one call of apply over stored buffers does what the ledger's batch function says, throws exactly when it does, and writes to no buffer stored before |
| `StateMachine.State.ApplyOperation` | src/core/state/State.js:472-489 | each type goes to its handler, and status and state are those of the ledger |
| `StateMachine.State.GetEntry` | src/core/state/State.js:3396-3399 | a read gives a fresh copy that decodes to the stored record |
| `StateMachine.State.Put` | src/core/state/State.js:631-632 | a put changes one record and no other |
| `StateMachine.State.ApplyBalanceInitialization` | src/core/state/State.js:491-634 | status and state are those of the ledger |
| `StateMachine.State.ApplyDisableInitialization` | src/core/state/State.js:636-739 | status and state are those of the ledger, whose flag is off after a success (`Initialization.FlagExactly`) |
| `StateMachine.State.ApplyAddAdmin` | src/core/state/State.js:741-882 | status and state are those of the ledger; the failure branches after the first writes are dead |
| `StateMachine.State.AdminRecovery` | src/core/state/State.js:1009-1133 | the key is written in place before the fee is read through a view of the same buffer; status and state are those of the ledger |
| `StateMachine.State.ApplyAdminRecovery` | src/core/state/State.js:884-1133 | status and state are those of the ledger, guards included |
| `StateMachine.State.AppendWhitelist` | src/core/state/State.js:1255-1382 | payment first, then licence and entry; status and state are those of the ledger |
| `StateMachine.State.WhitelistEntry` | src/core/state/State.js:1295-1378 | a new entry, or a copy with another role that keeps a licence it holds and otherwise gets the next one |
| `StateMachine.State.AddWriter` | src/core/state/State.js:1537-1686 | status and state are those of the ledger |
| `StateMachine.State.MakeWriter` | src/core/state/State.js:1587-1626 | role and key are written in place while the balance comes from a view of the same buffer: only role, key and balance change |
| `StateMachine.State.ApplyAddWriter` | src/core/state/State.js:1384-1535 | status and state are those of the ledger, guards included |
| `StateMachine.State.RemoveWriter` | src/core/state/State.js:1837-1950 | status and state are those of the ledger |
| `StateMachine.State.ApplyRemoveWriter` | src/core/state/State.js:1688-1835 | status and state are those of the ledger, guards included |
| `StateMachine.State.AddIndexer` | src/core/state/State.js:2073-2168 | status and state are those of the ledger |
| `StateMachine.State.RemoveIndexer` | src/core/state/State.js:2287-2385 | status and state are those of the ledger |
| `StateMachine.State.Downgrade` | src/core/state/State.js:2293-2312 | the key handed over as a view of the buffer it is written into arrives unchanged |
| `StateMachine.State.BanValidator` | src/core/state/State.js:2483-2586 | status and state are those of the ledger |
| `StateMachine.State.ApplyAdminControl` | src/core/state/State.js:1952-2071 | the guards shared by the four admin control operations, then their effects as in the ledger |
| `StateMachine.State.DeployBootstrap` | src/core/state/State.js:2722-2819 | status and state are those of the ledger |
| `StateMachine.State.ApplyBootstrapDeployment` | src/core/state/State.js:2588-2819 | status and state are those of the ledger, guards included |
| `StateMachine.State.TransferFee` | src/core/state/State.js:3758-3909 | status and written entries are those of the ledger for every coincidence of requester, validator and creator |
| `StateMachine.State.ApplySubnetTx` | src/core/state/State.js:2821-3034 | status and state are those of the ledger, guards included |
| `StateMachine.State.Transfer` | src/core/state/State.js:3240-3389 | status and written entries are those of the ledger for every coincidence of sender, recipient and validator |
| `StateMachine.State.PutTransfer` | src/core/state/State.js:3217-3232 | writing the recipient before and after the other two leaves the same entries as writing it once |
| `StateMachine.State.ApplyTransfer` | src/core/state/State.js:3036-3238 | status and state are those of the ledger, guards included; the signed message binds recipient and amount (`Authorization.HashNamesRequest`) |
| `StateMachine.State.IsValidatorValid` | src/core/state/State.js:3427-3453 | accepted exactly when the entry exists, is active and its key signed the block |
| `StateMachine.State.CheckValidatorCall` | src/core/state/State.js:1384-1522 | the shared checks pass exactly when the ledger's guards do, and give a copy of the validator's entry |
| `StateMachine.State.CheckAdminCall` | src/core/state/State.js:1135-1246 | the shared checks of admin operations pass exactly when the ledger's guards do, and those are what `Authorization.Called` asks for |
| `StateMachine.State.StakeBalance` | src/core/state/State.js:3506-3548 | moves ten fees from balance to stake, or gives null when the balance is smaller |
| `StateMachine.State.WithdrawStakedBalance` | src/core/state/State.js:3550-3599 | returns the stake to the balance, or gives null without a stake or on overflow |
| `StateMachine.State.Penalize` | src/core/state/State.js:3601-3728 | state is that of the ledger's penalty |
| `StateMachine.State.Slash` | src/core/state/State.js:3650-3727 | the new entry has what n fees leave of the stake added to its balance, stake 0 and role whitelisted |
| `StateMachine.State.AppendWriter` | src/core/state/State.js:3477-3493 | the address is stored under the old length and the length counts one more |
| `StateMachine.State.AssignNewLicense` | src/core/state/State.js:3734-3750 | the next licence number, read back from its four bytes, maps to the address |
| `StateMachine.State.IsInitializationDisabled` | src/core/state/State.js:3467-3475 | the flag disables exactly when it is stored as four zero bytes |
| `LengthEntry.CountersRoundTrip` | src/core/state/utils/lengthEntry.js:34-73 | a counter can be written exactly when it is below 2 to the power 32, and is then read back as it was |
| `BufferMath.AddBuffers` | src/core/state/utils/balance.js:71-83 | the sum for buffers of any equal length, or the null buffer exactly when it does not fit |
| `BufferMath.SubBuffers` | src/core/state/utils/balance.js:85-106 | the difference for buffers of any equal length, or the null buffer exactly when it would be negative |
| `BufferMath.ShiftLeft1` | src/core/state/utils/balance.js:60-69 | twice the number, the top bit dropped |
| `BufferMath.DivBuffers` | src/core/state/utils/balance.js:108-132 | floor of the quotient for every nonzero 16-byte divisor, the null buffer otherwise |
| `BufferMath.NoBitLost` | src/core/state/utils/balance.js:118-131 | twice the running remainder and the next bit fit the buffer, since the remainder is at most the prefix read so far |
| `BufferMath.MulBuffers` | src/core/state/utils/balance.js:134-164 | the product when it fits 16 bytes, the null buffer otherwise |
| `BufferMath.MulWide` | src/core/state/utils/balance.js:136-153 | schoolbook multiplication gives the exact product in twice the length |
| `Balances.AmountConstants` | src/core/state/utils/balance.js:300-302 | the fee, the admin's balance and its stake, written out as bytes in the source, are 0.03, 1000 and 0.3 tokens |
| `Balances.ToBalance` | src/core/state/utils/balance.js:291-298 | null exactly for a value that is not 16 bytes long; otherwise a valid balance over the very same bytes, whose amount is the number they stand for |
| `Balances.Balance.Add` | src/core/state/utils/balance.js:197-200 | the sum, or null exactly on overflow |
| `Balances.Balance.Sub` | src/core/state/utils/balance.js:206-209 | the difference, or null exactly when it would be negative |
| `Balances.Balance.Mul` | src/core/state/utils/balance.js:215-218 | the product, or null exactly when it needs more than 16 bytes |
| `Balances.Balance.Percentage` | src/core/state/utils/balance.js:226-231 | floor of the value times p over 10000, or null exactly when the product needs more than 16 bytes |
| `Balances.Balance.Div` | src/core/state/utils/balance.js:238-241 | floor of the quotient, or null exactly for a zero divisor |
| `Balances.Balance.Update` | src/core/state/utils/balance.js:247-249 | writes the amount into an entry, all other fields unchanged, even when the balance is a view of that entry |
| `Balances.Balance.Equals` | src/core/state/utils/balance.js:252-254 | equality of numbers; false for a missing balance and for one that is not 16 bytes long |
| `Balances.Balance.GreaterThan` | src/core/state/utils/balance.js:257-259 | comparison of numbers |
| `Balances.Balance.LowerThan` | src/core/state/utils/balance.js:262-264 | comparison of numbers |
| `Balances.Balance.GreaterThanOrEquals` | src/core/state/utils/balance.js:267-270 | comparison of numbers |
| `Balances.Balance.LowerThanOrEquals` | src/core/state/utils/balance.js:273-276 | comparison of numbers |
| `Bytes.CompareIsNumeric` | src/core/state/utils/balance.js:257-276 | byte-wise comparison of equally long buffers is comparison of the numbers |
| `NodeEntry.PackedDecodes` | src/core/state/utils/nodeEntry.js:13-54 | packing a record in range and decoding gives the record back |
| `NodeEntry.DecodedPacks` | src/core/state/utils/nodeEntry.js:130-160 | decoding a well-formed buffer and packing gives the bytes back |
| `NodeEntry.Init` | src/core/state/utils/nodeEntry.js:23-54 | a fresh entry with the given fields, or the empty buffer for a field of the wrong size |
| `NodeEntry.Encode` | src/core/state/utils/nodeEntry.js:77-109 | a fresh entry for a consistent combination of role flags, the empty buffer otherwise |
| `NodeEntry.Decode` | src/core/state/utils/nodeEntry.js:130-160 | views into the given buffer that read as the fields of its record |
| `NodeEntry.IsWhitelisted` | src/core/state/utils/nodeEntry.js:167-172 | true exactly for entries that are not readers |
| `NodeEntry.IsWriter` | src/core/state/utils/nodeEntry.js:179-184 | true exactly for writers and indexers |
| `NodeEntry.IsIndexer` | src/core/state/utils/nodeEntry.js:191-196 | true exactly for indexers |
| `NodeEntry.SetRole` | src/core/state/utils/nodeEntry.js:209-222 | a copy with another role; the given buffer stays |
| `NodeEntry.SetWritingKey` | src/core/state/utils/nodeEntry.js:230-242 | the key changes in place, nothing else |
| `NodeEntry.SetBalance` | src/core/state/utils/nodeEntry.js:250-263 | the balance changes in place, nothing else |
| `NodeEntry.SetLicense` | src/core/state/utils/nodeEntry.js:270-282 | the licence changes in place, nothing else |
| `NodeEntry.SetStakedBalance` | src/core/state/utils/nodeEntry.js:289-303 | a copy with another stake; the given buffer stays |
| `NodeEntry.SetRoleAndWriterKey` | src/core/state/utils/nodeEntry.js:312-329 | role and key change in place, nothing else, also when the key is a view of the buffer |
| `NodeEntry.CalculateNodeRole` | src/core/state/utils/roles.js:29-44 | the mask has the bits of the flags, and is a valid role exactly when indexers are writers and writers whitelisted |
| `AmountBuffers.BigIntTo16ByteBuffer` | src/utils/amountSerialization.js:46-60 | the low 128 bits of a number in 16 bytes |
| `AmountBuffers.BufferToBigInt` | src/utils/amountSerialization.js:62-73 | the number that 16 bytes stand for, refusing any other length |
| `AmountBuffers.LicenseBufferToBigInt` | src/utils/amountSerialization.js:75-87 | the number that 4 bytes stand for, refusing any other length |
| `AmountBuffers.WriteThenRead` | src/utils/amountSerialization.js:46-73 | a number survives writing and reading if and only if it is between 0 and 2 to the power 128 less 1 |
| `AmountBuffers.ReadThenWrite` | src/utils/amountSerialization.js:46-73 | 16 bytes survive reading and writing |
| `DecimalAmounts.RoundTripsExactly` | src/utils/amountSerialization.js:5-110 | parsing the printed form of an amount gives it back if and only if there is at least one decimal or the amount is zero |
| `DecimalAmounts.RoundTripWithoutDecimals` | src/utils/amountSerialization.js:106-109 | without decimals every amount but zero is printed behind the dot and refused when parsed |
| `DecimalAmounts.PrintsCanonically` | src/utils/amountSerialization.js:5-110 | printing a parsed text gives it without surrounding space and redundant zeros if and only if there is at least one decimal or the amount is zero |
| `DecimalAmounts.ParsesExactly` | src/utils/amountSerialization.js:5-40 | digits, with or without a dot and more digits, stand for the number they spell, scaled by the decimals, and are refused exactly for more decimals than allowed or from 2 to the power 128 on |
| `DecimalAmounts.RefusesExactly` | src/utils/amountSerialization.js:5-24 | a text is refused as negative exactly when it begins with a minus after trimming, and for its form exactly when it is not digits with or without a dot and more digits |
| `DecimalAmounts.TrimExactly` | src/utils/amountSerialization.js:10-10 | trimming takes the spaces off both ends, all of them and nothing else |
| `DecimalAmounts.SpacesExactly` | src/utils/amountSerialization.js:10-10 | what counts as a space, by character code |
| `DecimalAmounts.Digits` | src/utils/amountSerialization.js:102-102 | the digits of a number stand for it, without leading zeros |
| `StoreKeys.KeysAreInjective` | src/utils/constants.js:9-19 | the text keys of two records are equal exactly when the records are the same |
| `StoreKeys.Texts` | src/utils/constants.js:9-19 | the fixed keys and the prefixes of the others |
| `PreCheck.PreCheckAgrees` | src/core/network/protocols/shared/validators/PartialOperationValidator.js:43-250 | in every state with a supply below 2 to the power 128, during initialization as well, a validator accepts a partial operation if and only if the operation it completes succeeds on the same state; for removal and recovery the key named must be right too |
| `PreCheck.TransferAgrees` | src/core/network/protocols/shared/validators/PartialTransferValidator.js:18-94 | transfers: accepted if and only if the completed one succeeds |
| `PreCheck.SubnetTxAgrees` | src/core/network/protocols/shared/validators/PartialTransactionValidator.js:16-73 | subnetwork transactions: accepted if and only if the completed one succeeds |
| `PreCheck.DeploymentAgrees` | src/core/network/protocols/shared/validators/PartialBootstrapDeploymentValidator.js:10-36 | deployments: accepted if and only if the completed one succeeds |
| `PreCheck.RoleAccessAgrees` | src/core/network/protocols/shared/validators/PartialRoleAccessValidator.js:16-171 | role access: accepted and the key right if and only if the completed one succeeds; nothing to add for ADD_WRITER |
| `PreCheck.AcceptedIsNotPenalized` | src/core/network/protocols/shared/validators/PartialOperationValidator.js:89-250 | a batch of one accepted operation leaves just what the operation does, without a penalty |
| `Views.AcceptedByViews` | src/core/network/protocols/shared/validators/PartialOperationValidator.js:43-250 | for any two views of the ledger, the lagging and the current one, an operation is accepted exactly when its call is good and each balance, role, key, deployment and hash is found in the view, or the views, where the checks look |
| `AcceptedBatches.AcceptedFailsExactly` | src/core/network/protocols/shared/validators/PartialOperationValidator.js:43-250 | an operation that was accepted on one state fails on a later one if and only if the indexers have changed since, or it is a role operation that meets another role, key or balance |
| `AcceptedBatches.FailuresAreClashes` | src/core/state/State.js:428-461 | in a list of operations, each accepted on an earlier state of its own, those fail that clash with the ledger they meet when their turn comes, and none throws |
| `AcceptedBatches.AcceptedBatchPenalty` | src/core/state/State.js:416-470 | a batch of up to ten operations accepted at different times costs its validator as many fees as operations clash, and nothing if none does |
| `AcceptedBatches.AcceptedMoneyPenalty` | src/core/state/State.js:416-470 | a batch of up to ten transfers, subnetwork transactions and deployments, accepted at different times, costs its validator a fee for each of them that names other indexers than there are when the batch begins, and nothing else, however they get into each other's way |
| `AcceptedBatches.AcceptedMoneyIsNeverPenalized` | src/core/state/State.js:416-470 | it is never penalised when the indexers are those under which all of it was accepted |
| `AcceptedBatches.SecondAddWriterFails` | src/core/state/State.js:1537-1560 | of two ADD_WRITER operations of one requester, both accepted on one state, the second fails |
| `AcceptedBatches.WrongKeyIsSlashed` | src/core/network/protocols/shared/validators/PartialRoleAccessValidator.js:16-171 | an accepted REMOVE_WRITER or ADMIN_RECOVERY with a key that the handler does not take fails on the very state it was accepted on, and costs the validator, unless that is the admin, a fee, the role and the place in the writer set |
| `WrongKey.WrongKeyIsAcceptedAndFails` | src/core/network/protocols/shared/validators/PartialRoleAccessValidator.js:16-171 | a concrete one: after four operations a funded writer asks to leave under a key nobody holds, the validator accepts, the handler fails |
| `RateLimiter.Service.CleanUpOldConnections` | src/core/network/services/TransactionRateLimiterService.js:87-105 | the statistics afterwards are those of the specification, which forgets exactly the idle peers when a clean-up is due (`RateLimiter.CleanUpExactly`) |
| `RateLimiter.Service.HasExceededRateLimit` | src/core/network/services/TransactionRateLimiterService.js:29-41 | the counter starts again in a later second of the session; exceeded exactly when the maximum is reached |
| `RateLimiter.Service.HandleRateLimit` | src/core/network/services/TransactionRateLimiterService.js:48-85 | decision and new statistics are those of the specification |
| `RateLimiter.CleanUpExactly` | src/core/network/services/TransactionRateLimiterService.js:95-105 | when a clean-up is due a peer is remembered afterwards if and only if it was and its last activity is less than the timeout ago, unchanged; when none is due nothing changes |
| `RateLimiter.CallExactly` | src/core/network/services/TransactionRateLimiterService.js:48-105 | a call goes into its peer's session unless there is none or it is forgotten just then, and then begins one at its own time; only a granted call is an activity; other peers are at most forgotten |
| `RateLimiter.ActivityIsLastGranted` | src/core/network/services/TransactionRateLimiterService.js:95-147 | in every run a peer's last activity is the last call granted in its session, or its beginning |
| `RateLimiter.DecisionExactly` | src/core/network/services/TransactionRateLimiterService.js:29-41 | in every run a call is refused if and only if the maximum was granted already in the second of the session it falls into |
| `RateLimiter.SessionSecondBound` | src/core/network/services/TransactionRateLimiterService.js:29-41 | in every run a peer is granted at most the maximum in each second counted from the start of its session |
| `RateLimiter.SlidingWindowBound` | src/core/network/services/TransactionRateLimiterService.js:29-149 | in every run a peer is granted at most twice the maximum in any half-open second, across resets, evictions and new sessions |
| `RateLimiter.BoundIsAttained` | src/core/network/services/TransactionRateLimiterService.js:29-41 | the bound is reached for every positive maximum n and any clean-up interval above two seconds: n calls at the end of one session second and n at the start of the next are all granted, a millisecond apart |
| `RateLimiter.RunKeeps` | src/core/network/services/TransactionRateLimiterService.js:95-147 | in every run the entry of a peer counts the calls granted in the current second of its session, and sessions are a timeout apart |
| `Commits.TransactionCommitService.constructor` | src/core/network/services/TransactionCommitService.js:46-49 | an empty registry |
| `Commits.TransactionCommitService.RegisterPendingCommit` | src/core/network/services/TransactionCommitService.js:65-100 | refused for a bad hash, a full buffer or a hash that waits already, and then nothing changes; otherwise a new ticket waits |
| `Commits.TransactionCommitService.SettlePendingCommit` | src/core/network/services/TransactionCommitService.js:102-132 | settles what waits under the hash and stops its timer, or does nothing and says so; a malformed hash is refused, and then nothing changes |
| `Commits.TransactionCommitService.TimerFires` | src/core/network/services/TransactionCommitService.js:89-94 | a running timer rejects the registration it was started for, which was not settled before, and no other |
| `Commits.TransactionCommitService.Close` | src/core/network/services/TransactionCommitService.js:134-146 | everything that waits is rejected and every timer stopped |
| `Commits.SettlesOnce` | src/core/network/services/TransactionCommitService.js:102-132 | a registration that waits has not been settled and its timer runs; afterwards it is settled and the timer stopped |
| `Commits.SettleKeeps` | src/core/network/services/TransactionCommitService.js:102-132 | settling keeps tickets either waiting or settled, never both, and changes no earlier settlement |
| `Commits.CloseKeeps` | src/core/network/services/TransactionCommitService.js:134-146 | after the shutdown every registration ever made is settled, earlier ones as before |
| `Pool.TransactionPoolService.constructor` | src/core/network/services/TransactionPoolService.js:61-67 | an empty pool |
| `Pool.TransactionPoolService.Start` | src/core/network/services/TransactionPoolService.js:77-89 | a scheduler runs afterwards exactly when one ran before or the wallet is enabled |
| `Pool.TransactionPoolService.AddTransaction` | src/core/network/services/TransactionPoolService.js:177-203 | refused when full, for an empty hash or for a queued one; otherwise last in the queue |
| `Pool.TransactionPoolService.PrepareBatch` | src/core/network/services/TransactionPoolService.js:165-175 | the first ten at most, in order, taken out of queue and index |
| `Pool.TransactionPoolService.SettleBatch` | src/core/network/services/TransactionPoolService.js:117-148 | each transaction is settled by the receipt for its own hash; with what outcome is said by `Settlements.AppendSettles` |
| `Pool.TransactionPoolService.RejectBatch` | src/core/network/services/TransactionPoolService.js:149-157 | after a failed append every transaction of the batch is rejected |
| `Pool.TransactionPoolService.ProcessTransactions` | src/core/network/services/TransactionPoolService.js:108-163 | one run of the worker, from permission check through batch, append and settlement, is the step that takes a batch followed by the step of its append or of the append's failure; without permission or work nothing changes |
| `Pool.TransactionPoolService.Publish` | src/core/network/services/TransactionPoolService.js:112-157 | registrations are settled by just the receipts of the blocks appended, or all rejected when the append throws |
| `Pool.TransactionPoolService.StopPool` | src/core/network/services/TransactionPoolService.js:190-197 | when a scheduler runs it is dropped and queue and index are emptied; otherwise nothing changes |
| `Pool.BatchKeeps` | src/core/network/services/TransactionPoolService.js:165-175 | batch and rest make up the queue in order, share no hash, and the index follows |
| `Pool.AppendWithProofOfPublication` | src/core/state/State.js:254-305 | receipt i is for transaction i and names block end - n + i, which holds that transaction |
| `Pool.DispatchTransaction` | src/core/network/protocols/v1/handlers/V1BroadcastTransactionOperationHandler.js:218-257 | registered and queued, or neither |
| `Pool.RefusalRollsBack` | src/core/network/protocols/v1/handlers/V1BroadcastTransactionOperationHandler.js:239-257 | a refused dispatch leaves the queue, the registrations that wait and the timers as they were |
| `Pool.RunKeepsProtocol` | src/core/network/services/TransactionPoolService.js:108-188 | in every run the index equals the hashes of the queue, without duplicates and within the limit; batches in flight have one to ten distinct well-formed hashes; tickets wait or are settled |
| `Pool.SettledForGood` | src/core/network/services/TransactionCommitService.js:112-132 | in every run a settled registration stays as it was settled, and a receipt that resolves it is for its own hash and names the block holding its transaction |
| `Pool.TimerSettlesItsOwn` | src/core/network/services/TransactionCommitService.js:89-94 | in every run a timer that fires rejects its own registration, which was not settled, and changes no other settlement |
| `Pool.FirstInFirstOut` | src/core/network/services/TransactionPoolService.js:165-188 | in every run the batches taken since the last stop, one after the other, followed by the queue, are the accepted submissions in order |
| `Settlements.AppendSettles` | src/core/network/services/TransactionPoolService.js:117-148 | in every run, an append settles whoever waits for transaction i of its batch: resolved with the receipt that carries its proof and names the block i past the old end of the log, which holds it, or rejected for the missing proof |
| `Settlements.ThrowSettles` | src/core/network/services/TransactionPoolService.js:149-157 | in every run, an append that threw rejects whoever waits for a transaction of its batch with that failure, and leaves the log alone |
| `Settlements.OthersWait` | src/core/network/services/TransactionPoolService.js:117-157 | in every run, whoever waits under a hash that is not in the batch goes on waiting, timer included |
| `Settlements.AcceptedExactly` | src/core/network/protocols/v1/handlers/V1BroadcastTransactionOperationHandler.js:218-257 | a submission is accepted if and only if its hash is 64 hexadecimal digits, fewer than 1500 wait, none waits under it, the queue has room and does not hold it; then a new ticket waits with its timer and the transaction is last in the queue |
| `Settlements.RefusedByQueue` | src/core/network/protocols/v1/handlers/V1BroadcastTransactionOperationHandler.js:239-257 | when the queue refuses, the new registration is settled with that refusal, and no other is |
| `Settlements.LegacyExactly` | src/core/network/services/TransactionPoolService.js:177-203 | the legacy protocol's transactions are queued if and only if there is room and the hash is there and not queued, and nothing else changes |
| `Settlements.BatchIsFull` | src/core/network/services/TransactionPoolService.js:165-175 | a batch is the whole queue up to ten transactions and ten of a longer one |
| `Settlements.CloseCancels` | src/core/network/services/TransactionCommitService.js:134-146 | shutting down cancels exactly what waits; what was settled stays as it was |

## Left out

- Cryptography, bech32m checksums, protobuf encoding and schema validation: uninterpreted or assumed done.
- Autobase, Hyperbee and Hypercore: the store is a map that sees its own writes, the log a sequence.
- What becomes of a batch when a handler throws: the model says when it happens, not how the node recovers.
- Logging, events, RPC, command line, migration, configuration, connections and health checks: input and output only.
- Result-code policies and error mappers: finite tables.
- Timers and promises: steps that may happen at any point, not delays; `processIntervalMs` and `txCommitTimeout` have no length.
- Storage of non-entry records (admin, deployments, writer registry, operations) is typed, not bytes; only node entries, counters and the initialization flag are buffers.
- PreCheck.PreCheckAgrees: takes signed view, unsigned view and apply's view to be one state; what two different views decide is in `Views.AcceptedByViews`, and what becomes of an operation once the ledger has moved on in `AcceptedBatches`.
- Pool.TransactionPoolService.ProcessTransactions: says what a worker run does when nothing comes between its steps; what may come between is in the protocol's runs.
- StateMachine.State.CheckValidatorCall: makes the shared checks in one fixed order; the handlers differ in order, but all of these checks fail alike.
- RateLimiter.Service.HandleRateLimit: stands for both entry points, which differ only in how they report the refusal.
- PreCheck.RoleAccessAgrees: the pre-check accepts REMOVE_WRITER and ADMIN_RECOVERY with keys that the handler refuses, so the equivalence carries the condition on the key; `WrongKey` shows one such operation.
