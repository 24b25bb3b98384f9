# RDO_v2 in Dafny

RDO_v2 is a UTXO proof-of-stake node. This project models the parts of it whose rules depend on each other and
proves what they guarantee together: that money is conserved, that the block producer and the block checker agree,
that the chain stays linear, and that the data structures around them keep their promises in every run.

| part | files |
|---|---|
| words, sums, records | `Words.dfy`, `Sums.dfy`, `Proto.dfy` |
| SSZ codec | `Ssz.dfy` (the standard's serialization), `Codec.dfy` (records), `Marshaller.dfy` (the generated loops) |
| ledger and validator | `Ledger.dfy`, `Validator.dfy`, `BlockValidator.dfy`, `Conservation.dfy`, `Exactness.dfy`, `Collapse.dfy` |
| chain and node | `Accounts.dfy` (nonces), `Chain.dfy`, `Nodes.dfy` (a node as a value, and runs of blocks), `Core.dfy` (FinalizeBlock over chain, pool and staking pool), `Survival.dfy` (pending transactions across a block) |
| staking | `Staking.dfy`, `StakeBatches.dfy`, `StakeReading.dfy`, `StakingPool.dfy` (the object), `Rewards.dfy`, `Leader.dfy`, `Seeds.dfy` |
| pool against ledger | `DepositBooks.dfy`, `Agreement.dfy`, `StakingRuns.dfy`, `Refusals.dfy`, `Untidy.dfy`, `Stray.dfy` |
| transaction pool | `TxPool.dfy` |
| forger | `Forged.dfy`, `Drafts.dfy`, `StakeQueue.dfy` (which stakes a block takes), `Forger.dfy` (the object) |
| feed and clock | `Feed.dfy`, `SimClock.dfy` |
| block sync | `Fetcher.dfy`, `BlockRange.dfy` |
| roots and wallets | `Merkle.dfy`, `Generator.dfy` |

`dafny verify dfyconfig.toml` checks everything.

## Main results

- **Producer and checker agree.** `ForgeBlock` needs a pool whose views agree, a ledger of positive amounts below 2^64
  in all, and hashes of their own for the collapse transactions it may build. It then never fails. Unless the block is
  full it takes every pending transaction that was not evicted, a stake exactly when its outputs are allowed, its slots
  are free after those of the stakes taken before it, and no earlier stake was refused with an error; exactly the
  refused stakes leave the pool. Its rewards, collapses and fee pass the validator. For up to 2000 reward recipients the validator accepts the block when the reward transaction
  (141 + 36 bytes per recipient) fits the block size, all pending transactions pass and every pending pay-back has
  deposits; and exactly when the reward transaction fits, the transactions taken pass, and no pay-back without
  deposits gets through: one that the part of the block before it does not block, by a stake or unstake or anything of
  that elector on that validator, and whose 177 bytes fit at its turn. The proof goes through claims: each transaction
  claims the outputs of one owner, and no two claims overlap.
- **Pending transactions.** After an accepted block a transaction of another sender passes exactly when none of its
  inputs was taken and, for a stake, the staking pool still admits it. The pool drops every sender whose coins or nonce
  the block may have used, so without collapses of several owners all pending transactions but stakes stay valid.
- **Money.** A block is due when it is accepted at the node it meets, fits at the end of the chain, has new transaction
  hashes, and only input-bearing kinds have inputs. Over every run of due blocks every block is stored and CheckBalance
  never fails; if moreover no block holds a genesis transaction and genesis supply plus rewards stay below 2^64, unspent
  total plus fees equals genesis supply plus rewards as true numbers. `Core.Service.RunFromGenesis` states both of the
  nodes that FinalizeBlock goes through from the genesis outputs.
- **Chain.** Each outcome of `FinalizeBlock` with its exact condition and the node it leaves; every run, against the
  ledger, nonces and staking pool of each moment, leaves blocks 0 to head, linked by hash, with growing timestamps.
- **Codec.** Every well-formed block survives encoding and decoding, and its length is the size that fees use.
- **Staking.** For each operation the exact guard under which the pool invariant survives; runs of accepted blocks of
  tidy transactions meet it, keep pool and ledger in agreement, and never pay more than the block reward while
  electors stake less than 2^63 with the proposer. On a node in agreement the pool refuses a tidy transaction exactly
  when its own slots do not fit, it unstakes nothing or from a validator that has left, or it pays back on a validator
  that has not. Reserved stakes always finalise; each validator leads for exactly its weight of the draws, 100 for each slot of its
  own and the premium for each slot of its electors; rewards are the plain shares, rounded down.
- **Feed.** In every interleaving of a Send with subscriptions and removals every subscriber of the start takes the
  value exactly once, unless its removal had been asked for before the Send or in one of its pauses; nobody else does.
- **Pool, clock, sync.** Invariants over every sequence of operations and every interleaving; a completed
  synchronisation has delivered every forged block from its start through ten slots behind its target.

Some promises turned out not to hold as one would state them. They are proved with their exact condition:

- A collapse transaction that the validator accepts can move coins between owners, because ownership is checked for
  the union of the claimed owners and not input by input (`Collapse.CrossedClaimsMoveCoins`). `Collapse.BalanceKept`
  says for each address when its balance is unchanged; the forger's own collapse transactions always qualify.
- CheckBalance survives an accepted block exactly when the inputs that fee and genesis-type transactions claim add up
  to 0 modulo 2^64 (`Conservation.BlockKeepsBalance`): the block balance counts such inputs, the output manager never
  deletes them. `Conservation.PhantomBreaksBalance` is an accepted block that fails.
- The two sums of the block balance are truly equal exactly when the fee outputs stay below 2^64
  (`Exactness.SumsAreExact`); `Exactness.WrappedFeesAccepted` is an accepted block where they are not.
- The validator does not tie the node of an unstake's outputs to its inputs, nor the owner of a stake's outputs to its
  sender. An accepted unstake can leave a pool with half slots (`Untidy.MovedNodeBreaksPool`), two accepted unstakes
  can make the reward loop pay almost 2^64 (`Untidy.MovedStakeOverpays`), and an accepted stake for another address
  ends in a pay-back without inputs that no validator accepts (`Stray.StrayDepositIsHollow`). A validator that returns
  while pay-backs on it are pending breaks the pool as well (`Untidy.ReturnBreaksPool`). `Staking.ApplyKeeps` gives the
  exact guards, `StakingRuns.RunStaysInOrder` the runs that meet them.
- Stakes of 2^63 and more break the reward division (`Rewards.HugeStakeOverpays`); `Rewards.RewardsPaid` holds one
  way, for electors' stakes below 2^63.
- The stored nonce of an address never moves after its first transaction, so over any run the first transaction
  carries number 1 and every later one number 2 (`Accounts.RunOfOnes`).
- A block whose failed transactions carry other numbers passes validation and changes the outputs, and is then refused
  by the block store (`Core.Service.FinalizeBlock`, outcome `Unsaved`).
- The range server ignores the requested step, so the client rejects most answers to steps above 1
  (`BlockRange.LinearAccepted`).

Where documentation and code differ the code is followed. `ValidateBlock` returns no error for a block with failed
standard transactions, so `Core.Service.FinalizeBlock` stores such a block; "accepted" in the ledger results means
neither an error nor a failed list. The pool replaces a sender's transaction when the old one ranks before the new
one, and a stake that is refused, unless it is for staking nothing, makes the forger refuse all later stakes of the
same block; both are modelled as written.

## Modelling decisions

- Integers are unbounded; the code's 64-bit wrap-around is written out (`Words.Wrap`) in sums, balances, fees, stakes,
  weights and seeds. Block numbers, slots, sizes and clock times are plain numbers.
- Hashes, signatures, timestamps of new transactions, random draws, header checks and votes are parameters. That
  transactions in the pool have different hashes is stated of the transactions in play (`TxPool.Known`), not of all
  byte strings; for Merkle roots a collision is exhibited instead.
- Go map iteration is a choice of an arbitrary remaining key, so results hold for every order. What other goroutines do
  in the pauses of a Send is a parameter; which ready case a select takes is left to chance.
- Error kinds collapse to a refusal; which branch refuses is what the contracts state.
- Transactions and blocks are values. The pool's `forged` and `dropped` marks, which Go keeps in the shared
  transaction object, are sets of hashes; timers are objects. Addresses and hashes of decoded records have full length.
- The marshallers return the bytes they append, and list marshallers take the element marshaller as a function.
- Snapshots of pending pay-backs name validators by a non-empty address, as every decoded record does.

## Model

| member | source | states |
|---|---|---|
| `Ssz.LittleEndianRoundTrip` | vendor/github.com/ferranbt/fastssz/encode.go:42-85 | writing an integer little-endian and reading it back gives the integer, for every width |
| `Ssz.HeadInPlace` | vendor/github.com/ferranbt/fastssz/encode.go:114-121 | in the serialization of any container, part k of the fixed area stands exactly between its computed positions; a variable part leaves its offset there |
| `Ssz.TailInPlace` | vendor/github.com/ferranbt/fastssz/encode.go:114-121 | the offset written for a variable part is where its bytes stand, up to the next offset |
| `Ssz.DecodeListInverts` | vendor/github.com/ferranbt/fastssz/encode.go:205-268 | decoding a list of variable-size elements through its offset table inverts encoding it, for any element codec that is itself inverted |
| `Codec.TransactionLength` | proto/prototype/types.pb_encoding.go:690-709 | the encoding of every well-formed transaction is exactly SizeSSZ bytes long |
| `Codec.BlockLength` | proto/prototype/types.pb_encoding.go:255-271 | the encoding of every well-formed block is exactly SizeSSZ bytes long |
| `Codec.BlockSizeBound` | proto/prototype/types.pb_encoding.go:16-121 | a well-formed block is smaller than 2^32 bytes, so its 32-bit offsets cannot wrap |
| `Codec.TransactionRoundTrip` | proto/prototype/types.pb_encoding.go:477-709 | decoding the encoding of a well-formed transaction gives back the same transaction, nested inputs and outputs included |
| `Codec.BlockRoundTrip` | proto/prototype/types.pb_encoding.go:16-252 | decoding the encoding of a well-formed block gives back the same block |
| `Codec.DecodedBlockSurvives` | proto/prototype/types.pb_encoding.go:124-252 | whatever bytes are accepted as a block, the decoded block is well-formed and survives another round trip |
| `Marshaller.SizeOfTransaction` | proto/prototype/types.pb_encoding.go:690-709 | the size loop computes the size that fees are charged for, which is the length of the encoding |
| `Marshaller.SizeOfBlock` | proto/prototype/types.pb_encoding.go:255-271 | the size loop over transactions computes the length of the encoded block |
| `Marshaller.WriteOffsets` | proto/prototype/types.pb_encoding.go:540-546 | the offset loop writes the offset table of a list: the running sum of element sizes after the table |
| `Marshaller.MarshalList` | proto/prototype/types.pb_encoding.go:535-551 | offset table and elements together are the SSZ encoding of the list; fails exactly when an element does |
| `Marshaller.MarshalInput` | proto/prototype/types.pb_encoding.go:808-844 | succeeds exactly on inputs within the length limits and then yields the SSZ encoding |
| `Marshaller.MarshalOutput` | proto/prototype/types.pb_encoding.go:964-990 | succeeds exactly on outputs within the length limits and then yields the SSZ encoding |
| `Marshaller.MarshalSign` | proto/prototype/types.pb_encoding.go:390-408 | succeeds exactly on full-length addresses and signatures and then yields both, concatenated |
| `Marshaller.MarshalTransaction` | proto/prototype/types.pb_encoding.go:477-572 | the imperative encoder with its running offset produces the SSZ encoding, exactly when all limits hold |
| `Marshaller.MarshalBlock` | proto/prototype/types.pb_encoding.go:16-121 | the imperative encoder with its three running offsets produces the SSZ encoding, exactly when all limits hold |
| `Marshaller.UnmarshalDynamic` | vendor/github.com/ferranbt/fastssz/encode.go:224-267 | the loop over the offset table decodes each slice and fails exactly when the offsets do not ascend within the buffer or an element fails |
| `Marshaller.UnmarshalList` | vendor/github.com/ferranbt/fastssz/encode.go:205-268 | length from the first offset, then the elements: the list decoder of the standard |
| `Marshaller.ReadLength` | vendor/github.com/ferranbt/fastssz/encode.go:205-221 | the length of a list is a quarter of its first offset; refused unless that offset is a multiple of 4 within the limit |
| `Marshaller.UnmarshalSign` | proto/prototype/types.pb_encoding.go:411-431 | agrees with the decoder on every byte string |
| `Marshaller.UnmarshalInput` | proto/prototype/types.pb_encoding.go:847-896 | agrees with the decoder on every byte string |
| `Marshaller.UnmarshalOutput` | proto/prototype/types.pb_encoding.go:993-1032 | agrees with the decoder on every byte string |
| `Marshaller.UnmarshalTransaction` | proto/prototype/types.pb_encoding.go:575-687 | the imperative decoder agrees with the decoding function on every byte string |
| `Marshaller.UnmarshalBlock` | proto/prototype/types.pb_encoding.go:124-252 | the imperative decoder agrees with the decoding function on every byte string |
| `Ledger.AddressPads` | shared/common/types.go:86-94 | an address of full length is itself, a longer one keeps its last 20 bytes, a shorter one is padded with zeros in front |
| `Ledger.ProcessBlock` | blockchain/core/rdochain/output_manager.go:57-129 | spends transaction by transaction and inserts all outputs at the end; the result is the block function on unspent outputs, or a failure on a missing or duplicate row |
| `Ledger.ProcessInputs` | blockchain/core/rdochain/output_manager.go:392-412 | each input deletes exactly one row; the first missing row aborts |
| `Ledger.PrepareOutputs` | blockchain/core/rdochain/output_manager.go:415-440 | a row for each output under its index, none for a fee transaction |
| `Ledger.ProcessSum` | blockchain/core/rdochain/output_manager.go:57-129 | for any weight on outputs, the weight after a block is the weight before, minus what was spent, plus what was created |
| `Ledger.DistinctSpend` | blockchain/core/rdochain/output_manager.go:392-412 | distinct inputs that name existing outputs can always all be spent |
| `Ledger.DistinctInputsBound` | blockchain/consensus/attestation/crysp_validator.go:525-565 | distinct inputs that name existing outputs add up to at most everything unspent |
| `Ledger.ProcessSucceeds` | blockchain/core/rdochain/output_manager.go:57-129 | distinct existing inputs and fresh transaction hashes make a block processable |
| `Validator.CheckInputsData` | blockchain/consensus/attestation/crysp_validator.go:525-565 | passes exactly when every input repeats amount and node of a known output and no output is named twice |
| `Validator.ValidateTxStructBase` | blockchain/consensus/attestation/crysp_validator.go:375-492 | passes exactly the well-shaped transactions whose true input sum equals output sum plus fee below 2^64 |
| `Validator.ValidateTransactionStruct` | blockchain/consensus/attestation/crysp_validator.go:100-133 | passes exactly standard kinds with enough fee, the right hash, one sender, and a sound structure |
| `Validator.ValidateTxInputs` | blockchain/consensus/attestation/crysp_validator.go:138-204 | passes exactly on the next nonce, a purse with a non-zero balance, and inputs from that purse |
| `Validator.ValidateUnstakeTx` | blockchain/consensus/attestation/crysp_validator.go:582-601 | passes exactly when, once an input names a node, all later ones name the same, and own stakes move in whole slots |
| `Validator.CheckStakeType` | blockchain/consensus/attestation/crysp_validator.go:661-715 | passes exactly when all stake outputs go to one node that exists and has room |
| `Validator.ValidateStandard` | blockchain/consensus/attestation/crysp_validator.go:63-84 | all checks of a standard transaction together |
| `Validator.ValidateFeeTx` | blockchain/consensus/attestation/crysp_validator.go:313-339 | passes exactly when the one output carries the 64-bit sum of all fees of the block |
| `Validator.ValidateRewardTx` | blockchain/consensus/attestation/crysp_validator.go:342-371 | passes exactly when recipients are distinct and each gets its entry of the reward map; the record grows by the recipients |
| `Validator.ValidateSystemUnstakeTx` | blockchain/consensus/attestation/crysp_validator.go:604-658 | passes exactly when one elector gets back deposits of its own on one node, in full |
| `Validator.ValidateCollapseTx` | blockchain/consensus/attestation/crysp_validator.go:207-310 | passes exactly when every output repays the sum claimed from its address and all coins of all owners but the last are taken |
| `BlockValidator.CheckBlockBalance` | blockchain/consensus/attestation/block_validator.go:25-66 | passes exactly when no output is named twice in the block and the unchecked 64-bit sums agree |
| `BlockValidator.VerifyTransactions` | blockchain/consensus/attestation/block_validator.go:231-290 | an error exactly for a wrong system transaction or reward record; otherwise the list of failed standard transactions, in order |
| `BlockValidator.GetTransactionsSize` | blockchain/consensus/attestation/block_validator.go:313-321 | the size of everything but fee transactions |
| `BlockValidator.ValidateBlockTransactions` | blockchain/consensus/attestation/block_validator.go:105-229 | no error exactly when size, balance, system transactions and reward record are right, and then the failed standard ones are listed; neither error nor failed list exactly when the block is accepted |
| `Conservation.AmountStats` | blockchain/core/rdochain/blockchain.go:152-165 | the loops over reward and fee outputs compute the two sums modulo 2^64 |
| `Conservation.AcceptedSpends` | blockchain/consensus/attestation/block_validator.go:25-66 | the inputs of an accepted block can all be spent and add up to at most the unspent total: no check needs a wider word |
| `Conservation.AcceptedProcesses` | blockchain/core/rdochain/output_manager.go:57-129 | an accepted block with fresh hashes is processed without error |
| `Conservation.BlockKeepsBalance` | blockchain/core/rdochain/service.go:129-152 | after an accepted block the equation of CheckBalance still holds exactly when inputs claimed by fee and genesis-type transactions add up to 0 modulo 2^64 |
| `Conservation.PhantomBreaksBalance` | blockchain/consensus/attestation/block_validator.go:25-66 | an accepted block whose genesis-type transaction spends a coin nobody has: CheckBalance holds before and fails after |
| `Conservation.RunKeepsBalance` | blockchain/core/rdochain/service.go:129-152 | over every run of accepted blocks in which only input-bearing kinds have inputs, CheckBalance never fails |
| `Exactness.SumsAreExact` | blockchain/consensus/attestation/block_validator.go:25-66 | with a supply below 2^64 the input sum of an accepted block never wraps, and the two sums are truly equal exactly when the fee outputs stay below 2^64 |
| `Exactness.WrappedFeesAccepted` | blockchain/consensus/attestation/block_validator.go:25-66 | an accepted block with two fee transactions whose outputs add up to 2^64 and more: the two sums agree only modulo 2^64 |
| `Exactness.BurntIsPaid` | blockchain/core/rdochain/blockchain.go:152-165 | even then the fee statistics grow by exactly the fees paid |
| `Exactness.FeeTransactionUnique` | blockchain/consensus/attestation/crysp_validator.go:313-339 | if an accepted block pays any fee there is exactly one fee transaction, it carries exactly the fees, and reward and fee transactions are free of charge |
| `Exactness.RunIsExact` | blockchain/core/rdochain/blockchain.go:152-165 | over every run of accepted ordinary blocks from an exact start with supply plus rewards below 2^64: unspent total plus fees equals genesis supply plus rewards, as true numbers, and the statistics are those sums |
| `Exactness.GenesisExact` | blockchain/core/rdochain/blockchain.go:265-284 | the genesis block gives an exact start |
| `Collapse.EveryOwnerPaid` | blockchain/consensus/attestation/crysp_validator.go:207-310 | a validated collapse pays each owner it takes from exactly when it charges no fee |
| `Collapse.OtherOwnersEmptied` | blockchain/consensus/attestation/crysp_validator.go:207-310 | it spends every plain output of every owner except possibly the last |
| `Collapse.BalanceKept` | blockchain/consensus/attestation/crysp_validator.go:207-310 | a validated collapse without fee keeps an address's balance exactly when the coins taken from it add up to the claims on it |
| `Collapse.TruthfulKeepsBalances` | blockchain/consensus/attestation/crysp_validator.go:207-310 | if inputs state the true owners, every balance is unchanged |
| `Collapse.SingleOwnerTruthful` | blockchain/consensus/forger/forger.go:352-436 | a validated collapse of one owner, the only kind the forger builds, states the true owner |
| `Collapse.CrossedClaimsMoveCoins` | blockchain/consensus/attestation/crysp_validator.go:207-310 | a concrete validated collapse of three owners that moves coins between two of them: the claim "balances are unchanged" fails without the condition |
| `Staking.ApplyKeeps` | blockchain/consensus/staking/pool.go:70-191 | for each operation the exact guard on amount and pool under which the invariant survives: positive electors, own stake equals unit times slots, cumulative stake at least own stake plus electors, filled slots equal to their sum, filled plus reserved within the limit |
| `Staking.RunKeepsInv` | blockchain/consensus/staking/pool.go:70-244 | a run keeps the invariant in every state exactly when every operation meets its guard |
| `StakeBatches.StakesFit` | blockchain/consensus/staking/pool.go:70-103 | stake operations whose slots fit all succeed, and the filled slots grow by exactly theirs |
| `StakeBatches.ReservedBatchSucceeds` | blockchain/consensus/staking/pool.go:216-244 | if slots were reserved for each validator stake in turn, releasing the reservations and performing the stakes succeeds |
| `StakeBatches.StakeStepsShape` | blockchain/consensus/staking/pool.go:246-282 | a stake transaction asks for one validator stake, the sum of its black-hole outputs, in whatever order the map of electors is read |
| `StakeBatches.StakeBatchShape` | blockchain/consensus/staking/pool.go:360-383 | a batch of stake transactions asks for exactly its validator stakes, in order, whatever the map orders |
| `StakingPoolObject.StakingPool.RegisterValidatorStake` | blockchain/consensus/staking/pool.go:70-103 | granted exactly when the slots fit; filled slots grow by amount over unit; other validators, snapshot, electors and reservations stay; the invariant survives exactly under the guard |
| `StakingPoolObject.StakingPool.CancelValidatorStake` | blockchain/consensus/staking/pool.go:105-132 | granted exactly on at least one slot of a known validator; a partial cancellation keeps the validator's cumulative stake and electors, lowers its own stake by the amount and its slots by amount over unit, and leaves the snapshot alone; a full one removes this validator alone and enters each of its electors that is not yet listed into its row with its stake; all other validators stay; the invariant survives exactly under the guard |
| `StakingPoolObject.StakingPool.MarkFullUnstake` | blockchain/consensus/staking/pool.go:589-599 | every elector of the validator not yet listed enters its row of the snapshot with its stake; listed ones and all other rows stay |
| `StakingPoolObject.StakingPool.RegisterElectorStake` | blockchain/consensus/staking/pool.go:134-156 | a stake on a missing validator goes to the snapshot and leaves the validators; one on a known validator touches no other; slots stay; the invariant survives exactly under the guard |
| `StakingPoolObject.StakingPool.CancelElectorStake` | blockchain/consensus/staking/pool.go:158-191 | succeeds exactly for an elector of the validator; stake, cumulative stake and pending system unstake shrink together, no other validator and no slot changes; the invariant survives exactly under the guard |
| `StakingPoolObject.StakingPool.ProcessSystemUnstake` | blockchain/consensus/staking/pool.go:324-358 | succeeds exactly for an entry of the snapshot, which it shortens or clears; validators, slots and all other entries stay; the invariant always survives |
| `StakingPoolObject.StakingPool.ReserveSlots` | blockchain/consensus/staking/pool.go:216-244 | grants exactly positive whole slots that fit beside filled and reserved ones, and changes only the reservations; the invariant always survives |
| `StakingPoolObject.StakingPool.FinalizeStaking` | blockchain/consensus/staking/pool.go:360-383 | releases the reservations and performs the operations of the transactions, one after the other and each in some map order, up to the first that fails |
| `StakingPoolObject.StakingPool.ProcessStakeTx` | blockchain/consensus/staking/pool.go:246-282 | the own stake first, then the stakes on validators in the order given, up to the first that fails |
| `StakingPoolObject.StakingPool.ProcessUnstakeTx` | blockchain/consensus/staking/pool.go:284-327 | refuses inputs that name different nodes or none; otherwise cancels own or elected stake of what the inputs hold less what is staked again |
| `StakingPoolObject.StakingPool.ProcessSystemUnstakeTx` | blockchain/consensus/staking/pool.go:329-358 | refuses anything but one output and some input; otherwise pays back to the elector on the validator of the first input |
| `StakeReading.ReadStake` | blockchain/consensus/staking/pool.go:247-260 | the loop over the outputs: the 64-bit sum on the black hole and the map of 64-bit sums by node |
| `StakeReading.ReadInputs` | blockchain/consensus/staking/pool.go:285-296 | the common node of the inputs and their sum, none exactly when two of them name different nodes after the first that names one |
| `StakeReading.TakeStaked` | blockchain/consensus/staking/pool.go:300-304 | the sum less every output that names a node, in 64-bit arithmetic |
| `StakingPoolObject.StakingPool.FinalizeReserved` | blockchain/consensus/staking/pool.go:360-383 | finalising exactly the stake transactions that were reserved never fails |
| `DepositBooks.StakeValidatorHeld` | blockchain/consensus/staking/pool.go:70-103 | an own stake adds its amount to what the pool holds for the validator on the black hole, and changes nothing else it holds |
| `DepositBooks.UnstakeValidatorHeld` | blockchain/consensus/staking/pool.go:105-132 | a cancelled own stake takes exactly its amount off; electors of a leaving validator stay held, as pay-backs |
| `DepositBooks.StakeElectorHeld` | blockchain/consensus/staking/pool.go:134-156 | an elector stake adds its amount to what the pool holds for the elector there, with the validator or in the snapshot |
| `DepositBooks.UnstakeElectorHeld` | blockchain/consensus/staking/pool.go:158-191 | a withdrawal takes exactly its amount off what is held for the elector there |
| `DepositBooks.PayOutHeld` | blockchain/consensus/staking/pool.go:324-358 | a pay-out takes exactly its amount off what is held for the elector there |
| `Agreement.UnstakeAsks` | blockchain/consensus/staking/pool.go:284-322 | an accepted unstake of one node asks the pool for its inputs minus what its outputs stake again, as a true number |
| `Agreement.TxFollows` | blockchain/consensus/staking/pool.go:246-358 | an accepted tidy transaction that the pool performs keeps the invariant, and for every address and node pool and ledger move by the same amount |
| `StakingRuns.BlockKeepsOrder` | blockchain/consensus/staking/pool.go:360-383 | an accepted block of tidy transactions keeps the pool invariant and, for every address and node, the agreement of pool and ledger |
| `StakingRuns.RunStaysInOrder` | blockchain/consensus/staking/pool.go:360-383 | the same in every state of every run of such blocks and reservations |
| `StakingRuns.EmptyInOrder` | blockchain/consensus/staking/pool.go:45-68 | an empty pool over a ledger without deposits is such a start |
| `StakingRuns.RunPaysRewards` | blockchain/consensus/staking/pool.go:385-424 | in every state of such a run the rewards of a block never divide by zero and stay within the block reward, for electors staking below 2^63 |
| `Refusals.TxDecided` | blockchain/consensus/staking/pool.go:246-358 | on a pool that covers it, an accepted tidy transaction is performed exactly when: a stake has slots for its own part; an own unstake takes something off; an unstake from a validator finds it there; a system unstake finds it gone |
| `Refusals.BlockDecided` | blockchain/consensus/staking/pool.go:360-383 | an accepted block of tidy transactions on a pool that agrees with the ledger is performed exactly when each transaction is performable at its turn |
| `Refusals.SavedIffPerformed` | blockchain/core/service.go:243-250 | on a node in order a due block of tidy transactions is saved exactly when they are all performable at their turns, and otherwise ends with the error of the staking pool |
| `Untidy.MovedNodeBreaksPool` | blockchain/consensus/attestation/crysp_validator.go:582-601 | an accepted unstake that moves half of an own stake to another node takes a sound pool to one without the invariant |
| `Untidy.MovedStakeOverpays` | blockchain/consensus/staking/pool.go:284-322 | two accepted unstakes of an elector, the first moving coins between validators, after which the reward map pays almost 2^64 out of a reward of 4 |
| `Untidy.ReturnBreaksPool` | blockchain/consensus/staking/pool.go:158-191 | a validator leaves with a pay-back pending and returns; an accepted unstake of the elector over old and new deposits then takes a sound pool to one without the invariant |
| `Stray.StrayDepositIsHollow` | blockchain/consensus/staking/pool.go:246-282 | an accepted stake for another address and an accepted unstake of the validator, after which the pool wants the sender paid and the forger builds a system unstake without inputs that no validator accepts |
| `Stray.OwedHasDeposits` | blockchain/consensus/forger/forger.go:439-511 | on a node whose pool agrees with its ledger, everyone still owed a pay-back has deposits to pay it from |
| `Rewards.RewardsPaid` | blockchain/consensus/staking/pool.go:385-424 | in every pool with the invariant and electors staking below 2^63 the reward map never divides by zero, pays at most the reward, and where the cumulative stake is exact loses less than one unit per elector |
| `Rewards.HugeStakeOverpays` | blockchain/consensus/staking/pool.go:400-413 | with electors staking 2^63 or more the conversion to int64 makes the code credit almost 2^64: why RewardsPaid asks for less |
| `Rewards.RewardsExactly` | blockchain/consensus/staking/pool.go:394-420 | in plain numbers, in every pool with the invariant and electors below 2^63: each elector gets stake times (reward - reward * percent / 100) over the cumulative stake less the own stake, rounded down, and is absent when that is 0; the proposer gets reward * percent / 100, plus its share if it elects itself; nobody else is paid |
| `StakingPoolObject.StakingPool.GetRewardMap` | blockchain/consensus/staking/pool.go:385-424 | the loop over electors computes the reward map; under the invariant, with electors below 2^63, it holds for every address exactly the plain amounts of RewardsExactly |
| `StakingPoolObject.StakingPool.WeighValidators` | blockchain/consensus/staking/pool.go:538-544 | weights and their 64-bit sum, whatever the iteration order; while nothing wraps a weight is self / unit * 100 + (cumulative - self) / unit * premium |
| `StakingPoolObject.StakingPool.Choose` | blockchain/consensus/staking/pool.go:558-569 | the loop with its break picks the first proposer whose running sum reaches the draw |
| `StakingPoolObject.StakingPool.DetermineProposer` | blockchain/consensus/staking/pool.go:527-572 | the leader is the pick for the draw over those weights, or the first proposer without any weight; if every staking validator is listed once and weights do not wrap a leader is always found and has positive weight |
| `Leader.FairShare` | blockchain/consensus/staking/pool.go:527-572 | exactly weight(v) of the draws 1..total choose a listed validator v |
| `Leader.LeaderExists` | blockchain/consensus/staking/pool.go:558-569 | a draw finds a leader exactly when it is at most the listed weight |
| `Leader.LeaderAlways` | blockchain/consensus/staking/pool.go:558-569 | every draw finds a leader exactly when every validator of positive weight is listed |
| `Leader.WeightIsPlain` | blockchain/consensus/staking/pool.go:538-544 | while nothing wraps the weight is 100 for each slot of own stake and the premium for each slot of the electors |
| `Leader.OwnSlotWeighs` | blockchain/consensus/staking/pool.go:538-544 | one more unit of own stake raises the weight by exactly 100 |
| `Leader.ElectorSlotWeighs` | blockchain/consensus/staking/pool.go:538-544 | one more unit staked by electors raises the weight by exactly the premium |
| `Leader.NoSlotWeighsNothing` | blockchain/consensus/staking/pool.go:538-544 | less than a unit of own stake and less than a unit of electors weigh nothing |
| `Seeds.SeedCollector.Combine` | validator/service.go:424-428 | the multiplication loop never overflows 64 bits and yields the product of all seeds modulo the prime, in any iteration order |
| `Seeds.SeedCollector.HandleSeedEvent` | validator/service.go:409-432 | a signed seed replaces the one of its validator, and the common seed is recomputed |
| `Seeds.SeedCollector.HandleAll` | validator/service.go:409-432 | after any events the map holds the last signed seed of each validator and the seed belongs to it |
| `Seeds.SameSeed` | validator/service.go:409-432 | nodes that receive the same seeds, one per validator, in any order and with repeats, agree on the seed |
| `TxPool.Sort` | blockchain/core/attestation/pool.go:450-452 | a rearrangement in which fee prices never rise and equal prices stand in order of their timestamps |
| `TxPool.DistinctSenders` | blockchain/core/attestation/pool.go:55-88 | pending transactions have distinct senders, each with its own entry |
| `TxPool.PendingIsHashMap` | blockchain/core/attestation/pool.go:147-159 | the queue holds exactly the entries of the hash map that are no collapse transactions, all of standard kinds |
| `TxPool.Pool.Insert` | blockchain/core/attestation/pool.go:55-109 | added, replaced, kept or refused, each exactly when the code says, and what the pool then holds; the old transaction is replaced exactly when its fee price is higher, or equal with an earlier timestamp; at most 998 entries stay at most 998 |
| `TxPool.Pool.Swap` | blockchain/core/attestation/pool.go:112-145 | the new transaction takes the old one's place in the queue and both maps, unless the old one is already forged |
| `TxPool.Pool.CleanWorst` | blockchain/core/attestation/pool.go:161-177 | removes one transaction from all three views: no other has a lower fee price, and none of the same price is later |
| `TxPool.Pool.InsertCollapseTx` | blockchain/core/attestation/pool.go:203-233 | files one after the other under all owners in both maps, keeps what it filed before the first that is no collapse or has an owner with an entry, and fails there; those filed had no owner with an entry and share none |
| `TxPool.Pool.GetQueue` | blockchain/core/attestation/pool.go:235-243 | sorts the queue in place and keeps its members: fee prices never rise, equal prices stand in order of their timestamps |
| `TxPool.Pool.FindPoolTransaction` | blockchain/core/attestation/pool.go:292-327 | finds the transaction or the one its sender has in the pool |
| `TxPool.Pool.Finalize` | blockchain/core/attestation/pool.go:257-290 | afterwards neither a block's transactions nor any of their senders is in the pool; pending transactions of all other senders are kept and nothing is added |
| `TxPool.Pool.CleanUpSystemUnstake` | blockchain/core/attestation/pool.go:374-389 | the elector's stake or unstake that names the node leaves all three views, and nothing else changes |
| `TxPool.Pool.DeleteTransaction` | blockchain/core/attestation/pool.go:391-412 | removes exactly this transaction, or reports that it is not pending |
| `TxPool.Pool.ClearForged` | blockchain/core/attestation/pool.go:422-438 | takes back the marks of the held transactions of a block |
| `TxPool.Pool.Run` | blockchain/core/attestation/pool.go:55-438 | after any sequence of operations the three views agree, and without collapse transactions there are at most 998 entries |
| `Forged.CollapseAccepted` | blockchain/consensus/forger/forger.go:352-436 | the validator accepts every collapse of plain outputs of one address, complete or cut at 1999 |
| `Forged.UnstakeAccepted` | blockchain/consensus/forger/forger.go:439-511 | the validator accepts every repayment of an elector's deposits on a validator |
| `Forged.ApartIsDistinct` | blockchain/consensus/forger/forger.go:56-232 | transactions whose claims on outputs do not overlap never name an output twice |
| `Drafts.FineSums` | blockchain/consensus/forger/forger.go:275-301 | over the transactions of a draft, inputs equal outputs plus fees |
| `Drafts.FinishedBalance` | blockchain/consensus/forger/forger.go:201-219 | with the fee transaction appended a list of fine transactions with disjoint claims passes the balance check |
| `Drafts.FinishedJudged` | blockchain/consensus/forger/forger.go:201-219 | of a finished list the validator passes exactly the members that are good: standard ones that pass now, system unstakes with inputs, and everything else the forger builds |
| `ForgerObject.CreateRewardTxs` | blockchain/consensus/forger/forger.go:303-350 | all rewards in their order, cut into transactions of exactly 2000 outputs and a shorter last one, each of which the validator passes |
| `ForgerObject.CreateFeeTx` | blockchain/consensus/forger/forger.go:275-301 | one output with the 64-bit sum of the fees, or nothing when that is zero |
| `ForgerObject.Forger.CreateCollapseTx` | blockchain/consensus/forger/forger.go:352-436 | of the recipients that hold at least 100 outputs, except the sender and those dealt with before, each gets its collapse in the order of the outputs, until 30 are built or the next one does not fit; the recipients seen are skipped from now on |
| `ForgerObject.DueMeans` | blockchain/consensus/forger/forger.go:364-392 | the addresses to collapse are exactly the recipients with at least 100 outputs that are not skipped, each once |
| `ForgerObject.Forger.AddStandard` | blockchain/consensus/forger/forger.go:157-195 | the transaction joins the batch and is marked; its collapses join exactly when none of their addresses has an entry in the pool, and their size is counted either way |
| `ForgerObject.Forger.AddReward` | blockchain/consensus/forger/forger.go:247-269 | the reward transaction joins the batch; its collapses join exactly when none of their addresses has an entry in the pool, otherwise the loop ends |
| `ForgerObject.Forger.AddRewards` | blockchain/consensus/forger/forger.go:234-273 | reward transactions with their collapse transactions; complete for up to 2000 recipients, and within the block size exactly when the reward transaction is |
| `ForgerObject.Forger.CheckStake` | blockchain/consensus/forger/forger.go:118-155 | granted exactly when no output is forbidden to the sender, one stakes, the slots can be reserved, and no error of an earlier stake is set; the slots are reserved exactly then; the error is set exactly by a refusal for another reason than staking nothing, and stays |
| `ForgerObject.Forger.ForgeOne` | blockchain/consensus/forger/forger.go:96-196 | the body of the queue loop keeps the draft sound, sized and reserved; unless the block is full it takes every transaction that was not evicted, a stake exactly when it is granted; a refused stake, and nothing else, leaves the pool; what is taken is marked as forged |
| `StakeQueue.StandsNext` | blockchain/consensus/forger/forger.go:96-196 | one turn of the loop keeps the account of the stakes: who was taken and refused, the error flag, the slots reserved and the pending transactions all follow from the queue |
| `StakeQueue.DecidedInBlock` | blockchain/consensus/forger/forger.go:96-199 | what the loop decided about the stakes of the queue holds of the finished block |
| `ForgerObject.RepaymentHollow` | blockchain/consensus/forger/forger.go:439-511 | for a pair without deposits the forger builds a transaction of 177 bytes without inputs, which the validator refuses |
| `ForgerObject.HollowIffThrough` | blockchain/consensus/forger/forger.go:439-511 | one of those is in the block exactly when such a pair is not blocked by the batch and its 177 bytes fit at its turn |
| `ForgerObject.NothingThrough` | blockchain/consensus/forger/forger.go:439-511 | in any order none is, beside a stake or unstake, without 177 bytes of room, or when every pair has deposits |
| `ForgerObject.AlwaysThrough` | blockchain/consensus/forger/forger.go:439-511 | in any order one is, when it is not blocked and there is room for all repayments |
| `ForgerObject.PayableNothing` | blockchain/consensus/forger/forger.go:439-511 | when every pair of the snapshot has deposits none gets through, whatever the order, the batch and the room |
| `ForgerObject.Forger.GenerateSystemUnstakes` | blockchain/consensus/forger/forger.go:439-511 | in some order of the snapshot, the repayments of exactly the pairs that the batch does not block and that still fit; none when the batch stakes or unstakes |
| `ForgerObject.Forger.ForgeBlock` | blockchain/consensus/forger/forger.go:56-232 | never fails; takes standard transactions only from the queue, none evicted; of the part of the sorted queue that it reaches, which is all of it unless the block is full, it takes every transaction that is no stake, and a stake exactly when its outputs are allowed and one stakes, no earlier stake was refused with an error, and what it puts on the black hole is nothing or whole slots that are free after those of the stakes taken before it; exactly the refused stakes leave the pending transactions, and exactly what is taken is marked as forged; then come exactly the repayments that this front part does not block and that fit the size counted, which covers the front part; the validator passes exactly the good members; slots are reserved for exactly its stakes; with up to 2000 recipients the validator accepts it exactly when the reward transaction fits, the standard transactions taken pass now, and no pair without deposits gets through, so always when the reward fits, all pending transactions pass and all pairs have deposits |
| `Feed.Find` | events/feed.go:197-204 | the first case with the channel, or none |
| `Feed.Delete` | events/feed.go:207-209 | everything behind the index moves down by one, in place |
| `Feed.Deactivate` | events/feed.go:212-216 | the case and the last active one change places, in place |
| `Feed.Feed.Subscribe` | events/feed.go:56-76 | the channel joins the inbox, and the subscription is on record |
| `Feed.Feed.Remove` | events/feed.go:87-99 | the channel leaves the inbox, or waits as a removal that has a case to remove; either way the request is on record |
| `Feed.Feed.FindWaiting` | events/feed.go:156-157 | a waiting removal always finds its channel, and behind slot 0 |
| `Feed.Feed.RemoveNow` | events/feed.go:104-107 | outside a Send exactly one case of the channel is removed |
| `Feed.Feed.Select` | events/feed.go:153-165 | either a waiting removal is carried out and on record as deleted, or the channel of an active case takes the value: exactly one entry more in the deliveries; the accounting of the round holds and the sum of both lengths falls |
| `Feed.Feed.Send` | events/feed.go:112-174 | whatever others do in its pauses: the deliveries grow by exactly the served channels, whom the result counts; every subscription of the start is served or was removed before its turn; exactly the removed ones are gone, and whoever is gone or waits had asked before or asked in one of the pauses, of which there are at most four per subscriber; slot 0 stays |
| `Feed.ExactlyOnce` | events/feed.go:112-174 | a channel subscribed once never takes the value twice, and takes it exactly once unless its removal had been asked for before the Send or in one of its pauses |
| `SimClock.RootFirst` | mclock/simclock.go:170-172 | the root of a heap is due before every other timer |
| `SimClock.UpStep` | mclock/simclock.go:174-178 | an exchange on the way up leaves only the next edge up in doubt |
| `SimClock.DownStep` | mclock/simclock.go:174-178 | an exchange with the smaller child leaves everything outside that child in order |
| `SimClock.Clock.Schedule` | mclock/simclock.go:118-126 | a new timer is due d from now and in the heap |
| `SimClock.Clock.Stop` | mclock/simclock.go:128-139 | true exactly for a pending timer, which afterwards is not |
| `SimClock.Clock.Reset` | mclock/simclock.go:141-155 | pending or not, the timer is due d from now and the heap is in order |
| `SimClock.Clock.Run` | mclock/simclock.go:41-57 | fires exactly the timers due by then, each once, in order of their due times |
| `SimClock.Clock.IndexMeans` | mclock/simclock.go:174-193 | a timer's index is its place in the heap, and -1 exactly when it is not there |
| `Fetcher.StepKeeps` | blockchain/sync/block_fetcher.go:68-194 | every step of main loop, workers, handler and consumer keeps the invariant |
| `Fetcher.DeliveredInOrder` | blockchain/sync/block_fetcher.go:167-194 | in every state of every interleaving the delivered batches are start, start+64, ... in order, each once, and only grow |
| `Fetcher.TokensNeverBlock` | blockchain/sync/initial_sync.go:198-237 | at most ten batches are in flight or undelivered, and giving a token back never blocks |
| `Fetcher.RequestServed` | blockchain/sync/block_fetcher.go:129-139 | the request sent for a range, ten blocks longer and one more from slot 0, is valid for the server and its answer for the client |
| `Fetcher.CompletedRunCovers` | blockchain/sync/block_fetcher.go:129-194 | when the consumer sees the end, every request was delivered, and with servers that answer from one chain the batches hold every forged block from the start through ten slots behind the target |
| `BlockRange.GetBlocksRange` | blockchain/core/rdochain/service.go:317-339 | the forged blocks of the range, both ends included, in order |
| `BlockRange.Serve` | blockchain/sync/block_handlers.go:20-69 | a valid request is answered with the forged blocks of its range; the chunks tile the range exactly |
| `BlockRange.Receive` | blockchain/sync/block_handlers.go:114-166 | accepts exactly the streams within count, range, order and step, and then returns them whole |
| `BlockRange.StepOneAccepted` | blockchain/sync/block_handlers.go:114-166 | with step 1 and a count below 2000 the client accepts what the server sends, on every store |
| `BlockRange.AnyStepAccepted` | blockchain/sync/block_handlers.go:41-65 | the server ignores the step: for other steps the client accepts exactly when all distances happen to be multiples of it |
| `BlockRange.LinearAccepted` | blockchain/sync/block_handlers.go:114-166 | on a chain without gaps the exchange works exactly for at most one block, or step 1 and at most 2000 blocks |
| `Chain.LookupsFind` | blockchain/db/kv/blocks.go:129-154 | looking up by number and by hash finds exactly the blocks of the chain |
| `Chain.WriteExtends` | blockchain/db/kv/blocks.go:18-94 | a block that fits is never refused by the store and extends the stored chain |
| `Chain.BlockChain.GetBlockByNum` | blockchain/core/rdochain/blockchain.go:186-196 | the block of the chain with that number, or not forged beyond the head |
| `Chain.BlockChain.GetBlockByHash` | blockchain/core/rdochain/blockchain.go:199-205 | the block of the chain with that hash, if there is one |
| `Chain.BlockChain.CheckLinks` | blockchain/consensus/attestation/block_validator.go:145-205 | passes exactly for a new block numbered head plus one, with the hash of the head as parent and a later timestamp |
| `Chain.BlockChain.ValidateBlock` | blockchain/consensus/attestation/block_validator.go:105-229 | no error exactly when seal, links, size, balance and system transactions are right, and then exactly the failed standard transactions are listed; neither exactly for an accepted block in its place |
| `Chain.BlockChain.SaveBlock` | blockchain/core/rdochain/blockchain.go:133-183 | fails exactly on a wrong nonce and then changes nothing; otherwise the chain grows by the block, head and future number move on, nonces and statistics follow |
| `Chain.BlockChain.StoreBlock` | blockchain/core/rdochain/service.go:276-299 | outputs first, then the block: an error of the outputs changes nothing, an error of the block store leaves the outputs processed |
| `Chain.BlockChain.CheckBalance` | blockchain/core/rdochain/service.go:129-152 | passes exactly when the supply equation holds in 64-bit arithmetic |
| `Accounts.UpdateBlockAccountState` | blockchain/db/kv/pool.go:61-94 | the loop over senders computes the new nonces or fails on the first number that is neither the stored nonce nor the next |
| `Accounts.StoredStays` | blockchain/db/kv/pool.go:75-86 | a stored nonce never changes again; an address gets one exactly by sending |
| `Accounts.FittingStored` | blockchain/db/kv/pool.go:61-94 | an accepted block is never refused for its numbers |
| `Accounts.RunOfOnes` | blockchain/db/kv/pool.go:127-145 | over any run of accepted blocks from an empty store the nonce that GetTransactionsCount returns is 0 or 1: first transactions carry number 1, all later ones number 2 |
| `Core.Service.Check` | blockchain/consensus/attestation/block_validator.go:105-229 | crashes exactly when size, balance, seal and links are right and verification reaches a reward map that divides by zero; answers without error exactly when the block passes |
| `Core.Service.ReachRewards` | blockchain/consensus/attestation/block_validator.go:231-290 | verification asks for the rewards exactly when no system transaction before the first reward transaction fails and that one has the right number |
| `Core.Service.CheckGenesis` | blockchain/consensus/attestation/block_validator.go:68-88 | block 0 is answered without error exactly when it has the genesis hash, a right header and the hashes of the genesis transactions; other transactions panic |
| `Core.Service.FinalizeBlock` | blockchain/core/service.go:217-259 | each outcome with its exact condition and the node it leaves: refused and crashed blocks change nothing, a wrong number is found after the outputs have changed; a stored block extends chain, statistics and nonces and performs its staking operations up to the first failure, and exactly its senders are cleared from the queue |
| `Nodes.ElectorsCounted` | blockchain/consensus/staking/pool.go:491-499 | a validator counts as many stakers as it has electors |
| `Nodes.StoredIff` | blockchain/core/service.go:217-259 | a block is stored, and extends the chain, exactly when it passes, its outputs fit the ledger and its numbers the nonces |
| `Chain.BlockChain.ChainIsLinear` | blockchain/core/service.go:217-259 | every block of the chain: number one more, parent hash that of the block before, timestamp later |
| `Core.Service.FinalizeAll` | blockchain/core/service.go:217-259 | a run over any blocks goes through nodes linked by FinalizeBlock, from the node before to the node after; the chain only grows, by one block for each stored; if every block is due at the node it meets and the supply was balanced, every block is stored and CheckBalance never fails |
| `Nodes.ChainGrows` | blockchain/core/service.go:217-259 | over any run the chain is extended by one block for each that is stored, and never changed otherwise |
| `Nodes.DueRunBalances` | blockchain/core/service.go:217-259 | every block of a run of due blocks is stored and leaves the supply equation true |
| `Nodes.DueRunIsExact` | blockchain/core/rdochain/blockchain.go:152-165 | over a run of due blocks from an exact start unspent total plus fees equals what was issued, as true numbers |
| `Core.Service.RunFromGenesis` | blockchain/core/service.go:217-259 | from the genesis outputs: over due blocks every block is stored and CheckBalance never fails, and with what is issued below 2^64 the supply equation holds as true numbers |
| `Nodes.DueIsStored` | blockchain/core/service.go:217-240 | a due block passes validation, the output store and the block store |
| `Core.Service.Receive` | blockchain/core/attestation/pool.go:55-88 | what enters the pool passes the validator now, and if all pending transactions but stakes passed before they pass after |
| `Core.Service.FinalizeKeepsQueue` | blockchain/core/service.go:236-250 | after an accepted block whose collapses have one owner each, every pending transaction that is no stake passes the validator again |
| `Survival.RowStays` | blockchain/core/rdochain/output_manager.go:57-129 | an output is there after a block exactly when the block does not spend it, and is then unchanged |
| `Survival.TakenIsSpent` | blockchain/consensus/attestation/crysp_validator.go:138-310 | an accepted block takes only outputs of owners that its transactions name |
| `Survival.SurvivesIff` | blockchain/consensus/attestation/crysp_validator.go:138-204 | a transaction that passed before an accepted block of other senders passes after it exactly when the block took none of its inputs and, if it is a stake, the staking pool still admits it |
| `Survival.UntouchedSurvives` | blockchain/consensus/attestation/crysp_validator.go:138-204 | that is so whenever no transaction of the block names its sender as an owner |
| `Survival.LeftoversPass` | blockchain/core/attestation/pool.go:257-290 | of what the pool keeps after an accepted block without collapses of several owners, everything but stakes still passes |
| `Merkle.OneLeft` | utils/hash/merklee.go:15-61 | after half as many rounds as leaves, rounded up, exactly one node is left: the panic cannot happen |
| `Merkle.MerkleeRoot` | utils/hash/merklee.go:15-61 | the nested loops compute the root function |
| `Merkle.GenTxRoot` | utils/hash/merklee.go:63-73 | the root of the transaction hashes |
| `Merkle.Collision` | utils/hash/merklee.go:15-61 | different lists of equal length with equal roots: two different byte strings hashed on the way have the same hash |
| `Merkle.RootDetermines` | utils/hash/merklee.go:63-73 | equal transaction roots of equally many transactions mean equal hashes, or such a computed collision |
| `Generator.CountTxFee` | shared/types/transaction.go:83-103 | the fee of every transaction finished from the options, and of every one with a plain change output added, whoever gets it; the second is the first plus the price of 36 bytes |
| `Generator.ChangeSize` | shared/types/transaction.go:83-103 | any plain change output costs what the placeholder costs |
| `Generator.GenTxStruct` | generator/service.go:331-374 | while the sums fit a word it answers exactly when the inputs equal the outputs plus fee price times size, with the outputs below the inputs, and then with the options as they are, or exceed the outputs plus fee price times (size + 36), and then with one more output, the change, of exactly the difference; beyond that exactly when the same comparisons hold of the words; whatever it answers pays for itself |
| `Generator.FittingAnswer` | generator/service.go:331-374 | the answer in words is the answer in plain numbers while every sum and price fits a word |
| `Generator.CreateTx` | generator/service.go:376-397 | answers exactly as genTxStruct on the inputs, with the same outputs; the transaction has the inputs, number, kind and fee price asked for and no data; it balances modulo 2^64, and truly exactly when neither sum reaches 2^64 |
| `Generator.GenerateUnstakeTx` | generator/service.go:223-298 | answers exactly on enough deposits in whole slots, with an unstake at the fee price asked for that pays the amount less the fee to the address and stakes the rest on the node; it balances with a positive first output exactly when the deposits fit a word and the amount exceeds the fee |

## Left out

- Networking, gossip, gateway, gRPC, metrics, command line, key files: input and output.
- SQL and key-value storage beyond maps, write failures other than a wrong nonce, resynchronisation (`SyncData`),
  restarts from an existing database.
- Locks and goroutine scheduling: each operation of pool, staking pool and chain is one atomic step; feed and fetcher
  are modelled step by step. Insert returning with its mutex held when the sender is empty is not modelled.
- Liveness of the fetcher: a worker that never gets a token can keep the handler waiting, and timers, contexts and
  sleeps decide that.
- The pool-wide `cumulativeStake` is carried but nothing is claimed of it: it is not exact when an elector stakes on a
  missing validator.
- The map of stake transactions in the pool and the limit on stakers that it feeds: it is not kept in step by eviction
  and by swaps. The order in which replacements are preferred is modelled without a claim of fee monotonicity.
- A bound on the number of transactions of a forged block: the code's limit is an equality test that several collapse
  transactions can step over.
- Canonical SSZ decoding: the first offset is only bounded below, so other bytes can decode to the same block.
- Voting, signatures and hash trees (`IsEnoughVotes`, `HashTreeRoot`, Keccak, secp256k1).
- Peer selection (`findPeersForSync`, malicious peers) and the retry loop around requests.
- Callbacks of fired timers run after `Run` has released its lock; the model returns the list of timers instead.
- Typechecking of feed channels, and buffering: which sends succeed at once is left to chance.
- Rewards.RewardsPaid: the converse is not stated; beyond 2^63 whether the sum stays within the reward depends on each stake.
- ForgerObject.Forger.ForgeBlock: the statement on size and acceptance is for up to 2000 reward recipients (the
  configured limit of electors is 1000); with more, an early return of `addRewardsTxToBatch` can drop reward transactions.
- StakingRuns.RunStaysInOrder: speaks of runs of tidy transactions: outputs that stay staked belong to the sender and keep
  the node of the inputs, sums fit a word, nobody signs for the black hole, and a validator that has left returns only
  when all pay-backs on it are done. Accepted transactions outside these conditions are the subject of `Untidy.dfy`.
- Survival.LeftoversPass: stakes are left to `Survival.SurvivesIff`, which says what they depend on.
- The resynchronisation that follows an `Unsaved` block, and the crash of the output manager on a failed standard
  transaction without inputs.
- StakingPoolObject.StakingPool.DetermineProposer: the electors' coefficient is an integer parameter (the float factor
  times 100, cut to an integer), and the wrapped sum of weights must be below 2^63,
  where the generator would panic; so would the choice of the first proposer from an empty list.
- Generator: `GenerateStakeTx` and key handling; they call the same `createTx`.
