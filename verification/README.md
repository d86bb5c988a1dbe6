# A model of the chain stresser

The chain stresser prepares signed transactions for many accounts, broadcasts them to a Cosmos/EVM chain under rate
limits, replays the transactions of recorded blocks, issues ERC-4337 user operations, and generates the devnet it runs
against. This project models the protocols and the arithmetic behind those jobs and proves what they keep, over every
input, every interleaving and every run. `dafny verify dfyconfig.toml` checks the whole project.

| file | models |
|---|---|
| `SigningPipeline.dfy` | account tasks, signers and the collector around two bounded queues (`stresser.go`) |
| `SequenceLog.dfy`, `AccountBroadcast.dfy` | reading the expected sequence from a node's error text, and the broadcast loop that follows it (`chain/client.go`, `stresser.go`) |
| `TokenBucket.dfy`, `RateLimiter.dfy`, `Throughput.dfy` | one bucket, the three-metric limiter, and many accounts sharing it (`pkg/ratelimit`) |
| `Replay.dfy`, `ReplayBatch.dfy` | the block sniffer, the replay loop and the counters of a block (`replay/sniffer.go`, `payload/txns_replay_stress.go`, `stresser.go`) |
| `BigEndian.dfy`, `UserOp.dfy`, `UserOpNonces.dfy` | packing, hashing, signing and numbering of user operations (`eth/aa`, `payload/eth_userop_stress.go`); the layout is PackedUserOperation of the section "EntryPoint interface" of ERC-4337 v0.7, the signed text is version 0x45 of EIP-191 |
| `Genesis.dfy`, `Devnet.dfy`, `MixedPayload.dfy` | the genesis file, ports, addresses and peers (`generator.go`, `chain`), and the provider mix (`payload/mixed_payload.go`) |
| `Words.dfy` | 64-bit and 8-bit wrap-around shared by the others |

How runs are modelled: every concurrent component is a state machine whose steps are the channel, memory or limiter
operations of its goroutines. `Enabled` says when a step can happen, `Apply` what it does, and `Run` is any finite
sequence of enabled steps from the initial state. Main theorems quantify over `Run`. Where the source updates slices,
maps or fields in place there is also a method or a class that does so, proved against the same functions.

The goroutine library is taken at its documented word: a subtask marked `Exit` cancels the context when it returns, and
the group returns when all of its subtasks have.

Parameters stand for what lies outside: `sign` for a provider's signature, `keccak` for Keccak-256, `schedule` and
`plan` for the scheduler and the chain, `sort` for the library's ordering of genesis balances, times for the clock.
Keccak is not assumed to be injective, which no 32-byte hash is; the hashing theorems only assume that it does not
collide on the five pairs of messages they compare.

Results about the code that may surprise a maintainer:

- With zero transactions per account the collector exits at once and cancels the context while account tasks may still
  be fetching, which can kill the process (`SigningPipeline.DiesExactly`). If the phase returns, every initial sequence
  has been recorded all the same, because it waits for the tasks (`SigningPipeline.PhaseEndsComplete`).
- The broadcast loop panics on a negative index exactly when a broadcast meets an expected sequence below the one fetched
  at the start by at most 2^63, or above it by 2^63 or more (`AccountBroadcast.PanicsExactlyOutside`).
- The number of sequence changes bounds the length of the broadcast loop exactly when the sequence cannot fall back or the
  account has fewer than two transactions (`AccountBroadcast.TerminatesExactly`): otherwise a node that answers from its
  mempool cache can keep the loop going for ever after a single fall back.
- The nonce line is only read back exactly if no digit follows it (`SequenceLog.NonceRoundTrip`).
- A replay that has ended is certain to have replayed every block it was sent exactly when the configured range is empty,
  cancelled or not (`ReplayProtocol.CompleteExactly`): the done channel may be selected while blocks are buffered.
- Every transaction whose first broadcast fails is counted twice (`ReplayBatch.SummaryBalances`).
- Packing does not check the paymaster's limits; from 2^128 on, different paymaster fields pack to the same bytes
  (`UserOps.PaymasterAmbiguous`).
- Native port shifting is collision-free for 206 validators and no more, and only without sentry nodes, which keep the
  default ports; docker addresses are for 256 nodes and no more
  (`Devnet.PortsDistinctExactly`, `Devnet.AddressesDistinctExactly`).

## Model

| member | source | states |
|---|---|---|
| Words.SignedDifference | stresser.go:418-422 | `int(a - b)` on `uint64` is the true signed difference if and only if that difference fits in a signed 64-bit integer |
| Words.Add64Exact | stresser.go:321-321 | a `uint64` counter is advanced exactly and starts again from zero at 2^64 |
| SigningPipeline.StepInv | stresser.go:200-358 | every step of every goroutine keeps the invariant: conservation of slots, contents of every queued item, and the count of items |
| SigningPipeline.RunsConserve | stresser.go:200-358 | in every state of every interleaving the slots ungenerated, queued, held by signers, signed and collected add up, as a multiset, to the account-by-index grid, and each item carries the transaction for initial sequence plus index |
| SigningPipeline.CollectWritesFreshSlot | stresser.go:345-355 | a receive writes inside the grid and never to a slot already written, so every slot is written once |
| SigningPipeline.ReceivedSlotIsFresh | stresser.go:350-351 | conservation alone makes the received slot a new one |
| SigningPipeline.FinalComplete | stresser.go:340-358 | when the collector exits, the grid is full, the queues are empty, and slot (i, j) holds the bytes signed for initial sequence i plus j |
| SigningPipeline.FetchSticks | stresser.go:286-299 | in every state after an account's number and sequence were fetched, its task still holds that number and that sequence is the recorded one |
| SigningPipeline.CollectedAsFetched | payload/payload.go:76-94 | in every run, whatever is collected for slot (i, j) is the transaction signed for the fetched account number and the fetched sequence plus j |
| SigningPipeline.RunsWithinCapacity | stresser.go:195-200 | queues, signers and worker pool never exceed their sizes in any run |
| SigningPipeline.SequencesRecordedAtExit | stresser.go:286-288 | all initial sequences are recorded whenever the collector exits if and only if each account has a transaction or there are no accounts |
| SigningPipeline.PhaseEndsComplete | stresser.go:326-361 | when the phase returns, which waits for the account tasks, the grid is full and every initial sequence is recorded, for any number of transactions |
| SigningPipeline.DiesExactly | stresser.go:274-284 | the cancellation by the collector's exit can kill the process if and only if there are accounts and they have no transactions |
| SigningPipeline.SomeStepEnabled | stresser.go:195-229 | no deadlock: in every reachable state some step is enabled until the phase is over, for any positive queue capacities and numbers of workers and signers |
| SigningPipeline.StepReducesWork | stresser.go:304-322 | every step strictly lowers a non-negative weighted count of the remaining work |
| SigningPipeline.RunsAreBounded | stresser.go:193-358 | no run has more than 4 * accounts * transactions + 2 * accounts + 1 steps |
| SigningPipeline.MaximalRunsComplete | stresser.go:193-361 | every run that cannot be extended has filled the grid correctly, and has recorded every sequence or died |
| SigningPipeline.Execute | stresser.go:286-288 | one step with the slices written in place keeps them equal to the abstract state |
| SigningPipeline.Prepare | stresser.go:340-358 | under an arbitrary scheduler the phase ends; unless the process died, each row holds the transactions signed for the number and sequence fetched for that account in the run, and the sequence slice that sequence |
| SequenceLog.DecimalRoundTrip | chain/client.go:374-374 | printing a number in decimal and reading the digits gives the number |
| SequenceLog.SearchCorrect | chain/client.go:353-354 | the search is correct and complete for the regular expression: it returns the leftmost match with the longest numbers, and fails only if nothing matches |
| SequenceLog.CheckMeaning | chain/client.go:369-382 | for every log with a match, the number captured by the leftmost one is reported if it is below 2^64, and a plain error otherwise |
| SequenceLog.CheckUnmatched | chain/client.go:370-372 | a log without a match gives a plain error |
| SequenceLog.SequenceRoundTrip | chain/client.go:361-383 | an expected sequence printed into the line "account sequence mismatch, expected ..., got ..." of code 32 is read back exactly whatever text follows, and a value of 2^64 or more is never reported as a sequence error |
| SequenceLog.NonceRoundTrip | chain/client.go:385-404 | the line "invalid nonce; got ..., expected ..." of code 3 is read back exactly if and only if no digits follow it, or zero is followed by zeros |
| AccountBroadcast.Broadcast | chain/client.go:124-168 | retries exactly while the mempool is full; the first other answer is a success with its hash for a passed check or a transaction seen before, an error about the sequence only for two codes of the SDK, and any other error otherwise; without such an answer it is the timeout |
| AccountBroadcast.AnswerMeaning | chain/client.go:143-161 | through printing, classification, search and parse, a transaction is sent if and only if it carries the expected sequence, and otherwise that sequence comes back |
| AccountBroadcast.SubmitMeaning | stresser.go:407-435 | for every expected sequence, one turn of the loop advances on acceptance, which is exactly at the transaction's own sequence, and otherwise jumps to the wrapped difference, although it goes through retries and text |
| AccountBroadcast.CacheHitMeaning | chain/client.go:132-139 | a transaction answered from the mempool cache counts as sent and moves the index on by one |
| AccountBroadcast.FaultMeaning | stresser.go:425-426 | an error that says nothing about the sequence ends the loop where it is |
| AccountBroadcast.IndexMeaning | stresser.go:418-422 | for every 64-bit sequence the wrapped index is negative, among the transactions, or the true difference under exactly the stated conditions |
| AccountBroadcast.PanicsExactlyOutside | stresser.go:407-422 | in every run the loop indexes below the transactions if and only if some broadcast met an expected sequence up to 2^63 below the start or 2^63 and more above it |
| AccountBroadcast.NeverNegative | stresser.go:407-422 | while no broadcast meets such a sequence, the index is never negative |
| AccountBroadcast.AcceptedInOrder | stresser.go:407-435 | if the chain's sequence never moves back, transactions are accepted at most once and in strictly increasing index order |
| AccountBroadcast.ForwardRunsAccounted | stresser.go:407-435 | in every such state the sequences from start to expected are split exactly between accepted and foreign transactions |
| AccountBroadcast.ExitAccountsForEveryTx | stresser.go:407-435 | on exit of such a run the expected sequence has reached start + N, and an index was accepted if and only if its sequence was not consumed by somebody else; a panic needs a sequence 2^63 ahead |
| AccountBroadcast.FailsExactly | stresser.go:425-426 | the loop has returned an error if and only if some broadcast came back with such an error |
| AccountBroadcast.FailedForGood | stresser.go:425-426 | after that nothing is broadcast any more |
| AccountBroadcast.StepReducesRank | stresser.go:407-435 | each step lowers the lexicographic measure of outside events left, out-of-sync flag and index left |
| AccountBroadcast.BroadcastTerminates | stresser.go:407-435 | a run with d outside events, sequence changes and cache answers, has fewer than (d + 1)(2N + 2) steps |
| AccountBroadcast.NoCacheHits | chain/client.go:132-140 | without a fall back, or with fewer than two transactions, the node never answers from its cache |
| AccountBroadcast.ChangesLimitSteps | stresser.go:407-435 | then a run with d sequence changes has fewer than (d + 1)(2N + 2) steps |
| AccountBroadcast.TerminatesExactly | stresser.go:407-435 | for every number of sequence changes there is a bound on the length of runs if and only if the sequence cannot fall back or there are fewer than two transactions |
| AccountBroadcast.CacheHitsCanLoop | chain/client.go:132-140 | for two transactions or more and every length there is a longer run with a single sequence change that has made no progress |
| AccountBroadcast.BroadcastAll | stresser.go:407-435 | the loop as it executes yields such a run, ends past the last index, in the panic or with an error, and without an error accounts for every transaction if the chain never moves back |
| TokenBuckets.ReserveStep | pkg/ratelimit/bucket.go:31-36 | grants come in order, never before the request, and the level rises no faster than time between them |
| TokenBuckets.RoomStep | pkg/ratelimit/bucket.go:31-36 | each reservation keeps the room left in a window consistent with the balance, also when it goes negative |
| TokenBuckets.WindowBound | pkg/ratelimit/limiter.go:10-15 | for any callers, the tokens granted at times in [s, t] are at most burst + rate * (t - s) |
| TokenBuckets.WindowBoundIsTight | pkg/ratelimit/limiter.go:10-15 | the bound is reached in every window worth a whole number of tokens, whatever rate, burst and start |
| TokenBuckets.Limiter.Wait | pkg/ratelimit/bucket.go:31-36 | non-positive requests pass, requests above the burst are refused, all others are charged at once and granted when the balance is back at zero |
| TokenBuckets.RateOf | pkg/ratelimit/bucket.go:26-26 | the specification's bucket for a limiter is refilled at the limiter's rate |
| RateLimiting.TpsBurst | pkg/ratelimit/config.go:86-95 | the configured size if there is one; otherwise the smallest whole number, at least one, covering a second's worth |
| RateLimiting.SaturatingBurst | pkg/ratelimit/config.go:98-129 | the configured size if there is one; otherwise a second's worth, at most the largest `int`, and one if the rate is zero |
| RateLimiting.ChunksCharge | pkg/ratelimit/bucket.go:139-176 | chunking asks only for chunks between one and the burst, charges exactly the amount and never goes back in time |
| RateLimiting.NewLimiter | pkg/ratelimit/bucket.go:18-28 | fails if and only if the rate or the burst is not positive; a new limiter has that rate and burst and starts full |
| RateLimiting.WaitInChunks | pkg/ratelimit/bucket.go:139-156 | for every amount the chunk loop terminates, asks only for chunks between one and the bucket's burst, is never refused, and charges exactly the amount |
| RateLimiting.MultiLimiter.constructor | pkg/ratelimit/bucket.go:76-107 | builds a limiter for exactly the configured rates, each of them full, with the configured burst size or else a second's worth of its own rate, and never fails |
| RateLimiting.MultiLimiter.WaitForTransaction | pkg/ratelimit/bucket.go:127-179 | charges one transaction token, then exactly the size, then exactly the gas, each in chunks the bucket serves and each from the moment the wait before it is granted |
| Throughput.RunsLimited | pkg/ratelimit/bucket.go:127-179 | in every interleaving of accounts each limiter receives only requests it can serve, at times that never decrease |
| Throughput.AllLimitsHold | pkg/ratelimit/bucket.go:127-179 | in every run and every window each of the three limiters grants at most burst + rate * length |
| Throughput.RunsPaid | stresser.go:759-767 | for transactions, bytes and gas alike: what is started in a window plus what accounts still hold is covered by grants in the window plus one largest transaction per account |
| Throughput.StartsBounded | stresser.go:407-435 | in every run and window the transactions, bytes or gas of broadcasts started are at most burst + rate * (t - s) + A * the largest amount of one transaction |
| Throughput.BroadcastsBounded | stresser.go:407-435 | with A accounts, broadcasts started in any window [s, t] are at most TPS burst + TPS * (t - s) + A |
| Throughput.ConfiguredBounds | pkg/ratelimit/bucket.go:76-107 | the same three bounds in terms of the configuration's own rates and burst size |
| Throughput.WaitsInOrder | pkg/ratelimit/bucket.go:127-179 | in every run bytes are taken only with the transaction token granted, gas only with all bytes granted, and a broadcast starts only with everything granted |
| Throughput.BroadcastBoundIsTight | stresser.go:407-435 | with at least one account some run reaches that bound, in a window worth any whole number of tokens |
| Throughput.CallAsSteps | pkg/ratelimit/bucket.go:127-179 | an undisturbed limiter call is a sequence of steps of the concurrent model with the same requests at the same times |
| ReplayProtocol.BlockTxs | payload/txns_replay_stress.go:105-110 | the batch is exactly the non-empty transactions of the block, in order |
| ReplayProtocol.StepInv | replay/sniffer.go:62-136 | every step of sniffer and replay loop keeps order and signalling of the channels |
| ReplayProtocol.RunsReplayPrefix | payload/txns_replay_stress.go:98-131 | in every run, with retries, errors and timeouts, the processed transactions are those of a gap-free prefix of the blocks from the start height, and the buffered blocks follow it |
| ReplayProtocol.DrainedRunsAreComplete | stresser.go:502-516 | a run that ends on the drained channel has processed everything ever sent, up to the end height unless the sniffer gave up |
| ReplayProtocol.ClosedForGood | replay/sniffer.go:63-67 | once the block channel is closed nothing is sent in any later state |
| ReplayProtocol.TriedTenTimes | replay/sniffer.go:92-130 | without a cancellation an error is reported after exactly ten failed fetches in a row |
| ReplayProtocol.OneErrorAtMost | replay/sniffer.go:124-130 | in every run at most one error is reported, and it is received at most once |
| ReplayProtocol.DoneCanLeaveBlocksBehind | payload/txns_replay_stress.go:122-123 | for every configuration with an end above the start, a run without cancellation or failure that ends with a block sent and not replayed |
| ReplayProtocol.CompleteExactly | payload/txns_replay_stress.go:98-131 | every ended run, or every uncancelled one, has replayed all that was sent if and only if the end height is set and not above the start |
| ReplayProtocol.CompleteExactlyUnlessGivenUp | replay/sniffer.go:62-136 | for runs whose sniffer never gave up the condition is an empty range, or no end and no null block |
| ReplayProtocol.EndlessReplayGoesOn | replay/sniffer.go:68-83 | without an end, a null block or a sniffer that gave up, no run ends |
| ReplayBatch.Fuzz | stresser.go:107-158 | a transaction counts as fuzzed if and only if the bytes sent differ from the original, which is if and only if fuzzing is on and produced other bytes |
| ReplayBatch.HandleFailure | stresser.go:547-567 | a failed broadcast records its message once, then once more or the fallback's outcome, and re-sends only the original, only after a fuzzed transaction ran out of gas |
| ReplayBatch.BroadcastBlock | stresser.go:523-574 | timeout, sequence, out-of-gas and other errors are counted by the texts of the recorded messages in that order of precedence, success, fuzzed and fallback by what happened, and the bytes sent are as prescribed |
| ReplayBatch.BumpRecords | stresser.go:94-104 | a message raises exactly the counter of its kind |
| ReplayBatch.ContainsMeaning | stresser.go:95-99 | a text contains a word if and only if the word stands between two pieces of it |
| ReplayBatch.SummaryBalances | stresser.go:523-574 | success plus the four error counters is the batch size plus the number of failed first broadcasts; fallback <= fuzzed <= size and fallback <= success <= size |
| ReplayBatch.FallbackSendsOtherBytes | stresser.go:136-138 | no transaction is sent more than twice, and a fallback never re-sends the same bytes |
| BigEndian.DecodeEncode | eth/aa/userop.go:219-220 | the minimal big-endian encoding reads back for every number |
| BigEndian.Field | eth/aa/userop.go:219-220 | a padded field has its exact width if and only if the number fits, and always reads back |
| UserOps.PackCorrect | eth/aa/userop.go:183-233 | packing panics if and only if one of four gas and fee values does not fit in 128 bits; otherwise both words split back into the magnitudes of the original pairs |
| UserOps.PackKeeps | eth/aa/userop.go:194-214 | the other fields are copied, there is a paymaster field if and only if there is a paymaster, and it decodes where its limits fit |
| UserOps.PaymasterSplits | eth/aa/userop.go:235-247 | the paymaster field decodes to address, magnitudes of the limits, and data if and only if both limits fit in 128 bits |
| UserOps.PaymasterAmbiguous | eth/aa/userop.go:235-247 | beyond 128 bits two different paymaster fields have the same bytes |
| UserOps.EncodingLayout | eth/aa/userop.go:124-148 | the signed encoding byte by byte: eight words at their positions |
| UserOps.DomainLayout | eth/aa/userop.go:256-266 | the domain message byte by byte: hash, entry point, chain id |
| UserOps.HashLayout | eth/aa/userop.go:250-273 | the hash is Keccak of a domain message about Keccak of such an encoding |
| UserOps.EncodingBinds | eth/aa/userop.go:124-148 | equal encodings imply equal operations up to the signature, with nonce and gas equal modulo 2^256, for all numbers |
| UserOps.HashBinds | eth/aa/userop.go:250-273 | equal hashes imply the same entry point, the same chain id modulo 2^256 and the same operation up to the signature, unless Keccak collides on the messages involved |
| UserOps.AgreeNearby | eth/aa/userop.go:136-145 | numbers less than 2^256 apart are equal modulo 2^256 if and only if they are equal |
| UserOps.HashBindsUserOperation | eth/aa/userop.go:183-273 | through packing and hashing, equal hashes imply equal unpacked fields, of gas and fees the magnitude, and of the paymaster where its limits fit |
| UserOps.SignatureFree | eth/aa/userop.go:124-148 | the hash does not depend on the signature |
| UserOps.EcSigToRPC | eth/aa/signer.go:72-75 | adds 27 to the recovery byte with wrap-around, in place, and changes nothing else |
| UserOps.SignUserOperation | eth/aa/signer.go:38-62 | the returned hash is the hash of the returned operation after the signature is attached; what is signed is the 28-byte EIP-191 prefix and that hash, what is attached is a zero byte and the signature with its last byte raised by 27, and nothing else changed |
| UserOpNonces.NoncesConsecutive | eth/aa/light_account.go:378-380 | operation k has nonce start + k if and only if that is below 2^63 |
| UserOpNonces.NoncesDistinct | payload/eth_userop_stress.go:199-199 | two operations of an account share a nonce if and only if they are a multiple of 2^64 apart |
| UserOpNonces.DeploymentOnce | eth/aa/light_account.go:373-376 | deployment code is on an operation if and only if the account is not deployed and the nonce is zero, and not twice within 2^64 operations |
| UserOpNonces.HashesDistinct | payload/eth_userop_stress.go:176-213 | two operations of an account that are not a multiple of 2^64 apart have different hashes, unless Keccak collides |
| UserOpNonces.DeploymentSplits | eth/aa/light_account.go:303-308 | deployment code splits back into the factory and its call data; without it both are empty |
| UserOps.FactorySplits | eth/aa/userop.go:70-86 | for every operation, code long enough for an address is the factory followed by its call data, and shorter code has neither |
| UserOpNonces.Packable | payload/eth_userop_stress.go:180-191 | the provider's gas numbers never make packing panic |
| UserOpNonces.PieceNumbers | payload/eth_userop_stress.go:176-213 | issued operations are numbered without a gap, with deployment code only at nonce zero |
| UserOpNonces.Provider.SetUp | payload/eth_userop_stress.go:249-276 | registers account and fetched nonce and leaves the other accounts alone |
| UserOpNonces.Provider.GenerateTx | payload/eth_userop_stress.go:138-242 | returns the next fifty operations of the account's stream, each signed over its own hash, with the account's address, its call and the fixed gas numbers; the three errors and their effect on the nonces |
| UserOpNonces.GenerateRun | payload/eth_userop_stress.go:138-242 | for any sequence of calls over any accounts, what each account got is one unbroken piece of its stream from where it stood |
| GenesisFile.Genesis.AddAccount | chain/genesis.go:141-169 | keeps supply equal to the sum of balances and one balance per account; panics if and only if finalised |
| GenesisFile.Genesis.AddValidator | chain/genesis.go:171-223 | appends one genesis transaction and keeps the rest; panics if and only if finalised |
| GenesisFile.Genesis.Save | chain/genesis.go:225-244 | finalises, reorders the balances, and keeps supply, accounts and genesis transactions |
| GenesisFile.SamePermutation | chain/genesis.go:238-238 | reordering balances changes neither their sum nor the addresses |
| GenesisFile.GenesisTotals | generator.go:75-150 | V stakers and I * A accounts hold V * 10^23 + I * A * 10^24 in V + I * A balances |
| GenesisFile.Generate | generator.go:48-199 | the generator never reaches the finalised panic; every staker has 10^23 and a genesis transaction over 10^22, every account 10^24, and the supply is V * 10^23 + I * A * 10^24 over V + I * A balances; it refuses non-positive numbers of instances or validators |
| Devnet.PortClash | generator.go:255-271 | two shifted ports coincide only for pprof and prometheus, 206 validators apart |
| Devnet.PortTable | chain/init.go:13-24 | every port of validator i by name and number |
| Devnet.PortsDistinctExactly | generator.go:94-97 | the ports of V shifted validators and S unshifted sentry nodes are distinct if and only if V is at most 206 and S is zero, or there is a single node |
| Devnet.PortsValid | generator.go:255-271 | up to 206 validators all ports are valid port numbers |
| Devnet.IpInSubnet | generator.go:237-253 | octets 0 to 2 stay and octet 3 is advanced by the offset plus one, modulo 256 |
| Devnet.NodeAddress | generator.go:89-92 | node k of the network is at the network's address plus k + 2, modulo 256 in the last octet |
| Devnet.AddressesDistinctExactly | generator.go:168-168 | node addresses are distinct if and only if there are at most 256 nodes |
| Devnet.FilterStringValue | generator.go:226-235 | keeps every other value, as often as it occurs and in order, and nothing else |
| Devnet.PeersAreTheOthers | generator.go:201-206 | with distinct peer strings each validator's peers are all the others, in order |
| MixedPayload.Configured | payload/mixed_payload.go:114-224 | keeps exactly the settings with a positive frequency, at increasing positions, and fails if and only if there are none |
| MixedPayload.NormalizeFrequencies | payload/mixed_payload.go:235-251 | every share times the total is the frequency, or the list itself is returned if the total is zero |
| MixedPayload.NormalizedSumsToOne | payload/mixed_payload.go:235-251 | normalised positive frequencies are positive and sum to one |
| MixedPayload.ScaleInvariant | payload/mixed_payload.go:235-251 | multiplying all frequencies by a positive number leaves the normalised ones, and so every selection, unchanged |
| MixedPayload.SelectProvider | payload/mixed_payload.go:253-265 | returns the first provider whose cumulative frequency reaches the number drawn, or the last one if none does |
| MixedPayload.SelectionPartitions | payload/mixed_payload.go:253-265 | that provider is the one whose interval holds the number; interval widths are the frequencies and no number lies in two |
| MixedPayload.FallbackNeverNeeded | payload/mixed_payload.go:253-265 | for numbers in [0, 1] some cumulative frequency is always reached |
| MixedPayload.Pick | payload/mixed_payload.go:226-265 | normalising and selecting together choose provider i exactly on its share of [0, 1] |

## Left out

- Cancellation from outside, timers, back-off delays, logging and pace reporting: the only cancellations are those by the collector's exit (`Die`) and of the sniffer (`Abandon`).
- Confirmation polling and hex decoding of the hash in `Client.Broadcast` (chain/client.go:170-229).
- AccountBroadcast.BroadcastAll: an account whose last sequence number would pass 2^64.
- TokenBuckets.Limiter.Wait: reservations are serialised at times that never decrease; cancelled reservations and float64 rounding are not modelled (rates and times are reals).
- RateLimiting.TpsBurst: a transaction rate above the largest `int`, whose conversion Go leaves undefined.
- `SetRate`, `TryConsume`, `Tokens`, gas extraction from transaction bytes, and the unthrottled fallback if the limiter cannot be built.
- The error for an empty account list and the initial transactions broadcast before the pipeline starts.
- Fairness of the replay loop's select: no liveness is claimed for it, only what its runs have processed.
- The gas fuzzer's arithmetic: its result is a parameter.
- UserOpNonces.Provider.GenerateTx: one call is atomic, so data races on the nonce maps are not modelled; ABI encoding of the calls is a parameter.
- UserOps.HashBinds: nil numbers; numbers that ABI encoding wraps to the same 256 bits are not told apart, as the row says.
- Real cryptography, protobuf and Cosmos codecs: parameters.
- That a mixed provider signs with the provider that generated the transaction: the code selects twice (payload/mixed_payload.go:276-287), so it is not claimed. float64 rounding of frequencies.
- GenesisFile.Generate: a negative number of accounts per instance, where allocating the slice panics; templates, file output and docker-compose.
- Devnet.IpInSubnet: parsing of the CIDR string.
- JSON-RPC, bundler and entry point clients, wasm and exchange message builders, command-line wiring: no hard property.
