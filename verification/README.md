# Lottery pool: a verified model

This project models the parts of the pool in which a mistake costs a miner or the pool money,
and proves what they promise:

- **Templates, jobs and coinbases** (`NodeTemplate`, `Coinbase`, `PlaceholderJobs`, `Merkle`,
  `Transactions`, `BlockHeaders`). The node's block template becomes a coinbase in two halves
  around a 36-byte hole; the halves are glued around whatever a miner puts there and parsed as a
  Bitcoin transaction. `Transactions` has the whole BIP144 format as a writer and a reader proved to be
  inverse to each other, so the round trip of the pool's hand-written bytes is stated against an
  independent parser; `BlockHeaders` has the 80-byte header in the same way. The Merkle branch is
  compared with the plain Bitcoin tree, level by level.
- **Targets and difficulty** (`Bytes`, `Targets`). In-place long division, compact bits, byte
  reversal and hex-string comparison are all tied to one function, `Bytes.Value`, the number a
  byte string denotes.
- **The Stratum V2 connection** (`Connection`, `ConnectionServer`, `ConnectionRuns`,
  `ConnectionTheorems`, `ConnectionLife`, `ShareTheorems`, `TargetTheorems`, `LogTheorems`,
  `PayoutTheorems`, `RefusalRun`, `MinerView`). `Connection` gives the effect of each event as a function of the state;
  `ConnectionServer.ConnectionHandler` is the handler with mutable fields, each method proved to do
  exactly that. `ConnectionRuns.System` puts the node beside the connection, with a log of the
  templates it issued and the blocks they came from, and the theorems hold of every run of both.
- **The database worker** (`Tables`, `Database`, `DatabaseRuns`, `ActiveMinutes`,
  `DatabaseWorker`, `WorkerTheorems`). Batches in memory, all-or-nothing flushes, upserts, pruning
  and the hashrate queries, compared with writing each event at once. `DatabaseWorker.DbWorker` is
  the worker thread; its loop computes `DatabaseWorker.RunTurns`, and each such run is a run of
  `DatabaseRuns`.
- **From share to row** (`EndToEnd`). What connections answer and what the worker stores, put
  together.

## Conventions

- `Bytes.Env` holds what the pool is run with: `sha256d`, the decoding of an address to a script,
  and whether it was built with overflow checks. Every theorem holds for all of them.
- A socket write or an SQL statement may fail anywhere. An event or a flush carries a `budget`,
  the number of writes or statements that succeed before one fails. Socket messages, solutions
  and database events sent are logs in the state.
- The iteration order of a hash map is a parameter (`order`), any enumeration of its keys.
- Bytes and words are bounded integers (`u8`, `u32`, `u64`). Where `carry * 256 + b` leaves `u128`,
  a checked build ends the connection (`Overflowed`) and an unchecked one wraps; both are modelled.
  Where a `u32` counter is at its end the connection is `Overflowed` too.
- Hashrates are exact `f32` values with NaN and both infinities. Other floating-point numbers are
  exact reals.
- Dafny's automatic induction is switched off on every lemma; each induction is written out.

## What turned out not to hold

- The comment beside the channel target says that taking the larger of the two targets never
  rejects a block-winning share (`pool/src/stratum_sv2.rs:403-411`). The channel's target is fixed
  when it opens, so this fails when the network's target later grows. Whatever the hash function,
  for every miner (whose payout script has at most 60000 bytes), every hashrate with a target, and
  every two network targets of which the later is easier than what the channel was promised, the
  pool reaches a state in which it refuses exactly the winning shares whose hash is above the
  promise (`RefusalRun.RefusalReachable`, with numbers `RefusalRun.EasierNetworkRefusesBlocks`);
  under some hash functions there are such shares (`RefusalRun.WinnersRefused`). The one hashrate
  without a target is `+inf` in a checked build, where opening the channel panics. A channel loses
  no block exactly while its job's network target is at most what it was promised
  (`TargetTheorems.LosesNoBlockIff`), in particular in every run whose network targets stay there
  (`TargetTheorems.BlockWinningShareForwarded`).
- The long division overflows `u128` for one declared hashrate, `+inf`, whose difficulty saturates
  to `u128::MAX`, and for no other (`Targets.OverflowOnlyWhenSaturated`). There a checked build
  panics and an unchecked one ends with target 0 (`Targets.HashrateTargetMeaning`).
- Compact bits are read as Bitcoin reads them except for the bits `Targets.Misread` lists: negative
  numbers with exponents 3 to 32, taken as positive, and positive numbers with exponents 1, 2, 33
  and 34 that are not 0 and fit 256 bits, taken as 0 (`Targets.CompactExactWhen`).
- Pruning is invisible to the hashrate queries exactly for lookbacks of at most 1440 minutes
  (`WorkerTheorems.PruningInvisibleExactly`).
- With outputs from the node the job's coinbase has the witness form, so a miner that hashes the
  glued bytes as they are does not get the txid; it does exactly when the node adds no outputs
  (`Coinbase.RawBytesArePreimageIff`).
- `active_minutes` is meant as the number of minutes a miner was active. It is the number of
  successful flushes that held the miner's shares, which is the number of distinct minutes exactly
  when no two of those flushes fall in one minute (`ActiveMinutes.ActiveMinutesExactly`). A thousand
  shares force an early flush, so two can: the loop makes them of a thousand shares received twice
  in one minute (`WorkerTheorems.TwiceInOneMinute`).

## Model

| member | source | states |
|---|---|---|
| `Bytes.HexIsNumeric` | pool/src/stratum_sv2.rs:685-697 | Lowercase hex strings of equal-length byte strings compare like the numbers they encode. |
| `Bytes.LexIsNumeric` | pool/src/stratum_sv2.rs:403-408 | Byte arrays and SQLite blobs of equal length compare like the numbers they encode. |
| `Bytes.ReverseValue` | pool/src/stratum_sv2.rs:848-852 | Reversing turns the big-endian number into the same number read little-endian. |
| `Bytes.ReverseInvolutive` | pool/src/stratum_sv2.rs:732-735 | Reversing twice gives the bytes back. |
| `Bytes.HexDigits` | pool/src/stratum_sv2.rs:780-791 | Each byte is its two lowercase hex digits, high half first. |
| `Transactions.VarintReadBack` | pool/src/jobs.rs:368-381 | Every length written is read back, leaving exactly what follows it. |
| `Transactions.VarintReadOnlyWritten` | pool/src/jobs.rs:368-381 | A length is read only from the one form the writer gives it. |
| `Transactions.VarintLayout` | pool/src/jobs.rs:368-381 | A length takes 1, 3, 5 or 9 bytes, the least that hold it: the number itself, or 253, 254 or 255 and the number little-endian. |
| `Transactions.TxOutLayout` | pool/src/jobs.rs:347-352 | An output is eight little-endian bytes of value, the length of its script, and the script. |
| `Transactions.TxReadBack` | pool/src/stratum_sv2.rs:660-666 | Every transaction, with or without witnesses, deserialises from its own bytes. |
| `Transactions.TxReadOnlyWritten` | pool/src/stratum_sv2.rs:660-666 | Bytes that deserialise as a whole are the bytes the transaction read is written as. |
| `Transactions.DeserializeExact` | pool/src/stratum_sv2.rs:660-666 | Deserialising gives a transaction if and only if the bytes are its serialisation. |
| `NodeTemplate.SerializeOutputs` | pool/src/node_ipc.rs:207-210 | The loop appends the outputs' serialisations in order. |
| `NodeTemplate.BuildRawTemplate` | pool/src/node_ipc.rs:198-258 | A template it gives has the node's header and coinbase fields, its whole value, and all of its zero outputs in order with their count untruncated; else it names the check that fails first. |
| `NodeTemplate.TemplateFromNode` | pool/src/node_ipc.rs:204-248 | Header and coinbase fields are the node's, the whole value is carried, exactly the outputs without value are kept, at their places' order, and their count is not truncated by the cast. |
| `NodeTemplate.ZerosAreKept` | pool/src/node_ipc.rs:204-206 | The outputs kept are those at an increasing list of places that has every place of an output without value and no other. |
| `NodeTemplate.ZerosKeptAsOften` | pool/src/node_ipc.rs:204-206 | Every output without value is kept as often as it occurs, and no other is. |
| `NodeTemplate.TemplateExactlyWhen` | pool/src/node_ipc.rs:212-234 | A block gives a template if and only if its value fits 64 bits, it has an input with a script of at most 255 bytes, its zero outputs take at most 65535 bytes, and its path is at most 255 hashes of 32 bytes. |
| `Coinbase.AppendVarint` | pool/src/jobs.rs:368-381 | Appends the CompactSize form of the number. |
| `Coinbase.BuildSv2CoinbaseFromTdp` | pool/src/jobs.rs:313-366 | The two halves the appends produce, which the lemmas below read back. |
| `Coinbase.AssembledForm` | pool/src/jobs.rs:313-366 | Whatever fills the hole, the glued bytes are the intended coinbase in the chosen form, with count, lengths, marker, flag and witness in place. |
| `Coinbase.CoinbaseRoundTrip` | pool/src/stratum_sv2.rs:651-666 | For every template of a node, payout script and extranonce, the glued bytes parse completely, to the intended coinbase with a witness if and only if the node added outputs. |
| `Coinbase.TxidIgnoresForm` | pool/src/jobs.rs:326-365 | Without marker, flag and witness the segwit bytes are the other form byte for byte, and the txid of both is the hash of those. |
| `Coinbase.RawBytesArePreimageIff` | pool/src/stratum_sv2.rs:544 | The glued bytes are their own txid preimage if and only if the node added no outputs. |
| `Coinbase.ValueConserved` | pool/src/node_ipc.rs:212-216 | From the node's coinbase to the mined one: same version, locktime, sequence and script prefix; all value in the first output; the rest are all of the node's zero outputs, as often and in order. |
| `Coinbase.BuildFullExtranonce` | pool/src/stratum_sv2.rs:864-870 | The two array copies give the prefix, then the miner's bytes, followed by zeros if fewer than four, cut if more. |
| `Coinbase.SearchSpacesDisjoint` | pool/src/stratum_sv2.rs:396-399 | The glued bytes of two channels, in either form and whoever is paid, agree only if the channels and the padded or cut extranonces do; for one payee exactly then. |
| `PlaceholderJobs.FirstMatch` | pool/src/jobs.rs:124-128 | The first window equal to the pattern: it matches and no earlier one does, or none matches at all. |
| `PlaceholderJobs.SerializedShape` | pool/src/jobs.rs:72-121 | The serialised coinbase holds the extranonce bytes in one place, and nothing else depends on them. |
| `PlaceholderJobs.MarkerFound` | pool/src/jobs.rs:124-134 | For every height, script and commitment the first match is the pushed marker itself. |
| `PlaceholderJobs.SplitExact` | pool/src/jobs.rs:61-70 | The split never panics, and any extranonce of the marker's length put in the gap gives the coinbase with that extranonce, which deserialises to it. |
| `PlaceholderJobs.HeightReadBack` | pool/src/jobs.rs:112-121 | The script pushes the height first, whatever its size, then the tag and the extranonce. |
| `PlaceholderJobs.PlaceholderPays` | pool/src/jobs.rs:72-121 | The coinbase a miner assembles from the parts has the null input, the height, all value to the miner and the commitment in a second output without value. |
| `PlaceholderJobs.BuildCoinbaseParts` | pool/src/jobs.rs:231-293 | For either marker the split is found, and any extranonce of the marker's length put between the parts gives the serialised coinbase with that extranonce. |
| `Merkle.BranchLeadsToRoot` | pool/src/jobs.rs:142-183 | Climbing the branch from any coinbase hash gives the root of the Bitcoin tree over the coinbase and all other leaves, for every leaf count. |
| `Merkle.BranchInTree` | pool/src/jobs.rs:142-190 | There is a tree of levels, each node the hash of its left and then its right child (the left one twice where there is no right one), whose leftmost nodes are the chain climbed, whose siblings of these are the branch, and whose root ends the chain. |
| `Merkle.PairUpIsLevelAbove` | pool/src/jobs.rs:172-176 | Node i of the next level is the double SHA-256 of nodes 2i and 2i + 1, or of 2i twice. |
| `Merkle.BranchLength` | pool/src/jobs.rs:150-180 | The branch has floor(log2 n) + 1 entries, none for an empty block. |
| `Merkle.BuildMerkleBranch` | pool/src/jobs.rs:142-183 | The outer loop computes that branch from the txids in internal order. |
| `Merkle.MergeRest` | pool/src/jobs.rs:160-180 | The inner loop computes the next level, an odd last node paired with itself. |
| `Merkle.ClimbBranch` | pool/src/stratum_sv2.rs:667-673 | The share handler's loop ends a chain of hashes that starts at the coinbase hash and hashes each one followed by the next sibling. |
| `BlockHeaders.HeaderReadBack` | pool/src/stratum_sv2.rs:676-685 | Version, previous hash, root, time, bits and nonce are read back from offsets 0, 4, 36, 68, 72 and 76 of the 80 bytes hashed. |
| `BlockHeaders.HeaderReadOnlyWritten` | pool/src/stratum_sv2.rs:676-685 | Bytes that read as a header are the bytes written for it. |
| `BlockHeaders.HashOfHeader` | pool/src/stratum_sv2.rs:685 | A header has exactly one block hash: the reversed double SHA-256 of the bytes that read as it. |
| `Targets.LongDivide` | pool/src/stratum_sv2.rs:837-843 | In place, quotient and remainder of the number while no carry leaves u128; a checked build stops if and only if one does, an unchecked one goes on with the wrapped carry. |
| `Targets.DigitFits` | pool/src/stratum_sv2.rs:840-842 | Each quotient digit fits a byte, so the cast loses nothing. |
| `Targets.OverflowOnlyWhenSaturated` | pool/src/stratum_sv2.rs:827-843 | Among the divisors a hashrate can give, only u128::MAX overflows. |
| `Targets.HashrateToTargetBe` | pool/src/stratum_sv2.rs:827-845 | The target of a hashrate in either kind of build, or none where a checked one panics. |
| `Targets.SaturatedIsZero` | pool/src/stratum_sv2.rs:838-843 | For the saturated difficulty the wrapped division leaves 32 zero bytes. |
| `Targets.DifficultyMeaning` | pool/src/stratum_sv2.rs:827-831 | The difficulty is the integer part of hashrate * 30 / 2^32, but at least 1; 1 for NaN and -inf. |
| `Targets.HashrateTargetMeaning` | pool/src/stratum_sv2.rs:815-845 | Undefined only for +inf in a checked build; else the floor of the difficulty-1 target over the difficulty, 0 for +inf alone. |
| `Targets.HashrateTargetAntitone` | pool/src/stratum_sv2.rs:815-845 | A miner that declares more never gets an easier target. |
| `Targets.IntervalWithinTwo` | pool/src/stratum_sv2.rs:815-845 | Above difficulty 1 the expected share interval lies strictly between 15 s and 30 * 65536/65535 s, despite both floors. |
| `Targets.CompactToTargetBe` | pool/src/stratum_sv2.rs:766-778 | The three byte writes give the 32-byte encoding of mantissa * 256^(exp-3), zero for other exponents. |
| `Targets.CompactToTargetHex` | pool/src/stratum_sv2.rs:780-791 | The hex of the same target. |
| `Targets.CompactTargetValue` | pool/src/stratum_sv2.rs:766-778 | The encoding loses nothing: the target's number is the compact value. |
| `Targets.CompactExactWhen` | pool/src/stratum_sv2.rs:766-778 | Compact bits are read as Bitcoin defines them, with negative and too wide numbers no target, if and only if they are not among the bits `Misread` lists. |
| `Targets.TooWideExactly` | pool/src/stratum_sv2.rs:766-778 | Bitcoin's overflow test on exponent and mantissa refuses exactly the numbers of more than 256 bits. |
| `Targets.CreditAntitone` | pool/src/db.rs:328-338 | A smaller 256-bit hash is never credited with less. |
| `Targets.CreditAtLeastDifficulty` | pool/src/db.rs:328-338 | A share that meets the target of difficulty d is credited with at least d, though only 64 bits are seen. |
| `Targets.CreditExactly` | pool/src/db.rs:328-338 | A hash whose top 64 bits are not zero is credited with q or more if and only if q times these bits is at most 0xffff0000; any other with the largest f64. |
| `Targets.CreditBelowDifficulty` | pool/src/db.rs:328-338 | A hash at least 256^24 above the target of difficulty d is credited with less than d. |
| `Connection.WorkerNameIgnored` | pool/src/stratum_sv2.rs:798-811 | The worker name after the dot is ignored; an identity that is no address mines for the pool. |
| `ConnectionServer.ConnectionHandler.HandleSetupConnection` | pool/src/stratum_sv2.rs:250-335 | The connection goes on if and only if the frame is a SetupConnection for mining with version 2 in its range and the answer is written; a SetupConnection refused is answered with an error; and the whole new state. |
| `ConnectionServer.ConnectionHandler.PickTarget` | pool/src/stratum_sv2.rs:401-409 | The easier of the miner's target and the network's, decided on byte arrays. |
| `ConnectionServer.ConnectionHandler.MakeJob` | pool/src/stratum_sv2.rs:499-600 | The job of an address has the latest template's id, version, time, previous hash, bits and path and the coinbase halves that pay the address; none when address or lengths forbid it. |
| `ConnectionServer.ConnectionHandler.HandleOpen` | pool/src/stratum_sv2.rs:375-468 | The whole new state after opening a channel, for every point of failure. |
| `ConnectionServer.ConnectionHandler.SendJobsToAllChannels` | pool/src/stratum_sv2.rs:473-494 | The loop over the channels, stopping at the first failure. |
| `ConnectionServer.ConnectionHandler.GradeHash` | pool/src/stratum_sv2.rs:685-706 | The hex-string comparisons decide what the numbers decide. |
| `ConnectionServer.ConnectionHandler.JudgeShare` | pool/src/stratum_sv2.rs:631-706 | The verdict on a share, from reassembly to comparison; where it is graded, by the block hash of the header that has the miner's version, time and nonce, the job's previous hash and bits, and the root climbed from the reassembled coinbase. |
| `ConnectionServer.ConnectionHandler.HandleSubmitShares` | pool/src/stratum_sv2.rs:604-747 | The whole new state after a share: reply, solution, database event. |
| `ConnectionServer.ConnectionHandler.DispatchMessage` | pool/src/stratum_sv2.rs:339-371 | The whole new state after any frame. |
| `ConnectionServer.ConnectionHandler.HandleConnection` | pool/src/stratum_sv2.rs:209-244 | The handler computes the run of step functions over its events. |
| `ConnectionTheorems.SystemRunIsServerRun` | pool/src/stratum_sv2.rs:209-244 | Every run of node and connection below is one the handler computes, on the events that reach it. |
| `ConnectionRuns.StepKeepsGood` | pool/src/stratum_sv2.rs:209-244 | The invariant of state and log is kept by every event of a connection, whatever write fails; with complete broadcasts so is the strict form. |
| `ConnectionTheorems.RunKeepsGood` | pool/src/node_ipc.rs:108-127 | The invariant holds in every run with templates numbered by the node's counter. |
| `ConnectionTheorems.TraceGrammar` | pool/src/stratum_sv2.rs:250-494 | In every run setup success comes first and once, an error is the last word, and on each channel: OpenSuccess, then jobs with strictly rising ids, each SetNewPrevHash naming the job before it, share replies only once open. |
| `ConnectionTheorems.PairedJobs` | pool/src/stratum_sv2.rs:473-494 | Without failed broadcasts jobs and SetNewPrevHash alternate, and between events every channel's last job is activated. |
| `ConnectionTheorems.MiningNeedsSetup` | pool/src/stratum_sv2.rs:209-211 | Setup succeeds in a run if and only if the first thing to happen on the connection is an acceptable SetupConnection; mining needs it. |
| `ConnectionTheorems.LogGrows` | pool/src/stratum_sv2.rs:209-244 | After setup messages are only appended, and after the end none is. |
| `ConnectionTheorems.JobsOnlyAdvance` | pool/src/stratum_sv2.rs:117-128 | Over any run a channel's id, prefix, address and target are fixed, and a later job has a larger id and a template at least as new. |
| `ConnectionTheorems.ReachableChannel` | pool/src/stratum_sv2.rs:396-446 | In every reachable state: key = channel id < next id, prefix = LE32(id) and 28 zeros, job id < next job id, and the job is the one built for the channel's address from the only template of its id the node issued, so that its coinbase, whatever the extranonce, is that block's with all value paid to the address. |
| `ConnectionTheorems.IssuedByBlocks` | pool/src/node_ipc.rs:108-127 | Each template issued in a run is the first one or that of a new block of the run. |
| `ConnectionTheorems.BroadcastCompletes` | pool/src/stratum_sv2.rs:473-494 | When every job builds and no write fails, every channel gets the same new job of the latest template, with two messages each. |
| `ConnectionTheorems.EarlierJobsAreStale` | pool/src/stratum_sv2.rs:646-649 | After that a share naming any other job is answered with a stale error and changes nothing else. |
| `ConnectionLife.JobExactlyWhen` | pool/src/stratum_sv2.rs:537-558 | For every template of the node a job is built if and only if the address decodes and the second half has at most 65535 bytes. |
| `ConnectionLife.BlockIsIssued` | pool/src/node_ipc.rs:108-127 | Exactly when the node loop issues a new block: while it is alive, ids are left and there is a template of it; every connection sees it at once, and else the loop ends for good. |
| `ConnectionLife.GoesOnExactly` | pool/src/stratum_sv2.rs:339-371 | Exactly which events end a live connection: hanging up, a malformed frame, a counter at its end, an opening without a target or a job, a failed write outside a broadcast; not a share of an unknown channel or an unhandled message. |
| `ConnectionLife.BroadcastStops` | pool/src/stratum_sv2.rs:473-494 | How far a broadcast gets: the channels in walking order until it is through, a job cannot be built, or a write fails; the job whose write failed is stored all the same, and the connection goes on. |
| `ConnectionLife.BroadcastsBounded` | pool/src/stratum_sv2.rs:229-241 | In every run each template is broadcast at most once. |
| `ConnectionLife.OpeningRecorded` | pool/src/stratum_sv2.rs:458-464 | Opening a channel reports the miner's address and the time of opening exactly if the connection goes on. |
| `ConnectionLife.MinersAreRecorded` | pool/src/stratum_sv2.rs:458-464 | In every run a live recording connection has exactly the channels 0, 1, ... up to the next id, and the miners it reported are their addresses, in this order. |
| `LogTheorems.EveryMessageIsJustified` | pool/src/stratum_sv2.rs:250-760 | Every message in the log of every run was written by an event of the run that justifies it: a setup answer names what is wrong; an opening is answered with its request id, the target held to, read little-endian, and the prefix; each job and each SetNewPrevHash carries version, path and coinbase, or previous hash, time and bits, of the block issued last; a share is answered by the numbers. |
| `ShareTheorems.NeverUndecodable` | pool/src/stratum_sv2.rs:660-666 | In every good state the deserialisation-failure branch is unreachable for shares of the current job. |
| `ShareTheorems.ShareDecision` | pool/src/stratum_sv2.rs:685-743 | For a share of the current job with block hash `hash`: success iff hash <= channel target, else difficulty-too-low; a solution iff also hash <= network target, even if the answer cannot be written; the stored share, if any, has the channel's address, the hash, its credit and its time; nothing else changes. |
| `ShareTheorems.OtherShares` | pool/src/stratum_sv2.rs:631-649 | A share of an unknown channel changes nothing; one of a channel without a job or of another job is answered with a stale error and changes nothing else. |
| `TargetTheorems.TargetIsPromised` | pool/src/stratum_sv2.rs:401-409 | In every later state of every run a channel opened for hashrate h is held to the larger of the hashrate's target and the network's at that moment. |
| `TargetTheorems.LosesNoBlockIff` | pool/src/stratum_sv2.rs:689-712 | In every reachable state of a connection that is up a channel forwards all winning shares of its current job that arrive, whatever the hash function, if and only if the job's network target is at most that. |
| `TargetTheorems.BlockWinningShareForwarded` | pool/src/stratum_sv2.rs:403-411 | In every run whose network targets stay at or below what the channel was promised, while the connection is up, a share of its current job that arrives adds a solution if and only if it wins the block, and is then answered with success. |
| `TargetTheorems.RefusedWinnerIff` | pool/src/stratum_sv2.rs:689-712 | In every good state a share of the current job wins the block and is refused if and only if its hash is above the channel's target and at most the network's. |
| `TargetTheorems.CreditCoversDifficulty` | pool/src/db.rs:328-338 | Where the declared hashrate decided the target, each stored share of the channel is credited at least the difficulty the hashrate was given. |
| `RefusalRun.RefusalReachable` | pool/src/stratum_sv2.rs:403-411 | For every hash function, miner, hashrate with a target and later network target easier than the promise, a run (setup, opening, new block, broadcast) after which exactly the shares with a hash above the promise and at most the target win and are refused. |
| `RefusalRun.WinnersRefused` | pool/src/stratum_sv2.rs:403-411 | Under a hash function that meets the later target just so, such a run has such a share. |
| `RefusalRun.EasierNetworkRefusesBlocks` | pool/src/stratum_sv2.rs:403-411 | That run for a 1 GH/s miner and two given compact targets: the winning shares above a sixth of the difficulty-1 target are refused. |
| `ShareTheorems.StoredShares` | pool/src/stratum_sv2.rs:713-743 | In every run the i-th stored share belongs to the i-th success sent: it has the address of the channel that success names, beat that channel's target, and has the credit of its hash. |
| `ShareTheorems.ForwardedSolutions` | pool/src/stratum_sv2.rs:699-712 | In every run each solution is for the one block whose template it names, the first or a new block of the run, and from a channel of the connection: its coinbase has that channel's prefix in its extranonce, pays that block's whole value to that channel's address and else keeps its zero outputs, and its header hashes to at most that block's target. |
| `PayoutTheorems.AddressIsPromised` | pool/src/stratum_sv2.rs:386-392 | In every later state of every run a channel has the address its opener asked for, or the pool's where the identity is no address. |
| `PayoutTheorems.ChannelWasOpened` | pool/src/stratum_sv2.rs:375-446 | A run that reaches a channel has the OpenExtendedMiningChannel that opened it, at that place in the run. |
| `PayoutTheorems.SolutionsPayMiners` | pool/src/jobs.rs:1-8 | In every run each solution comes from a channel opened in the run and pays the whole value of the block it names to the address asked for when that channel was opened, or to the pool where that is none. |
| `MinerView.MinerAndPoolAgree` | pool/src/stratum_sv2.rs:419-494 | In every run without failed broadcasts a miner that knows only its last OpenSuccess, NewExtendedMiningJob and SetNewPrevHash predicts the verdict on its share: coinbase, Merkle root, the hash of the bytes that read as its header, and the target read little-endian all agree with the pool's. |
| `Tables.ApplyShareHolds` | pool/src/db.rs:265-294 | The two statements of a share keep count, total and numerically least hash of every miner's row right. |
| `Tables.ApplyMinersHold` | pool/src/db.rs:258-263 | INSERT OR IGNORE keeps the first connection received of each miner. |
| `Tables.FirstSeenIsFirst` | pool/src/db.rs:258-263 | The time kept of a miner is that of the first connection received of it. |
| `Tables.AddMinuteKeys` | pool/src/db.rs:298-304 | The upsert keeps the primary key unique and adds no other key. |
| `Tables.SumOfOneMore` | pool/src/db.rs:86-109 | A query sums the rows of its address, or of all, at or after its start. |
| `Tables.PruneUnseen` | pool/src/db.rs:315-320 | A sum that starts at or after the cutoff is the same on the pruned table. |
| `Database.PushKeepsValid` | pool/src/db.rs:208-221 | An event keeps the coupling of buffers and windows: a window per pending address, holding the sum of its shares. |
| `Database.FloorMinute` | pool/src/db.rs:347-349 | The whole minute of a time. |
| `Database.FlushKeepsValid` | pool/src/db.rs:223-247 | A flush, failed or not, keeps the coupling of buffers, tables and history. |
| `Database.FlushedTablesHold` | pool/src/db.rs:249-324 | After the statements the tables hold exactly the history with the batch added. |
| `Database.FlushOutcome` | pool/src/db.rs:223-247 | A flush fails, and then changes nothing, if and only if something is pending and fewer statements succeed than 3 and one per connection, two per share and two per window; else it leaves nothing pending and all of it committed. |
| `DatabaseRuns.RunKeepsValid` | pool/src/db.rs:173-206 | In every run committed and pending events together are those sent, in order and once; committed ones stay committed. |
| `DatabaseRuns.BatchingRefinesImmediate` | pool/src/db.rs:208-324 | For every schedule of successful and failed flushes the tables (without minute data) are what writing each committed event at once gives; with nothing pending, each event sent. |
| `DatabaseRuns.ReachableRows` | pool/src/db.rs:265-313 | In every reachable state windows sum the pending shares, no best hash is NULL, each is the least of the miner's hashes, and minutes kept <= active minutes <= shares. |
| `ActiveMinutes.ActiveMinutesExactly` | pool/src/db.rs:297-313 | In every run `active_minutes` is the number of successful flushes that held the miner's shares, the unpruned minute rows are the distinct minutes of those, and the two agree if and only if no two of them share a minute. |
| `WorkerTheorems.TwiceInOneMinute` | pool/src/db.rs:201 | For every miner and time, a run of the loop that receives a thousand shares twice in one minute and flushes twice, for the share count alone: two active minutes, one minute. |
| `DatabaseRuns.SteadyRun` | pool/src/db.rs:347-349 | With a clock that never goes back, commits come in order of minute. |
| `DatabaseRuns.PruningInvisible` | pool/src/db.rs:86-109 | With such a clock both hashrate queries over at most a day answer as on the whole unpruned history. |
| `WorkerTheorems.LongerLookbackSeesPruning` | pool/src/db.rs:315-320 | For every longer lookback a run of the loop, its clocks in step, after which the query misses a pruned minute. |
| `WorkerTheorems.PruningInvisibleExactly` | pool/src/db.rs:41 | In every run of the loop under such a clock they do so if and only if the lookback is at most 1440 minutes. |
| `DatabaseRuns.PoolHashrateIsSum` | pool/src/db.rs:86-109 | The pool's hashrate is the sum of its miners' hashrates. |
| `DatabaseRuns.DifficultyConserved` | pool/src/db.rs:296-320 | A miner's committed difficulty is the sum of its kept and its pruned minutes. |
| `DatabaseWorker.DbWorker.PushEvent` | pool/src/db.rs:208-221 | After an event each address with a pending share, and no other, has a window, and it holds the sum of that address's pending shares. |
| `DatabaseWorker.DbWorker.WriteMiners` | pool/src/db.rs:258-263 | The loop over the connections. |
| `DatabaseWorker.DbWorker.WriteShares` | pool/src/db.rs:265-294 | The loop over the shares, two statements each. |
| `DatabaseWorker.DbWorker.WriteWindows` | pool/src/db.rs:296-313 | The loop over the minute windows, two statements each. |
| `DatabaseWorker.DbWorker.FlushInner` | pool/src/db.rs:249-324 | All statements or none: it succeeds if and only if each of them does, and else the tables are unchanged. |
| `DatabaseWorker.DbWorker.FlushBatches` | pool/src/db.rs:223-247 | The whole new state: a failed flush changes nothing, a successful one empties the buffers. |
| `DatabaseWorker.DbWorker.TakeTurn` | pool/src/db.rs:180-205 | One pass of the loop: the events received are pushed, and a flush is tried exactly on hang-up, after a minute, or with a thousand shares waiting. |
| `DatabaseWorker.DbWorker.RunWorker` | pool/src/db.rs:173-206 | The loop takes all turns up to the first hang-up and its state and flush interval are exactly those of the run of these turns, with what the three lemmas below say of it. |
| `DatabaseWorker.TurnsAreSteps` | pool/src/db.rs:173-206 | A run of the loop is a run of steps of the batching model that receives each event of its turns once and in order. |
| `DatabaseWorker.ReceivedInOrder` | pool/src/db.rs:180-199 | A turn adds the event of its first receive, if any, and those drained after it; none when that receive hangs up. |
| `DatabaseWorker.IntervalStart` | pool/src/db.rs:201-204 | The flush interval began with the run or at the last turn, of those before the end, that tried a flush. |
| `DatabaseWorker.LastRests` | pool/src/db.rs:183-204 | The last turn of a run flushes if and only if it hung up, came a minute after the last flush or left a thousand shares waiting; then nothing is pending, except exactly where that flush failed, and the interval begins anew. |
| `DatabaseWorker.TurnRuns` | pool/src/db.rs:180-205 | A pass of the loop is a run of steps of the batching model. |
| `EndToEnd.CountsAreSuccesses` | pool/src/db.rs:277-286 | However the events of any number of recording connections are interleaved, batched and retried: when none is pending, the shares_count of a miner is the number of successes answered on channels of that address. |

## Left out

- The Noise handshake, frame encoding and message codecs (`noise_connection.rs` and the Stratum
  crates): a frame arrives decoded, as malformed, or not at all. The encoded length of
  `user_identity` is not bounded.
- Cap'n Proto and RPC calls, configuration, key generation, logging, timeouts, tokio scheduling.
  The order of events at a connection is arbitrary.
- `submit_solution`: it uses the node's current block whatever template the solution names
  (`pool/src/node_ipc.rs:132-135`), so nothing is claimed about a solution after it is forwarded.
- SHA-256 and address decoding are arbitrary functions; `SetNewPrevHash.target` of the template
  message is not modelled, as no code reads it.
- The `bitcoin` crate's deserialiser also refuses a witness of more than 4,000,000 bytes; the reader
  of `Transactions` has no such bound. The witnesses the pool writes have 34 bytes.
- The header and coinbase are deserialised by `fetch_template`; the model starts from the
  transaction, which is one the reader can return (`Transactions.ValidTx`).
- Floating-point rounding: sums of difficulties, credits and hashrates are exact reals; the sum of
  several `f64::MAX` credits does not become infinite in the model.
- Wrap-around of the `u32` counters in builds without overflow checks, after 2^32 channels or jobs of
  one connection, and of the `u64` lookback when it is converted to seconds.
- A lookback of 0 gives no hashrate in the model; the source divides by zero and gives NaN or inf.
- `Merkle.BuildMerkleBranch` takes txids as 32 bytes; the panic on a txid that is not 64 hex digits
  is not part of this model.
- SQLite beyond atomic commit: row ids, the index, WAL readers between two flushes, and the
  `competition_entries` table, which nothing writes.
- Retry of the last flush after hang-up: the source does not retry, and events of a failed last
  flush are lost; `DatabaseWorker.LastRests` says so.
- Duplicate shares: the pool accepts the same share twice, and so does the model.
- Distinct coinbases across connections, which number their channels alike: they do not hold.
- Equal jobs on all channels after a broadcast that failed midway: the source stops and only logs.
- The address a job is built for is the channel's; which payout scripts exist is not modelled.
- Groups, epochs and payouts, which are planned but not written.
