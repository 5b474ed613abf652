# Arcals, verified

A Dafny model of the parts of Arcals where a mistake costs money or consensus, with proofs about
all inputs, all interleavings and all runs. `dafny verify dfyconfig.toml` checks the whole project.

## Directed rounding for WebAssembly

RandomX changes the rounding mode at run time; WebAssembly only rounds to nearest. The code computes
the nearest result, finds on which side the exact result lies, and steps the bit pattern by one.

- `Double`, `Rounding`, `Hardware`: bit patterns whose values are integers counted in units of
  2^-1074; exact results as fractions or square roots of integers; sections 4.3.1 and 4.3.2 of
  IEEE 754-2019 as predicates over all doubles that name no algorithm (`Rounded`, satisfied by one
  bit pattern at most); round-to-nearest-even hardware as total functions, NaN and infinities included.
- `ScaledCompare`, `DirectedStep`, `Format`, `TwoSum`, `SumOnBits`, `LostTies`, `SoftwareRounding`:
  the five operations as methods, each proved to return the one correctly rounded double.

**Where the code and its comment disagree.** `native/randomx-wasm/src/wasm_rounding.h:11` says TwoSum
is exact for any finite operands. It is not when the second operand is the largest finite double in
size, the first has the opposite sign and a size of n * 2^970 with n = 3 mod 4 and n <= 2^53 - 5:
then `r - a` overflows, the error is a NaN and `add` returns r unadjusted. `LostTie` describes
exactly this family, `FamilyHasAPair` its first member, and `SoftwareRounding.Add` states that the result is correctly rounded if and
only if the operands are not such a pair or the mode does not have to step r back.

## Mint recovery protocol

A durable SQLite ledger, a wallet that may lose its answer, a chain that only adds issued ids, a
clock, and processes that may crash between any two steps.

- `LedgerModel` gives the value of the operations table and what each statement does to it, the two
  unique indexes included; `LedgerRuns` lets any number of processes interleave atomic ledger actions;
  `LedgerSums` and `LedgerEffects` say what each statement does to budget figures, wallets and other
  rows; `Ledger` is the object whose methods perform the statements in place, keep the table's rules
  as their invariant and promise those effects.
- `Agent` is the runtime as a transition system: program points between awaits and ledger calls,
  answers and errors chosen freely by the environment. `AgentSubmissions` proves what holds for any
  number of processes; `AgentSolo`, `AgentMints`, `AgentFees`, `AgentBudget`, `AgentProgress`,
  `AgentTermination` and `AgentRelease` prove what holds for one live process with crashes and
  restarts anywhere.

Read with care: terminal ledger states are not final when several processes race
(`ConfirmedCanReopen`; `ReopensIff` says exactly when one reopens); a manually confirmed Mint is not
checked against the budget, so the budget theorem is about unattended Mints; and `run` never releases
an expired Mint that holds the last authorized place, while status and mine once do (`RunUnblocksIff`).

## Proof-of-work search

- `WorkBytes`, `WasmSearch`, `BrowserWorker`: byte layout, the WebAssembly search over arrays, the
  browser Worker's loop, and what N Workers cover together. RandomX is an arbitrary function.
- `NativeSearch`, `NativeCoverage`, `NativeJobs`: the native search threads over shared atomics, in
  any interleaving, and the command loop around them.
- `NativeExhaustion`, `NativeProgress`: when an untimed search can end by itself, and that it then does.

Two findings. A thread's ordinal wraps uint64 exactly when the number of nonces in range plus the
thread count exceeds 2^64. An untimed search that wraps and still exhausts has hashed some nonce twice
(`WrappingRunExhausts` shows one), and for some thread counts a wrapping thread goes round for ever
instead (`NeverEndsByItself`): the command-line miner's own request, without the time limit it carries,
can only exhaust with an odd thread count (`CommandLineSearch`), and its default is four. And `search`
looks at the active job twice: if the previous search finishes in between, its thread is joinable but
not joined, and starting the new one terminates the process (`RaceIsPossible`). A client that asks
`status` and waits until no job is active is safe (`IdleSearchIsSafe`); a command sent earlier terminates
the process if it gets as far as starting its search (`LaunchAbortsIff`, `BusySearchCanAbort`).

## Smaller machines

- `Companion`: the Compute Companion's scheduler. `Valid()` is what every quiescent point keeps: the
  running job is exactly the one computing job, a queued job implies one is running, at most eight
  jobs are unfinished, a work key has at most one live job, and jobs start in submission order.
- `WorkerClient`: the mailbox of the worker client. `Valid()` says that no queued message matches a
  pending waiter of its job and that received is consumed plus queued, per job and type, in order.
- `PiContent`, `PiTree`: digit packing and the Merkle proof, with Keccak an arbitrary function;
  accepting uncommitted content yields two colliding inputs, not an assumption.
- `JsonText`, `JsonParser`: the flat JSON parser as functions on the remaining text, the parser
  object that agrees with them, and the escaping loop.

## Model

| member | source | states |
|---|---|---|
| SoftwareRounding.Add | native/randomx-wasm/src/wasm_rounding.h:136-150 | for all operands and modes: an exact zero sum has the sign of section 6.3; any other finite sum is correctly rounded if and only if the operands are not a lost tie that must be stepped back; everything else is the hardware result |
| SoftwareRounding.AddLosesATie | native/randomx-wasm/src/wasm_rounding.h:136-150 | counterexample: for a = -3 * 2^970 and b = kMax the result is not correctly rounded downward or toward zero |
| SoftwareRounding.Sub | native/randomx-wasm/src/wasm_rounding.h:152-154 | the same for differences |
| SoftwareRounding.Split | native/randomx-wasm/src/wasm_rounding.h:72-84 | the operand's size is the returned integer below 2^53 times the returned power of two |
| SoftwareRounding.Mul | native/randomx-wasm/src/wasm_rounding.h:156-176 | every finite product, subnormal, underflowing and overflowing ones included, is the correctly rounded exact product in every mode |
| SoftwareRounding.Div | native/randomx-wasm/src/wasm_rounding.h:178-199 | every finite quotient by a nonzero divisor is correctly rounded in every mode |
| SoftwareRounding.Sqrt | native/randomx-wasm/src/wasm_rounding.h:201-209 | given the nearest root, the root of every positive finite double is correctly rounded in every mode |
| ScaledCompare.BitLength | native/randomx-wasm/src/wasm_rounding.h:86-93 | the loop returns the length of the shortest binary numeral of its argument |
| ScaledCompare.CompareScaled | native/randomx-wasm/src/wasm_rounding.h:95-105 | for operands below 2^127 and any exponents, the sign of a * 2^ea - b * 2^eb; the aligning shift stays within 128 bits |
| DirectedStep.NextUpIsSuccessor | native/randomx-wasm/src/wasm_rounding.h:60-65 | nextUp leads from minus infinity and from any finite double to its successor: larger, with nothing in between, through both zeros, subnormals and the largest finite double, whose successor is infinity |
| DirectedStep.NextDownIsPredecessor | native/randomx-wasm/src/wasm_rounding.h:67-69 | nextDown leads from infinity and from any finite double to the predecessor in the same sense |
| DirectedStep.NextDownUndoesNextUp | native/randomx-wasm/src/wasm_rounding.h:60-69 | the two steps cancel, up to the sign of zero |
| DirectedStep.AdjustRounds | native/randomx-wasm/src/wasm_rounding.h:118-134 | from the nearest finite result and the true sign of the error, adjust returns the directed rounding of the exact result |
| DirectedStep.OverflowRounds | native/randomx-wasm/src/wasm_rounding.h:107-116 | when the nearest result is infinite, overflow returns the directed rounding of the exact result, as section 7.4 asks |
| Rounding.RoundedUnique | native/randomx-wasm/test/rounding_test.cpp:45-66 | at most one bit pattern is the correct rounding, so the results above are determined to the last bit |
| Hardware.NearestOf | native/randomx-wasm/src/wasm_rounding.h:6-9 | hardware results are nearest with ties to even, for every exact result |
| SumOnBits.SumErrorExact | native/randomx-wasm/src/wasm_rounding.h:146-148 | whenever r - a is finite, the six TwoSum operations give a + b - r exactly |
| LostTies.LostTieErrorIsNaN | native/randomx-wasm/src/wasm_rounding.h:146-149 | for every operand pair of the family the computed error is a NaN, so adjust is told nothing |
| LostTies.OverflowIsLostTie | native/randomx-wasm/src/wasm_rounding.h:146 | r - a overflows only for operand pairs of that family |
| LostTies.FamilyHasAPair | native/randomx-wasm/src/wasm_rounding.h:11 | that pair belongs to the family |
| Ledger.SqliteOperationLedger.CanStartMint | apps/cli/src/ledger.ts:164-169 | the scan is true if and only if no unresolved Mint of the account exists |
| Ledger.SqliteOperationLedger.Write | apps/cli/src/ledger.ts:842-863 | a row is written if and only if neither unique index is violated; a violation throws and changes nothing |
| Ledger.SqliteOperationLedger.BeginOperation | apps/cli/src/ledger.ts:87-125 | refused exactly when the id is taken or a Mint would stand beside an unresolved one of its account; otherwise only a row is added and the table keeps its rules |
| Ledger.SqliteOperationLedger.SetPendingCall | apps/cli/src/ledger.ts:127-142 | never throws; besides storing the call it changes no other row, no budget figure of anybody and no wallet's permission to mint |
| Ledger.SqliteOperationLedger.AttachSubmission | apps/cli/src/ledger.ts:205-239 | succeeds only on an operation without a request id, in one of the two states in which nothing was sent, and afterwards the request id belongs to it alone |
| Ledger.SqliteOperationLedger.RecordWalletHandle | apps/cli/src/ledger.ts:241-259 | throws only for an unknown id; the handle is taken exactly in the three states that await one, and no figure, wallet or other row is affected |
| Ledger.SqliteOperationLedger.MarkSubmissionUnknown | apps/cli/src/ledger.ts:261-266 | throws exactly for an unknown id, or when a resolved Mint would reopen beside another unresolved Mint; on an unresolved operation it affects no figure, wallet or other row |
| Ledger.SqliteOperationLedger.MarkRecovering | apps/cli/src/ledger.ts:268-276 | succeeds exactly from an unresolved state and then affects no figure, wallet or other row |
| Ledger.SqliteOperationLedger.MarkPending | apps/cli/src/ledger.ts:278-297 | throws exactly as MarkSubmissionUnknown does and is as neutral; an earlier handle or hash is never dropped |
| Ledger.SqliteOperationLedger.ResolveConfirmed | apps/cli/src/ledger.ts:299-341 | throws only for an unknown id; a reserved Mint's wallet is freed, its fee goes from reserved to spent with the same total, and reported gas replaces reserved gas; a known issued id is never dropped |
| Ledger.SqliteOperationLedger.ResolveUnsentFailure | apps/cli/src/ledger.ts:347-364 | changes the row if and only if it has no request id, no handle and a state in which nothing was sent, never throws, and frees the wallet of an unresolved Mint |
| Ledger.SqliteOperationLedger.ResolveFailure | apps/cli/src/ledger.ts:366-401 | throws only for an unknown id; a reserved Mint's wallet is freed, its place and fee are given back, and reported gas replaces reserved gas |
| Ledger.SqliteOperationLedger.SetOperationCommitment | apps/cli/src/ledger.ts:403-423 | throws only for an unknown id; afterwards a reserved Mint's account is covered by its authorization exactly when the gate would have let the amounts through |
| Ledger.SqliteOperationLedger.Authorize | apps/cli/src/ledger.ts:465-507 | from then on the gate refuses this account for lack of authorization exactly once it has expired, revoked before or not; no other account's gate changes |
| Ledger.SqliteOperationLedger.RevokeAuthorization | apps/cli/src/ledger.ts:522-528 | the gate refuses this account whatever is asked and whenever; no other account's gate changes |
| Ledger.SqliteOperationLedger.SumColumn | apps/cli/src/ledger.ts:535-563 | each figure of the budget snapshot is the sum over the account's Mints |
| Ledger.SqliteOperationLedger.AssertBudgetAvailable | apps/cli/src/ledger.ts:567-629 | passes if and only if the account is authorized and still covered after committing the amounts, to the reserved Mint being sent or to one more Mint |
| LedgerSums.UseAfterPut | apps/cli/src/ledger.ts:530-565 | writing one row moves each budget figure by exactly the difference of that row's share |
| LedgerEffects.FollowingIsNeutral | apps/cli/src/ledger.ts:127-297 | storing a call, recording a handle and tracking an unresolved operation cannot fail, change no other row and leave every budget figure and every wallet's permission to mint as they were |
| LedgerEffects.ReopeningIsStoppedIff | apps/cli/src/ledger.ts:261-297 | the marks whose UPDATE is unguarded (submission unknown, pending, and recovering after an outdated check) reopen a resolved operation of any kind, except a Mint beside another unresolved Mint of its account, which exactly then the unique index stops |
| LedgerEffects.ReopensIff | apps/cli/src/ledger.ts:87-423 | of all ledger actions and all operations: a terminal operation is unresolved afterwards if and only if the action is one of these three marks, on this operation, and a Mint has no other unresolved Mint of its account beside it |
| LedgerEffects.SettlingFrees | apps/cli/src/ledger.ts:299-401 | confirming or failing a reserved Mint cannot fail and frees the wallet; count, fee and gas move by exactly that Mint's share |
| LedgerEffects.AuxiliarySettlesQuietly | apps/cli/src/ledger.ts:299-401 | settling an auxiliary operation moves no budget figure of anybody |
| LedgerEffects.CommittingCharges | apps/cli/src/ledger.ts:403-423 | a new commitment charges a reserved Mint's account the difference, and nobody anything else |
| LedgerEffects.SendingGateIff | apps/cli/src/ledger.ts:580-625 | the gate before sending passes if and only if the account is covered once the Mint's commitment is replaced |
| LedgerEffects.StartingGateIff | apps/cli/src/ledger.ts:580-625 | the gate before new work passes if and only if the account is covered once a Mint with these amounts has begun |
| LedgerEffects.RevokedIsShut | apps/cli/src/ledger.ts:522-528 | a revoked authorization lets nothing through and concerns no other account |
| LedgerEffects.AuthorizedIsOpen | apps/cli/src/ledger.ts:465-507 | a new authorization opens the gate until it expires and concerns no other account |
| LedgerRuns.RunKeepsSound | apps/cli/src/ledger.ts:87-423 | after any interleaving of ledger actions: at most one unresolved Mint per account, request ids unique, no waiting row carries one, and rows only move forward |
| LedgerRuns.AttachedAtMostOnce | apps/cli/src/ledger.ts:205-239 | across any number of processes attachSubmission succeeds at most once per operation |
| LedgerRuns.NeverSentAndReleased | apps/cli/src/ledger.ts:343-364 | an operation is never both handed to a wallet and written off as unsent, in either order |
| LedgerRuns.NeverWaitingAgain | apps/cli/src/ledger.ts:211-218 | no row comes back to CREATED or CERTIFICATE_READY |
| LedgerRuns.RecordedIsKept | apps/cli/src/ledger.ts:205-341 | no action of any process loses a request id, the presence of a wallet handle or of an issued id, or a stored call |
| LedgerRuns.OneUnresolvedMint | apps/cli/src/ledger.ts:860-863 | at every point an account has at most one unresolved Mint |
| LedgerRuns.ConfirmedCanReopen | apps/cli/src/ledger.ts:278-341 | counterexample: a concrete interleaving takes a confirmed row back to TX_PENDING, so terminal states are not final |
| Agent.React | apps/cli/src/agent.ts:260-1700 | whatever event arrives at whatever process, the ledger stays sound and no row moves backward |
| AgentSubmissions.SubmittedAtMostOnce | apps/cli/src/agent.ts:1388-1441 | in every run of any number of processes with crashes anywhere, submitCall happens at most once per operation, and only after its request id is durable |
| AgentSubmissions.AttachIsFirst | apps/cli/src/ledger.ts:211-218 | when attachSubmission succeeds, nobody has submitted the operation or is about to |
| AgentSubmissions.StepIsSafe | apps/cli/src/agent.ts:1388-1580 | one step of any process keeps that |
| AgentSolo.SoloStep | apps/cli/src/agent.ts:370-1700 | one step of the live process keeps the facts every Mint row and program point relies on |
| AgentSolo.SoloRun | apps/cli/src/agent.ts:260-1700 | they hold after every run with crashes and restarts, stops and authorizations arriving from other processes |
| AgentMints.NoMintWhileAnotherIsUnresolved | apps/cli/src/agent.ts:612-641 | when the wallet is about to be called for a Mint, every other Mint of that wallet is resolved |
| AgentMints.UnsentMintCanBeReleased | apps/cli/src/ledger.ts:347-364 | in every reachable state a Mint without request id is resolved or accepted by resolveUnsentFailure |
| AgentMints.UndecidedMintStaysReserved | apps/cli/src/agent.ts:1476-1580 | a submitted Mint whose outcome neither chain nor wallet has reported stays reserved with its whole fee |
| AgentRelease.ExpiredUnsentMintUnblocks | apps/cli/src/agent.ts:1443-1480 | from any reached state without a live process, one status command whose calls answer releases an expired, unsent and unconsumed Mint and ends with the wallet free, whatever other records it has to recover and whatever time, the chain, stops and other accounts do meanwhile |
| AgentRelease.MineOnceUnblocks | apps/cli/src/agent.ts:370-436 | so does mine once on an account that is not stopped; if confirmed, it goes on from there to the preflight of a new Mint |
| AgentRelease.RunUnblocksIff | apps/cli/src/agent.ts:771-795 | a run does the same if and only if its first budget test passes, in which the stuck Mint still counts as reserved: on the last authorized place it ends and leaves that Mint as it was |
| AgentRelease.StepOnWay | apps/cli/src/agent.ts:1452-1580 | every step of recoverOutstanding in any of these commands keeps the Mint listed until it is released, and released once it is |
| AgentFees.FeeConservation | apps/cli/src/ledger.ts:530-565 | in every reachable state spent plus reserved fee is the Mint fee times the committed Mints that are confirmed or unresolved |
| AgentFees.CommitmentIsTheMintFee | apps/cli/src/agent.ts:697-701 | a Mint commits nothing or exactly the Mint fee, and every submitted Mint has committed it |
| AgentBudget.AuthorizationStarts | apps/cli/src/agent.ts:260-350 | authorizing an idle account whose totals fit establishes the premise of the budget theorem |
| AgentBudget.GateWithin | apps/cli/src/ledger.ts:567-629 | a process of the account passes a budget gate only when the next Mint, or this one's gas, still fits |
| AgentBudget.SettlingClaims | apps/cli/src/ledger.ts:299-401 | settling a Mint never claims more of any limit than its commitment did |
| AgentBudget.BudgetNeverExceeded | apps/cli/src/agent.ts:683-701 | no run of unattended Mints, crashes and recoveries takes confirmed and reserved Mints, fee or gas beyond the authorized maxima, reported gas being at most the commitment |
| AgentProgress.StepAdvances | apps/cli/src/agent.ts:753-806 | every answer or error leads to a program point of smaller rank in the same command, at most counting one more completed Mint, or ends the command |
| AgentTermination.StepCounts | apps/cli/src/agent.ts:788-805 | no step of the live process lowers anybody's count of confirmed Mints, and a run that counts one more Mint has had it confirmed in the ledger by that very step |
| AgentTermination.CommandEnds | apps/cli/src/agent.ts:771-795 | while time passes, the chain issues, others stop or authorize other accounts, and wallet, chain and API answer or fail as they like, with any reported gas, every command, the loop of run included, is over after finitely many steps |
| AgentTermination.RunCompletesWithinAuthorization | apps/cli/src/agent.ts:771-806 | throughout every run of the system after its launch, a run has completed at most the Mints the authorization had left when it was launched, and at most those the ledger confirmed since |
| WorkBytes.AtOrBelow | native/randomx-wasm/src/arcals_randomx_wasm.cpp:29-35 | the byte loop is true if and only if the hash, read as a big-endian number, is at or below the target |
| WorkBytes.WriteNonceLittleEndian | native/randomx-worker/src/randomx_engine.cpp:148-152 | writes exactly the eight little-endian bytes of the nonce and leaves the challenge alone |
| WorkBytes.NonceRoundTrip | packages/protocol/src/encoding.ts:307-317 | every uint64 nonce is read back from the bytes written for it |
| WorkBytes.InputIsInjective | packages/protocol/src/encoding.ts:307-317 | different nonces give different RandomX inputs |
| WorkBytes.BuildRandomXInput | packages/protocol/src/encoding.ts:307-317 | the protocol package builds the same 40 bytes the miners hash |
| WorkBytes.TargetBytes | native/randomx-wasm/js/browser-worker.js:65-85 | a decimal target becomes the 32 big-endian bytes of the same number, or is refused exactly when zero or too wide |
| WorkBytes.DecodeNonce | native/randomx-wasm/js/browser-worker.js:220-224 | the loop reads back the number whose little-endian bytes the result holds |
| WasmSearch.ArxSearch | native/randomx-wasm/src/arcals_randomx_wasm.cpp:78-110 | returns the first solution on the stride with its own hash and the number of attempts; on a miss every attempt missed and the search ran out of count or of uint64; errors leave the result untouched |
| WasmSearch.PutLittleEndian | native/randomx-wasm/src/arcals_randomx_wasm.cpp:96-108 | the byte loops write the little-endian bytes at their offset and nothing else |
| BrowserWorker.ArcalsRun | native/randomx-wasm/js/browser-worker.js:111-247 | a SOLUTION is the first one on the Worker's stride, decoded to its nonce with its own hash; expiry and exhaustion report only misses; the start parameters are refused exactly when out of range |
| BrowserWorker.TriedByOneWorker | native/randomx-wasm/README.md:93-95 | Worker i of N tries nonce n, as its attempt n / N, if and only if i is n mod N |
| BrowserWorker.RoundsCover | native/randomx-wasm/README.md:93-95 | k missed attempts of every Worker rule out exactly the nonces below k * N |
| BrowserWorker.ExhaustedMeansNone | native/randomx-wasm/js/browser-worker.js:233-236 | if all N Workers exhaust the nonce space, no uint64 is a solution |
| NativeSearch.MoveKeepsInv | native/randomx-worker/src/randomx_engine.cpp:561-597 | one atomic step of one search thread keeps the facts about histories, ordinals, flags, counters and the published result |
| NativeSearch.ThrowKeepsInv | native/randomx-worker/src/randomx_engine.cpp:591-595 | so does an exception |
| NativeCoverage.SolutionIsSound | native/randomx-worker/src/randomx_engine.cpp:581-589 | under every interleaving a reported solution is one thread's own nonce with the hash of challenge and nonce, at or below target and in range |
| NativeCoverage.ExhaustedMeansNone | native/randomx-worker/src/randomx_engine.cpp:645-651 | without a time limit, exhausted means every nonce in range was hashed and none is a solution |
| NativeCoverage.ExactlyOnceIff | native/randomx-worker/src/randomx_engine.cpp:567-576 | an exhausted untimed search hashed each nonce exactly once, by one thread, if and only if the nonces in range plus the threads fit 2^64; both cases occur |
| NativeCoverage.ExhaustedCount | native/randomx-worker/src/randomx_engine.cpp:580-648 | under that condition hashesTried is the number of nonces in range |
| NativeExhaustion.CanExhaustIff | native/randomx-worker/src/randomx_engine.cpp:567-576 | an untimed search can report exhausted if and only if no nonce in range is a solution and at least as many ordinals lie beyond the limit as the largest power of two dividing the thread count |
| NativeExhaustion.NeverEndsByItself | native/randomx-worker/src/randomx_engine.cpp:567-576 | with fewer ordinals beyond the limit than that, no reached state of an untimed search has all threads done, unless a solution, a cancellation or an error ended it |
| NativeExhaustion.ReachesEnd | native/randomx-worker/src/randomx_engine.cpp:567-568 | under that condition every thread's ordinal, wrapping as uint64 does, gets out of range |
| NativeExhaustion.CommandLineSearch | apps/cli/src/randomx-miner.ts:93-106 | the command-line request without its time limit can exhaust if and only if no nonce below UINT64_MAX is a solution and the thread count is odd, and then hashes each nonce once only with a single thread |
| NativeExhaustion.WrappingRunExhausts | native/randomx-worker/src/randomx_engine.cpp:567-576 | counterexample: with three threads a run exists that reports exhausted after hashing a nonce twice |
| NativeProgress.ThreadsEnd | native/randomx-worker/src/randomx_engine.cpp:561-598 | under the same condition, as when no ordinal can wrap, there is a bound such that in every run in which each thread moves that often all worker threads are done |
| NativeProgress.MovesRunOut | native/randomx-worker/src/randomx_engine.cpp:567-590 | every move of a thread uses up one of finitely many, whatever the other threads do in between |
| NativeProgress.NoWrapHasRoom | native/randomx-worker/src/randomx_engine.cpp:567-568 | a search in which no ordinal can wrap meets that condition |
| NativeJobs.OneTerminalPerJob | native/randomx-worker/src/randomx_engine.cpp:500-655 | in every run a started job never has two terminal messages and has one before the next job starts; a job is active while its own is missing |
| NativeJobs.TerminalComes | native/randomx-worker/src/randomx_engine.cpp:600-651 | once started, a search whose ordinals leave the range comes to its terminal message: there is a bound such that in any further run in which every thread moves that often it is written when the search thread next looks |
| NativeJobs.EverySolutionIsSound | native/randomx-worker/src/randomx_engine.cpp:632-639 | every solution line of every run is sound for the job it belongs to |
| NativeJobs.LaunchAbortsIff | native/randomx-worker/src/randomx_engine.cpp:365-374 | of a search command taken by the idle command loop: when its launch is reached without another search command, starting it terminates the process if and only if a job was active when the command was sent, which status reports |
| NativeJobs.IdleSearchIsSafe | native/randomx-worker/src/randomx_engine.cpp:506-548 | a search command sent while no job is active never terminates the process, whatever happens until the next search command |
| NativeJobs.BusySearchCanAbort | native/randomx-worker/src/randomx_engine.cpp:506-548 | conversely, whenever a search has written its terminal message and its thread has not yet cleared the active job, some continuation of every accepted next job terminates the process, whatever its thread count |
| NativeJobs.RaceIsPossible | native/randomx-worker/src/randomx_engine.cpp:506-548 | counterexample: a run in which it does, with a client that sends its next search only after the terminal message of the one before |
| Companion.CompanionJobs.Submit | apps/cli/src/companion.ts:146-185 | identical live work maps to its job, a ninth unfinished job is refused, and any other job joins the queue and starts if nothing runs |
| Companion.CompanionJobs.Pump | apps/cli/src/companion.ts:232-242 | the first queued job still worth starting starts, those before it expire, nothing else changes, and the recursion ends |
| Companion.CompanionJobs.Settle | apps/cli/src/companion.ts:261-280 | the running job ends as solved, cancelled, expired or failed, and the queue moves on |
| Companion.CompanionJobs.Cancel | apps/cli/src/companion.ts:192-201 | only the named job changes: a queued one is cancelled, a computing one is told to stop, a finished one stays |
| Companion.CompanionJobs.CancelAll | apps/cli/src/companion.ts:204-206 | the same for every job |
| Companion.CompanionJobs.Prune | apps/cli/src/companion.ts:223-230 | exactly the stale finished jobs are dropped, in order |
| Companion.QueueOne | apps/cli/src/companion.ts:161-183 | a new job keeps at most eight unfinished, one live job per work key and submission order |
| Companion.StartQueued | apps/cli/src/companion.ts:234-242 | starting the first queued job keeps one computing job and starts in submission order |
| Companion.SettleRunning | apps/cli/src/companion.ts:212-221 | settling the running job leaves no computing job and no finished job changed |
| Companion.PumpStays | apps/cli/src/companion.ts:232-242 | the pump leaves finished jobs as they are |
| WorkerClient.RandomXWorkerClient.WaitFor | tools/benchmark/src/worker-client.ts:96-136 | takes the oldest queued message of an expected type, or joins the waiters when there is none; the conservation of messages is kept |
| WorkerClient.RandomXWorkerClient.Deliver | tools/benchmark/src/worker-client.ts:157-171 | resolves the first waiter that expects the type, or queues the message; no queued message ever matches a pending waiter |
| WorkerClient.RandomXWorkerClient.Timeout | tools/benchmark/src/worker-client.ts:112-119 | removes that waiter alone |
| WorkerClient.RandomXWorkerClient.RejectAll | tools/benchmark/src/worker-client.ts:183-191 | drops the waiters and no message |
| WorkerClient.QueueShrinks | tools/benchmark/src/worker-client.ts:103-109 | taking a message out of a queue keeps received = consumed + queued, per job and type, in arrival order |
| WorkerClient.HandedOver | tools/benchmark/src/worker-client.ts:158-166 | a message handed straight to a waiter overtakes none of its job and type |
| PiContent.PackPiDigits | packages/protocol/src/pi.ts:46-59 | packs exactly the texts of 360 decimal digits, into bytes that validate and unpack to the same text |
| PiContent.UnpackingIsInjective | packages/protocol/src/pi.ts:61-83 | valid packed content unpacks to Pi text and is the only content that does, so packing that text again gives it back |
| PiTree.ComputePiRootFromProof | packages/protocol/src/pi.ts:114-134 | the loop folds the proof from the leaf up; it throws exactly for a bad id or proof length |
| PiTree.VerifyPiProof | packages/protocol/src/pi.ts:136-150 | true if and only if the content is valid and its proof folds to the expected root; throws exactly where the program does |
| PiTree.HonestPathFolds | packages/protocol/src/pi.ts:108-134 | for trees of any height every leaf's honest path folds to the root |
| PiTree.FoldCollision | packages/protocol/src/pi.ts:125-133 | two values at one index that fold to one root yield two colliding node inputs |
| PiTree.SecondContentIsACollision | packages/protocol/src/pi.ts:92-98 | two contents accepted for one Arcal under one root yield two colliding Keccak inputs |
| PiTree.CommittedContentIsAccepted | packages/protocol/src/pi.ts:136-150 | the committed content is accepted with its honest path |
| PiTree.OnlyCommittedContent | packages/protocol/src/pi.ts:136-150 | whatever is accepted under the root of a tree is the committed content, or yields two colliding inputs |
| JsonText.ObjectReadsBack | native/randomx-worker/src/json.cpp:16-40 | the text of every flat object with distinct keys parses back to that object |
| JsonText.WithFieldsLookup | native/randomx-worker/src/json.cpp:31-33 | under each key lies the value written there |
| JsonText.ScanEscaped | native/randomx-worker/src/json.cpp:70-111 | an escaped string scans back to the string, stopping at its own quote |
| JsonText.ValueReadsBack | native/randomx-worker/src/json.cpp:113-138 | every value reads back from its text, leaving the delimiter |
| JsonText.Uint64RoundTrip | native/randomx-worker/src/json.cpp:147-158 | a decimal numeral parses to its number if and only if that fits uint64 |
| JsonParser.Parser.ParseText | native/randomx-worker/src/json.cpp:70-111 | the loop reads or throws exactly as the scan of the remaining text says, never past the end |
| JsonParser.Parser.ParseOne | native/randomx-worker/src/json.cpp:113-138 | a string, or a token up to the next delimiter without trailing white space |
| JsonParser.Parser.ParseMember | native/randomx-worker/src/json.cpp:26-34 | one key, colon and value, refused when the key is taken |
| JsonParser.Parser.ParseObject | native/randomx-worker/src/json.cpp:16-40 | the parser object ends on every input with exactly the object or the error the grammar functions give |
| JsonParser.ParseFlatJsonObject | native/randomx-worker/src/json.cpp:162-164 | the same for the entry point |
| JsonParser.JsonEscape | native/randomx-worker/src/json.cpp:217-247 | escapes every string without forbidden control characters to the text that reads back, and throws for the others |

## Left out

- Foreign code: RandomX, Keccak, ABI encoding and signatures are arbitrary functions; child processes, HTTP, CORS, RPC, SQLite files and permissions are not modelled.
- Agent methods are program points of one transition system instead of methods, because a crash between any two of their steps is what the theorems are about.
- Agent: a content registration that follows a Mint is the separate auxiliary command; three simulation attempts are one answer; capability checks and enforcement kinds of `authorize`, API session, challenge and certificate waiting appear only as answers or errors.
- Agent: the second look at the stop flag at the start of each `mineOnce` inside `run` is covered by the error any step may raise, not separately.
- Ledger: the append-only event log, error texts, gas attribution, chain id, protocol nonce, content id and the parent reference are not columns of the model; nothing reads them back.
- Ledger: listings are in insertion order; the program breaks ties of one creation millisecond by operation id.
- Ledger: a row's wallet is taken as already lower-cased.
- AgentBudget.BudgetNeverExceeded: is about unattended Mints with reported gas at most the commitment and one live process, because a manual Mint is not checked and a wallet's report is not bounded by the program.
- AgentTermination.CommandEnds: assumes that each awaited call answers or fails in the end, that request ids are new, and that nobody authorizes the same account anew while `run` is running.
- Agent: markRecovering is one step of its process; its UPDATE overtaking another process after an outdated check is the separate event `LateUpdate` (`Reenter` in the ledger runs), which the theorems for any number of processes allow at any time.
- Native search: creating the worker threads, VM set-up, progress lines and the Dataset cache; wall-clock time is a free choice at each test.
- NativeSearch.ThrowKeepsInv: exceptions come from VM creation, hashing and locking only, as the other operations of a thread do not throw.
- NativeJobs.RaceIsPossible: shows the race for jobs of one thread; LaunchAbortsIff characterises it for all.
- Companion: HTTP requests, request validation and progress figures; one clock reading per call; job ids are consecutive numbers where the program draws random ones.
- WorkerClient: sending, closing and standard error; the promise a waiter resolves is the returned value.
- JSON: characters stand for bytes, and white space is that of the C locale.
- PiTree: reading and writing hexadecimal text, and the padding leaves above one million, which are leaves like any other here.
- Circle CLI driver, manifest and configuration validation, artwork, benchmark reports, Target derivation and validity windows: long lists of independent checks or one-step facts.
