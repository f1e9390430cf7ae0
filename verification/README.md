# rallish verification

A Dafny model of the parts of rallish where a wrong step would go unnoticed: the Merkle
verifiability layer, the tamper-evident ledger and its concurrent writer, the rally baton
protocol, the guarded autonomous cycle, the headless turn loop, control-graph replay, the
brace scanner, and scratchpad compaction. `dafny verify dfyconfig.toml` checks the whole project.

## How the model is built

* **Form.** Recursive code (tree hash, audit paths, SUBPROOF) is modelled by functions. Loops
  and methods that update fields are modelled by methods and classes with the same loops,
  branches and order of updates, and each is proved against a specification function or
  predicate. The theorems are lemmas about those specifications, over every input, every
  sequence of operations, or every interleaving of atomic steps. What a specification computes is
  stated a second time without it, from hex digits, ledger positions, recorded turns and gate results
  (`MerkleReference`, `StuckPositions`, `TurnLoopBudget`, `RallyDelivery`, `CycleSteps`).
* **Hashing.** SHA-256 is an arbitrary function from byte strings to 32-byte digests, passed as
  a parameter. Nothing about it is assumed. A soundness lemma requires that no two *named*
  byte strings collide, and the set is written out: exactly what building the roots and
  running the verifier hashes. The `OrCollision` lemmas drop even that: the conclusion holds or
  the set contains an explicit collision. JSON canonicalisation is likewise an arbitrary partial function;
  `LedgerReread` also spells out the program's own line format.
* **Environment.** Clocks, adapters, gate commands, goal discovery and the router are parameters,
  and so are failing reads of the state file and the ledger, failing writes of the state file, and
  a cancelled pause between iterations.
  A gate is an arbitrary function from a state to a result and a state. Where a theorem needs gates to
  leave the cycle's id and counters alone it says so (`KeepsCounters`).
* **Text.** In `LedgerReread` and `Utf8` a text is a byte string, as in Go. Of `encoding/json` they use that a
  byte that begins no rune is written as the escape `\ufffd`, that every string reads back with those
  bytes replaced by U+FFFD and nothing else changed, and that U+FFFD itself is written unescaped. How ASCII
  characters are escaped is a parameter.
* **Runs.** A protocol state is a value, one atomic step is a function, and a run is any sequence of
  actions; an action that is not enabled changes nothing. History variables record what a
  theorem talks about (entries in the order they were written, turns recorded, events sent).

| file | models |
|---|---|
| `Hex`, `Hashing`, `MerkleTree`, `MerkleProofs`, `MerkleTheorems`, `MerkleReference` | `pkg/contract/merkle.go` |
| `Ledger` | `pkg/contract/harness_ledger.go` |
| `LedgerAppend` | `internal/cycle/ledger.go` |
| `Utf8`, `LedgerReread` | reading the ledger back, and `truncateOutput` in `internal/cycle/gates/audit.go` |
| `Rally`, `RallyProofs`, `RallyDelivery`, `RallySession` | `internal/broker/rally.go`, the rally join in `internal/broker/mcp.go` |
| `CycleTypes`, `CycleCreate`, `CycleDriver`, `CycleOrchestrator`, `CycleRun`, `CycleOps`, `CycleSteps`, `Stuck`, `StuckPositions`, `Seal` | `internal/cycle/*`, `internal/cli/cycle_run.go`, `internal/broker/cycle.go`, `internal/budget/budget.go` |
| `CycleConservation`, `CycleSafety` | theorems about the cycle over whole runs |
| `TurnTypes`, `DivMod`, `Wrappers` | shared types, and the uniqueness of division with remainder |
| `TurnLoop`, `TurnLoopProofs`, `TurnLoopBudget`, `TurnLoopWaiters` | `internal/broker/broker.go`, cancelling in `internal/broker/a2a.go`, `internal/exit/exit.go` |
| `Replay` | `pkg/contract/replay.go` |
| `Braces`, `BracesGrammar` | `lastBalancedObject` in `internal/adapter/prompt.go` |
| `Scratch` | `internal/scratch/scratch.go` |

## Where the code does not meet the expected property

The code is modelled as it is, and the lemmas named show where it falls short. Where a lemma gives the
exact condition, the text says "if and only if" or "exactly"; the others show that the failure occurs.

* The split loop of the tree hash terminates on 64-bit integers if and only if the size is at
  most 2^62 (`SplitLoopStopsIff`): past that the shifted value wraps to zero. The inclusion verifier
  runs that loop on the tree size named in the proof, so a larger one with an index in range makes it
  run forever.
* An iteration, a pass or a driver loop whose step passes loses that step from the state, but not from
  the ledger, exactly when the state cannot be written afterwards or, in the driver loop, goal discovery
  fails (`IterationConserves`, `PassConserves`, `DriverIterationConserves`, `DriverLosesStepHappens`).
* An orchestrated iteration that halts on a gate failure writes the halted state and no
  `cycle_halted` entry: a halted iteration seals the ledger if and only if a breaker tripped or the
  handshake stopped it ahead of the gates (`IterationSeals`). A later broker step whose
  gates pass then records a green and a completion without counting a cycle
  (`GateHaltThenBrokerStepMiscounts`, `GateHaltMiscountHappens`); in general the broker step conserves if
  and only if the pipeline failed, or left the cycle unhalted and the state could be written
  (`BrokerRecordConserves`), and it ignores the cap (`BrokerStepsIgnoreCap`).
* A halt that another process wrote to disk survives a broker step whose gates pass exactly when the
  broker's own copy is not newer or is halted too (`StepKeepsDiskHaltIff`).
* A pass refused by the ledger's seal alone repeats its exit code exactly as long as the state
  could still advance, or when the halt was a success, because that check comes first
  (`SealOnlyRefusalRepeats`). Such a cycle comes about when the state cannot be written after the halt
  entry (`TornHaltIsRefusedBySealOnly`, `TornHaltHappens`).
* The driver loop can outlast any number of iterations if and only if the cycle has no cap, is not halted and
  has a goal to start with (`RunsOnIff`): a deadline is no bound on the iterations, nor is the lack of
  automatic goals, which a gate may turn on. A created cycle has a positive cap (`CreatedCyclesConserve`), so such
  a state file must have been edited; the request's comment says that 0 means unlimited, the code
  makes 10 of it.
* A shell predicate in a session's exit list masks every condition behind it (`EvaluateDecides`), and a
  post in flight can overwrite the reason a session ended for (`FinishOverwritesReason`).
* A poll that waits may never be woken: it is beyond waking if and only if the session has ended with no
  request pending and no post between its sections (`WakeableIff`). That takes a recorded turn
  that could not be stored (`StoreFailureForgets`); otherwise it does not happen
  (`StoredRunsForgetNobody`).
* A response carries no turn number. A response posted by a client that holds a request is recorded for that
  request if and only if the request is numbered one past the turns recorded (`PostAnswersItsOwnIff`). That is
  so while each request is handed to one client, which answers it once (`ExclusiveRunsAnswerTheirOwn`); a
  request handed out twice can have its second answer recorded as the next turn (`LatePostAnswersNextTurn`).
* The ledger is hashed before it is written and verified after it is read back, which is not the same text. An
  honest ledger verifies when read back if and only if every text in it is valid UTF-8
  (`RereadLedgerVerifiesIff`, and over every run of appends `AppendsRereadIff`); otherwise it is reported as
  tampered with. The tail that is kept of a gate's output is cut at a byte, so valid output longer than 4000
  bytes does this exactly when the cut falls inside a rune (`GateOutputRereadsIff`, `CutOutputHappens`).
* A turn budget is respected as `max(0, budget)`: a negative budget is already overrun by zero
  turns (`TurnLoopIsSafe`).
* A handoff to a connected participant whose slot still holds an earlier event is recorded but not announced, and
  to no other connected participant (`DonePassesTheBaton`); the holder may then find an older turn in its slot
  (`FullSlotHidesTheTurn`), and hears the current one only by joining again (`JoinConnects`).
* A consistency proof from an empty log says nothing about the new root, not even that it is the empty root
  when the new log is empty too (`FromEmptyAcceptedIff`).
* An HTTP join whose headers cannot be written keeps its name taken until the session is
  interrupted (`FailedHeadersTakeTheName`, `AbandonedNameStaysTaken`).
* The scratchpad reads as the newest part of its log after every sequence of appends if and only if the
  64-bit threshold does not wrap in the way `CutsOldHeaders` says (`AlwaysNewestIff`); at 2^50 KB it does
  (`SomeLimitsWrap`), and an old header then survives as content (`WrappedLimitKeepsOldHeader`).
* Completing a cycle is documented as clearing the goal; the code leaves that to its callers
  (`CompleteCycle`).
* The stuck detector's comment speaks of new files; the code compares summary and files
  (`NoProgress` follows the code). The fingerprint does not sort files, and it tells turns apart only while
  neither uses the separator character (`FingerprintIdentifies`): every turn with two or more files shares its
  fingerprint with one whose summary contains the separator (`SeparatorHidesAFile`).

## Model

| member | source | states |
|---|---|---|
| MerkleTree.SplitIsLargest | pkg/contract/merkle.go:106-116 | the split point is the largest power of two strictly below n |
| MerkleTree.SplitLoopStopsIff | pkg/contract/merkle.go:110-116 | on 64-bit integers the doubling loop terminates iff n is at most 2^62 |
| MerkleTree.LargestPowerOfTwoLessThan | pkg/contract/merkle.go:110-116 | the loop computes the split point and never wraps, for every size on which it terminates |
| MerkleTree.InputsInjective | pkg/contract/merkle.go:46-52 | domain separation: a leaf input is never a node input, and a node input determines both children |
| MerkleTree.SidesLength | pkg/contract/merkle.go:282-291 | the predicted audit-path length is the number of levels the walk climbs |
| MerkleTree.SidesHalve | pkg/contract/merkle.go:254-275 | one level of the (fn, sn) bit walk consumes exactly the first of the sides the recursion produces |
| MerkleTree.SubProofSidesHalve | pkg/contract/merkle.go:414-418 | shifting past a complete old subtree leaves the remaining consistency sides unchanged |
| MerkleTree.SubProofSidesOdd | pkg/contract/merkle.go:414-431 | at an odd old size what remains of SUBPROOF is the audit path of the last old leaf |
| MerkleTree.CeilLog2IsLeast | pkg/contract/merkle.go:173-175 | the bound used below is the least exponent whose power of two reaches n |
| MerkleTree.SidesBound | pkg/contract/merkle.go:173-175 | an audit path has at most ceil(log2 n) nodes |
| MerkleTree.SubProofSidesBound | pkg/contract/merkle.go:293-303 | a consistency proof has at most ceil(log2 n) nodes above its seed |
| MerkleProofs.VerifyInclusion | pkg/contract/merkle.go:236-277 | the iterative verifier accepts exactly when the index is in range, the path has the predicted length and decodes, and folding it by the recursive sides gives the root |
| MerkleProofs.SkipOldEdge | pkg/contract/merkle.go:414-425 | the first loop keeps the remaining sides and reaches node 0 iff the old size is a power of two |
| MerkleProofs.FoldBoth | pkg/contract/merkle.go:432-458 | the second loop fits iff there are as many nodes as sides, and then yields both folds |
| MerkleProofs.VerifyConsistency | pkg/contract/merkle.go:382-459 | the iterative verifier accepts exactly when the sizes are ordered and either the trivial case holds or the seed and path fold to both roots by SUBPROOF's sides |
| MerkleTheorems.InclusionPathFolds | pkg/contract/merkle.go:210-224 | folding the recursive audit path over its leaf rebuilds the tree's root |
| MerkleTheorems.InclusionComplete | pkg/contract/merkle.go:185-200 | a proof exists iff the index is in range, is accepted against the log's root, and has exactly the predicted length, at most ceil(log2 n) |
| MerkleTheorems.AboveBaseFolds | pkg/contract/merkle.go:351-370 | folding SUBPROOF's nodes over its base rebuilds both the old and the new root |
| MerkleTheorems.ConsistencyComplete | pkg/contract/merkle.go:319-336 | for every old size from 0 to n the generated proof is accepted against both roots and has at most ceil(log2 n) + 1 nodes; other sizes are errors |
| MerkleTheorems.SameTreeSameLeaves | pkg/contract/merkle.go:120-138 | two trees of one size with one root have the same leaves, unless a listed input collides |
| MerkleTheorems.FoldReachesRoot | pkg/contract/merkle.go:254-276 | any path of the right length that folds to the root starts at the committed leaf and is the audit path |
| MerkleTheorems.InclusionSound | pkg/contract/merkle.go:236-277 | an accepted inclusion proof proves the entry's leaf data is the one at that index, and its path is the one the generator would produce |
| MerkleTheorems.FoldReachesBothRoots | pkg/contract/merkle.go:432-458 | a path folding one seed to both roots shows the old leaves to be the first new ones |
| MerkleTheorems.ConsistencySound | pkg/contract/merkle.go:382-459 | an accepted consistency proof proves append-only growth of the leaf data, for whatever path was supplied |
| MerkleTheorems.ConsistencyPathUnique | pkg/contract/merkle.go:382-459 | an accepted consistency path decodes to the one the generator produces |
| MerkleTheorems.InclusionOrCollision | pkg/contract/merkle.go:226-236 | with no assumption on the hash: an accepted inclusion proof is truthful or the listed inputs hold an explicit collision |
| MerkleTheorems.ConsistencyOrCollision | pkg/contract/merkle.go:372-381 | likewise an accepted consistency proof shows an append-only prefix or a collision |
| MerkleTheorems.IncludedEntryIsLogged | pkg/contract/merkle.go:236-277 | with the hash chain, an entry carrying its own chain hash and an accepted proof is the logged entry in content |
| MerkleTheorems.SameRootSameLedger | pkg/contract/merkle.go:157-161 | two intact ledgers of one length with one Merkle root have identical contents |
| MerkleTheorems.ConsistentLedgersExtend | pkg/contract/merkle.go:372-381 | between intact ledgers an accepted consistency proof means no entry was rewritten |
| MerkleReference.DecodeReadsHex | pkg/contract/merkle.go:81-85 | decoding reads exactly the texts of two hex digits a byte, of either case |
| MerkleReference.RootIsTreeHash | pkg/contract/merkle.go:81-161 | the root is the RFC 6962 tree hash in literals: SHA-256 of nothing, of 0 and the bytes the entry's hash spells (or the text itself if it spells none), or of 1 and the roots of the two parts |
| MerkleReference.RefusalsAre | pkg/contract/merkle.go:185-192 | a proof is refused exactly for an empty log, an index outside it, or an old size outside it, each with its own error |
| MerkleReference.InclusionAcceptedIff | pkg/contract/merkle.go:236-277 | against a log's root and size an inclusion proof is accepted iff its index is in range, the entry commits to the data logged there, and the path spells the generator's |
| MerkleReference.ConsistencyAcceptedIff | pkg/contract/merkle.go:382-459 | against the roots of two logs a consistency proof is accepted iff the earlier log is a prefix of the later in what its entries commit to, and the path spells the generator's |
| MerkleReference.ConsistencyAcceptsOnly | pkg/contract/merkle.go:382-459 | for whatever roots: only ordered sizes, digests for roots, the empty root for an empty old log, equal roots for equal sizes, and a path of digests for a grown log |
| MerkleReference.FromEmptyAcceptedIff | pkg/contract/merkle.go:390-397 | from an empty log a proof is accepted iff its path is empty, the old root is the empty one, and the new root is any digest |
| Ledger.VerifyChain | pkg/contract/harness_ledger.go:155-168 | accepts exactly the intact chains; otherwise returns the index up to which, and not past which, prefixes are intact |
| Ledger.LinkExtends | internal/cycle/ledger.go:100-120 | an entry linked behind the tail keeps the chain intact and becomes the new tail |
| Ledger.SameHashSameEntry | pkg/contract/harness_ledger.go:128-140 | equal hashes in two intact chains mean equal canonical content and equal predecessors |
| Ledger.SameTailSameLedger | pkg/contract/harness_ledger.go:145-168 | two intact chains with one tail hash have the same length and contents, absent a collision or a preimage of genesis |
| LedgerAppend.StepKeepsInv | internal/cycle/ledger.go:48-122 | every atomic step of every goroutine keeps the chain intact, the file equal to the writes in order, and a free lock's cached hash equal to the tail on disk |
| LedgerAppend.AppendsLinearise | internal/cycle/ledger.go:48-122 | under every interleaving, racing registrations included, the file is the old contents followed by one entry for each goroutine whose append succeeded, listed once each, and the chain of the entries as they were appended is intact |
| LedgerReread.ReadBackVerifiesIff | internal/cli/cycle_verify.go:72-84 | an intact ledger that is read back in whatever way verifies iff every entry still marshals as it did when it was hashed |
| LedgerReread.RereadLedgerVerifiesIff | pkg/contract/harness_ledger.go:128-168 | an intact ledger verifies after being written as JSON lines and read back iff all its texts are valid UTF-8 |
| LedgerReread.AppendsRereadIff | internal/cycle/ledger.go:85-209 | under every interleaving of appends the file verifies when read back iff the old entries and every entry whose append succeeded were valid UTF-8 |
| LedgerReread.RereadTwice | internal/broker/cycle.go:271-294 | reading back a second time, through the broker, changes nothing more |
| LedgerReread.PiecesRepair | pkg/contract/harness_ledger.go:76-107 | reading an entry's line back repairs its strings one by one and leaves the omitted fields omitted |
| LedgerReread.TruncatedIsValidIff | internal/cycle/gates/audit.go:58-64 | a valid output cut to its last bytes is valid iff it was not cut or the cut falls between two runes |
| LedgerReread.GateOutputRereadsIff | internal/cycle/gates/command.go:48-63 | a ledger that records a passing gate's output verifies when read back iff the output was not cut inside a rune |
| LedgerReread.CutOutputHappens | internal/cycle/gates/audit.go:58-64 | a concrete output of 4001 bytes whose one-entry ledger reads as tampered with |
| Utf8.ValidIsEncoded | pkg/contract/harness_ledger.go:128-133 | valid text is the UTF-8 encoding of a sequence of Unicode scalar values |
| Utf8.EncodedIsValid | pkg/contract/harness_ledger.go:128-133 | and every such encoding is valid |
| Utf8.RepairIsValid | pkg/contract/harness_ledger.go:128-133 | reading back makes a text valid and changes exactly those that were not |
| Utf8.RewrittenDiffers | pkg/contract/harness_ledger.go:128-133 | a text that is not valid is written differently once it was read back, at a position both have |
| LedgerAppend.AloneAppends | internal/cycle/ledger.go:85-122 | a goroutine running alone returns, and its linked entry is appended |
| LedgerAppend.LedgerFileSync.ReadLastHash | internal/cycle/ledger.go:127-154 | the line-by-line scan returns the tail hash, genesis for an empty file |
| LedgerAppend.LedgerFileSync.LockForLedger | internal/cycle/ledger.go:48-67 | the registered lock, created on first use with the tail hash |
| LedgerAppend.LedgerFileSync.Append | internal/cycle/ledger.go:85-122 | appends the linked entry, or leaves file and cached hash alone on an error |
| Rally.TurnStateDistinct | pkg/contract/rally.go:169-173 | a turn status names exactly one holder and is never idle or interrupted |
| RallyProofs.StepKeepsSession | internal/broker/rally.go:516-601 | every step keeps the holder a participant, the status the holder's turn, turnN one past the history, and the history a gap-free chain without self-handoffs |
| RallyProofs.StepKeepsChannels | internal/broker/rally.go:505-511 | no step sends on a closed channel, closes one twice, blocks under the lock, or cleans up another handler's stream |
| RallyProofs.StepKeepsEvents | internal/broker/rally.go:350-383 | per stream, turn numbers strictly increase and each event with a sender is a recorded handoff to that participant |
| RallyProofs.RallyIsSafe | internal/broker/rally.go:287-601 | all of these over every interleaving of joins, dones, disconnects, timeouts, interrupts and closes |
| RallyProofs.InterruptedIsFinal | internal/broker/rally.go:722-756 | interrupted is absorbing and freezes history, holder and turn |
| RallyProofs.RejoinHearsCurrentTurn | internal/broker/mcp.go:493-515 | an accepted join by the holder enqueues the current turn, so a drained or dropped event never strands the baton |
| RallyProofs.RefusedIffHandlerLeft | internal/broker/mcp.go:487-495 | a member of an active session is refused as connected exactly while a handler of that name has not cleaned up |
| RallyProofs.AbandonedNameStaysTaken | internal/broker/rally.go:385-389 | a name whose HTTP handler left on a header failure stays taken until the session is interrupted |
| RallyProofs.RoundRobin | internal/broker/rally.go:73-89 | over any run without interrupts and named handoffs, whatever else happens in between, the holder is the participant as many places further round as turns have passed |
| RallyDelivery.NamesAre | pkg/contract/rally.go:14-33 | a name is one to sixteen letters, digits, dashes or underscores |
| RallyDelivery.DonePassesTheBaton | internal/broker/rally.go:516-601 | a done is accepted iff the holder passes to nobody in particular or to another participant; it records the handoff and puts the event into the next holder's slot iff that one is connected and the slot is free, and changes no other stream; a refused one changes nothing |
| RallyDelivery.HolderHasAnEvent | internal/broker/rally.go:578-597 | over every run, whoever holds the baton after an accepted done, if connected, has an event in the slot |
| RallyDelivery.FullSlotHidesTheTurn | internal/broker/rally.go:591-597 | a concrete one: the holder of turn 3 finds turn 1 in the slot |
| RallyDelivery.JoinConnects | internal/broker/rally.go:330-383 | a member not yet connected gets a stream; the first participant takes an unheld baton; the holder hears the turn and the last handoff; nobody else hears anything |
| RallyDelivery.InterruptReachesEveryone | internal/broker/rally.go:722-756 | every connected stream is collected for closing and has an event in its slot, the sentinel if it was free |
| RallyDelivery.AnnouncementsAreHeard | internal/broker/rally.go:406-478 | over every run and on every stream, the turns heard are the ones announced, in order, but for at most the last, which is in the slot or was drained by an MCP handler that timed out |
| RallyDelivery.ReceiveTakesTheEvent | internal/broker/rally.go:417-445 | a receive empties the slot; a handler stays only over HTTP, after a turn it could write, or with nothing to receive on an open channel |
| RallyDelivery.FaultsAre | internal/broker/rally.go:580-597 | what counts as the fault no step commits: a send on a closed channel or into a full slot under the lock, a second close, cleaning up another handler's stream |
| RallyDelivery.FailedHeadersTakeTheName | internal/broker/rally.go:385-391 | an HTTP join whose headers cannot be written takes its name away until the session is interrupted |
| RallyDelivery.LeavingFreesTheName | internal/broker/rally.go:505-511 | a handler that leaves and cleans up gives its name back |
| RallySessions.CreateRallySession | internal/broker/rally.go:185-254 | accepts exactly rosters of at least two distinct valid names with a member first holder, and starts in the invariant |
| RallySessions.RallySession.NextParticipant | internal/broker/rally.go:73-89 | the search loop returns the preferred member, else the cyclic successor |
| RallySessions.RallySession.JoinStream | internal/broker/rally.go:320-383 | the locked section of both joins performs exactly the protocol's join step |
| RallySessions.RallySession.AdvanceBaton | internal/broker/rally.go:516-601 | performs exactly the done step, or refuses for the right reason and changes nothing |
| RallySessions.CollectStreams | internal/broker/rally.go:730-747 | the loop offers the sentinel to every connected stream with a free slot and collects each stream exactly once |
| RallySessions.RallySession.InterruptSession | internal/broker/rally.go:722-750 | performs exactly the interrupt step, leaving the collected streams to be closed after unlocking |
| RallySessions.RallySession.CleanupStream | internal/broker/rally.go:505-511 | deletes by name, and performs exactly the cleanup step |
| RallySessions.StoreRunKeepsInv | internal/broker/rally.go:761-788 | over any number of sessions and shutdowns, every session keeps its invariants |
| Stuck.FingerprintIdentifies | internal/cycle/stuck.go:37-42 | fingerprints agree iff summary and files agree, while neither uses the separator |
| Stuck.SeparatorHidesAFile | internal/cycle/stuck.go:37-42 | every turn with two or more files shares its fingerprint with a different turn whose summary contains the separator |
| Stuck.Stuck | internal/cycle/stuck.go:55-105 | one pass with count maps reports stuck exactly when a turn repeats four times, a gate failure three times, six turns ping-pong, or five turns bring nothing new and no green |
| Stuck.PingPongStuck | internal/cycle/stuck.go:109-135 | the run counter finds an alternating run of six iff there is one |
| Stuck.NoProgressStuck | internal/cycle/stuck.go:140-173 | the window check decides exactly the no-progress predicate |
| Stuck.AnyAtLeast | internal/cycle/stuck.go:80-92 | ranging over a count map finds a count at the threshold iff some element occurs that often |
| Stuck.LifetimeTurns | internal/budget/budget.go:54-62 | the loop counts the agent turns of the whole ledger |
| Stuck.ExceedsLifetimeCeiling | internal/budget/budget.go:71-76 | true iff the ceiling is positive and reached |
| Stuck.SpinIsStuck | internal/cycle/stuck.go:80-85 | any ledger with more than 3d turns over d distinct fingerprints is stuck |
| Stuck.TurnsAreBounded | internal/cycle/orchestrator.go:155-174 | if every turn was granted by both breakers, there are at most 3d + 1 of them and at most a positive ceiling |
| Stuck.BoundIsReached | internal/cycle/stuck.go:20-22 | the bound is tight for one fingerprint |
| StuckPositions.StuckIff | internal/cycle/stuck.go:45-110 | a ledger is stuck iff four agent turns are alike, or three failures of one gate with one message, or six turns in a row go back and forth, or the last five repeat earlier ones with no green since the first of them |
| StuckPositions.TurnlessIsStuckIff | internal/cycle/stuck.go:86-90 | without agent turns it is stuck iff a gate failed three times the same way |
| StuckPositions.OthersDoNotMatter | internal/cycle/stuck.go:66-77 | entries of any other kind, passed gates among them, change nothing |
| CycleTypes.State.Halt | internal/cycle/state.go:82-88 | records halted, reason, phase and time, and nothing else |
| CycleTypes.State.CompleteCycle | internal/cycle/state.go:92-100 | counts an unhalted cycle exactly once and refuses a halted one unchanged |
| CycleDriver.Execute | internal/cycle/gate.go:27-50 | the loop computes the pipeline's specification |
| CycleDriver.ExecuteStopsAtFirstFailure | internal/cycle/gate.go:20-50 | gates run in order on each other's states up to the first failure and not past it; each one run is reported; success iff none fails; a failure hands back the failing gate's state, halted for its reason |
| CycleDriver.Driver.Step | internal/cycle/driver.go:164-252 | result and ledger entries of one gated step, every error path included |
| CycleDriver.Driver.Run | internal/cycle/driver.go:89-141 | the loop leaves exactly the specified state file, ledger and outcome |
| CycleOrchestrator.AgentRotates | internal/cycle/orchestrator.go:176-179 | each agent in turn drives ResetEvery consecutive cycles, round after round |
| CycleOrchestrator.MultiAgentOrchestrator.RunOnce | internal/cycle/orchestrator.go:135-232 | one iteration performs exactly the specified guard, turn, handshake, step and writes |
| CycleOrchestrator.MultiAgentOrchestrator.Run | internal/cycle/orchestrator.go:73-109 | refuses a sealed ledger, otherwise iterates on the state file read afresh |
| CycleSteps.SteppedIs | internal/cycle/driver.go:145-250 | a gated step runs the gates on each other's states up to the first failure, and leaves exactly the entries and the state of a pass, a halt or a refusal |
| CycleSteps.CanAdvanceIff | pkg/contract/cycle.go:264-279 | a cycle goes on iff it is not halted, below a positive cap, and before a positive deadline once started |
| CycleSteps.BreakersHalt | internal/cycle/orchestrator.go:148-174 | a stuck ledger, then a reached ceiling, halts the cycle before any agent is asked, with one entry and the halted state |
| CycleSteps.IterationTakesTheGoal | internal/cycle/orchestrator.go:176-232 | the turn is recorded under the agent on turn; an unreadable handshake or a request halts; otherwise the gates run on the state with the agent's goal if it gave one, and nothing else changed |
| CycleSteps.GivenGoalIsRun | internal/cycle/orchestrator.go:344-346 | a turn that gives a goal is never refused for want of one: it halts iff a gate fails, and advances iff all pass, the cycle is not halted and the state can be written |
| CycleSteps.RunLoopIs | internal/cycle/orchestrator.go:93-108 | the loop goes round through a sequence of files, each read afresh, until an iteration ends it, the state does not read, or the pause is cancelled |
| CycleSteps.InvocationIs | internal/cycle/orchestrator.go:72-108 | without agents nothing runs; a ledger that does not read or is sealed refuses; otherwise the loop |
| CycleSteps.DriverIterationLeaves | internal/cycle/driver.go:90-140 | an iteration of the driver loop is one gated step and then the discovered goal, the write, and the decision to go on |
| CycleSteps.ThreeFailuresAreStuck | internal/broker/cycle.go:339-387 | after three broker steps on which a gate fails the same way the next iteration halts the cycle as stuck |
| CycleRun.ExitCodeIdentifiesReason | internal/cli/cycle_run.go:75-100 | each known reason has an exit code of its own, unknown ones share 19, and none is the operational 1 |
| CycleRun.FailedStderr | internal/cli/cycle_run.go:469-479 | the backward search loop returns the specified detail |
| CycleRun.DetailIsLastFailure | internal/cli/cycle_run.go:464-479 | that detail is the stderr of the last report that did not pass, else of the last report, else empty |
| CycleRun.RunCycleOnce | internal/cli/cycle_run.go:251-356 | one pass leaves exactly the specified files and exit, in the order the checks are made |
| CycleSteps.ReferencePassLeaves | internal/cli/cycle_run.go:300-356 | a pass without agents runs the breakers and one gated step on the goal of the pass, and reports a halt iff it was written |
| CycleSteps.AgentPassIsIteration | internal/cli/cycle_run.go:366-425 | a pass with agents is one orchestrated iteration on the goal of the pass |
| CycleSteps.OtherPassesChangeNothing | internal/cli/cycle_run.go:251-295 | a pass that does not start changes nothing, and its exit says which of the checks, in order, it failed |
| CycleSteps.ExitCodesAre | internal/cli/cycle_run.go:45-100 | the codes as documented |
| Seal.LedgerSealsResume | internal/cycle/reviver.go:29-58 | the forward pass equals the seal read from the end |
| Seal.SealIsLastHaltWithoutGreen | internal/cycle/reviver.go:22-58 | sealed iff a last halt has no later green, with that halt's reason or stuck |
| CycleOps.RefreshIsFreshest | internal/broker/cycle.go:118-139 | refreshing never regresses the cache and leaves it as fresh as the disk, so an out-of-band halt at least as fresh is what a handler gets |
| CycleSafety.StepKeepsDiskHaltIff | internal/broker/cycle.go:300-310 | a halt another process wrote survives a step whose gates pass iff the broker's copy is not newer or is halted too |
| CycleOps.CycleStore.HandleStepCycle | internal/broker/cycle.go:295-389 | the step handler performs exactly the specified refresh, guard, pipeline, records and writes |
| CycleOps.CycleStore.HandleHaltCycle | internal/broker/cycle.go:403-438 | the halt handler appends one halt, removes the state file and forgets the cycle |
| CycleSteps.BrokerStepLeaves | internal/broker/cycle.go:295-399 | a broker step runs the pipeline on the cycle as found, with the goal of the request if there is one, and leaves exactly the entries, the state and the cache of a pass, a halt or a refusal |
| CycleSteps.HaltHandlerLeaves | internal/broker/cycle.go:401-448 | halting by hand records the reason if it is a known one, else user-requested, and forgets the cycle |
| CycleSteps.OrchestrateLeaves | internal/broker/cycle.go:505-592 | orchestrating goes on to the invocation iff the cycle is found, the body reads, the adapters exist, and the ledger reads unsealed |
| CycleSteps.CreateLeaves | internal/broker/cycle.go:198-232 | creating leaves the state on file and at hand and one entry, or nothing |
| CycleOps.CycleStore.HandleOrchestrate | internal/broker/cycle.go:505-576 | refuses a sealed ledger, otherwise runs the orchestration |
| CycleConservation.StepTally | internal/cycle/driver.go:211-251 | a step that succeeds is counted once in the state and once on the ledger, one that fails nowhere |
| CycleConservation.IterationConserves | internal/cycle/orchestrator.go:135-232 | an iteration counts one more cycle iff it advanced, and keeps greens = completions = counter and the cap iff it does not lose a passing step's state |
| CycleConservation.DriverIterationConserves | internal/cycle/driver.go:95-131 | a driver iteration conserves iff it does not lose a step to a failed goal discovery or write; going on means one more cycle, still under the cap |
| CycleConservation.PassConserves | internal/cli/cycle_run.go:251-356 | a one-shot pass conserves iff it does not lose a passing step's state |
| CycleConservation.RunConserves | internal/cycle/driver.go:220-251 | over any run of passes, driver loops, orchestrations and tool-use records that lose no step: as many greens as completions as counted cycles, never more than the cap, which stays what it was |
| CycleConservation.CreatedCyclesConserve | internal/broker/cycle.go:198-232 | a created cycle conserves, is unhalted and has a positive cap, so over any run that loses no step it completes at most that many cycles, as many as the ledger says |
| CycleCreate.NewState | internal/cycle/state.go:20-56 | refuses exactly the main branches and an empty goal; otherwise the cap is positive, the request's own if that is |
| CycleCreate.NormaliseLocalGates | internal/cycle/state.go:58-68 | the loop computes the normalised commands |
| CycleCreate.NormalisedMembers | internal/cycle/state.go:58-68 | the normalised commands are exactly the trimmed ones that are not blank |
| CycleCreate.NormalisedIsStable | internal/cycle/state.go:58-68 | normalising again changes nothing |
| CycleOps.CycleStore.HandleCreateCycle | internal/broker/cycle.go:198-232 | writes, caches and records the first state, or, refused or unwritable, leaves everything alone |
| CycleConservation.DriverLosesStepHappens | internal/cycle/driver.go:111-115 | a concrete step lost to a failed goal discovery |
| CycleConservation.BrokerRecordConserves | internal/broker/cycle.go:339-387 | the broker step conserves iff the pipeline failed, or left the cycle unhalted and the state was written |
| CycleConservation.BrokerStepsIgnoreCap | internal/broker/cycle.go:295-389 | n broker steps that pass complete n cycles, whatever the cap |
| CycleConservation.LoopEnds | internal/cycle/orchestrator.go:93-108 | a capped orchestration ends within its remaining cycles, whatever fails |
| CycleConservation.DriverEnds | internal/cycle/driver.go:90-140 | a capped driver loop ends within its remaining cycles, whatever fails |
| CycleConservation.RunsOnIff | internal/cycle/driver.go:90-140 | with gates that keep the counters, a cycle that conserved can outlast any number of iterations iff it has no cap, is not halted and has a goal |
| CycleSafety.SealIsAbsorbing | internal/cycle/reviver.go:22-58 | a sealed cycle stays sealed under every sequence of passes, steps, halts, orchestrations and tool-use records, and its ledger gains only halts and tool-use records |
| CycleSafety.GreenLiftsSeal | internal/cycle/driver.go:224-249 | a gated step that succeeds lifts any seal |
| CycleSafety.IterationSeals | internal/cycle/orchestrator.go:164-224 | a halted iteration seals the ledger iff a breaker tripped or the handshake stopped it before the gates |
| CycleSafety.ReferencePassSeals | internal/cli/cycle_run.go:427-445 | every halt the reference pass reports is sealed with its reason |
| CycleSafety.ReportingPassHalts | internal/cli/cycle_run.go:267-295 | a pass that reports a halt leaves a state file halted for that reason iff it was not the seal alone that refused and no agent pass's write failed; otherwise the file is as it was, unhalted |
| CycleSafety.RetriggersKeepTheCode | internal/cli/cycle_run.go:267-295 | after a pass that sealed the cycle every later pass changes nothing and exits with the same code |
| CycleSafety.SealOnlyRefusalRepeats | internal/cli/cycle_run.go:275-295 | where only the seal refuses, the exit code repeats iff the state could still advance or the halt was a success |
| CycleSafety.TornHaltIsRefusedBySealOnly | internal/cli/cycle_run.go:436-445 | a halt whose state write fails exits 1 and leaves a cycle that only the seal refuses, exactly while it could advance |
| CycleSafety.TornHaltHappens | internal/cli/cycle_run.go:275-295 | a concrete one, with exit codes 1, then 11, then 0 past the deadline |
| CycleSafety.RevivalsAreBounded | internal/cycle/orchestrator.go:148-174 | across any revivals a cycle is granted at most 3d + 1 turns for d fingerprints, and at most a positive ceiling |
| CycleSafety.GateHaltThenBrokerStepMiscounts | internal/broker/cycle.go:339-362 | after an orchestrated gate failure, a broker step that passes records a completion that is not counted |
| CycleSafety.GateHaltMiscountHappens | internal/broker/cycle.go:339-362 | a concrete one |
| TurnLoop.EvaluateDecides | internal/exit/exit.go:61-75 | a session ends iff some condition holds ahead of every shell predicate and of the request's cancellation, for the first such condition's reason |
| TurnLoop.Evaluate | internal/exit/exit.go:61-75 | the loop computes that match |
| TurnLoop.Server.NextTurn | internal/broker/broker.go:188-255 | one pass under the lock: terminal, budget, store, router, dispatch or wait, touching only this session |
| TurnLoop.Server.SeeArtifacts | internal/broker/broker.go:362-368 | the loop adds the artifacts and counts none iff all were seen |
| TurnLoop.Server.RecordTurn | internal/broker/broker.go:334-377 | the first section consumes the pending request and records exactly one turn, or refuses and changes nothing |
| TurnLoop.Server.EvaluateExit | internal/broker/broker.go:401-447 | the second section ends the session iff a condition matches and swaps the notify channel |
| TurnLoop.Server.Cancel | internal/broker/a2a.go:212-253 | ends a live session once, or refuses |
| TurnLoopProofs.StepKeepsInv | internal/broker/broker.go:188-447 | every section keeps the counters equal to the log's sums, the pending request next in line, and channels closed at most once |
| TurnLoopProofs.TurnLoopIsSafe | internal/broker/broker.go:188-447 | over every interleaving: the pending request is for the next turn; every recorded turn went to the router's role with turns and tokens left; the turn budget is not overrun; at most one turn is recorded after the end; no notify channel is closed twice |
| TurnLoopWaiters.WakeableIff | internal/broker/broker.go:301-317 | a waiting poll can still be woken iff its channel was swapped out, or the session is live, or a request is pending or a post under way |
| TurnLoopWaiters.StoredRunsForgetNobody | internal/broker/broker.go:379-451 | while every recorded turn can be stored, no waiting poll is ever beyond waking |
| TurnLoopWaiters.StoreFailureForgets | internal/broker/broker.go:202-210 | a concrete poll forgotten after a turn that could not be stored |
| TurnLoopWaiters.PostAnswersItsOwnIff | internal/broker/broker.go:334-342 | over every run, a response by a client that holds a request is recorded for that request iff it is numbered one past the turn count; and so for every turn recorded before |
| TurnLoopWaiters.ExclusiveRunsAnswerTheirOwn | internal/broker/broker.go:334-342 | while each request is handed to one client that answers once, every response is recorded for the request it answers |
| TurnLoopWaiters.LatePostAnswersNextTurn | internal/broker/broker.go:334-342 | a request handed out twice has its second answer recorded as the next turn |
| TurnLoopProofs.TerminalIsFinal | internal/broker/broker.go:196-200 | ending is never undone and no request is dispatched afterwards |
| TurnLoopProofs.RepollRepeats | internal/broker/broker.go:220-254 | polling again before the turn is posted hands out the same request |
| TurnLoopProofs.FinishOverwritesReason | internal/broker/broker.go:415-419 | a post in flight overwrites an ended session's reason iff a condition matches |
| TurnLoopBudget.BudgetIsRespected | internal/budget/budget.go:25-39 | over every run each recorded turn was requested with turns and tokens left, counted from the turns on record, and its request said how many |
| TurnLoopBudget.PollIsAnswered | internal/broker/broker.go:188-255 | over every run a poll hears that the budget is exhausted iff the tokens or turns on record reach it; otherwise the role the router names gets the next request, and any other waits |
| TurnLoopBudget.PostEndsForFirstMet | internal/exit/exit.go:61-113 | over every run a post ends the session for the first condition that what is on record meets, and otherwise leaves it as it was |
| TurnLoopBudget.CancelEnds | internal/broker/a2a.go:212-253 | cancelling ends a live session with reason canceled and swaps its channel, and leaves an ended one alone |
| Replay.Reconstruct | pkg/contract/replay.go:163-226 | the in-place maps and slices build exactly the ledger's graph |
| Replay.AddHandoffEdges | pkg/contract/replay.go:233-249 | in place, appends to each step its one handoff edge, if any, and changes nothing else |
| Replay.Replay | pkg/contract/replay.go:143-148 | yields the graph iff the chain is intact, otherwise the position where prefixes stop verifying |
| Replay.EdgesAreExact | pkg/contract/replay.go:52-105 | edges run forward: a sequence edge exactly to the next step of the cycle, then a handoff edge exactly to the earliest later step of the named agent |
| Replay.SegmentsPartition | pkg/contract/replay.go:106-124 | the segments partition the steps by cycle, in order of first appearance |
| Replay.IndicesAreFilter | pkg/contract/replay.go:198-207 | a segment's steps are the strictly increasing positions of its cycle |
| Replay.GraphsAgreeIff | pkg/contract/replay.go:78-104 | two ledgers have the same graph iff they agree in the fields a step shows |
| Braces.ScanObject | internal/adapter/prompt.go:94-128 | the inner loop finds the end of a balanced span iff there is one |
| Braces.LastBalancedObject | internal/adapter/prompt.go:88-131 | the loops, with their index jump, terminate and compute the left-to-right scan |
| Braces.LastBalancedObjectIsLast | internal/adapter/prompt.go:85-131 | the span found is balanced and none begins behind it; none is found iff no position begins one |
| BracesGrammar.ClosesIffObject | internal/adapter/prompt.go:97-128 | a span closes for the automaton iff its text is an object of the grammar of braces, string literals and other characters |
| BracesGrammar.LastBalancedObjectIsObject | internal/adapter/prompt.go:85-131 | in the grammar's terms: an object, with no object beginning behind it, or no object at all |
| Scratch.Manager.Append | internal/scratch/scratch.go:27-38 | the file becomes the compaction of old content and text |
| Scratch.Manager.CompactIfNeeded | internal/scratch/scratch.go:55-109 | performs exactly that compaction in place |
| Scratch.KeptPartBeginsALine | internal/scratch/scratch.go:85-103 | the kept part starts just behind the first newline at or past the cut, whenever there is one |
| Scratch.AppendIsBounded | internal/scratch/scratch.go:63-80 | for every positive int64 limit the file is within maxKB * 1024 bytes after an append |
| Scratch.ScratchpadStaysBounded | internal/scratch/scratch.go:26-38 | and so after every sequence of appends |
| Scratch.ScratchpadKeepsNewest | internal/scratch/scratch.go:76-108 | unless the threshold wraps so, over any sequence of appends the file is the whole log, or the header and the newest part of the log |
| Scratch.AlwaysNewestIff | internal/scratch/scratch.go:63-108 | that holds for every sequence of appends iff the threshold does not wrap so |
| Scratch.WrappedLimitKeepsOldHeader | internal/scratch/scratch.go:63-66 | for every limit that does wrap so, two appends that break it |
| Scratch.SomeLimitsWrap | internal/scratch/scratch.go:63-66 | 2^50 KB wraps so, 2^54 KB does not |

## Left out

- MerkleTree.LargestPowerOfTwoLessThan: required for sizes up to 2^62, exactly those on which the source's loop terminates.
- MerkleProofs.VerifyInclusion: the same bound on the tree size, for an index in range, because only then it calls that loop. Building the list of leaf hashes and decoding the path are functions rather than loops.
- MerkleProofs.EmptyMerkleRoot: the empty root is the hex of the hash of no bytes; that SHA-256 gives the source's literal is not part of this model.
- MerkleTheorems.InclusionSound: the path is unique as decoded digests; its hex text may still differ in letter case.
- LedgerAppend.AppendsLinearise: the entries are those in memory; what verifies once they are read back is AppendsRereadIff. Writers are in one process, and a write succeeds or writes nothing; other processes and partial writes are excluded by the source's own comments.
- LedgerReread.RereadLedgerVerifiesIff: entries without a work contract, which the program never attaches, and within `encoding/json` as the section on text describes it.
- RallyProofs.RallyIsSafe: the `lastSeen` times and the staleness threshold are not modelled; write failures and disconnects are arbitrary steps.
- CycleDriver.Driver.Step: the gates-pinned entry carries the commands instead of their digests, and the second tamper check, which rehashes the same value, is omitted because it cannot fire. Appends to the ledger succeed. The step timeout only reaches the gates, whose results are arbitrary.
- CycleDriver.Driver.Run: retries of a failing read count as one read, and a write either succeeds or leaves the old state; the error of rolling the backup after a write is not modelled.
- CycleOrchestrator.MultiAgentOrchestrator.RunOnce: violations carried in the state and the prompt sent to the adapter are omitted; all records of one pass carry one clock reading; a ledger is always configured and its appends succeed.
- CycleOrchestrator.MultiAgentOrchestrator.Run: the same.
- CycleRun.RunCycleOnce: appends to the ledger succeed; building the adapter registry is one of the ways an adapter is not found.
- CycleCreate.NewState: the fields only gates and prompts read (branch, pending files, command overrides) are not kept; pending files reach the first ledger entry.
- CycleSafety.SealIsAbsorbing: operations do not overlap. A halt during a running orchestration is outside it, since the seal is read once at the start. The bare driver loop is excluded, for it does not read the ledger.
- CycleConservation.RunConserves: not for the broker's step and halt handlers; for the step the exact condition is BrokerRecordConserves. Passes that lose a step are excluded; PassConserves, IterationConserves and DriverIterationConserves say exactly which those are.
- TurnLoopWaiters.WakeableIff: a poll's own timeout, after which it returns, is the step Leave and does not count as waking.
- TurnLoop.Server.RecordTurn: the scratchpad append inside the section is module Scratch; A2A subscribers are omitted, since both sides may close their channels.
- Scratch.ScratchpadStaysBounded: lengths stay below 2^62, as file sizes do.
- Scratch.ScratchpadKeepsNewest: not for the limits of CutsOldHeaders, for which it is false; every limit from 1 KB to below 2^50 KB is sound (UsualLimitsAreSound).
- Duplicate-violation merging, state-file backups, HTTP, SSE, JSON and hex plumbing, the CLI surface, presets, doctor and UI: input and output, or thin wrappers.
- Gate bodies and the philosophy scanners: external commands and text heuristics; any result is allowed for them.
- Agent-card signing and the action and secret deny-lists: foreign primitives and tables that would only add easy members.
