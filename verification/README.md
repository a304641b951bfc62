# Active Harmony: a verified model

Active Harmony tunes programs while they run.  A strategy proposes points of a
search space; clients fetch them, measure them and report how well they did.  The
Dafny modules here model the parts of the repository that carry state or protocol,
and prove what they keep and what they compute.  `dafny verify dfyconfig.toml`
checks all of it.

- **Session pipeline** (`Ring`, `Workflow`, `Passages`, `Pipeline`, `PipelineInvariant`,
  `PipelineRuns`, `Outcomes`, `PipelineGrowth`, `SessionCore`).  Trials climb a stack of plug-in
  layers, wait in a ring queue, are fetched and reported, and descend the layers again.
  The pure modules say what each step does and prove the invariant and its consequences
  over every run; `Passages` and `Outcomes` say what becomes of a trial by the answers the
  layers give; `PipelineGrowth` shows what becomes of a run whose lists grow out of
  line; `SessionCore` has the program's variables as fields of classes and proves each
  routine against the pure step.
- **Clients and session** (`Protocol`, `Clients`): the client library's state machine
  composed with the session, for one client and for any number.
- **Configuration hash** (`HashTable`, `HashMapping`, `HashRuns`, `Hcfg`): open
  addressing with linear probing, the map it stands for, runs of operations, and the
  class that changes it in place.
- **Messages** (`Text`, `Wire`, `RoundTrip`, `Header`, `Layouts`, `Writer`, `Reader`,
  `Framing`): printers and parsers for every component, their bytes spelled out, the
  measure-then-write buffer, parsing in place, and messages over a byte stream.
- **Generated kernels** (`LoopSums`, `Smg2000`, `Irs`): loop nests and their tiled and
  unrolled forms, proved to leave the same arrays.
- **Ranges and the server's log** (`Ranges`, `ServerLog`).

`Numbers` holds what several of them use.

## Assumptions about the surroundings

Strategy, layers, callbacks and clients are oracles.  A layer's answers come as a
finite tape, and a layer answers ACCEPT once the tape has run out.  New and
regenerated points have ids that are not negative and not live; `strategy_generate`
sets a status on every call and leaves the id at -1 when it asks to wait; a callback
returns an index inside its list.  `strategy_generate` may fail.  A layer or
`strategy_analyze` may fail, which strands the slot; so does a REJECT answered with
WAIT.  `strategy_best` returns 0; where clients come in, it names an analyzed point, or
none yet, and never one with a smaller id than before.  What one call of `send`, `recv`
or `select` does is an arbitrary choice.  A floating-point number on the wire is the
token `%la` prints for it, taken to read back as the same number.

## Where the code and its intention part

- `extend_lists` derives the new tail from the head after setting the head to zero
  (`src/session-core.c:968-969`).  The queue survives exactly if the ring was not
  wrapped or the old head was twice the old tail (`Ring.GrowthHoldsIff`).  Every other
  wrapped ring occurs in a run (`PipelineGrowth.WrapOccurs`), and the next trial then
  meets the overflow error, unless enough trials have been fetched in between
  (`PipelineGrowth.GrowthThenOverflow`), or is stored behind empty cells, where fetches
  alone never come to it (`PipelineGrowth.GrowthThenStarvation`,
  `PipelineGrowth.StaysStarved`); `PipelineGrowth.JoinBreaksARun` is a run for every
  session.  The pipeline's runs therefore grow their lists only while aligned;
  `PipelineInvariant.ExtendKeepsIff` shows that nothing weaker will do.
- A callback that answers WAIT is not taken off its list before it is appended again
  (`src/session-core.c:588-595`): `PipelineInvariant.CallbackWaitBreaks`, and
  `PipelineRuns.WaitBreaksARun` for a run that comes to it.
- `hash_delete` empties a slot without a mark: `HashMapping.DeleteExactIff` says when
  that is removal from the map, `HashMapping.CollisionLost` what happens when it is not.
  A key lost in this way is still sent, and found again by the receiver
  (`HashRuns.LostKeyListed`, `HashMapping.WireRoundTrip`); `HashMapping.WireSameIff` says
  when a configuration arrives as the same one.
- The length field of a header has four digits; longer messages are refused or
  misread (`Header.HeaderReadIff`, `Header.LongHeaderMisread`).
- A null name is printed but not read back (`RoundTrip.SignatureRead`), and a point
  with a negative id loses its values (`RoundTrip.PointArrivesIff`).
- All clients share one `paused_id` (`src/session-core.c:727`, `758`): every BUSY reply
  overwrites it, and every report of a pending trial zeroes it, whoever sends it.  (A
  report of the paused point itself returns before, at `src/session-core.c:747-751`, and
  leaves it.)  With one client no report is rogue (`Protocol.NoRogueReport`); with more,
  `Clients.RogueIff` and `Clients.OvertakenMeans` say when one is, and
  `Clients.RogueOccurs` is a run that comes to it.
- `session_open` does not reset the fetch log: `ServerLog.LoggedAsNewIff` says when a
  session in a used slot is logged right, `ServerLog.OlderPointLogged` what happens when
  it is not.
- `OUT__1__6119__temp_2.c` always runs over ten planes (`Smg2000.UnrolledAgreesIff`).

## Model

| member | source | states |
|---|---|---|
| Ring.OccupiedCells | src/session-core.c:447-456 | In a ring that holds a queue, the cells other than -1 are exactly the cells from the head for the length of the queue, modulo the capacity |
| Ring.PushHolds | src/session-core.c:449-455 | While the ring is not full the cell at the tail is empty, and storing there and advancing the tail modulo the capacity appends to the queue |
| Ring.PopHolds | src/session-core.c:716-718 | The cell at the head holds the front of a non-empty queue, and blanking it and advancing the head removes exactly that element |
| Ring.HeadCell | src/session-core.c:698-706 | The cell at the head is -1 exactly when nothing waits, which is the test a fetch makes |
| Ring.ThreeReversalsRotate | src/session-core.c:964-966 | The three reverse_array calls are a left rotation by the old head, for every array and head |
| Ring.RotationKeepsQueue | src/session-core.c:960-993 | With the tail a rotation calls for (capacity - old head + old tail), growth leaves the abstract queue unchanged |
| Ring.GrowthHoldsIff | src/session-core.c:960-993 | Line 969 as typed, which uses the head after it has been zeroed, leaves a ring that holds any queue at all exactly when the ring was not wrapped or the old head was twice the old tail |
| Ring.GrowthKeepsQueueIff | src/session-core.c:960-993 | Growth with line 969 as typed leaves the queue held before unchanged exactly under that condition |
| Workflow.RunStaysInStack | src/session-core.c:404-463 | A passage ends with curr_layer in -lstack_len..lstack_len+1 and not at a layer, so the invalid-layer error is never taken |
| Workflow.PassageBound | src/session-core.c:404-499 | A passage makes at most (T+1)*lstack_len visits when T of the replies it consumed turn it around (RETURN, RETRY or REJECT), for every finite answer history, and leaves the replies behind those |
| Workflow.VisitKeepsHistory | src/session-core.c:408-434 | One pass of the loop extends a legal history of visits to a legal one |
| Workflow.RunKeepsHistory | src/session-core.c:404-499 | The visits of a whole passage nest: each goes to the next layer, to the same layer the other way round, or to layer 1 after a rejection; a parked trial was visited last at the layer it is parked at |
| Workflow.StrategyReachedByDescent | src/session-core.c:436-446 | A trial that reaches strategy_analyze has just passed analyze of layers k, k-1, ..., 1 once each, k being the layer that turned it round |
| Workflow.QueueReachedByClimb | src/session-core.c:447-456 | A trial that enters the ready queue has just passed generate of consecutive layers up to lstack_len, from layer 1 or from the layer that turned it round |
| Workflow.AcceptedPassage | src/session-core.c:404-499 | When every layer accepts, a passage visits each layer from where it starts to the outermost, or down to the innermost, in order, and changes neither point nor pollstate |
| Workflow.RunPoint | src/session-core.c:482-518 | A passage changes the point of its trial only to one that strategy_rejected supplied in that passage |
| Workflow.RunOpen | src/session-core.c:501-518 | Point generation is closed by a passage exactly when a rejection is answered with WAIT |
| Passages.ClimbAnswer | src/session-core.c:404-518 | What the first answer that need not be ACCEPT makes of a climbing trial, after exactly the visits up to the layer that gives it: ACCEPT sends it on, RETURN and RETRY down through analyze of the same layer, REJECT to layer 1 with the point supplied and nothing else new, or out of the passage with generation closed; WAIT parks it at the first generate hook that answers so; an unknown status, a failing plug-in or a refusal ends it |
| Passages.DescentAnswer | src/session-core.c:404-509 | The same for a descending trial: RETURN and RETRY send it up through generate of the same layer, WAIT parks it at the first analyze hook that answers so, REJECT is an error |
| Passages.TurnedDown | src/session-core.c:479-482 | RETURN or RETRY from layer k of a climbing trial, all else accepted: generate up to layer k, analyze of layers k, k-1, ..., 1, and then the strategy |
| Passages.TurnedUp | src/session-core.c:479-482 | RETURN or RETRY from layer k of a descending trial, all else accepted: analyze down to layer k, generate of layers k, k+1, ..., lstack_len, and then the ready queue |
| Passages.StartedOver | src/session-core.c:484-492 | REJECT from layer k, all else accepted: generate up to layer k, then of all layers from the first, and then the ready queue, with exactly the point the strategy supplied |
| PipelineInvariant.TailIsEmpty | src/session-core.c:447-455 | While some slot is outside the ready queue the cell at the tail is empty, so the ready-queue overflow error cannot be taken |
| PipelineInvariant.RoomMeansFree | src/session-core.c:374-382 | Fewer live slots than slots means that one is free, so the point-generation overflow error cannot be taken |
| PipelineInvariant.FinishKeeps | src/session-core.c:436-463 | However a passage ends, its slot is settled in exactly one place; and it fails only if a plug-in failed or answered outside the protocol |
| PipelineInvariant.WorkflowKeeps | src/session-core.c:404-463 | plugin_workflow keeps the whole-state invariant for every tape of answers |
| PipelineInvariant.GenerateKeeps | src/session-core.c:369-402 | generate_trial keeps the invariant, a strategy_generate that fails included, and finds a free slot whenever pending_len < pending_cap |
| PipelineInvariant.CallbackKeeps | src/session-core.c:555-597 | handle_callback keeps the invariant for every answer but WAIT, including the swap-removal from the wait list |
| PipelineInvariant.CallbackWaitBreaks | src/session-core.c:588-591 | An answer of WAIT always breaks the invariant: the trial is listed twice |
| PipelineInvariant.FetchKeeps | src/session-core.c:696-733 | handle_fetch keeps the invariant and sends the trial that has waited longest; it sends the best point only when nothing waits or the session is paused, and then loses and reorders nothing |
| PipelineInvariant.ReportKeeps | src/session-core.c:735-770 | handle_report keeps the invariant for a report that names a trial handed out or no trial |
| PipelineInvariant.ExtendKeepsIff | src/session-core.c:952-996 | extend_lists keeps the invariant exactly when the ring was not wrapped or its head was twice its tail, and never touches the abstract queue |
| PipelineRuns.StepKeeps | src/session-core.c:218-256 | Every step the main loop may take keeps the invariant |
| PipelineRuns.InitialInv | src/session-core.c:280-367 | The state init_session leaves satisfies the invariant, for every layer stack and number of trials |
| PipelineRuns.RunSafe | src/session-core.c:218-256 | Over every run, in every state reached: each slot is free, ready, on one wait list, handed out or stranded; pending_len counts the slots that are not free; both capacities agree; live ids are distinct; histories are legal |
| PipelineRuns.ListedOnce | src/session-core.c:369-597 | A slot is listed exactly once over the ready queue and all wait lists if it is ready or parked, and nowhere otherwise |
| PipelineRuns.RingCellUnique | src/session-core.c:447-456 | A slot number stands in the ready ring exactly if the slot is ready, and then in one cell |
| PipelineRuns.WaitBreaksARun | src/session-core.c:588-595 | For every session in which some layer has a generate hook there is a run that parks a trial there, after which a callback that answers WAIT breaks the invariant |
| PipelineRuns.NoOverflow | src/session-core.c:369-463 | With pending_len < pending_cap, generate_trial fails exactly if the strategy or a layer fails; neither overflow error can be the reason |
| PipelineRuns.WorkflowFails | src/session-core.c:404-463 | plugin_workflow fails exactly if a plug-in fails or answers outside the protocol |
| PipelineRuns.GenerateReachesQueue | src/session-core.c:369-456 | A generated point that every layer accepts is queued last, after generate of layers 1..lstack_len; nothing else moves |
| PipelineRuns.ReportReachesStrategy | src/session-core.c:735-770 | A report that every layer accepts reaches strategy_analyze with its point and performance after analyze of all layers; the slot is free, paused_id zero and generation open again |
| Outcomes.GenerateByAnswer | src/session-core.c:369-518 | generate_trial, by the first answer that is not ACCEPT: the point goes into the first free slot; RETURN or RETRY has it analyzed without ever being handed out, its slot free again; REJECT queues the other point last, or leaves the trial aside with generation closed; WAIT appends it to that layer's list; anything else fails. Nothing else moves |
| Outcomes.ReportByAnswer | src/session-core.c:735-770 | handle_report, by the first answer that is not ACCEPT: RETURN or RETRY queues the trial last again, which the strategy has not seen; WAIT appends it to that layer's analyze list; anything else is answered with an error. paused_id is zero in each case |
| Outcomes.ReportAnswers | src/session-core.c:735-770 | A report of a trial handed out is accepted exactly if no plug-in fails or answers outside the protocol on its way |
| Outcomes.CallbackByAnswer | src/session-core.c:555-597 | handle_callback, by its answer: the trial leaves its list and goes on behind the layer, turns round at it, or starts over at layer 1 with the point supplied; after any other answer but WAIT it stays where it is |
| Outcomes.NoPointGiven | src/session-core.c:384-396 | A strategy that asks to wait closes generation, one that fails does not, and neither changes a trial |
| Outcomes.StepOpens | src/session-core.c:436-446 | Every step that gives the strategy a trial leaves generation open, and no other step opens it |
| Outcomes.ClosedUntilAnalysis | src/session-core.c:255-256 | Over every run: once generation is closed, by the strategy or by a rejection answered with WAIT, no point is asked for until the strategy has been given a trial |
| PipelineRuns.FetchedInOrder | src/session-core.c:696-733 | Over every run the points fetched are a prefix of the points that finished generation, and the rest waits in that order |
| PipelineRuns.AnalyzedByDescent | src/session-core.c:436-446 | Every trial the strategy was given in a run had come down through consecutive analyze layers, once each |
| PipelineRuns.ReadyByClimb | src/session-core.c:447-456 | Every trial ready or handed out in a run had climbed consecutive generate layers to the top |
| PipelineGrowth.WrapOccurs | src/session-core.c:952-996 | For every layer stack, session size and 0 <= tail <= head < capacity, some run from init_session comes to a wrapped ring with this head and tail |
| PipelineGrowth.GrownFront | src/session-core.c:960-993 | Growth of a wrapped ring leaves the queue in the first cells, all others empty, the head at 0 and the tail at capacity - old tail |
| PipelineGrowth.DrainsFront | src/session-core.c:704-720 | Fetches of a session that is not paused send the trials of the first cells in order and move the head by one each |
| PipelineGrowth.GrowthThenOverflow | src/session-core.c:964-970 | With the head below twice the tail, the next trial that finishes generation after the growth meets the overflow error exactly if no more than (capacity - old tail) trials have been fetched in between |
| PipelineGrowth.GrowthThenStarvation | src/session-core.c:964-970 | With the head above twice the tail that trial is stored behind an empty cell; after as many fetches as trials waited in front of it the head stands on the empty cell, and a fetch is answered BUSY though the trial is ready |
| PipelineGrowth.StaysStarved | src/session-core.c:696-732 | It stays so however many fetches follow |
| PipelineGrowth.GrowthBreaks | src/session-core.c:952-996 | After the growth of any wrapped ring that is not aligned, in any state that satisfies the invariant, the next generate_trial overflows or queues a trial that is starved |
| PipelineGrowth.GrowthBreaksARun | src/session-core.c:952-996 | For every layer stack, session size and wrapped head/tail pair with head != 2*tail there is a run that comes to it, after which growth to any larger target breaks the invariant and the next generate_trial overflows or is starved |
| PipelineGrowth.JoinBreaksARun | src/session-core.c:599-616 | The same with the target of a join, for every number of clients expected and of trials per client: as many clients join as there is room for, which changes nothing, the ring comes to be wrapped, and one more client joins |
| SessionCore.ReverseArray | src/session-core.c:998-1009 | Reverses exactly the cells head..tail-1 in place |
| SessionCore.Layer.Append | src/session-core.c:520-553 | Appends to the wait list, growing it when full; the error for an occupied cell is never taken |
| SessionCore.Layer.Remove | src/session-core.c:593-596 | Removes exactly the k-th entry of one wait list by moving the last entry into its place |
| SessionCore.Session.constructor | src/session-core.c:280-367 | The variables after init_session mean the initial state of the model |
| SessionCore.Session.HandleWait | src/session-core.c:520-553 | Parks the trial on the list of the current layer and direction |
| SessionCore.Session.HandleReject | src/session-core.c:501-518 | Fails when descending, replaces the point, or closes generation, with the return code of each |
| SessionCore.Session.WorkflowTransition | src/session-core.c:466-499 | Return codes and state changes of every status, REJECT answered with WAIT included |
| SessionCore.Session.Pass | src/session-core.c:406-434 | One pass of the loop: calls the hook if the layer has one and makes the transition its verdict calls for |
| SessionCore.Session.RunLayers | src/session-core.c:404-434 | The loop over shared state computes the passage of the model and terminates on every tape |
| SessionCore.Session.LandTrial | src/session-core.c:436-462 | The part behind the loop: hands the trial to the strategy and frees its slot, or stores it at the tail of the ring |
| SessionCore.Session.PluginWorkflow | src/session-core.c:404-463 | The method over the real variables refines the model step, result code included, and keeps the invariant |
| SessionCore.Session.Search | src/session-core.c:373-379 | The index of the first slot whose point has the id, or the capacity |
| SessionCore.Session.GenerateTrial | src/session-core.c:369-402 | Refines the model step; with room it never fails while the strategy asks to wait |
| SessionCore.Session.AnswerCallback | src/session-core.c:578-591 | The plug-in answers for the k-th trial on its own list, and the transition is made with curr_layer at that layer |
| SessionCore.Session.HandleCallback | src/session-core.c:555-597 | Refines the model step; the invariant survives exactly if the answer is not WAIT, or the list was empty |
| SessionCore.Session.HandleFetch | src/session-core.c:696-733 | Refines the model step and answers with the head of the queue, or BUSY and the best point |
| SessionCore.Session.HandleReport | src/session-core.c:735-770 | Refines the model step: accepted, rogue or failed |
| SessionCore.Session.TurnRing | src/session-core.c:960-970 | The three reversals over the real array, and head and tail as line 968-969 set them |
| SessionCore.Session.ExtendTo | src/session-core.c:952-996 | Refines the model step; the invariant survives exactly if the growth is aligned |
| SessionCore.Session.HandleJoin | src/session-core.c:599-616 | One more client exactly when the signature matches, and lists grown for it; the invariant survives exactly if that growth is aligned |
| Protocol.Client.UpdateBest | src/hclient.c:780-791 | The best point is the old one or the one offered, its id is the larger of the two and never falls, and of equal ids the old point stays |
| Protocol.BestIsLargest | src/hclient.c:548-604 | Over every run the client holds, of all best points it has been offered, the first with the largest id |
| Protocol.Client.Fetch | src/hclient.c:548-604 | Composed with the session: new client state for every reply; the result is 1 exactly if a trial was handed out or a best point is known and the values could be set, 0 exactly if neither, -1 when not connected or the values could not be set |
| Protocol.FetchTells | src/hclient.c:548-604 | 1: the trial that has waited longest, or else the best point known, is under test; 0: nothing is under test that was not before; -1: the state is as before; and the best point is the larger of the one known and the one offered, the old one if equal |
| Protocol.Client.Report | src/hclient.c:606-650 | Composed with the session: sends only when testing and complete, and returns to READY exactly when accepted; the result is 0 exactly if there is nothing to report or the report was accepted, and -1 otherwise |
| Protocol.ReportNotRogue | src/session-core.c:746-757 | In every state satisfying the system invariant a report that is sent names a trial handed out or the current paused_id |
| Protocol.MoveKeeps | src/hclient.c:548-650 | Fetches, reports, best requests and every step of the session keep the system invariant |
| Protocol.SystemRunSafe | src/hclient.c:548-650 | Over every run of one client and one session, with ids never reused and the best point one that was analyzed and never falling back |
| Protocol.NoRogueReport | src/session-core.c:746-757 | Over every such run the rogue-point error is unreachable |
| Clients.ActKeeps | src/hclient.c:548-650 | Every fetch, report and best request of any one of any number of clients, and every step of the session, keeps the invariant of the whole group |
| Clients.GroupRunSafe | src/hclient.c:548-650 | Over every run of any number of clients: a client that tests a point tests one that is handed out or an analyzed one the strategy has named best, and two clients test the same point only if it is analyzed |
| Clients.PausedSince | src/session-core.c:727-758 | paused_id is the id sent with a BUSY reply until another BUSY reply or a report of a pending trial writes another value |
| Clients.SentLast | src/hclient.c:564-590 | A point under test that is not of a trial handed out came with the client's last fetch, as the best point of a BUSY reply |
| Clients.RogueIff | src/session-core.c:746-758 | Over every run of any number of clients: a report of a trial handed out is never rogue; a report of the best point is rogue exactly if, since that client's last fetch, the last write of paused_id was by a BUSY reply with another id or by a report of a pending trial |
| Clients.OvertakenMeans | src/session-core.c:727-758 | For a best point with an id other than 0 that is: another best point has been named since, or a pending trial has been reported and no BUSY reply sent after that |
| Clients.RogueOccurs | src/session-core.c:735-770 | For every layer stack and session size some run of two clients from a new session ends in a report that is answered as rogue |
| HashTable.ProbeStops | src/hcfg.c:470-485 | Probing goes past taken slots with other keys and stops at the first one that is free or has the key |
| HashTable.FindSucceeds | src/hcfg.c:470-485 | One free slot anywhere is enough for every probe to end at a slot |
| HashTable.SameKeyIff | src/hcfg.c:470-485 | Two keys are the same exactly if they have the same length and differ at most in the case of letters A to Z |
| HashTable.FindsKey | src/hcfg.c:470-485 | An entry with no gap in front of it is found |
| HashTable.LookupIffStored | src/hcfg.c:123-131 | Without gaps and duplicates a lookup gives a value exactly if it is the one stored with the key, in any case of its letters |
| HashMapping.InsertMeans | src/hcfg.c:523-563 | On a sound table with load at most 50 insertion succeeds, keeps both, counts new keys only, and changes exactly the lookups of that key |
| HashMapping.CaseIgnored | src/hcfg.c:123-131 | A value set under a key is found under every key that differs from it in the case of letters only, and for all other keys nothing changes |
| HashMapping.ResizeKeeps | src/hcfg.c:487-521 | Resizing a sound table changes no binding |
| HashMapping.ResizeRepairs | src/hcfg.c:487-521 | On any table a rehash to another size with room makes exactly the stored keys findable again |
| HashMapping.DeleteOther | src/hcfg.c:565-581 | After a deletion an entry in another slot is found exactly if its probe path does not cross the emptied slot |
| HashMapping.DeleteExactIff | src/hcfg.c:565-581 | hash_delete is removal from the map exactly if no other probe path crosses the emptied slot |
| HashMapping.NextFreeNoCrossing | src/hcfg.c:565-581 | It is exact whenever the next slot is empty |
| HashMapping.CollisionLost | src/hcfg.c:565-581 | Of two keys starting at the same slot, deleting the first makes the second unfindable although it is still stored |
| HashMapping.CollidingKeys | src/hcfg.c:451-459 | Such keys exist: "a" and "n" have the same FNV-1a slot in a new table |
| HashMapping.SameKeyLookup | src/hcfg.c:470-485 | Keys that differ only in case are looked up alike, in every table |
| HashMapping.MergeMeans | src/hcfg.c:234-251 | Merging keeps every binding of the destination and adds those of the source, any table, for absent keys only |
| HashMapping.FirstIsLookup | src/hcfg.c:123-131 | In a sound table the first entry with a key is the one a lookup gives |
| HashMapping.SetAllStores | src/hcfg.c:398-410 | Setting any list of pairs, no longer than the announced size allows, never grows the table; each key gets the last value listed with it, and each pair counts exactly if all keys are new and distinct |
| HashMapping.WireRoundTrip | src/hcfg.c:358-416 | Any table whose count is right and whose load is at most 50, listed and set into a new one, comes back sound and of the same logsize: every stored key is found, with the value of the last slot that has it |
| HashMapping.WireSameIff | src/hcfg.c:358-416 | It comes back with the same lookups and count exactly if no probe run had a gap and no key was stored twice |
| HashRuns.ExactDelete | src/hcfg.c:565-581 | A deletion that no other probe path crosses, or of an absent key, keeps the table sound and the load bounded, and changes exactly the lookups of that key |
| HashRuns.StepRefines | src/hcfg.c:234-251 | Insert, replace, exact deletion, growth and merge do to the table what they do to a map with lower-case keys |
| HashRuns.RunRefines | src/hcfg.c:57-74 | Over every run of them from a new table it stands for that map, sound and with load at most 50 |
| HashRuns.RunStaysLoose | src/hcfg.c:565-581 | Over every run with any deletions whatever the count is the number of entries, the load stays at most 50, every probe ends and every insertion succeeds |
| HashRuns.SetThenUnset | src/session-core.c:233-248 | Setting a key that is not found and unsetting it again, as is done around every message, leaves any such table exactly as it was, unless setting the key made it grow |
| HashRuns.SetThenUnsetIff | src/session-core.c:233-248 | In a sound table, growth or not, it changes no lookup exactly if no other probe path crosses the slot the key was in |
| HashRuns.LostKeyListed | src/hcfg.c:358-383 | Of two keys that start at the same slot of a new table, set one after the other, the second is not found after the first is deleted, but is still listed when the table is sent |
| Hcfg.Config.HashFunction | src/hcfg.c:451-459 | The loop computes the FNV-1a slot of the lower-cased key |
| Hcfg.Config.HashFind | src/hcfg.c:470-485 | The probing loop finds what the model of probing finds, and ends |
| Hcfg.Config.FreeSlot | src/hcfg.c:506-508 | The inner loop of hash_resize ends at the first free slot whenever there is one |
| Hcfg.Config.MoveEntries | src/hcfg.c:503-513 | The outer loop moves every entry into the new array |
| Hcfg.Config.HashResize | src/hcfg.c:487-521 | Refines the resize the mapping lemmas are about |
| Hcfg.Config.HashInsert | src/hcfg.c:523-563 | Refines the insertion, growth included |
| Hcfg.Config.HashDelete | src/hcfg.c:565-581 | Refines the deletion, which leaves no mark in the slot |
| Hcfg.Config.Get | src/hcfg.c:123-131 | The value a lookup gives |
| Hcfg.Config.Set | src/hcfg.c:133-138 | Insertion, or deletion for a null value |
| Hcfg.Config.Copy | src/hcfg.c:76-114 | The copy has the same slots, count and size |
| Hcfg.Config.MergeFrom | src/hcfg.c:234-251 | Refines the merge |
| Hcfg.Config.Clear | src/hcfg.c:583-598 | No entries, the same size |
| Text.IntRoundTrip | src/hpoint.c:164-201 | A printed number followed by no digit reads back, and reading stops right behind it |
| Text.NumberForms | src/hpoint.c:196-201 | A number reads as its value with blanks, tabs or line ends in front and a sign of either kind, and reading stops right behind its digits |
| Text.StrRoundTrip | src/hutil.c:176-206 | Every string reads back, null distinct from empty, quotes and blanks included; only the blank behind it is left |
| Text.ManyRoundTrip | src/hpoint.c:176-218 | Lists of values that each read back, or are each refused, read back exactly if none is refused |
| RoundTrip.ValRead | src/hval.c:94-181 | A value of every type reads back |
| RoundTrip.PointRead | src/hpoint.c:164-227 | A point reads back; one with a negative id arrives without values |
| RoundTrip.PointArrivesIff | src/hpoint.c:172-180 | A point arrives unchanged exactly if its id is not negative or it has no values |
| RoundTrip.PerfRead | src/hperf.c:98-148 | A performance vector reads back |
| RoundTrip.RangeRead | src/hsignature.c:253-402 | A range of every type reads back exactly if its name and its members are not null; otherwise the reader refuses it |
| RoundTrip.SignatureRead | src/hsignature.c:607-679 | A signature reads back exactly if all its names are strings; otherwise the reader refuses it |
| RoundTrip.CfgRead | src/hcfg.c:358-416 | Any configuration with a right count and load at most 50 reads back, whatever follows it: all its stored keys are found in what arrives, and it is the same configuration exactly if no probe run had a gap and no key was stored twice |
| RoundTrip.RunArrives | src/hcfg.c:358-416 | So reads back every configuration that a run of operations leaves, any deletions among them |
| RoundTrip.RebuiltMeans | src/hcfg.c:385-416 | What arrives of such a configuration is sound, of the same logsize, and binds each key to the value of the last slot that has it; bindings and count are those sent exactly under that condition |
| RoundTrip.SessionRead | src/hsession.c:66-113 | A session reads back: its signature, and its configuration as RoundTrip.RebuiltMeans says |
| RoundTrip.DataRead | src/hmesg.c:121-174 | The data of every type/status pair reads back behind the source id |
| RoundTrip.BodyRead | src/hmesg.c:207-323 | Destination, type, status, source id and data of every message read back behind the header, unless a name is null |
| RoundTrip.ArrivedIsSame | src/hmesg.c:207-323 | What arrives equals what was sent up to the values of a point with negative id and what RoundTrip.RebuiltMeans says of a configuration |
| Header.HeaderReadIff | src/hmesg.c:193-222 | The header tells the length of the message exactly if the message has at most 9999 bytes |
| Header.LongHeaderMisread | src/hmesg.c:195-197 | The header of a message of 100005 bytes is accepted and announces 1000 |
| Header.MagicNeeded | src/hmesg.c:213-215 | A header without the magic word is refused |
| Header.VersionDecides | src/hmesg.c:217-222 | With the magic word and four digits the length is read exactly if the version reads as 5; every other version is refused |
| Header.DigitsIff | src/hmesg.c:195-195 | A number prints with at most k digits exactly if it is below ten to the k |
| Header.MesgRoundTrip | src/hmesg.c:77-323 | Every well-formed message of at most 9999 bytes survives serialize and deserialize, or is refused exactly if it has a null name |
| Header.CarriedArrives | src/hmesg.c:121-184 | For every type and status, what a message carries, and that it arrives with it: a string with ERR, a session with SES/REQ, a signature with JOI, a string with QRY and INF, a point with BST and FET in ACK and in BSY, a candidate and its performance with REP/REQ |
| Header.NothingElseIsSent | src/hmesg.c:121-184 | No other data goes with a type and status, and no other type and status is written |
| Header.BusyReply | src/hmesg.c:152-160 | The 37 bytes of a BUSY reply with the best point, which read back with the point |
| Layouts.FrontText | src/hmesg.c:96-125 | The three letters of every type and status, and where they stand |
| Layouts.ValTexts | src/hval.c:94-138 | The bytes of a value of each type |
| Layouts.PointTexts | src/hpoint.c:164-189 | The bytes of a point, and of one that is no candidate |
| Layouts.PerfText | src/hperf.c:98-117 | The bytes of a performance |
| Layouts.IntRangeText | src/hsignature.c:253-286 | The bytes of an integer range |
| Layouts.RealRangeText | src/hsignature.c:253-295 | The bytes of a real range |
| Layouts.EnumRangeText | src/hsignature.c:253-317 | The bytes of an enumerated range |
| Layouts.SessionText | src/hsession.c:66-88 | The bytes of a session with an empty signature and a new configuration |
| Writer.Cursor.Format | src/hutil.c:155-162 | Writes as much as leaves a byte for the terminator, changes nothing in front, and returns the whole length |
| Writer.Cursor.Emit | src/hutil.c:155-174 | Advances only while there is room; all text so far is in the buffer except for the last byte of the room, and lengths are added in any case |
| Writer.Cursor.EmitStr | src/hutil.c:176-180 | Appends the printed string |
| Writer.Cursor.EmitVal | src/hval.c:94-138 | Appends the printed value, or fails exactly for an unknown type |
| Writer.Cursor.EmitPoint | src/hpoint.c:164-189 | Appends the printed point, values only for an id that is not negative, or fails exactly for an unknown value type |
| Writer.Cursor.EmitPerf | src/hperf.c:98-117 | Appends the printed vector |
| Writer.Cursor.EmitRange | src/hsignature.c:253-317 | Appends the printed range, or fails exactly for an unknown type |
| Writer.Cursor.EmitSignature | src/hsignature.c:607-634 | Appends the printed signature, or fails exactly if a range has an unknown type |
| Writer.Cursor.EmitCfg | src/hcfg.c:358-383 | Appends the entries in slot order |
| Writer.Cursor.EmitSession | src/hsession.c:66-88 | Appends signature and configuration |
| Writer.Cursor.EmitBody | src/hmesg.c:96-182 | Appends everything behind the header, or fails exactly if type, status or a value type is unknown |
| Writer.Buffer.LayOut | src/hmesg.c:84-184 | One pass: the total does not depend on the buffer, and the text is complete whenever the total is below buflen |
| Writer.Buffer.Serialize | src/hmesg.c:77-205 | Lays out once if the message fits and twice if not, never more; the bytes left are exactly header and body |
| Writer.Buffer.CopyHeader | src/hmesg.c:195-197 | Writes the ten header bytes and nothing else of the message |
| Reader.IntSuffix | src/hutil.c:187-189 | What is left behind a number is the end of what was there, so the count returned is the place where the next component starts |
| Reader.FrontSuffix | src/hmesg.c:225-229 | What is left behind destination, type and status is the end of what was there |
| Reader.Reader.ReadStr | src/hutil.c:182-206 | Reads in place: the pointer handed out is to exactly the string, terminated where the quote was, and nothing in front of the position changes |
| Reader.Reader.ReadVal | src/hval.c:140-181 | Agrees with the pure reader on every text, and moves to where its rest begins |
| Reader.Reader.ReadPoint | src/hpoint.c:191-227 | Agrees with the pure reader on every text, the loop over the values included |
| Reader.Reader.ReadPerf | src/hperf.c:119-148 | Agrees with the pure reader on every text, the loop over the values included |
| Reader.Reader.ReadRange | src/hsignature.c:319-402 | Agrees with the pure reader on every text; a null name or member is refused |
| Reader.Reader.ReadSignature | src/hsignature.c:636-679 | Agrees with the pure reader on every text, the loop over the ranges included |
| Reader.Reader.ReadEntries | src/hcfg.c:398-410 | Setting each pair as it is read gives what setting all of them afterwards gives |
| Reader.Reader.ReadCfg | src/hcfg.c:385-416 | Agrees with the pure reader, into a configuration just allocated |
| Reader.Reader.ReadSession | src/hsession.c:90-113 | Agrees with the pure reader |
| Reader.Reader.ReadBody | src/hmesg.c:225-316 | Agrees with the pure reader on every text |
| Reader.DeserializeInPlace | src/hmesg.c:207-323 | Reading in place gives the message the pure reader gives; when it is done every pointer handed out is still to its terminated string, and the strings of the message are among them |
| Framing.FirstOfStream | src/hsockutil.c:190-226 | The header of the first message on a stream gives its length, and its bytes give it back |
| Framing.StepKeeps | src/hsockutil.c:89-130 | Every piecewise write, header peek and piecewise read keeps what is delivered plus what is in transit equal to what was sent, in order |
| Framing.DeliveredInOrder | src/hsockutil.c:89-235 | Over every run, however sending, writing and reading are cut up and interleaved, messages come out complete, in order and unchanged |
| Framing.NothingLeftOver | src/hsockutil.c:89-235 | Once nothing is in transit all of them have come out |
| Framing.SomebodyCanGoOn | src/hsockutil.c:89-235 | Until then the writer or the reader can go on |
| Framing.Socket.Write | src/hsockutil.c:89-109 | Without failures every byte is written, however the calls are interrupted and split; with failures a prefix; and the calls of send are pushes of the run model |
| Framing.Socket.Read | src/hsockutil.c:111-130 | Without failures the bytes asked for, or all there are, are taken from the front of the stream; with failures a part of them; and the calls of recv are pulls of the run model |
| Framing.Socket.SendMesg | src/hsockutil.c:170-185 | Appends exactly the bytes of the message, or a prefix if a call of send fails; it is the run model's Send step and its pushes |
| Framing.Socket.ReceiveMesg | src/hsockutil.c:190-235 | Takes exactly the announced bytes from the stream and parses them; a stream cut short is an error, a bad header takes nothing; it is the run model's Peek step and its pulls |
| Framing.Socket.Exchange | src/hsockutil.c:170-235 | A message sent at one end and received at the other through the real buffers arrives as the round trip says, whatever the splitting of the calls |
| LoopSums.CutBox | code-server/smg2000/OUT__1__6119__modified.c:158-191 | Cutting a four-dimensional iteration box along any loop changes no sum over it, so tiles may run in any order |
| LoopSums.CountedOnce | code-server/smg2000/OUT__1__6119__.c:186-190 | Every (si, kk, jj, ii) of a box is counted exactly once in its sum, and no other point is |
| LoopSums.SameSumsIff | code-server/smg2000/OUT__1__6119__temp_2.c:188-533 | Boxes with different numbers of planes have the same sums for all weights exactly if they are both empty |
| LoopSums.BoxAtLeast | code-server/smg2000/OUT__1__6119__.c:186-190 | With no negative term the sum over a box is at least any one of its terms |
| LoopSums.MorePlanes | code-server/smg2000/OUT__1__6119__temp_2.c:188-194 | A positive term in a plane that only the larger box has makes the sums differ |
| LoopSums.OneTerm | code-server/smg2000/OUT__1__6119__.c:186-190 | If a single point of the box has a term other than zero, the sum is that term |
| Smg2000.Statement | code-server/smg2000/OUT__1__6119__.c:190-190 | One execution takes one term from one cell |
| Smg2000.Original | code-server/smg2000/OUT__1__6119__.c:186-190 | The original nest takes from every cell of rp the sum of its terms over the whole box, for all extents, strides and stencil sizes |
| Smg2000.Tiled | code-server/smg2000/OUT__1__6119__modified.c:158-191 | The nest tiled by 12 and unrolled by 2 takes the same from every cell |
| Smg2000.TiledRow | code-server/smg2000/OUT__1__6119__modified.c:168-186 | Pairs of stencil entries and the odd one left over cover all entries once |
| Smg2000.Block | code-server/smg2000/OUT__1__6119__temp_2.c:204-491 | The 144 statements take every one of 12 entries at 12 columns once |
| Smg2000.TwelveOverTile | code-server/smg2000/OUT__1__6119__temp_2.c:201-521 | Whole blocks and the columns left over at the end of the row cover a tile once |
| Smg2000.UnrolledRow | code-server/smg2000/OUT__1__6119__temp_2.c:198-530 | Twelve entries at a time and the entries left over cover all entries once |
| Smg2000.Unrolled | code-server/smg2000/OUT__1__6119__temp_2.c:188-533 | The nest tiled by 48 and unrolled 12 by 12 takes from every cell the sum over ten planes, whatever hypre__mz is |
| Smg2000.TakenDetermines | code-server/smg2000/OUT__1__6119__.c:186-190 | The contract determines the array, so nests with the same contract leave the same rp |
| Smg2000.TakenOnce | code-server/smg2000/OUT__1__6119__.c:190-190 | Which cells an iteration reads and writes, by ri, the strides and the offsets: with ap one at the place that iteration alone reads and zero elsewhere, exactly its cell of rp changes, by the value of xp it reads |
| Smg2000.UnrolledAgreesIff | code-server/smg2000/OUT__1__6119__temp_2.c:188-194 | For given extents and strides the two nests leave the same rp on all ap, xp and rp exactly if hypre__mz is 10 or both have nothing to do |
| Smg2000.OnesDiffer | code-server/smg2000/OUT__1__6119__temp_2.c:188-194 | Otherwise they leave different arrays on inputs of ones |
| Smg2000.UnrolledOfTen | code-server/smg2000/OUT__1__6119__temp_2.c:188-533 | With hypre__mz equal to 10 the two nests leave the same rp |
| Irs.Original | code-server/irs/rmatmult3_at.c:77-94 | Every cell ii+jj*jp+kk*kp of the box gets its 27-point value and every other cell is untouched, for all bounds and strides |
| Irs.Tiled | code-server/irs/rmatmult3_at_modified.c:155-174 | The nest tiled 54 by 71 by 15 with its loops reordered does the same |
| Irs.WrittenAt | code-server/irs/rmatmult3_at.c:77-94 | The cell ii+jj*jp+kk*kp of every iteration holds its 27-point value |
| Irs.NotWritten | code-server/irs/rmatmult3_at.c:77-94 | A cell of no iteration is untouched |
| Irs.StencilOfUnit | code-server/irs/rmatmult3_at.c:45-71 | Of a vector that is one at a single neighbour, by plane, row and column, the value of a cell is the coefficient for that neighbour |
| Irs.WrittenBoth | code-server/irs/rmatmult3_at_modified.c:155-174 | Running one part of a box and then the rest writes the whole, whichever way it is cut |
| Irs.WrittenDetermines | code-server/irs/rmatmult3_at.c:77-94 | The contract determines the array, so both nests leave the same b |
| Ranges.IntNearestIsNearest | src/hsignature.c:53-85 | nearest is in bounds and in the range, no value of the range is closer, and of two equally close ones it is the larger |
| Ranges.IntIndexOfValue | src/hsignature.c:53-80 | index undoes value on 0..max_idx, larger numbers being clamped |
| Ranges.IntBoundIff | src/hsignature.c:48-51 | A value on the grid is at most max exactly if its number is at most max_idx |
| Ranges.RealNearestIsNearest | src/hsignature.c:123-135 | For real ranges with a step: in the range, nothing of the range closer, ties up; without a step, nothing between the bounds closer |
| Ranges.RealIndexOfValue | src/hsignature.c:94-121 | index undoes value for real ranges |
| Ranges.StrIndex | src/hsignature.c:142-154 | The first member equal to the value, or the first member if none is |
| Ranges.AlignedInRange | src/hpoint.c:90-131 | Every aligned coordinate is a value of its range |
| Ranges.AlignedFixedIff | src/hpoint.c:90-131 | A coordinate is left alone exactly if it is in its range |
| Ranges.AlignedIdempotent | src/hpoint.c:90-131 | Aligning twice is aligning once |
| Ranges.Align | src/hpoint.c:90-131 | In place: 0 with all coordinates aligned, or -1 with exactly those in front of the first type mismatch aligned |
| ServerLog.RemovedHolds | src/hserver.c:544-552 | Swap-removal takes out exactly that point |
| ServerLog.FetchKeeps | src/hserver.c:623-642 | Logging a fetch adds exactly that point to what is outstanding |
| ServerLog.ReportKeeps | src/hserver.c:519-562 | A report removes exactly the outstanding point it names, if there is one |
| ServerLog.BestUpdated | src/hserver.c:535-542 | A report that answers a point makes it the best exactly if its cost is a number below the lowest so far |
| ServerLog.BestIsNotOut | src/hserver.c:536-536 | A point that is out is never the best one, so the id test there never holds an update back |
| ServerLog.ServerView | src/hserver.c:519-647 | Over every run with each id fetched once: the fetched list is exactly what was fetched and not reported since, the log has one entry a report, best_perf is a number no larger than any an answered report brought, infinite exactly if none brought one, and best is the point of the first report that reached it |
| ServerLog.LoggedPoint | src/hserver.c:519-562 | A report is logged with the point it answers, or with the best point if it answers none |
| ServerLog.NoIdNoValues | src/hpoint.c:54-63 | Over any run the server keeps no values of a point without an id |
| ServerLog.OldPointsStay | src/hserver.c:519-562 | A session opened in a used slot is logged as in a new one, its fetch log being the leftover followed by its own, as long as no report names a leftover id |
| ServerLog.OlderPointLogged | src/hserver.c:704-762 | A report that names a leftover id is logged with the older point, and the point just fetched stays in the fetch log |
| ServerLog.LoggedAsNewIff | src/hserver.c:519-562 | However many sessions had the slot before, and for every set of ids a session may report: all its runs are logged as in a new slot exactly if none of these ids was left behind |
| ServerLog.AnySessionLoggedIff | src/hserver.c:704-762 | A session that may report any id is logged right in every run exactly if the sessions before it left nothing in the fetch log |
| ServerLog.LeftByOne | src/hserver.c:704-762 | After one session in a new slot that is what it still awaited |
| ServerLog.SessionState.LogFetch | src/hserver.c:623-642 | Refines the fetch step, growth of the list included |
| ServerLog.SessionState.Append | src/hserver.c:835-859 | Appends exactly one entry |
| ServerLog.SessionState.LogReport | src/hserver.c:519-562 | Refines the report step |
| ServerLog.SessionState.LogAcknowledgement | src/hserver.c:645-648 | Refines the step that counts a report taken by the session |

## Left out

- PipelineRuns.RunSafe: runs in which lists grow while unaligned, callbacks answer WAIT, strategy_best fails, or a report names a trial that is not handed out are not among its runs; for the first two PipelineGrowth.JoinBreaksARun and PipelineRuns.WaitBreaksARun show that the invariant fails.
- PipelineRuns.StepKeeps: the same steps are left out.
- PipelineInvariant.FetchKeeps: strategy_best does not fail.
- SessionCore.Session.HandleFetch: the same.
- PipelineInvariant.ReportKeeps: a report that names a trial still ready or parked, or a free slot by the id -1, is excluded.
- PipelineInvariant.CallbackKeeps: an index outside the wait list, which a callback may return in C, is not modelled.
- SessionCore.Session.HandleReport: the same reports are excluded.
- SessionCore.Session.constructor: init_session's parsing of the configuration and its errors in loading strategy and layers are not modelled.
- SessionCore.ReverseArray: exchanges whole elements; the program treats the array as unsigned longs, which is the same only where those are as wide as the elements.
- SessionCore.Session.HandleJoin: the join hooks of strategy and layers and the copying of the signature are not modelled.
- Protocol.SystemRunSafe: harmony_converged, which changes the client's state from outside the fetch/report cycle, is not among the moves.
- Clients.GroupRunSafe: nor among the acts; and the clients are there from the start, a later joiner being one that has not fetched yet.
- Hcfg.Config.HashResize: asks for room in the new array; the program would probe forever without it. The 32-bit width of count * 100 and shifts by 32 and more are not modelled.
- Hcfg.Config.HashInsert: allocation always succeeds.
- HashRuns.RunRefines: its deletions are exact or of absent keys; HashRuns.RunStaysLoose is about runs with any deletions, in which the table need not stand for a map.
- Text.StrRoundTrip: lengths that do not fit an unsigned int are not modelled; nor are numbers too wide for int or long in a received message.
- RoundTrip.ValRead: the hexadecimal text of a double is an opaque token without blanks.
- RoundTrip.PerfRead: so are performances.
- Reader.Reader.ReadBody: where a literal of a scanf format is missing and the program goes on with an unset count, where a count is negative, where a key is null, or where the text ends inside a null string, the reader refuses the message.
- Framing.DeliveredInOrder: a header is looked at only when all of it has arrived; null names and messages over 9999 bytes are excluded, as they do not arrive.
- Framing.Socket.ReceiveMesg: an announced length that is zero or negative reads nothing.
- Smg2000.Tiled: exact real arithmetic; rp overlaps neither input.
- Irs.Tiled: exact real arithmetic; b overlaps no input.
- Ranges.IntNearestIsNearest: exact arithmetic, a step above zero and min <= max; overflow of long and rounding of double are not modelled.
- ServerLog.ServerView: each id is fetched once and no restart happens; not-a-number performances are not modelled.
- Sockets, fork, exec, select, dlopen, file polling: arbitrary choices of steps or byte streams.
- Plug-in strategies and layers, their init, fini, getcfg and setcfg hooks, and session_restart.
- Allocation failure, freeing, memlevel, and the element sizes passed to array_grow.
- hcfg_parse, line_count, hcfg_load and hcfg_write: values are not escaped on write, so there is no general round trip.
- hperf_cmp and hperf_unify, hsignature_equal and hsignature_match, hval_parse and hpoint_parse.
- httpsvr.c, hinfo.c, tuna.c, the examples, the code generator, and WIP.
- OUT__1__6119___modified.c is not modelled.
