/** The tuning-session pipeline as a state machine over its slots: the pending
    array, the ready ring, the wait lists, and what every step does to them. */
module Pipeline {
  import opened Ring
  import opened Workflow

  /** Where a slot of the pending array is. */
  datatype Place =
    | Free
    | InFlight              // inside the step being executed
    | Ready
    | WaitGen(layer: nat)
    | WaitAna(layer: nat)
    | HandedOut
    | Stranded              // live, but in no list

  /** A call of strategy_analyze: the trial and the visits that led to it. */
  datatype Analysis = Analysis(trial: Trial, hist: seq<int>)

  /** `trials`, `pendingLen`, `ready`, `head`, `tail`, `waitGen`, `waitAna`,
      `open` (pollstate), `pausedId` and `layer` (curr_layer) are the program's
      variables.  `queue`, `place` and `hist` say what they mean, and `enqueued`,
      `fetched` and `analyzed` record what has happened so far. */
  datatype State = State(
    hooks: seq<Hooks>,
    trials: seq<Trial>,
    pendingLen: int,
    ready: seq<int>,
    head: nat,
    tail: nat,
    waitGen: seq<seq<nat>>,
    waitAna: seq<seq<nat>>,
    open: bool,
    pausedId: int,
    layer: int,
    queue: seq<nat>,
    place: seq<Place>,
    hist: seq<seq<int>>,
    enqueued: seq<Point>,
    fetched: seq<Point>,
    analyzed: seq<Analysis>)

  // ---- The invariant -----------------------------------------------------

  ghost predicate Shape(s: State) {
    && 0 < |s.trials| == |s.place| == |s.hist| == |s.ready|
    && |s.waitGen| == |s.waitAna| == |s.hooks|
    && InStack(|s.hooks|, s.layer)
  }

  /** The places that are lists. */
  predicate IsList(depth: nat, p: Place) {
    p.Ready? || (p.WaitGen? && p.layer < depth) || (p.WaitAna? && p.layer < depth)
  }

  function ListAt(s: State, p: Place): seq<nat>
    requires IsList(|s.hooks|, p) && |s.waitGen| == |s.waitAna| == |s.hooks|
  {
    match p
    case WaitGen(l) => s.waitGen[l]
    case WaitAna(l) => s.waitAna[l]
    case _ => s.queue
  }

  ghost predicate Distinct<T>(xs: seq<T>) {
    forall i, j :: 0 <= i < j < |xs| ==> xs[i] != xs[j]
  }

  /** Every list names, without repetition, exactly the slots whose place it is. */
  ghost predicate Placed(s: State)
    requires Shape(s)
  {
    && (forall p :: IsList(|s.hooks|, p) ==> ListHolds(s, p))
    && (forall i :: 0 <= i < |s.place| && (s.place[i].WaitGen? || s.place[i].WaitAna?) ==> s.place[i].layer < |s.hooks|)
  }

  ghost predicate ListHolds(s: State, p: Place)
    requires Shape(s) && IsList(|s.hooks|, p)
  {
    && Distinct(ListAt(s, p))
    && (forall i: nat :: i in ListAt(s, p) <==> i < |s.place| && s.place[i] == p)
  }

  ghost predicate IdsOk(s: State)
    requires Shape(s)
  {
    && (forall i :: 0 <= i < |s.trials| ==> (s.place[i] == Free <==> s.trials[i].point.id == -1))
    && (forall i :: 0 <= i < |s.trials| ==> s.place[i] != Free ==> s.trials[i].point.id >= 0)
    && (forall i, j :: 0 <= i < j < |s.trials| && s.place[i] != Free && s.place[j] != Free ==>
          s.trials[i].point.id != s.trials[j].point.id)
  }

  function LiveCount(place: seq<Place>): nat {
    if place == [] then 0 else (if place[0] == Free then 0 else 1) + LiveCount(place[1..])
  }

  /** What a slot's place says about the layers its trial has visited. */
  ghost predicate HistoryFits(depth: nat, p: Place, h: seq<int>) {
    && Linked(depth, h)
    && match p
       case Ready => Leads(depth, h, depth + 1)
       case HandedOut => Leads(depth, h, depth + 1)
       case WaitGen(l) => h != [] && h[|h| - 1] == l + 1
       case WaitAna(l) => h != [] && h[|h| - 1] == 0 - (l + 1)
       case _ => true
  }

  ghost predicate HistoriesOk(s: State)
    requires Shape(s)
  {
    forall i :: 0 <= i < |s.place| ==> HistoryFits(|s.hooks|, s.place[i], s.hist[i])
  }

  /** The trials waiting in the ready queue, in queue order. */
  function Waiting(trials: seq<Trial>, queue: seq<nat>): (r: seq<Point>)
    requires forall k :: 0 <= k < |queue| ==> queue[k] < |trials|
    ensures |r| == |queue| && forall k :: 0 <= k < |queue| ==> r[k] == trials[queue[k]].point
  {
    if queue == [] then [] else [trials[queue[0]].point] + Waiting(trials, queue[1..])
  }

  /** First in, first out: the points that finished generation are the points
      fetched so far followed by the points still waiting. */
  ghost predicate Fifo(s: State) {
    && (forall k :: 0 <= k < |s.queue| ==> s.queue[k] < |s.trials|)
    && s.enqueued == s.fetched + Waiting(s.trials, s.queue)
  }

  /** Every trial the strategy was given had come down through the layers. */
  ghost predicate AnalysesOk(s: State) {
    forall k :: 0 <= k < |s.analyzed| ==> Descended(|s.hooks|, s.analyzed[k].hist)
  }

  /** What holds inside a step, when a slot may be in flight. */
  ghost predicate Consistent(s: State) {
    && Shape(s)
    && Holds(s.ready, s.head, s.tail, s.queue)
    && Placed(s)
    && IdsOk(s)
    && s.pendingLen == LiveCount(s.place)
    && HistoriesOk(s)
    && Fifo(s)
    && AnalysesOk(s)
  }

  /** What holds between steps. */
  ghost predicate Inv(s: State) {
    Consistent(s) && forall i :: 0 <= i < |s.place| ==> s.place[i] != InFlight
  }

  // ---- The steps ---------------------------------------------------------

  /** A new state and whether the program's routine returned 0. */
  datatype Step = Step(state: State, ok: bool)

  /** The first slot whose point has the given id, or the number of slots. */
  function FindId(trials: seq<Trial>, id: int): (idx: nat)
    ensures idx <= |trials|
    ensures idx < |trials| ==> trials[idx].point.id == id
    ensures forall i :: 0 <= i < idx ==> trials[i].point.id != id
  {
    if trials == [] || trials[0].point.id == id then 0
    else
      var rest := FindId(trials[1..], id);
      assert forall i :: 1 <= i <= |trials| - 1 ==> trials[i] == trials[1..][i - 1];
      rest + 1
  }

  function Put(s: State, idx: nat, p: Place): State
    requires idx < |s.place|
  {
    s.(place := s.place[idx := p])
  }

  /** Append a trial to the wait list of the current layer (handle_wait). */
  function Park(s: State, idx: nat): State
    requires idx < |s.place| && |s.waitGen| == |s.waitAna| == |s.hooks|
    requires s.layer != 0 && InStack(|s.hooks|, s.layer) && s.layer <= |s.hooks|
  {
    if s.layer < 0 then
      var l := -s.layer - 1;
      Put(s.(waitAna := s.waitAna[l := s.waitAna[l] + [idx]]), idx, WaitAna(l))
    else
      var l := s.layer - 1;
      Put(s.(waitGen := s.waitGen[l := s.waitGen[l] + [idx]]), idx, WaitGen(l))
  }

  /** Hand an analyzed trial to the strategy and free its slot. */
  function Retire(s: State, idx: nat): State
    requires idx < |s.place| && idx < |s.trials| && idx < |s.hist|
  {
    Put(s.(trials := s.trials[idx := s.trials[idx].(point := NO_POINT)],
           pendingLen := s.pendingLen - 1,
           open := true,
           hist := s.hist[idx := []],
           analyzed := s.analyzed + [Analysis(s.trials[idx], s.hist[idx])]),
        idx, Free)
  }

  /** Append a generated trial to the ready ring, unless the cell is taken. */
  function Enqueue(s: State, idx: nat): Step
    requires idx < |s.place| && idx < |s.trials| && s.tail < |s.ready|
  {
    if s.ready[s.tail] != -1 then Step(Put(s, idx, Stranded), false)
    else Step(Put(s.(ready := s.ready[s.tail := idx],
                     tail := (s.tail + 1) % |s.ready|,
                     queue := s.queue + [idx],
                     enqueued := s.enqueued + [s.trials[idx].point]),
                  idx, Ready), true)
  }

  /** Take over what a passage did to the trial in slot idx. */
  function Absorb(s: State, idx: nat, f: Flow): State
    requires idx < |s.trials| && idx < |s.hist|
  {
    s.(layer := f.layer, trials := s.trials[idx := f.trial], hist := s.hist[idx := f.hist], open := f.open)
  }

  /** A trial that has left the layers goes to the strategy or to the ready queue. */
  function Land(t: State, idx: nat, analyzeOk: bool): Step
    requires idx < |t.place| && idx < |t.trials| && idx < |t.hist| && t.tail < |t.ready|
  {
    if t.layer == 0 then
      if analyzeOk then Step(Retire(t, idx), true) else Step(Put(t, idx, Stranded), false)
    else Enqueue(t, idx)
  }

  /** The end of a passage: park, give up, hand to the strategy, or enqueue. */
  function Finish(s: State, idx: nat, f: Flow, analyzeOk: bool): Step
    requires Shape(s) && idx < |s.trials| && InStack(|s.hooks|, f.layer) && s.tail < |s.ready|
    requires f.progress == Parked ==> f.layer != 0 && f.layer <= |s.hooks|
  {
    var t := Absorb(s, idx, f);
    match f.progress
    case Parked => Step(Park(t, idx), true)
    case Dropped => Step(Put(t, idx, Stranded), true)
    case Failed => Step(Put(t, idx, Stranded), false)
    case Running => Land(t, idx, analyzeOk)
  }

  /** The passage that starts with the current layer and the trial in slot idx. */
  function Start(s: State, idx: nat, tape: seq<LayerReply>): Flow
    requires idx < |s.trials| && idx < |s.hist|
  {
    Flow(s.layer, s.trials[idx], tape, s.hist[idx], s.open, Running)
  }

  /** plugin_workflow: run the layers, then finish. */
  function PluginWorkflow(s: State, idx: nat, tape: seq<LayerReply>, analyzeOk: bool): Step
    requires Shape(s) && idx < |s.trials| && s.tail < |s.ready|
    requires Leads(|s.hooks|, s.hist[idx], s.layer)
  {
    RunKeepsHistory(s.hooks, Start(s, idx, tape));
    Finish(s, idx, Run(s.hooks, Start(s, idx, tape)), analyzeOk)
  }

  /** The strategy's answer to a request for a point. */
  datatype GenerateReply =
    | Generated(point: Point)
    | NotYet
    | Unable // the strategy itself returned an error

  /** Put a newly generated point into slot idx and start it at the first layer. */
  function Launch(s: State, idx: nat, point: Point): State
    requires idx < |s.trials| && idx < |s.place| && idx < |s.hist|
  {
    Put(s.(trials := s.trials[idx := Trial(point, Unmeasured)],
           pendingLen := s.pendingLen + 1,
           layer := 1,
           hist := s.hist[idx := []]),
        idx, InFlight)
  }

  /** No point has come of a request; the performance has been reset for one. */
  function NoTrial(s: State, idx: nat, open: bool): State
    requires idx < |s.trials|
  {
    s.(trials := s.trials[idx := s.trials[idx].(perf := Unmeasured)], open := open)
  }

  /** generate_trial. */
  function GenerateTrial(s: State, reply: GenerateReply, tape: seq<LayerReply>, analyzeOk: bool): Step
    requires Shape(s) && s.tail < |s.ready|
  {
    var idx := FindId(s.trials, -1);
    if idx == |s.trials| then Step(s, false)
    else match reply
    case NotYet => Step(NoTrial(s, idx, false), true)
    case Unable => Step(NoTrial(s, idx, s.open), false)
    case Generated(point) =>
      PluginWorkflow(Launch(s, idx, point), idx, tape, analyzeOk)
  }

  /** The wait list a callback works on. */
  function CallbackList(index: int): Place
    requires index != 0
  {
    if index < 0 then WaitAna(-index - 1) else WaitGen(index - 1)
  }

  /** Fill the hole with the last entry and shorten the list. */
  function SwapRemove(xs: seq<nat>, k: nat): (r: seq<nat>)
    requires k < |xs|
    ensures |r| == |xs| - 1
  {
    xs[k := xs[|xs| - 1]][..|xs| - 1]
  }

  function Unpark(s: State, index: int, k: nat): State
    requires |s.waitGen| == |s.waitAna| == |s.hooks|
    requires index != 0 && IsList(|s.hooks|, CallbackList(index)) && k < |ListAt(s, CallbackList(index))|
    requires ListAt(s, CallbackList(index))[k] < |s.place|
  {
    var idx := ListAt(s, CallbackList(index))[k];
    var l := CallbackList(index).layer;
    Put(if index < 0 then s.(waitAna := s.waitAna[l := SwapRemove(s.waitAna[l], k)])
        else s.(waitGen := s.waitGen[l := SwapRemove(s.waitGen[l], k)]),
        idx, InFlight)
  }

  /** The trial a callback answers for. */
  function CallbackSlot(s: State, index: int, k: nat): (idx: nat)
    requires Consistent(s) && index != 0 && IsList(|s.hooks|, CallbackList(index))
    requires k < |ListAt(s, CallbackList(index))|
    ensures idx < |s.trials| && s.place[idx] == CallbackList(index)
  {
    assert ListHolds(s, CallbackList(index));
    assert ListAt(s, CallbackList(index))[k] in ListAt(s, CallbackList(index));
    ListAt(s, CallbackList(index))[k]
  }

  /** What the layer state machine makes of a callback's reply. */
  function CallbackFlow(s: State, index: int, idx: nat, reply: LayerReply): Flow
    requires idx < |s.trials| && idx < |s.hist|
  {
    Transition(Flow(index, s.trials[idx].(perf := reply.perf), [], s.hist[idx], s.open, Running), reply.verdict)
  }

  lemma CallbackLeads(s: State, index: int, idx: nat, reply: LayerReply)
    requires Consistent(s) && index != 0 && IsList(|s.hooks|, CallbackList(index))
    requires idx < |s.trials| && s.place[idx] == CallbackList(index)
    ensures var f := CallbackFlow(s, index, idx, reply);
            && f.hist == s.hist[idx] && InStack(|s.hooks|, f.layer)
            && (f.progress == Running ==> Leads(|s.hooks|, f.hist, f.layer))
            && (f.progress == Parked ==> f.layer == index)
  {
    ParkedAt(s, index, idx);
    hide Consistent, Linked, Leads, Transition;
    TransitionLeads(|s.hooks|, Flow(index, s.trials[idx].(perf := reply.perf), [], s.hist[idx], s.open, Running),
                    reply.verdict);
  }

  /** A parked trial was visited last at the layer it is parked at. */
  lemma ParkedAt(s: State, index: int, idx: nat)
    requires Consistent(s) && index != 0 && IsList(|s.hooks|, CallbackList(index))
    requires idx < |s.trials| && s.place[idx] == CallbackList(index)
    ensures idx < |s.hist| && s.hist[idx] != [] && s.hist[idx][|s.hist[idx]| - 1] == index
    ensures Linked(|s.hooks|, s.hist[idx]) && 0 <= |s.hooks| + index && index <= |s.hooks|
  {
    assert HistoryFits(|s.hooks|, s.place[idx], s.hist[idx]);
    hide Holds, Placed, IdsOk, HistoriesOk, Fifo, AnalysesOk, Linked, Leads;
  }

  /** Where a transition leaves a trial that has been visited last at its layer. */
  lemma TransitionLeads(depth: nat, f: Flow, verdict: Verdict)
    requires f.progress == Running && Linked(depth, f.hist) && f.hist != []
    requires f.layer == f.hist[|f.hist| - 1] && f.layer != 0 && 0 <= depth + f.layer && f.layer <= depth
    ensures var g := Transition(f, verdict);
            && g.hist == f.hist && InStack(depth, g.layer)
            && (g.progress == Running ==> Leads(depth, g.hist, g.layer))
            && (g.progress == Parked ==> g.layer == f.layer)
  {
    hide Linked;
  }

  /** handle_callback: the k-th trial parked at the layer gets the given reply. */
  function Callback(s: State, index: int, k: nat, reply: LayerReply, tape: seq<LayerReply>, analyzeOk: bool): Step
    requires Consistent(s) && index != 0 && IsList(|s.hooks|, CallbackList(index))
    requires ListAt(s, CallbackList(index)) != [] ==> k < |ListAt(s, CallbackList(index))|
  {
    if ListAt(s, CallbackList(index)) == [] then Step(s.(layer := index), false)
    else
      var idx := CallbackSlot(s, index, k);
      var f := CallbackFlow(s, index, idx, reply);
      CallbackLeads(s, index, idx, reply);
      var t := Absorb(s, idx, f);
      match f.progress
      case Parked => Step(Park(t, idx), true)
      case Dropped => Step(t, true)
      case Failed => Step(t, false)
      case Running => PluginWorkflow(Unpark(t, index, k), idx, tape, analyzeOk)
  }

  datatype FetchReply = Candidate(point: Point) | Busy(best: Point)

  /** handle_fetch. */
  function Fetch(s: State, paused: bool, best: Point): (r: (State, FetchReply))
    requires s.head < |s.ready| && s.ready[s.head] < |s.trials| && s.ready[s.head] < |s.place|
    requires s.ready[s.head] >= 0 ==> s.queue != []
  {
    var idx := s.ready[s.head];
    if !paused && idx >= 0 then
      (Put(s.(ready := s.ready[s.head := -1],
              head := (s.head + 1) % |s.ready|,
              queue := s.queue[1..],
              fetched := s.fetched + [s.trials[idx].point]),
           idx, HandedOut),
       Candidate(s.trials[idx].point))
    else
      (s.(pausedId := best.id), Busy(best))
  }

  datatype ReportReply = Accepted | Rogue | Broken

  /** Put the reported trial in flight at the outermost analysis layer. */
  function Reported(s: State, idx: nat, perf: Perf): State
    requires idx < |s.trials| && idx < |s.place|
  {
    Put(s.(pausedId := 0,
           trials := s.trials[idx := s.trials[idx].(perf := perf)],
           layer := 0 - |s.hooks|),
        idx, InFlight)
  }

  /** handle_report, for a report that names a trial handed out or no trial. */
  function Report(s: State, candId: int, perf: Perf, tape: seq<LayerReply>, analyzeOk: bool): (r: (State, ReportReply))
    requires Consistent(s) && NamesHandedOut(s, candId)
  {
    var idx := FindId(s.trials, candId);
    if idx == |s.trials| then
      (s, if candId == s.pausedId then Accepted else Rogue)
    else
      assert HistoryFits(|s.hooks|, s.place[idx], s.hist[idx]);
      var step := PluginWorkflow(Reported(s, idx, perf), idx, tape, analyzeOk);
      (step.state, if step.ok then Accepted else Broken)
  }

  /** No slot but one handed to a client has the id. */
  ghost predicate NamesHandedOut(s: State, candId: int) {
    |s.place| == |s.trials| &&
    forall i :: 0 <= i < |s.trials| && s.trials[i].point.id == candId ==> s.place[i] == HandedOut
  }

  /** The capacity array_grow gives when it is asked to start from `target`. */
  function GrownCap(target: nat): (r: nat)
    ensures r >= 8 && r >= target && (target > 0 ==> r > target || r == 8)
    ensures r > 8 ==> target >= 8 && r - target == target
  {
    if target >= 8 then 2 * target else 8
  }

  function FreeTrials(n: nat): (r: seq<Trial>)
    ensures |r| == n && forall k :: 0 <= k < n ==> r[k] == Trial(NO_POINT, Unmeasured)
  {
    seq(n, _ => Trial(NO_POINT, Unmeasured))
  }

  function FreePlaces(n: nat): (r: seq<Place>)
    ensures |r| == n && forall k :: 0 <= k < n ==> r[k] == Free
  {
    seq(n, _ => Free)
  }

  function NoVisits(n: nat): (r: seq<seq<int>>)
    ensures |r| == n && forall k :: 0 <= k < n ==> r[k] == []
  {
    seq(n, _ => [])
  }

  /** extend_lists, with the tail as the program computes it. */
  function ExtendLists(s: State, target: nat): State
    requires s.head < |s.ready| && s.tail <= |s.ready| && 0 < |s.trials|
  {
    if |s.trials| >= target then s
    else
      var extra := GrownCap(target) - |s.trials|;
      s.(ready := GrownCells(s.ready, s.head, s.tail, extra),
         head := GrownHead(s.ready, s.head, s.tail),
         tail := GrownTail(s.ready, s.head, s.tail),
         trials := s.trials + FreeTrials(extra),
         place := s.place + FreePlaces(extra),
         hist := s.hist + NoVisits(extra))
  }
}
