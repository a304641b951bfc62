/** Whole runs of a tuning session: any sequence of steps, in any order, that
    respects the plug-ins' and clients' contracts. */
module PipelineRuns {
  import opened Ring
  import opened Workflow
  import opened Pipeline
  import opened PipelineInvariant

  datatype Event =
    | GenerateEvent(reply: GenerateReply, tape: seq<LayerReply>, analyzeOk: bool)
    | CallbackEvent(index: int, k: nat, answer: LayerReply, tape: seq<LayerReply>, analyzeOk: bool)
    | FetchEvent(paused: bool, best: Point)
    | ReportEvent(candId: int, perf: Perf, tape: seq<LayerReply>, analyzeOk: bool)
    | JoinEvent(target: nat)

  /** When a step may happen: the main loop asks for points only while
      generation is open and the lists have room, callbacks answer for a trial
      on their own list and do not answer WAIT, reports name trials handed out,
      new ids are not live elsewhere, and lists grow only while aligned. */
  ghost predicate Allowed(s: State, e: Event)
    requires Inv(s)
  {
    match e
    case GenerateEvent(reply, tape, _) => s.open && s.pendingLen < |s.trials| && GenerateAllowed(s, reply, tape)
    case CallbackEvent(index, k, answer, tape, _) =>
      CallbackAllowed(s, index, k, answer, tape) && answer.verdict != Wait
    case FetchEvent(_, _) => true
    case ReportEvent(candId, _, tape, _) => ReportAllowed(s, candId, tape)
    case JoinEvent(target) => ExtendAllowed(s, target)
  }

  ghost function Apply(s: State, e: Event): State
    requires Inv(s) && Allowed(s, e)
  {
    FetchReady(s);
    TailBelowCap(s);
    match e
    case GenerateEvent(reply, tape, analyzeOk) => GenerateTrial(s, reply, tape, analyzeOk).state
    case CallbackEvent(index, k, answer, tape, analyzeOk) => Callback(s, index, k, answer, tape, analyzeOk).state
    case FetchEvent(paused, best) => Fetch(s, paused, best).0
    case ReportEvent(candId, perf, tape, analyzeOk) => Report(s, candId, perf, tape, analyzeOk).0
    case JoinEvent(target) => ExtendLists(s, target)
  }

  lemma TailBelowCap(s: State)
    requires Consistent(s)
    ensures s.tail < |s.ready|
  {
    assert s.tail == Cell(s.head, |s.queue|, |s.ready|);
  }

  /** Every allowed step keeps the invariant. */
  lemma StepKeeps(s: State, e: Event)
    requires Inv(s) && Allowed(s, e)
    ensures Inv(Apply(s, e))
  {
    FetchReady(s);
    TailBelowCap(s);
    match e
    case GenerateEvent(reply, tape, analyzeOk) => GenerateKeeps(s, reply, tape, analyzeOk);
    case CallbackEvent(index, k, answer, tape, analyzeOk) => CallbackKeeps(s, index, k, answer, tape, analyzeOk);
    case FetchEvent(paused, best) => FetchKeeps(s, paused, best);
    case ReportEvent(candId, perf, tape, analyzeOk) => ReportKeeps(s, candId, perf, tape, analyzeOk);
    case JoinEvent(target) => ExtendKeepsIff(s, target);
  }

  /** The state after init_session with room asked for `count` trials. */
  function Initial(hooks: seq<Hooks>, count: nat): State {
    var cap := GrownCap(count);
    State(hooks, seq(cap, _ => Trial(NO_POINT, Unmeasured)), 0, Blank(cap), 0, 0,
          seq(|hooks|, _ => []), seq(|hooks|, _ => []), true, 0, |hooks|,
          [], seq(cap, _ => Free), seq(cap, _ => []), [], [], [])
  }

  lemma InitialInv(hooks: seq<Hooks>, count: nat)
    ensures Inv(Initial(hooks, count))
  {
    var s := Initial(hooks, count);
    CountAppendFree([], s.place);
    assert [] + s.place == s.place;
    forall p | IsList(|s.hooks|, p)
      ensures ListHolds(s, p)
    {
      assert ListAt(s, p) == [];
    }
  }

  /** A run: the states passed through, one more than the events between them. */
  ghost predicate IsRun(states: seq<State>, events: seq<Event>) {
    && |states| == |events| + 1
    && (exists hooks, count :: states[0] == Initial(hooks, count))
    && forall n :: 0 <= n < |events| ==> StepTo(states[n], events[n], states[n + 1])
  }

  ghost predicate StepTo(s: State, e: Event, t: State) {
    Inv(s) ==> Allowed(s, e) && t == Apply(s, e)
  }

  /** Safety over whole runs: the invariant holds in every state reached. */
  lemma {:induction false} RunSafe(states: seq<State>, events: seq<Event>, n: nat)
    requires IsRun(states, events) && n < |states|
    ensures Inv(states[n])
  {
    if n == 0 {
      var hooks, count :| states[0] == Initial(hooks, count);
      InitialInv(hooks, count);
    } else {
      RunSafe(states, events, n - 1);
      assert StepTo(states[n - 1], events[n - 1], states[n]);
      StepKeeps(states[n - 1], events[n - 1]);
    }
  }

  // ---- What the invariant means ------------------------------------------

  function Times(xs: seq<nat>, i: nat): nat {
    multiset(xs)[i]
  }

  function TimesIn(lists: seq<seq<nat>>, i: nat): nat {
    if lists == [] then 0 else Times(lists[0], i) + TimesIn(lists[1..], i)
  }

  /** How often a slot is listed anywhere. */
  function Listed(s: State, i: nat): nat {
    Times(s.queue, i) + TimesIn(s.waitGen, i) + TimesIn(s.waitAna, i)
  }

  lemma {:induction false} DistinctTimes(xs: seq<nat>, i: nat)
    requires Distinct(xs)
    ensures Times(xs, i) == if i in xs then 1 else 0
  {
    if xs != [] {
      var rest := xs[1..];
      assert xs == [xs[0]] + rest;
      DistinctTimes(rest, i);
      if xs[0] == i {
        forall k | 0 <= k < |rest|
          ensures rest[k] != i
        {
          assert rest[k] == xs[k + 1];
        }
      }
    }
  }

  /** Where a slot occurs in a family of lists, `at` being the only one it may be in. */
  lemma {:induction false} FamilyTimes(lists: seq<seq<nat>>, i: nat, at: int)
    requires forall l :: 0 <= l < |lists| ==> Distinct(lists[l]) && (i in lists[l] <==> l == at)
    ensures TimesIn(lists, i) == if 0 <= at < |lists| then 1 else 0
  {
    if lists != [] {
      DistinctTimes(lists[0], i);
      forall l | 0 <= l < |lists[1..]|
        ensures Distinct(lists[1..][l]) && (i in lists[1..][l] <==> l == at - 1)
      {
        assert lists[1..][l] == lists[l + 1];
      }
      FamilyTimes(lists[1..], i, at - 1);
    }
  }

  lemma ListMembers(s: State, i: nat)
    requires Inv(s) && i < |s.place|
    ensures Distinct(s.queue) && (i in s.queue <==> s.place[i] == Ready)
    ensures forall l :: 0 <= l < |s.waitGen| ==>
              Distinct(s.waitGen[l]) && (i in s.waitGen[l] <==> s.place[i] == WaitGen(l))
    ensures forall l :: 0 <= l < |s.waitAna| ==>
              Distinct(s.waitAna[l]) && (i in s.waitAna[l] <==> s.place[i] == WaitAna(l))
  {
    assert ListHolds(s, Ready) && ListAt(s, Ready) == s.queue;
    forall l | 0 <= l < |s.waitGen|
      ensures Distinct(s.waitGen[l]) && (i in s.waitGen[l] <==> s.place[i] == WaitGen(l))
    {
      assert ListHolds(s, WaitGen(l)) && ListAt(s, WaitGen(l)) == s.waitGen[l];
    }
    forall l | 0 <= l < |s.waitAna|
      ensures Distinct(s.waitAna[l]) && (i in s.waitAna[l] <==> s.place[i] == WaitAna(l))
    {
      assert ListHolds(s, WaitAna(l)) && ListAt(s, WaitAna(l)) == s.waitAna[l];
    }
  }

  /** A slot is listed once if it is ready or parked, and nowhere otherwise. */
  lemma ListedOnce(s: State, i: nat)
    requires Inv(s) && i < |s.place|
    ensures Listed(s, i) ==
            if s.place[i].Ready? || s.place[i].WaitGen? || s.place[i].WaitAna? then 1 else 0
  {
    ListMembers(s, i);
    DistinctTimes(s.queue, i);
    FamilyTimes(s.waitGen, i, if s.place[i].WaitGen? then s.place[i].layer else -1);
    FamilyTimes(s.waitAna, i, if s.place[i].WaitAna? then s.place[i].layer else -1);
    assert s.place[i].WaitGen? || s.place[i].WaitAna? ==> s.place[i].layer < |s.hooks|;
  }

  /** A slot number stands in the ready ring exactly if the slot is ready, and
      then in exactly one cell. */
  lemma RingCellUnique(s: State, i: nat)
    requires Inv(s) && i < |s.place|
    ensures s.place[i] == Ready <==> exists c :: 0 <= c < |s.ready| && s.ready[c] == i
    ensures forall c, d :: 0 <= c < |s.ready| && 0 <= d < |s.ready| && s.ready[c] == i == s.ready[d] ==> c == d
  {
    ListMembers(s, i);
    forall c | 0 <= c < |s.ready| && s.ready[c] == i
      ensures exists q :: 0 <= q < |s.queue| && s.queue[q] == i && Cell(s.head, q, |s.ready|) == c
    {
      OccupiedCells(s.ready, s.head, s.tail, s.queue, c);
      var q :| 0 <= q < |s.queue| && Cell(s.head, q, |s.ready|) == c;
      assert s.queue[q] == i;
    }
    if s.place[i] == Ready {
      var q :| 0 <= q < |s.queue| && s.queue[q] == i;
      assert s.ready[Cell(s.head, q, |s.ready|)] == i;
    }
  }

  /** While the main loop has room for a trial there is a free slot for it, and
      whatever the plug-ins do, a step fails only because one of them failed:
      the overflow errors are unreachable. */
  lemma NoOverflow(s: State, reply: GenerateReply, tape: seq<LayerReply>, analyzeOk: bool)
    requires Inv(s) && s.pendingLen < |s.trials| && GenerateAllowed(s, reply, tape)
    ensures s.tail < |s.ready| && FindId(s.trials, -1) < |s.trials|
    ensures reply.NotYet? ==> GenerateTrial(s, reply, tape, analyzeOk).ok
    ensures reply.Unable? ==> !GenerateTrial(s, reply, tape, analyzeOk).ok
    ensures reply.Generated? ==>
              var idx := FindId(s.trials, -1);
              var r := Run(s.hooks, Start(Launch(s, idx, reply.point), idx, tape));
              GenerateTrial(s, reply, tape, analyzeOk).ok <==>
              r.progress != Failed && (r.progress == Running && r.layer == 0 ==> analyzeOk)
  {
    TailBelowCap(s);
    GenerateKeeps(s, reply, tape, analyzeOk);
    if reply.Generated? {
      var idx := FindId(s.trials, -1);
      LaunchKeeps(s, idx, reply.point);
      StillFresh(s, Launch(s, idx, reply.point), idx, tape);
      WorkflowFails(Launch(s, idx, reply.point), idx, tape, analyzeOk);
    }
  }

  lemma WorkflowFails(s: State, idx: nat, tape: seq<LayerReply>, analyzeOk: bool)
    requires Consistent(s) && OnlyFlight(s, idx) && s.tail < |s.ready|
    requires Leads(|s.hooks|, s.hist[idx], s.layer) && TapeFresh(s, idx, tape)
    requires s.trials[idx].point.id >= 0
    ensures var r := Run(s.hooks, Start(s, idx, tape));
            PluginWorkflow(s, idx, tape, analyzeOk).ok <==>
            r.progress != Failed && (r.progress == Running && r.layer == 0 ==> analyzeOk)
  {
    var f := Start(s, idx, tape);
    var r := Run(s.hooks, f);
    RunKeepsHistory(s.hooks, f);
    RunPoint(s.hooks, f);
    if r.trial.point != f.trial.point {
      var n :| 0 <= n < |tape| && tape[n].verdict == Reject(Regenerated(r.trial.point));
      assert ReplyFresh(s, idx, tape[n]);
    }
    FinishKeeps(s, idx, r, analyzeOk);
  }

  /** A passage leaves everything but its own slot and the ring's tail alone. */
  lemma WorkflowFrame(s: State, idx: nat, tape: seq<LayerReply>, analyzeOk: bool)
    requires Shape(s) && idx < |s.trials| && s.tail < |s.ready| && Leads(|s.hooks|, s.hist[idx], s.layer)
    ensures var t := PluginWorkflow(s, idx, tape, analyzeOk).state;
            && t.hooks == s.hooks && t.head == s.head && t.pausedId == s.pausedId && t.fetched == s.fetched
            && |t.trials| == |s.trials| && (forall i :: 0 <= i < |s.trials| && i != idx ==> t.trials[i] == s.trials[i])
  {
    RunKeepsHistory(s.hooks, Start(s, idx, tape));
    hide Run, Leads;
  }

  /** A report that every layer accepts reaches the strategy: the trial is analyzed
      with the point it was handed out with and the performance reported, after
      analyze of all layers from the outermost to the innermost; its slot is free
      and generation is open again. */
  lemma ReportReachesStrategy(s: State, candId: int, perf: Perf, tape: seq<LayerReply>)
    requires Inv(s) && ReportAllowed(s, candId, tape) && AllAccept(tape) && FindId(s.trials, candId) < |s.trials|
    ensures var idx := FindId(s.trials, candId);
            var (t, reply) := Report(s, candId, perf, tape, true);
            && reply == Accepted && t.open && t.pausedId == 0
            && t.place == s.place[idx := Free] && t.pendingLen == s.pendingLen - 1
            && t.queue == s.queue && t.waitGen == s.waitGen && t.waitAna == s.waitAna
            && |t.analyzed| == |s.analyzed| + 1 && t.analyzed[..|s.analyzed|] == s.analyzed
            && var a := t.analyzed[|s.analyzed|];
            && a.trial.point == s.trials[idx].point && (tape == [] ==> a.trial.perf == perf)
            && a.hist == s.hist[idx] + Upward(0 - |s.hooks|, -1)
  {
    var idx := FindId(s.trials, candId);
    ReportedKeeps(s, idx, perf);
    TailBelowCap(s);
    AcceptedPassage(s.hooks, Start(Reported(s, idx, perf), idx, tape));
    hide Inv, Consistent, Leads, OnlyFlight, Run, Upward, TapeFresh, AllAccept, FindId;
    assert s.place[idx := InFlight][idx := Free] == s.place[idx := Free];
  }

  /** A generated point that every layer accepts is queued last, after generate of
      all layers from the innermost to the outermost. */
  lemma GenerateReachesQueue(s: State, point: Point, tape: seq<LayerReply>)
    requires Inv(s) && s.pendingLen < |s.trials| && GenerateAllowed(s, Generated(point), tape) && AllAccept(tape)
    ensures Shape(s) && s.tail < |s.ready| && FindId(s.trials, -1) < |s.trials|
    ensures var idx := FindId(s.trials, -1);
            var t := GenerateTrial(s, Generated(point), tape, true).state;
            && idx < |t.trials| && idx < |t.hist|
            && t.place == s.place[idx := Ready] && t.pendingLen == s.pendingLen + 1 && t.open == s.open
            && t.queue == s.queue + [idx] && t.waitGen == s.waitGen && t.waitAna == s.waitAna
            && t.trials[idx].point == point && t.enqueued == s.enqueued + [point] && t.fetched == s.fetched
            && t.hist[idx] == Upward(1, |s.hooks|)
  {
    NoOverflow(s, Generated(point), tape, true);
    var idx := FindId(s.trials, -1);
    LaunchKeeps(s, idx, point);
    TailIsEmpty(s, idx);
    AcceptedPassage(s.hooks, Start(Launch(s, idx, point), idx, tape));
    hide Inv, Consistent, Leads, OnlyFlight, Run, Upward, TapeFresh, AllAccept, FindId, GenerateAllowed;
    assert s.place[idx := InFlight][idx := Ready] == s.place[idx := Ready];
    assert [] + Upward(1, |s.hooks|) == Upward(1, |s.hooks|);
  }

  /** First in, first out over every run: what has been fetched is a prefix of
      what finished generation, and the rest waits in that order. */
  lemma FetchedInOrder(states: seq<State>, events: seq<Event>, n: nat)
    requires IsRun(states, events) && n < |states|
    ensures states[n].fetched <= states[n].enqueued
    ensures |states[n].enqueued| == |states[n].fetched| + |states[n].queue|
    ensures forall k :: 0 <= k < |states[n].queue| ==>
              states[n].queue[k] < |states[n].trials| &&
              states[n].trials[states[n].queue[k]].point == states[n].enqueued[|states[n].fetched| + k]
  {
    RunSafe(states, events, n);
  }

  /** Every trial the strategy has been given in a run came down through
      consecutive analyze layers from the one that turned it round. */
  lemma AnalyzedByDescent(states: seq<State>, events: seq<Event>, n: nat, k: nat)
    requires IsRun(states, events) && n < |states| && k < |states[n].analyzed|
    ensures Descended(|states[n].hooks|, states[n].analyzed[k].hist)
  {
    RunSafe(states, events, n);
  }

  /** Every trial ready or handed out had climbed the whole stack. */
  lemma ReadyByClimb(states: seq<State>, events: seq<Event>, n: nat, i: nat)
    requires IsRun(states, events) && n < |states| && i < |states[n].place|
    requires states[n].place[i] == Ready || states[n].place[i] == HandedOut
    ensures Inv(states[n]) && Climbed(|states[n].hooks|, states[n].hist[i])
  {
    RunSafe(states, events, n);
    var s := states[n];
    assert HistoryFits(|s.hooks|, s.place[i], s.hist[i]);
    QueueReachedByClimb(|s.hooks|, s.hist[i]);
  }

  // ---- A run that a callback breaks ----------------------------------------

  /** A climbing trial is parked at the first generate hook, if that answers WAIT. */
  lemma {:induction false} WaitsAtHook(hooks: seq<Hooks>, f: Flow, l: nat)
    requires l < |hooks| && hooks[l].generate && f.progress == Running && 1 <= f.layer <= l + 1
    requires forall j :: f.layer - 1 <= j < l ==> !hooks[j].generate
    requires |f.tape| == 1 && f.tape[0].verdict == Wait
    ensures InStack(|hooks|, f.layer)
    ensures var r := Run(hooks, f); r.progress == Parked && r.layer == l + 1 && r.trial.point == f.trial.point
    decreases l + 1 - f.layer
  {
    if f.layer <= l {
      WaitsAtHook(hooks, Visit(hooks, f), l);
    }
  }

  function WaitReply(): LayerReply {
    LayerReply(Unmeasured, Wait)
  }

  function GenerateAndWait(point: Point): Event {
    GenerateEvent(Generated(point), [WaitReply()], true)
  }

  /** The first point generated in a session waits at the first generate hook. */
  lemma FirstWaits(hooks: seq<Hooks>, count: nat, l: nat, point: Point)
    requires l < |hooks| && hooks[l].generate && point.id >= 0
    requires forall j :: 0 <= j < l ==> !hooks[j].generate
    ensures Inv(Initial(hooks, count)) && Allowed(Initial(hooks, count), GenerateAndWait(point))
    ensures var t := Apply(Initial(hooks, count), GenerateAndWait(point));
            Inv(t) && t.hooks == hooks && |t.waitGen| == |hooks| && t.waitGen[l] == [0]
  {
    InitialInv(hooks, count);
    var s := Initial(hooks, count);
    RoomAtFirst(s);
    assert TapeFresh(s, 0, [WaitReply()]);
    hide Inv, Consistent, TapeFresh, Run;
    StepKeeps(s, GenerateAndWait(point));
    WaitsAtHook(hooks, Start(Launch(s, 0, point), 0, [WaitReply()]), l);
  }

  lemma RoomAtFirst(s: State)
    requires Inv(s) && s.trials[0].point.id == -1
    ensures FindId(s.trials, -1) == 0 && s.tail < |s.ready| && |s.place| == |s.hist| == |s.trials|
    ensures s.place[0] == Free
  {
    TailBelowCap(s);
  }

  /** For every session in which some layer has a generate hook there is a run that
      parks a trial there, and after which a callback that answers WAIT breaks the
      invariant. */
  lemma WaitBreaksARun(hooks: seq<Hooks>, count: nat, l: nat, point: Point)
    returns (states: seq<State>, events: seq<Event>)
    requires l < |hooks| && hooks[l].generate && point.id >= 0
    requires forall j :: 0 <= j < l ==> !hooks[j].generate
    ensures IsRun(states, events) && states[0] == Initial(hooks, count)
    ensures var s := states[|events|];
            && Inv(s) && CallbackAllowed(s, l + 1, 0, WaitReply(), [])
            && !Inv(Callback(s, l + 1, 0, WaitReply(), [], true).state)
  {
    FirstWaits(hooks, count, l, point);
    var s := Apply(Initial(hooks, count), GenerateAndWait(point));
    states, events := [Initial(hooks, count), s], [GenerateAndWait(point)];
    WaitAllowed(s, l);
    hide Inv, Consistent, Allowed, Apply, Callback, CallbackAllowed;
    CallbackWaitBreaks(s, l + 1, 0, WaitReply(), [], true);
  }

  lemma WaitAllowed(s: State, l: nat)
    requires Inv(s) && l < |s.hooks| == |s.waitGen| && s.waitGen[l] != []
    ensures CallbackAllowed(s, l + 1, 0, WaitReply(), []) && ListAt(s, CallbackList(l + 1)) != []
  {}
}
