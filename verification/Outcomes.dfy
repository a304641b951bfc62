/** What a step of the session comes to, by the answers the layers give: a generated,
    reported or parked trial is queued, analyzed, parked again or given up. */
module Outcomes {
  import opened Ring
  import opened Workflow
  import opened Passages
  import opened Pipeline
  import opened PipelineInvariant
  import opened PipelineRuns

  /** Slot idx changes hands; all other slots stay as they are. */
  ghost predicate OnlySlot(s: State, t: State, idx: nat, to: Place) {
    && idx < |s.place| == |s.trials| == |t.trials| == |t.hist| && t.place == s.place[idx := to]
    && t.hooks == s.hooks && t.head == s.head && t.fetched == s.fetched
    && forall i :: 0 <= i < |s.trials| && i != idx ==> t.trials[i] == s.trials[i]
  }

  /** The trial is queued last, with this point, after these visits. */
  ghost predicate Queued(s: State, t: State, idx: nat, point: Point, hist: seq<int>) {
    && OnlySlot(s, t, idx, Ready) && t.trials[idx].point == point && t.hist[idx] == hist
    && t.queue == s.queue + [idx] && t.enqueued == s.enqueued + [point] && t.analyzed == s.analyzed
  }

  /** The strategy has been given the trial, with this point, after these visits; its
      slot is free and generation is open. */
  ghost predicate Analyzed(s: State, t: State, idx: nat, point: Point, hist: seq<int>) {
    && OnlySlot(s, t, idx, Free) && t.trials[idx].point.id == -1 && t.open
    && t.queue == s.queue && t.enqueued == s.enqueued
    && |t.analyzed| == |s.analyzed| + 1 && t.analyzed[..|s.analyzed|] == s.analyzed
    && t.analyzed[|s.analyzed|].trial.point == point && t.analyzed[|s.analyzed|].hist == hist
  }

  /** The trial is neither queued nor analyzed, and keeps this point and these visits. */
  ghost predicate Kept(s: State, t: State, idx: nat, to: Place, point: Point, hist: seq<int>) {
    && OnlySlot(s, t, idx, to) && t.trials[idx].point == point && t.hist[idx] == hist
    && t.queue == s.queue && t.enqueued == s.enqueued && t.analyzed == s.analyzed
  }

  ghost predicate SameWaits(s: State, t: State) {
    t.waitGen == s.waitGen && t.waitAna == s.waitAna
  }

  // ---- The end of a passage ----------------------------------------------

  /** Slot idx has been taken for a passage, and nothing else has happened. */
  ghost predicate Taken(s: State, u: State, idx: nat) {
    && OnlySlot(s, u, idx, InFlight) && u.queue == s.queue && u.enqueued == s.enqueued && u.analyzed == s.analyzed
  }

  lemma EndsQueued(s: State, u: State, idx: nat, f: Flow, r: Flow, hist: seq<int>, point: Point)
    requires Shape(u) && Taken(s, u, idx) && Ended(f, r, |u.hooks| + 1, hist, point)
    requires u.tail < |u.ready| && u.ready[u.tail] == -1
    ensures var step := Finish(u, idx, r, true);
            && step.ok && Queued(s, step.state, idx, point, hist) && SameWaits(u, step.state)
            && step.state.open == f.open && step.state.pendingLen == u.pendingLen && step.state.pausedId == u.pausedId
  {
    assert s.place[idx := InFlight][idx := Ready] == s.place[idx := Ready];
  }

  lemma EndsAnalyzed(s: State, u: State, idx: nat, f: Flow, r: Flow, hist: seq<int>, point: Point)
    requires Shape(u) && Taken(s, u, idx) && Ended(f, r, 0, hist, point) && u.tail < |u.ready|
    ensures var step := Finish(u, idx, r, true);
            && step.ok && Analyzed(s, step.state, idx, point, hist) && SameWaits(u, step.state)
            && step.state.pendingLen == u.pendingLen - 1 && step.state.pausedId == u.pausedId
  {
    assert s.place[idx := InFlight][idx := Free] == s.place[idx := Free];
  }

  /** A passage that is parked, or given up, with this trial and these visits. */
  lemma EndsKept(s: State, u: State, idx: nat, r: Flow)
    requires Shape(u) && Taken(s, u, idx) && u.tail < |u.ready| && InStack(|u.hooks|, r.layer)
    requires r.progress != Running && r.layer != 0 && r.layer <= |u.hooks|
    ensures var step := Finish(u, idx, r, true);
            var to := if r.progress == Parked then CallbackList(r.layer) else Stranded;
            && step.ok == (r.progress != Failed) && Kept(s, step.state, idx, to, r.trial.point, r.hist)
            && step.state.open == r.open && step.state.pendingLen == u.pendingLen && step.state.pausedId == u.pausedId
            && (r.progress != Parked ==> SameWaits(u, step.state))
            && (r.progress == Parked && r.layer > 0 ==>
                  && step.state.waitAna == u.waitAna
                  && step.state.waitGen == u.waitGen[r.layer - 1 := u.waitGen[r.layer - 1] + [idx]])
            && (r.progress == Parked && r.layer < 0 ==>
                  && step.state.waitGen == u.waitGen
                  && step.state.waitAna == u.waitAna[-r.layer - 1 := u.waitAna[-r.layer - 1] + [idx]])
  {
    var to := if r.progress == Parked then CallbackList(r.layer) else Stranded;
    assert s.place[idx := InFlight][idx := to] == s.place[idx := to];
  }

  /** Slot idx is in flight for the passage f, which keeps to the layer stack. */
  ghost predicate Flies(s: State, u: State, idx: nat, f: Flow) {
    && Shape(u) && Taken(s, u, idx) && u.tail < |u.ready| && u.ready[u.tail] == -1 && InStack(|u.hooks|, f.layer)
    && var r := Run(u.hooks, f);
    InStack(|u.hooks|, r.layer) && (r.progress == Parked ==> 0 != r.layer <= |u.hooks|)
  }

  /** Where the passage leaves the session. */
  function Final(s: State, u: State, idx: nat, f: Flow): Step
    requires Flies(s, u, idx, f)
  {
    Finish(u, idx, Run(u.hooks, f), true)
  }

  /** The wait lists and the paused id are as they were; generation is open or not, and
      so many trials are live. */
  ghost predicate Beside(u: State, t: State, open: bool, live: int) {
    SameWaits(u, t) && t.pausedId == u.pausedId && t.open == open && t.pendingLen == live
  }

  /** A passage on which everything is accepted. */
  lemma AcceptedEnd(s: State, u: State, idx: nat, f: Flow)
    requires Flies(s, u, idx, f) && f.progress == Running && AllAccept(f.tape)
    ensures var (t, ok) := (Final(s, u, idx, f).state, Final(s, u, idx, f).ok);
            if f.layer > 0 then
              && ok && Queued(s, t, idx, f.trial.point, f.hist + Upward(f.layer, |u.hooks|))
              && Beside(u, t, f.open, u.pendingLen)
            else
              && ok && Analyzed(s, t, idx, f.trial.point, f.hist + Upward(f.layer, -1))
              && Beside(u, t, true, u.pendingLen - 1)
  {
    hide Run, Upward, Finish, Taken, Queued, Analyzed, Shape;
    AcceptedPassage(u.hooks, f);
    var r := Run(u.hooks, f);
    if f.layer > 0 {
      EndsQueued(s, u, idx, f, r, f.hist + Upward(f.layer, |u.hooks|), f.trial.point);
    } else {
      EndsAnalyzed(s, u, idx, f, r, f.hist + Upward(f.layer, -1), f.trial.point);
    }
  }

  /** One that layer k turns round, or starts over, on the way up. */
  lemma ClimbTurned(s: State, u: State, idx: nat, f: Flow, before: seq<LayerReply>, reply: LayerReply,
                    rest: seq<LayerReply>, k: nat)
    requires Flies(s, u, idx, f) && ClimbsTo(u.hooks, f, before, k)
    requires f.tape == before + [reply] + rest && AllAccept(rest)
    requires reply.verdict.Return? || reply.verdict.Retry? ||
             (reply.verdict.Reject? && reply.verdict.reply.Regenerated?)
    ensures var (t, ok) := (Final(s, u, idx, f).state, Final(s, u, idx, f).ok);
            if reply.verdict.Reject? then
              && ok && Queued(s, t, idx, reply.verdict.reply.point, f.hist + Upward(f.layer, k) + Upward(1, |u.hooks|))
              && Beside(u, t, f.open, u.pendingLen)
            else
              && ok && Analyzed(s, t, idx, f.trial.point, f.hist + Upward(f.layer, k) + Upward(0 - k, -1))
              && Beside(u, t, true, u.pendingLen - 1)
  {
    hide Run, Upward, Finish, Taken, Queued, Analyzed, Shape, AllAccept;
    var r, up := Run(u.hooks, f), f.hist + Upward(f.layer, k);
    if reply.verdict.Reject? {
      StartedOver(u.hooks, f, before, reply, rest, k);
      EndsQueued(s, u, idx, f, r, up + Upward(1, |u.hooks|), reply.verdict.reply.point);
    } else {
      TurnedDown(u.hooks, f, before, reply, rest, k);
      EndsAnalyzed(s, u, idx, f, r, up + Upward(0 - k, -1), f.trial.point);
    }
  }

  /** One that layer k turns round on the way down. */
  lemma DescentTurned(s: State, u: State, idx: nat, f: Flow, before: seq<LayerReply>, reply: LayerReply,
                      rest: seq<LayerReply>, k: nat)
    requires Flies(s, u, idx, f) && DescendsTo(u.hooks, f, before, k)
    requires f.tape == before + [reply] + rest && AllAccept(rest)
    requires reply.verdict.Return? || reply.verdict.Retry?
    ensures var (t, ok) := (Final(s, u, idx, f).state, Final(s, u, idx, f).ok);
            && ok && Queued(s, t, idx, f.trial.point, f.hist + Upward(f.layer, 0 - k) + Upward(k, |u.hooks|))
            && Beside(u, t, f.open, u.pendingLen)
  {
    hide Run, Upward, Finish, Taken, Queued, Analyzed, Shape, AllAccept;
    TurnedUp(u.hooks, f, before, reply, rest, k);
    EndsQueued(s, u, idx, f, Run(u.hooks, f), f.hist + Upward(f.layer, 0 - k) + Upward(k, |u.hooks|), f.trial.point);
  }

  /** One that ends at layer k, on the way up or down. */
  lemma EndedAt(s: State, u: State, idx: nat, f: Flow, before: seq<LayerReply>, reply: LayerReply,
                rest: seq<LayerReply>, k: nat)
    requires Flies(s, u, idx, f) && f.tape == before + [reply] + rest
    requires if f.layer > 0 then ClimbsTo(u.hooks, f, before, k) else DescendsTo(u.hooks, f, before, k)
    requires !reply.verdict.Accept? && !reply.verdict.Return? && !reply.verdict.Retry?
    requires reply.verdict.Reject? && f.layer > 0 ==> !reply.verdict.reply.Regenerated?
    ensures var (t, ok, deferred) := (Final(s, u, idx, f).state, Final(s, u, idx, f).ok,
                                      f.layer > 0 && reply.verdict == Reject(Deferred));
            var hist := f.hist + Upward(f.layer, if f.layer > 0 then k else 0 - k);
            && ok == (reply.verdict.Wait? || deferred) && t.pausedId == u.pausedId && t.pendingLen == u.pendingLen
            && t.open == (f.open && !deferred)
            && if !reply.verdict.Wait? then
                 Kept(s, t, idx, Stranded, f.trial.point, hist) && SameWaits(u, t)
               else if f.layer > 0 then
                 && Kept(s, t, idx, WaitGen(k - 1), f.trial.point, hist)
                 && t.waitGen == u.waitGen[k - 1 := u.waitGen[k - 1] + [idx]] && t.waitAna == u.waitAna
               else
                 && Kept(s, t, idx, WaitAna(k - 1), f.trial.point, hist)
                 && t.waitAna == u.waitAna[k - 1 := u.waitAna[k - 1] + [idx]] && t.waitGen == u.waitGen
  {
    hide Run, Upward, Finish, Taken, Kept, Shape, AllAccept;
    if f.layer > 0 {
      ClimbAnswer(u.hooks, f, before, reply, rest, k);
    } else {
      DescentAnswer(u.hooks, f, before, reply, rest, k);
    }
    EndsKept(s, u, idx, Run(u.hooks, f));
  }

  /** A slot in flight may fly, and plugin_workflow takes it to the end. */
  lemma MayFly(s: State, u: State, idx: nat, tape: seq<LayerReply>)
    requires Consistent(u) && OnlyFlight(u, idx) && Leads(|u.hooks|, u.hist[idx], u.layer) && Taken(s, u, idx)
    ensures Shape(u) && u.tail < |u.ready| && u.ready[u.tail] == -1
    ensures var f := Start(u, idx, tape);
            Flies(s, u, idx, f) && PluginWorkflow(u, idx, tape, true) == Final(s, u, idx, f)
  {
    TailIsEmpty(u, idx);
    hide Consistent, Run, Finish;
    RunKeepsHistory(u.hooks, Start(u, idx, tape));
  }

  /** What becomes of a descending trial that was at `layer` when layer k is the first to
      give an answer that is not ACCEPT: it is queued again without the strategy having
      seen it, parked, or given up. */
  ghost predicate DescentOutcome(s: State, t: State, idx: nat, point: Point, hist: seq<int>, open: bool, layer: int,
                                 verdict: Verdict, k: nat)
    requires 1 <= k <= |s.waitAna|
  {
    match verdict
    case Accept => true
    case Return | Retry =>
      && Queued(s, t, idx, point, hist + Upward(layer, 0 - k) + Upward(k, |s.hooks|))
      && SameWaits(s, t) && t.open == open
    case Wait =>
      && Kept(s, t, idx, WaitAna(k - 1), point, hist + Upward(layer, 0 - k))
      && t.waitAna == s.waitAna[k - 1 := s.waitAna[k - 1] + [idx]] && t.waitGen == s.waitGen && t.open == open
    case _ =>
      Kept(s, t, idx, Stranded, point, hist + Upward(layer, 0 - k)) && SameWaits(s, t) && t.open == open
  }

  lemma DescentEnds(s: State, u: State, idx: nat, f: Flow, before: seq<LayerReply>, reply: LayerReply,
                    rest: seq<LayerReply>, k: nat)
    requires Flies(s, u, idx, f) && DescendsTo(u.hooks, f, before, k) && !reply.verdict.Accept?
    requires f.tape == before + [reply] + rest && AllAccept(rest)
    requires SameWaits(s, u) && |s.waitAna| == |u.hooks| == |s.hooks|
    ensures var (t, ok) := (Final(s, u, idx, f).state, Final(s, u, idx, f).ok);
            && ok == (reply.verdict.Return? || reply.verdict.Retry? || reply.verdict.Wait?)
            && t.pausedId == u.pausedId && t.pendingLen == u.pendingLen
            && DescentOutcome(s, t, idx, f.trial.point, f.hist, f.open, f.layer, reply.verdict, k)
  {
    hide Run, Upward, AllAccept, Shape, Flies, Final, Queued, Analyzed, Kept;
    if reply.verdict.Return? || reply.verdict.Retry? {
      DescentTurned(s, u, idx, f, before, reply, rest, k);
    } else {
      EndedAt(s, u, idx, f, before, reply, rest, k);
    }
  }

  // ---- A generated trial -------------------------------------------------

  /** While there is room, the first free slot is found. */
  lemma SlotFound(s: State)
    requires Inv(s) && s.pendingLen < |s.trials|
    ensures Shape(s) && s.tail < |s.ready| && FindId(s.trials, -1) < |s.trials|
    ensures s.place[FindId(s.trials, -1)] == Free && forall j :: 0 <= j < FindId(s.trials, -1) ==> s.place[j] != Free
  {
    TailBelowCap(s);
    RoomMeansFree(s.place);
  }

  lemma SlotNamed(s: State, candId: int, tape: seq<LayerReply>)
    requires Inv(s) && ReportAllowed(s, candId, tape) && FindId(s.trials, candId) < |s.trials|
    ensures Shape(s) && s.tail < |s.ready| && s.place[FindId(s.trials, candId)] == HandedOut
    ensures NamesHandedOut(s, candId) && Consistent(s)
  {
    TailBelowCap(s);
  }

  /** What a generated point starts with, and what generate_trial is then. */
  lemma GeneratedStart(s: State, point: Point, tape: seq<LayerReply>) returns (idx: nat, u: State, f: Flow)
    requires Inv(s) && s.pendingLen < |s.trials| && GenerateAllowed(s, Generated(point), tape)
    ensures Shape(s) && s.tail < |s.ready| && idx == FindId(s.trials, -1) < |s.trials|
    ensures s.place[idx] == Free && forall j :: 0 <= j < idx ==> s.place[j] != Free
    ensures SameWaits(s, u) && u.pendingLen == s.pendingLen + 1 && u.hooks == s.hooks
    ensures f == Flow(1, Trial(point, Unmeasured), tape, [], s.open, Running)
    ensures Flies(s, u, idx, f) && GenerateTrial(s, Generated(point), tape, true) == Final(s, u, idx, f)
  {
    SlotFound(s);
    idx := FindId(s.trials, -1);
    assert FreshFor(s, idx, point);
    hide Inv, Consistent, OnlyFlight, Leads, Flies, Final, PluginWorkflow, Run, GenerateAllowed, FindId, TapeFresh,
         FreshFor;
    LaunchKeeps(s, idx, point);
    u, f := Launch(s, idx, point), Flow(1, Trial(point, Unmeasured), tape, [], s.open, Running);
    MayFly(s, u, idx, tape);
  }

  /** A generated point, by the first answer that is not ACCEPT, given by layer
      k: it goes into the first free slot and is then queued, analyzed without ever
      being handed out, parked, left aside while generation is closed, or given up. */
  lemma GenerateByAnswer(s: State, point: Point, before: seq<LayerReply>, reply: LayerReply, rest: seq<LayerReply>,
                         k: nat)
    requires Inv(s) && s.pendingLen < |s.trials|
    requires GenerateAllowed(s, Generated(point), before + [reply] + rest)
    requires 1 <= k <= |s.hooks| && s.hooks[k - 1].generate
    requires !reply.verdict.Accept?
    requires AllAccept(before) && |before| == GenerateHooks(s.hooks, 1, k) && AllAccept(rest)
    ensures s.tail < |s.ready| && |s.waitGen| == |s.hooks| && Shape(s)
    ensures var idx, L := FindId(s.trials, -1), |s.hooks|;
            var (t, ok) := var step := GenerateTrial(s, Generated(point), before + [reply] + rest, true);
                           (step.state, step.ok);
            && idx < |s.place| && s.place[idx] == Free && (forall j :: 0 <= j < idx ==> s.place[j] != Free)
            && (t.pendingLen == s.pendingLen + if reply.verdict.Return? || reply.verdict.Retry? then 0 else 1)
            && match reply.verdict
               case Return | Retry =>
                 ok && Analyzed(s, t, idx, point, Upward(1, k) + Upward(0 - k, -1)) && SameWaits(s, t)
               case Wait =>
                 && ok && Kept(s, t, idx, WaitGen(k - 1), point, Upward(1, k)) && t.open == s.open
                 && t.waitGen == s.waitGen[k - 1 := s.waitGen[k - 1] + [idx]] && t.waitAna == s.waitAna
               case Reject(Regenerated(other)) =>
                 && ok && Queued(s, t, idx, other, Upward(1, k) + Upward(1, L)) && SameWaits(s, t)
                 && t.open == s.open
               case Reject(Deferred) =>
                 ok && Kept(s, t, idx, Stranded, point, Upward(1, k)) && SameWaits(s, t) && !t.open
               case _ => !ok && Kept(s, t, idx, Stranded, point, Upward(1, k)) && SameWaits(s, t)
  {
    var idx, u, f := GeneratedStart(s, point, before + [reply] + rest);
    hide Inv, Leads, Run, Upward, AllAccept, FindId, GenerateAllowed, GenerateTrial, Shape,
         Launch, Flies, Final, Queued, Analyzed, Kept;
    assert forall h: seq<int> :: [] + h == h;
    if reply.verdict.Return? || reply.verdict.Retry? ||
       (reply.verdict.Reject? && reply.verdict.reply.Regenerated?) {
      ClimbTurned(s, u, idx, f, before, reply, rest, k);
    } else {
      EndedAt(s, u, idx, f, before, reply, rest, k);
    }
  }

  // ---- A reported trial --------------------------------------------------

  /** What a report of a trial handed out starts with, and what handle_report is then. */
  lemma ReportedStart(s: State, candId: int, perf: Perf, tape: seq<LayerReply>) returns (idx: nat, u: State, f: Flow)
    requires Inv(s) && ReportAllowed(s, candId, tape) && FindId(s.trials, candId) < |s.trials|
    ensures Shape(s) && s.tail < |s.ready| && idx == FindId(s.trials, candId)
    ensures s.place[idx] == HandedOut && s.trials[idx].point.id == candId
    ensures SameWaits(s, u) && u.pendingLen == s.pendingLen && u.pausedId == 0 && u.hooks == s.hooks
    ensures f == Flow(0 - |s.hooks|, Trial(s.trials[idx].point, perf), tape, s.hist[idx], s.open, Running)
    ensures Flies(s, u, idx, f)
    ensures var step := Final(s, u, idx, f);
            Report(s, candId, perf, tape, true) == (step.state, if step.ok then Accepted else Broken)
  {
    SlotNamed(s, candId, tape);
    idx := FindId(s.trials, candId);
    u := Reported(s, idx, perf);
    f := Flow(0 - |s.hooks|, Trial(s.trials[idx].point, perf), tape, s.hist[idx], s.open, Running);
    assert Start(u, idx, tape) == f && Taken(s, u, idx);
    hide Inv, Consistent, OnlyFlight, Leads, Flies, Final, PluginWorkflow, Run, ReportAllowed, FindId, NamesHandedOut,
         Taken, Start, Reported;
    ReportedKeeps(s, idx, perf);
    MayFly(s, u, idx, tape);
  }

  /** A report of a trial handed out, by the first answer that is not ACCEPT, given by
      layer k: it is queued again without the strategy having seen it, parked, or given
      up. */
  lemma ReportByAnswer(s: State, candId: int, perf: Perf, before: seq<LayerReply>, reply: LayerReply,
                       rest: seq<LayerReply>, k: nat) returns (idx: nat, t: State, answer: ReportReply)
    requires Inv(s) && ReportAllowed(s, candId, before + [reply] + rest) && FindId(s.trials, candId) < |s.trials|
    requires 1 <= k <= |s.hooks| && s.hooks[k - 1].analyze
    requires !reply.verdict.Accept?
    requires AllAccept(before) && |before| == AnalyzeHooks(s.hooks, |s.hooks|, k) && AllAccept(rest)
    ensures (t, answer) == Report(s, candId, perf, before + [reply] + rest, true)
    ensures Shape(s) && idx < |s.trials| && s.place[idx] == HandedOut && s.trials[idx].point.id == candId
    ensures t.pausedId == 0 && t.pendingLen == s.pendingLen
    ensures answer == if reply.verdict.Return? || reply.verdict.Retry? || reply.verdict.Wait? then Accepted else Broken
    ensures DescentOutcome(s, t, idx, s.trials[idx].point, s.hist[idx], s.open, 0 - |s.hooks|, reply.verdict, k)
  {
    var u, f;
    idx, u, f := ReportedStart(s, candId, perf, before + [reply] + rest);
    var step := Final(s, u, idx, f);
    t, answer := step.state, if step.ok then Accepted else Broken;
    hide Inv, Consistent, Run, Upward, AllAccept, FindId, ReportAllowed, NamesHandedOut, Report, OnlySlot, Reported,
         Flies, Final, DescentOutcome;
    DescentEnds(s, u, idx, f, before, reply, rest, k);
  }

  /** A report of a trial handed out is accepted exactly if no plug-in fails or answers
      outside the protocol on its way down, and answered with an error otherwise. */
  lemma ReportAnswers(s: State, candId: int, perf: Perf, tape: seq<LayerReply>, analyzeOk: bool)
    requires Inv(s) && ReportAllowed(s, candId, tape) && FindId(s.trials, candId) < |s.trials|
    ensures |s.hist| == |s.trials|
    ensures var idx := FindId(s.trials, candId);
            var f := Flow(0 - |s.hooks|, Trial(s.trials[idx].point, perf), tape, s.hist[idx], s.open, Running);
            var r := Run(s.hooks, f);
            Report(s, candId, perf, tape, analyzeOk).1 ==
            if r.progress == Failed || (r.progress == Running && r.layer == 0 && !analyzeOk) then Broken else Accepted
  {
    var idx := FindId(s.trials, candId);
    SlotNamed(s, candId, tape);
    assert TapeFresh(s, idx, tape) && s.trials[idx].point.id >= 0;
    var u := Reported(s, idx, perf);
    assert Start(u, idx, tape) ==
           Flow(0 - |s.hooks|, Trial(s.trials[idx].point, perf), tape, s.hist[idx], s.open, Running);
    hide Inv, Consistent, OnlyFlight, Leads, TapeFresh, PluginWorkflow, Run, FindId, NamesHandedOut, Start;
    ReportedKeeps(s, idx, perf);
    StillFresh(s, u, idx, tape);
    TailBelowCap(u);
    WorkflowFails(u, idx, tape, analyzeOk);
  }

  // ---- A parked trial ----------------------------------------------------

  /** The k-th entry is gone and the last one in its place. */
  ghost predicate Without(xs: seq<nat>, k: nat, ys: seq<nat>) {
    |ys| + 1 == |xs| && forall j :: 0 <= j < |ys| ==> ys[j] == xs[if j == k then |ys| else j]
  }

  /** The k-th trial has left the list its layer keeps for this direction. */
  ghost predicate LeftList(s: State, t: State, index: int, k: nat)
    requires Shape(s) && index != 0 && IsList(|s.hooks|, CallbackList(index))
  {
    if index < 0 then
      var l := -index - 1;
      && t.waitGen == s.waitGen && |t.waitAna| == |s.waitAna| && Without(s.waitAna[l], k, t.waitAna[l])
      && forall m :: 0 <= m < |s.waitAna| && m != l ==> t.waitAna[m] == s.waitAna[m]
    else
      var l := index - 1;
      && t.waitAna == s.waitAna && |t.waitGen| == |s.waitGen| && Without(s.waitGen[l], k, t.waitGen[l])
      && forall m :: 0 <= m < |s.waitGen| && m != l ==> t.waitGen[m] == s.waitGen[m]
  }

  /** What a callback's answer sends a parked trial on with, and what handle_callback is
      then. */
  lemma AnsweredStart(s: State, index: int, k: nat, answer: LayerReply, tape: seq<LayerReply>)
    returns (idx: nat, u: State, f: Flow)
    requires Inv(s) && CallbackAllowed(s, index, k, answer, tape) && ListAt(s, CallbackList(index)) != []
    requires answer.verdict.Accept? || answer.verdict.Return? || answer.verdict.Retry? ||
             (index > 0 && answer.verdict.Reject? && answer.verdict.reply.Regenerated?)
    ensures Shape(s) && idx == ListAt(s, CallbackList(index))[k] < |s.trials|
    ensures f == Flow(match answer.verdict case Accept => index + 1 case Return | Retry => -index case _ => 1,
                      Trial(if answer.verdict.Reject? then answer.verdict.reply.point else s.trials[idx].point,
                            answer.perf),
                      tape, s.hist[idx], s.open, Running)
    ensures LeftList(s, u, index, k) && u.pendingLen == s.pendingLen && u.pausedId == s.pausedId && u.hooks == s.hooks
    ensures Flies(s, u, idx, f) && Callback(s, index, k, answer, tape, true) == Final(s, u, idx, f)
  {
    assert Shape(s);
    idx := CallbackSlot(s, index, k);
    var g := CallbackFlow(s, index, idx, answer);
    CallbackLeads(s, index, idx, answer);
    hide Inv, Consistent, OnlyFlight, Leads, Flies, Final, PluginWorkflow, Run, TapeFresh;
    CallbackAbsorbed(s, index, k, answer, tape);
    u := Unpark(Absorb(s, idx, g), index, k);
    f := Flow(g.layer, g.trial, tape, s.hist[idx], s.open, Running);
    UnparkTakes(s, index, k, idx, g, tape);
    CallbackResumes(s, index, k, idx, g, tape);
    hide Absorb, Unpark, Start, Taken, LeftList, Shape, CallbackFlow, FreshFor;
    MayFly(s, u, idx, tape);
  }

  lemma UnparkTakes(s: State, index: int, k: nat, idx: nat, f: Flow, tape: seq<LayerReply>)
    requires Shape(s) && index != 0 && IsList(|s.hooks|, CallbackList(index)) && idx < |s.trials|
    requires k < |ListAt(s, CallbackList(index))| && ListAt(s, CallbackList(index))[k] == idx
    requires InStack(|s.hooks|, f.layer) && f.open == s.open && f.hist == s.hist[idx]
    ensures ListAt(Absorb(s, idx, f), CallbackList(index)) == ListAt(s, CallbackList(index))
    ensures var u := Unpark(Absorb(s, idx, f), index, k);
            && Taken(s, u, idx) && LeftList(s, u, index, k) && u.pendingLen == s.pendingLen
            && u.pausedId == s.pausedId
            && Start(u, idx, tape) == Flow(f.layer, f.trial, tape, s.hist[idx], s.open, Running)
  {}

  /** A callback, by its answer, all layers behind it accepting: ACCEPT sends the trial on,
      RETURN and RETRY the other way through the same layer, REJECT from a generate hook
      back to the first layer with the point supplied; anything else leaves it parked. */
  lemma CallbackByAnswer(s: State, index: int, k: nat, answer: LayerReply, tape: seq<LayerReply>)
    requires Inv(s) && CallbackAllowed(s, index, k, answer, tape) && ListAt(s, CallbackList(index)) != []
    requires !answer.verdict.Wait? && AllAccept(tape)
    ensures Shape(s)
    ensures var idx, L := ListAt(s, CallbackList(index))[k], |s.hooks|;
            var (t, ok) := var step := Callback(s, index, k, answer, tape, true); (step.state, step.ok);
            && idx < |s.trials| && t.pausedId == s.pausedId
            && var point, hist := s.trials[idx].point, s.hist[idx];
            match answer.verdict
            case Accept =>
              && ok && LeftList(s, t, index, k)
              && if index > 0 then Queued(s, t, idx, point, hist + Upward(index + 1, L)) && t.open == s.open
                 else Analyzed(s, t, idx, point, hist + Upward(index + 1, -1))
            case Return | Retry =>
              && ok && LeftList(s, t, index, k)
              && if index > 0 then Analyzed(s, t, idx, point, hist + Upward(-index, -1))
                 else Queued(s, t, idx, point, hist + Upward(-index, L)) && t.open == s.open
            case Reject(Regenerated(other)) =>
              if index > 0 then
                && ok && LeftList(s, t, index, k) && Queued(s, t, idx, other, hist + Upward(1, L))
                && t.open == s.open
              else !ok && Kept(s, t, idx, s.place[idx], point, hist) && SameWaits(s, t) && t.open == s.open
            case _ =>
              && Kept(s, t, idx, s.place[idx], point, hist) && SameWaits(s, t)
              && var deferred := index > 0 && answer.verdict == Reject(Deferred);
              ok == deferred && t.open == (s.open && !deferred)
  {
    if answer.verdict.Accept? || answer.verdict.Return? || answer.verdict.Retry? ||
       (index > 0 && answer.verdict.Reject? && answer.verdict.reply.Regenerated?) {
      var idx, u, f := AnsweredStart(s, index, k, answer, tape);
      hide Inv, Consistent, Run, Upward, AllAccept, CallbackAllowed, Callback, Shape, Flies, Final, Queued, Analyzed,
           Kept;
      AcceptedEnd(s, u, idx, f);
    } else {
      AnswerLeft(s, index, k, answer, tape);
    }
  }

  /** An answer after which the trial stays where it is. */
  lemma AnswerLeft(s: State, index: int, k: nat, answer: LayerReply, tape: seq<LayerReply>)
    requires Inv(s) && CallbackAllowed(s, index, k, answer, tape) && ListAt(s, CallbackList(index)) != []
    requires match answer.verdict
             case Accept | Return | Retry | Wait => false
             case Reject(Regenerated(_)) => index < 0
             case _ => true
    ensures var idx := ListAt(s, CallbackList(index))[k];
            var (t, ok) := var step := Callback(s, index, k, answer, tape, true); (step.state, step.ok);
            var deferred := index > 0 && answer.verdict == Reject(Deferred);
            && idx < |s.trials| == |s.hist| && t.pausedId == s.pausedId
            && Kept(s, t, idx, s.place[idx], s.trials[idx].point, s.hist[idx]) && SameWaits(s, t)
            && ok == deferred && t.open == (s.open && !deferred)
  {
    var idx := CallbackSlot(s, index, k);
    CallbackLeads(s, index, idx, answer);
    assert Shape(s) && s.place[idx := s.place[idx]] == s.place;
    hide Inv, Consistent, Leads, Linked, PluginWorkflow, TapeFresh;
  }

  // ---- When points are asked for -----------------------------------------

  /** A strategy that gives no point changes nothing about any trial: if it asks to wait,
      generation is closed; if it fails, so does generate_trial, and generation is as it was. */
  lemma NoPointGiven(s: State, reply: GenerateReply, tape: seq<LayerReply>)
    requires Inv(s) && s.pendingLen < |s.trials| && !reply.Generated?
    ensures s.tail < |s.ready|
    ensures var step := GenerateTrial(s, reply, tape, true);
            && step.ok == reply.NotYet? && step.state.open == (s.open && !reply.NotYet?)
            && |step.state.trials| == |s.trials|
            && step.state == s.(open := step.state.open, trials := step.state.trials)
            && forall i :: 0 <= i < |s.trials| ==> step.state.trials[i].point == s.trials[i].point
  {
    SlotFound(s);
  }

  /** Between two states: the strategy has been given no trial, and generation is open
      only if it was, or it has been given one, and generation is open. */
  ghost predicate OpensOnlyByAnalysis(s: State, t: State) {
    && s.analyzed <= t.analyzed
    && (if |s.analyzed| < |t.analyzed| then t.open else t.open ==> s.open)
  }

  lemma WorkflowOpens(s: State, idx: nat, tape: seq<LayerReply>, analyzeOk: bool)
    requires Shape(s) && idx < |s.trials| && s.tail < |s.ready| && Leads(|s.hooks|, s.hist[idx], s.layer)
    ensures OpensOnlyByAnalysis(s, PluginWorkflow(s, idx, tape, analyzeOk).state)
  {
    RunKeepsHistory(s.hooks, Start(s, idx, tape));
    RunOpen(s.hooks, Start(s, idx, tape));
    hide Run, Leads;
  }

  lemma GenerateOpens(s: State, reply: GenerateReply, tape: seq<LayerReply>, analyzeOk: bool)
    requires Inv(s) && s.pendingLen < |s.trials| && GenerateAllowed(s, reply, tape)
    ensures s.tail < |s.ready| && OpensOnlyByAnalysis(s, GenerateTrial(s, reply, tape, analyzeOk).state)
  {
    SlotFound(s);
    hide Inv, Consistent, OnlyFlight, Leads, PluginWorkflow, FindId, TapeFresh;
    if reply.Generated? {
      var idx := FindId(s.trials, -1);
      LaunchKeeps(s, idx, reply.point);
      WorkflowOpens(Launch(s, idx, reply.point), idx, tape, analyzeOk);
    }
  }

  lemma ReportOpens(s: State, candId: int, perf: Perf, tape: seq<LayerReply>, analyzeOk: bool)
    requires Inv(s) && ReportAllowed(s, candId, tape)
    ensures OpensOnlyByAnalysis(s, Report(s, candId, perf, tape, analyzeOk).0)
  {
    if FindId(s.trials, candId) < |s.trials| {
      SlotNamed(s, candId, tape);
      hide Inv, Consistent, OnlyFlight, Leads, PluginWorkflow, FindId, TapeFresh;
      var idx := FindId(s.trials, candId);
      ReportedKeeps(s, idx, perf);
      WorkflowOpens(Reported(s, idx, perf), idx, tape, analyzeOk);
    }
  }

  lemma CallbackOpens(s: State, index: int, k: nat, answer: LayerReply, tape: seq<LayerReply>, analyzeOk: bool)
    requires Inv(s) && CallbackAllowed(s, index, k, answer, tape) && answer.verdict != Wait
    ensures OpensOnlyByAnalysis(s, Callback(s, index, k, answer, tape, analyzeOk).state)
  {
    assert Shape(s);
    hide Inv, Consistent, OnlyFlight, Leads, PluginWorkflow, TapeFresh, CallbackFlow;
    if ListAt(s, CallbackList(index)) != [] {
      var idx := CallbackSlot(s, index, k);
      var f := CallbackFlow(s, index, idx, answer);
      CallbackLeads(s, index, idx, answer);
      AnswerOpens(s, index, idx, answer);
      CallbackAbsorbed(s, index, k, answer, tape);
      if f.progress == Running {
        CallbackResumes(s, index, k, idx, f, tape);
        WorkflowOpens(Unpark(Absorb(s, idx, f), index, k), idx, tape, analyzeOk);
      }
    }
  }

  lemma AnswerOpens(s: State, index: int, idx: nat, answer: LayerReply)
    requires idx < |s.trials| && idx < |s.hist|
    ensures CallbackFlow(s, index, idx, answer).open ==> s.open
  {}

  /** Only an analysis reopens generation, and it always does. */
  lemma StepOpens(s: State, e: Event)
    requires Inv(s) && Allowed(s, e)
    ensures OpensOnlyByAnalysis(s, Apply(s, e))
  {
    TailBelowCap(s);
    FetchReady(s);
    assert s.tail <= |s.ready|;
    hide Inv, Consistent, OpensOnlyByAnalysis, GenerateTrial, Callback, Report, GenerateAllowed, CallbackAllowed,
         ReportAllowed;
    match e
    case GenerateEvent(reply, tape, analyzeOk) => GenerateOpens(s, reply, tape, analyzeOk);
    case CallbackEvent(index, k, answer, tape, analyzeOk) => CallbackOpens(s, index, k, answer, tape, analyzeOk);
    case ReportEvent(candId, perf, tape, analyzeOk) => ReportOpens(s, candId, perf, tape, analyzeOk);
    case FetchEvent(_, _) => SameOpens(s, Apply(s, e));
    case JoinEvent(_) => SameOpens(s, Apply(s, e));
  }

  lemma SameOpens(s: State, t: State)
    requires t.analyzed == s.analyzed && t.open == s.open
    ensures OpensOnlyByAnalysis(s, t)
  {}

  /** Over every run: once generation is closed, by the strategy or by a deferred
      rejection, no point is asked for until the strategy is given a trial. */
  lemma {:induction false} ClosedUntilAnalysis(states: seq<State>, events: seq<Event>, n: nat, m: nat)
    requires IsRun(states, events) && n <= m < |states| && !states[n].open
    ensures states[n].analyzed <= states[m].analyzed
    ensures states[m].analyzed == states[n].analyzed ==>
              !states[m].open && forall j :: n <= j < m ==> !events[j].GenerateEvent?
    decreases m - n
  {
    if n < m {
      ClosedUntilAnalysis(states, events, n, m - 1);
      RunSafe(states, events, m - 1);
      assert StepTo(states[m - 1], events[m - 1], states[m]);
      StepOpens(states[m - 1], events[m - 1]);
    }
  }
}
