/** The client library and the session as one system: a client that fetches
    and reports in any order, while the session generates trials, runs
    callbacks and grows its lists. */
module Protocol {
  import opened Ring
  import opened Workflow
  import opened Pipeline
  import opened PipelineInvariant
  import opened PipelineRuns
  import SessionCore

  // ---- What a step does to the ids ---------------------------------------

  function AnalyzedIds(s: State): set<int> {
    set k | 0 <= k < |s.analyzed| :: s.analyzed[k].trial.point.id
  }

  function LiveIds(s: State): set<int> {
    set i | 0 <= i < |s.trials| && s.trials[i].point.id != -1 :: s.trials[i].point.id
  }

  /** The ids of the points the strategy regenerates on a tape. */
  function TapeIds(tape: seq<LayerReply>): set<int> {
    set n | 0 <= n < |tape| && tape[n].verdict.Reject? && tape[n].verdict.reply.Regenerated?
      :: tape[n].verdict.reply.point.id
  }

  /** Slot idx alone changes; its trial keeps its id or takes one of `ids`, or it
      is analyzed under such an id and its slot freed. */
  ghost predicate TouchesOnly(s: State, t: State, idx: nat, own: int, ids: set<int>) {
    && |t.trials| == |s.trials| == |s.place| == |t.place| && idx < |s.trials|
    && (forall i :: 0 <= i < |s.trials| && i != idx ==> t.trials[i] == s.trials[i] && t.place[i] == s.place[i])
    && t.pausedId == s.pausedId
    && (|| (t.analyzed == s.analyzed && t.trials[idx].point.id in ids + {own})
        || (&& t.trials[idx].point.id == -1
            && exists a :: t.analyzed == s.analyzed + [a] && a.trial.point.id in ids + {own}))
  }

  lemma WorkflowTouches(s: State, idx: nat, tape: seq<LayerReply>, analyzeOk: bool)
    requires Shape(s) && idx < |s.trials| && s.tail < |s.ready| && Leads(|s.hooks|, s.hist[idx], s.layer)
    ensures TouchesOnly(s, PluginWorkflow(s, idx, tape, analyzeOk).state, idx, s.trials[idx].point.id, TapeIds(tape))
  {
    var f := Start(s, idx, tape);
    var r := Run(s.hooks, f);
    RunKeepsHistory(s.hooks, f);
    RunPoint(s.hooks, f);
    var own, ids := s.trials[idx].point.id, TapeIds(tape);
    assert r.trial.point.id in ids + {own};
    var t := PluginWorkflow(s, idx, tape, analyzeOk).state;
    assert t == Finish(s, idx, r, analyzeOk).state;
    hide Linked, Run, Leads;
    if r.progress == Running && r.layer == 0 && analyzeOk {
      assert t.analyzed == s.analyzed + [Analysis(r.trial, r.hist)];
    }
  }

  // ---- The client --------------------------------------------------------

  datatype Phase = Fresh | Connected | Joined | Testing | Converged

  predicate IsConnected(p: Phase) {
    p != Fresh
  }

  /** What harmony_report and its kin compare the state with TESTING for. */
  predicate HasTrial(p: Phase) {
    p == Testing || p == Converged
  }

  /** The client's state, the point under test, and the best point it has seen. */
  datatype ClientView = ClientView(phase: Phase, curr: Point, best: Point)

  /** update_best. */
  function NewerBest(best: Point, offered: Point): Point {
    if best.id >= offered.id then best else offered
  }

  /** harmony_fetch, from the reply on; the result code is what the caller sees. */
  function AfterFetch(c: ClientView, reply: FetchReply, valuesOk: bool): (r: (ClientView, int)) {
    match reply
    case Busy(best) =>
      var newer := NewerBest(c.best, best);
      if newer.id == -1 then (c.(best := newer), 0)
      else if valuesOk then (ClientView(Testing, newer, newer), 1)
      else (c.(curr := newer, best := newer), -1)
    case Candidate(point) =>
      if valuesOk then (c.(phase := Testing, curr := point), 1) else (c.(curr := point), -1)
  }

  /** harmony_report, from the reply on. */
  function AfterReport(c: ClientView, reply: ReportReply): (r: (ClientView, int)) {
    if reply == Accepted then (c.(phase := Joined), 0) else (c, -1)
  }

  /** Whether harmony_report sends a message. */
  predicate Sends(c: ClientView, complete: bool) {
    HasTrial(c.phase) && complete
  }

  class Client {
    var phase: Phase
    var curr: Point
    var best: Point

    function View(): ClientView
      reads this
    {
      ClientView(phase, curr, best)
    }

    constructor ()
      ensures View() == ClientView(Fresh, NO_POINT, NO_POINT)
    {
      phase, curr, best := Fresh, NO_POINT, NO_POINT;
    }

    method UpdateBest(offered: Point)
      modifies this`best
      ensures best == NewerBest(old(best), offered)
      ensures best == old(best) || best == offered
      ensures old(best.id) <= best.id && offered.id <= best.id
      ensures offered.id == old(best.id) ==> best == old(best)
    {
      if best.id >= offered.id {
        return;
      }
      best := offered;
    }

    /** harmony_fetch against a session. */
    method Fetch(server: SessionCore.Session, paused: bool, serverBest: Point, valuesOk: bool) returns (code: int)
      requires server.Valid()
      modifies this, server, server.ready
      ensures server.Valid() && server.ready == old(server.ready)
      ensures !IsConnected(old(phase)) ==> code == -1 && View() == old(View()) && server.view == old(server.view)
      ensures IsConnected(old(phase)) ==>
                && old(server.view.head < |server.view.ready|)
                && old(server.view.ready[server.view.head] < |server.view.trials|)
                && old(server.view.ready[server.view.head] >= 0 ==> server.view.queue != [])
                && var (after, reply) := Pipeline.Fetch(old(server.view), paused, serverBest);
                server.view == after && (View(), code) == AfterFetch(old(View()), reply, valuesOk)
      ensures var handed := !paused && old(server.view.queue) != [];
              var known := old(best.id) != -1 || serverBest.id != -1;
              old(best.id) >= -1 && serverBest.id >= -1 ==>
                && (code == 1 <==> old(phase) != Fresh && valuesOk && (handed || known))
                && (code == 0 <==> old(phase) != Fresh && !handed && !known)
                && (code == -1 <==> old(phase) == Fresh || (!valuesOk && (handed || known)))
                && (code == 1 ==> phase == Testing)
    {
      hide Inv, Consistent, Waiting, Pipeline.Fetch;
      if !IsConnected(phase) {
        return -1;
      }
      var reply := server.HandleFetch(paused, serverBest);
      match reply {
        case Busy(offered) =>
          UpdateBest(offered);
          if best.id == -1 {
            return 0;
          }
          curr := best;
        case Candidate(point) =>
          curr := point;
      }
      if !valuesOk {
        return -1;
      }
      phase := Testing;
      code := 1;
    }

    /** harmony_report against a session. */
    method Report(server: SessionCore.Session, perf: Perf, complete: bool, tape: seq<LayerReply>, analyzeOk: bool)
      returns (code: int)
      requires server.Valid()
      requires Sends(View(), complete) ==> ReportAllowed(server.view, curr.id, tape)
      modifies this, server, server.ready, server.lstack
      ensures server.Valid() && server.ready == old(server.ready)
      ensures !Sends(old(View()), complete) ==>
                View() == old(View()) && server.view == old(server.view) &&
                code == if IsConnected(old(phase)) && !HasTrial(old(phase)) then 0 else -1
      ensures Sends(old(View()), complete) ==>
                var (after, reply) := Pipeline.Report(old(server.view), old(curr.id), perf, tape, analyzeOk);
                server.view == after && (View(), code) == AfterReport(old(View()), reply)
      ensures code == 0 || code == -1
      ensures curr == old(curr) && best == old(best)
      ensures phase == if HasTrial(old(phase)) && code == 0 then Joined else old(phase)
      ensures code == 0 <==>
                || old(phase) == Connected || old(phase) == Joined
                || (&& (old(phase) == Testing || old(phase) == Converged) && complete
                    && Pipeline.Report(old(server.view), old(curr.id), perf, tape, analyzeOk).1 == Accepted)
    {
      hide Inv, Consistent, Pipeline.Report;
      if !IsConnected(phase) {
        return -1;
      }
      if !HasTrial(phase) {
        return 0;
      }
      if !complete {
        return -1;
      }
      var reply := server.HandleReport(curr.id, perf, tape, analyzeOk);
      if reply != Accepted {
        return -1;
      }
      phase := Joined;
      code := 0;
    }
  }

  /** What a fetch tells the caller.  1: a trial was handed out, the one that has waited
      longest, or in its place the best point known, which is now under test.  0: no
      trial, and no best point is known to client or strategy; nothing is under test
      that was not before.  -1: the values could not be set. */
  lemma FetchTells(c: ClientView, s: State, paused: bool, best: Point, valuesOk: bool)
    requires Inv(s) && c.best.id >= -1 && best.id >= -1
    ensures s.head < |s.ready| && s.ready[s.head] < |s.trials| && (s.ready[s.head] >= 0 ==> s.queue != [])
    ensures var handed, known := !paused && s.queue != [], c.best.id != -1 || best.id != -1;
            var (after, code) := AfterFetch(c, Fetch(s, paused, best).1, valuesOk);
            && (code == 1 <==> valuesOk && (handed || known))
            && (code == 0 <==> !handed && !known)
            && (code == -1 <==> !valuesOk && (handed || known))
            && (code == 1 ==> after.phase == Testing)
            && (code == 0 ==> after.phase == c.phase && after.curr == c.curr && after.best.id == -1)
            && (code == -1 ==> after.phase == c.phase)
            && (code != 0 ==>
                  if handed then s.queue[0] < |s.trials| && after.curr == s.trials[s.queue[0]].point
                  else after.curr == after.best && after.curr.id != -1)
            && if handed then after.best == c.best
               else
                 && (after.best == c.best || after.best == best)
                 && after.best.id >= c.best.id && after.best.id >= best.id
                 && (best.id == c.best.id ==> after.best == c.best)
  {
    FetchReady(s);
    hide Inv, Consistent;
  }

  // ---- The system --------------------------------------------------------

  /** `used` are the ids given out so far, `lastBest` the largest best id the
      strategy has named; `alive` is false once the session has answered a
      report with an error and ended. */
  datatype System = System(client: ClientView, server: State, used: set<int>, lastBest: int, alive: bool)

  datatype Move =
    | ServerMove(event: Event)
    | FetchMove(paused: bool, best: Point, valuesOk: bool)
    | ReportMove(perf: Perf, complete: bool, tape: seq<LayerReply>, analyzeOk: bool)
    | BestMove(best: Point)

  /** The id a callback's answer gives the parked trial, if it is a new one. */
  ghost function AnswerIds(s: State, index: int, k: nat, answer: LayerReply): set<int>
    requires Consistent(s) && index != 0 && IsList(|s.hooks|, CallbackList(index))
    requires k < |ListAt(s, CallbackList(index))|
  {
    TapeIds([answer]) - {s.trials[CallbackSlot(s, index, k)].point.id}
  }

  /** The ids the rest of a callback gives it, if they are new ones. */
  ghost function ResumeIds(s: State, index: int, k: nat, answer: LayerReply, tape: seq<LayerReply>): set<int>
    requires Consistent(s) && index != 0 && IsList(|s.hooks|, CallbackList(index))
    requires k < |ListAt(s, CallbackList(index))|
  {
    TapeIds(tape) - {CallbackFlow(s, index, CallbackSlot(s, index, k), answer).trial.point.id}
  }

  /** The ids a step of the session itself introduces: the generated point's and
      those regenerated for a trial, apart from the id it has anyway. */
  ghost function NewIds(s: State, e: Event): set<int>
    requires Inv(s) && Allowed(s, e)
  {
    match e
    case GenerateEvent(reply, tape, _) => if reply.Generated? then TapeIds(tape) + {reply.point.id} else {}
    case CallbackEvent(index, k, answer, tape, _) =>
      if ListAt(s, CallbackList(index)) == [] then {}
      else AnswerIds(s, index, k, answer) + ResumeIds(s, index, k, answer, tape)
    case _ => {}
  }

  /** None of them has been given out before. */
  ghost predicate IdsAreNew(s: State, e: Event, used: set<int>)
    requires Inv(s) && Allowed(s, e)
  {
    match e
    case CallbackEvent(index, k, answer, tape, _) =>
      ListAt(s, CallbackList(index)) != [] ==>
        && AnswerIds(s, index, k, answer) !! used
        && ResumeIds(s, index, k, answer, tape) !! used + AnswerIds(s, index, k, answer)
    case _ => NewIds(s, e) !! used
  }

  /** strategy_best names an analyzed trial, or none yet, and never falls back. */
  ghost predicate BestAllowed(sys: System, best: Point) {
    && (best.id == -1 || best.id in AnalyzedIds(sys.server))
    && best.id >= sys.lastBest
  }

  /** A step of the session itself, with ids that are new. */
  ghost predicate SessionMayDo(s: State, e: Event, used: set<int>)
    requires Inv(s)
  {
    (e.GenerateEvent? || e.CallbackEvent? || e.JoinEvent?) && Allowed(s, e) && IdsAreNew(s, e, used)
  }

  /** The session's steps keep to the plug-ins' contracts and ids are never
      reused: what a move introduces has not been given out before. */
  ghost predicate MoveAllowed(sys: System, m: Move)
    requires Inv(sys.server)
  {
    sys.alive &&
    match m
    case ServerMove(e) => SessionMayDo(sys.server, e, sys.used)
    case FetchMove(_, best, _) => IsConnected(sys.client.phase) && BestAllowed(sys, best)
    case ReportMove(_, complete, tape, _) =>
      Sends(sys.client, complete) ==>
        TapeFresh(sys.server, FindId(sys.server.trials, sys.client.curr.id), tape) &&
        TapeIds(tape) - {sys.client.curr.id} !! sys.used
    case BestMove(best) => IsConnected(sys.client.phase) && BestAllowed(sys, best)
  }

  ghost predicate HandedId(s: State, id: int) {
    |s.place| == |s.trials| &&
    exists i :: 0 <= i < |s.trials| && s.trials[i].point.id == id && s.place[i] == HandedOut
  }

  /** The client's point under test names a trial handed out, or it is the point
      the session last sent in place of a trial. */
  ghost predicate ReportLegal(c: ClientView, s: State, lastBest: int) {
    HandedId(s, c.curr.id) || (c.curr.id == s.pausedId && c.curr.id in AnalyzedIds(s) && c.curr.id <= lastBest)
  }

  /** Ids in use and ids of analyzed trials are on record, and apart. */
  ghost predicate Tracked(s: State, used: set<int>) {
    && LiveIds(s) <= used && AnalyzedIds(s) <= used
    && AnalyzedIds(s) !! LiveIds(s)
    && (forall id :: id in AnalyzedIds(s) ==> id >= 0)
  }

  ghost predicate SystemInv(sys: System) {
    && Inv(sys.server)
    && (sys.alive ==>
          && Tracked(sys.server, sys.used)
          && -1 <= sys.client.best.id <= sys.lastBest
          && sys.client.phase != Converged
          && (sys.client.phase == Testing ==> ReportLegal(sys.client, sys.server, sys.lastBest)))
  }

  /** An id that is legal to report names no slot but one handed out. */
  lemma LegalNamesHandedOut(s: State, c: ClientView, lastBest: int)
    requires Inv(s) && AnalyzedIds(s) !! LiveIds(s) && ReportLegal(c, s, lastBest)
    requires forall id :: id in AnalyzedIds(s) ==> id >= 0
    ensures NamesHandedOut(s, c.curr.id)
    ensures c.curr.id == s.pausedId || FindId(s.trials, c.curr.id) < |s.trials|
  {
    var id := c.curr.id;
    if HandedId(s, id) {
      var i :| 0 <= i < |s.trials| && s.trials[i].point.id == id && s.place[i] == HandedOut;
      assert s.place[i] != Free;
    } else {
      forall i | 0 <= i < |s.trials|
        ensures s.trials[i].point.id != id
      {
        assert s.trials[i].point.id == -1 || s.trials[i].point.id in LiveIds(s);
      }
    }
  }

  /** In every reachable state of the system a report that is sent names a trial
      handed out or the paused point, so it is never answered as a rogue point. */
  lemma ReportNotRogue(sys: System, perf: Perf, complete: bool, tape: seq<LayerReply>, analyzeOk: bool)
    requires SystemInv(sys) && MoveAllowed(sys, ReportMove(perf, complete, tape, analyzeOk))
    requires Sends(sys.client, complete)
    ensures ReportAllowed(sys.server, sys.client.curr.id, tape)
    ensures Report(sys.server, sys.client.curr.id, perf, tape, analyzeOk).1 != Rogue
  {
    LegalNamesHandedOut(sys.server, sys.client, sys.lastBest);
    hide Inv, TapeFresh, ReportLegal, Tracked;
  }

  /** What a move does, when the point a report names is in no list. */
  ghost function Moved(sys: System, m: Move): System
    requires Inv(sys.server) && MoveAllowed(sys, m)
    requires m.ReportMove? && Sends(sys.client, m.complete) ==> NamesHandedOut(sys.server, sys.client.curr.id)
  {
    match m
    case ServerMove(e) => sys.(server := Apply(sys.server, e), used := sys.used + NewIds(sys.server, e))
    case FetchMove(paused, best, valuesOk) =>
      FetchReady(sys.server);
      var (after, reply) := Fetch(sys.server, paused, best);
      sys.(server := after, client := AfterFetch(sys.client, reply, valuesOk).0,
           lastBest := if reply.Busy? then best.id else sys.lastBest)
    case ReportMove(perf, complete, tape, analyzeOk) =>
      if !Sends(sys.client, complete) then sys
      else
        var (after, reply) := Report(sys.server, sys.client.curr.id, perf, tape, analyzeOk);
        sys.(server := after, client := AfterReport(sys.client, reply).0, used := sys.used + TapeIds(tape),
             alive := reply == Accepted)
    case BestMove(best) => sys.(client := sys.client.(best := NewerBest(sys.client.best, best)), lastBest := best.id)
  }

  ghost function Next(sys: System, m: Move): System
    requires SystemInv(sys) && MoveAllowed(sys, m)
  {
    if m.ReportMove? && Sends(sys.client, m.complete) then
      ReportNotRogue(sys, m.perf, m.complete, m.tape, m.analyzeOk);
      Moved(sys, m)
    else
      Moved(sys, m)
  }

  // ---- Every move keeps the system's invariant ---------------------------

  /** A change of one slot keeps the record of ids. */
  lemma TouchTracks(s: State, t: State, idx: nat, own: int, ids: set<int>, used: set<int>)
    requires Shape(s) && IdsOk(s) && Tracked(s, used) && TouchesOnly(s, t, idx, own, ids)
    requires own == s.trials[idx].point.id >= 0 && s.place[idx] != Free
    requires ids - {own} !! used && forall id :: id in ids ==> id >= 0
    ensures Tracked(t, used + (ids - {own})) && s.analyzed <= t.analyzed
  {
    assert own in LiveIds(s);
    forall id | id in AnalyzedIds(t)
      ensures id in AnalyzedIds(s) || (id in ids + {own} && t.trials[idx].point.id == -1)
    {
      var k :| 0 <= k < |t.analyzed| && t.analyzed[k].trial.point.id == id;
      if k < |s.analyzed| {
        assert t.analyzed[k] == s.analyzed[k];
      }
    }
    forall i | 0 <= i < |t.trials| && t.trials[i].point.id != -1
      ensures t.trials[i].point.id in LiveIds(s) + ids && t.trials[i].point.id !in AnalyzedIds(t)
    {
      var id := t.trials[i].point.id;
      if i != idx {
        assert s.trials[i].point.id == id && s.place[i] != Free;
        assert id in LiveIds(s) && id in used && id != own;
      }
    }
  }

  /** Ids regenerated for a slot are non-negative. */
  lemma FreshIdsPositive(s: State, idx: nat, tape: seq<LayerReply>)
    requires TapeFresh(s, idx, tape)
    ensures forall id :: id in TapeIds(tape) ==> id >= 0
  {
    forall id | id in TapeIds(tape)
      ensures id >= 0
    {
      var n :| 0 <= n < |tape| && tape[n].verdict.Reject? && tape[n].verdict.reply.Regenerated?
        && tape[n].verdict.reply.point.id == id;
      assert ReplyFresh(s, idx, tape[n]);
    }
  }

  /** A slot handed out and a point analyzed stay so while another slot changes. */
  lemma LegalStays(c: ClientView, lastBest: int, s: State, t: State, idx: nat)
    requires ReportLegal(c, s, lastBest) && |s.place| == |s.trials| == |t.trials| == |t.place|
    requires idx < |s.trials| && s.place[idx] != HandedOut
    requires forall i :: 0 <= i < |s.trials| && i != idx ==> t.trials[i] == s.trials[i] && t.place[i] == s.place[i]
    requires t.pausedId == s.pausedId && s.analyzed <= t.analyzed
    ensures ReportLegal(c, t, lastBest)
  {
    if HandedId(s, c.curr.id) {
      var i :| 0 <= i < |s.trials| && s.trials[i].point.id == c.curr.id && s.place[i] == HandedOut;
      assert t.place[i] == HandedOut && t.trials[i] == s.trials[i];
    } else {
      var k :| 0 <= k < |s.analyzed| && s.analyzed[k].trial.point.id == c.curr.id;
      assert t.analyzed[k] == s.analyzed[k];
    }
  }

  lemma SameIds(s: State, t: State)
    requires |t.trials| == |s.trials| && t.analyzed == s.analyzed
    requires forall i :: 0 <= i < |s.trials| ==> t.trials[i].point.id == s.trials[i].point.id
    ensures LiveIds(t) == LiveIds(s) && AnalyzedIds(t) == AnalyzedIds(s)
  {
    forall id
      ensures id in LiveIds(t) <==> id in LiveIds(s)
    {
      if id in LiveIds(t) {
        var i :| 0 <= i < |t.trials| && t.trials[i].point.id == id != -1;
        assert s.trials[i].point.id == id;
      }
      if id in LiveIds(s) {
        var i :| 0 <= i < |s.trials| && s.trials[i].point.id == id != -1;
        assert t.trials[i].point.id == id;
      }
    }
  }

  lemma LaunchTracks(s: State, idx: nat, point: Point, used: set<int>)
    requires Shape(s) && idx < |s.trials| && s.trials[idx].point.id == -1
    requires Tracked(s, used) && point.id >= 0 && point.id !in used
    ensures Tracked(Launch(s, idx, point), used + {point.id})
  {
    var t := Launch(s, idx, point);
    forall id | id in LiveIds(t)
      ensures id in LiveIds(s) + {point.id}
    {
      var i :| 0 <= i < |t.trials| && t.trials[i].point.id == id != -1;
      if i != idx {
        assert s.trials[i].point.id == id;
      }
    }
    assert AnalyzedIds(t) == AnalyzedIds(s);
  }

  /** What a passage does to the record of ids and to a legal report. */
  lemma WorkflowMove(u: State, idx: nat, tape: seq<LayerReply>, analyzeOk: bool, used: set<int>)
    requires Consistent(u) && OnlyFlight(u, idx) && Leads(|u.hooks|, u.hist[idx], u.layer)
    requires TapeFresh(u, idx, tape) && u.trials[idx].point.id >= 0 && Tracked(u, used)
    requires TapeIds(tape) - {u.trials[idx].point.id} !! used && u.tail < |u.ready|
    ensures var t := PluginWorkflow(u, idx, tape, analyzeOk).state;
            && Tracked(t, used + (TapeIds(tape) - {u.trials[idx].point.id}))
            && TouchesOnly(u, t, idx, u.trials[idx].point.id, TapeIds(tape))
            && u.analyzed <= t.analyzed
  {
    WorkflowTouches(u, idx, tape, analyzeOk);
    FreshIdsPositive(u, idx, tape);
    assert Shape(u) && IdsOk(u) && u.place[idx] == InFlight;
    hide Consistent, OnlyFlight, Leads, TapeFresh, Tracked, PluginWorkflow, TouchesOnly;
    TouchTracks(u, PluginWorkflow(u, idx, tape, analyzeOk).state, idx, u.trials[idx].point.id, TapeIds(tape), used);
  }

  lemma FreeSlotFound(s: State)
    requires Inv(s)
    ensures Shape(s) && |s.place| == |s.trials|
    ensures var idx := FindId(s.trials, -1); idx < |s.trials| ==> s.place[idx] == Free
  {}

  /** Generation: a new trial, in a slot that was free. */
  lemma GenerateMove(s: State, c: ClientView, lastBest: int, used: set<int>, reply: GenerateReply,
                     tape: seq<LayerReply>, analyzeOk: bool)
    requires Inv(s) && s.tail < |s.ready| && GenerateAllowed(s, reply, tape) && Tracked(s, used)
    requires reply.Generated? ==> TapeIds(tape) + {reply.point.id} !! used
    ensures var t := GenerateTrial(s, reply, tape, analyzeOk).state;
            && Tracked(t, used + (if reply.Generated? then TapeIds(tape) + {reply.point.id} else {}))
            && (ReportLegal(c, s, lastBest) ==> ReportLegal(c, t, lastBest))
            && s.analyzed <= t.analyzed && t.pausedId == s.pausedId
  {
    hide Inv, Consistent, OnlyFlight, Leads, TapeFresh, Tracked, PluginWorkflow, ReportLegal, FindId, TapeIds;
    FreeSlotFound(s);
    var idx := FindId(s.trials, -1);
    var t := GenerateTrial(s, reply, tape, analyzeOk).state;
    if idx == |s.trials| || !reply.Generated? {
      if idx < |s.trials| {
        SameIds(s, t);
        SameTracked(s, t, used);
        if ReportLegal(c, s, lastBest) { LegalStays(c, lastBest, s, t, idx); }
      }
      MoreUsed(t, used, used + if reply.Generated? then TapeIds(tape) + {reply.point.id} else {});
    } else {
      LaunchKeeps(s, idx, reply.point);
      var u := Launch(s, idx, reply.point);
      LaunchTracks(s, idx, reply.point, used);
      StillFresh(s, u, idx, tape);
      WorkflowMove(u, idx, tape, analyzeOk, used + {reply.point.id});
      assert used + {reply.point.id} + (TapeIds(tape) - {reply.point.id}) == used + (TapeIds(tape) + {reply.point.id});
      if ReportLegal(c, s, lastBest) { LegalStays(c, lastBest, s, t, idx); }
    }
  }

  /** The answer itself touches only the parked trial. */
  lemma AnswerTouches(s: State, index: int, k: nat, answer: LayerReply, tape: seq<LayerReply>)
    requires Inv(s) && CallbackAllowed(s, index, k, answer, tape) && ListAt(s, CallbackList(index)) != []
    ensures var idx := CallbackSlot(s, index, k);
            var a := Absorb(s, idx, CallbackFlow(s, index, idx, answer));
            && TouchesOnly(s, a, idx, s.trials[idx].point.id, TapeIds([answer]))
            && (forall id :: id in TapeIds([answer]) ==> id >= 0)
  {
    var idx := CallbackSlot(s, index, k);
    assert TapeFresh(s, idx, [answer]);
    FreshIdsPositive(s, idx, [answer]);
    var f := CallbackFlow(s, index, idx, answer);
    if f.trial.point != s.trials[idx].point {
      assert answer == [answer][0];
      assert f.trial.point.id in TapeIds([answer]);
    }
  }

  /** The step of a callback, once the answer has been taken in. */
  ghost predicate CallbackShape(s: State, index: int, k: nat, answer: LayerReply, tape: seq<LayerReply>,
                                analyzeOk: bool, idx: nat, a: State)
    requires Inv(s) && CallbackAllowed(s, index, k, answer, tape)
  {
    var t := Callback(s, index, k, answer, tape, analyzeOk).state;
    && index != 0 && IsList(|a.hooks|, CallbackList(index)) && |a.waitGen| == |a.waitAna| == |a.hooks|
    && (|| t == a
        || (&& k < |ListAt(a, CallbackList(index))| && ListAt(a, CallbackList(index))[k] == idx < |a.place|
            && var u := Unpark(a, index, k);
            && Consistent(u) && OnlyFlight(u, idx) && Leads(|u.hooks|, u.hist[idx], u.layer)
            && TapeFresh(u, idx, tape) && u.trials[idx].point.id >= 0 && u.tail < |u.ready|
            && t == PluginWorkflow(u, idx, tape, analyzeOk).state))
  }

  lemma CallbackShapes(s: State, index: int, k: nat, answer: LayerReply, tape: seq<LayerReply>, analyzeOk: bool,
                       idx: nat, a: State)
    requires Inv(s) && CallbackAllowed(s, index, k, answer, tape) && answer.verdict != Wait
    requires ListAt(s, CallbackList(index)) != []
    requires idx == CallbackSlot(s, index, k) && a == Absorb(s, idx, CallbackFlow(s, index, idx, answer))
    ensures CallbackShape(s, index, k, answer, tape, analyzeOk, idx, a)
  {
    hide Linked;
    var f := CallbackFlow(s, index, idx, answer);
    assert Shape(s) && k < |ListAt(s, CallbackList(index))| && ListAt(s, CallbackList(index))[k] == idx;
    CallbackLeads(s, index, idx, answer);
    CallbackAbsorbed(s, index, k, answer, tape);
    assert TapeFresh(s, idx, tape) && f.progress != Parked;
    hide Inv, Consistent, OnlyFlight, Leads, TapeFresh, Unpark, PluginWorkflow, Transition, FreshFor, CallbackFlow;
    if f.progress == Running {
      CallbackResumes(s, index, k, idx, f, tape);
    }
  }

  /** A callback: a trial that was parked. */
  lemma CallbackMove(s: State, c: ClientView, lastBest: int, used: set<int>, index: int, k: nat, answer: LayerReply,
                     tape: seq<LayerReply>, analyzeOk: bool)
    requires Inv(s) && CallbackAllowed(s, index, k, answer, tape) && answer.verdict != Wait && Tracked(s, used)
    requires ListAt(s, CallbackList(index)) != []
    requires AnswerIds(s, index, k, answer) !! used
    requires ResumeIds(s, index, k, answer, tape) !! used + AnswerIds(s, index, k, answer)
    ensures var t := Callback(s, index, k, answer, tape, analyzeOk).state;
            && Tracked(t, used + (AnswerIds(s, index, k, answer) + ResumeIds(s, index, k, answer, tape)))
            && (ReportLegal(c, s, lastBest) ==> ReportLegal(c, t, lastBest))
            && s.analyzed <= t.analyzed && t.pausedId == s.pausedId
  {
    var idx := CallbackSlot(s, index, k);
    var a := Absorb(s, idx, CallbackFlow(s, index, idx, answer));
    assert Shape(s) && IdsOk(s) && s.place[idx] != Free && s.place[idx] != HandedOut;
    CallbackShapes(s, index, k, answer, tape, analyzeOk, idx, a);
    AnswerTouches(s, index, k, answer, tape);
    hide Inv, Consistent, OnlyFlight, Leads, TapeFresh, CallbackAllowed, PluginWorkflow, TapeIds, Tracked,
         TouchesOnly, Callback, CallbackFlow, ReportLegal, Absorb;
    TouchTracks(s, a, idx, s.trials[idx].point.id, TapeIds([answer]), used);
    AbsorbStays(c, lastBest, s, idx, CallbackFlow(s, index, idx, answer));
    ResumeMove(c, lastBest, used, AnswerIds(s, index, k, answer), a, index, k, idx, tape, analyzeOk,
               Callback(s, index, k, answer, tape, analyzeOk).state);
  }

  lemma AbsorbStays(c: ClientView, lastBest: int, s: State, idx: nat, f: Flow)
    requires Shape(s) && idx < |s.trials| && s.place[idx] != HandedOut
    ensures ReportLegal(c, s, lastBest) ==> ReportLegal(c, Absorb(s, idx, f), lastBest)
    ensures Absorb(s, idx, f).pausedId == s.pausedId
  {
    if ReportLegal(c, s, lastBest) {
      LegalStays(c, lastBest, s, Absorb(s, idx, f), idx);
    }
  }

  /** The second half of a callback's step, from the state after the answer. */
  lemma ResumeMove(c: ClientView, lastBest: int, used: set<int>, ids1: set<int>, a: State, index: int, k: nat, idx: nat,
                   tape: seq<LayerReply>, analyzeOk: bool, t: State)
    requires Tracked(a, used + ids1) && idx < |a.trials| == |a.place| && a.place[idx] != HandedOut
    requires TapeIds(tape) - {a.trials[idx].point.id} !! used + ids1
    requires index != 0 && IsList(|a.hooks|, CallbackList(index)) && |a.waitGen| == |a.waitAna| == |a.hooks|
    requires
      || t == a
      || (&& k < |ListAt(a, CallbackList(index))| && ListAt(a, CallbackList(index))[k] == idx < |a.place|
          && var u := Unpark(a, index, k);
          && Consistent(u) && OnlyFlight(u, idx) && Leads(|u.hooks|, u.hist[idx], u.layer)
          && TapeFresh(u, idx, tape) && u.trials[idx].point.id >= 0 && u.tail < |u.ready|
          && t == PluginWorkflow(u, idx, tape, analyzeOk).state)
    ensures Tracked(t, used + (ids1 + (TapeIds(tape) - {a.trials[idx].point.id})))
    ensures ReportLegal(c, a, lastBest) ==> ReportLegal(c, t, lastBest)
    ensures a.analyzed <= t.analyzed && t.pausedId == a.pausedId
  {
    var ids2 := TapeIds(tape) - {a.trials[idx].point.id};
    assert used + ids1 + ids2 == used + (ids1 + ids2);
    if t == a {
      MoreUsed(t, used + ids1, used + (ids1 + ids2));
    } else {
      var u := Unpark(a, index, k);
      assert Shape(u);
      hide Consistent, OnlyFlight, Leads, TapeFresh, PluginWorkflow, TapeIds, Tracked, ReportLegal;
      SameIds(a, u);
      SameTracked(a, u, used + ids1);
      WorkflowMove(u, idx, tape, analyzeOk, used + ids1);
      if ReportLegal(c, a, lastBest) { LegalStays(c, lastBest, a, t, idx); }
    }
  }

  lemma MoreUsed(s: State, used: set<int>, more: set<int>)
    requires Tracked(s, used) && used <= more
    ensures Tracked(s, more)
  {}

  lemma SameTracked(s: State, t: State, used: set<int>)
    requires Tracked(s, used) && LiveIds(t) == LiveIds(s) && AnalyzedIds(t) == AnalyzedIds(s)
    ensures Tracked(t, used)
  {}

  /** Handing out a trial: its id is legal to report, and ids handed out before
      still are. */
  lemma HandOutMove(s: State, best: Point, id: int)
    requires Inv(s) && s.queue != [] && s.head < |s.ready| && s.ready[s.head] < |s.trials|
    ensures var (t, reply) := Fetch(s, false, best);
            && Inv(t) && reply == Candidate(s.trials[s.queue[0]].point)
            && HandedId(t, reply.point.id) && (HandedId(s, id) ==> HandedId(t, id))
            && t.pausedId == s.pausedId && LiveIds(t) == LiveIds(s) && AnalyzedIds(t) == AnalyzedIds(s)
  {
    FetchReady(s);
    HandOutKeeps(s, best);
    var (t, reply) := Fetch(s, false, best);
    SameIds(s, t);
    var idx := s.queue[0];
    assert t.trials == s.trials && t.place == s.place[idx := HandedOut] && |s.place| == |s.trials|;
    hide Inv, Fetch;
    assert t.place[idx] == HandedOut;
    if HandedId(s, id) {
      var i :| 0 <= i < |s.trials| && s.trials[i].point.id == id && s.place[i] == HandedOut;
      assert t.place[i] == HandedOut;
    }
  }

  /** A fetch: the trial handed out, or the best point, becomes legal to report. */
  lemma FetchMoves(sys: System, paused: bool, best: Point, valuesOk: bool)
    requires SystemInv(sys) && MoveAllowed(sys, FetchMove(paused, best, valuesOk))
    ensures SystemInv(Next(sys, FetchMove(paused, best, valuesOk)))
  {
    var s := sys.server;
    assert |s.place| == |s.trials|;
    hide Tracked, HandedId, Consistent;
    FetchReady(s);
    if !paused && s.queue != [] {
      HandOutMove(s, best, sys.client.curr.id);
    } else {
      BusyMove(s, paused, best, sys.client.curr.id);
    }
    var (t, reply) := Fetch(s, paused, best);
    SameTracked(s, t, sys.used);
    hide Inv, Fetch, AfterFetch, ReportLegal, AnalyzedIds, LiveIds;
    AfterFetchLegal(sys.client, sys.lastBest, s, t, reply, valuesOk, if reply.Busy? then best.id else sys.lastBest);
  }

  /** What the client takes from the reply is legal to report. */
  lemma AfterFetchLegal(c: ClientView, lastBest: int, s: State, t: State, reply: FetchReply, valuesOk: bool,
                        newLast: int)
    requires c.phase == Testing ==> ReportLegal(c, s, lastBest)
    requires -1 <= c.best.id <= lastBest && c.phase != Converged
    requires HandedId(s, c.curr.id) ==> HandedId(t, c.curr.id)
    requires AnalyzedIds(t) == AnalyzedIds(s) && forall id :: id in AnalyzedIds(s) ==> id >= 0
    requires reply.Candidate? ==> HandedId(t, reply.point.id) && t.pausedId == s.pausedId && newLast == lastBest
    requires reply.Busy? ==>
               && t.pausedId == reply.best.id == newLast >= lastBest
               && (reply.best.id == -1 || reply.best.id in AnalyzedIds(s))
    ensures var c' := AfterFetch(c, reply, valuesOk).0;
            && -1 <= c'.best.id <= newLast && c'.phase != Converged
            && (c'.phase == Testing ==> ReportLegal(c', t, newLast))
  {
    hide HandedId, AnalyzedIds;
  }

  /** Sending the best point instead: nothing changes but the paused id. */
  lemma BusyMove(s: State, paused: bool, best: Point, id: int)
    requires Inv(s) && (paused || s.queue == []) && s.head < |s.ready| && s.ready[s.head] < |s.trials|
    requires s.ready[s.head] >= 0 ==> s.queue != []
    ensures var (t, reply) := Fetch(s, paused, best);
            && Inv(t) && reply == Busy(best) && (HandedId(s, id) ==> HandedId(t, id))
            && t.pausedId == best.id && LiveIds(t) == LiveIds(s) && AnalyzedIds(t) == AnalyzedIds(s)
  {
    FetchReady(s);
    FetchKeeps(s, paused, best);
    SameIds(s, Fetch(s, paused, best).0);
  }

  /** A report of a trial handed out keeps the record of ids, leaves what has
      been analyzed, and forgets the paused point. */
  lemma ReportTracks(s: State, id: int, perf: Perf, tape: seq<LayerReply>, analyzeOk: bool, used: set<int>)
    requires Inv(s) && ReportAllowed(s, id, tape) && Tracked(s, used) && TapeIds(tape) - {id} !! used
    requires FindId(s.trials, id) < |s.trials|
    ensures var t := Report(s, id, perf, tape, analyzeOk).0;
            && Inv(t) && Tracked(t, used + (TapeIds(tape) - {id})) && s.analyzed <= t.analyzed && t.pausedId == 0
            && |s.trials| == |s.place| == |t.trials| == |t.place|
            && forall i :: 0 <= i < |s.trials| && i != FindId(s.trials, id) ==>
                 t.trials[i] == s.trials[i] && t.place[i] == s.place[i]
  {
    hide Inv, Consistent, Tracked, TapeFresh, OnlyFlight, Leads, PluginWorkflow, TapeIds, FindId;
    var idx := FindId(s.trials, id);
    HandedSlot(s, id, tape);
    ReportKeeps(s, id, perf, tape, analyzeOk);
    ReportedKeeps(s, idx, perf);
    var u := Reported(s, idx, perf);
    StillFresh(s, u, idx, tape);
    SameIds(s, u);
    SameTracked(s, u, used);
    WorkflowMove(u, idx, tape, analyzeOk, used);
  }

  lemma HandedSlot(s: State, id: int, tape: seq<LayerReply>)
    requires Inv(s) && ReportAllowed(s, id, tape) && FindId(s.trials, id) < |s.trials|
    ensures var idx := FindId(s.trials, id);
            && Consistent(s) && NamesHandedOut(s, id) && TapeFresh(s, idx, tape) && s.tail < |s.ready|
            && |s.trials| == |s.place| == |s.hist| && s.place[idx] == HandedOut && s.trials[idx].point.id == id >= 0
  {
    TailBelowCap(s);
  }

  /** A report: the trial goes back into the layers, and the client is ready. */
  lemma ReportMoves(sys: System, perf: Perf, complete: bool, tape: seq<LayerReply>, analyzeOk: bool)
    requires SystemInv(sys) && MoveAllowed(sys, ReportMove(perf, complete, tape, analyzeOk))
    ensures SystemInv(Next(sys, ReportMove(perf, complete, tape, analyzeOk)))
  {
    if Sends(sys.client, complete) {
      var s, id := sys.server, sys.client.curr.id;
      ReportNotRogue(sys, perf, complete, tape, analyzeOk);
      if FindId(s.trials, id) < |s.trials| {
        ReportTracks(s, id, perf, tape, analyzeOk, sys.used);
        MoreUsed(Report(s, id, perf, tape, analyzeOk).0, sys.used + (TapeIds(tape) - {id}), sys.used + TapeIds(tape));
      } else {
        MoreUsed(s, sys.used, sys.used + TapeIds(tape));
      }
      hide Inv, Consistent, Tracked, TapeFresh;
    }
  }

  /** A step of the session itself leaves a legal report legal. */
  lemma ServerMoves(sys: System, e: Event)
    requires SystemInv(sys) && MoveAllowed(sys, ServerMove(e))
    ensures SystemInv(Next(sys, ServerMove(e)))
  {
    var s := sys.server;
    StepKeeps(s, e);
    TailBelowCap(s);
    FetchReady(s);
    match e
    case GenerateEvent(reply, tape, analyzeOk) =>
      GenerateMove(s, sys.client, sys.lastBest, sys.used, reply, tape, analyzeOk);
    case CallbackEvent(index, k, answer, tape, analyzeOk) =>
      if ListAt(s, CallbackList(index)) == [] {
        SameIds(s, Apply(s, e));
        LegalSame(sys.client, sys.lastBest, s, Apply(s, e));
      } else {
        CallbackMove(s, sys.client, sys.lastBest, sys.used, index, k, answer, tape, analyzeOk);
      }
    case JoinEvent(target) =>
      JoinMove(s, sys.client, sys.lastBest, sys.used, target);
  }

  lemma LegalSame(c: ClientView, lastBest: int, s: State, t: State)
    requires t.trials == s.trials && t.place == s.place && t.pausedId == s.pausedId && t.analyzed == s.analyzed
    ensures ReportLegal(c, s, lastBest) ==> ReportLegal(c, t, lastBest)
  {
    assert HandedId(s, c.curr.id) ==> HandedId(t, c.curr.id);
  }

  lemma JoinMove(s: State, c: ClientView, lastBest: int, used: set<int>, target: nat)
    requires Inv(s) && s.head < |s.ready| && s.tail <= |s.ready| && Tracked(s, used)
    ensures var t := ExtendLists(s, target);
            && Tracked(t, used) && (ReportLegal(c, s, lastBest) ==> ReportLegal(c, t, lastBest))
            && s.analyzed <= t.analyzed && t.pausedId == s.pausedId
  {
    hide Holds, Placed, IdsOk, HistoriesOk, Fifo, AnalysesOk, TurnedCells, Blank;
    var t := ExtendLists(s, target);
    forall id | id in LiveIds(t)
      ensures id in LiveIds(s)
    {
      var i :| 0 <= i < |t.trials| && t.trials[i].point.id == id != -1;
      assert i < |s.trials| && s.trials[i] == t.trials[i];
    }
    assert AnalyzedIds(t) == AnalyzedIds(s);
    if HandedId(s, c.curr.id) {
      var i :| 0 <= i < |s.trials| && s.trials[i].point.id == c.curr.id && s.place[i] == HandedOut;
      assert t.place[i] == HandedOut && t.trials[i] == s.trials[i];
    }
  }

  lemma BestMoves(sys: System, best: Point)
    requires SystemInv(sys) && MoveAllowed(sys, BestMove(best))
    ensures SystemInv(Next(sys, BestMove(best)))
  {}

  /** Every move keeps the system's invariant. */
  lemma MoveKeeps(sys: System, m: Move)
    requires SystemInv(sys) && MoveAllowed(sys, m)
    ensures SystemInv(Next(sys, m))
  {
    hide SystemInv, MoveAllowed, Next;
    match m
    case ServerMove(e) => ServerMoves(sys, e);
    case FetchMove(paused, best, valuesOk) => FetchMoves(sys, paused, best, valuesOk);
    case ReportMove(perf, complete, tape, analyzeOk) => ReportMoves(sys, perf, complete, tape, analyzeOk);
    case BestMove(best) => BestMoves(sys, best);
  }

  // ---- Runs --------------------------------------------------------------

  /** A client that has joined a new session. */
  function Opening(hooks: seq<Hooks>, count: nat): System {
    System(ClientView(Joined, NO_POINT, NO_POINT), Initial(hooks, count), {}, -1, true)
  }

  ghost predicate MoveTo(a: System, m: Move, b: System) {
    SystemInv(a) ==> MoveAllowed(a, m) && b == Next(a, m)
  }

  ghost predicate IsSystemRun(states: seq<System>, moves: seq<Move>) {
    && |states| == |moves| + 1
    && (exists hooks, count :: states[0] == Opening(hooks, count))
    && forall n :: 0 <= n < |moves| ==> MoveTo(states[n], moves[n], states[n + 1])
  }

  lemma {:induction false} SystemRunSafe(states: seq<System>, moves: seq<Move>, n: nat)
    requires IsSystemRun(states, moves) && n < |states|
    ensures SystemInv(states[n])
  {
    if n == 0 {
      var hooks, count :| states[0] == Opening(hooks, count);
      InitialInv(hooks, count);
      assert LiveIds(states[0].server) == {} && AnalyzedIds(states[0].server) == {};
    } else {
      SystemRunSafe(states, moves, n - 1);
      assert MoveTo(states[n - 1], moves[n - 1], states[n]);
      MoveKeeps(states[n - 1], moves[n - 1]);
    }
  }

  /** In every run of one client, in any order of fetches, reports and session
      steps, no report that is sent is answered as a rogue point. */
  lemma NoRogueReport(states: seq<System>, moves: seq<Move>, n: nat)
    requires IsSystemRun(states, moves) && n < |moves|
    requires moves[n].ReportMove? && Sends(states[n].client, moves[n].complete)
    ensures SystemInv(states[n]) && MoveAllowed(states[n], moves[n])
    ensures var m, sys := moves[n], states[n];
            && ReportAllowed(sys.server, sys.client.curr.id, m.tape)
            && Report(sys.server, sys.client.curr.id, m.perf, m.tape, m.analyzeOk).1 != Rogue
  {
    SystemRunSafe(states, moves, n);
    assert MoveTo(states[n], moves[n], states[n + 1]);
    var m := moves[n];
    ReportNotRogue(states[n], m.perf, m.complete, m.tape, m.analyzeOk);
  }

  // ---- The best point the client has seen ----------------------------------

  /** The points offered to the client as the best so far, in order. */
  ghost function Offers(states: seq<System>, moves: seq<Move>, n: nat): seq<Point>
    requires n <= |moves| < |states|
  {
    if n == 0 then []
    else
      var m := moves[n - 1];
      var offered := m.BestMove? || (m.FetchMove? && (m.paused || states[n - 1].server.queue == []));
      Offers(states, moves, n - 1) + if offered then [m.best] else []
  }

  /** The first of the points with the largest id, or none if none was offered. */
  ghost predicate FirstLargest(best: Point, offers: seq<Point>) {
    && (forall k :: 0 <= k < |offers| ==> offers[k].id <= best.id)
    && (|| best == NO_POINT
        || exists j :: 0 <= j < |offers| && offers[j] == best && forall k :: 0 <= k < j ==> offers[k].id < best.id)
  }

  lemma OfferKept(best: Point, offers: seq<Point>, offered: Point)
    requires FirstLargest(best, offers) && offered.id >= -1
    ensures FirstLargest(NewerBest(best, offered), offers + [offered])
  {
    var more, newer := offers + [offered], NewerBest(best, offered);
    if newer != best {
      assert more[|offers|] == newer;
    } else if best != NO_POINT {
      var j :| 0 <= j < |offers| && offers[j] == best && forall k :: 0 <= k < j ==> offers[k].id < best.id;
      assert more[j] == best;
    }
  }

  /** In every run the client holds, of all best points it has been offered, the
      first with the largest id. */
  lemma {:induction false} BestIsLargest(states: seq<System>, moves: seq<Move>, n: nat)
    requires IsSystemRun(states, moves) && n < |states|
    ensures FirstLargest(states[n].client.best, Offers(states, moves, n))
  {
    if n > 0 {
      BestIsLargest(states, moves, n - 1);
      SystemRunSafe(states, moves, n - 1);
      assert MoveTo(states[n - 1], moves[n - 1], states[n]);
      MoveOffers(states[n - 1], moves[n - 1], Offers(states, moves, n - 1));
    }
  }

  lemma MoveOffers(sys: System, m: Move, offers: seq<Point>)
    requires SystemInv(sys) && MoveAllowed(sys, m) && FirstLargest(sys.client.best, offers)
    ensures var offered := m.BestMove? || (m.FetchMove? && (m.paused || sys.server.queue == []));
            FirstLargest(Next(sys, m).client.best, offers + if offered then [m.best] else [])
  {
    assert offers + [] == offers;
    FetchReady(sys.server);
    if m.FetchMove? || m.BestMove? {
      assert -1 <= sys.lastBest <= m.best.id;
      OfferKept(sys.client.best, offers, m.best);
    }
    hide Inv, Consistent, Tracked, FirstLargest;
  }
}
