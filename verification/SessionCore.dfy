/** The session process: its global variables as the fields of a class, its
    routines as methods, each proved to make the step the pipeline model
    prescribes. */
module SessionCore {
  import opened Ring
  import opened Workflow
  import opened Pipeline
  import opened PipelineInvariant
  import opened PipelineRuns

  /** One plug-in layer with its two wait lists.  Cells past the length of a
      list hold -1. */
  class Layer {
    const hooks: Hooks
    var waitGenerate: seq<int>
    var waitGenerateLen: nat
    var waitAnalyze: seq<int>
    var waitAnalyzeLen: nat

    static ghost predicate ListOk(cells: seq<int>, len: nat) {
      && len <= |cells|
      && (forall k :: 0 <= k < len ==> cells[k] >= 0)
      && (forall k :: len <= k < |cells| ==> cells[k] == -1)
    }

    static ghost function Listed(cells: seq<int>, len: nat): (r: seq<nat>)
      requires ListOk(cells, len)
      ensures |r| == len && forall k :: 0 <= k < len ==> r[k] == cells[k]
    {
      cells[..len]
    }

    ghost predicate Valid()
      reads this
    {
      ListOk(waitGenerate, waitGenerateLen) && ListOk(waitAnalyze, waitAnalyzeLen)
    }

    ghost function GenerateList(): seq<nat>
      requires Valid()
      reads this
    {
      Listed(waitGenerate, waitGenerateLen)
    }

    ghost function AnalyzeList(): seq<nat>
      requires Valid()
      reads this
    {
      Listed(waitAnalyze, waitAnalyzeLen)
    }

    constructor (hooks: Hooks)
      ensures Valid() && this.hooks == hooks && GenerateList() == [] && AnalyzeList() == []
    {
      this.hooks := hooks;
      waitGenerate, waitGenerateLen := [], 0;
      waitAnalyze, waitAnalyzeLen := [], 0;
    }

    /** array_grow followed by the loop that blanks the new cells. */
    static method Grow(cells: seq<int>, len: nat) returns (grown: seq<int>)
      requires ListOk(cells, len) && len == |cells|
      ensures ListOk(grown, len) && len < |grown| && grown[..len] == cells
    {
      var cap := if |cells| >= 8 then 2 * |cells| else 8;
      grown := cells + seq(cap - |cells|, _ => 0);
      var i := len;
      while i < cap
        invariant len <= i <= cap == |grown|
        invariant grown[..len] == cells
        invariant forall k :: len <= k < i ==> grown[k] == -1
      {
        grown := grown[i := -1];
        i := i + 1;
      }
    }

    /** The list part of handle_wait.  The error for a cell already taken is
        not among the outcomes: the cell after the last entry is always -1. */
    method Append(descending: bool, idx: nat) returns (ok: bool)
      requires Valid()
      modifies this
      ensures Valid() && ok
      ensures GenerateList() == old(GenerateList()) + if descending then [] else [idx]
      ensures AnalyzeList() == old(AnalyzeList()) + if descending then [idx] else []
    {
      if descending {
        if waitAnalyzeLen == |waitAnalyze| {
          waitAnalyze := Grow(waitAnalyze, waitAnalyzeLen);
        }
        if waitAnalyze[waitAnalyzeLen] != -1 {
          return false;
        }
        waitAnalyze := waitAnalyze[waitAnalyzeLen := idx];
        waitAnalyzeLen := waitAnalyzeLen + 1;
      } else {
        if waitGenerateLen == |waitGenerate| {
          waitGenerate := Grow(waitGenerate, waitGenerateLen);
        }
        if waitGenerate[waitGenerateLen] != -1 {
          return false;
        }
        waitGenerate := waitGenerate[waitGenerateLen := idx];
        waitGenerateLen := waitGenerateLen + 1;
      }
      ok := true;
    }

    /** The list part of handle_callback: the last entry fills the hole. */
    method Remove(descending: bool, k: nat)
      requires Valid()
      requires k < if descending then waitAnalyzeLen else waitGenerateLen
      modifies this
      ensures Valid()
      ensures GenerateList() == if descending then old(GenerateList()) else SwapRemove(old(GenerateList()), k)
      ensures AnalyzeList() == if descending then SwapRemove(old(AnalyzeList()), k) else old(AnalyzeList())
    {
      if descending {
        waitAnalyzeLen := waitAnalyzeLen - 1;
        waitAnalyze := waitAnalyze[k := waitAnalyze[waitAnalyzeLen]];
        waitAnalyze := waitAnalyze[waitAnalyzeLen := -1];
      } else {
        waitGenerateLen := waitGenerateLen - 1;
        waitGenerate := waitGenerate[k := waitGenerate[waitGenerateLen]];
        waitGenerate := waitGenerate[waitGenerateLen := -1];
      }
    }
  }

  /** reverse_array: reverse the cells head..tail in place. */
  method ReverseArray(a: array<int>, head: nat, tail: nat)
    requires head <= tail <= a.Length
    modifies a
    ensures a[..] == ReverseStretch(old(a[..]), head, tail)
  {
    var h, t: int := head, tail - 1;
    while h < t
      invariant head <= h && t < tail && h + t == head + tail - 1 && h <= t + 1
      invariant forall k :: 0 <= k < a.Length && !(head <= k < h || t < k < tail) ==> a[k] == old(a[k])
      invariant forall k :: head <= k < h || t < k < tail ==> a[k] == old(a[head + tail - 1 - k])
      decreases t - h
    {
      a[h], a[t] := a[t], a[h];
      h, t := h + 1, t - 1;
    }
  }

  class Session {
    const lstack: seq<Layer>
    const perClient: nat
    var numClients: nat

    var pending: seq<Trial>
    var pendingLen: int
    var ready: array<int>
    var readyHead: nat
    var readyTail: nat
    var currLayer: int
    var open: bool      // whether pollstate is set
    var pausedId: int

    /** What the variables mean. */
    ghost var view: State

    /** The plain variables say what the view says. */
    ghost predicate VariablesMatch()
      reads this, ready
    {
      && view.trials == pending && view.pendingLen == pendingLen
      && view.ready == ready[..] && view.head == readyHead && view.tail == readyTail
      && view.layer == currLayer && view.open == open && view.pausedId == pausedId
    }

    /** The layers and their wait lists say what the view says. */
    ghost predicate LayersMatch()
      reads this`view, lstack
    {
      && (forall i, j :: 0 <= i < j < |lstack| ==> lstack[i] != lstack[j])
      && |view.hooks| == |view.waitGen| == |view.waitAna| == |lstack|
      && (forall l :: 0 <= l < |lstack| ==>
            && lstack[l].Valid() && view.hooks[l] == lstack[l].hooks
            && view.waitGen[l] == lstack[l].GenerateList()
            && view.waitAna[l] == lstack[l].AnalyzeList())
    }

    ghost predicate Matches()
      reads this, ready, lstack
    {
      && |view.hooks| == |view.waitGen| == |view.waitAna| == |lstack|
      && VariablesMatch()
      && LayersMatch()
    }

    /** The state between steps. */
    ghost predicate Valid()
      reads this, ready, lstack
    {
      Matches() && Inv(view)
    }

    /** The session after init_session. */
    constructor (layers: seq<Layer>, perClient: nat, clients: nat)
      requires forall i, j :: 0 <= i < j < |layers| ==> layers[i] != layers[j]
      requires forall l :: 0 <= l < |layers| ==>
                 layers[l].Valid() && layers[l].GenerateList() == [] && layers[l].AnalyzeList() == []
      ensures Valid() && lstack == layers && this.perClient == perClient && numClients == 0 && fresh(ready)
      ensures view == Initial(seq(|layers|, l requires 0 <= l < |layers| => layers[l].hooks), clients * perClient)
    {
      var cap := GrownCap(clients * perClient);
      lstack := layers;
      this.perClient, numClients := perClient, 0;
      pending, pendingLen := seq(cap, _ => Trial(NO_POINT, Unmeasured)), 0;
      ready := new int[cap](_ => -1);
      readyHead, readyTail := 0, 0;
      currLayer, open, pausedId := |layers|, true, 0;
      view := Initial(seq(|layers|, l requires 0 <= l < |layers| => layers[l].hooks), clients * perClient);
      new;
      InitialInv(seq(|layers|, l requires 0 <= l < |layers| => layers[l].hooks), clients * perClient);
      assert ready[..] == Blank(cap);
    }

    /** handle_wait. */
    method HandleWait(idx: nat) returns (ok: bool)
      requires Matches() && Shape(view) && idx < |pending|
      requires currLayer != 0 && currLayer <= |lstack|
      modifies this`view, lstack
      ensures Matches() && ok && view == Park(old(view), idx)
    {
      ghost var was := view;
      view := Park(view, idx);
      var stackIdx := (if currLayer < 0 then -currLayer else currLayer) - 1;
      ok := lstack[stackIdx].Append(currLayer < 0, idx);
    }

    /** handle_reject: returns 0 to go on, 1 to leave the trial, -1 on error. */
    method HandleReject(idx: nat, reply: RejectReply) returns (retval: int)
      requires Matches() && Shape(view) && idx < |pending|
      modifies this
      ensures Matches() && ready == old(ready)
      ensures var g := Transition(Start(old(view), idx, []), Reject(reply));
              && view == Absorb(old(view), idx, g.(layer := old(currLayer)))
              && (retval == 0 <==> g.progress == Running)
              && (retval == 1 <==> g.progress == Dropped)
              && (retval == -1 <==> g.progress == Failed)
    {
      ghost var g := Transition(Start(view, idx, []), Reject(reply));
      ghost var t := Absorb(view, idx, g.(layer := currLayer));
      if currLayer < 0 {
        retval := -1;
      } else {
        match reply {
          case Refused => retval := -1;
          case Deferred =>
            open := false;
            retval := 1;
          case Regenerated(point) =>
            pending := pending[idx := pending[idx].(point := point)];
            retval := 0;
        }
      }
      assert t.trials == pending && t.hist == view.hist;
      view := t;
    }

    /** workflow_transition: returns 0 to go on, 1 to stop, -1 on error. */
    method WorkflowTransition(idx: nat, verdict: Verdict) returns (retval: int)
      requires Matches() && Shape(view) && idx < |pending|
      requires currLayer != 0 && currLayer <= |lstack|
      modifies this, lstack
      ensures Matches() && ready == old(ready)
      ensures var g := Transition(Start(old(view), idx, []), verdict);
              && (retval == 0 <==> g.progress == Running)
              && (retval == 1 <==> g.progress == Parked || g.progress == Dropped)
              && (retval == -1 <==> g.progress == Failed)
              && view == if g.progress == Parked then Park(Absorb(old(view), idx, g), idx)
                         else Absorb(old(view), idx, g)
    {
      hide LayersMatch, Park;
      assert view.trials[idx := pending[idx]] == pending && view.hist[idx := view.hist[idx]] == view.hist;
      match verdict {
        case Accept =>
          GoTo(currLayer + 1);
          retval := 0;
        case Wait =>
          var ok := HandleWait(idx);
          retval := if ok then 1 else -1;
        case Return =>
          GoTo(-currLayer);
          retval := 0;
        case Retry =>
          GoTo(-currLayer);
          retval := 0;
        case Reject(reply) =>
          retval := HandleReject(idx, reply);
          if retval == 0 {
            GoTo(1);
          }
        case Unknown =>
          retval := -1;
        case Failure =>
          retval := -1;
      }
    }

    method GoTo(layer: int)
      requires Matches()
      modifies this`currLayer, this`view
      ensures Matches() && view == old(view).(layer := layer)
    {
      currLayer := layer;
      view := view.(layer := layer);
    }

    /** Ask the current layer, if it has the hook, for the oracle's next reply. */
    method AskLayer(idx: nat, tape: seq<LayerReply>) returns (verdict: Verdict, rest: seq<LayerReply>)
      requires Matches() && Shape(view) && idx < |pending|
      requires currLayer != 0 && currLayer <= |lstack|
      modifies this`pending, this`view
      ensures Matches() && Shape(view) && |pending| == old(|pending|)
      ensures view == old(view).(trials := old(view).trials[idx := pending[idx]],
                                 hist := old(view).hist[idx := old(view).hist[idx] + [currLayer]])
      ensures Visit(view.hooks, Start(old(view), idx, tape)) == Transition(Start(view, idx, rest), verdict)
    {
      hide LayersMatch;
      verdict := Accept;
      rest := tape;
      var stackIdx := (if currLayer < 0 then -currLayer else currLayer) - 1;
      ghost var hist := view.hist[idx := view.hist[idx] + [currLayer]];
      HooksHere();
      if currLayer < 0 {
        if lstack[stackIdx].hooks.analyze && tape != [] {
          pending := pending[idx := pending[idx].(perf := tape[0].perf)];
          verdict, rest := tape[0].verdict, tape[1..];
        }
      } else {
        if lstack[stackIdx].hooks.generate && tape != [] {
          pending := pending[idx := pending[idx].(perf := tape[0].perf)];
          verdict, rest := tape[0].verdict, tape[1..];
        }
      }
      view := view.(trials := pending, hist := hist);
      SameLayers(old(view));
    }

    lemma HooksHere()
      requires Matches()
      ensures |view.hooks| == |lstack|
      ensures forall l :: 0 <= l < |lstack| ==> view.hooks[l] == lstack[l].hooks
    {}

    /** The wait lists still match a view with the same lists. */
    twostate lemma SameLayers(was: State)
      requires |was.hooks| == |was.waitGen| == |was.waitAna| == |lstack|
      requires old(LayersMatch()) && was == old(view)
      requires view.hooks == was.hooks && view.waitGen == was.waitGen && view.waitAna == was.waitAna
      requires forall l :: 0 <= l < |lstack| ==> unchanged(lstack[l])
      ensures LayersMatch()
    {}

    /** The loop body of plugin_workflow: ask the layer, and make the transition
        its verdict calls for. */
    method Pass(idx: nat, tape: seq<LayerReply>) returns (retval: int, rest: seq<LayerReply>)
      requires Matches() && Shape(view) && idx < |pending|
      requires currLayer != 0 && currLayer <= |lstack|
      modifies this, lstack
      ensures Matches() && ready == old(ready)
      ensures var g := Visit(old(view).hooks, Start(old(view), idx, tape));
              && rest == g.tape
              && (retval == 0 <==> g.progress == Running)
              && (retval == 1 <==> g.progress == Parked || g.progress == Dropped)
              && (retval == -1 <==> g.progress == Failed)
              && view == if g.progress == Parked then Park(Absorb(old(view), idx, g), idx)
                         else Absorb(old(view), idx, g)
    {
      hide LayersMatch;
      ghost var was := view;
      var verdict;
      verdict, rest := AskLayer(idx, tape);
      AbsorbTwice(was, idx, Start(view, idx, []), rest, verdict);
      hide Transition, Visit;
      retval := WorkflowTransition(idx, verdict);
    }

    /** Taking over a passage twice is taking over its later state; the tape
        plays no part in either. */
    static lemma AbsorbTwice(s: State, idx: nat, f: Flow, tape: seq<LayerReply>, verdict: Verdict)
      requires idx < |s.trials| && idx < |s.hist|
      ensures var g := Transition(f, verdict);
              && Absorb(s.(trials := s.trials[idx := f.trial], hist := s.hist[idx := f.hist]), idx, g) ==
                 Absorb(s, idx, g)
              && Transition(f.(tape := tape), verdict) == g.(tape := tape)
              && Absorb(s, idx, g.(tape := tape)) == Absorb(s, idx, g)
    {}

    /** The end of plugin_workflow, after the loop. */
    method LandTrial(idx: nat, analyzeOk: bool) returns (ok: bool)
      requires Matches() && Shape(view) && idx < |pending| && readyTail < ready.Length
      requires currLayer == 0 || currLayer > |lstack|
      modifies this, ready
      ensures Matches() && ready == old(ready)
      ensures view == Land(old(view), idx, analyzeOk).state && ok == Land(old(view), idx, analyzeOk).ok
    {
      ghost var after := Land(view, idx, analyzeOk).state;
      if currLayer == 0 {
        if !analyzeOk {
          view := after;
          return false;
        }
        pending := pending[idx := pending[idx].(point := NO_POINT)];
        pendingLen := pendingLen - 1;
        open := true;
      } else if currLayer > |lstack| {
        if ready[readyTail] != -1 {
          view := after;
          return false;
        }
        ready[readyTail] := idx;
        readyTail := (readyTail + 1) % ready.Length;
      } else {
        return false;
      }
      view := after;
      ok := true;
    }

    /** Every pass makes the loop's measure smaller. */
    static lemma VisitShrinks(hooks: seq<Hooks>, f: Flow)
      requires InStack(|hooks|, f.layer) && AtLayer(|hooks|, f)
      ensures var g := Visit(hooks, f);
              && InStack(|hooks|, g.layer) && Run(hooks, g) == Run(hooks, f)
              && (g.progress == Parked ==> g.layer == f.layer)
              && (|g.tape| < |f.tape| || (g.tape == f.tape && Distance(|hooks|, g.layer) < Distance(|hooks|, f.layer)))
    {}

    /** How the loop of plugin_workflow ends after the passage r. */
    ghost predicate Ended(was: State, idx: nat, r: Flow, retval: int)
      requires Shape(was) && idx < |was.trials|
      reads this
    {
      && InStack(|was.hooks|, r.layer) && !AtLayer(|was.hooks|, r)
      && (retval == 0 <==> r.progress == Running)
      && (retval == 1 <==> r.progress == Parked || r.progress == Dropped)
      && (retval == -1 <==> r.progress == Failed)
      && (r.progress == Parked ==> r.layer != 0 && r.layer <= |was.hooks|)
      && view == if r.progress == Parked then Park(Absorb(was, idx, r), idx) else Absorb(was, idx, r)
    }

    /** The loop of plugin_workflow. */
    method RunLayers(idx: nat, tape: seq<LayerReply>) returns (retval: int, ghost r: Flow)
      requires Matches() && Shape(view) && idx < |pending|
      modifies this, lstack
      ensures Matches() && ready == old(ready)
      ensures r == Run(old(view).hooks, Start(old(view), idx, tape)) && Ended(old(view), idx, r, retval)
    {
      ghost var was := view;
      r := Start(view, idx, tape);
      var rest := tape;
      AbsorbAgain(was, idx, r, r);
      assert r.progress == Running && r.tape == rest && r.layer == currLayer && Absorb(was, idx, r) == was;
      hide LayersMatch, Absorb, Start, Visit, Park, Run;
      while currLayer != 0 && currLayer <= |lstack|
        invariant Matches() && ready == old(ready) && Shape(view) && |pending| == |was.trials|
        invariant r.progress == Running && r.tape == rest && r.layer == currLayer
        invariant view == Absorb(was, idx, r)
        invariant Run(was.hooks, r) == Run(was.hooks, Start(was, idx, tape))
        decreases |rest|, Distance(|lstack|, currLayer)
      {
        ghost var g := Visit(was.hooks, r);
        VisitShrinks(was.hooks, r);
        StopsHere(was.hooks, g);
        AbsorbAgain(was, idx, r, g);
        AbsorbAgain(was, idx, g, g);
        r := g;
        retval, rest := Pass(idx, rest);
        if retval != 0 {
          return;
        }
      }
      StopsHere(was.hooks, r);
      retval := 0;
    }

    /** Away from the layers a passage is over. */
    static lemma StopsHere(hooks: seq<Hooks>, f: Flow)
      requires InStack(|hooks|, f.layer)
      ensures !AtLayer(|hooks|, f) ==> Run(hooks, f) == f
    {}

    /** A passage taken over is where it was, and taking over a later state of
        it replaces the earlier one. */
    static lemma AbsorbAgain(s: State, idx: nat, f: Flow, g: Flow)
      requires Shape(s) && idx < |s.trials| && InStack(|s.hooks|, f.layer)
      ensures f.progress == Running ==> Start(Absorb(s, idx, f), idx, f.tape) == f
      ensures Absorb(Absorb(s, idx, f), idx, g) == Absorb(s, idx, g)
      ensures Shape(Absorb(s, idx, f)) && Absorb(s, idx, f).layer == f.layer && Absorb(s, idx, f).hooks == s.hooks
      ensures f == Start(s, idx, f.tape) ==> Absorb(s, idx, f) == s
    {}

    /** Note that the trial in slot idx has been left in no list. */
    ghost method Strand(idx: nat)
      requires Matches() && idx < |view.place|
      modifies this`view
      ensures Matches() && view == Put(old(view), idx, Stranded)
    {
      view := Put(view, idx, Stranded);
    }

    /** The model's step, by the passage that decides it. */
    static lemma WorkflowEnds(s: State, idx: nat, tape: seq<LayerReply>, analyzeOk: bool)
      requires Consistent(s) && OnlyFlight(s, idx)
      requires Leads(|s.hooks|, s.hist[idx], s.layer) && TapeFresh(s, idx, tape)
      requires s.trials[idx].point.id >= 0
      ensures Shape(s) && s.tail < |s.ready| && idx < |s.trials|
      ensures var r := Run(s.hooks, Start(s, idx, tape));
              var t := Absorb(s, idx, r);
              var done := Pipeline.PluginWorkflow(s, idx, tape, analyzeOk);
              && Inv(done.state)
              && InStack(|s.hooks|, r.layer) && (r.progress == Parked ==> r.layer != 0 && r.layer <= |s.hooks|)
              && |t.place| == |t.trials| == |t.hist| == |s.trials| && t.tail < |t.ready|
              && Shape(t) && t.layer == r.layer
              && done == match r.progress
                         case Parked => Step(Park(t, idx), true)
                         case Dropped => Step(Put(t, idx, Stranded), true)
                         case Failed => Step(Put(t, idx, Stranded), false)
                         case Running => Land(t, idx, analyzeOk)
    {
      WorkflowKeeps(s, idx, tape, analyzeOk);
      RunKeepsHistory(s.hooks, Start(s, idx, tape));
    }

    /** plugin_workflow. */
    method PluginWorkflow(idx: nat, tape: seq<LayerReply>, analyzeOk: bool) returns (ok: bool)
      requires Matches() && Consistent(view) && OnlyFlight(view, idx)
      requires Leads(|view.hooks|, view.hist[idx], view.layer) && TapeFresh(view, idx, tape)
      requires pending[idx].point.id >= 0
      modifies this, ready, lstack
      ensures Valid() && ready == old(ready)
      ensures old(view).tail < |old(view).ready|
      ensures view == Pipeline.PluginWorkflow(old(view), idx, tape, analyzeOk).state
      ensures ok == Pipeline.PluginWorkflow(old(view), idx, tape, analyzeOk).ok
    {
      WorkflowEnds(view, idx, tape, analyzeOk);
      ghost var done := Pipeline.PluginWorkflow(view, idx, tape, analyzeOk);
      hide Inv, Consistent, OnlyFlight, Leads, TapeFresh, LayersMatch, Pipeline.PluginWorkflow, Park, Land, Absorb,
           Start, Run;
      var retval;
      ghost var r;
      retval, r := RunLayers(idx, tape);
      if retval != 0 {
        if r.progress != Parked {
          Strand(idx);
        }
        return retval > 0;
      }
      ok := LandTrial(idx, analyzeOk);
    }

    /** The search loop of generate_trial and handle_report. */
    method Search(id: int) returns (idx: nat)
      ensures idx == FindId(pending, id)
    {
      idx := 0;
      while idx < |pending|
        invariant 0 <= idx <= |pending|
        invariant forall i :: 0 <= i < idx ==> pending[i].point.id != id
      {
        if pending[idx].point.id == id {
          break;
        }
        idx := idx + 1;
      }
      FirstFound(pending, id, idx);
    }

    /** The index a search from the front stops at. */
    static lemma {:induction false} FirstFound(trials: seq<Trial>, id: int, idx: nat)
      requires idx <= |trials| && (idx < |trials| ==> trials[idx].point.id == id)
      requires forall i :: 0 <= i < idx ==> trials[i].point.id != id
      ensures FindId(trials, id) == idx
    {
      var found := FindId(trials, id);
      assert found < |trials| ==> trials[found].point.id == id;
    }

    /** The strategy has offered no point; if it asked to wait, it is not asked again
        until a trial is analyzed. */
    method GiveUpTrial(idx: nat, ask: bool)
      requires Matches() && idx < |pending|
      modifies this`open, this`pending, this`view
      ensures Matches() && view == NoTrial(old(view), idx, ask)
    {
      pending := pending[idx := pending[idx].(perf := Unmeasured)];
      open := ask;
      view := NoTrial(view, idx, ask);
    }

    /** The strategy has offered a point: it goes live in slot idx. */
    method LaunchTrial(idx: nat, point: Point)
      requires Matches() && idx < |pending| && idx < |view.place| && idx < |view.hist|
      modifies this`pending, this`pendingLen, this`currLayer, this`view
      ensures Matches() && view == Launch(old(view), idx, point)
    {
      pending := pending[idx := pending[idx].(perf := Unmeasured)];
      pending := pending[idx := pending[idx].(point := point)];
      pendingLen := pendingLen + 1;
      currLayer := 1;
      view := Launch(view, idx, point);
    }

    /** The model's step, by what happens in it. */
    static lemma GenerateEnds(s: State, reply: GenerateReply, tape: seq<LayerReply>, analyzeOk: bool)
      requires Inv(s) && GenerateAllowed(s, reply, tape)
      ensures Shape(s) && s.tail < |s.ready|
      ensures var idx := FindId(s.trials, -1);
              var done := Pipeline.GenerateTrial(s, reply, tape, analyzeOk);
              && Inv(done.state)
              && (s.pendingLen < |s.trials| ==> idx < |s.trials|)
              && (idx == |s.trials| ==> done == Step(s, false))
              && (idx < |s.trials| && !reply.Generated? ==>
                    done == if reply.NotYet? then Step(NoTrial(s, idx, false), true)
                            else Step(NoTrial(s, idx, s.open), false))
              && (idx < |s.trials| && reply.Generated? ==>
                    var t := Launch(s, idx, reply.point);
                    && Consistent(t) && OnlyFlight(t, idx) && Leads(|t.hooks|, t.hist[idx], t.layer)
                    && t.tail < |t.ready| && TapeFresh(t, idx, tape) && t.trials[idx].point.id >= 0
                    && done == Pipeline.PluginWorkflow(t, idx, tape, analyzeOk))
    {
      Settled(s);
      Shaped(s);
      TailBelowCap(s);
      hide Inv, Consistent, OnlyFlight, Leads, TapeFresh, Pipeline.PluginWorkflow;
      GenerateKeeps(s, reply, tape, analyzeOk);
      var idx := FindId(s.trials, -1);
      if idx < |s.trials| && reply.Generated? {
        FreeSlot(s, idx);
        LaunchKeeps(s, idx, reply.point);
        StillFresh(s, Launch(s, idx, reply.point), idx, tape);
      }
    }

    /** generate_trial: the search for a free slot, the strategy's reply, and
        the new trial's way through the layers. */
    method GenerateTrial(reply: GenerateReply, tape: seq<LayerReply>, analyzeOk: bool) returns (ok: bool)
      requires Valid() && GenerateAllowed(view, reply, tape)
      modifies this, ready, lstack
      ensures Valid() && ready == old(ready)
      ensures old(view).tail < |old(view).ready|
      ensures view == Pipeline.GenerateTrial(old(view), reply, tape, analyzeOk).state
      ensures ok == Pipeline.GenerateTrial(old(view), reply, tape, analyzeOk).ok
      ensures old(pendingLen < |pending|) && reply.NotYet? ==> ok
      ensures old(forall i :: 0 <= i < |pending| ==> pending[i].point.id != -1) ==> !ok && view == old(view)
    {
      hide Inv, Consistent, OnlyFlight, Leads, TapeFresh, LayersMatch, GenerateAllowed,
           Pipeline.GenerateTrial, Pipeline.PluginWorkflow;
      GenerateEnds(view, reply, tape, analyzeOk);
      var idx := Search(-1);
      if idx == |pending| {
        return false;
      }
      match reply {
        case NotYet =>
          GiveUpTrial(idx, false);
          ok := true;
        case Unable =>
          GiveUpTrial(idx, open);
          ok := false;
        case Generated(point) =>
          LaunchTrial(idx, point);
          ok := PluginWorkflow(idx, tape, analyzeOk);
      }
    }

    /** The first half of handle_callback: the plug-in's reply for the k-th
        trial on its wait list, and the transition it calls for. */
    method AnswerCallback(index: int, k: nat, reply: LayerReply) returns (idx: nat, retval: int)
      requires Valid() && index != 0 && IsList(|view.hooks|, CallbackList(index))
      requires k < |ListAt(view, CallbackList(index))|
      modifies this, lstack
      ensures Matches() && ready == old(ready)
      ensures idx == CallbackSlot(old(view), index, k)
      ensures var f := CallbackFlow(old(view), index, idx, reply);
              && (retval == 0 <==> f.progress == Running)
              && (retval == 1 <==> f.progress == Parked || f.progress == Dropped)
              && (retval == -1 <==> f.progress == Failed)
              && (f.progress == Parked ==> f.layer == index)
              && view == if f.progress == Parked then Park(Absorb(old(view), idx, f), idx)
                         else Absorb(old(view), idx, f)
    {
      hide Inv, Consistent, Transition, Park, CallbackFlow, LayersMatch, CallbackSlot;
      Settled(view);
      Shaped(view);
      ghost var was := view;
      idx := ParkedTrial(index, k);
      currLayer := index;
      pending := pending[idx := pending[idx].(perf := reply.perf)];
      view := view.(layer := index, trials := pending);
      SameLayers(was);
      assert Start(view, idx, []) ==
             Flow(index, was.trials[idx].(perf := reply.perf), [], was.hist[idx], was.open, Running);
      CallbackTransition(was, index, idx, reply, Start(view, idx, []));
      retval := WorkflowTransition(idx, reply.verdict);
    }

    /** The k-th entry of the list a callback works on. */
    method ParkedTrial(index: int, k: nat) returns (idx: nat)
      requires Matches() && Consistent(view) && index != 0 && IsList(|view.hooks|, CallbackList(index))
      requires k < |ListAt(view, CallbackList(index))|
      ensures idx == CallbackSlot(view, index, k)
    {
      hide Consistent;
      Shaped(view);
      var stackIdx := (if index < 0 then -index else index) - 1;
      idx := if index < 0 then lstack[stackIdx].waitAnalyze[k] else lstack[stackIdx].waitGenerate[k];
    }

    static lemma CallbackTransition(s: State, index: int, idx: nat, reply: LayerReply, h: Flow)
      requires idx < |s.trials| && idx < |s.hist|
      requires h == Flow(index, s.trials[idx].(perf := reply.perf), [], s.hist[idx], s.open, Running)
      ensures CallbackFlow(s, index, idx, reply) == Transition(h, reply.verdict)
      ensures Absorb(s.(layer := index, trials := s.trials[idx := h.trial]), idx, Transition(h, reply.verdict)) ==
              Absorb(s, idx, Transition(h, reply.verdict))
      ensures Transition(h, reply.verdict).progress == Parked ==> Transition(h, reply.verdict).layer == index
    {}

    /** The list part of the second half: the trial leaves its wait list. */
    method Unlist(index: int, k: nat)
      requires Matches() && Shape(view) && index != 0 && IsList(|view.hooks|, CallbackList(index))
      requires k < |ListAt(view, CallbackList(index))| && ListAt(view, CallbackList(index))[k] < |view.place|
      modifies this`view, lstack
      ensures Matches() && view == Unpark(old(view), index, k)
    {
      view := Unpark(view, index, k);
      var stackIdx := (if index < 0 then -index else index) - 1;
      lstack[stackIdx].Remove(index < 0, k);
    }

    /** The model's step, by what happens in it. */
    static lemma CallbackEnds(s: State, index: int, k: nat, reply: LayerReply, tape: seq<LayerReply>, analyzeOk: bool,
                              idx: nat, f: Flow)
      requires Inv(s) && CallbackAllowed(s, index, k, reply, tape) && ListAt(s, CallbackList(index)) != []
      requires idx == CallbackSlot(s, index, k) && f == CallbackFlow(s, index, idx, reply)
      ensures Shape(s) && InStack(|s.hooks|, f.layer)
      ensures var done := Pipeline.Callback(s, index, k, reply, tape, analyzeOk);
              var t := Absorb(s, idx, f);
              && (Inv(done.state) <==> reply.verdict != Wait)
              && (f.progress == Parked <==> reply.verdict == Wait)
              && (f.progress == Parked ==> f.layer == index && done == Step(Park(t, idx), true))
              && (f.progress == Dropped ==> done == Step(t, true))
              && (f.progress == Failed ==> done == Step(t, false))
              && (f.progress == Running ==> CallbackGoesOn(t, index, k, idx, tape, analyzeOk, done))
    {
      hide Inv, Consistent, OnlyFlight, Leads, TapeFresh, Pipeline.PluginWorkflow, Unpark, Transition, Park;
      Shaped(s);
      CallbackLeads(s, index, idx, reply);
      CallbackSettles(s, index, k, reply, tape, analyzeOk);
      ParksOnWait(s, index, idx, reply);
      assert ListAt(s, CallbackList(index))[k] == idx;
      if f.progress == Running {
        CallbackAbsorbed(s, index, k, reply, tape);
        CallbackResumes(s, index, k, idx, f, tape);
      }
    }

    static lemma FreeSlot(s: State, idx: nat)
      requires Inv(s) && idx < |s.trials| && s.trials[idx].point.id == -1
      ensures idx < |s.place| && s.place[idx] == Free
    {}

    static lemma Settled(s: State)
      requires Inv(s)
      ensures Consistent(s)
    {}

    static lemma Shaped(s: State)
      requires Consistent(s)
      ensures Shape(s)
    {}

    static lemma ParksOnWait(s: State, index: int, idx: nat, reply: LayerReply)
      requires idx < |s.trials| && idx < |s.hist|
      ensures CallbackFlow(s, index, idx, reply).progress == Parked <==> reply.verdict == Wait
    {}

    static lemma CallbackSettles(s: State, index: int, k: nat, reply: LayerReply, tape: seq<LayerReply>,
                                 analyzeOk: bool)
      requires Inv(s) && CallbackAllowed(s, index, k, reply, tape) && ListAt(s, CallbackList(index)) != []
      ensures Inv(Pipeline.Callback(s, index, k, reply, tape, analyzeOk).state) <==> reply.verdict != Wait
    {
      hide Inv, Consistent, Pipeline.Callback, TapeFresh;
      if reply.verdict == Wait {
        CallbackWaitBreaks(s, index, k, reply, tape, analyzeOk);
      } else {
        CallbackKeeps(s, index, k, reply, tape, analyzeOk);
      }
    }

    /** The rest of a callback whose trial leaves the list. */
    static ghost predicate CallbackGoesOn(t: State, index: int, k: nat, idx: nat, tape: seq<LayerReply>,
                                          analyzeOk: bool, done: Step) {
      && Shape(t) && index != 0 && IsList(|t.hooks|, CallbackList(index))
      && k < |ListAt(t, CallbackList(index))| && ListAt(t, CallbackList(index))[k] == idx < |t.place|
      && var u := Unpark(t, index, k);
      && Consistent(u) && OnlyFlight(u, idx) && Leads(|u.hooks|, u.hist[idx], u.layer)
      && TapeFresh(u, idx, tape) && u.trials[idx].point.id >= 0 && u.tail < |u.ready|
      && done == Pipeline.PluginWorkflow(u, idx, tape, analyzeOk)
    }

    /** handle_callback. */
    method HandleCallback(index: int, k: nat, reply: LayerReply, tape: seq<LayerReply>, analyzeOk: bool)
      returns (ok: bool)
      requires Valid() && CallbackAllowed(view, index, k, reply, tape)
      modifies this, ready, lstack
      ensures Matches() && ready == old(ready)
      ensures view == Pipeline.Callback(old(view), index, k, reply, tape, analyzeOk).state
      ensures ok == Pipeline.Callback(old(view), index, k, reply, tape, analyzeOk).ok
      ensures old(ListAt(view, CallbackList(index))) == [] ==> !ok && view == old(view).(layer := index)
      ensures Inv(view) <==> (reply.verdict == Wait ==> old(ListAt(view, CallbackList(index))) == [])
    {
      hide Inv, Consistent, TapeFresh, Pipeline.PluginWorkflow;
      Shaped(view);
      var stackIdx := (if index < 0 then -index else index) - 1;
      var len := if index < 0 then lstack[stackIdx].waitAnalyzeLen else lstack[stackIdx].waitGenerateLen;
      if len < 1 {
        IdleKeeps(view, index);
        currLayer := index;
        view := view.(layer := index);
        return false;
      }
      assert ListAt(view, CallbackList(index)) != [];
      ok := ResumeCallback(index, k, reply, tape, analyzeOk);
    }

    /** handle_callback on a list that is not empty. */
    method ResumeCallback(index: int, k: nat, reply: LayerReply, tape: seq<LayerReply>, analyzeOk: bool)
      returns (ok: bool)
      requires Valid() && CallbackAllowed(view, index, k, reply, tape)
      requires ListAt(view, CallbackList(index)) != []
      modifies this, ready, lstack
      ensures Matches() && ready == old(ready)
      ensures view == Pipeline.Callback(old(view), index, k, reply, tape, analyzeOk).state
      ensures ok == Pipeline.Callback(old(view), index, k, reply, tape, analyzeOk).ok
      ensures Inv(view) <==> reply.verdict != Wait
    {
      hide Inv, Consistent, OnlyFlight, Leads, TapeFresh, LayersMatch,
           Pipeline.Callback, Pipeline.PluginWorkflow, CallbackFlow, CallbackSlot, Absorb, Unpark, Park;
      Shaped(view);
      ghost var idx' := CallbackSlot(view, index, k);
      ghost var f := CallbackFlow(view, index, idx', reply);
      CallbackEnds(view, index, k, reply, tape, analyzeOk, idx', f);
      var idx, retval := AnswerCallback(index, k, reply);
      if retval != 0 {
        return retval > 0;
      }
      Unlist(index, k);
      ok := PluginWorkflow(idx, tape, analyzeOk);
    }

    /** handle_fetch. */
    method HandleFetch(paused: bool, best: Point) returns (reply: FetchReply)
      requires Valid()
      modifies this, ready
      ensures Valid() && ready == old(ready)
      ensures old(view.head < |view.ready| && view.ready[view.head] < |view.trials|)
      ensures old(view.ready[view.head] >= 0 ==> view.queue != [])
      ensures view == Fetch(old(view), paused, best).0 && reply == Fetch(old(view), paused, best).1
      ensures reply == if paused || old(Waiting(view.trials, view.queue)) == [] then Busy(best)
                       else Candidate(old(Waiting(view.trials, view.queue))[0])
    {
      hide Inv, Consistent, LayersMatch, Waiting;
      FetchBounds(view);
      FetchKeeps(view, paused, best);
      ghost var was, after := view, Fetch(view, paused, best).0;
      var idx := ready[readyHead];
      if !paused && idx >= 0 {
        reply := Candidate(pending[idx].point);
        TakeHead();
      } else {
        pausedId := best.id;
        reply := Busy(best);
      }
      view := after;
      SameLayers(was);
    }

    /** The cell at the head is blanked and the head goes on. */
    method TakeHead()
      requires readyHead < ready.Length
      modifies this`readyHead, ready
      ensures ready[..] == old(ready[..])[old(readyHead) := -1]
      ensures readyHead == (old(readyHead) + 1) % ready.Length
    {
      ready[readyHead] := -1;
      readyHead := (readyHead + 1) % ready.Length;
    }

    static lemma FetchBounds(s: State)
      requires Inv(s)
      ensures s.head < |s.ready| && s.ready[s.head] < |s.trials| == |s.place|
      ensures s.ready[s.head] >= 0 ==> s.queue != []
      ensures |s.waitGen| == |s.waitAna| == |s.hooks|
      ensures forall k :: 0 <= k < |s.queue| ==> s.queue[k] < |s.trials|
    {
      FetchReady(s);
    }

    /** The trial a report names goes in flight at the outermost layer. */
    method BeginReport(idx: nat, perf: Perf)
      requires Matches() && idx < |pending| && idx < |view.place|
      modifies this`pausedId, this`pending, this`currLayer, this`view
      ensures Matches() && view == Reported(old(view), idx, perf)
    {
      pausedId := 0;
      pending := pending[idx := pending[idx].(perf := perf)];
      currLayer := 0 - |lstack|;
      view := Reported(view, idx, perf);
    }

    /** The model's step, by what happens in it. */
    static lemma ReportEnds(s: State, candId: int, perf: Perf, tape: seq<LayerReply>, analyzeOk: bool)
      requires Inv(s) && ReportAllowed(s, candId, tape)
      ensures Shape(s)
      ensures var idx := FindId(s.trials, candId);
              var done := Report(s, candId, perf, tape, analyzeOk);
              && Inv(done.0)
              && (idx == |s.trials| ==> done == (s, if candId == s.pausedId then Accepted else Rogue))
              && (idx < |s.trials| ==>
                    var t := Reported(s, idx, perf);
                    && Consistent(t) && OnlyFlight(t, idx) && Leads(|t.hooks|, t.hist[idx], t.layer)
                    && TapeFresh(t, idx, tape) && t.trials[idx].point.id >= 0 && t.tail < |t.ready|
                    && var step := Pipeline.PluginWorkflow(t, idx, tape, analyzeOk);
                    done == (step.state, if step.ok then Accepted else Broken))
    {
      assert Consistent(s);
      hide Inv, Consistent, OnlyFlight, Leads, TapeFresh, Pipeline.PluginWorkflow;
      Shaped(s);
      ReportKeeps(s, candId, perf, tape, analyzeOk);
      var idx := FindId(s.trials, candId);
      if idx < |s.trials| {
        ReportedKeeps(s, idx, perf);
        StillFresh(s, Reported(s, idx, perf), idx, tape);
        ReportedInFlight(s, idx, perf);
      }
    }

    static lemma ReportedInFlight(s: State, idx: nat, perf: Perf)
      requires Inv(s) && idx < |s.place| && s.place[idx] == HandedOut
      ensures s.tail < |s.ready| && idx < |s.trials| && s.trials[idx].point.id >= 0
    {
      TailBelowCap(s);
    }

    /** handle_report. */
    method HandleReport(candId: int, perf: Perf, tape: seq<LayerReply>, analyzeOk: bool) returns (reply: ReportReply)
      requires Valid() && ReportAllowed(view, candId, tape)
      modifies this, ready, lstack
      ensures Valid() && ready == old(ready)
      ensures view == Report(old(view), candId, perf, tape, analyzeOk).0
      ensures reply == Report(old(view), candId, perf, tape, analyzeOk).1
    {
      hide Inv, Consistent, OnlyFlight, Leads, TapeFresh, LayersMatch, ReportAllowed,
           Report, Pipeline.PluginWorkflow, Reported;
      ReportEnds(view, candId, perf, tape, analyzeOk);
      var idx := Search(candId);
      if idx == |pending| {
        return if candId == pausedId then Accepted else Rogue;
      }
      BeginReport(idx, perf);
      var ok := PluginWorkflow(idx, tape, analyzeOk);
      reply := if ok then Accepted else Broken;
    }

    /** The first part of extend_lists: turn a wrapped ring so that its head
        comes to cell 0, and set head and tail. */
    method TurnRing()
      requires readyHead < ready.Length && readyTail <= ready.Length
      modifies this`readyHead, this`readyTail, ready
      ensures ready[..] == TurnedCells(old(ready[..]), old(readyHead), old(readyTail))
      ensures readyHead == GrownHead(old(ready[..]), old(readyHead), old(readyTail))
      ensures readyTail == GrownTail(old(ready[..]), old(readyHead), old(readyTail))
    {
      hide ReverseStretch;
      if readyTail <= readyHead && ready[readyHead] != -1 {
        var i := ready.Length - readyHead;
        ReverseArray(ready, 0, ready.Length);
        ReverseArray(ready, 0, i);
        ReverseArray(ready, i, ready.Length);
        readyHead := 0;
        readyTail := ready.Length - readyTail + readyHead;
      }
    }

    /** The second part of extend_lists: a longer ready array, its new cells
        blanked one by one. */
    static method GrowReady(cells: array<int>, cap: nat) returns (grown: array<int>)
      requires cells.Length <= cap
      ensures fresh(grown) && grown[..] == cells[..] + Blank(cap - cells.Length)
    {
      grown := new int[cap];
      forall c | 0 <= c < cells.Length {
        grown[c] := cells[c];
      }
      var i := cells.Length;
      while i < cap
        invariant cells.Length <= i <= cap
        invariant forall c :: 0 <= c < cells.Length ==> grown[c] == cells[c]
        invariant forall c :: cells.Length <= c < i ==> grown[c] == -1
      {
        grown[i] := -1;
        i := i + 1;
      }
    }

    /** extend_lists. */
    method ExtendTo(target: nat)
      requires Valid()
      modifies this, ready
      ensures Matches() && (ready == old(ready) || fresh(ready)) && numClients == old(numClients)
      ensures old(view.head < |view.ready| && view.tail <= |view.ready|)
      ensures view == ExtendLists(old(view), target)
      ensures Inv(view) <==> ExtendAllowed(old(view), target)
    {
      hide Inv, Consistent, Shape, ExtendAllowed, ExtendLists, TurnedCells, GrownHead, GrownTail, Blank, FreeTrials,
           LayersMatch;
      ExtendEnds(view, target);
      ghost var was, after := view, ExtendLists(view, target);
      var origCap := |pending|;
      if origCap >= target {
        return;
      }
      var cap := GrownCap(target);
      TurnRing();
      ready := GrowReady(ready, cap);
      pending := pending + FreeTrials(cap - origCap);
      view := after;
      SameLayers(was);
    }

    /** The model's step, field by field. */
    static lemma ExtendEnds(s: State, target: nat)
      requires Inv(s)
      ensures s.head < |s.ready| && s.tail < |s.ready| == |s.trials|
      ensures Inv(ExtendLists(s, target)) <==> ExtendAllowed(s, target)
      ensures |s.trials| >= target ==> ExtendLists(s, target) == s
      ensures |s.trials| < target ==>
                var t, extra := ExtendLists(s, target), GrownCap(target) - |s.trials|;
                && extra >= 0
                && t.ready == TurnedCells(s.ready, s.head, s.tail) + Blank(extra)
                && t.head == GrownHead(s.ready, s.head, s.tail) && t.tail == GrownTail(s.ready, s.head, s.tail)
                && t.trials == s.trials + FreeTrials(extra)
                && t.hooks == s.hooks && t.waitGen == s.waitGen && t.waitAna == s.waitAna
                && t.pendingLen == s.pendingLen && t.layer == s.layer && t.open == s.open && t.pausedId == s.pausedId
    {
      TailBelowCap(s);
      FetchReady(s);
      assert Shape(s);
      ExtendKeepsIff(s, target);
      hide Inv, Consistent, ExtendAllowed, TurnedCells, GrownHead, GrownTail, Blank, FreeTrials;
    }

    /** The list part of handle_join: one more client, and room for its trials. */
    method HandleJoin(matches: bool) returns (ok: bool)
      requires Valid()
      modifies this, ready
      ensures ok == matches && (ready == old(ready) || fresh(ready))
      ensures old(view.head < |view.ready| && view.tail <= |view.ready|)
      ensures numClients == old(numClients) + (if matches then 1 else 0) && Matches()
      ensures view == if matches then ExtendLists(old(view), (old(numClients) + 1) * perClient) else old(view)
      ensures Inv(view) <==> (matches ==> ExtendAllowed(old(view), (old(numClients) + 1) * perClient))
    {
      TailBelowCap(view);
      assert view.head < |view.ready|;
      hide Inv, ExtendLists, ExtendAllowed, LayersMatch;
      if !matches {
        return false;
      }
      numClients := numClients + 1;
      var target := numClients * perClient;
      assert target == (old(numClients) + 1) * perClient;
      ExtendTo(target);
      ok := true;
    }
  }
}
