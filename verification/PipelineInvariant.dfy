/** The pipeline's invariant is kept by every step the plug-ins' contracts
    allow, and what follows from it over whole runs. */
module PipelineInvariant {
  import opened Ring
  import opened Workflow
  import opened Pipeline

  // ---- Plug-in contracts -------------------------------------------------

  /** A point may be put into slot idx: its id is non-negative and not live
      in another slot. */
  ghost predicate FreshFor(s: State, idx: nat, point: Point) {
    point.id >= 0 && forall i :: 0 <= i < |s.trials| && i != idx ==> s.trials[i].point.id != point.id
  }

  ghost predicate ReplyFresh(s: State, idx: nat, reply: LayerReply) {
    reply.verdict.Reject? && reply.verdict.reply.Regenerated? ==> FreshFor(s, idx, reply.verdict.reply.point)
  }

  ghost predicate TapeFresh(s: State, idx: nat, tape: seq<LayerReply>) {
    forall n :: 0 <= n < |tape| ==> ReplyFresh(s, idx, tape[n])
  }

  // ---- Lists -------------------------------------------------------------

  /** The slot enters one list at its end; the other lists are as before. */
  lemma MoveIn(s: State, t: State, idx: nat, into: Place)
    requires Shape(s) && Placed(s) && Shape(t) && t.hooks == s.hooks
    requires idx < |s.place| && s.place[idx] == InFlight && t.place == s.place[idx := into]
    requires IsList(|s.hooks|, into) && ListAt(t, into) == ListAt(s, into) + [idx]
    requires forall p :: IsList(|s.hooks|, p) && p != into ==> ListAt(t, p) == ListAt(s, p)
    ensures Placed(t)
  {
    forall p | IsList(|t.hooks|, p)
      ensures ListHolds(t, p)
    {
      assert ListHolds(s, p);
      if p == into {
        assert idx !in ListAt(s, p);
        forall i: nat
          ensures i in ListAt(t, p) <==> i < |t.place| && t.place[i] == p
        {
          assert i in ListAt(t, p) <==> i in ListAt(s, p) || i == idx;
        }
      }
    }
  }

  /** The slot leaves every list alone and its place is no list. */
  lemma MoveBeside(s: State, t: State, idx: nat, to: Place)
    requires Shape(s) && Placed(s) && Shape(t) && t.hooks == s.hooks
    requires idx < |s.place| && t.place == s.place[idx := to]
    requires !(s.place[idx].Ready? || s.place[idx].WaitGen? || s.place[idx].WaitAna?)
    requires !(to.Ready? || to.WaitGen? || to.WaitAna?)
    requires forall p :: IsList(|s.hooks|, p) ==> ListAt(t, p) == ListAt(s, p)
    ensures Placed(t)
  {
    forall p | IsList(|t.hooks|, p)
      ensures ListHolds(t, p)
    {
      assert ListHolds(s, p);
    }
  }

  /** The slot at position k leaves its list; the rest of the list stays. */
  lemma MoveOut(s: State, t: State, idx: nat, from: Place, k: nat, to: Place)
    requires Shape(s) && Placed(s) && Shape(t) && t.hooks == s.hooks
    requires idx < |s.place| && s.place[idx] == from && t.place == s.place[idx := to]
    requires !(to.Ready? || to.WaitGen? || to.WaitAna?)
    requires IsList(|s.hooks|, from) && k < |ListAt(s, from)| && ListAt(s, from)[k] == idx
    requires ListAt(t, from) == SwapRemove(ListAt(s, from), k) || (k == 0 && ListAt(t, from) == ListAt(s, from)[1..])
    requires forall p :: IsList(|s.hooks|, p) && p != from ==> ListAt(t, p) == ListAt(s, p)
    ensures Placed(t)
  {
    forall p | IsList(|t.hooks|, p)
      ensures ListHolds(t, p)
    {
      assert ListHolds(s, p);
      if p == from {
        Removed(ListAt(s, p), k, ListAt(t, p));
      }
    }
  }

  /** Swap-removal, like taking the front, removes that element and no other. */
  lemma Removed(xs: seq<nat>, k: nat, ys: seq<nat>)
    requires k < |xs| && Distinct(xs)
    requires ys == SwapRemove(xs, k) || (k == 0 && ys == xs[1..])
    ensures Distinct(ys)
    ensures forall x: nat :: x in ys <==> x in xs && x != xs[k]
  {
    forall x: nat
      ensures x in ys <==> x in xs && x != xs[k]
    {
      if x in xs && x != xs[k] {
        var j :| 0 <= j < |xs| && xs[j] == x;
        if ys == SwapRemove(xs, k) {
          assert ys[if j == |xs| - 1 then k else j] == x;
        } else {
          assert ys[j - 1] == x;
        }
      }
    }
  }

  // ---- Counting ----------------------------------------------------------

  lemma {:induction false} CountUpdate(place: seq<Place>, idx: nat, p: Place)
    requires idx < |place|
    ensures LiveCount(place[idx := p]) == LiveCount(place)
            - (if place[idx] == Free then 0 else 1) + (if p == Free then 0 else 1)
  {
    if idx == 0 {
      assert place[idx := p][1..] == place[1..];
    } else {
      assert place[idx := p][1..] == place[1..][idx - 1 := p];
      CountUpdate(place[1..], idx - 1, p);
    }
  }

  lemma {:induction false} CountAppendFree(place: seq<Place>, more: seq<Place>)
    requires forall i :: 0 <= i < |more| ==> more[i] == Free
    ensures LiveCount(place + more) == LiveCount(place)
    decreases |place|, |more|
  {
    if place == [] {
      assert place + more == more;
      if more != [] {
        CountAppendFree([], more[1..]);
        assert [] + more[1..] == more[1..];
      }
    } else {
      assert (place + more)[1..] == place[1..] + more;
      CountAppendFree(place[1..], more);
    }
  }

  /** Fewer live slots than slots means there is a free one. */
  lemma {:induction false} RoomMeansFree(place: seq<Place>)
    requires LiveCount(place) < |place|
    ensures exists i :: 0 <= i < |place| && place[i] == Free
  {
    if place[0] == Free {
    } else {
      RoomMeansFree(place[1..]);
      var i :| 0 <= i < |place[1..]| && place[1..][i] == Free;
      assert place[i + 1] == Free;
    }
  }

  // ---- Room in the ring --------------------------------------------------

  ghost function Below(n: nat): (r: set<nat>)
    ensures |r| == n && forall x: nat :: x in r <==> x < n
  {
    if n == 0 then {} else Below(n - 1) + {n - 1}
  }

  ghost function Elements(xs: seq<nat>): (r: set<nat>)
    ensures forall x: nat :: x in r <==> x in xs
  {
    if xs == [] then {} else {xs[0]} + Elements(xs[1..])
  }

  /** Distinct numbers below n that leave one out are fewer than n. */
  lemma {:induction false} PigeonRoom(xs: seq<nat>, n: nat, out: nat)
    requires Distinct(xs) && out < n && out !in xs
    requires forall x :: x in xs ==> x < n
    ensures |xs| < n
  {
    DistinctCard(xs);
    SubsetCard(Elements(xs), Below(n) - {out});
  }

  lemma {:induction false} DistinctCard(xs: seq<nat>)
    requires Distinct(xs)
    ensures |Elements(xs)| == |xs|
  {
    if xs != [] {
      DistinctCard(xs[1..]);
      forall i | 0 <= i < |xs[1..]|
        ensures xs[1..][i] != xs[0]
      {
        assert xs[1..][i] == xs[i + 1];
      }
      assert xs[0] !in Elements(xs[1..]);
    }
  }

  lemma {:induction false} SubsetCard(a: set<nat>, b: set<nat>)
    requires a <= b
    ensures |a| <= |b|
  {
    if a != {} {
      var x :| x in a;
      SubsetCard(a - {x}, b - {x});
    }
  }

  /** While a slot is outside the ready queue, the cell at the tail is empty:
      the ready-queue overflow error cannot be taken. */
  lemma TailIsEmpty(s: State, idx: nat)
    requires Consistent(s) && idx < |s.place| && s.place[idx] != Ready
    ensures |s.queue| < |s.ready| && s.tail < |s.ready| && s.ready[s.tail] == -1
  {
    assert ListHolds(s, Ready);
    assert ListAt(s, Ready) == s.queue;
    PigeonRoom(s.queue, |s.ready|, idx);
    PushHolds(s.ready, s.head, s.tail, s.queue, idx);
  }

  // ---- Waiting points ----------------------------------------------------

  lemma {:induction false} WaitingSame(trials: seq<Trial>, other: seq<Trial>, queue: seq<nat>)
    requires forall k :: 0 <= k < |queue| ==> queue[k] < |trials| && queue[k] < |other|
    requires forall k :: 0 <= k < |queue| ==> trials[queue[k]].point == other[queue[k]].point
    ensures Waiting(trials, queue) == Waiting(other, queue)
  {
    if queue != [] {
      WaitingSame(trials, other, queue[1..]);
    }
  }

  lemma {:induction false} WaitingAppend(trials: seq<Trial>, queue: seq<nat>, idx: nat)
    requires forall k :: 0 <= k < |queue| ==> queue[k] < |trials|
    requires idx < |trials|
    ensures Waiting(trials, queue + [idx]) == Waiting(trials, queue) + [trials[idx].point]
  {
    assert forall k :: 0 <= k < |queue + [idx]| ==>
             Waiting(trials, queue + [idx])[k] == (Waiting(trials, queue) + [trials[idx].point])[k];
  }

  // ---- The parts of a step -----------------------------------------------

  /** Everything but slot idx is settled. */
  ghost predicate OnlyFlight(s: State, idx: nat) {
    && idx < |s.place| && s.place[idx] == InFlight
    && forall i :: 0 <= i < |s.place| && i != idx ==> s.place[i] != InFlight
  }

  lemma NotQueued(s: State, idx: nat)
    requires Shape(s) && Placed(s) && idx < |s.place| && s.place[idx] != Ready
    ensures forall k :: 0 <= k < |s.queue| ==> s.queue[k] != idx && s.queue[k] < |s.trials|
  {
    assert ListHolds(s, Ready);
    assert ListAt(s, Ready) == s.queue;
    forall k | 0 <= k < |s.queue|
      ensures s.queue[k] != idx && s.queue[k] < |s.trials|
    {
      assert s.queue[k] in ListAt(s, Ready);
    }
  }

  lemma AbsorbIds(s: State, idx: nat, f: Flow)
    requires Shape(s) && IdsOk(s) && idx < |s.place| && s.place[idx] != Free
    requires InStack(|s.hooks|, f.layer) && FreshFor(s, idx, f.trial.point)
    ensures Shape(Absorb(s, idx, f)) && IdsOk(Absorb(s, idx, f))
  {}

  lemma SameAnalyses(s: State, t: State)
    requires AnalysesOk(s) && t.analyzed == s.analyzed && t.hooks == s.hooks
    ensures AnalysesOk(t)
  {}

  lemma AbsorbKeeps(s: State, idx: nat, f: Flow)
    requires Consistent(s) && idx < |s.place| && s.place[idx] != Ready && s.place[idx] != Free
    requires InStack(|s.hooks|, f.layer) && FreshFor(s, idx, f.trial.point)
    requires HistoryFits(|s.hooks|, s.place[idx], f.hist)
    ensures Consistent(Absorb(s, idx, f))
  {
    hide Placed, Holds, Linked, HistoryFits, LiveCount, Waiting, IdsOk, AnalysesOk;
    var t := Absorb(s, idx, f);
    AbsorbIds(s, idx, f);
    SamePlaces(s, t);
    NotQueued(s, idx);
    WaitingSame(s.trials, t.trials, s.queue);
    SameAnalyses(s, t);
  }

  /** A slot in flight that is given a place in the lists, or beside them,
      is settled; nothing else about the trials changes. */
  lemma Settle(s: State, t: State, idx: nat, p: Place)
    requires Consistent(s) && OnlyFlight(s, idx)
    requires p != Free && p != InFlight && HistoryFits(|s.hooks|, p, s.hist[idx])
    requires t.place == s.place[idx := p] && t.trials == s.trials && t.hist == s.hist && t.hooks == s.hooks
    requires t.pendingLen == s.pendingLen && t.analyzed == s.analyzed
    requires Shape(t) && Placed(t) && Holds(t.ready, t.head, t.tail, t.queue) && Fifo(t)
    ensures Inv(t)
  {
    hide Placed, Holds, Fifo;
    CountUpdate(s.place, idx, p);
  }

  lemma ParkPlaces(s: State, idx: nat)
    requires Shape(s) && Placed(s) && idx < |s.place| && s.place[idx] == InFlight
    requires s.layer != 0 && s.layer <= |s.hooks|
    ensures Shape(Park(s, idx)) && Placed(Park(s, idx))
    ensures Park(s, idx).place == s.place[idx := CallbackList(s.layer)]
  {
    var t := Park(s, idx);
    var into := CallbackList(s.layer);
    assert ListAt(t, into) == ListAt(s, into) + [idx];
    MoveIn(s, t, idx, into);
  }

  lemma ParkKeeps(s: State, idx: nat)
    requires Consistent(s) && OnlyFlight(s, idx)
    requires s.layer != 0 && s.layer <= |s.hooks|
    requires s.hist[idx] != [] && s.hist[idx][|s.hist[idx]| - 1] == s.layer
    ensures Inv(Park(s, idx))
  {
    ParkPlaces(s, idx);
    Settle(s, Park(s, idx), idx, CallbackList(s.layer));
  }

  lemma StrandKeeps(s: State, idx: nat)
    requires Consistent(s) && OnlyFlight(s, idx)
    ensures Inv(Put(s, idx, Stranded))
  {
    var t := Put(s, idx, Stranded);
    forall p | IsList(|s.hooks|, p)
      ensures ListAt(t, p) == ListAt(s, p)
    {}
    MoveBeside(s, t, idx, Stranded);
    Settle(s, t, idx, Stranded);
  }

  /** A slot outside the lists changes hands: its place, trial and history are
      replaced, everything else stays. */
  ghost predicate Rewrites(s: State, t: State, idx: nat, to: Place, trial: Trial, h: seq<int>) {
    && idx < |s.place| == |s.trials| == |s.hist|
    && !(s.place[idx].Ready? || s.place[idx].WaitGen? || s.place[idx].WaitAna?)
    && !(to.Ready? || to.WaitGen? || to.WaitAna?)
    && t.hooks == s.hooks && t.place == s.place[idx := to]
    && t.trials == s.trials[idx := trial] && t.hist == s.hist[idx := h]
    && t.ready == s.ready && t.head == s.head && t.tail == s.tail && t.queue == s.queue
    && t.waitGen == s.waitGen && t.waitAna == s.waitAna
    && t.enqueued == s.enqueued && t.fetched == s.fetched
    && t.pendingLen == s.pendingLen - (if s.place[idx] == Free then 0 else 1) + (if to == Free then 0 else 1)
    && InStack(|s.hooks|, t.layer)
  }

  lemma RewriteIds(s: State, t: State, idx: nat, to: Place, trial: Trial, h: seq<int>)
    requires Shape(s) && IdsOk(s) && Shape(t) && Rewrites(s, t, idx, to, trial, h)
    requires if to == Free then trial.point.id == -1 else FreshFor(s, idx, trial.point)
    ensures IdsOk(t)
  {}

  lemma RewriteLists(s: State, t: State, idx: nat, to: Place, trial: Trial, h: seq<int>)
    requires Shape(s) && Placed(s) && Fifo(s) && Shape(t) && Rewrites(s, t, idx, to, trial, h)
    ensures Placed(t) && Fifo(t)
  {
    forall p | IsList(|s.hooks|, p)
      ensures ListAt(t, p) == ListAt(s, p)
    {}
    MoveBeside(s, t, idx, to);
    NotQueued(s, idx);
    WaitingSame(s.trials, t.trials, s.queue);
  }

  lemma RewriteKeeps(s: State, t: State, idx: nat, to: Place, trial: Trial, h: seq<int>)
    requires Consistent(s) && Rewrites(s, t, idx, to, trial, h) && AnalysesOk(t)
    requires if to == Free then trial.point.id == -1 else FreshFor(s, idx, trial.point)
    requires HistoryFits(|s.hooks|, to, h)
    ensures Consistent(t)
  {
    assert Shape(t);
    CountUpdate(s.place, idx, to);
    RewriteIds(s, t, idx, to, trial, h);
    RewriteLists(s, t, idx, to, trial, h);
    hide Holds, Placed, Fifo, IdsOk, AnalysesOk;
  }

  lemma RetireKeeps(s: State, idx: nat)
    requires Consistent(s) && OnlyFlight(s, idx)
    requires Descended(|s.hooks|, s.hist[idx])
    ensures Inv(Retire(s, idx))
  {
    var t := Retire(s, idx);
    assert AnalysesOk(t);
    RewriteKeeps(s, t, idx, Free, s.trials[idx].(point := NO_POINT), []);
    hide Consistent;
  }

  lemma EnqueuePlaces(s: State, idx: nat)
    requires Shape(s) && Placed(s) && idx < |s.place| && s.place[idx] == InFlight
    requires s.tail < |s.ready| && s.ready[s.tail] == -1
    ensures Enqueue(s, idx).ok && Shape(Enqueue(s, idx).state) && Placed(Enqueue(s, idx).state)
  {
    var t := Enqueue(s, idx).state;
    forall p | IsList(|s.hooks|, p) && p != Ready
      ensures ListAt(t, p) == ListAt(s, p)
    {}
    MoveIn(s, t, idx, Ready);
  }

  lemma EnqueueFifo(s: State, idx: nat)
    requires Shape(s) && Fifo(s) && idx < |s.place|
    requires s.tail < |s.ready| && s.ready[s.tail] == -1
    ensures Fifo(Enqueue(s, idx).state)
  {
    WaitingAppend(s.trials, s.queue, idx);
    assert s.enqueued + [s.trials[idx].point] == s.fetched + (Waiting(s.trials, s.queue) + [s.trials[idx].point]);
  }

  lemma EnqueueKeeps(s: State, idx: nat)
    requires Consistent(s) && OnlyFlight(s, idx)
    requires Leads(|s.hooks|, s.hist[idx], |s.hooks| + 1)
    ensures s.tail < |s.ready| && Enqueue(s, idx).ok && Inv(Enqueue(s, idx).state)
    ensures Enqueue(s, idx).state.enqueued == s.enqueued + [s.trials[idx].point]
  {
    TailIsEmpty(s, idx);
    PushHolds(s.ready, s.head, s.tail, s.queue, idx);
    EnqueuePlaces(s, idx);
    EnqueueFifo(s, idx);
    Settle(s, Enqueue(s, idx).state, idx, Ready);
  }

  /** The end of a passage settles its slot, and the program's own internal
      errors are never the reason for a failure. */
  lemma FinishKeeps(s: State, idx: nat, f: Flow, analyzeOk: bool)
    requires Consistent(s) && OnlyFlight(s, idx) && s.tail < |s.ready|
    requires InStack(|s.hooks|, f.layer) && Linked(|s.hooks|, f.hist) && FreshFor(s, idx, f.trial.point)
    requires f.progress == Running ==> Leads(|s.hooks|, f.hist, f.layer) && !AtLayer(|s.hooks|, f)
    requires f.progress == Parked ==>
               f.layer != 0 && f.hist != [] && f.hist[|f.hist| - 1] == f.layer <= |s.hooks|
    ensures Inv(Finish(s, idx, f, analyzeOk).state)
    ensures Finish(s, idx, f, analyzeOk).ok <==>
            f.progress != Failed && (f.progress == Running && f.layer == 0 ==> analyzeOk)
  {
    AbsorbKeeps(s, idx, f);
    var t := Absorb(s, idx, f);
    match f.progress
    case Parked => ParkKeeps(t, idx);
    case Dropped => StrandKeeps(t, idx);
    case Failed => StrandKeeps(t, idx);
    case Running =>
      if f.layer == 0 {
        if analyzeOk {
          StrategyReachedByDescent(|s.hooks|, f.hist);
          RetireKeeps(t, idx);
        } else {
          StrandKeeps(t, idx);
        }
      } else {
        assert f.layer == |s.hooks| + 1;
        EnqueueKeeps(t, idx);
      }
  }

  /** A run of plugin_workflow settles the slot it was started for. */
  lemma WorkflowKeeps(s: State, idx: nat, tape: seq<LayerReply>, analyzeOk: bool)
    requires Consistent(s) && OnlyFlight(s, idx)
    requires Leads(|s.hooks|, s.hist[idx], s.layer) && TapeFresh(s, idx, tape)
    requires s.trials[idx].point.id >= 0
    ensures s.tail < |s.ready| && Inv(PluginWorkflow(s, idx, tape, analyzeOk).state)
  {
    TailIsEmpty(s, idx);
    var f := Start(s, idx, tape);
    var r := Run(s.hooks, f);
    RunKeepsHistory(s.hooks, f);
    RunPoint(s.hooks, f);
    assert FreshFor(s, idx, r.trial.point) by {
      if r.trial.point != f.trial.point {
        var n :| 0 <= n < |tape| && tape[n].verdict == Reject(Regenerated(r.trial.point));
        assert ReplyFresh(s, idx, tape[n]);
      }
    }
    FinishKeeps(s, idx, r, analyzeOk);
  }

  // ---- The steps ---------------------------------------------------------

  ghost predicate GenerateAllowed(s: State, reply: GenerateReply, tape: seq<LayerReply>) {
    reply.Generated? ==>
      FreshFor(s, FindId(s.trials, -1), reply.point) && TapeFresh(s, FindId(s.trials, -1), tape)
  }

  lemma LaunchKeeps(s: State, idx: nat, point: Point)
    requires Inv(s) && idx < |s.place| && s.place[idx] == Free && FreshFor(s, idx, point)
    ensures Consistent(Launch(s, idx, point)) && OnlyFlight(Launch(s, idx, point), idx)
    ensures Leads(|s.hooks|, Launch(s, idx, point).hist[idx], 1)
  {
    RewriteKeeps(s, Launch(s, idx, point), idx, InFlight, Trial(point, Unmeasured), []);
    hide Consistent;
  }

  /** The tape stays fresh while only slot idx changes its point. */
  lemma StillFresh(s: State, t: State, idx: nat, tape: seq<LayerReply>)
    requires TapeFresh(s, idx, tape) && |t.trials| == |s.trials|
    requires forall i :: 0 <= i < |s.trials| && i != idx ==> t.trials[i].point == s.trials[i].point
    ensures TapeFresh(t, idx, tape)
  {
    forall n | 0 <= n < |tape|
      ensures ReplyFresh(t, idx, tape[n])
    {
      assert ReplyFresh(s, idx, tape[n]);
    }
  }

  /** Lists and places alone decide whether the slots are where they belong. */
  lemma SamePlaces(s: State, t: State)
    requires Shape(s) && Placed(s) && Shape(t) && t.hooks == s.hooks
    requires t.place == s.place && t.queue == s.queue && t.waitGen == s.waitGen && t.waitAna == s.waitAna
    ensures Placed(t)
  {
    forall p | IsList(|t.hooks|, p)
      ensures ListHolds(t, p)
    {
      assert ListHolds(s, p);
      assert ListAt(t, p) == ListAt(s, p);
    }
  }

  lemma NoTrialKeeps(s: State, idx: nat, open: bool)
    requires Inv(s) && idx < |s.trials|
    ensures Inv(NoTrial(s, idx, open))
  {
    var t := NoTrial(s, idx, open);
    SamePlaces(s, t);
    WaitingSame(s.trials, t.trials, s.queue);
    hide Placed, Holds;
  }

  /** Generating a trial keeps the invariant; with room in the lists the
      point-generation overflow error is not taken. */
  lemma GenerateKeeps(s: State, reply: GenerateReply, tape: seq<LayerReply>, analyzeOk: bool)
    requires Inv(s) && s.tail < |s.ready| && GenerateAllowed(s, reply, tape)
    ensures Inv(GenerateTrial(s, reply, tape, analyzeOk).state)
    ensures s.pendingLen < |s.trials| ==> FindId(s.trials, -1) < |s.trials|
  {
    var idx := FindId(s.trials, -1);
    if s.pendingLen < |s.trials| {
      RoomMeansFree(s.place);
    }
    if idx < |s.trials| {
      match reply
      case NotYet =>
        NoTrialKeeps(s, idx, false);
      case Unable =>
        NoTrialKeeps(s, idx, s.open);
      case Generated(point) =>
        LaunchKeeps(s, idx, point);
        StillFresh(s, Launch(s, idx, point), idx, tape);
        var t := Launch(s, idx, point);
        assert t.trials[idx].point.id >= 0;
        hide Consistent, OnlyFlight, Leads, TapeFresh;
        WorkflowKeeps(t, idx, tape, analyzeOk);
    }
  }

  ghost predicate CallbackAllowed(s: State, index: int, k: nat, reply: LayerReply, tape: seq<LayerReply>) {
    && Consistent(s) && index != 0 && IsList(|s.hooks|, CallbackList(index))
    && (ListAt(s, CallbackList(index)) != [] ==>
          && k < |ListAt(s, CallbackList(index))|
          && ReplyFresh(s, CallbackSlot(s, index, k), reply)
          && TapeFresh(s, CallbackSlot(s, index, k), tape))
  }

  lemma CallbackAbsorbed(s: State, index: int, k: nat, reply: LayerReply, tape: seq<LayerReply>)
    requires Inv(s) && CallbackAllowed(s, index, k, reply, tape)
    requires ListAt(s, CallbackList(index)) != []
    ensures var idx := CallbackSlot(s, index, k);
            var f := CallbackFlow(s, index, idx, reply);
            Inv(Absorb(s, idx, f)) && FreshFor(s, idx, f.trial.point)
  {
    var idx := CallbackSlot(s, index, k);
    CallbackLeads(s, index, idx, reply);
    var f := CallbackFlow(s, index, idx, reply);
    assert HistoryFits(|s.hooks|, s.place[idx], s.hist[idx]);
    AbsorbKeeps(s, idx, f);
  }

  lemma UnparkPlaces(s: State, index: int, k: nat, idx: nat)
    requires Shape(s) && Placed(s) && index != 0 && IsList(|s.hooks|, CallbackList(index))
    requires k < |ListAt(s, CallbackList(index))| && idx < |s.place| && ListAt(s, CallbackList(index))[k] == idx
    ensures s.place[idx] == CallbackList(index)
    ensures Shape(Unpark(s, index, k)) && Placed(Unpark(s, index, k))
  {
    var t := Unpark(s, index, k);
    var from := CallbackList(index);
    assert ListHolds(s, from) && idx in ListAt(s, from);
    forall p | IsList(|s.hooks|, p) && p != from
      ensures ListAt(t, p) == ListAt(s, p)
    {}
    MoveOut(s, t, idx, from, k, InFlight);
  }

  lemma UnparkRest(s: State, t: State, idx: nat)
    requires Consistent(s) && Shape(t) && idx < |s.place| && s.place[idx] != Free && s.place[idx] != Ready
    requires t.place == s.place[idx := InFlight] && t.trials == s.trials && t.hist == s.hist && t.hooks == s.hooks
    requires t.pendingLen == s.pendingLen && t.queue == s.queue && t.enqueued == s.enqueued && t.fetched == s.fetched
    ensures IdsOk(t) && HistoriesOk(t) && Fifo(t) && t.pendingLen == LiveCount(t.place)
  {
    hide Placed, Holds, Waiting, Linked, AnalysesOk;
    CountUpdate(s.place, idx, InFlight);
  }

  lemma UnparkKeeps(s: State, index: int, k: nat, idx: nat)
    requires Inv(s) && index != 0 && IsList(|s.hooks|, CallbackList(index))
    requires k < |ListAt(s, CallbackList(index))| && idx < |s.place| && ListAt(s, CallbackList(index))[k] == idx
    ensures Consistent(Unpark(s, index, k)) && OnlyFlight(Unpark(s, index, k), idx)
  {
    UnparkPlaces(s, index, k, idx);
    UnparkRest(s, Unpark(s, index, k), idx);
    hide Placed, Holds, IdsOk, HistoriesOk, Fifo;
  }

  /** A callback that does not answer WAIT keeps the invariant. */
  lemma CallbackKeeps(s: State, index: int, k: nat, reply: LayerReply, tape: seq<LayerReply>, analyzeOk: bool)
    requires Inv(s) && CallbackAllowed(s, index, k, reply, tape) && reply.verdict != Wait
    ensures Inv(Callback(s, index, k, reply, tape, analyzeOk).state)
  {
    assert Shape(s);
    hide Inv, Consistent, OnlyFlight, Leads, TapeFresh, Transition;
    if ListAt(s, CallbackList(index)) == [] {
      IdleKeeps(s, index);
    } else {
      var idx := CallbackSlot(s, index, k);
      var f := CallbackFlow(s, index, idx, reply);
      CallbackLeads(s, index, idx, reply);
      assert f.progress != Parked by { NotParked(s, index, idx, reply); }
      CallbackAbsorbed(s, index, k, reply, tape);
      if f.progress == Running {
        CallbackResumes(s, index, k, idx, f, tape);
        var u := Unpark(Absorb(s, idx, f), index, k);
        WorkflowKeeps(u, idx, tape, analyzeOk);
      }
    }
  }

  lemma NotParked(s: State, index: int, idx: nat, reply: LayerReply)
    requires idx < |s.trials| && idx < |s.hist| && reply.verdict != Wait
    ensures CallbackFlow(s, index, idx, reply).progress != Parked
  {}

  /** A callback that finds nothing parked only moves the current layer. */
  lemma IdleKeeps(s: State, index: int)
    requires Inv(s) && index != 0 && IsList(|s.hooks|, CallbackList(index))
    ensures Inv(s.(layer := index))
  {
    SamePlaces(s, s.(layer := index));
  }

  /** The trial a callback answers for leaves its list and goes on. */
  lemma CallbackResumes(s: State, index: int, k: nat, idx: nat, f: Flow, tape: seq<LayerReply>)
    requires Shape(s) && idx < |s.place| && Inv(Absorb(s, idx, f))
    requires index != 0 && IsList(|s.hooks|, CallbackList(index))
    requires k < |ListAt(s, CallbackList(index))| && ListAt(s, CallbackList(index))[k] == idx
    requires f.progress == Running && Leads(|s.hooks|, f.hist, f.layer)
    requires FreshFor(s, idx, f.trial.point) && TapeFresh(s, idx, tape)
    ensures ListAt(Absorb(s, idx, f), CallbackList(index)) == ListAt(s, CallbackList(index))
    ensures var u := Unpark(Absorb(s, idx, f), index, k);
            && Shape(u) && Consistent(u) && OnlyFlight(u, idx) && u.tail < |u.ready|
            && Leads(|u.hooks|, u.hist[idx], u.layer)
            && TapeFresh(u, idx, tape) && u.trials[idx].point.id >= 0
  {
    var t := Absorb(s, idx, f);
    assert ListAt(t, CallbackList(index)) == ListAt(s, CallbackList(index));
    UnparkKeeps(t, index, k, idx);
    var u := Unpark(t, index, k);
    TailIsEmpty(u, idx);
    StillFresh(s, u, idx, tape);
    hide Inv, Consistent, OnlyFlight, Leads, TapeFresh;
  }

  /** A callback that answers WAIT always breaks it: the trial is listed twice. */
  lemma CallbackWaitBreaks(s: State, index: int, k: nat, reply: LayerReply, tape: seq<LayerReply>, analyzeOk: bool)
    requires Inv(s) && CallbackAllowed(s, index, k, reply, tape) && reply.verdict == Wait
    requires ListAt(s, CallbackList(index)) != []
    ensures !Inv(Callback(s, index, k, reply, tape, analyzeOk).state)
  {
    hide Callback, Holds, IdsOk, HistoriesOk, Fifo, AnalysesOk;
    WaitParks(s, index, k, reply, tape, analyzeOk);
    var list := ListAt(s, CallbackList(index));
    var t := Callback(s, index, k, reply, tape, analyzeOk).state;
    assert (list + [list[k]])[k] == (list + [list[k]])[|list|];
    assert Inv(t) ==> ListHolds(t, CallbackList(index));
  }

  lemma WaitParks(s: State, index: int, k: nat, reply: LayerReply, tape: seq<LayerReply>, analyzeOk: bool)
    requires Inv(s) && CallbackAllowed(s, index, k, reply, tape) && reply.verdict == Wait
    requires ListAt(s, CallbackList(index)) != []
    ensures var t, list := Callback(s, index, k, reply, tape, analyzeOk).state, ListAt(s, CallbackList(index));
            && t.hooks == s.hooks && |t.waitGen| == |t.waitAna| == |t.hooks|
            && ListAt(t, CallbackList(index)) == list + [list[k]]
  {
    assert Shape(s);
    hide Inv, Consistent, Leads;
    CallbackLeads(s, index, CallbackSlot(s, index, k), reply);
  }

  lemma FetchReady(s: State)
    requires Consistent(s)
    ensures s.head < |s.ready| && s.ready[s.head] < |s.trials|
    ensures s.ready[s.head] >= 0 <==> s.queue != []
    ensures s.queue != [] ==> s.ready[s.head] == s.queue[0] && s.place[s.queue[0]] == Ready
  {
    HeadCell(s.ready, s.head, s.tail, s.queue);
    if s.queue != [] {
      assert ListHolds(s, Ready);
      assert s.queue[0] in ListAt(s, Ready);
    }
  }

  lemma Regroup(a: seq<Point>, b: seq<Point>, c: seq<Point>)
    ensures a + (b + c) == a + b + c
  {}

  lemma HandOutFifo(s: State, t: State)
    requires Shape(s) && Fifo(s) && s.queue != []
    requires t.trials == s.trials && t.queue == s.queue[1..] && t.enqueued == s.enqueued
    requires t.fetched == s.fetched + [s.trials[s.queue[0]].point]
    ensures Fifo(t)
  {
    var front, rest := [s.trials[s.queue[0]].point], Waiting(t.trials, t.queue);
    assert Waiting(s.trials, s.queue) == front + rest;
    hide Waiting;
    Regroup(s.fetched, front, rest);
  }

  /** A settled slot that goes from the queue to a client stays settled. */
  lemma Released(s: State, t: State, idx: nat)
    requires Inv(s) && idx < |s.place| && s.place[idx] == Ready
    requires t.place == s.place[idx := HandedOut] && t.trials == s.trials && t.hist == s.hist && t.hooks == s.hooks
    requires t.pendingLen == s.pendingLen && t.analyzed == s.analyzed
    requires Shape(t) && Placed(t) && Holds(t.ready, t.head, t.tail, t.queue) && Fifo(t)
    ensures Inv(t)
  {
    hide Placed, Holds, Fifo;
    CountUpdate(s.place, idx, HandedOut);
    assert HistoryFits(|s.hooks|, s.place[idx], s.hist[idx]);
  }

  /** Handing out the front of the queue. */
  lemma HandOutKeeps(s: State, best: Point)
    requires Inv(s) && s.queue != [] && s.head < |s.ready| && s.ready[s.head] < |s.trials|
    ensures Inv(Fetch(s, false, best).0)
  {
    FetchReady(s);
    var t := Fetch(s, false, best).0;
    PopHolds(s.ready, s.head, s.tail, s.queue);
    HandOutPlaces(s, t, s.queue[0]);
    HandOutFifo(s, t);
    Released(s, t, s.queue[0]);
  }

  lemma HandOutPlaces(s: State, t: State, idx: nat)
    requires Shape(s) && Placed(s) && Shape(t) && t.hooks == s.hooks
    requires s.queue != [] && idx == s.queue[0] < |s.place|
    requires t.place == s.place[idx := HandedOut] && t.queue == s.queue[1..]
    requires t.waitGen == s.waitGen && t.waitAna == s.waitAna
    ensures Placed(t)
  {
    assert ListHolds(s, Ready) && idx in ListAt(s, Ready);
    forall p | IsList(|s.hooks|, p) && p != Ready
      ensures ListAt(t, p) == ListAt(s, p)
    {}
    MoveOut(s, t, idx, Ready, 0, HandedOut);
  }

  /** A fetch keeps the invariant and hands out the trial that has waited
      longest; only when nothing waits, or the session is paused, does it send
      the best point instead. */
  lemma FetchKeeps(s: State, paused: bool, best: Point)
    requires Inv(s) && s.head < |s.ready| && s.ready[s.head] < |s.trials|
    requires s.ready[s.head] >= 0 ==> s.queue != []
    ensures Inv(Fetch(s, paused, best).0)
    ensures Fetch(s, paused, best).1 ==
            if paused || Waiting(s.trials, s.queue) == [] then Busy(best)
            else Candidate(Waiting(s.trials, s.queue)[0])
  {
    FetchReady(s);
    if !paused && s.queue != [] {
      HandOutKeeps(s, best);
    } else {
      SamePlaces(s, s.(pausedId := best.id));
    }
  }

  ghost predicate ReportAllowed(s: State, candId: int, tape: seq<LayerReply>) {
    NamesHandedOut(s, candId) && TapeFresh(s, FindId(s.trials, candId), tape)
  }

  lemma ReportedKeeps(s: State, idx: nat, perf: Perf)
    requires Inv(s) && idx < |s.place| && s.place[idx] == HandedOut
    ensures Consistent(Reported(s, idx, perf)) && OnlyFlight(Reported(s, idx, perf), idx)
    ensures Leads(|s.hooks|, s.hist[idx], 0 - |s.hooks|)
  {
    assert HistoryFits(|s.hooks|, s.place[idx], s.hist[idx]);
    assert FreshFor(s, idx, s.trials[idx].point);
    var t := Reported(s, idx, perf);
    assert t.hist == s.hist[idx := s.hist[idx]];
    RewriteKeeps(s, t, idx, InFlight, s.trials[idx].(perf := perf), s.hist[idx]);
    hide Consistent;
  }

  lemma ReportKeeps(s: State, candId: int, perf: Perf, tape: seq<LayerReply>, analyzeOk: bool)
    requires Inv(s) && ReportAllowed(s, candId, tape)
    ensures Inv(Report(s, candId, perf, tape, analyzeOk).0)
  {
    var idx := FindId(s.trials, candId);
    if idx < |s.trials| {
      ReportedKeeps(s, idx, perf);
      StillFresh(s, Reported(s, idx, perf), idx, tape);
      hide Consistent, OnlyFlight, Leads, TapeFresh;
      WorkflowKeeps(Reported(s, idx, perf), idx, tape, analyzeOk);
    }
  }

  ghost predicate ExtendAllowed(s: State, target: nat)
    requires s.head < |s.ready|
  {
    |s.trials| < target ==> GrowthAligned(s.ready, s.head, s.tail)
  }

  lemma ExtendParts(s: State, t: State, extra: nat)
    requires Inv(s) && Shape(t) && t.hooks == s.hooks && t.analyzed == s.analyzed
    requires t.waitGen == s.waitGen && t.waitAna == s.waitAna && t.queue == s.queue
    requires t.trials == s.trials + FreeTrials(extra)
    requires t.place == s.place + FreePlaces(extra) && t.hist == s.hist + NoVisits(extra)
    requires t.pendingLen == s.pendingLen && t.enqueued == s.enqueued && t.fetched == s.fetched
    ensures Placed(t) && IdsOk(t) && HistoriesOk(t) && Fifo(t) && t.pendingLen == LiveCount(t.place)
  {
    hide Holds, Placed, Waiting, AnalysesOk;
    CountAppendFree(s.place, FreePlaces(extra));
    ExtendPlaces(s, t, extra);
    WaitingSame(s.trials, t.trials, s.queue);
  }

  lemma ExtendPlaces(s: State, t: State, extra: nat)
    requires Shape(s) && Placed(s) && Shape(t) && t.hooks == s.hooks
    requires t.waitGen == s.waitGen && t.waitAna == s.waitAna && t.queue == s.queue
    requires t.place == s.place + FreePlaces(extra)
    ensures Placed(t)
  {
    forall p | IsList(|t.hooks|, p)
      ensures ListHolds(t, p)
    {
      assert ListHolds(s, p);
      assert ListAt(t, p) == ListAt(s, p);
    }
  }

  /** Growing the lists keeps the invariant exactly when the tail comes out
      right; the queue itself is unchanged. */
  lemma ExtendKeepsIff(s: State, target: nat)
    requires Inv(s) && s.head < |s.ready| && s.tail < |s.ready|
    ensures Inv(ExtendLists(s, target)) <==> ExtendAllowed(s, target)
    ensures ExtendLists(s, target).queue == s.queue
  {
    hide Holds, Placed, IdsOk, HistoriesOk, Fifo, GrowthAligned, TurnedCells, Blank;
    if |s.trials| < target {
      var extra := GrownCap(target) - |s.trials|;
      var t := ExtendLists(s, target);
      ExtendCells(s, target, t, extra);
      ExtendParts(s, t, extra);
      assert Inv(t) <==> ExtendAllowed(s, target);
    }
  }

  /** The ring of the grown state: it holds the queue, if it holds any. */
  lemma ExtendCells(s: State, target: nat, t: State, extra: nat)
    requires Inv(s) && s.head < |s.ready| && s.tail < |s.ready| && |s.trials| < target
    requires extra == GrownCap(target) - |s.trials| && t == ExtendLists(s, target)
    ensures Shape(t) && t.queue == s.queue && AnalysesOk(t)
    ensures Holds(t.ready, t.head, t.tail, t.queue) <==> ExtendAllowed(s, target)
  {
    hide Holds, TurnedCells, Blank, Placed, IdsOk, HistoriesOk, Fifo;
    GrowthKeepsQueueIff(s.ready, s.head, s.tail, s.queue, extra);
  }
}
