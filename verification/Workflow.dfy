/** One trial's passage through the stack of plug-in layers.

    Layers are numbered 1..L.  A positive current layer means the trial is
    climbing (generate), a negative one that it is descending (analyze); zero is
    the strategy and L+1 the ready queue.  What the plug-ins answer is an
    oracle: a finite tape of replies, and ACCEPT once the tape has run out. */
module Workflow {

  datatype Perf = Unmeasured | Measured(values: seq<real>)

  /** A candidate point; the id -1 marks the empty point. */
  datatype Point = Point(id: int, coords: seq<int>)

  const NO_POINT: Point := Point(-1, [])

  datatype Trial = Trial(point: Point, perf: Perf)

  /** Which of the two optional hooks a layer defines. */
  datatype Hooks = Hooks(generate: bool, analyze: bool)

  /** What the strategy does with a rejected point: replaces it, asks to wait,
      or fails. */
  datatype RejectReply = Regenerated(point: Point) | Deferred | Refused

  datatype Verdict =
    | Accept
    | Return
    | Retry
    | Wait
    | Reject(reply: RejectReply)
    | Unknown // a status outside the protocol
    | Failure // the plug-in itself returned an error

  /** A layer's reply: the performance it leaves in the trial and its verdict. */
  datatype LayerReply = LayerReply(perf: Perf, verdict: Verdict)

  /** How far a passage has come. */
  datatype Progress =
    | Running
    | Parked  // on the wait list of the current layer
    | Dropped // rejected while the strategy asked to wait
    | Failed  // given up with an error

  /** The state of a passage; `hist` lists the layers visited since the trial
      was generated and `open` says whether the strategy may be asked for points. */
  datatype Flow = Flow(layer: int, trial: Trial, tape: seq<LayerReply>, hist: seq<int>,
                       open: bool, progress: Progress)

  predicate InStack(depth: nat, layer: int) {
    0 <= depth + layer && layer <= depth + 1
  }

  /** The loop guard: the passage goes on while it is at a layer. */
  predicate AtLayer(depth: nat, f: Flow) {
    f.progress == Running && f.layer != 0 && f.layer <= depth
  }

  /** The layer state machine (workflow_transition with handle_reject). */
  function Transition(f: Flow, verdict: Verdict): Flow {
    match verdict
    case Accept => f.(layer := f.layer + 1)
    case Wait => f.(progress := Parked)
    case Return => f.(layer := -f.layer)
    case Retry => f.(layer := -f.layer)
    case Unknown => f.(progress := Failed)
    case Failure => f.(progress := Failed)
    case Reject(reply) =>
      if f.layer < 0 then f.(progress := Failed)
      else match reply
      case Refused => f.(progress := Failed)
      case Deferred => f.(open := false, progress := Dropped)
      case Regenerated(point) => f.(trial := f.trial.(point := point), layer := 1)
  }

  predicate HasHook(hooks: seq<Hooks>, layer: int)
    requires layer != 0 && InStack(|hooks|, layer) && layer <= |hooks|
  {
    if layer < 0 then hooks[-layer - 1].analyze else hooks[layer - 1].generate
  }

  /** One pass of the loop: call the layer's hook, if it has one, and move on. */
  function Visit(hooks: seq<Hooks>, f: Flow): (r: Flow)
    requires InStack(|hooks|, f.layer) && AtLayer(|hooks|, f)
    ensures r.hist == f.hist + [f.layer] && InStack(|hooks|, r.layer)
    ensures r.tape == f.tape || (f.tape != [] && r.tape == f.tape[1..])
  {
    var g := f.(hist := f.hist + [f.layer]);
    if HasHook(hooks, f.layer) && f.tape != [] then
      Transition(g.(trial := g.trial.(perf := f.tape[0].perf), tape := f.tape[1..]), f.tape[0].verdict)
    else
      Transition(g, Accept)
  }

  /** Layers still to go if everything is accepted. */
  function Distance(depth: nat, layer: int): nat
    requires InStack(depth, layer)
  {
    if layer > 0 then depth + 1 - layer else -layer
  }

  /** The whole passage. */
  function Run(hooks: seq<Hooks>, f: Flow): Flow
    requires InStack(|hooks|, f.layer)
    decreases |f.tape|, Distance(|hooks|, f.layer)
  {
    if AtLayer(|hooks|, f) then Run(hooks, Visit(hooks, f)) else f
  }

  lemma {:induction false} RunStaysInStack(hooks: seq<Hooks>, f: Flow)
    requires InStack(|hooks|, f.layer)
    ensures var r := Run(hooks, f); InStack(|hooks|, r.layer) && !AtLayer(|hooks|, r)
    decreases |f.tape|, Distance(|hooks|, f.layer)
  {
    if AtLayer(|hooks|, f) {
      RunStaysInStack(hooks, Visit(hooks, f));
    }
  }

  // ---- Termination bound -------------------------------------------------

  /** A reply that turns the trial around or sends it back to the start. */
  predicate Turns(v: Verdict) {
    v.Return? || v.Retry? || v.Reject?
  }

  function TurnCount(tape: seq<LayerReply>): nat {
    if tape == [] then 0 else (if Turns(tape[0].verdict) then 1 else 0) + TurnCount(tape[1..])
  }

  /** The replies a passage consumed. */
  function Consumed(f: Flow, r: Flow): seq<LayerReply>
    requires |r.tape| <= |f.tape|
  {
    f.tape[..|f.tape| - |r.tape|]
  }

  /** A passage only ever drops replies from the front of its tape. */
  lemma {:induction false} RunConsumes(hooks: seq<Hooks>, f: Flow)
    requires InStack(|hooks|, f.layer)
    ensures var r := Run(hooks, f);
            |r.tape| <= |f.tape| && r.tape == f.tape[|f.tape| - |r.tape|..]
    decreases |f.tape|, Distance(|hooks|, f.layer)
  {
    if AtLayer(|hooks|, f) {
      RunConsumes(hooks, Visit(hooks, f));
    }
  }

  /** One visit: what it consumes and how the remaining distance changes. */
  lemma VisitProgress(hooks: seq<Hooks>, f: Flow)
    requires InStack(|hooks|, f.layer) && AtLayer(|hooks|, f)
    ensures var g := Visit(hooks, f);
            || (g.tape == f.tape && Distance(|hooks|, g.layer) + 1 == Distance(|hooks|, f.layer))
            || (f.tape != [] && g.tape == f.tape[1..] &&
                if Turns(f.tape[0].verdict) then Distance(|hooks|, g.layer) <= |hooks|
                else Distance(|hooks|, g.layer) + 1 == Distance(|hooks|, f.layer) || !AtLayer(|hooks|, g))
    ensures 1 <= Distance(|hooks|, f.layer)
  {}

  /** L further visits for every turning reply. */
  function Budget(depth: nat, tape: seq<LayerReply>): nat {
    if tape == [] then 0 else (if Turns(tape[0].verdict) then depth else 0) + Budget(depth, tape[1..])
  }

  lemma {:induction false} BudgetProduct(depth: nat, tape: seq<LayerReply>)
    ensures Budget(depth, tape) == TurnCount(tape) * depth
  {
    if tape == [] {
    } else {
      var t := TurnCount(tape[1..]);
      BudgetProduct(depth, tape[1..]);
      assert (t + 1) * depth == t * depth + depth;
    }
  }

  lemma {:induction false} VisitBudget(hooks: seq<Hooks>, f: Flow, r: Flow)
    requires InStack(|hooks|, f.layer) && r == Run(hooks, f)
    ensures |r.tape| <= |f.tape|
    ensures |r.hist| - |f.hist| <=
            (if AtLayer(|hooks|, f) then Distance(|hooks|, f.layer) else 0) + Budget(|hooks|, Consumed(f, r))
    decreases |f.tape|, Distance(|hooks|, f.layer)
  {
    if AtLayer(|hooks|, f) {
      var g := Visit(hooks, f);
      VisitProgress(hooks, f);
      VisitBudget(hooks, g, r);
      BudgetStep(hooks, f, g, r);
    } else {
      assert Consumed(f, r) == [];
    }
  }

  lemma BudgetStep(hooks: seq<Hooks>, f: Flow, g: Flow, r: Flow)
    requires InStack(|hooks|, f.layer) && AtLayer(|hooks|, f) && InStack(|hooks|, g.layer)
    requires g.hist == f.hist + [f.layer] && |r.tape| <= |g.tape|
    requires
      || (g.tape == f.tape && Distance(|hooks|, g.layer) + 1 == Distance(|hooks|, f.layer))
      || (f.tape != [] && g.tape == f.tape[1..] &&
          if Turns(f.tape[0].verdict) then Distance(|hooks|, g.layer) <= |hooks|
          else Distance(|hooks|, g.layer) + 1 == Distance(|hooks|, f.layer) || !AtLayer(|hooks|, g))
    requires |r.hist| - |g.hist| <=
             (if AtLayer(|hooks|, g) then Distance(|hooks|, g.layer) else 0) + Budget(|hooks|, Consumed(g, r))
    ensures |r.tape| <= |f.tape|
    ensures |r.hist| - |f.hist| <= Distance(|hooks|, f.layer) + Budget(|hooks|, Consumed(f, r))
  {
    ConsumedBudget(f, g, r, |hooks|);
  }

  lemma ConsumedBudget(f: Flow, g: Flow, r: Flow, depth: nat)
    requires g.tape == f.tape || (f.tape != [] && g.tape == f.tape[1..])
    requires |r.tape| <= |g.tape|
    ensures Budget(depth, Consumed(f, r)) == Budget(depth, Consumed(g, r)) +
            (if g.tape != f.tape && Turns(f.tape[0].verdict) then depth else 0)
  {
    if g.tape == f.tape {
      assert Consumed(f, r) == Consumed(g, r);
    } else {
      assert Consumed(f, r)[0] == f.tape[0];
      assert Consumed(f, r)[1..] == Consumed(g, r);
    }
  }

  /** With T turning replies among those it consumes a passage visits at most (T+1)*L
      layers, so every finite answer history ends; the replies behind them are left. */
  lemma PassageBound(hooks: seq<Hooks>, f: Flow, r: Flow)
    requires InStack(|hooks|, f.layer) && r == Run(hooks, f)
    ensures |r.tape| <= |f.tape| && r.tape == f.tape[|f.tape| - |r.tape|..]
    ensures |r.hist| - |f.hist| <= (TurnCount(Consumed(f, r)) + 1) * |hooks|
  {
    hide Run, Consumed, TurnCount, Budget;
    RunConsumes(hooks, f);
    VisitBudget(hooks, f, r);
    BudgetProduct(|hooks|, Consumed(f, r));
    Successor(TurnCount(Consumed(f, r)), |hooks|, Budget(|hooks|, Consumed(f, r)));
  }

  lemma Successor(t: nat, depth: nat, budget: nat)
    requires budget == t * depth
    ensures (t + 1) * depth == budget + depth
  {}

  // ---- The onion ---------------------------------------------------------

  /** The visits that may follow one another: the next layer inward or outward,
      the same layer the other way round, or the first layer after a rejection. */
  predicate Follows(a: int, b: int) {
    b == a + 1 || b == -a || (0 < a && b == 1)
  }

  /** A legal history of visits: it starts at the innermost generate layer. */
  ghost predicate Linked(depth: nat, h: seq<int>) {
    && (forall n :: 0 <= n < |h| ==> h[n] != 0 && 0 <= depth + h[n] && h[n] <= depth)
    && (h != [] ==> h[0] == 1)
    && (forall n :: 0 < n < |h| ==> Follows(h[n - 1], h[n]))
  }

  /** `layer` is a legal place to go on to after history `h`. */
  ghost predicate Leads(depth: nat, h: seq<int>, layer: int) {
    && Linked(depth, h)
    && InStack(depth, layer)
    && (if h == [] then layer == 1 || (depth == 0 && layer == 0) else Follows(h[|h| - 1], layer))
  }

  /** One visit keeps the history legal. */
  lemma VisitKeepsHistory(hooks: seq<Hooks>, f: Flow)
    requires AtLayer(|hooks|, f) && Leads(|hooks|, f.hist, f.layer)
    ensures var g := Visit(hooks, f);
            && Linked(|hooks|, g.hist)
            && (g.progress == Running ==> Leads(|hooks|, g.hist, g.layer))
            && (g.progress == Parked ==> g.layer == f.layer)
  {
    var g := Visit(hooks, f);
    assert g.hist[|g.hist| - 1] == f.layer;
    assert forall n :: 0 <= n < |f.hist| ==> g.hist[n] == f.hist[n];
  }

  /** The visits made since the trial was generated form a legal history, and a
      parked trial's last visit is the layer it is parked at. */
  lemma {:induction false} RunKeepsHistory(hooks: seq<Hooks>, f: Flow)
    requires f.progress == Running && Leads(|hooks|, f.hist, f.layer)
    ensures var r := Run(hooks, f);
            && Linked(|hooks|, r.hist)
            && InStack(|hooks|, r.layer)
            && (r.progress == Running ==> Leads(|hooks|, r.hist, r.layer) && !AtLayer(|hooks|, r))
            && (r.progress == Parked ==> r.layer != 0 && r.hist != [] && r.hist[|r.hist| - 1] == r.layer <= |hooks|)
    decreases |f.tape|, Distance(|hooks|, f.layer)
  {
    if AtLayer(|hooks|, f) {
      VisitKeepsHistory(hooks, f);
      var g := Visit(hooks, f);
      if g.progress == Running {
        RunKeepsHistory(hooks, g);
      } else {
        assert Run(hooks, f) == g;
      }
    }
  }

  /** The `j`-th visit counted from the end of the history. */
  function FromEnd(h: seq<int>, j: nat): int
    requires 1 <= j <= |h|
  {
    h[|h| - j]
  }

  /** The history ends k, -k, -(k-1), ..., -1: the trial was turned around at
      layer k and has since passed analyze of every layer below, once each. */
  ghost predicate Descended(depth: nat, h: seq<int>) {
    (depth == 0 && h == []) || exists k :: 1 <= k <= depth && k < |h| && DescendsFrom(h, k)
  }

  ghost predicate DescendsFrom(h: seq<int>, k: nat)
    requires k < |h|
  {
    FromEnd(h, k + 1) == k && forall j :: 1 <= j <= k ==> FromEnd(h, j) == 0 - j
  }

  /** The history ends k, k+1, ..., L, where climbing began at layer k: either
      the innermost layer, at first or after a rejection, or the layer that
      turned a descending trial round. */
  ghost predicate Climbed(depth: nat, h: seq<int>) {
    (depth == 0 && h == []) || exists k :: 1 <= k <= depth && depth < k + |h| && ClimbsFrom(depth, h, k)
  }

  ghost predicate ClimbsFrom(depth: nat, h: seq<int>, k: nat)
    requires 1 <= k <= depth < k + |h|
  {
    var n := depth - k + 1;
    && (forall j :: 1 <= j <= n ==> FromEnd(h, j) == depth + 1 - j)
    && (if |h| == n then k == 1
        else FromEnd(h, n + 1) == 0 - k || (k == 1 && 0 < FromEnd(h, n + 1)))
  }

  /** A trial that reaches the strategy has just come down through analyze of
      consecutive layers, from the one that turned it round to the innermost. */
  lemma {:induction false} StrategyReachedByDescent(depth: nat, h: seq<int>)
    requires Leads(depth, h, 0)
    ensures Descended(depth, h)
  {
    if h != [] {
      assert FromEnd(h, 1) == -1;
      DescentFrom(depth, h, 1);
    }
  }

  lemma {:induction false} DescentFrom(depth: nat, h: seq<int>, j: nat)
    requires Linked(depth, h) && 1 <= j <= |h|
    requires forall i :: 1 <= i <= j ==> FromEnd(h, i) == 0 - i
    ensures exists k :: 1 <= k <= depth && k < |h| && DescendsFrom(h, k)
    decreases |h| - j
  {
    assert FromEnd(h, j) == 0 - j;
    assert j < |h| && Follows(h[|h| - j - 1], h[|h| - j]);
    if FromEnd(h, j + 1) == j {
      assert DescendsFrom(h, j);
    } else {
      DescentFrom(depth, h, j + 1);
    }
  }

  /** A trial that enters the ready queue has just climbed generate of
      consecutive layers up to the outermost. */
  lemma {:induction false} QueueReachedByClimb(depth: nat, h: seq<int>)
    requires Leads(depth, h, depth + 1)
    ensures Climbed(depth, h)
  {
    if h != [] {
      assert FromEnd(h, 1) == depth;
      ClimbFrom(depth, h, depth);
    }
  }

  lemma {:induction false} ClimbFrom(depth: nat, h: seq<int>, k: nat)
    requires Linked(depth, h) && 1 <= k <= depth < k + |h|
    requires forall j :: 1 <= j <= depth - k + 1 ==> FromEnd(h, j) == depth + 1 - j
    ensures exists m :: 1 <= m <= depth && depth < m + |h| && ClimbsFrom(depth, h, m)
    decreases k
  {
    var n := depth - k + 1;
    assert FromEnd(h, n) == k;
    if |h| == n {
      assert ClimbsFrom(depth, h, k);
    } else {
      assert Follows(h[|h| - n - 1], h[|h| - n]);
      if FromEnd(h, n + 1) == k - 1 && k > 1 {
        ClimbFrom(depth, h, k - 1);
      } else {
        assert ClimbsFrom(depth, h, k);
      }
    }
  }

  // ---- The point a trial carries -----------------------------------------

  /** A passage changes a trial's point only to one the strategy regenerated. */
  lemma {:induction false} RunPoint(hooks: seq<Hooks>, f: Flow)
    requires InStack(|hooks|, f.layer)
    ensures var r := Run(hooks, f);
            r.trial.point == f.trial.point ||
            exists n :: 0 <= n < |f.tape| && f.tape[n].verdict == Reject(Regenerated(r.trial.point))
    decreases |f.tape|, Distance(|hooks|, f.layer)
  {
    if AtLayer(|hooks|, f) {
      var g, r := Visit(hooks, f), Run(hooks, f);
      RunPoint(hooks, g);
      if r.trial.point != g.trial.point {
        var n :| 0 <= n < |g.tape| && g.tape[n].verdict == Reject(Regenerated(r.trial.point));
        var m := n + |f.tape| - |g.tape|;
        assert f.tape[m] == g.tape[n];
      }
    }
  }

  /** Only a deferred rejection closes point generation. */
  lemma {:induction false} RunOpen(hooks: seq<Hooks>, f: Flow)
    requires InStack(|hooks|, f.layer) && f.progress == Running
    ensures var r := Run(hooks, f); r.open == (f.open && r.progress != Dropped)
    decreases |f.tape|, Distance(|hooks|, f.layer)
  {
    if AtLayer(|hooks|, f) {
      var g := Visit(hooks, f);
      if g.progress == Running {
        RunOpen(hooks, g);
      }
    }
  }

  // ---- Passages that are only accepted -----------------------------------

  ghost predicate AllAccept(tape: seq<LayerReply>) {
    forall n :: 0 <= n < |tape| ==> tape[n].verdict == Accept
  }

  function Upward(from: int, to: int): seq<int>
    decreases to - from
  {
    if from > to then [] else [from] + Upward(from + 1, to)
  }

  /** When every layer accepts, a climbing trial visits each layer from where it is
      to the outermost, in order, and a descending one each layer down to the
      innermost; its point, and if no layer sets it its performance, are untouched. */
  lemma {:induction false} AcceptedPassage(hooks: seq<Hooks>, f: Flow)
    requires InStack(|hooks|, f.layer) && f.progress == Running && AllAccept(f.tape)
    ensures var r := Run(hooks, f);
            && r.progress == Running && r.open == f.open && r.trial.point == f.trial.point
            && r.layer == (if f.layer > 0 then |hooks| + 1 else 0)
            && r.hist == f.hist + Upward(f.layer, if f.layer > 0 then |hooks| else -1)
            && (f.tape == [] ==> r.trial == f.trial)
    decreases |f.tape|, Distance(|hooks|, f.layer)
  {
    if AtLayer(|hooks|, f) {
      var g := Visit(hooks, f);
      var last := if f.layer > 0 then |hooks| else -1;
      assert g.layer == f.layer + 1 && g.progress == Running;
      AcceptedPassage(hooks, g);
      if g.layer == 0 {
        assert Upward(0, -1) == [];
        assert f.hist + [-1] + [] == f.hist + ([-1] + []);
      } else {
        assert f.hist + [f.layer] + Upward(g.layer, last) == f.hist + ([f.layer] + Upward(g.layer, last));
      }
    } else {
      assert f.hist + [] == f.hist;
    }
  }
}
