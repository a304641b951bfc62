/** What a passage comes to, by the first answer in it that is not ACCEPT: the
    layers visited, the trial, and where it goes on or ends. */
module Passages {
  import opened Workflow

  /** How many of the layers from..to-1 have a generate hook. */
  function GenerateHooks(hooks: seq<Hooks>, from: nat, to: nat): nat
    requires 1 <= from && to <= |hooks| + 1
    decreases |hooks| + 1 - from
  {
    if from >= to then 0
    else (if hooks[from - 1].generate then 1 else 0) + GenerateHooks(hooks, from + 1, to)
  }

  /** How many of the layers from, from-1, ..., to+1 have an analyze hook. */
  function AnalyzeHooks(hooks: seq<Hooks>, from: nat, to: nat): nat
    requires from <= |hooks|
  {
    if from <= to then 0
    else (if hooks[from - 1].analyze then 1 else 0) + AnalyzeHooks(hooks, from - 1, to)
  }

  /** A climbing trial comes to layer k on ACCEPT alone, and layer k is asked next. */
  ghost predicate ClimbsTo(hooks: seq<Hooks>, f: Flow, before: seq<LayerReply>, k: nat) {
    && f.progress == Running && 1 <= f.layer <= k <= |hooks| && hooks[k - 1].generate
    && AllAccept(before) && |before| == GenerateHooks(hooks, f.layer, k)
  }

  /** A descending trial comes to analyze of layer k on ACCEPT alone, and layer k is
      asked next. */
  ghost predicate DescendsTo(hooks: seq<Hooks>, f: Flow, before: seq<LayerReply>, k: nat) {
    && f.progress == Running && 1 <= k <= 0 - f.layer <= |hooks| && hooks[k - 1].analyze
    && AllAccept(before) && |before| == AnalyzeHooks(hooks, 0 - f.layer, k)
  }

  lemma UpwardCons(h: seq<int>, from: int, to: int)
    requires from <= to
    ensures h + [from] + Upward(from + 1, to) == h + Upward(from, to)
  {}

  /** A layer that is not asked, or answers ACCEPT, sends the trial on. */
  lemma AcceptVisit(hooks: seq<Hooks>, f: Flow, before: seq<LayerReply>, tail: seq<LayerReply>, asks: bool)
    returns (v: Flow, left: seq<LayerReply>)
    requires InStack(|hooks|, f.layer) && AtLayer(|hooks|, f) && AllAccept(before) && f.tape == before + tail
    requires asks == if f.layer < 0 then hooks[-f.layer - 1].analyze else hooks[f.layer - 1].generate
    requires asks ==> before != []
    ensures v == Visit(hooks, f) && v.layer == f.layer + 1 && v.progress == Running && v.open == f.open
    ensures v.tape == left + tail && v.trial.point == f.trial.point && v.hist == f.hist + [f.layer]
    ensures AllAccept(left) && |left| + (if asks then 1 else 0) == |before|
    ensures Run(hooks, f) == Run(hooks, v)
  {
    v := Visit(hooks, f);
    left := if asks then before[1..] else before;
    assert asks ==> f.tape[0] == before[0] && f.tape[1..] == left + tail;
  }

  /** The layers in front of the one that answers are passed. */
  lemma {:induction false} ClimbPast(hooks: seq<Hooks>, f: Flow, before: seq<LayerReply>, tail: seq<LayerReply>, k: nat)
    returns (g: Flow)
    requires ClimbsTo(hooks, f, before, k) && f.tape == before + tail && tail != []
    ensures g.layer == k && g.tape == tail && g.progress == Running && g.open == f.open
    ensures g.trial.point == f.trial.point && g.hist + [k] == f.hist + Upward(f.layer, k)
    ensures Run(hooks, f) == Run(hooks, g)
    decreases k - f.layer
  {
    hide Run, Visit, AllAccept;
    if f.layer == k {
      assert before == [];
      assert before + tail == tail && Upward(k, k) == [k] + Upward(k + 1, k);
      g := f;
    } else {
      var v, left := AcceptVisit(hooks, f, before, tail, hooks[f.layer - 1].generate);
      g := ClimbPast(hooks, v, left, tail, k);
      UpwardCons(f.hist, f.layer, k);
    }
  }

  lemma {:induction false} DescendPast(hooks: seq<Hooks>, f: Flow, before: seq<LayerReply>, tail: seq<LayerReply>,
                                       k: nat)
    returns (g: Flow)
    requires DescendsTo(hooks, f, before, k) && f.tape == before + tail && tail != []
    ensures g.layer == 0 - k && g.tape == tail && g.progress == Running && g.open == f.open
    ensures g.trial.point == f.trial.point && g.hist + [0 - k] == f.hist + Upward(f.layer, 0 - k)
    ensures Run(hooks, f) == Run(hooks, g)
    decreases -f.layer - k
  {
    hide Run, Visit, AllAccept;
    if f.layer == 0 - k {
      assert before == [];
      assert before + tail == tail && Upward(0 - k, 0 - k) == [0 - k] + Upward(1 - k, 0 - k);
      g := f;
    } else {
      var v, left := AcceptVisit(hooks, f, before, tail, hooks[-f.layer - 1].analyze);
      g := DescendPast(hooks, v, left, tail, k);
      UpwardCons(f.hist, f.layer, 0 - k);
    }
  }

  /** What the answer of a generate hook makes of a climbing trial: ACCEPT sends it
      on, RETURN and RETRY down through analyze of the same layer, REJECT back to the
      first layer with exactly the point supplied; WAIT parks it at the layer. */
  lemma ClimbAnswer(hooks: seq<Hooks>, f: Flow, before: seq<LayerReply>, reply: LayerReply, rest: seq<LayerReply>,
                    k: nat)
    requires ClimbsTo(hooks, f, before, k) && f.tape == before + [reply] + rest
    ensures InStack(|hooks|, f.layer)
    ensures var t, h := Trial(f.trial.point, reply.perf), f.hist + Upward(f.layer, k);
            match reply.verdict
            case Accept => Run(hooks, f) == Run(hooks, Flow(k + 1, t, rest, h, f.open, Running))
            case Return | Retry => Run(hooks, f) == Run(hooks, Flow(0 - k, t, rest, h, f.open, Running))
            case Wait => Run(hooks, f) == Flow(k, t, rest, h, f.open, Parked)
            case Unknown | Failure => Run(hooks, f) == Flow(k, t, rest, h, f.open, Failed)
            case Reject(Refused) => Run(hooks, f) == Flow(k, t, rest, h, f.open, Failed)
            case Reject(Deferred) => Run(hooks, f) == Flow(k, t, rest, h, false, Dropped)
            case Reject(Regenerated(point)) =>
              Run(hooks, f) == Run(hooks, Flow(1, Trial(point, reply.perf), rest, h, f.open, Running))
  {
    assert before + [reply] + rest == before + ([reply] + rest);
    var g := ClimbPast(hooks, f, before, [reply] + rest, k);
    assert ([reply] + rest)[1..] == rest;
    assert Run(hooks, g) == Run(hooks, Visit(hooks, g));
    hide Run, Upward, AllAccept;
  }

  /** What the answer of an analyze hook makes of a descending trial: RETURN and
      RETRY send it up again through generate of the same layer, REJECT is an error. */
  lemma DescentAnswer(hooks: seq<Hooks>, f: Flow, before: seq<LayerReply>, reply: LayerReply, rest: seq<LayerReply>,
                      k: nat)
    requires DescendsTo(hooks, f, before, k) && f.tape == before + [reply] + rest
    ensures InStack(|hooks|, f.layer)
    ensures var t, h := Trial(f.trial.point, reply.perf), f.hist + Upward(f.layer, 0 - k);
            match reply.verdict
            case Accept => Run(hooks, f) == Run(hooks, Flow(1 - k, t, rest, h, f.open, Running))
            case Return | Retry => Run(hooks, f) == Run(hooks, Flow(k, t, rest, h, f.open, Running))
            case Wait => Run(hooks, f) == Flow(0 - k, t, rest, h, f.open, Parked)
            case Unknown | Failure => Run(hooks, f) == Flow(0 - k, t, rest, h, f.open, Failed)
            case Reject(_) => Run(hooks, f) == Flow(0 - k, t, rest, h, f.open, Failed)
  {
    assert before + [reply] + rest == before + ([reply] + rest);
    var g := DescendPast(hooks, f, before, [reply] + rest, k);
    assert ([reply] + rest)[1..] == rest;
    assert Run(hooks, g) == Run(hooks, Visit(hooks, g));
    hide Run, Upward, AllAccept;
  }

  /** How a passage has ended: the trial is off the layers, where it is and what it has
      visited, with the point it carries. */
  ghost predicate Ended(f: Flow, r: Flow, layer: int, hist: seq<int>, point: Point) {
    r.progress == Running && r.layer == layer && r.hist == hist && r.trial.point == point && r.open == f.open
  }

  /** RETURN or RETRY from layer k while climbing, all else accepted: the trial has
      passed generate up to layer k and analyze from layer k down, and comes to the
      strategy. */
  lemma TurnedDown(hooks: seq<Hooks>, f: Flow, before: seq<LayerReply>, reply: LayerReply, rest: seq<LayerReply>,
                   k: nat)
    requires ClimbsTo(hooks, f, before, k) && f.tape == before + [reply] + rest && AllAccept(rest)
    requires reply.verdict.Return? || reply.verdict.Retry?
    ensures InStack(|hooks|, f.layer)
    ensures Ended(f, Run(hooks, f), 0, f.hist + Upward(f.layer, k) + Upward(0 - k, -1), f.trial.point)
    ensures rest == [] ==> Run(hooks, f).trial.perf == reply.perf
  {
    hide Run, Upward;
    ClimbAnswer(hooks, f, before, reply, rest, k);
    var turned := Trial(f.trial.point, reply.perf);
    AcceptedPassage(hooks, Flow(0 - k, turned, rest, f.hist + Upward(f.layer, k), f.open, Running));
  }

  /** RETURN or RETRY from layer k while descending, all else accepted: the trial has
      passed analyze down to layer k and generate from layer k up, and is to be queued. */
  lemma TurnedUp(hooks: seq<Hooks>, f: Flow, before: seq<LayerReply>, reply: LayerReply, rest: seq<LayerReply>, k: nat)
    requires DescendsTo(hooks, f, before, k) && f.tape == before + [reply] + rest && AllAccept(rest)
    requires reply.verdict.Return? || reply.verdict.Retry?
    ensures InStack(|hooks|, f.layer)
    ensures Ended(f, Run(hooks, f), |hooks| + 1, f.hist + Upward(f.layer, 0 - k) + Upward(k, |hooks|), f.trial.point)
    ensures rest == [] ==> Run(hooks, f).trial.perf == reply.perf
  {
    hide Run, Upward;
    DescentAnswer(hooks, f, before, reply, rest, k);
    var turned := Trial(f.trial.point, reply.perf);
    AcceptedPassage(hooks, Flow(k, turned, rest, f.hist + Upward(f.layer, 0 - k), f.open, Running));
  }

  /** REJECT from layer k, all else accepted: the trial starts over at the first layer,
      with the point the strategy has supplied, and is to be queued. */
  lemma StartedOver(hooks: seq<Hooks>, f: Flow, before: seq<LayerReply>, reply: LayerReply, rest: seq<LayerReply>,
                    k: nat)
    requires ClimbsTo(hooks, f, before, k) && f.tape == before + [reply] + rest && AllAccept(rest)
    requires reply.verdict.Reject? && reply.verdict.reply.Regenerated?
    ensures InStack(|hooks|, f.layer)
    ensures Ended(f, Run(hooks, f), |hooks| + 1, f.hist + Upward(f.layer, k) + Upward(1, |hooks|),
                  reply.verdict.reply.point)
    ensures rest == [] ==> Run(hooks, f).trial.perf == reply.perf
  {
    hide Run, Upward;
    ClimbAnswer(hooks, f, before, reply, rest, k);
    AcceptedPassage(hooks, Flow(1, Trial(reply.verdict.reply.point, reply.perf), rest, f.hist + Upward(f.layer, k),
                                f.open, Running));
  }
}
