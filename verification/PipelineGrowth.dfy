/** Growth of a wrapped ring: which wrapped rings occur in runs, and what becomes of
    the session when its lists grow while the ring is not aligned. */
module PipelineGrowth {
  import opened Ring
  import opened Workflow
  import opened Pipeline
  import opened PipelineInvariant
  import opened PipelineRuns

  // ---- Building runs -----------------------------------------------------

  /** A run can go on with any step that is allowed. */
  lemma ExtendRun(states: seq<State>, events: seq<Event>, e: Event)
    requires IsRun(states, events) && Inv(states[|events|]) && Allowed(states[|events|], e)
    ensures IsRun(states + [Apply(states[|events|], e)], events + [e])
  {
    hide Inv, Allowed, Apply, Initial;
    var more, es := states + [Apply(states[|events|], e)], events + [e];
    assert more[0] == states[0];
    forall n | 0 <= n < |es|
      ensures StepTo(more[n], es[n], more[n + 1])
    {
      if n < |events| {
        assert StepTo(states[n], events[n], states[n + 1]);
      }
    }
  }

  /** `len` trials wait from cell `head` on, nothing else is live, and no id is above
      `top`. */
  ghost predicate Position(s: State, hooks: seq<Hooks>, cap: nat, head: nat, len: nat, top: nat) {
    && Inv(s) && s.hooks == hooks && |s.trials| == cap && s.open && s.head == head
    && |s.queue| == len == s.pendingLen
    && forall i :: 0 <= i < |s.trials| ==> s.trials[i].point.id <= top
  }

  function NextPoint(top: nat): Point {
    Point(top + 1, [])
  }

  function GenerateNext(top: nat): Event {
    GenerateEvent(Generated(NextPoint(top)), [], true)
  }

  lemma NextAllowed(s: State, hooks: seq<Hooks>, cap: nat, head: nat, len: nat, top: nat)
    requires Position(s, hooks, cap, head, len, top) && len < cap
    ensures Allowed(s, GenerateNext(top)) && GenerateAllowed(s, Generated(NextPoint(top)), [])
    ensures s.tail < |s.ready| && Shape(s)
  {
    TailBelowCap(s);
  }

  /** The next point is generated, and every layer accepts it. */
  lemma GenerateStep(s: State, hooks: seq<Hooks>, cap: nat, head: nat, len: nat, top: nat)
    requires Position(s, hooks, cap, head, len, top) && len < cap
    ensures Allowed(s, GenerateNext(top))
    ensures Position(Apply(s, GenerateNext(top)), hooks, cap, head, len + 1, top + 1)
  {
    NextAllowed(s, hooks, cap, head, len, top);
    hide Inv, Consistent, GenerateAllowed, Leads, Allowed, OnlyFlight, Run, FindId, Upward;
    StepKeeps(s, GenerateNext(top));
    GenerateReachesQueue(s, NextPoint(top), []);
    GenerateFrame(s, NextPoint(top));
  }

  lemma GenerateFrame(s: State, point: Point)
    requires Inv(s) && s.tail < |s.ready| && GenerateAllowed(s, Generated(point), [])
    requires FindId(s.trials, -1) < |s.trials|
    ensures var t := GenerateTrial(s, Generated(point), [], true).state;
            && t.hooks == s.hooks && t.head == s.head && t.pausedId == s.pausedId && |t.trials| == |s.trials|
            && t.fetched == s.fetched && t.analyzed == s.analyzed
            && forall i :: 0 <= i < |s.trials| && i != FindId(s.trials, -1) ==> t.trials[i] == s.trials[i]
  {
    var idx := FindId(s.trials, -1);
    assert idx < |s.place| && s.place[idx] == Free;
    LaunchKeeps(s, idx, point);
    hide Inv, Consistent, Leads, OnlyFlight, Run;
    AcceptedPassage(s.hooks, Start(Launch(s, idx, point), idx, []));
    WorkflowFrame(Launch(s, idx, point), idx, [], true);
  }

  /** The trial at the head is fetched. */
  lemma FetchHead(s: State, hooks: seq<Hooks>, cap: nat, head: nat, len: nat, top: nat)
    requires Position(s, hooks, cap, head, len, top) && 0 < len && head + 1 < cap
    ensures s.queue[0] < |s.trials|
    ensures var idx := s.queue[0];
            var t := Apply(s, FetchEvent(false, NO_POINT));
            var id := s.trials[idx].point.id;
            && Inv(t) && t.hooks == hooks && t.head == head + 1 && t.trials == s.trials && t.queue == s.queue[1..]
            && t.pendingLen == s.pendingLen && t.pausedId == s.pausedId && t.analyzed == s.analyzed
            && idx < |t.place| && t.place[idx] == HandedOut && id >= 0
            && FindId(t.trials, id) == idx && NamesHandedOut(t, id)
  {
    StepKeeps(s, FetchEvent(false, NO_POINT));
    FetchReady(s);
    Small(head + 1, cap);
    var idx := s.queue[0];
    var id := s.trials[idx].point.id;
    assert s.place[idx] == Ready && id >= 0;
    assert forall i :: 0 <= i < |s.trials| && s.trials[i].point.id == id ==> i == idx;
    assert s.place[idx := HandedOut][idx] == HandedOut;
  }

  /** A report of the trial in slot idx that every layer accepts frees the slot. */
  lemma ReportFrees(s: State, idx: nat, id: int)
    requires Inv(s) && NamesHandedOut(s, id) && FindId(s.trials, id) == idx < |s.trials|
    ensures ReportAllowed(s, id, [])
    ensures var (t, reply) := Report(s, id, Unmeasured, [], true);
            && Inv(t) && reply == Accepted && t.hooks == s.hooks && t.head == s.head && |t.trials| == |s.trials|
            && t.trials[idx].point.id == -1 && t.open && t.queue == s.queue && t.pendingLen == s.pendingLen - 1
            && (forall i :: 0 <= i < |s.trials| && i != idx ==> t.trials[i] == s.trials[i])
            && t.pausedId == 0 && s.analyzed <= t.analyzed
            && |t.analyzed| == |s.analyzed| + 1 && t.analyzed[|s.analyzed|].trial.point.id == id
  {
    hide Inv, Consistent, Leads, OnlyFlight, Run, Upward, FindId, TapeFresh, NamesHandedOut;
    Reportable(s, idx, id);
    ReportedKeeps(s, idx, Unmeasured);
    ReportKeeps(s, id, Unmeasured, [], true);
    ReportReachesStrategy(s, id, Unmeasured, []);
    WorkflowFrame(Reported(s, idx, Unmeasured), idx, [], true);
    FreedHasNoId(Report(s, id, Unmeasured, [], true).0, idx);
  }

  lemma Reportable(s: State, idx: nat, id: int)
    requires Inv(s) && NamesHandedOut(s, id) && FindId(s.trials, id) == idx < |s.trials|
    ensures ReportAllowed(s, id, []) && TapeFresh(s, idx, []) && Consistent(s)
    ensures Shape(s) && s.place[idx] == HandedOut && s.tail < |s.ready|
  {
    TailBelowCap(s);
  }

  lemma FreedHasNoId(s: State, idx: nat)
    requires Inv(s) && idx < |s.place| && s.place[idx] == Free
    ensures s.trials[idx].point.id == -1
  {}

  /** The trial at the head is fetched, and its report accepted. */
  lemma TurnSteps(s: State, hooks: seq<Hooks>, cap: nat, head: nat, len: nat, top: nat) returns (t: State, e: Event)
    requires Position(s, hooks, cap, head, len, top) && 0 < len && head + 1 < cap
    ensures Allowed(s, FetchEvent(false, NO_POINT)) && t == Apply(s, FetchEvent(false, NO_POINT))
    ensures Inv(t) && Allowed(t, e) && Position(Apply(t, e), hooks, cap, head + 1, len - 1, top) && !e.JoinEvent?
  {
    hide Inv, NamesHandedOut, Report, FindId;
    FetchHead(s, hooks, cap, head, len, top);
    var idx := s.queue[0];
    var id := s.trials[idx].point.id;
    t := Apply(s, FetchEvent(false, NO_POINT));
    e := ReportEvent(id, Unmeasured, [], true);
    ReportFrees(t, idx, id);
  }

  // ---- Every wrapped ring occurs -------------------------------------------

  /** A run from a new session to a position. */
  ghost predicate Reaches(states: seq<State>, events: seq<Event>, hooks: seq<Hooks>, count: nat,
                          head: nat, len: nat, top: nat) {
    && IsRun(states, events) && states[0] == Initial(hooks, count)
    && Position(states[|events|], hooks, GrownCap(count), head, len, top)
  }

  lemma Begins(hooks: seq<Hooks>, count: nat)
    ensures Reaches([Initial(hooks, count)], [], hooks, count, 0, 0, 0)
  {
    InitialInv(hooks, count);
    hide Inv;
  }

  /** The second list of events goes on from the first, without another join. */
  ghost predicate GoesOn(events: seq<Event>, more: seq<Event>) {
    events <= more && forall n :: |events| <= n < |more| ==> !more[n].JoinEvent?
  }

  lemma GeneratesOne(states: seq<State>, events: seq<Event>, hooks: seq<Hooks>, count: nat,
                     head: nat, len: nat, top: nat)
    returns (more: seq<State>, es: seq<Event>)
    requires Reaches(states, events, hooks, count, head, len, top) && len < GrownCap(count)
    ensures Reaches(more, es, hooks, count, head, len + 1, top + 1) && GoesOn(events, es)
  {
    hide Inv, Allowed, Apply, GrownCap, Initial;
    var s := states[|events|];
    GenerateStep(s, hooks, GrownCap(count), head, len, top);
    ExtendRun(states, events, GenerateNext(top));
    more, es := states + [Apply(s, GenerateNext(top))], events + [GenerateNext(top)];
  }

  lemma {:induction false} Generates(states: seq<State>, events: seq<Event>, hooks: seq<Hooks>, count: nat,
                                     head: nat, len: nat, top: nat, n: nat)
    returns (more: seq<State>, es: seq<Event>)
    requires Reaches(states, events, hooks, count, head, len, top) && len + n <= GrownCap(count)
    ensures Reaches(more, es, hooks, count, head, len + n, top + n) && GoesOn(events, es)
    decreases n
  {
    hide Reaches, GrownCap;
    more, es := states, events;
    if n > 0 {
      more, es := GeneratesOne(states, events, hooks, count, head, len, top);
      more, es := Generates(more, es, hooks, count, head, len + 1, top + 1, n - 1);
    }
  }

  lemma TakesTurn(states: seq<State>, events: seq<Event>, hooks: seq<Hooks>, count: nat, head: nat, len: nat, top: nat)
    returns (more: seq<State>, es: seq<Event>)
    requires Reaches(states, events, hooks, count, head, len, top) && 0 < len && head + 1 < GrownCap(count)
    ensures Reaches(more, es, hooks, count, head + 1, len - 1, top) && GoesOn(events, es)
  {
    hide Inv, Allowed, Apply, GrownCap, Initial;
    var t, e := TurnSteps(states[|events|], hooks, GrownCap(count), head, len, top);
    ExtendRun(states, events, FetchEvent(false, NO_POINT));
    ExtendRun(states + [t], events + [FetchEvent(false, NO_POINT)], e);
    more, es := states + [t] + [Apply(t, e)], events + [FetchEvent(false, NO_POINT)] + [e];
  }

  lemma {:induction false} TakesTurns(states: seq<State>, events: seq<Event>, hooks: seq<Hooks>, count: nat,
                                 head: nat, len: nat, top: nat, n: nat)
    returns (more: seq<State>, es: seq<Event>)
    requires Reaches(states, events, hooks, count, head, len, top) && n <= len && head + n < GrownCap(count)
    ensures Reaches(more, es, hooks, count, head + n, len - n, top) && GoesOn(events, es)
    decreases n
  {
    hide Reaches, GrownCap;
    more, es := states, events;
    if n > 0 {
      more, es := TakesTurn(states, events, hooks, count, head, len, top);
      more, es := TakesTurns(more, es, hooks, count, head + 1, len - 1, top, n - 1);
    }
  }

  lemma Wraps(states: seq<State>, events: seq<Event>, hooks: seq<Hooks>, count: nat, r: nat, g: nat)
    returns (more: seq<State>, es: seq<Event>)
    requires Reaches(states, events, hooks, count, 0, 0, 0) && g <= r < GrownCap(count)
    ensures Reaches(more, es, hooks, count, r, GrownCap(count) - r + g, GrownCap(count) + g) && GoesOn(events, es)
  {
    hide Reaches;
    var cap := GrownCap(count);
    more, es := Generates(states, events, hooks, count, 0, 0, 0, cap);
    more, es := TakesTurns(more, es, hooks, count, 0, cap, cap, r);
    more, es := Generates(more, es, hooks, count, r, cap - r, cap, g);
  }

  /** For every layer stack and session size, every wrapped ring with head r and
      tail g <= r occurs in a run: fill the ring, fetch and report r trials, and
      generate g more. */
  lemma WrapOccurs(hooks: seq<Hooks>, count: nat, r: nat, g: nat) returns (states: seq<State>, events: seq<Event>)
    requires g <= r < GrownCap(count)
    ensures IsRun(states, events) && states[0] == Initial(hooks, count)
    ensures var s := states[|events|];
            && Inv(s) && |s.trials| == |s.ready| == GrownCap(count) && s.head == r && s.tail == g && r < |s.ready|
            && Wrapped(s.ready, s.head, s.tail) && (forall i :: 0 <= i < |s.queue| ==> s.queue[i] < GrownCap(count))
  {
    hide Reaches, Inv, IsRun, Initial, GrownCap;
    Begins(hooks, count);
    states, events := Wraps([Initial(hooks, count)], [], hooks, count, r, g);
    ReachesWrapped(states, events, hooks, count, r, g);
  }

  lemma WrappedThere(s: State, hooks: seq<Hooks>, cap: nat, r: nat, g: nat)
    requires g <= r < cap && Position(s, hooks, cap, r, cap - r + g, cap + g)
    ensures Inv(s) && |s.trials| == |s.ready| == cap && s.head == r && s.tail == g && r < |s.ready|
    ensures Wrapped(s.ready, s.head, s.tail) && forall i :: 0 <= i < |s.queue| ==> s.queue[i] < cap
  {
    HeadCell(s.ready, s.head, s.tail, s.queue);
  }

  // ---- Fetching after the growth -------------------------------------------

  ghost predicate CanFetch(s: State) {
    && s.head < |s.ready| && s.ready[s.head] < |s.trials| && s.ready[s.head] < |s.place|
    && (s.ready[s.head] >= 0 ==> s.queue != [])
  }

  /** The state after `n` fetches of a session that is not paused. */
  ghost function Drained(s: State, n: nat): State {
    if n == 0 then s
    else
      var t := Drained(s, n - 1);
      if CanFetch(t) then Fetch(t, false, NO_POINT).0 else t
  }

  /** `front` stands in the cells from 0 on and is the front of the queue. */
  ghost predicate Fronted(s: State, front: seq<nat>) {
    && s.head == 0 && |front| < |s.ready| && |s.place| == |s.trials| && front <= s.queue
    && (forall k :: 0 <= k < |front| ==> s.ready[k] == front[k])
    && forall k :: 0 <= k < |front| ==> front[k] < |s.trials|
  }

  /** The first n fetches send the front n trials, in order, and blank their cells. */
  lemma {:induction false} DrainsFront(s: State, front: seq<nat>, n: nat)
    requires Fronted(s, front) && n <= |front|
    ensures var t := Drained(s, n);
            && t.head == n && t.trials == s.trials && t.tail == s.tail && |t.ready| == |s.ready|
            && (forall c :: n <= c < |s.ready| ==> t.ready[c] == s.ready[c])
            && (forall c :: 0 <= c < n ==> t.ready[c] == -1)
            && |t.place| == |s.place| && t.queue == s.queue[n..]
            && (forall i :: 0 <= i < |s.place| && i !in front[..n] ==> t.place[i] == s.place[i])
            && t.fetched == s.fetched + Waiting(s.trials, front[..n])
    ensures n < |front| ==> CanFetch(Drained(s, n)) &&
                            Fetch(Drained(s, n), false, NO_POINT).1 == Candidate(s.trials[front[n]].point)
  {
    hide Waiting;
    if n > 0 {
      DrainsFront(s, front, n - 1);
      var t := Drained(s, n - 1);
      assert t.ready[n - 1] == front[n - 1];
      Small(n, |s.ready|);
      assert front[..n] == front[..n - 1] + [front[n - 1]];
      WaitingAppend(s.trials, front[..n - 1], front[n - 1]);
      assert s.queue[n - 1..][1..] == s.queue[n..];
      assert s.queue[n - 1] == front[n - 1];
    }
  }

  /** A wrapped ring, grown: the queue stands in front of empty cells. */
  lemma GrownRing(ring: seq<int>, head: nat, tail: nat, queue: seq<nat>, extra: nat)
    requires Holds(ring, head, tail, queue) && Wrapped(ring, head, tail) && 0 < extra
    ensures |queue| == |ring| - head + tail <= |ring| && |GrownCells(ring, head, tail, extra)| == |ring| + extra
    ensures forall c :: 0 <= c < |ring| + extra ==>
              GrownCells(ring, head, tail, extra)[c] == if c < |queue| then queue[c] else -1
  {
    WrappedLength(ring, head, tail, queue);
    RotationKeepsQueue(ring, head, tail, queue, extra);
    var grown := GrownCells(ring, head, tail, extra);
    assert |grown| == |ring| + extra;
    hide TurnedCells, Blank, GrownCells;
    forall c | 0 <= c < |grown|
      ensures grown[c] == if c < |queue| then queue[c] else -1
    {
      assert Cell(0, c, |grown|) == c;
    }
  }

  /** What the growth of the lists looks at. */
  ghost predicate RingKept(s: State) {
    && 0 < |s.trials| == |s.place| == |s.ready| && s.tail < |s.ready| && Holds(s.ready, s.head, s.tail, s.queue)
    && forall k :: 0 <= k < |s.queue| ==> s.queue[k] < |s.trials|
  }

  lemma InvRingKept(s: State)
    requires Inv(s)
    ensures RingKept(s)
  {
    TailBelowCap(s);
  }

  /** The lists grown with the tail as computed: the queue stands in front. */
  lemma GrownFront(s: State, target: nat)
    requires RingKept(s) && |s.trials| < target && s.head < |s.ready| && Wrapped(s.ready, s.head, s.tail)
    ensures var t := ExtendLists(s, target);
            && Fronted(t, s.queue) && t.queue == s.queue && |s.queue| == |s.ready| - s.head + s.tail
            && t.tail == |s.ready| - s.tail && t.tail < |t.ready| == GrownCap(target)
            && (forall c :: |s.queue| <= c < |t.ready| ==> t.ready[c] == -1)
            && t.fetched == s.fetched && |t.trials| == GrownCap(target) && s.trials <= t.trials
            && |t.place| == |t.trials|
  {
    hide Holds, Wrapped, TurnedCells, Blank, GrownCells;
    GrownRing(s.ready, s.head, s.tail, s.queue, GrownCap(target) - |s.trials|);
  }

  /** If the head was below twice the tail, the next trial that finishes generation
      after the growth meets the overflow error, unless more trials than the new
      tail says have been fetched by then. */
  lemma GrowthThenOverflow(s: State, target: nat, idx: nat, fetches: nat)
    requires Inv(s) && |s.trials| < target && idx < GrownCap(target)
    requires s.head < |s.ready| && Wrapped(s.ready, s.head, s.tail) && s.head < 2 * s.tail && fetches <= |s.queue|
    ensures RingKept(s)
    ensures var t := Drained(ExtendLists(s, target), fetches);
            && t.tail == |s.ready| - s.tail < |s.queue| && t.tail < |t.ready| && idx < |t.place| && idx < |t.trials|
            && (Enqueue(t, idx).ok <==> t.tail < fetches)
  {
    InvRingKept(s);
    hide Inv;
    GrownFront(s, target);
    hide Wrapped, ExtendLists, RingKept;
    DrainsFront(ExtendLists(s, target), s.queue, fetches);
  }

  /** The step has stored the trial in slot idx, and after `n` fetches it is the only
      one that waits, is ready, and is not sent. */
  ghost predicate Starves(step: Step, idx: nat, n: nat, best: Point) {
    && step.ok
    && var u := Drained(step.state, n);
    && u.queue == [idx] && idx < |u.place| && u.place[idx] == Ready
    && CanFetch(u) && Fetch(u, false, best).1 == Busy(best)
  }

  /** If it was beyond twice the tail, that trial is stored behind empty cells: once
      the trials in front are fetched, the head stands on an empty cell, and fetches
      are answered with the best point although the trial is ready. */
  lemma GrowthThenStarvation(s: State, target: nat, idx: nat, best: Point)
    requires Inv(s) && |s.trials| < target && idx < GrownCap(target) && idx !in s.queue
    requires s.head < |s.ready| && Wrapped(s.ready, s.head, s.tail) && s.head > 2 * s.tail
    ensures RingKept(s)
    ensures var t := ExtendLists(s, target);
            && t.tail < |t.ready| && idx < |t.place| && idx < |t.trials|
            && Starves(Enqueue(t, idx), idx, |s.queue|, best)
            && Drained(Enqueue(t, idx).state, |s.queue|).fetched == s.fetched + Waiting(s.trials, s.queue)
  {
    InvRingKept(s);
    hide Inv;
    GrownFront(s, target);
    hide ExtendLists, Wrapped, RingKept;
    assert forall k :: 0 <= k < |s.queue| ==> s.queue[k] < |s.trials| by { assert RingKept(s); }
    StoredBehind(ExtendLists(s, target), s.queue, idx, best);
    WaitingSame(s.trials, ExtendLists(s, target).trials, s.queue);
  }

  /** A trial stored beyond the first empty cell is never sent by fetches alone. */
  lemma StoredBehind(t: State, front: seq<nat>, idx: nat, best: Point)
    requires Fronted(t, front) && t.queue == front && |front| < t.tail < |t.ready| && idx !in front
    requires idx < |t.trials| && forall c :: |front| <= c < |t.ready| ==> t.ready[c] == -1
    ensures Starves(Enqueue(t, idx), idx, |front|, best)
    ensures Drained(Enqueue(t, idx).state, |front|).fetched == t.fetched + Waiting(t.trials, front)
  {
    hide Enqueue, Fronted, Waiting;
    StoredState(t, front, idx);
    var u := Enqueue(t, idx).state;
    DrainsFront(u, front, |front|);
    assert front[..|front|] == front;
    assert u.queue[|front|..] == [idx];
    assert u.place[idx] == Ready;
    hide Drained;
  }

  lemma StoredState(t: State, front: seq<nat>, idx: nat)
    requires Fronted(t, front) && t.queue == front && |front| < t.tail < |t.ready|
    requires idx < |t.trials| && forall c :: |front| <= c < |t.ready| ==> t.ready[c] == -1
    ensures idx < |t.place| && Enqueue(t, idx).ok
    ensures var u := Enqueue(t, idx).state;
            && Fronted(u, front) && u.queue == front + [idx] && |front| < |u.ready| && u.ready[|front|] == -1
            && |u.place| == |t.place| && u.place[idx] == Ready && u.trials == t.trials && u.fetched == t.fetched
            && forall k :: 0 <= k < |front| ==> front[k] < |t.trials|
  {}

  /** A starved trial stays so, however often clients fetch. */
  lemma {:induction false} StaysStarved(step: Step, idx: nat, n: nat, m: nat, best: Point)
    requires Starves(step, idx, n, best) && n <= m
    ensures Starves(step, idx, m, best)
    decreases m
  {
    if n < m {
      StaysStarved(step, idx, n, m - 1, best);
      var u := Drained(step.state, m - 1);
      assert u.ready[u.head] < 0;
    }
  }

  // ---- Runs that growth breaks ---------------------------------------------

  /** A generated point that every layer accepts comes to the ring. */
  lemma GenerateEnqueues(t: State, point: Point) returns (w: State)
    requires Shape(t) && t.tail < |t.ready| && FindId(t.trials, -1) < |t.trials|
    ensures var idx := FindId(t.trials, -1);
            && |w.place| == |w.trials| == |t.trials| && w.tail < |w.ready|
            && GenerateTrial(t, Generated(point), [], true) == Enqueue(w, idx)
    ensures w.ready == t.ready && w.head == t.head && w.tail == t.tail && w.queue == t.queue && w.fetched == t.fetched
  {
    var idx := FindId(t.trials, -1);
    var u := Launch(t, idx, point);
    AcceptedPassage(t.hooks, Start(u, idx, []));
    w := Absorb(u, idx, Run(t.hooks, Start(u, idx, [])));
  }

  /** The next step of generation fails, or the point it queues is starved. */
  ghost predicate BreaksDown(t: State, point: Point, n: nat, overflows: bool, best: Point) {
    && Shape(t) && t.tail < |t.ready| && FindId(t.trials, -1) < |t.trials|
    && var step := GenerateTrial(t, Generated(point), [], true);
    if overflows then !step.ok else Starves(step, FindId(t.trials, -1), n, best)
  }

  /** A wrapped ring that is not aligned breaks down with the first trial generated
      after the growth. */
  lemma GrowthBreaks(s: State, target: nat, point: Point, best: Point)
    requires Inv(s) && |s.trials| < target
    requires s.head < |s.ready| && Wrapped(s.ready, s.head, s.tail) && s.head != 2 * s.tail
    ensures RingKept(s) && !Inv(ExtendLists(s, target))
    ensures BreaksDown(ExtendLists(s, target), point, |s.queue|, s.head < 2 * s.tail, best)
  {
    InvRingKept(s);
    ExtendKeepsIff(s, target);
    GrownFront(s, target);
    var t := ExtendLists(s, target);
    GrownShape(s, target);
    FreeNotQueued(s, t, FindId(t.trials, -1));
    hide Inv, ExtendLists, Wrapped, RingKept, Shape, GenerateTrial, FindId;
    var w := GenerateEnqueues(t, point);
    if s.head > 2 * s.tail {
      StoredBehind(w, s.queue, FindId(t.trials, -1), best);
    }
  }

  lemma GrownShape(s: State, target: nat)
    requires Inv(s) && |s.trials| < target && s.head < |s.ready| && s.tail < |s.ready|
    ensures Shape(ExtendLists(s, target))
    ensures FindId(ExtendLists(s, target).trials, -1) < |ExtendLists(s, target).trials|
  {
    assert Shape(s);
    hide Inv, Holds, TurnedCells, Blank;
    var t := ExtendLists(s, target);
    assert t.trials[|s.trials|].point.id == -1;
  }

  lemma FreeNotQueued(s: State, t: State, idx: nat)
    requires Inv(s) && s.trials <= t.trials && idx < |t.trials| && t.trials[idx].point.id == -1
    ensures idx !in s.queue
  {
    assert ListHolds(s, Ready) && ListAt(s, Ready) == s.queue;
  }

  /** For every layer stack, session size and wrapped ring whose head is not twice its
      tail there is a run that comes to it, and after which growth breaks the
      invariant: with the head below twice the tail the generation of the next trial
      fails, with the head beyond it the trial is queued and starved. */
  lemma GrowthBreaksARun(hooks: seq<Hooks>, count: nat, target: nat, r: nat, g: nat, point: Point, best: Point)
    returns (states: seq<State>, events: seq<Event>)
    requires GrownCap(count) < target && g <= r < GrownCap(count) && r != 2 * g
    ensures IsRun(states, events) && states[0] == Initial(hooks, count) && RingKept(states[|events|])
    ensures var s := states[|events|];
            && s.head == r && s.tail == g && !Inv(ExtendLists(s, target))
            && BreaksDown(ExtendLists(s, target), point, |s.queue|, r < 2 * g, best)
  {
    states, events := WrapOccurs(hooks, count, r, g);
    hide Inv, IsRun, Initial, ExtendLists, Wrapped, RingKept, BreaksDown;
    GrowthBreaks(states[|events|], target, point, best);
  }

  // ---- The join that does it -----------------------------------------------

  /** The first n events are the joins of clients 1 to n, and there are no others. */
  ghost predicate JoinsFirst(events: seq<Event>, perClient: nat, n: nat) {
    && n <= |events|
    && (forall i :: 0 <= i < n ==> events[i] == JoinEvent((i + 1) * perClient))
    && forall i :: n <= i < |events| ==> !events[i].JoinEvent?
  }

  /** A join that the lists have room for changes nothing. */
  lemma JoinsOne(states: seq<State>, events: seq<Event>, hooks: seq<Hooks>, count: nat, target: nat)
    returns (more: seq<State>, es: seq<Event>)
    requires Reaches(states, events, hooks, count, 0, 0, 0) && target <= GrownCap(count)
    ensures Reaches(more, es, hooks, count, 0, 0, 0) && es == events + [JoinEvent(target)]
  {
    var s := states[|events|];
    JoinChangesNothing(s, target);
    hide Inv, Allowed, Apply, GrownCap, Initial;
    ExtendRun(states, events, JoinEvent(target));
    more, es := states + [s], events + [JoinEvent(target)];
  }

  lemma JoinChangesNothing(s: State, target: nat)
    requires Inv(s) && target <= |s.trials|
    ensures Allowed(s, JoinEvent(target)) && Apply(s, JoinEvent(target)) == s
  {
    FetchReady(s);
    TailBelowCap(s);
  }

  lemma {:induction false} Joins(states: seq<State>, events: seq<Event>, hooks: seq<Hooks>, count: nat, perClient: nat,
                                 n: nat, m: nat)
    returns (more: seq<State>, es: seq<Event>)
    requires Reaches(states, events, hooks, count, 0, 0, 0) && JoinsFirst(events, perClient, n) && |events| == n <= m
    requires forall i :: 0 <= i <= m ==> i * perClient <= GrownCap(count)
    ensures Reaches(more, es, hooks, count, 0, 0, 0) && JoinsFirst(es, perClient, m) && |es| == m
    decreases m - n
  {
    hide Reaches, GrownCap;
    more, es := states, events;
    if n < m {
      more, es := JoinsOne(states, events, hooks, count, (n + 1) * perClient);
      more, es := Joins(more, es, hooks, count, perClient, n + 1, m);
    }
  }

  /** How many joins the lists have room for. */
  lemma RoomForJoins(cap: nat, perClient: nat) returns (joins: nat)
    requires 0 < perClient <= cap
    ensures 0 < joins && cap < (joins + 1) * perClient
    ensures forall i :: 0 <= i <= joins ==> i * perClient <= cap
  {
    joins := 1;
    while (joins + 1) * perClient <= cap
      invariant 0 < joins && joins * perClient <= cap
      invariant forall i :: 0 <= i <= joins ==> i * perClient <= cap
      decreases cap - joins
    {
      JoinsBelow(joins + 1, perClient);
      joins := joins + 1;
    }
  }

  lemma JoinsBelow(joins: nat, perClient: nat)
    requires 0 < perClient
    ensures joins <= joins * perClient
  {
    assert joins * (perClient - 1) >= 0;
  }

  lemma JoinsThenWraps(hooks: seq<Hooks>, count: nat, perClient: nat, joins: nat, r: nat, g: nat)
    returns (states: seq<State>, events: seq<Event>)
    requires g <= r < GrownCap(count) && forall i :: 0 <= i <= joins ==> i * perClient <= GrownCap(count)
    ensures Reaches(states, events, hooks, count, r, GrownCap(count) - r + g, GrownCap(count) + g)
    ensures JoinsFirst(events, perClient, joins)
  {
    hide Reaches, GrownCap, Initial;
    Begins(hooks, count);
    states, events := Joins([Initial(hooks, count)], [], hooks, count, perClient, 0, joins);
    states, events := Wraps(states, events, hooks, count, r, g);
  }

  lemma ReachesWrapped(states: seq<State>, events: seq<Event>, hooks: seq<Hooks>, count: nat, r: nat, g: nat)
    requires g <= r < GrownCap(count)
    requires Reaches(states, events, hooks, count, r, GrownCap(count) - r + g, GrownCap(count) + g)
    ensures IsRun(states, events) && states[0] == Initial(hooks, count)
    ensures var s := states[|events|];
            && Inv(s) && |s.trials| == |s.ready| == GrownCap(count) && s.head == r && s.tail == g && r < |s.ready|
            && Wrapped(s.ready, s.head, s.tail) && (forall i :: 0 <= i < |s.queue| ==> s.queue[i] < GrownCap(count))
  {
    hide Position, Initial, Inv, GrownCap;
    WrappedThere(states[|events|], hooks, GrownCap(count), r, g);
  }

  /** In every session, however many clients it expects and whatever trials each is to
      have, there is a run of this kind in which the growth is that of a join: the
      clients the lists have room for join, the ring comes to be wrapped, and one more
      client joins. */
  lemma JoinBreaksARun(hooks: seq<Hooks>, clients: nat, perClient: nat, r: nat, g: nat, point: Point, best: Point)
    returns (states: seq<State>, events: seq<Event>, joins: nat)
    requires 0 < clients && 0 < perClient && g <= r < GrownCap(clients * perClient) && r != 2 * g
    ensures IsRun(states, events) && states[0] == Initial(hooks, clients * perClient) && RingKept(states[|events|])
    ensures 0 < joins && JoinsFirst(events, perClient, joins)
    ensures var s, t := states[|events|], ExtendLists(states[|events|], (joins + 1) * perClient);
            && s.head == r && s.tail == g && |s.trials| < (joins + 1) * perClient && !Inv(t)
            && BreaksDown(t, point, |s.queue|, r < 2 * g, best)
  {
    hide Reaches, Inv, Initial, GrownCap, ExtendLists, Wrapped, RingKept, BreaksDown;
    var count := clients * perClient;
    OneOf(clients, perClient);
    Roomy(count);
    joins := RoomForJoins(GrownCap(count), perClient);
    states, events := JoinsThenWraps(hooks, count, perClient, joins, r, g);
    ReachesWrapped(states, events, hooks, count, r, g);
    GrowthBreaks(states[|events|], (joins + 1) * perClient, point, best);
  }

  lemma OneOf(clients: nat, perClient: nat)
    requires 0 < clients
    ensures perClient <= clients * perClient
  {
    assert (clients - 1) * perClient >= 0;
  }

  lemma Roomy(count: nat)
    ensures count <= GrownCap(count)
  {}
}
