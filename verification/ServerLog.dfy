/** The server's view of a session: which points are out with clients, what has
    been reported for them, and the best point so far. */
module ServerLog {
  import opened Wire

  /** A performance; sessions start with an infinite one. */
  datatype Cost = Finite(r: real) | Infinite

  predicate Below(a: Cost, b: Cost) {
    a.Finite? && (b.Infinite? || a.r < b.r)
  }

  datatype Entry = Entry(point: Point, cost: Cost)

  datatype State = State(fetched: seq<Point>, log: seq<Entry>, best: Point, bestCost: Cost, reported: nat)

  /** hpoint_copy: a point without an id is copied as the empty one. */
  function Copied(p: Point): Point {
    if p.id == -1 then Point(-1, []) else p
  }

  /** The first fetched point with an id. */
  function FirstWithId(fetched: seq<Point>, id: int, i: nat): (r: nat)
    requires i <= |fetched|
    ensures i <= r <= |fetched| && (r < |fetched| ==> fetched[r].id == id)
    ensures forall k :: i <= k < r ==> fetched[k].id != id
    decreases |fetched| - i
  {
    if i == |fetched| || fetched[i].id == id then i else FirstWithId(fetched, id, i + 1)
  }

  /** Take element i out by moving the last one into its place. */
  function Removed(fetched: seq<Point>, i: nat): (r: seq<Point>)
    requires i < |fetched|
    ensures |r| == |fetched| - 1
  {
    var last := |fetched| - 1;
    if i < last then fetched[..last][i := Copied(fetched[last])] else fetched[..last]
  }

  /** The session has handed out a point. */
  function Fetch(s: State, p: Point): State {
    s.(fetched := s.fetched + [Copied(p)])
  }

  /** A client reports a performance. */
  function Report(s: State, id: int, cost: Cost): State {
    var i := FirstWithId(s.fetched, id, 0);
    if i == |s.fetched| then s.(log := s.log + [Entry(Copied(s.best), cost)])
    else
      var p := s.fetched[i];
      var better := Below(cost, s.bestCost) && s.best.id != p.id;
      s.(fetched := Removed(s.fetched, i),
         log := s.log + [Entry(Copied(p), cost)],
         best := if better then Copied(p) else s.best,
         bestCost := if better then cost else s.bestCost)
  }

  /** The session has taken a report. */
  function Acknowledge(s: State): State {
    s.(reported := s.reported + 1)
  }

  /** The state session_open leaves; it does not touch what is fetched. */
  function Opened(fetched: seq<Point>): State {
    State(fetched, [], Point(-1, []), Infinite, 0)
  }

  // ---- Runs --------------------------------------------------------------

  datatype Event = Fetched(p: Point) | Reported(id: int, cost: Cost) | Acknowledged

  function Step(s: State, e: Event): State {
    match e
    case Fetched(p) => Fetch(s, p)
    case Reported(id, cost) => Report(s, id, cost)
    case Acknowledged => Acknowledge(s)
  }

  function After(events: seq<Event>): State {
    if events == [] then Opened([]) else Step(After(events[..|events| - 1]), events[|events| - 1])
  }

  /** Every candidate is handed out once. */
  ghost predicate FetchedOnce(events: seq<Event>) {
    && (forall i :: 0 <= i < |events| && events[i].Fetched? ==> events[i].p.id >= 0)
    && (forall i, j :: 0 <= i < j < |events| && events[i].Fetched? && events[j].Fetched? ==>
          events[i].p.id != events[j].p.id)
  }

  /** Event i handed out the point, and nothing has been reported for it since. */
  ghost predicate AwaitedFrom(events: seq<Event>, p: Point, i: nat) {
    && i < |events| && events[i] == Fetched(p)
    && forall j :: i < j < |events| && events[j].Reported? ==> events[j].id != p.id
  }

  ghost predicate Awaited(events: seq<Event>, p: Point) {
    exists i: nat :: AwaitedFrom(events, p, i)
  }

  /** Event i reports the point that was handed out under its id. */
  ghost predicate Answers(events: seq<Event>, i: nat, p: Point) {
    i < |events| && events[i].Reported? && events[i].id == p.id && Awaited(events[..i], p)
  }

  function Reports(events: seq<Event>): nat {
    if events == [] then 0
    else Reports(events[..|events| - 1]) + if events[|events| - 1].Reported? then 1 else 0
  }

  function Acknowledgements(events: seq<Event>): nat {
    if events == [] then 0
    else Acknowledgements(events[..|events| - 1]) + if events[|events| - 1].Acknowledged? then 1 else 0
  }

  /** The fetch log holds exactly the points handed out and not reported since, each
      once. */
  ghost predicate Outstanding(events: seq<Event>, fetched: seq<Point>) {
    && (forall p :: p in fetched <==> Awaited(events, p))
    && (forall i, j :: 0 <= i < j < |fetched| ==> fetched[i].id != fetched[j].id)
  }

  /** Report i answered the point with this cost, and every answered report before it had a
      higher one. */
  ghost predicate FirstAt(events: seq<Event>, i: nat, best: Point, cost: real) {
    && Answers(events, i, best) && events[i].cost == Finite(cost)
    && forall j: nat, p :: j < i && Answers(events, j, p) && events[j].cost.Finite? ==> cost < events[j].cost.r
  }

  /** The lowest cost of the reports that answered a point and the point that came to it
      first; infinite, and the empty point, exactly if no answered report was finite. */
  ghost predicate Best(events: seq<Event>, best: Point, cost: Cost) {
    match cost
    case Infinite =>
      && best == Point(-1, [])
      && forall i: nat, p :: Answers(events, i, p) ==> events[i].cost.Infinite?
    case Finite(r) =>
      && (forall i: nat, p :: Answers(events, i, p) && events[i].cost.Finite? ==> r <= events[i].cost.r)
      && exists i: nat :: FirstAt(events, i, best, r)
  }

  // ---- One more event ----------------------------------------------------

  lemma AwaitedSnoc(events: seq<Event>, e: Event, p: Point)
    ensures Awaited(events + [e], p) <==>
            e == Fetched(p) || (Awaited(events, p) && !(e.Reported? && e.id == p.id))
  {
    var all := events + [e];
    if Awaited(all, p) {
      var i: nat :| AwaitedFrom(all, p, i);
      if i < |events| {
        assert forall j :: 0 <= j < |events| ==> all[j] == events[j];
        assert AwaitedFrom(events, p, i);
        assert all[|events|] == e;
      }
    }
    if e == Fetched(p) {
      assert AwaitedFrom(all, p, |events|);
    }
    if Awaited(events, p) && !(e.Reported? && e.id == p.id) {
      var i: nat :| AwaitedFrom(events, p, i);
      assert AwaitedFrom(all, p, i);
    }
  }

  lemma AnswersSnoc(events: seq<Event>, e: Event, i: nat, p: Point)
    ensures Answers(events + [e], i, p) <==>
            Answers(events, i, p) || (i == |events| && e.Reported? && e.id == p.id && Awaited(events, p))
  {
    var all := events + [e];
    if i < |events| {
      assert all[..i] == events[..i];
    } else if i == |events| {
      assert all[..i] == events;
    }
  }

  lemma AwaitedWasFetched(events: seq<Event>, p: Point) returns (i: nat)
    requires Awaited(events, p)
    ensures i < |events| && events[i] == Fetched(p)
  {
    i :| AwaitedFrom(events, p, i);
  }

  lemma FetchedOncePrefix(events: seq<Event>, e: Event)
    requires FetchedOnce(events + [e])
    ensures FetchedOnce(events)
    ensures e.Fetched? ==> e.p.id >= 0 && forall p :: Awaited(events, p) ==> p.id != e.p.id
    ensures forall p :: Awaited(events, p) ==> p.id >= 0
  {
    var all := events + [e];
    assert forall k :: 0 <= k < |events| ==> all[k] == events[k];
    assert all[|events|] == e;
    forall p | Awaited(events, p)
      ensures p.id >= 0 && (e.Fetched? ==> p.id != e.p.id)
    {
      var i := AwaitedWasFetched(events, p);
      assert all[i] == Fetched(p);
    }
  }

  lemma RemovedHolds(fetched: seq<Point>, i: nat, p: Point)
    requires i < |fetched| && (forall k :: 0 <= k < |fetched| ==> fetched[k].id != -1)
    requires forall j, k :: 0 <= j < k < |fetched| ==> fetched[j].id != fetched[k].id
    ensures p in Removed(fetched, i) <==> p in fetched && p.id != fetched[i].id
    ensures forall j, k :: 0 <= j < k < |fetched| - 1 ==> Removed(fetched, i)[j].id != Removed(fetched, i)[k].id
  {
    var last := |fetched| - 1;
    var r := Removed(fetched, i);
    assert forall k :: 0 <= k < last ==> r[k] == if k == i then fetched[last] else fetched[k];
    if p in fetched && p.id != fetched[i].id {
      var k :| 0 <= k < |fetched| && fetched[k] == p;
      assert r[if k == last then i else k] == p;
    }
  }

  lemma FetchKeeps(events: seq<Event>, fetched: seq<Point>, p: Point)
    requires FetchedOnce(events + [Fetched(p)]) && Outstanding(events, fetched)
    ensures Outstanding(events + [Fetched(p)], fetched + [Copied(p)])
  {
    FetchedOncePrefix(events, Fetched(p));
    forall q
      ensures q in fetched + [p] <==> Awaited(events + [Fetched(p)], q)
    {
      AwaitedSnoc(events, Fetched(p), q);
    }
    forall k | 0 <= k < |fetched|
      ensures fetched[k].id != p.id
    {
      assert fetched[k] in fetched;
    }
  }

  lemma ReportKeeps(events: seq<Event>, fetched: seq<Point>, id: int, cost: Cost)
    requires FetchedOnce(events + [Reported(id, cost)]) && Outstanding(events, fetched)
    ensures var i := FirstWithId(fetched, id, 0);
            && Outstanding(events + [Reported(id, cost)], if i < |fetched| then Removed(fetched, i) else fetched)
            && (i < |fetched| ==> Awaited(events, fetched[i]) && fetched[i].id == id >= 0)
            && forall p :: Awaited(events, p) && p.id == id ==> i < |fetched| && p == fetched[i]
  {
    hide FetchedOnce, Awaited, FirstWithId, Removed;
    FetchedOncePrefix(events, Reported(id, cost));
    var i := FirstWithId(fetched, id, 0);
    assert forall k :: 0 <= k < |fetched| ==> fetched[k] in fetched;
    var now := if i < |fetched| then Removed(fetched, i) else fetched;
    if i < |fetched| {
      RemovedHolds(fetched, i, fetched[i]);
    }
    forall q
      ensures q in now <==> Awaited(events + [Reported(id, cost)], q)
    {
      AwaitedSnoc(events, Reported(id, cost), q);
      if i < |fetched| {
        RemovedHolds(fetched, i, q);
      }
    }
  }

  /** Later events do not change which report was first. */
  lemma FirstStays(events: seq<Event>, e: Event, i: nat, best: Point, cost: real)
    requires FirstAt(events, i, best, cost)
    ensures FirstAt(events + [e], i, best, cost)
  {
    var all := events + [e];
    assert all[i] == events[i];
    AnswersSnoc(events, e, i, best);
    forall j: nat, p | j < i && Answers(all, j, p) && all[j].cost.Finite?
      ensures cost < all[j].cost.r
    {
      AnswersSnoc(events, e, j, p);
      assert all[j] == events[j];
    }
  }

  /** A report that answers no point, or one that does not reach a lower cost, changes
      nothing about the best one. */
  lemma BestKept(events: seq<Event>, e: Event, best: Point, cost: Cost)
    requires Best(events, best, cost)
    requires e.Reported? && (exists p :: Awaited(events, p) && e.id == p.id) && e.cost.Finite? ==>
               cost.Finite? && cost.r <= e.cost.r
    ensures Best(events + [e], best, cost)
  {
    var all := events + [e];
    forall i: nat, p | Answers(all, i, p)
      ensures if cost.Infinite? then all[i].cost.Infinite? else all[i].cost.Finite? ==> cost.r <= all[i].cost.r
    {
      AnswersSnoc(events, e, i, p);
      if i < |events| {
        assert all[i] == events[i];
      }
    }
    if cost.Finite? {
      var i: nat :| FirstAt(events, i, best, cost.r);
      FirstStays(events, e, i, best, cost.r);
    }
  }

  /** A report that answers a point makes it the best exactly if its cost is a number below
      the lowest so far. */
  lemma BestUpdated(events: seq<Event>, p: Point, best: Point, was: Cost, cost: Cost)
    requires Best(events, best, was) && Awaited(events, p)
    requires forall q :: Awaited(events, q) && q.id == p.id ==> q == p
    ensures var all := events + [Reported(p.id, cost)];
            if cost.Finite? && (was.Finite? ==> cost.r < was.r) then Best(all, p, cost) else Best(all, best, was)
  {
    var e := Reported(p.id, cost);
    if cost.Finite? && (was.Finite? ==> cost.r < was.r) {
      var all := events + [e];
      forall i: nat, q | i < |events| && Answers(all, i, q) && all[i].cost.Finite?
        ensures cost.r < all[i].cost.r
      {
        AnswersSnoc(events, e, i, q);
        assert all[i] == events[i];
      }
      AnswersSnoc(events, e, |events|, p);
      assert FirstAt(all, |events|, p, cost.r);
    } else {
      BestKept(events, e, best, was);
    }
  }

  /** A point that is out is not the best one, which has been reported. */
  lemma BestIsNotOut(events: seq<Event>, best: Point, cost: Cost, p: Point)
    requires FetchedOnce(events) && Best(events, best, cost) && Awaited(events, p) && p.id >= 0
    ensures best.id != p.id
  {
    var g: nat :| AwaitedFrom(events, p, g);
    if cost.Finite? {
      var i: nat :| FirstAt(events, i, best, cost.r);
      var f := AwaitedWasFetched(events[..i], best);
      assert events[f] == Fetched(best) && f < i;
    }
  }

  // ---- Every run ---------------------------------------------------------

  /** What the server knows after any run of a session: the fetch log is what is out,
      the log has an entry for every report, and the best point is a minimum over
      the points reported. */
  lemma {:induction false} ServerView(events: seq<Event>)
    requires FetchedOnce(events)
    ensures var s := After(events);
            && Outstanding(events, s.fetched)
            && |s.log| == Reports(events) && s.reported == Acknowledgements(events)
            && Best(events, s.best, s.bestCost)
    decreases |events|
  {
    if events != [] {
      var before, e := events[..|events| - 1], events[|events| - 1];
      assert events == before + [e];
      FetchedOncePrefix(before, e);
      ServerView(before);
      ServerStep(before, e, After(before));
    }
  }

  lemma ServerStep(events: seq<Event>, e: Event, s: State)
    requires FetchedOnce(events + [e])
    requires Outstanding(events, s.fetched) && Best(events, s.best, s.bestCost)
    ensures Outstanding(events + [e], Step(s, e).fetched) && Best(events + [e], Step(s, e).best, Step(s, e).bestCost)
  {
    hide Outstanding, Best, FetchedOnce, Awaited;
    FetchedOncePrefix(events, e);
    match e
    case Fetched(p) =>
      FetchKeeps(events, s.fetched, p);
      BestKept(events, e, s.best, s.bestCost);
    case Reported(id, cost) =>
      ReportKeeps(events, s.fetched, id, cost);
      var i := FirstWithId(s.fetched, id, 0);
      if i < |s.fetched| {
        BestIsNotOut(events, s.best, s.bestCost, s.fetched[i]);
        BestUpdated(events, s.fetched[i], s.best, s.bestCost, cost);
      } else {
        BestKept(events, e, s.best, s.bestCost);
      }
    case Acknowledged =>
      NothingChanges(events, s.fetched);
      BestKept(events, e, s.best, s.bestCost);
  }

  lemma NothingChanges(events: seq<Event>, fetched: seq<Point>)
    requires Outstanding(events, fetched)
    ensures Outstanding(events + [Acknowledged], fetched)
  {
    forall p
      ensures p in fetched <==> Awaited(events + [Acknowledged], p)
    {
      AwaitedSnoc(events, Acknowledged, p);
    }
  }

  /** A report is logged with the point it answers, and with the best point if it
      answers none. */
  lemma LoggedPoint(events: seq<Event>, id: int, cost: Cost)
    requires FetchedOnce(events + [Reported(id, cost)])
    ensures var s, t := After(events), After(events + [Reported(id, cost)]);
            && |t.log| == |s.log| + 1 && t.log[..|s.log|] == s.log && t.log[|s.log|].cost == cost
            && (forall p :: Awaited(events, p) && p.id == id ==> t.log[|s.log|].point == p)
            && ((forall p :: Awaited(events, p) ==> p.id != id) ==> t.log[|s.log|].point == Copied(s.best))
  {
    FetchedOncePrefix(events, Reported(id, cost));
    ServerView(events);
    ReportKeeps(events, After(events).fetched, id, cost);
    var all := events + [Reported(id, cost)];
    assert all[..|all| - 1] == events;
    assert After(all) == Report(After(events), id, cost);
    hide Outstanding, Best, FetchedOnce, Awaited, After;
  }

  /** A point without an id has no values. */
  predicate EmptyIfNoId(p: Point) {
    p.id == -1 ==> p.vals == []
  }

  /** Whatever is fetched and reported, the server never keeps values of a point that has
      no id. */
  lemma {:induction false} NoIdNoValues(events: seq<Event>)
    ensures var s := After(events);
            && (forall k :: 0 <= k < |s.fetched| ==> EmptyIfNoId(s.fetched[k]))
            && (forall k :: 0 <= k < |s.log| ==> EmptyIfNoId(s.log[k].point))
            && EmptyIfNoId(s.best)
    decreases |events|
  {
    if events != [] {
      NoIdNoValues(events[..|events| - 1]);
    }
  }

  // ---- Slots used before -------------------------------------------------

  /** A run of a session that takes over the slot of an older one, with what that
      one left in the fetch log. */
  function AfterFrom(leftover: seq<Point>, events: seq<Event>): State {
    if events == [] then Opened(leftover) else Step(AfterFrom(leftover, events[..|events| - 1]), events[|events| - 1])
  }

  /** The session is logged as if its slot were new; the leftovers stay in front. */
  ghost predicate LoggedAsNew(leftover: seq<Point>, events: seq<Event>) {
    AfterFrom(leftover, events) == After(events).(fetched := leftover + After(events).fetched)
  }

  ghost predicate AmongLeftover(leftover: seq<Point>, ids: iset<int>) {
    exists k :: 0 <= k < |leftover| && leftover[k].id in ids
  }

  ghost predicate ReportsOnly(events: seq<Event>, ids: iset<int>) {
    forall i :: 0 <= i < |events| && events[i].Reported? ==> events[i].id in ids
  }

  /** The search passes over leftovers with other ids. */
  lemma {:induction false} FirstBehind(leftover: seq<Point>, fetched: seq<Point>, id: int, k: nat)
    requires k <= |leftover| && forall j :: 0 <= j < |leftover| ==> leftover[j].id != id
    ensures FirstWithId(leftover + fetched, id, k) == |leftover| + FirstWithId(fetched, id, 0)
    decreases |leftover| - k
  {
    if k < |leftover| {
      FirstBehind(leftover, fetched, id, k + 1);
    } else {
      FirstShifted(leftover, fetched, id, 0);
    }
  }

  lemma {:induction false} FirstShifted(leftover: seq<Point>, fetched: seq<Point>, id: int, i: nat)
    requires i <= |fetched|
    ensures FirstWithId(leftover + fetched, id, |leftover| + i) == |leftover| + FirstWithId(fetched, id, i)
    decreases |fetched| - i
  {
    if i < |fetched| {
      FirstShifted(leftover, fetched, id, i + 1);
    }
  }

  lemma ReportBehind(leftover: seq<Point>, s: State, id: int, cost: Cost)
    requires forall j :: 0 <= j < |leftover| ==> leftover[j].id != id
    ensures Report(s.(fetched := leftover + s.fetched), id, cost) ==
            Report(s, id, cost).(fetched := leftover + Report(s, id, cost).fetched)
  {
    FirstBehind(leftover, s.fetched, id, 0);
    var i := FirstWithId(s.fetched, id, 0);
    if i < |s.fetched| {
      assert Removed(leftover + s.fetched, |leftover| + i) == leftover + Removed(s.fetched, i);
    }
  }

  /** While no report names a leftover, the session is logged as in a new slot. */
  lemma {:induction false} OldPointsStay(leftover: seq<Point>, events: seq<Event>, ids: iset<int>)
    requires ReportsOnly(events, ids) && !AmongLeftover(leftover, ids)
    ensures LoggedAsNew(leftover, events)
    decreases |events|
  {
    if events == [] {
      assert leftover + [] == leftover;
    } else {
      var before, e := events[..|events| - 1], events[|events| - 1];
      OldPointsStay(leftover, before, ids);
      var s := After(before);
      match e
      case Fetched(p) => assert leftover + s.fetched + [Copied(p)] == leftover + (s.fetched + [Copied(p)]);
      case Reported(id, cost) => ReportBehind(leftover, s, id, cost);
      case Acknowledged =>
    }
  }

  /** A report that names a leftover is logged with the older point, and the point
      just fetched under that id stays in the fetch log. */
  lemma OlderPointLogged(leftover: seq<Point>, k: nat, p: Point, cost: Cost)
    requires k < |leftover| && leftover[k].id == p.id >= 0 && p !in leftover
    ensures var events := [Fetched(p), Reported(p.id, cost)];
            var s := AfterFrom(leftover, events);
            && FetchedOnce(events) && |s.log| == 1 && s.log[0].point in leftover && p in s.fetched
            && After(events).log == [Entry(p, cost)] && After(events).fetched == []
  {
    hide Report, Fetch, Opened;
    AfterTwo(leftover, Fetched(p), Reported(p.id, cost));
    AfterTwo([], Fetched(p), Reported(p.id, cost));
    FromNew([Fetched(p), Reported(p.id, cost)]);
    AnsweredWithOlder(leftover, k, p, cost);
    AnsweredAlone(p, cost);
  }

  lemma AnsweredWithOlder(leftover: seq<Point>, k: nat, p: Point, cost: Cost)
    requires k < |leftover| && leftover[k].id == p.id >= 0
    ensures var s := Report(Fetch(Opened(leftover), p), p.id, cost);
            |s.log| == 1 && s.log[0].point in leftover && p in s.fetched
  {
    var both := leftover + [p];
    assert both[k] == leftover[k] && both[|leftover|] == p;
    var first := FirstWithId(both, p.id, 0);
    assert first < |leftover| && both[first] == leftover[first];
    assert Removed(both, first)[first] == p;
  }

  lemma AnsweredAlone(p: Point, cost: Cost)
    requires p.id >= 0
    ensures var s := Report(Fetch(Opened([]), p), p.id, cost); s.log == [Entry(p, cost)] && s.fetched == []
  {
    assert [] + [p] == [p] && FirstWithId([p], p.id, 0) == 0 && Removed([p], 0) == [];
  }

  lemma AfterTwo(leftover: seq<Point>, e: Event, f: Event)
    ensures AfterFrom(leftover, [e, f]) == Step(Step(Opened(leftover), e), f)
  {
    assert [e, f][..1] == [e] && [e][..0] == [];
    assert AfterFrom(leftover, [e]) == Step(AfterFrom(leftover, []), e);
  }

  lemma {:induction false} FromNew(events: seq<Event>)
    ensures AfterFrom([], events) == After(events)
  {
    if events != [] {
      FromNew(events[..|events| - 1]);
    }
  }

  /** What the sessions that had the slot before, one after the other, have left in the
      fetch log. */
  function LeftAfter(earlier: seq<seq<Event>>): seq<Point> {
    if earlier == [] then [] else AfterFrom(LeftAfter(earlier[..|earlier| - 1]), earlier[|earlier| - 1]).fetched
  }

  ghost predicate AllFetchedOnce(earlier: seq<seq<Event>>) {
    forall k :: 0 <= k < |earlier| ==> FetchedOnce(earlier[k])
  }

  ghost predicate AllCandidates(points: seq<Point>) {
    forall k :: 0 <= k < |points| ==> points[k].id >= 0
  }

  /** A slot that was new before holds what its one session still awaits. */
  lemma LeftByOne(events: seq<Event>)
    ensures LeftAfter([events]) == After(events).fetched
  {
    assert [events][..0] == [];
    FromNew(events);
  }

  lemma {:induction false} RunLeavesCandidates(leftover: seq<Point>, events: seq<Event>)
    requires AllCandidates(leftover) && FetchedOnce(events)
    ensures AllCandidates(AfterFrom(leftover, events).fetched)
    decreases |events|
  {
    if events != [] {
      RunLeavesCandidates(leftover, events[..|events| - 1]);
    }
  }

  /** What is left behind are candidates; an id may have been left more than once. */
  lemma {:induction false} LeftAreCandidates(earlier: seq<seq<Event>>)
    requires AllFetchedOnce(earlier)
    ensures AllCandidates(LeftAfter(earlier))
    decreases |earlier|
  {
    if earlier != [] {
      LeftAreCandidates(earlier[..|earlier| - 1]);
      RunLeavesCandidates(LeftAfter(earlier[..|earlier| - 1]), earlier[|earlier| - 1]);
    }
  }

  /** However often the slot was used before, and whatever ids a session may report: all
      its runs are logged as in a new slot exactly when none of these ids was left behind. */
  lemma LoggedAsNewIff(earlier: seq<seq<Event>>, ids: iset<int>)
    requires AllFetchedOnce(earlier)
    ensures var leftover := LeftAfter(earlier);
            (forall events :: FetchedOnce(events) && ReportsOnly(events, ids) ==> LoggedAsNew(leftover, events)) <==>
            !AmongLeftover(leftover, ids)
  {
    var leftover := LeftAfter(earlier);
    if AmongLeftover(leftover, ids) {
      LeftAreCandidates(earlier);
      var k :| 0 <= k < |leftover| && leftover[k].id in ids;
      LeftoverSpoils(leftover, k, ids);
    } else {
      forall events | FetchedOnce(events) && ReportsOnly(events, ids)
        ensures LoggedAsNew(leftover, events)
      {
        OldPointsStay(leftover, events, ids);
      }
    }
  }

  function Longest(points: seq<Point>): (r: nat)
    ensures forall k :: 0 <= k < |points| ==> |points[k].vals| <= r
  {
    if points == [] then 0
    else
      var r := Longest(points[1..]);
      assert forall k :: 1 <= k < |points| ==> points[k] == points[1..][k - 1];
      if r < |points[0].vals| then |points[0].vals| else r
  }

  /** The session hands out a point of the leftover's id, unlike all that were left. */
  lemma LeftoverSpoils(leftover: seq<Point>, k: nat, ids: iset<int>)
    requires k < |leftover| && leftover[k].id in ids && leftover[k].id >= 0
    ensures exists events :: FetchedOnce(events) && ReportsOnly(events, ids) && !LoggedAsNew(leftover, events)
  {
    hide FetchedOnce, After, AfterFrom;
    var p := Point(leftover[k].id, seq(Longest(leftover) + 1, _ => IntVal(0)));
    OlderPointLogged(leftover, k, p, Finite(0.0));
    var events := [Fetched(p), Reported(p.id, Finite(0.0))];
    assert ReportsOnly(events, ids);
    assert AfterFrom(leftover, events).log[0].point != After(events).log[0].point;
  }

  /** A session that may report any id is logged right in every run exactly if its
      slot was left with nothing in the fetch log. */
  lemma AnySessionLoggedIff(earlier: seq<seq<Event>>)
    requires AllFetchedOnce(earlier)
    ensures (forall events :: FetchedOnce(events) ==> LoggedAsNew(LeftAfter(earlier), events)) <==>
            LeftAfter(earlier) == []
  {
    var leftover := LeftAfter(earlier);
    if leftover == [] {
      forall events: seq<Event> | FetchedOnce(events)
        ensures LoggedAsNew(leftover, events)
      {
        OldPointsStay(leftover, events, iset i | 0 <= i < |events| && events[i].Reported? :: events[i].id);
      }
    } else {
      LeftAreCandidates(earlier);
      LeftoverSpoils(leftover, 0, iset{leftover[0].id});
    }
  }

  // ---- The arrays --------------------------------------------------------

  /** The server's record of a session. */
  class SessionState {
    var fetched: array<Point>
    var fetchedLen: nat
    var log: array<Entry>
    var logLen: nat
    var best: Point
    var bestCost: Cost
    var reported: nat

    ghost predicate Valid()
      reads this
    {
      fetchedLen <= fetched.Length && logLen <= log.Length
    }

    ghost function View(): State
      requires Valid()
      reads this, fetched, log
    {
      State(fetched[..fetchedLen], log[..logLen], best, bestCost, reported)
    }

    constructor ()
      ensures Valid() && fresh(fetched) && fresh(log) && View() == Opened([])
    {
      fetched, fetchedLen := new Point[0], 0;
      log, logLen := new Entry[0], 0;
      best, bestCost, reported := Point(-1, []), Infinite, 0;
    }

    /** array_grow for the fetch log: eight elements, or twice as many as before. */
    method GrowFetched()
      requires Valid()
      modifies this`fetched
      ensures Valid() && View() == old(View()) && fresh(fetched) && fetched.Length > old(fetched.Length)
    {
      var cap := if fetched.Length >= 8 then 2 * fetched.Length else 8;
      var grown := new Point[cap](_ => Point(-1, []));
      var i := 0;
      while i < fetchedLen
        invariant 0 <= i <= fetchedLen <= fetched.Length < cap && grown.Length == cap
        invariant fetched == old(fetched) && grown[..i] == fetched[..i]
      {
        grown[i] := fetched[i];
        i := i + 1;
      }
      fetched := grown;
    }

    method GrowLog()
      requires Valid()
      modifies this`log
      ensures Valid() && View() == old(View()) && fresh(log) && log.Length > old(log.Length)
    {
      var cap := if log.Length >= 8 then 2 * log.Length else 8;
      var grown := new Entry[cap](_ => Entry(Point(-1, []), Infinite));
      var i := 0;
      while i < logLen
        invariant 0 <= i <= logLen <= log.Length < cap && grown.Length == cap
        invariant log == old(log) && grown[..i] == log[..i]
      {
        grown[i] := log[i];
        i := i + 1;
      }
      log := grown;
    }

    /** FETCH from the session, before it is forwarded to the client. */
    method LogFetch(p: Point)
      requires Valid()
      modifies this`fetched, this`fetchedLen, fetched
      ensures Valid() && View() == Fetch(old(View()), p) && (fetched == old(fetched) || fresh(fetched))
    {
      ghost var was := View();
      if fetchedLen == fetched.Length {
        GrowFetched();
      }
      fetched[fetchedLen] := Copied(p);
      fetchedLen := fetchedLen + 1;
      assert fetched[..fetchedLen] == was.fetched + [Copied(p)];
    }

    /** append_http_log. */
    method Append(p: Point, cost: Cost)
      requires Valid()
      modifies this`log, this`logLen, log
      ensures Valid() && (log == old(log) || fresh(log))
      ensures View() == old(View()).(log := old(View()).log + [Entry(Copied(p), cost)])
    {
      ghost var was := View();
      if logLen == log.Length {
        GrowLog();
      }
      log[logLen] := Entry(Copied(p), cost);
      logLen := logLen + 1;
      assert log[..logLen] == was.log + [Entry(Copied(p), cost)];
    }

    /** REPORT from a client. */
    method LogReport(id: int, cost: Cost)
      requires Valid()
      modifies this, fetched, log
      ensures Valid() && View() == Report(old(View()), id, cost)
    {
      ghost var was := View();
      var i := 0;
      while i < fetchedLen && fetched[i].id != id
        invariant 0 <= i <= fetchedLen
        invariant FirstWithId(was.fetched, id, 0) == FirstWithId(was.fetched, id, i)
      {
        i := i + 1;
      }
      if i < fetchedLen {
        var p := fetched[i];
        Append(p, cost);
        if Below(cost, bestCost) && best.id != p.id {
          bestCost := cost;
          best := Copied(p);
        }
        fetchedLen := fetchedLen - 1;
        if i < fetchedLen {
          fetched[i] := Copied(fetched[fetchedLen]);
        }
        assert fetched[..fetchedLen] == Removed(was.fetched, i);
      } else {
        Append(best, cost);
      }
    }

    /** REPORT acknowledged by the session. */
    method LogAcknowledgement()
      requires Valid()
      modifies this`reported
      ensures Valid() && View() == Acknowledge(old(View()))
    {
      reported := reported + 1;
    }
  }
}
