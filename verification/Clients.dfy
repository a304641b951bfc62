/** Any number of clients on one session: what every run of them keeps, and when a
    report is answered as a rogue point. */
module Clients {
  import opened Ring
  import opened Workflow
  import opened Pipeline
  import opened PipelineInvariant
  import opened PipelineRuns
  import opened PipelineGrowth
  import opened Protocol

  /** The clients that have joined, and what they share. */
  datatype Group = Group(clients: map<nat, ClientView>, server: State, used: set<int>, lastBest: int, alive: bool)

  datatype Act =
    | SessionAct(event: Event)
    | ClientAct(who: nat, move: Move)

  /** The session with one of its clients. */
  function With(g: Group, who: nat): System
    requires who in g.clients
  {
    System(g.clients[who], g.server, g.used, g.lastBest, g.alive)
  }

  ghost predicate ActAllowed(g: Group, a: Act)
    requires Inv(g.server)
  {
    match a
    case SessionAct(e) => g.alive && SessionMayDo(g.server, e, g.used)
    case ClientAct(who, m) => who in g.clients && !m.ServerMove? && MoveAllowed(With(g, who), m)
  }

  // ---- The invariant -----------------------------------------------------

  /** A point a client may report: of a trial handed out, or one analyzed that the
      strategy has named as the best. */
  ghost predicate Claim(s: State, id: int, lastBest: int) {
    HandedId(s, id) || (id in AnalyzedIds(s) && id <= lastBest)
  }

  ghost predicate ClientOk(c: ClientView, s: State, lastBest: int) {
    && -1 <= c.best.id <= lastBest && c.phase != Converged
    && (c.phase == Testing ==> Claim(s, c.curr.id, lastBest))
  }

  predicate ApartFrom(c: ClientView, d: ClientView, analyzed: set<int>) {
    c.phase == Testing && d.phase == Testing && c.curr.id == d.curr.id ==> c.curr.id in analyzed
  }

  /** Two clients test the same point only if it has been analyzed. */
  ghost predicate Apart(clients: map<nat, ClientView>, analyzed: set<int>) {
    forall a, b :: a in clients && b in clients && a != b ==> ApartFrom(clients[a], clients[b], analyzed)
  }

  ghost predicate AllOk(g: Group) {
    && (forall who :: who in g.clients ==> ClientOk(g.clients[who], g.server, g.lastBest))
    && Apart(g.clients, AnalyzedIds(g.server))
  }

  ghost predicate GroupInv(g: Group) {
    Inv(g.server) && (g.alive ==> Tracked(g.server, g.used) && AllOk(g))
  }

  /** A client that tests a point names no slot but one handed out. */
  lemma ClaimNames(s: State, used: set<int>, id: int, lastBest: int)
    requires Inv(s) && Tracked(s, used) && Claim(s, id, lastBest)
    ensures NamesHandedOut(s, id)
    ensures HandedId(s, id) ==> FindId(s.trials, id) < |s.trials| && id !in AnalyzedIds(s)
    ensures !HandedId(s, id) ==> FindId(s.trials, id) == |s.trials| && id in AnalyzedIds(s)
  {
    hide Holds, Placed, HistoriesOk, Fifo, AnalysesOk;
    if HandedId(s, id) {
      var i :| 0 <= i < |s.trials| && s.trials[i].point.id == id && s.place[i] == HandedOut;
      assert s.place[i] != Free;
      assert id in LiveIds(s);
    } else {
      forall i | 0 <= i < |s.trials|
        ensures s.trials[i].point.id != id
      {
        assert s.trials[i].point.id == -1 || s.trials[i].point.id in LiveIds(s);
      }
    }
  }

  lemma SenderNames(g: Group, who: nat, complete: bool)
    requires GroupInv(g) && g.alive && who in g.clients && Sends(g.clients[who], complete)
    ensures Tracked(g.server, g.used) && Claim(g.server, g.clients[who].curr.id, g.lastBest)
    ensures NamesHandedOut(g.server, g.clients[who].curr.id)
  {
    hide Inv, Tracked, Claim, NamesHandedOut, Apart;
    assert ClientOk(g.clients[who], g.server, g.lastBest);
    ClaimNames(g.server, g.used, g.clients[who].curr.id, g.lastBest);
  }

  ghost function After(g: Group, a: Act): Group
    requires GroupInv(g) && ActAllowed(g, a)
  {
    match a
    case SessionAct(e) => g.(server := Apply(g.server, e), used := g.used + NewIds(g.server, e))
    case ClientAct(who, m) =>
      if m.ReportMove? && Sends(g.clients[who], m.complete) then
        SenderNames(g, who, m.complete);
        Stored(g, who, Moved(With(g, who), m))
      else Stored(g, who, Moved(With(g, who), m))
  }

  function Stored(g: Group, who: nat, sys: System): Group {
    Group(g.clients[who := sys.client], sys.server, sys.used, sys.lastBest, sys.alive)
  }

  // ---- Every act keeps it ------------------------------------------------

  /** What the other clients rely on. */
  ghost predicate Keeps(s: State, t: State, id: int) {
    HandedId(s, id) ==> HandedId(t, id)
  }

  /** No client tests the point. */
  ghost predicate Unclaimed(clients: map<nat, ClientView>, id: int) {
    forall who :: who in clients && clients[who].phase == Testing ==> clients[who].curr.id != id
  }

  /** The act of one client leaves the others in order. */
  lemma OthersKept(g: Group, h: Group, who: nat, c: ClientView)
    requires AllOk(g) && who in g.clients && h.clients == g.clients[who := c]
    requires g.lastBest <= h.lastBest && AnalyzedIds(g.server) <= AnalyzedIds(h.server)
    requires forall w :: w in g.clients && w != who && g.clients[w].phase == Testing ==>
               Keeps(g.server, h.server, g.clients[w].curr.id)
    requires ClientOk(c, h.server, h.lastBest)
    requires c.phase == Testing ==>
               || (g.clients[who].phase == Testing && g.clients[who].curr.id == c.curr.id)
               || c.curr.id in AnalyzedIds(h.server) || Unclaimed(g.clients, c.curr.id)
    ensures AllOk(h)
  {
    hide HandedId, AnalyzedIds;
    forall w | w in h.clients
      ensures ClientOk(h.clients[w], h.server, h.lastBest)
    {
      if w != who {
        assert ClientOk(g.clients[w], g.server, g.lastBest);
      }
    }
    forall a, b | a in h.clients && b in h.clients && a != b
      ensures ApartFrom(h.clients[a], h.clients[b], AnalyzedIds(h.server))
    {
      assert ApartFrom(g.clients[a], g.clients[b], AnalyzedIds(g.server));
    }
  }

  /** A step of the session itself: ids handed out stay so, analyses stay on record. */
  lemma SessionStep(s: State, e: Event, used: set<int>, id: int)
    requires Inv(s) && Tracked(s, used) && SessionMayDo(s, e, used)
    ensures var t := Apply(s, e);
            && Inv(t) && Tracked(t, used + NewIds(s, e)) && s.analyzed <= t.analyzed && t.pausedId == s.pausedId
            && Keeps(s, t, id)
  {
    StepKeeps(s, e);
    TailBelowCap(s);
    FetchReady(s);
    // no analyzed point is legal for this client
    var c := ClientView(Testing, Point(id, []), NO_POINT);
    match e
    case GenerateEvent(reply, tape, analyzeOk) =>
      GenerateMove(s, c, id - 1, used, reply, tape, analyzeOk);
    case CallbackEvent(index, k, answer, tape, analyzeOk) =>
      if ListAt(s, CallbackList(index)) == [] {
        SameIds(s, Apply(s, e));
      } else {
        CallbackMove(s, c, id - 1, used, index, k, answer, tape, analyzeOk);
      }
    case JoinEvent(target) =>
      JoinMove(s, c, id - 1, used, target);
  }

  lemma MoreAnalyzed(s: State, t: State)
    requires s.analyzed <= t.analyzed
    ensures AnalyzedIds(s) <= AnalyzedIds(t)
  {
    forall id | id in AnalyzedIds(s)
      ensures id in AnalyzedIds(t)
    {
      var k :| 0 <= k < |s.analyzed| && s.analyzed[k].trial.point.id == id;
      assert t.analyzed[k] == s.analyzed[k];
    }
  }

  lemma SessionActKeeps(g: Group, e: Event)
    requires GroupInv(g) && ActAllowed(g, SessionAct(e))
    ensures GroupInv(After(g, SessionAct(e)))
    ensures After(g, SessionAct(e)).server.pausedId == g.server.pausedId
  {
    hide Inv, Tracked, SessionMayDo, Allowed, Apply, NewIds, HandedId;
    var h := After(g, SessionAct(e));
    SessionStep(g.server, e, g.used, 0);
    MoreAnalyzed(g.server, h.server);
    forall who | who in h.clients
      ensures ClientOk(h.clients[who], h.server, h.lastBest)
    {
      assert ClientOk(g.clients[who], g.server, g.lastBest);
      SessionStep(g.server, e, g.used, g.clients[who].curr.id);
    }
  }

  // ---- Fetches -------------------------------------------------------------

  predicate SendsBusy(s: State, paused: bool) {
    paused || s.queue == []
  }

  /** A trial is handed out that no client tests. */
  lemma FreshCandidate(g: Group)
    requires GroupInv(g) && g.alive && g.server.queue != []
    ensures g.server.queue[0] < |g.server.trials|
    ensures Unclaimed(g.clients, g.server.trials[g.server.queue[0]].point.id)
  {
    var s := g.server;
    FetchReady(s);
    var idx := s.queue[0];
    var id := s.trials[idx].point.id;
    assert s.place[idx] == Ready && id in LiveIds(s) && id !in AnalyzedIds(s);
    assert !HandedId(s, id);
    hide Inv, Tracked, HandedId, AnalyzedIds, LiveIds;
    forall who | who in g.clients && g.clients[who].phase == Testing
      ensures g.clients[who].curr.id != id
    {
      assert ClientOk(g.clients[who], s, g.lastBest);
    }
  }

  lemma FetchActKeeps(g: Group, who: nat, paused: bool, best: Point, valuesOk: bool)
    requires GroupInv(g) && ActAllowed(g, ClientAct(who, FetchMove(paused, best, valuesOk)))
    ensures GroupInv(After(g, ClientAct(who, FetchMove(paused, best, valuesOk))))
  {
    hide Inv, Tracked, HandedId, AnalyzedIds, LiveIds, Apart, Unclaimed;
    var h := After(g, ClientAct(who, FetchMove(paused, best, valuesOk)));
    if SendsBusy(g.server, paused) {
      BusyAct(g, who, paused, best, valuesOk, h);
    } else {
      CandidateAct(g, who, best, valuesOk, h);
    }
  }

  lemma BusyAct(g: Group, who: nat, paused: bool, best: Point, valuesOk: bool, h: Group)
    requires GroupInv(g) && ActAllowed(g, ClientAct(who, FetchMove(paused, best, valuesOk)))
    requires SendsBusy(g.server, paused) && h == After(g, ClientAct(who, FetchMove(paused, best, valuesOk)))
    ensures GroupInv(h) && h.alive && h.server.pausedId == best.id
    ensures forall w :: w in g.clients ==> Keeps(g.server, h.server, g.clients[w].curr.id)
    ensures h.clients[who].phase == Testing ==>
              h.clients[who].curr.id == best.id || HandedId(h.server, h.clients[who].curr.id)
  {
    var s := g.server;
    FetchReady(s);
    BusyMove(s, paused, best, 0);
    hide Inv, Tracked, HandedId, AnalyzedIds, LiveIds, Apart;
    SameTracked(s, h.server, g.used);
    forall w | w in g.clients
      ensures Keeps(s, h.server, g.clients[w].curr.id)
    {
      BusyMove(s, paused, best, g.clients[w].curr.id);
    }
    assert ClientOk(g.clients[who], s, g.lastBest);
    BusyClient(g.clients[who], s, h.server, g.lastBest, best, valuesOk, g.used);
    OthersKept(g, h, who, AfterFetch(g.clients[who], Busy(best), valuesOk).0);
  }

  lemma BusyClient(c: ClientView, s: State, t: State, lastBest: int, best: Point, valuesOk: bool, used: set<int>)
    requires ClientOk(c, s, lastBest) && Tracked(s, used) && AnalyzedIds(t) == AnalyzedIds(s) && Keeps(s, t, c.curr.id)
    requires (best.id == -1 || best.id in AnalyzedIds(s)) && best.id >= lastBest
    ensures var d := AfterFetch(c, Busy(best), valuesOk).0;
            && ClientOk(d, t, best.id)
            && (d.phase == Testing ==>
                  || (c.phase == Testing && c.curr.id == d.curr.id && HandedId(t, d.curr.id))
                  || (d.curr.id == best.id && d.curr.id in AnalyzedIds(t)))
  {
    assert forall id :: id in AnalyzedIds(s) ==> id >= 0;
    hide HandedId, AnalyzedIds, LiveIds;
  }

  lemma CandidateAct(g: Group, who: nat, best: Point, valuesOk: bool, h: Group)
    requires GroupInv(g) && ActAllowed(g, ClientAct(who, FetchMove(false, best, valuesOk)))
    requires g.server.queue != [] && h == After(g, ClientAct(who, FetchMove(false, best, valuesOk)))
    ensures GroupInv(h) && h.alive && h.server.pausedId == g.server.pausedId
    ensures forall w :: w in g.clients ==> Keeps(g.server, h.server, g.clients[w].curr.id)
    ensures HandedId(h.server, h.clients[who].curr.id)
  {
    var s := g.server;
    FetchReady(s);
    FreshCandidate(g);
    HandOutMove(s, best, 0);
    hide Inv, Tracked, HandedId, AnalyzedIds, LiveIds, Apart, Unclaimed;
    SameTracked(s, h.server, g.used);
    forall w | w in g.clients
      ensures Keeps(s, h.server, g.clients[w].curr.id)
    {
      HandOutMove(s, best, g.clients[w].curr.id);
    }
    assert ClientOk(g.clients[who], s, g.lastBest);
    OthersKept(g, h, who, AfterFetch(g.clients[who], Candidate(s.trials[s.queue[0]].point), valuesOk).0);
  }

  // ---- Reports -------------------------------------------------------------

  /** A report that names a pending trial. */
  predicate NamesPending(g: Group, who: nat, complete: bool) {
    && who in g.clients && Sends(g.clients[who], complete)
    && FindId(g.server.trials, g.clients[who].curr.id) < |g.server.trials|
  }

  lemma PendingAct(g: Group, who: nat, perf: Perf, tape: seq<LayerReply>, analyzeOk: bool, h: Group)
    requires GroupInv(g) && ActAllowed(g, ClientAct(who, ReportMove(perf, true, tape, analyzeOk)))
    requires NamesPending(g, who, true) && h == After(g, ClientAct(who, ReportMove(perf, true, tape, analyzeOk)))
    ensures GroupInv(h) && h.server.pausedId == 0
    ensures h.alive ==> h.clients[who].phase == Joined
    ensures h.alive ==> forall w :: w in g.clients && w != who && g.clients[w].phase == Testing ==>
                          Keeps(g.server, h.server, g.clients[w].curr.id)
  {
    var s, id := g.server, g.clients[who].curr.id;
    hide Inv, Tracked, HandedId, AnalyzedIds, LiveIds, Apart, TapeFresh, NamesHandedOut, FindId, TapeIds, Report;
    SenderNames(g, who, true);
    ReportTracks(s, id, perf, tape, analyzeOk, g.used);
    MoreUsed(h.server, g.used + (TapeIds(tape) - {id}), h.used);
    MoreAnalyzed(s, h.server);
    ClaimNames(s, g.used, id, g.lastBest);
    if h.alive {
      forall w | w in g.clients && w != who && g.clients[w].phase == Testing
        ensures Keeps(s, h.server, g.clients[w].curr.id)
      {
        assert ApartFrom(g.clients[w], g.clients[who], AnalyzedIds(s)) by { assert Apart(g.clients, AnalyzedIds(s)); }
        OthersHanded(s, h.server, FindId(s.trials, id), g.clients[w].curr.id);
      }
      assert ClientOk(g.clients[who], s, g.lastBest);
      OthersKept(g, h, who, h.clients[who]);
    }
  }

  lemma OthersHanded(s: State, t: State, idx: nat, id: int)
    requires |s.trials| == |s.place| == |t.trials| == |t.place|
    requires forall i :: 0 <= i < |s.trials| && i != idx ==> t.trials[i] == s.trials[i] && t.place[i] == s.place[i]
    requires idx < |s.trials| ==> s.trials[idx].point.id != id
    ensures Keeps(s, t, id)
  {
    if HandedId(s, id) {
      var i :| 0 <= i < |s.trials| && s.trials[i].point.id == id && s.place[i] == HandedOut;
      assert t.place[i] == HandedOut && t.trials[i] == s.trials[i];
    }
  }

  lemma ReportActKeeps(g: Group, who: nat, perf: Perf, complete: bool, tape: seq<LayerReply>, analyzeOk: bool)
    requires GroupInv(g) && ActAllowed(g, ClientAct(who, ReportMove(perf, complete, tape, analyzeOk)))
    ensures GroupInv(After(g, ClientAct(who, ReportMove(perf, complete, tape, analyzeOk))))
  {
    hide Inv, Tracked, HandedId, AnalyzedIds, LiveIds, Apart, TapeFresh, NamesHandedOut, FindId, TapeIds;
    var h := After(g, ClientAct(who, ReportMove(perf, complete, tape, analyzeOk)));
    if NamesPending(g, who, complete) {
      PendingAct(g, who, perf, tape, analyzeOk, h);
    } else if Sends(g.clients[who], complete) {
      MoreUsed(g.server, g.used, h.used);
      assert ClientOk(g.clients[who], g.server, g.lastBest);
      OthersKept(g, h, who, h.clients[who]);
    } else {
      assert g.clients[who := g.clients[who]] == g.clients;
    }
  }

  lemma BestActKeeps(g: Group, who: nat, best: Point)
    requires GroupInv(g) && ActAllowed(g, ClientAct(who, BestMove(best)))
    ensures GroupInv(After(g, ClientAct(who, BestMove(best))))
  {
    hide Inv, Tracked, HandedId, AnalyzedIds, LiveIds, Apart;
    var h := After(g, ClientAct(who, BestMove(best)));
    assert ClientOk(g.clients[who], g.server, g.lastBest);
    OthersKept(g, h, who, h.clients[who]);
  }

  /** Every act keeps the invariant. */
  lemma ActKeeps(g: Group, a: Act)
    requires GroupInv(g) && ActAllowed(g, a)
    ensures GroupInv(After(g, a))
  {
    hide GroupInv, After;
    match a
    case SessionAct(e) => SessionActKeeps(g, e);
    case ClientAct(who, m) =>
      match m
      case FetchMove(paused, best, valuesOk) => FetchActKeeps(g, who, paused, best, valuesOk);
      case ReportMove(perf, complete, tape, analyzeOk) => ReportActKeeps(g, who, perf, complete, tape, analyzeOk);
      case BestMove(best) => BestActKeeps(g, who, best);
  }

  // ---- Runs ----------------------------------------------------------------

  /** Clients that have joined a new session. */
  function Gathering(hooks: seq<Hooks>, count: nat, ids: set<nat>): Group {
    Group(map who | who in ids :: ClientView(Joined, NO_POINT, NO_POINT), Initial(hooks, count), {}, -1, true)
  }

  ghost predicate ActTo(g: Group, a: Act, h: Group) {
    GroupInv(g) ==> ActAllowed(g, a) && h == After(g, a)
  }

  ghost predicate IsGroupRun(groups: seq<Group>, acts: seq<Act>) {
    && |groups| == |acts| + 1
    && (exists hooks, count, ids :: groups[0] == Gathering(hooks, count, ids))
    && forall n :: 0 <= n < |acts| ==> ActTo(groups[n], acts[n], groups[n + 1])
  }

  lemma GatheringOk(hooks: seq<Hooks>, count: nat, ids: set<nat>)
    ensures GroupInv(Gathering(hooks, count, ids))
  {
    InitialInv(hooks, count);
    var s := Initial(hooks, count);
    assert LiveIds(s) == {} && AnalyzedIds(s) == {};
    hide Inv;
  }

  /** The invariant holds over every run of any number of clients. */
  lemma {:induction false} GroupRunSafe(groups: seq<Group>, acts: seq<Act>, n: nat)
    requires IsGroupRun(groups, acts) && n < |groups|
    ensures GroupInv(groups[n])
  {
    hide GroupInv, ActAllowed, After, Gathering;
    if n == 0 {
      var hooks, count, ids :| groups[0] == Gathering(hooks, count, ids);
      GatheringOk(hooks, count, ids);
    } else {
      GroupRunSafe(groups, acts, n - 1);
      assert ActTo(groups[n - 1], acts[n - 1], groups[n]);
      ActKeeps(groups[n - 1], acts[n - 1]);
    }
  }

  // ---- Rogue reports -------------------------------------------------------

  /** The acts that write the paused id, and what they write. */
  predicate Writes(g: Group, a: Act) {
    a.ClientAct? &&
    match a.move
    case FetchMove(paused, _, _) => SendsBusy(g.server, paused)
    case ReportMove(_, complete, _, _) => NamesPending(g, a.who, complete)
    case _ => false
  }

  function Written(a: Act): int {
    if a.ClientAct? && a.move.FetchMove? then a.move.best.id else 0
  }

  lemma PausedAfter(g: Group, a: Act)
    requires GroupInv(g) && ActAllowed(g, a)
    ensures After(g, a).server.pausedId == if Writes(g, a) then Written(a) else g.server.pausedId
  {
    hide Inv, Tracked, HandedId, AnalyzedIds, LiveIds, Apart, TapeFresh, NamesHandedOut, FindId, TapeIds, AllOk;
    match a
    case SessionAct(e) => SessionActKeeps(g, e);
    case ClientAct(who, m) =>
      match m
      case FetchMove(paused, best, valuesOk) =>
        if SendsBusy(g.server, paused) {
          BusyAct(g, who, paused, best, valuesOk, After(g, a));
        } else {
          CandidateAct(g, who, best, valuesOk, After(g, a));
        }
      case ReportMove(perf, complete, tape, analyzeOk) =>
        if NamesPending(g, who, complete) {
          PendingAct(g, who, perf, tape, analyzeOk, After(g, a));
        }
      case BestMove(_) =>
  }

  predicate IsFetch(a: Act, who: nat) {
    a.ClientAct? && a.who == who && a.move.FetchMove?
  }

  /** Act k is the client's last fetch before act n. */
  predicate LastFetch(acts: seq<Act>, k: nat, n: nat, who: nat) {
    k < n <= |acts| && IsFetch(acts[k], who) && forall m :: k < m < n ==> !IsFetch(acts[m], who)
  }

  /** Act k is a fetch that was answered with the best point, of the given id. */
  predicate SentBest(groups: seq<Group>, acts: seq<Act>, k: nat, id: int)
    requires k < |acts| && k < |groups|
  {
    && acts[k].ClientAct? && acts[k].move.FetchMove?
    && SendsBusy(groups[k].server, acts[k].move.paused) && acts[k].move.best.id == id
  }

  /** The last write of the paused id between act k and act n wrote another id. */
  ghost predicate Overtaken(groups: seq<Group>, acts: seq<Act>, k: nat, n: nat, id: int)
    requires n <= |acts| && n <= |groups|
  {
    exists m :: k < m < n && Writes(groups[m], acts[m]) && Written(acts[m]) != id
      && forall j :: m < j < n ==> !Writes(groups[j], acts[j])
  }

  /** The paused id is the one sent with act k unless it has been overtaken. */
  lemma {:induction false} PausedSince(groups: seq<Group>, acts: seq<Act>, k: nat, n: nat, id: int)
    requires IsGroupRun(groups, acts) && k < n <= |acts| && SentBest(groups, acts, k, id)
    ensures groups[n].server.pausedId == id <==> !Overtaken(groups, acts, k, n, id)
  {
    hide GroupInv, ActAllowed, After, Writes;
    GroupRunSafe(groups, acts, n - 1);
    var g, a := groups[n - 1], acts[n - 1];
    assert ActTo(g, a, groups[n]);
    PausedAfter(g, a);
    if k == n - 1 {
      assert Writes(g, a) by { SentWrites(groups, acts, k, id); }
    } else {
      PausedSince(groups, acts, k, n - 1, id);
      OvertakenStep(groups, acts, k, n - 1, id);
    }
  }

  lemma SentWrites(groups: seq<Group>, acts: seq<Act>, k: nat, id: int)
    requires k < |acts| && k < |groups| && SentBest(groups, acts, k, id)
    ensures Writes(groups[k], acts[k]) && Written(acts[k]) == id
  {}

  lemma OvertakenStep(groups: seq<Group>, acts: seq<Act>, k: nat, n: nat, id: int)
    requires k < n < |acts| && n < |groups|
    ensures Overtaken(groups, acts, k, n + 1, id) <==>
            if Writes(groups[n], acts[n]) then Written(acts[n]) != id else Overtaken(groups, acts, k, n, id)
  {
    hide Writes, Written;
    if Overtaken(groups, acts, k, n + 1, id) {
      var m :| k < m < n + 1 && Writes(groups[m], acts[m]) && Written(acts[m]) != id
        && forall j :: m < j < n + 1 ==> !Writes(groups[j], acts[j]);
      if m < n {
        assert !Writes(groups[n], acts[n]);
        assert Overtaken(groups, acts, k, n, id);
      }
    }
    if !Writes(groups[n], acts[n]) && Overtaken(groups, acts, k, n, id) {
      var m :| k < m < n && Writes(groups[m], acts[m]) && Written(acts[m]) != id
        && forall j :: m < j < n ==> !Writes(groups[j], acts[j]);
      assert forall j :: m < j < n + 1 ==> !Writes(groups[j], acts[j]);
      assert Overtaken(groups, acts, k, n + 1, id);
    }
    if Writes(groups[n], acts[n]) && Written(acts[n]) != id {
      assert Overtaken(groups, acts, k, n + 1, id);
    }
  }

  /** Between its fetches a client that goes on testing tests the same point, and a
      trial handed out to it stays so. */
  lemma Steady(g: Group, a: Act, who: nat)
    requires GroupInv(g) && ActAllowed(g, a) && After(g, a).alive && who in g.clients && !IsFetch(a, who)
    ensures var h := After(g, a);
            && who in h.clients
            && (h.clients[who].phase == Testing ==>
                  && g.clients[who].phase == Testing && h.clients[who].curr == g.clients[who].curr
                  && Keeps(g.server, h.server, g.clients[who].curr.id))
  {
    hide Inv, Tracked, HandedId, AnalyzedIds, LiveIds, Apart, TapeFresh, NamesHandedOut, FindId, TapeIds, AllOk, Apply;
    var id, h := g.clients[who].curr.id, After(g, a);
    match a
    case SessionAct(e) => SessionStep(g.server, e, g.used, id);
    case ClientAct(w, m) =>
      match m
      case FetchMove(paused, best, valuesOk) =>
        if SendsBusy(g.server, paused) {
          BusyAct(g, w, paused, best, valuesOk, h);
        } else {
          CandidateAct(g, w, best, valuesOk, h);
        }
      case ReportMove(perf, complete, tape, analyzeOk) =>
        if NamesPending(g, w, complete) {
          PendingAct(g, w, perf, tape, analyzeOk, h);
        }
      case BestMove(_) =>
  }

  /** A point under test that is not of a trial handed out was sent with the client's
      last fetch, as the best point. */
  lemma {:induction false} SentLast(groups: seq<Group>, acts: seq<Act>, n: nat, who: nat) returns (k: nat)
    requires IsGroupRun(groups, acts) && n < |groups| && groups[n].alive
    requires who in groups[n].clients && groups[n].clients[who].phase == Testing
    requires !HandedId(groups[n].server, groups[n].clients[who].curr.id)
    ensures LastFetch(acts, k, n, who) && SentBest(groups, acts, k, groups[n].clients[who].curr.id)
  {
    hide GroupInv, ActAllowed, After, HandedId;
    AllIdle(groups, acts);
    GroupRunSafe(groups, acts, n - 1);
    var g, a := groups[n - 1], acts[n - 1];
    assert ActTo(g, a, groups[n]);
    SameClients(g, a);
    if IsFetch(a, who) {
      FetchedBest(g, a, who);
      k := n - 1;
    } else {
      Steady(g, a, who);
      k := SentLast(groups, acts, n - 1, who);
    }
  }

  /** In the beginning nobody tests. */
  lemma AllIdle(groups: seq<Group>, acts: seq<Act>)
    requires IsGroupRun(groups, acts)
    ensures forall who :: who in groups[0].clients ==> groups[0].clients[who].phase != Testing
  {
    var hooks, count, ids :| groups[0] == Gathering(hooks, count, ids);
  }

  lemma SameClients(g: Group, a: Act)
    requires GroupInv(g) && ActAllowed(g, a)
    ensures After(g, a).clients.Keys == g.clients.Keys && g.alive
  {
    hide Inv, Tracked, AllOk;
  }

  /** A fetch leaves the client with a trial handed out, or with the best point. */
  lemma FetchedBest(g: Group, a: Act, who: nat)
    requires GroupInv(g) && ActAllowed(g, a) && IsFetch(a, who)
    ensures var h := After(g, a);
            && who in h.clients
            && (h.clients[who].phase == Testing && !HandedId(h.server, h.clients[who].curr.id) ==>
                  SendsBusy(g.server, a.move.paused) && h.clients[who].curr.id == a.move.best.id)
  {
    hide Inv, Tracked, HandedId, AllOk, AnalyzedIds;
    var m := a.move;
    if SendsBusy(g.server, m.paused) {
      BusyAct(g, who, m.paused, m.best, m.valuesOk, After(g, a));
    } else {
      CandidateAct(g, who, m.best, m.valuesOk, After(g, a));
    }
  }

  /** Over every run of any number of clients: a report that is sent names a trial
      handed out, and is then not answered as a rogue point, or it names an analyzed
      point that the client was sent with its last fetch as the best, and is then
      answered as a rogue point exactly if that point has been overtaken since: the
      last fetch or report that wrote the paused id, if there was one, was a fetch
      that named another best point or a report of a pending trial. */
  lemma RogueIff(groups: seq<Group>, acts: seq<Act>, n: nat)
    requires IsGroupRun(groups, acts) && n < |acts| && acts[n].ClientAct? && acts[n].move.ReportMove?
    requires acts[n].who in groups[n].clients && Sends(groups[n].clients[acts[n].who], acts[n].move.complete)
    ensures GroupInv(groups[n]) && ActAllowed(groups[n], acts[n])
    ensures var s, id, m := groups[n].server, groups[n].clients[acts[n].who].curr.id, acts[n].move;
            && NamesHandedOut(s, id)
            && var reply := Report(s, id, m.perf, m.tape, m.analyzeOk).1;
            || (HandedId(s, id) && reply != Rogue)
            || (&& id in AnalyzedIds(s)
                && exists k ::
                     && LastFetch(acts, k, n, acts[n].who) && SentBest(groups, acts, k, id)
                     && (reply == Rogue <==> Overtaken(groups, acts, k, n, id)))
  {
    GroupRunSafe(groups, acts, n);
    var g, who := groups[n], acts[n].who;
    assert ActTo(g, acts[n], groups[n + 1]);
    hide Inv, Tracked, HandedId, AnalyzedIds, LiveIds, Apart, TapeFresh, NamesHandedOut, FindId, TapeIds, After,
         Overtaken, LastFetch, SentBest;
    var id := g.clients[who].curr.id;
    assert g.alive && ClientOk(g.clients[who], g.server, g.lastBest);
    SenderNames(g, who, acts[n].move.complete);
    ClaimNames(g.server, g.used, id, g.lastBest);
    if !HandedId(g.server, id) {
      var k := SentLast(groups, acts, n, who);
      LastBounds(acts, k, n, who);
      PausedSince(groups, acts, k, n, id);
    }
  }

  lemma LastBounds(acts: seq<Act>, k: nat, n: nat, who: nat)
    requires LastFetch(acts, k, n, who)
    ensures k < n <= |acts|
  {}

  /** Act m is a BUSY reply. */
  predicate BusyAt(groups: seq<Group>, acts: seq<Act>, m: nat)
    requires m < |acts| && m < |groups|
  {
    Writes(groups[m], acts[m]) && acts[m].move.FetchMove?
  }

  /** Act m is a report of a pending trial. */
  predicate PendingAt(groups: seq<Group>, acts: seq<Act>, m: nat)
    requires m < |acts| && m < |groups|
  {
    Writes(groups[m], acts[m]) && acts[m].move.ReportMove?
  }

  /** Since act k some BUSY reply has named another best point. */
  ghost predicate Displaced(groups: seq<Group>, acts: seq<Act>, k: nat, n: nat, id: int)
    requires n <= |acts| && n <= |groups|
  {
    exists m :: k < m < n && BusyAt(groups, acts, m) && Written(acts[m]) != id
  }

  /** Since act k a pending trial has been reported, and no BUSY reply sent after that. */
  ghost predicate Zeroed(groups: seq<Group>, acts: seq<Act>, k: nat, n: nat)
    requires n <= |acts| && n <= |groups|
  {
    exists m :: k < m < n && PendingAt(groups, acts, m) && forall j :: m < j < n ==> !BusyAt(groups, acts, j)
  }

  /** Best ids never fall, and a BUSY reply names the latest. */
  lemma BestRises(g: Group, a: Act)
    requires GroupInv(g) && ActAllowed(g, a)
    ensures g.lastBest <= After(g, a).lastBest
    ensures Writes(g, a) && a.move.FetchMove? ==> After(g, a).lastBest == Written(a)
  {
    FetchReady(g.server);
    hide Inv, Tracked, AllOk, Apply;
  }

  /** What it means to be overtaken, for a point whose id is not 0: another best point
      has been named since, or a pending trial has been reported and the point not
      been sent again after that. */
  lemma {:induction false} OvertakenMeans(groups: seq<Group>, acts: seq<Act>, k: nat, n: nat, id: int)
    requires IsGroupRun(groups, acts) && k < n <= |acts| && SentBest(groups, acts, k, id) && id != 0
    ensures Overtaken(groups, acts, k, n, id) <==> Displaced(groups, acts, k, n, id) || Zeroed(groups, acts, k, n)
    ensures id <= groups[n].lastBest && (Displaced(groups, acts, k, n, id) ==> id < groups[n].lastBest)
  {
    hide GroupInv, ActAllowed, After, Writes, SentBest, Overtaken, Displaced, Zeroed;
    GroupRunSafe(groups, acts, n - 1);
    var g, a := groups[n - 1], acts[n - 1];
    assert ActTo(g, a, groups[n]);
    BestRises(g, a);
    if k == n - 1 {
      SentWrites(groups, acts, k, id);
      NothingSince(groups, acts, k, id);
    } else {
      OvertakenMeans(groups, acts, k, n - 1, id);
      OvertakenStep(groups, acts, k, n - 1, id);
      DisplacedStep(groups, acts, k, n - 1, id);
      ZeroedStep(groups, acts, k, n - 1);
      OneKind(g, a);
    }
  }

  lemma OneKind(g: Group, a: Act)
    ensures Writes(g, a) ==> a.ClientAct? && (a.move.FetchMove? || (a.move.ReportMove? && Written(a) == 0))
  {}

  lemma NothingSince(groups: seq<Group>, acts: seq<Act>, k: nat, id: int)
    requires k < |acts| && k < |groups|
    ensures !Overtaken(groups, acts, k, k + 1, id) && !Displaced(groups, acts, k, k + 1, id)
    ensures !Zeroed(groups, acts, k, k + 1)
  {}

  lemma DisplacedStep(groups: seq<Group>, acts: seq<Act>, k: nat, n: nat, id: int)
    requires k < n < |acts| && n < |groups|
    ensures Displaced(groups, acts, k, n + 1, id) <==>
            Displaced(groups, acts, k, n, id) || (BusyAt(groups, acts, n) && Written(acts[n]) != id)
  {
    hide BusyAt, Written;
    if Displaced(groups, acts, k, n, id) {
      var m :| k < m < n && BusyAt(groups, acts, m) && Written(acts[m]) != id;
      assert k < m < n + 1;
    }
  }

  lemma ZeroedStep(groups: seq<Group>, acts: seq<Act>, k: nat, n: nat)
    requires k < n < |acts| && n < |groups|
    ensures Zeroed(groups, acts, k, n + 1) <==>
            PendingAt(groups, acts, n) || (Zeroed(groups, acts, k, n) && !BusyAt(groups, acts, n))
  {
    hide BusyAt, PendingAt;
    if Zeroed(groups, acts, k, n) && !BusyAt(groups, acts, n) {
      var m :| k < m < n && PendingAt(groups, acts, m) && forall j :: m < j < n ==> !BusyAt(groups, acts, j);
      assert forall j :: m < j < n + 1 ==> !BusyAt(groups, acts, j);
    }
  }

  // ---- A run with a rogue report -------------------------------------------

  lemma ExtendGroupRun(groups: seq<Group>, acts: seq<Act>, a: Act)
    requires IsGroupRun(groups, acts) && GroupInv(groups[|acts|]) && ActAllowed(groups[|acts|], a)
    ensures IsGroupRun(groups + [After(groups[|acts|], a)], acts + [a])
  {
    hide GroupInv, ActAllowed, After, Gathering;
    var more, es := groups + [After(groups[|acts|], a)], acts + [a];
    assert more[0] == groups[0];
    forall n | 0 <= n < |es|
      ensures ActTo(more[n], es[n], more[n + 1])
    {
      if n < |acts| {
        assert ActTo(groups[n], acts[n], groups[n + 1]);
      }
    }
  }

  /** The ids given out are among 1 to `top`. */
  ghost predicate Reached(g: Group, top: nat) {
    GroupInv(g) && g.alive && forall id :: id in g.used ==> 0 < id <= top
  }

  /** The session generates the next point. */
  lemma GenerateAct(g: Group, hooks: seq<Hooks>, cap: nat, head: nat, len: nat, top: nat) returns (h: Group)
    requires Reached(g, top) && Position(g.server, hooks, cap, head, len, top) && len < cap
    ensures ActAllowed(g, SessionAct(GenerateNext(top))) && h == After(g, SessionAct(GenerateNext(top)))
    ensures Reached(h, top + 1) && Position(h.server, hooks, cap, head, len + 1, top + 1)
    ensures h.clients == g.clients && h.lastBest == g.lastBest && AnalyzedIds(g.server) <= AnalyzedIds(h.server)
  {
    hide Inv, Tracked, AllOk, Position, Apply, Allowed;
    GenerateStep(g.server, hooks, cap, head, len, top);
    assert Inv(g.server) && TapeIds([]) == {};
    ActKeeps(g, SessionAct(GenerateNext(top)));
    SessionStep(g.server, GenerateNext(top), g.used, 0);
    h := After(g, SessionAct(GenerateNext(top)));
    MoreAnalyzed(g.server, h.server);
  }

  /** The client tests the only trial that is live. */
  ghost predicate Alone(g: Group, hooks: seq<Hooks>, cap: nat, head: nat, top: nat, who: nat, id: int) {
    var s := g.server;
    && Reached(g, top) && who in g.clients && g.clients[who].phase == Testing && g.clients[who].curr.id == id
    && s.hooks == hooks && |s.trials| == cap && s.open && s.head == head && s.queue == [] && s.pendingLen == 1
    && (forall i :: 0 <= i < |s.trials| ==> s.trials[i].point.id <= top)
    && NamesHandedOut(s, id) && FindId(s.trials, id) < |s.trials|
  }

  const TAKE: Move := FetchMove(false, NO_POINT, true)
  const RETURN: Move := ReportMove(Unmeasured, true, [], true)

  /** A client fetches the only trial there is. */
  lemma TakeAct(g: Group, hooks: seq<Hooks>, cap: nat, head: nat, top: nat, who: nat) returns (h: Group)
    requires Reached(g, top) && Position(g.server, hooks, cap, head, 1, top) && head + 1 < cap
    requires who in g.clients && g.clients[who].phase == Joined && g.lastBest == -1
    ensures ActAllowed(g, ClientAct(who, TAKE)) && h == After(g, ClientAct(who, TAKE))
    ensures who in h.clients && Alone(h, hooks, cap, head + 1, top, who, h.clients[who].curr.id)
    ensures h.clients == g.clients[who := h.clients[who]] && h.lastBest == -1
    ensures AnalyzedIds(h.server) == AnalyzedIds(g.server)
  {
    hide Inv, Tracked, AllOk, Position, NamesHandedOut, FindId, AnalyzedIds;
    FetchHead(g.server, hooks, cap, head, 1, top);
    OneWaits(g.server, hooks, cap, head, top);
    TakeAllowed(g, who);
    ActKeeps(g, ClientAct(who, TAKE));
    h := After(g, ClientAct(who, TAKE));
    SameIds(g.server, h.server);
  }

  lemma OneWaits(s: State, hooks: seq<Hooks>, cap: nat, head: nat, top: nat)
    requires Position(s, hooks, cap, head, 1, top)
    ensures |s.queue| == 1 == s.pendingLen && s.open && |s.trials| == cap
    ensures s.head < |s.ready| && s.ready[s.head] == s.queue[0] < |s.trials|
    ensures forall i :: 0 <= i < |s.trials| ==> s.trials[i].point.id <= top
  {
    FetchReady(s);
  }

  lemma TakeAllowed(g: Group, who: nat)
    requires Inv(g.server) && g.alive && who in g.clients && g.clients[who].phase == Joined && g.lastBest == -1
    ensures ActAllowed(g, ClientAct(who, TAKE))
  {}

  /** The client reports it, and every layer accepts the report. */
  lemma ReturnAct(g: Group, hooks: seq<Hooks>, cap: nat, head: nat, top: nat, who: nat, id: int) returns (h: Group)
    requires Alone(g, hooks, cap, head, top, who, id)
    ensures ActAllowed(g, ClientAct(who, RETURN)) && h == After(g, ClientAct(who, RETURN))
    ensures Reached(h, top) && Position(h.server, hooks, cap, head, 0, top)
    ensures h.clients == g.clients[who := g.clients[who].(phase := Joined)] && h.lastBest == g.lastBest
    ensures h.server.pausedId == 0 && id in AnalyzedIds(h.server) && AnalyzedIds(g.server) <= AnalyzedIds(h.server)
  {
    var s := g.server;
    hide Inv, Tracked, AllOk, NamesHandedOut, FindId, Report;
    ReportFrees(s, FindId(s.trials, id), id);
    assert TapeIds([]) == {} && g.used + {} == g.used;
    ActKeeps(g, ClientAct(who, RETURN));
    h := After(g, ClientAct(who, RETURN));
    MoreAnalyzed(s, h.server);
    assert h.server.analyzed[|s.analyzed|].trial.point.id == id;
  }

  /** Meanwhile another client is sent the best point. */
  lemma DistractAct(g: Group, hooks: seq<Hooks>, cap: nat, head: nat, top: nat, who: nat, id: int, w: nat, best: Point)
    returns (h: Group)
    requires Alone(g, hooks, cap, head, top, who, id) && w in g.clients && w != who
    requires g.clients[w].phase == Joined && g.lastBest == -1 && best.id in AnalyzedIds(g.server)
    ensures var a := ClientAct(w, FetchMove(false, best, true)); ActAllowed(g, a) && h == After(g, a)
    ensures Alone(h, hooks, cap, head, top, who, id) && AnalyzedIds(h.server) == AnalyzedIds(g.server)
    ensures w in h.clients && h.clients[w].phase == Testing && h.clients[w].curr.id == best.id
  {
    hide Inv, Tracked, AllOk, NamesHandedOut, FindId, AnalyzedIds, HandedId;
    var s, a := g.server, ClientAct(w, FetchMove(false, best, true));
    BestOfMember(g, w, best.id);
    BusyMove(s, false, best, id);
    ActKeeps(g, a);
    h := After(g, a);
    assert NamesHandedOut(h.server, id) by { SamePlace(s, h.server, id); }
  }

  lemma BestOfMember(g: Group, w: nat, id: int)
    requires GroupInv(g) && g.alive && w in g.clients && id in AnalyzedIds(g.server)
    ensures id >= 0 && -1 <= g.clients[w].best.id <= g.lastBest
    ensures var s := g.server;
            s.head < |s.ready| && s.ready[s.head] < |s.trials| && (s.ready[s.head] >= 0 <==> s.queue != [])
  {
    FetchReady(g.server);
    assert ClientOk(g.clients[w], g.server, g.lastBest);
  }

  lemma SamePlace(s: State, t: State, id: int)
    requires NamesHandedOut(s, id) && t.trials == s.trials && t.place == s.place
    ensures NamesHandedOut(t, id)
  {}

  /** A report that is sent, and answered as a rogue point. */
  ghost predicate AnsweredRogue(g: Group, a: Act) {
    && GroupInv(g) && ActAllowed(g, a) && a.ClientAct? && a.move.ReportMove?
    && Sends(g.clients[a.who], a.move.complete) && NamesHandedOut(g.server, g.clients[a.who].curr.id)
    && var m := a.move;
    Report(g.server, g.clients[a.who].curr.id, m.perf, m.tape, m.analyzeOk).1 == Rogue
  }

  lemma RogueAct(g: Group, top: nat, who: nat)
    requires Reached(g, top) && who in g.clients && g.clients[who].phase == Testing
    requires g.clients[who].curr.id in AnalyzedIds(g.server) && g.server.pausedId == 0
    ensures AnsweredRogue(g, ClientAct(who, RETURN))
  {
    var s, id := g.server, g.clients[who].curr.id;
    assert id in g.used && TapeIds([]) == {};
    SenderNames(g, who, true);
    ClaimNames(s, g.used, id, g.lastBest);
    hide Inv, Tracked, AllOk, NamesHandedOut, FindId, AnalyzedIds, HandedId;
    NothingFresh(s, FindId(s.trials, id));
  }

  lemma NothingFresh(s: State, idx: nat)
    ensures TapeFresh(s, idx, [])
  {}

  /** A run that has come to `g`. */
  ghost predicate Comes(groups: seq<Group>, acts: seq<Act>, start: Group, g: Group) {
    IsGroupRun(groups, acts) && groups[0] == start && groups[|acts|] == g && GroupInv(g)
  }

  lemma Goes(groups: seq<Group>, acts: seq<Act>, start: Group, g: Group, a: Act, h: Group)
    requires Comes(groups, acts, start, g) && ActAllowed(g, a) && h == After(g, a)
    ensures Comes(groups + [h], acts + [a], start, h)
  {
    hide GroupInv, ActAllowed, After, Gathering;
    ExtendGroupRun(groups, acts, a);
    ActKeeps(g, a);
  }

  /** A point is generated, and client 1 fetches it. */
  lemma NextRound(groups: seq<Group>, acts: seq<Act>, start: Group, g: Group, hooks: seq<Hooks>, cap: nat, head: nat,
                  top: nat) returns (gs: seq<Group>, es: seq<Act>, h: Group)
    requires Comes(groups, acts, start, g) && Reached(g, top) && Position(g.server, hooks, cap, head, 0, top)
    requires head + 1 < cap && 1 in g.clients && g.clients[1].phase == Joined && g.lastBest == -1
    ensures Comes(gs, es, start, h) && 1 in h.clients
    ensures Alone(h, hooks, cap, head + 1, top + 1, 1, h.clients[1].curr.id)
    ensures h.clients == g.clients[1 := h.clients[1]] && h.lastBest == -1
    ensures AnalyzedIds(g.server) <= AnalyzedIds(h.server)
  {
    hide GroupInv, ActAllowed, After, Position, AnalyzedIds, Comes, Alone;
    var f := GenerateAct(g, hooks, cap, head, 0, top);
    Goes(groups, acts, start, g, SessionAct(GenerateNext(top)), f);
    h := TakeAct(f, hooks, cap, head, top + 1, 1);
    Goes(groups + [f], acts + [SessionAct(GenerateNext(top))], start, f, ClientAct(1, TAKE), h);
    gs, es := groups + [f] + [h], acts + [SessionAct(GenerateNext(top))] + [ClientAct(1, TAKE)];
  }

  lemma Opens(hooks: seq<Hooks>, count: nat)
    ensures var g := Gathering(hooks, count, {0, 1});
            Comes([g], [], g, g) && Reached(g, 0) && Position(g.server, hooks, GrownCap(count), 0, 0, 0)
  {
    GatheringOk(hooks, count, {0, 1});
    Begins(hooks, count);
    hide Inv, GroupInv, Position, Initial;
  }

  /** Client 1 has its first point analyzed. */
  lemma FirstRound(hooks: seq<Hooks>, count: nat)
    returns (groups: seq<Group>, acts: seq<Act>, g: Group, first: Point)
    ensures Comes(groups, acts, Gathering(hooks, count, {0, 1}), g)
    ensures Reached(g, 1) && Position(g.server, hooks, GrownCap(count), 1, 0, 1)
    ensures g.clients.Keys == {0, 1} && g.clients[0].phase == g.clients[1].phase == Joined && g.lastBest == -1
    ensures first.id in AnalyzedIds(g.server)
  {
    hide GroupInv, ActAllowed, After, Position, Initial, GrownCap, AnalyzedIds, Comes, Alone;
    var cap, g0 := GrownCap(count), Gathering(hooks, count, {0, 1});
    Opens(hooks, count);
    var g1: Group;
    groups, acts, g1 := NextRound([g0], [], g0, g0, hooks, cap, 0, 0);
    first := g1.clients[1].curr;
    g := ReturnAct(g1, hooks, cap, 1, 1, 1, first.id);
    Goes(groups, acts, g0, g1, ClientAct(1, RETURN), g);
    groups, acts := groups + [g], acts + [ClientAct(1, RETURN)];
  }

  /** While it tests the next, client 0 is sent the first; then it reports. */
  lemma SecondRound(groups: seq<Group>, acts: seq<Act>, start: Group, g: Group, first: Point,
                    hooks: seq<Hooks>, cap: nat)
    returns (gs: seq<Group>, es: seq<Act>, h: Group)
    requires Comes(groups, acts, start, g) && Reached(g, 1) && Position(g.server, hooks, cap, 1, 0, 1) && 2 < cap
    requires g.clients.Keys == {0, 1} && g.clients[0].phase == g.clients[1].phase == Joined && g.lastBest == -1
    requires first.id in AnalyzedIds(g.server)
    ensures Comes(gs, es, start, h) && Reached(h, 2) && h.server.pausedId == 0
    ensures 0 in h.clients && h.clients[0].phase == Testing && h.clients[0].curr.id in AnalyzedIds(h.server)
  {
    hide GroupInv, ActAllowed, After, Position, AnalyzedIds, Comes, Alone;
    var g3: Group;
    gs, es, g3 := NextRound(groups, acts, start, g, hooks, cap, 1, 1);
    var id, busy := g3.clients[1].curr.id, ClientAct(0, FetchMove(false, first, true));
    var g4 := DistractAct(g3, hooks, cap, 2, 2, 1, id, 0, first);
    Goes(gs, es, start, g3, busy, g4);
    h := ReturnAct(g4, hooks, cap, 2, 2, 1, id);
    Goes(gs + [g4], es + [busy], start, g4, ClientAct(1, RETURN), h);
    gs, es := gs + [g4] + [h], es + [busy] + [ClientAct(1, RETURN)];
  }

  /** For every layer stack and session size there is a run of two clients that ends
      in a rogue report: client 1 tests and reports the first point; while it tests
      the second, client 0 is sent the first as the best so far; client 1 reports
      again; and client 0's report of the first is refused. */
  lemma RogueOccurs(hooks: seq<Hooks>, count: nat) returns (groups: seq<Group>, acts: seq<Act>, a: Act)
    ensures IsGroupRun(groups, acts) && groups[0] == Gathering(hooks, count, {0, 1})
    ensures AnsweredRogue(groups[|acts|], a)
  {
    hide GroupInv, ActAllowed, After, Position, Initial, AnalyzedIds, AnsweredRogue;
    var g, h, first;
    groups, acts, g, first := FirstRound(hooks, count);
    groups, acts, h := SecondRound(groups, acts, Gathering(hooks, count, {0, 1}), g, first, hooks, GrownCap(count));
    a := ClientAct(0, RETURN);
    RogueAct(h, 2, 0);
  }
}
