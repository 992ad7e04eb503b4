/** Center, agents, network and admin handlers as one step system; every store method is one atomic step. */
module Protocol {
  import opened Wrappers
  import opened NodeTable
  import opened KeyLifecycle
  import opened NodeAgent
  import NodeIni
  import Text

  /** An auto-registration on its way; retries of one boot differ in `rid`, copies of one attempt in `mid`. */
  datatype Request = Request(mid: nat, rid: nat, e: Endpoint, offered: string)

  datatype Response = Response(rid: nat, id: int, key: string, reused: bool)

  datatype Phase = Down | Waiting(oldKey: string, rid: nat) | Received(id: int, key: string) | Serving(key: string)

  /** An agent: its settings, the endpoint that the center resolves them to, its ini file and where it stands. */
  datatype Participant = Participant(cfg: AgentConfig, e: Endpoint, disk: Option<string>, phase: Phase)

  /** `checks` are the snapshots held by health checks and speed tests that have not written back yet. */
  datatype World = World(
    h: History,
    agents: map<nat, Participant>,
    requests: set<Request>,
    responses: set<Response>,
    next: nat,
    checks: map<nat, Node>)

  datatype Event =
    | Boot(a: nat)
    | Retry(a: nat)
    | Lose(req: Request)
    | Duplicate(req: Request)
    | Serve(req: Request, p: RegisterParams, now: int)
    | Receive(a: nat, resp: Response)
    | Persist(a: nat, updatedAt: string)
    | PersistFails(a: nat)
    | Crash(a: nat)
    | Admin(op: Op)
    | BeginCheck(ch: nat, id: int)
    | EndCheck(ch: nat, health: Health)

  function Offer(key: string): Option<string> {
    if key == "" then None else Some(key)
  }

  ghost predicate Enabled(c: Config, w: World, ev: Event) {
    match ev
    case Boot(a) => a in w.agents && w.agents[a].phase.Down? && OldKey(w.agents[a].disk).Success?
    case Retry(a) => a in w.agents && w.agents[a].phase.Waiting?
    case Lose(req) => req in w.requests
    case Duplicate(req) => req in w.requests
    case Serve(req, p, now) =>
      && req in w.requests && p.endpoint == req.e && p.existingNodeKey == Offer(req.offered)
      && Admissible(c, w.h, Registering(p, now))
    case Receive(a, resp) =>
      && a in w.agents && w.agents[a].phase.Waiting? && resp in w.responses && resp.rid == w.agents[a].phase.rid
      && Text.Trim(resp.key) != "" && 0 <= resp.id < INT64_LIMIT
    case Persist(a, updatedAt) => a in w.agents && w.agents[a].phase.Received?
    case PersistFails(a) => a in w.agents && w.agents[a].phase.Received?
    case Crash(a) => a in w.agents
    case Admin(op) => Admissible(c, w.h, op)
    case BeginCheck(ch, id) => ch !in w.checks && id in w.h.table.rows
    case EndCheck(ch, health) => ch in w.checks
  }

  /** The one store method that an event runs, if any. */
  function StoreOp(w: World, ev: Event): Option<Op> {
    match ev
    case Serve(_, p, now) => Some(Registering(p, now))
    case Admin(op) => Some(op)
    case EndCheck(ch, health) => if ch in w.checks then Some(NotingHealth(w.checks[ch].id, health)) else None
    case _ => None
  }

  ghost function NextHistory(c: Config, w: World, ev: Event): History {
    match StoreOp(w, ev)
    case None => w.h
    case Some(op) => Next(c, w.h, op)
  }

  function SetPhase(w: World, a: nat, phase: Phase): World
    requires a in w.agents
  {
    w.(agents := w.agents[a := w.agents[a].(phase := phase)])
  }

  /** A new attempt: the agent waits for this answer only. */
  function Send(w: World, a: nat, key: string): World
    requires a in w.agents
  {
    SetPhase(w, a, Waiting(key, w.next)).(
      requests := w.requests + {Request(w.next, w.next, w.agents[a].e, key)}, next := w.next + 1)
  }

  ghost function Replies(w: World, req: Request, p: RegisterParams, now: int): set<Response> {
    match Register(w.h.table, p, now).result
    case Success(r) => {Response(req.rid, r.node.id, r.nodeKey, r.reused)}
    case Failure(_) => {}
  }

  ghost function Step(c: Config, w: World, ev: Event): World
    requires Enabled(c, w, ev)
  {
    match ev
    case Boot(a) => Send(w, a, OldKey(w.agents[a].disk).value)
    case Retry(a) => Send(w, a, w.agents[a].phase.oldKey)
    case Lose(req) => w.(requests := w.requests - {req})
    case Duplicate(req) => w.(requests := w.requests + {req.(mid := w.next)}, next := w.next + 1)
    case Serve(req, p, now) =>
      w.(h := NextHistory(c, w, ev), requests := w.requests - {req}, responses := w.responses + Replies(w, req, p, now))
    case Receive(a, resp) => SetPhase(w, a, Received(resp.id, Text.Trim(resp.key)))
    case Persist(a, updatedAt) =>
      var g := w.agents[a];
      var text := NodeIni.SaveText(IniFields(g.cfg, g.phase.id, g.phase.key, updatedAt));
      w.(agents := w.agents[a := g.(disk := Some(text), phase := Serving(g.phase.key))])
    case PersistFails(a) => SetPhase(w, a, Serving(w.agents[a].phase.key))
    case Crash(a) => SetPhase(w, a, Down)
    case Admin(op) => w.(h := NextHistory(c, w, ev))
    case BeginCheck(ch, id) => w.(checks := w.checks[ch := w.h.table.rows[id]])
    case EndCheck(ch, health) => w.(h := NextHistory(c, w, ev), checks := w.checks - {ch})
  }

  // ---------------------------------------------------------------- what holds in every reachable state

  /** A snapshot is of a row that existed; if its id is still there, it is still the same registration. */
  ghost predicate SnapshotOk(c: Config, h: History, s: Node) {
    && s.id < h.table.nextId
    && (s.id in h.table.rows ==> SameIdentity(s, h.table.rows[s.id]))
    && exists key :: key in h.issued && Backs(c, key, s)
  }

  ghost predicate Numbered(w: World) {
    && (forall req | req in w.requests :: req.mid < w.next && req.rid < w.next)
    && (forall resp | resp in w.responses :: resp.rid < w.next)
    && (forall a | a in w.agents && w.agents[a].phase.Waiting? :: w.agents[a].phase.rid < w.next)
    && (forall a | a in w.agents && w.agents[a].phase.Received? :: 0 <= w.agents[a].phase.id < INT64_LIMIT)
  }

  /** The copies of the attempt that an agent waits for are for its endpoint and offer its old key. */
  ghost predicate AttemptsMatch(w: World) {
    forall req, a | req in w.requests && a in w.agents && w.agents[a].phase.Waiting? &&
                    req.rid == w.agents[a].phase.rid ::
      req.e == w.agents[a].e && req.offered == w.agents[a].phase.oldKey
  }

  /** A waiting agent offers what its ini file still says. */
  ghost predicate FilesMatch(w: World) {
    forall a | a in w.agents && w.agents[a].phase.Waiting? ::
      OldKey(w.agents[a].disk) == Success(w.agents[a].phase.oldKey)
  }

  ghost predicate WorldInv(c: Config, w: World) {
    && Inv(c, w.h)
    && Numbered(w)
    && AttemptsMatch(w)
    && FilesMatch(w)
    && forall ch | ch in w.checks :: SnapshotOk(c, w.h, w.checks[ch])
  }

  lemma StoreOpAdmissible(c: Config, w: World, ev: Event)
    requires Enabled(c, w, ev)
    ensures StoreOp(w, ev).Some? ==> Admissible(c, w.h, StoreOp(w, ev).value)
    ensures Step(c, w, ev).h == NextHistory(c, w, ev)
  {
  }

  /** Seen from the store, an event is one of its operations or nothing. */
  lemma StepHistory(c: Config, w: World, ev: Event)
    requires CollisionFree(c) && Inv(c, w.h) && Enabled(c, w, ev)
    ensures var g := Step(c, w, ev).h;
            && Inv(c, g) && w.h.issued <= g.issued && w.h.table.nextId <= g.table.nextId
            && (forall id | id in g.table.rows && id < w.h.table.nextId ::
                  id in w.h.table.rows && SameIdentity(w.h.table.rows[id], g.table.rows[id]))
  {
    StoreOpAdmissible(c, w, ev);
    if StoreOp(w, ev).Some? {
      var op := StoreOp(w, ev).value;
      NextKeepsInv(c, w.h, op);
      ApplyWellFormed(w.h.table, op);
      forall id | id in Next(c, w.h, op).table.rows && id < w.h.table.nextId
        ensures id in w.h.table.rows && SameIdentity(w.h.table.rows[id], Next(c, w.h, op).table.rows[id])
      {
        ApplyKeepsIdentity(w.h.table, op, id);
      }
    }
  }

  lemma SnapshotStaysOk(c: Config, h: History, g: History, s: Node)
    requires SnapshotOk(c, h, s) && h.issued <= g.issued && h.table.nextId <= g.table.nextId
    requires forall id | id in g.table.rows && id < h.table.nextId ::
               id in h.table.rows && SameIdentity(h.table.rows[id], g.table.rows[id])
    ensures SnapshotOk(c, g, s)
  {
    var key :| key in h.issued && Backs(c, key, s);
    assert key in g.issued;
  }

  lemma StepNumbered(c: Config, w: World, ev: Event)
    requires Enabled(c, w, ev) && Numbered(w)
    ensures Numbered(Step(c, w, ev)) && w.next <= Step(c, w, ev).next
  {
  }

  lemma StepAttemptsMatch(c: Config, w: World, ev: Event)
    requires Enabled(c, w, ev) && Numbered(w) && AttemptsMatch(w)
    ensures AttemptsMatch(Step(c, w, ev))
  {
  }

  lemma StepFilesMatch(c: Config, w: World, ev: Event)
    requires Enabled(c, w, ev) && FilesMatch(w)
    ensures FilesMatch(Step(c, w, ev))
  {
    hide OldKey;
  }

  lemma StepKeepsInv(c: Config, w: World, ev: Event)
    requires CollisionFree(c) && WorldInv(c, w) && Enabled(c, w, ev)
    ensures WorldInv(c, Step(c, w, ev))
  {
    var v := Step(c, w, ev);
    StepHistory(c, w, ev);
    StepNumbered(c, w, ev);
    StepAttemptsMatch(c, w, ev);
    StepFilesMatch(c, w, ev);
    hide Numbered, AttemptsMatch, FilesMatch;
    forall ch | ch in v.checks ensures SnapshotOk(c, v.h, v.checks[ch]) {
      if ch in w.checks && v.checks[ch] == w.checks[ch] {
        SnapshotStaysOk(c, w.h, v.h, v.checks[ch]);
      } else {
        assert Backed(c, w.h, ev.id);
      }
    }
  }

  ghost predicate WorldRun(c: Config, ws: seq<World>, evs: seq<Event>) {
    && |ws| == |evs| + 1
    && forall i | 0 <= i < |evs| :: Enabled(c, ws[i], evs[i]) && ws[i + 1] == Step(c, ws[i], evs[i])
  }

  /** A center with an empty table, agents with any ini files at all, nothing in flight. */
  ghost predicate Start(w: World) {
    && w.h == EMPTY && w.requests == {} && w.responses == {} && w.checks == map[]
    && forall a | a in w.agents :: w.agents[a].phase.Down?
  }

  lemma {:induction false} RunKeepsInv(c: Config, ws: seq<World>, evs: seq<Event>, i: nat, j: nat)
    requires CollisionFree(c) && WorldRun(c, ws, evs) && i <= j < |ws| && WorldInv(c, ws[i])
    ensures WorldInv(c, ws[j])
    decreases j
  {
    if i < j {
      RunKeepsInv(c, ws, evs, i, j - 1);
      StepKeepsInv(c, ws[j - 1], evs[j - 1]);
    }
  }

  /** Every state of every run: distinct hashes, each from one issued key, each with an honest sealed copy. */
  lemma ReachableInv(c: Config, ws: seq<World>, evs: seq<Event>, j: nat)
    requires CollisionFree(c) && WorldRun(c, ws, evs) && Start(ws[0]) && j < |ws|
    ensures WorldInv(c, ws[j])
  {
    RunKeepsInv(c, ws, evs, 0, j);
  }

  /** A dead key opens nothing again, whatever the network, the agents and the administrators do. */
  lemma {:induction false} DeadInWorld(c: Config, ws: seq<World>, evs: seq<Event>, i: nat, j: nat, key: string)
    requires CollisionFree(c) && WorldRun(c, ws, evs) && i <= j < |ws| && WorldInv(c, ws[i])
    requires key in ws[i].h.issued && MatchesNothing(c, ws[i].h, key)
    ensures MatchesNothing(c, ws[j].h, key) && key in ws[j].h.issued
    decreases j
  {
    hide Step, WorldInv, Enabled, CollisionFree, MatchesNothing;
    if i < j {
      DeadInWorld(c, ws, evs, i, j - 1, key);
      RunKeepsInv(c, ws, evs, i, j - 1);
      DeadStep(c, ws[j - 1], evs[j - 1], key);
    }
  }

  lemma DeadStep(c: Config, w: World, ev: Event, key: string)
    requires CollisionFree(c) && WorldInv(c, w) && Enabled(c, w, ev)
    requires key in w.h.issued && MatchesNothing(c, w.h, key)
    ensures MatchesNothing(c, Step(c, w, ev).h, key) && key in Step(c, w, ev).h.issued
  {
    hide Step, Enabled, Admissible, Matches;
    StepHistory(c, w, ev);
    StoreOpAdmissible(c, w, ev);
    forall id ensures !Matches(c, Step(c, w, ev).h, id, key) {
      if Matches(c, Step(c, w, ev).h, id, key) && StoreOp(w, ev).Some? {
        NoNewMatch(c, w.h, StoreOp(w, ev).value, key, id);
      }
    }
  }

  // ---------------------------------------------------------------- handlers that write back late

  lemma {:induction false} SnapshotHeld(c: Config, ws: seq<World>, evs: seq<Event>, i: nat, j: nat, ch: nat)
    requires WorldRun(c, ws, evs) && i < j < |ws|
    requires evs[i].BeginCheck? && evs[i].ch == ch
    requires forall k | i < k < j :: !(evs[k].EndCheck? && evs[k].ch == ch)
    ensures ch in ws[j].checks && ws[j].checks[ch] == ws[i].h.table.rows[evs[i].id]
    decreases j
  {
    if i + 1 < j {
      SnapshotHeld(c, ws, evs, i, j - 1, ch);
    }
  }

  lemma EndCheckWrites(c: Config, w: World, ev: Event)
    requires Enabled(c, w, ev) && ev.EndCheck?
    ensures Step(c, w, ev).h.table == Apply(w.h.table, NotingHealth(w.checks[ev.ch].id, ev.health))
  {
  }

  lemma HeldSnapshot(c: Config, w: World, ch: nat)
    requires WorldInv(c, w) && ch in w.checks
    ensures WellFormed(w.h.table)
    ensures w.checks[ch].id in w.h.table.rows ==> SameIdentity(w.checks[ch], w.h.table.rows[w.checks[ch].id])
  {
    assert SnapshotOk(c, w.h, w.checks[ch]);
  }

  lemma ReadRow(c: Config, w: World, id: int)
    requires WorldInv(c, w) && id in w.h.table.rows
    ensures w.h.table.rows[id].id == id
  {
  }

  /**
   * Whatever landed between a handler's read and its write: if the write hits a row, it is the same
   * registration at the same endpoint that was read, and only its health changes; otherwise nothing does.
   */
  lemma LateWriteIsHarmless(c: Config, ws: seq<World>, evs: seq<Event>, i: nat, j: nat, ch: nat)
    requires CollisionFree(c) && WorldRun(c, ws, evs) && Start(ws[0]) && i < j < |evs|
    requires evs[i].BeginCheck? && evs[i].ch == ch && evs[j].EndCheck? && evs[j].ch == ch
    requires forall k | i < k < j :: !(evs[k].EndCheck? && evs[k].ch == ch)
    ensures var id := evs[i].id;
            var read := ws[i].h.table.rows[id];
            var before, after := ws[j].h.table, ws[j + 1].h.table;
            if id in before.rows
            then && SameIdentity(read, before.rows[id])
                 && after.rows.Keys == before.rows.Keys && after.nextId == before.nextId
                 && (forall other | other in before.rows && other != id :: after.rows[other] == before.rows[other])
                 && var h, was, n := evs[j].health, before.rows[id], after.rows[id];
                    && n.endpoint == read.endpoint
                    && n.lastStatus == h.status && n.lastLatencyMs == h.latencyMs && n.lastError == h.error
                    && n.updatedAt == h.now && n.lastSeenAt == (if h.markSeen then Some(h.now) else was.lastSeenAt)
                    && n.(lastStatus := was.lastStatus, lastLatencyMs := was.lastLatencyMs, lastError := was.lastError,
                          updatedAt := was.updatedAt, lastSeenAt := was.lastSeenAt) == was
            else after == before
  {
    hide Step, WorldInv, Enabled, Apply;
    ReachableInv(c, ws, evs, i);
    ReachableInv(c, ws, evs, j);
    SnapshotHeld(c, ws, evs, i, j, ch);
    Begun(c, ws[i], evs[i]);
    ReadRow(c, ws[i], evs[i].id);
    HeldSnapshot(c, ws[j], ch);
    EndCheckWrites(c, ws[j], evs[j]);
    var t, op := ws[j].h.table, NotingHealth(evs[i].id, evs[j].health);
    if evs[i].id in t.rows {
      HealthWrites(t, evs[i].id, evs[j].health);
      forall other | other in t.rows && other != evs[i].id
        ensures other in Apply(t, op).rows && Apply(t, op).rows[other] == t.rows[other]
      {
        ApplyFrame(t, op, other);
      }
    } else {
      MissingRow(t, evs[i].id, evs[j].health);
    }
  }

  lemma Begun(c: Config, w: World, ev: Event)
    requires Enabled(c, w, ev) && ev.BeginCheck?
    ensures ev.id in w.h.table.rows
  {
  }

  lemma MissingRow(t: Table, id: int, h: Health)
    requires id !in t.rows
    ensures Apply(t, NotingHealth(id, h)) == t
  {
  }
}
