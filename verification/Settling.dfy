/** First contact over a lossy network, one attempt at a time: what a successful return is worth. */
module Settling {
  import opened Wrappers
  import opened NodeTable
  import opened KeyLifecycle
  import opened NodeAgent
  import opened Protocol
  import opened SteadyState

  ghost predicate NoneInFlight(w: World, e: Endpoint) {
    forall req | req in w.requests :: req.e != e
  }

  /** `key` is what the row at the endpoint is protected with right now. */
  ghost predicate Current(c: Config, h: History, e: Endpoint, id: int, key: string) {
    key in h.issued && Matches(c, h, id, key) && h.table.rows[id].endpoint == e
  }

  /** At most one request for the endpoint is under way, the agent's current attempt; any answer to it is current. */
  ghost predicate Settled(c: Config, w: World, a: nat) {
    a in w.agents &&
    var g := w.agents[a];
    && (forall p, q | p in w.requests && q in w.requests && p.e == g.e && q.e == g.e :: p == q)
    && match g.phase
       case Down => true
       case Waiting(oldKey, rid) =>
         && (forall req | req in w.requests && req.e == g.e :: req.rid == rid)
         && (forall resp | resp in w.responses && resp.rid == rid ::
               Current(c, w.h, g.e, resp.id, resp.key) && NoneInFlight(w, g.e))
       case Received(id, key) => Current(c, w.h, g.e, id, key) && NoneInFlight(w, g.e)
       case Serving(key) => (exists id :: Current(c, w.h, g.e, id, key)) && NoneInFlight(w, g.e)
  }

  /** A new attempt before the last one was processed or lost, a second copy, or another writer on the endpoint. */
  ghost predicate Disturbs(w: World, ev: Event, a: nat) {
    a in w.agents &&
    var e := w.agents[a].e;
    match ev
    case Boot(b) => b in w.agents && w.agents[b].e == e && (b != a || !NoneInFlight(w, e))
    case Retry(b) => b in w.agents && w.agents[b].e == e && (b != a || !NoneInFlight(w, e))
    case Duplicate(req) => req.e == e
    case Admin(Registering(p, _)) => p.endpoint == e
    case Admin(Deleting(id)) => id in w.h.table.rows && w.h.table.rows[id].endpoint == e
    case _ => false
  }

  lemma KeptKeyIsIssued(c: Config, h: History, p: RegisterParams, now: int)
    requires CollisionFree(c) && Inv(c, h) && Admissible(c, h, Registering(p, now)) && KeepsKey(h.table, p)
    ensures p.existingNodeKey.value in h.issued
  {
    assert Backed(c, h, Lookup(h.table, p.endpoint).value);
  }

  /** The reply of a processed registration names the row's key at that moment. */
  lemma ReplyIsCurrent(c: Config, h: History, p: RegisterParams, now: int)
    requires CollisionFree(c) && Inv(c, h) && Admissible(c, h, Registering(p, now))
    requires Register(h.table, p, now).result.Success?
    ensures var r := Register(h.table, p, now).result.value;
            Current(c, Next(c, h, Registering(p, now)), p.endpoint, r.node.id, r.nodeKey)
  {
    RegisterOutcome(h.table, p, now);
    if KeepsKey(h.table, p) {
      KeptKeyIsIssued(c, h, p, now);
    }
  }

  /** Operations at other endpoints leave the current key current. */
  lemma StaysCurrent(c: Config, h: History, op: Op, e: Endpoint, id: int, key: string)
    requires CollisionFree(c) && Inv(c, h) && Admissible(c, h, op) && Current(c, h, e, id, key)
    requires op.Deleting? ==> op.id != id
    requires op.Registering? ==> op.p.endpoint != e
    ensures Current(c, Next(c, h, op), e, id, key)
  {
    RowStays(c, h, op, id, key);
  }

  ghost predicate ServesAt(ev: Event, e: Endpoint) {
    ev.Serve? && ev.req.e == e
  }

  lemma CurrentThroughStep(c: Config, w: World, ev: Event, a: nat, id: int, key: string)
    requires CollisionFree(c) && WorldInv(c, w) && Enabled(c, w, ev) && a in w.agents && !Disturbs(w, ev, a)
    requires !ServesAt(ev, w.agents[a].e) && Current(c, w.h, w.agents[a].e, id, key)
    ensures Current(c, Step(c, w, ev).h, w.agents[a].e, id, key)
  {
    hide Step;
    StoreOpAdmissible(c, w, ev);
    if StoreOp(w, ev).Some? {
      StaysCurrent(c, w.h, StoreOp(w, ev).value, w.agents[a].e, id, key);
    }
  }

  lemma InFlightAfter(c: Config, w: World, ev: Event, a: nat)
    requires Enabled(c, w, ev) && Settled(c, w, a) && !Disturbs(w, ev, a)
    ensures var v := Step(c, w, ev);
            && a in v.agents && v.agents[a].e == w.agents[a].e
            && (forall p, q | p in v.requests && q in v.requests && p.e == w.agents[a].e && q.e == w.agents[a].e ::
                p == q)
            && (forall req | req in v.requests && req.e == w.agents[a].e ::
                  req in w.requests || ((ev.Boot? || ev.Retry?) && ev.a == a && req.rid == w.next))
            && (NoneInFlight(w, w.agents[a].e) && !((ev.Boot? || ev.Retry?) && ev.a == a) ==>
                NoneInFlight(v, w.agents[a].e))
            && (ServesAt(ev, w.agents[a].e) ==> NoneInFlight(v, w.agents[a].e))
  {
  }

  /** While the agent goes on waiting for the same attempt, every answer to it stays current. */
  lemma WaitingSettles(c: Config, w: World, ev: Event, a: nat)
    requires CollisionFree(c) && WorldInv(c, w) && Enabled(c, w, ev) && Settled(c, w, a) && !Disturbs(w, ev, a)
    requires w.agents[a].phase.Waiting? && Step(c, w, ev).agents[a].phase == w.agents[a].phase
    ensures var v := Step(c, w, ev);
            forall resp | resp in v.responses && resp.rid == w.agents[a].phase.rid ::
              Current(c, v.h, w.agents[a].e, resp.id, resp.key) && NoneInFlight(v, w.agents[a].e)
  {
    var v, e := Step(c, w, ev), w.agents[a].e;
    InFlightAfter(c, w, ev, a);
    forall resp | resp in v.responses && resp.rid == w.agents[a].phase.rid
      ensures Current(c, v.h, e, resp.id, resp.key) && NoneInFlight(v, e)
    {
      if ServesAt(ev, e) {
        assert resp !in w.responses;
        ReplyIsCurrent(c, w.h, ev.p, ev.now);
      } else {
        assert resp in w.responses;
        CurrentThroughStep(c, w, ev, a, resp.id, resp.key);
      }
    }
  }

  lemma SettledStep(c: Config, w: World, ev: Event, a: nat)
    requires CollisionFree(c) && WorldInv(c, w) && Enabled(c, w, ev) && Settled(c, w, a) && !Disturbs(w, ev, a)
    ensures Settled(c, Step(c, w, ev), a)
  {
    var v, e := Step(c, w, ev), w.agents[a].e;
    InFlightAfter(c, w, ev, a);
    if v.agents[a].phase == w.agents[a].phase {
      SamePhaseSettles(c, w, ev, a);
    } else {
      NewPhaseSettles(c, w, ev, a);
    }
  }

  lemma SamePhaseSettles(c: Config, w: World, ev: Event, a: nat)
    requires CollisionFree(c) && WorldInv(c, w) && Enabled(c, w, ev) && Settled(c, w, a) && !Disturbs(w, ev, a)
    requires Step(c, w, ev).agents[a].phase == w.agents[a].phase
    ensures Settled(c, Step(c, w, ev), a)
  {
    InFlightAfter(c, w, ev, a);
    match w.agents[a].phase
    case Down =>
    case Waiting(_, _) => WaitingSettles(c, w, ev, a);
    case Received(id, key) => CurrentThroughStep(c, w, ev, a, id, key);
    case Serving(key) =>
      var id :| Current(c, w.h, w.agents[a].e, id, key);
      CurrentThroughStep(c, w, ev, a, id, key);
  }

  lemma NewPhaseSettles(c: Config, w: World, ev: Event, a: nat)
    requires CollisionFree(c) && WorldInv(c, w) && Enabled(c, w, ev) && Settled(c, w, a) && !Disturbs(w, ev, a)
    requires Step(c, w, ev).agents[a].phase != w.agents[a].phase
    ensures Settled(c, Step(c, w, ev), a)
  {
    InFlightAfter(c, w, ev, a);
    if ev.Receive? {
      assert Current(c, w.h, w.agents[a].e, ev.resp.id, ev.resp.key);
      IssuedKeyShape(c, w.h, ev.resp.key);
    }
  }

  lemma {:induction false} SettledForever(c: Config, ws: seq<World>, evs: seq<Event>, i: nat, j: nat, a: nat)
    requires CollisionFree(c) && WorldRun(c, ws, evs) && i <= j < |ws| && WorldInv(c, ws[i]) && Settled(c, ws[i], a)
    requires forall t | i <= t < j :: !Disturbs(ws[t], evs[t], a)
    ensures WorldInv(c, ws[j]) && Settled(c, ws[j], a)
    decreases j
  {
    hide Step, Settled, WorldInv, Disturbs;
    if i < j {
      SettledForever(c, ws, evs, i, j - 1, a);
      var w, ev := ws[j - 1], evs[j - 1];
      StepKeepsInv(c, w, ev);
      SettledStep(c, w, ev, a);
    }
  }

  /**
   * When each attempt is processed or lost before the next and nobody else writes to the endpoint, the key
   * that an attempt finally brings back is exactly the row's current key, whichever replies went missing.
   */
  lemma SuccessfulReturnIsCurrent(c: Config, ws: seq<World>, evs: seq<Event>, i: nat, j: nat, a: nat, resp: Response)
    requires CollisionFree(c) && WorldRun(c, ws, evs) && i <= j < |evs| && WorldInv(c, ws[i])
    requires a in ws[i].agents && ws[i].agents[a].phase.Down? && NoneInFlight(ws[i], ws[i].agents[a].e)
    requires forall t | i <= t < j :: !Disturbs(ws[t], evs[t], a)
    requires evs[j] == Receive(a, resp)
    ensures a in ws[j].agents && Current(c, ws[j + 1].h, ws[j].agents[a].e, resp.id, resp.key)
    ensures ws[j + 1].agents[a].phase == Received(resp.id, resp.key)
  {
    SettledForever(c, ws, evs, i, j, a);
    IssuedKeyShape(c, ws[j].h, resp.key);
  }

  /** Writing the ini file after such a return enters the steady state exactly if the settings can be read back. */
  lemma PersistEntersSteady(c: Config, w: World, a: nat, updatedAt: string)
    requires WorldInv(c, w) && Settled(c, w, a) && w.agents[a].phase.Received?
    ensures var g := w.agents[a];
            Steady(c, Step(c, w, Persist(a, updatedAt)), a, g.phase.id, g.phase.key) <==>
            ReadsBack(g.cfg, g.phase.id, g.phase.key, updatedAt)
  {
    hide Inv, AttemptsMatch, SnapshotOk, ReadsBack, OldKey, IniFields;
    var g := w.agents[a];
    IssuedKeyShape(c, w.h, g.phase.key);
    WrittenKeyIsOffered(g.cfg, g.phase.id, g.phase.key, updatedAt);
  }

  /**
   * From first contact to a settled installation: the first boot registers over a lossy network, writes its
   * ini file at step j, and from then on the row, its id and its key stay as they are.
   */
  lemma InstalledForGood(c: Config, ws: seq<World>, evs: seq<Event>, i: nat, j: nat, k: nat, a: nat)
    requires CollisionFree(c) && WorldRun(c, ws, evs) && i <= j < k < |ws| && WorldInv(c, ws[i])
    requires a in ws[i].agents && ws[i].agents[a].phase.Down? && NoneInFlight(ws[i], ws[i].agents[a].e)
    requires forall t | i <= t < j :: !Disturbs(ws[t], evs[t], a)
    requires evs[j].Persist? && evs[j].a == a && a in ws[j].agents && ws[j].agents[a].phase.Received?
    requires var got := ws[j].agents[a].phase; ReadsBack(ws[j].agents[a].cfg, got.id, got.key, evs[j].updatedAt)
    requires var got := ws[j].agents[a].phase;
             forall t | j < t < k :: !Interferes(ws[t], evs[t], a, got.id, got.key)
    ensures var got := ws[j].agents[a].phase;
            Steady(c, ws[k], a, got.id, got.key) && Lookup(ws[k].h.table, ws[k].agents[a].e) == Some(got.id)
  {
    var got := ws[j].agents[a].phase;
    SettledForever(c, ws, evs, i, j, a);
    PersistEntersSteady(c, ws[j], a, evs[j].updatedAt);
    StepKeepsInv(c, ws[j], evs[j]);
    hide Step, Settled, WorldInv, Interferes, Disturbs, ReadsBack;
    SteadyForever(c, ws, evs, j + 1, k, a, got.id, got.key);
    RowFound(c, ws[k], got.id);
  }

  // ---------------------------------------------------------------- crashes and overtaking

  /** Until it is deleted, a row stays the one row at its endpoint, however often it is registered anew. */
  lemma {:induction false} OneRowPerEndpoint(c: Config, ws: seq<World>, evs: seq<Event>, i: nat, j: nat, r: int)
    requires CollisionFree(c) && WorldRun(c, ws, evs) && i <= j < |ws| && WorldInv(c, ws[i]) && r in ws[i].h.table.rows
    requires forall t | i <= t < j :: evs[t] != Admin(Deleting(r))
    ensures WorldInv(c, ws[j]) && r in ws[j].h.table.rows && SameIdentity(ws[i].h.table.rows[r], ws[j].h.table.rows[r])
    ensures Lookup(ws[j].h.table, ws[i].h.table.rows[r].endpoint) == Some(r)
    decreases j
  {
    hide Step, WorldInv, Enabled;
    if i < j {
      OneRowPerEndpoint(c, ws, evs, i, j - 1, r);
      RowSurvives(c, ws[j - 1], evs[j - 1], r);
      RunKeepsInv(c, ws, evs, i, j);
    }
    RowFound(c, ws[j], r);
  }

  lemma RowFound(c: Config, w: World, r: int)
    requires WorldInv(c, w) && r in w.h.table.rows
    ensures Lookup(w.h.table, w.h.table.rows[r].endpoint) == Some(r)
  {
    LookupIs(w.h.table, w.h.table.rows[r].endpoint, r);
  }

  lemma RowSurvives(c: Config, w: World, ev: Event, r: int)
    requires CollisionFree(c) && WorldInv(c, w) && Enabled(c, w, ev) && r in w.h.table.rows && ev != Admin(Deleting(r))
    ensures var g := Step(c, w, ev).h; r in g.table.rows && SameIdentity(w.h.table.rows[r], g.table.rows[r])
  {
    hide Step;
    StoreOpAdmissible(c, w, ev);
    StepHistory(c, w, ev);
    if StoreOp(w, ev).Some? && StoreOp(w, ev).value.Registering? {
      var p := StoreOp(w, ev).value.p;
      if p.endpoint == w.h.table.rows[r].endpoint { LookupIs(w.h.table, p.endpoint, r); }
    }
  }

  /**
   * Why attempts must not overtake each other. When two requests with the same offer are processed one
   * after the other, the first reply's key is still the row's key exactly if the offer was kept, or was the
   * very key that was generated for it.
   */
  lemma EarlierReplySurvives(c: Config, h: History, p: RegisterParams, q: RegisterParams, now: int, later: int)
    requires CollisionFree(c) && Inv(c, h) && Admissible(c, h, Registering(p, now))
    requires p.endpoint == q.endpoint && p.existingNodeKey == q.existingNodeKey
    requires p.sealKey(p.generateKey).Success? && q.sealKey(q.generateKey).Success?
    requires Admissible(c, Next(c, h, Registering(p, now)), Registering(q, later))
    ensures var g := Next(c, h, Registering(p, now));
            var first := Register(h.table, p, now).result.value;
            Current(c, Next(c, g, Registering(q, later)), p.endpoint, first.node.id, first.nodeKey) <==>
            KeepsKey(h.table, p) || p.existingNodeKey == Some(p.generateKey)
  {
    var g := Next(c, h, Registering(p, now));
    var first := Register(h.table, p, now).result.value;
    RegisterOutcome(h.table, p, now);
    NextKeepsInv(c, h, Registering(p, now));
    ReplyIsCurrent(c, h, p, now);
    if KeepsKey(h.table, p) || p.existingNodeKey == Some(p.generateKey) {
      OfferedKeyIsKept(c, g, q, later, first.node.id, first.nodeKey);
    } else {
      NotKeptTwice(c, h, p, q, now, later);
      RegisterOutcome(g.table, q, later);
    }
  }

  /** An offer that was refused once is refused again, unless it was the very key that was generated then. */
  lemma NotKeptTwice(c: Config, h: History, p: RegisterParams, q: RegisterParams, now: int, later: int)
    requires CollisionFree(c) && Inv(c, h) && Admissible(c, h, Registering(p, now)) && !KeepsKey(h.table, p)
    requires p.endpoint == q.endpoint && p.existingNodeKey == q.existingNodeKey && p.sealKey(p.generateKey).Success?
    requires Admissible(c, Next(c, h, Registering(p, now)), Registering(q, later))
    ensures KeepsKey(Next(c, h, Registering(p, now)).table, q) <==> p.existingNodeKey == Some(p.generateKey)
  {
    RegisterOutcome(h.table, p, now);
  }
}
