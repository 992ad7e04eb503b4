/** An agent whose ini file holds its row's key: crashes, restarts and a bad network no longer matter. */
module SteadyState {
  import opened Wrappers
  import opened NodeTable
  import opened KeyLifecycle
  import opened NodeAgent
  import opened Protocol
  import Text

  /**
   * Row `r` at the agent's endpoint has key `k`, the ini file offers `k`, and whatever is in flight for
   * that endpoint offers `k` too.
   */
  ghost predicate Steady(c: Config, w: World, a: nat, r: int, k: string) {
    && a in w.agents
    && k in w.h.issued && Matches(c, w.h, r, k) && w.h.table.rows[r].endpoint == w.agents[a].e
    && OldKey(w.agents[a].disk) == Success(k)
    && (forall req | req in w.requests && req.e == w.agents[a].e :: req.offered == k)
    && match w.agents[a].phase
       case Down => true
       case Waiting(oldKey, rid) =>
         oldKey == k && forall resp | resp in w.responses && resp.rid == rid :: resp == Response(rid, r, k, true)
       case Received(id, key) => id == r && key == k
       case Serving(key) => key == k
  }

  /**
   * What may not happen: another key offered for the endpoint, the row deleted, settings with which the file
   * is not read back.
   */
  ghost predicate Interferes(w: World, ev: Event, a: nat, r: int, k: string) {
    a in w.agents &&
    var e := w.agents[a].e;
    match ev
    case Boot(b) => b in w.agents && w.agents[b].e == e && OldKey(w.agents[b].disk) != Success(k)
    case Retry(b) => b in w.agents && w.agents[b].e == e && w.agents[b].phase.Waiting? && w.agents[b].phase.oldKey != k
    case Admin(Deleting(id)) => id == r
    case Admin(Registering(p, _)) => p.endpoint == e && p.existingNodeKey != Some(k)
    case Persist(b, updatedAt) => b == a && !ReadsBack(w.agents[a].cfg, r, k, updatedAt)
    case _ => false
  }

  lemma IssuedKeyShape(c: Config, h: History, k: string)
    requires Inv(c, h) && k in h.issued
    ensures k != "" && Text.Trimmed(k) && Text.Trim(k) == k && '\n' !in k
  {
    assert GeneratedShape(k);
    GeneratedKeySurvives(k);
  }

  /** A registration that offers the row's key keeps it and says so. */
  lemma OfferedKeyIsKept(c: Config, h: History, p: RegisterParams, now: int, r: int, k: string)
    requires Inv(c, h) && k in h.issued && Matches(c, h, r, k) && p.hashKey == c.hash
    requires p.endpoint == h.table.rows[r].endpoint && p.existingNodeKey == Some(k)
    ensures Register(h.table, p, now).result == Success(Registration(KeyKept(h.table.rows[r], p, now), k, true))
    ensures Register(h.table, p, now).table == Update(h.table, r, KeyKept(h.table.rows[r], p, now))
  {
    IssuedKeyShape(c, h, k);
    LookupIs(h.table, p.endpoint, r);
  }

  /** The row keeps its key and endpoint under every operation that does not interfere. */
  lemma RowStays(c: Config, h: History, op: Op, r: int, k: string)
    requires CollisionFree(c) && Inv(c, h) && Admissible(c, h, op) && k in h.issued && Matches(c, h, r, k)
    requires op.Deleting? ==> op.id != r
    requires op.Registering? && op.p.endpoint == h.table.rows[r].endpoint ==> op.p.existingNodeKey == Some(k)
    ensures var g := Next(c, h, op);
            k in g.issued && Matches(c, g, r, k) && g.table.rows[r].endpoint == h.table.rows[r].endpoint
  {
    if op.Registering? {
      if op.p.endpoint == h.table.rows[r].endpoint {
        OfferedKeyIsKept(c, h, op.p, op.now, r, k);
      } else {
        RegisterFrame(h.table, op.p, op.now, r);
      }
    }
  }

  lemma SteadyRow(c: Config, w: World, ev: Event, a: nat, r: int, k: string)
    requires CollisionFree(c) && WorldInv(c, w) && Enabled(c, w, ev)
    requires Steady(c, w, a, r, k) && !Interferes(w, ev, a, r, k)
    ensures var v := Step(c, w, ev);
            && a in v.agents && v.agents[a].e == w.agents[a].e && v.agents[a].cfg == w.agents[a].cfg
            && k in v.h.issued && Matches(c, v.h, r, k) && v.h.table.rows[r].endpoint == v.agents[a].e
  {
    StoreOpAdmissible(c, w, ev);
    IssuedKeyShape(c, w.h, k);
    if StoreOp(w, ev).Some? {
      RowStays(c, w.h, StoreOp(w, ev).value, r, k);
    }
  }

  lemma SteadyRequests(c: Config, w: World, ev: Event, a: nat, r: int, k: string)
    requires Enabled(c, w, ev) && Steady(c, w, a, r, k) && !Interferes(w, ev, a, r, k)
    ensures forall req | req in Step(c, w, ev).requests && req.e == w.agents[a].e :: req.offered == k
  {
  }

  lemma SteadyDisk(c: Config, w: World, ev: Event, a: nat, r: int, k: string)
    requires WorldInv(c, w) && Enabled(c, w, ev) && Steady(c, w, a, r, k) && !Interferes(w, ev, a, r, k)
    ensures OldKey(Step(c, w, ev).agents[a].disk) == Success(k)
  {
    if ev.Persist? && ev.a == a {
      IssuedKeyShape(c, w.h, k);
      WrittenKeyIsOffered(w.agents[a].cfg, r, k, ev.updatedAt);
    }
  }

  /** Whatever answers the agent's current attempt, it is the row's key, reused. */
  lemma SteadyReplies(c: Config, w: World, ev: Event, a: nat, r: int, k: string)
    requires CollisionFree(c) && WorldInv(c, w) && Enabled(c, w, ev)
    requires Steady(c, w, a, r, k) && !Interferes(w, ev, a, r, k)
    ensures var v := Step(c, w, ev);
            v.agents[a].phase.Waiting? ==>
              && v.agents[a].phase.oldKey == k
              && forall resp | resp in v.responses && resp.rid == v.agents[a].phase.rid ::
                  resp == Response(resp.rid, r, k, true)
  {
    IssuedKeyShape(c, w.h, k);
    if ev.Serve? && w.agents[a].phase.Waiting? && ev.req.rid == w.agents[a].phase.rid {
      assert ev.req.e == w.agents[a].e && ev.req.offered == k;
      OfferedKeyIsKept(c, w.h, ev.p, ev.now, r, k);
      assert w.h.table.rows[r].id == r;
      assert Replies(w, ev.req, ev.p, ev.now) == {Response(ev.req.rid, r, k, true)};
    }
  }

  lemma SteadyOtherPhases(c: Config, w: World, ev: Event, a: nat, r: int, k: string)
    requires WorldInv(c, w) && Enabled(c, w, ev) && Steady(c, w, a, r, k)
    ensures match Step(c, w, ev).agents[a].phase
            case Received(id, key) => id == r && key == k
            case Serving(key) => key == k
            case _ => true
  {
    IssuedKeyShape(c, w.h, k);
  }

  lemma SteadyStep(c: Config, w: World, ev: Event, a: nat, r: int, k: string)
    requires CollisionFree(c) && WorldInv(c, w) && Enabled(c, w, ev)
    requires Steady(c, w, a, r, k) && !Interferes(w, ev, a, r, k)
    ensures Steady(c, Step(c, w, ev), a, r, k)
  {
    SteadyRow(c, w, ev, a, r, k);
    SteadyRequests(c, w, ev, a, r, k);
    SteadyDisk(c, w, ev, a, r, k);
    SteadyReplies(c, w, ev, a, r, k);
    SteadyOtherPhases(c, w, ev, a, r, k);
  }

  /**
   * Once the ini file holds the row's current key, any sequence of crashes, restarts, failed writes and
   * lost, delayed or duplicated requests keeps the row, its key and the file's key; everything else in
   * the system may do as it likes at other endpoints.
   */
  lemma {:induction false} SteadyForever(c: Config, ws: seq<World>, evs: seq<Event>, i: nat, j: nat, a: nat, r: int,
                                         k: string)
    requires CollisionFree(c) && WorldRun(c, ws, evs) && i <= j < |ws| && WorldInv(c, ws[i])
    requires Steady(c, ws[i], a, r, k)
    requires forall t | i <= t < j :: !Interferes(ws[t], evs[t], a, r, k)
    ensures WorldInv(c, ws[j]) && Steady(c, ws[j], a, r, k)
    decreases j
  {
    hide Step, Steady, WorldInv, Interferes;
    if i < j {
      SteadyForever(c, ws, evs, i, j - 1, a, r, k);
      var w, ev := ws[j - 1], evs[j - 1];
      StepKeepsInv(c, w, ev);
      SteadyStep(c, w, ev, a, r, k);
    }
  }

  /**
   * Every request that the center processes for that endpoint, copy or not, is answered with the same id and
   * key, reused.
   */
  lemma SteadyAnswers(c: Config, ws: seq<World>, evs: seq<Event>, i: nat, j: nat, a: nat, r: int, k: string)
    requires CollisionFree(c) && WorldRun(c, ws, evs) && i <= j < |evs| && WorldInv(c, ws[i])
    requires Steady(c, ws[i], a, r, k)
    requires forall t | i <= t < j :: !Interferes(ws[t], evs[t], a, r, k)
    requires evs[j].Serve? && a in ws[j].agents && evs[j].req.e == ws[j].agents[a].e
    ensures Replies(ws[j], evs[j].req, evs[j].p, evs[j].now) == {Response(evs[j].req.rid, r, k, true)}
    ensures ws[j + 1].h.issued == ws[j].h.issued
  {
    hide Step, Steady, WorldInv, Interferes, Replies, Enabled;
    SteadyForever(c, ws, evs, i, j, a, r, k);
    SteadyAnswer(c, ws[j], evs[j], a, r, k);
  }

  lemma SteadyAnswer(c: Config, w: World, ev: Event, a: nat, r: int, k: string)
    requires CollisionFree(c) && WorldInv(c, w) && Enabled(c, w, ev) && Steady(c, w, a, r, k)
    requires ev.Serve? && ev.req.e == w.agents[a].e
    ensures Replies(w, ev.req, ev.p, ev.now) == {Response(ev.req.rid, r, k, true)}
    ensures Step(c, w, ev).h.issued == w.h.issued
  {
    IssuedKeyShape(c, w.h, k);
    OfferedKeyIsKept(c, w.h, ev.p, ev.now, r, k);
    LookupIs(w.h.table, ev.p.endpoint, r);
    assert w.h.table.rows[r].id == r;
  }

  /** Writing the file again keeps the steady state exactly if the settings still let it be read back. */
  lemma PersistStaysSteady(c: Config, w: World, a: nat, updatedAt: string, r: int, k: string)
    requires CollisionFree(c) && WorldInv(c, w) && Steady(c, w, a, r, k) && Enabled(c, w, Persist(a, updatedAt))
    ensures Steady(c, Step(c, w, Persist(a, updatedAt)), a, r, k) <==> ReadsBack(w.agents[a].cfg, r, k, updatedAt)
  {
    hide Inv, AttemptsMatch, SnapshotOk, ReadsBack, OldKey, IniFields;
    IssuedKeyShape(c, w.h, k);
    WrittenKeyIsOffered(w.agents[a].cfg, r, k, updatedAt);
  }
}
