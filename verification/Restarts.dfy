/**
 * What one restart of an agent gets from the center, over whole runs: after a write, after a crash, after
 * overtaking.
 */
module Restarts {
  import opened Wrappers
  import opened NodeTable
  import opened KeyLifecycle
  import opened NodeAgent
  import opened Protocol
  import opened SteadyState
  import opened Settling
  import NodeIni

  /** No registration at the endpoint and no deletion of its row; anything else may happen. */
  predicate Away(ev: Event, e: Endpoint, r: int) {
    match ev
    case Serve(req, _, _) => req.e != e
    case Admin(Registering(p, _)) => p.endpoint != e
    case Admin(Deleting(id)) => id != r
    case _ => true
  }

  predicate Writes(ev: Event, a: nat) {
    ev.Persist? && ev.a == a
  }

  /** Between two moments, nothing happens at the endpoint and the agent does not write its file. */
  ghost predicate Undisturbed(evs: seq<Event>, i: nat, j: nat, a: nat, e: Endpoint, r: int)
    requires j <= |evs|
  {
    forall t | i <= t < j :: Away(evs[t], e, r) && !Writes(evs[t], a)
  }

  lemma CurrentStep(c: Config, w: World, ev: Event, e: Endpoint, r: int, k: string)
    requires CollisionFree(c) && WorldInv(c, w) && Enabled(c, w, ev) && Away(ev, e, r) && Current(c, w.h, e, r, k)
    ensures Current(c, Step(c, w, ev).h, e, r, k)
  {
    hide Step;
    StoreOpAdmissible(c, w, ev);
    if StoreOp(w, ev).Some? {
      StoreOpAway(c, w, ev, e, r);
      StaysCurrent(c, w.h, StoreOp(w, ev).value, e, r, k);
    }
  }

  lemma StoreOpAway(c: Config, w: World, ev: Event, e: Endpoint, r: int)
    requires Enabled(c, w, ev) && Away(ev, e, r) && StoreOp(w, ev).Some?
    ensures var op := StoreOp(w, ev).value;
            (op.Deleting? ==> op.id != r) && (op.Registering? ==> op.p.endpoint != e)
  {
  }

  lemma {:induction false} CurrentThrough(c: Config, ws: seq<World>, evs: seq<Event>, i: nat, j: nat, a: nat,
                                          e: Endpoint, r: int, k: string)
    requires CollisionFree(c) && WorldRun(c, ws, evs) && i <= j < |ws| && WorldInv(c, ws[i])
    requires Undisturbed(evs, i, j, a, e, r) && Current(c, ws[i].h, e, r, k)
    ensures WorldInv(c, ws[j]) && Current(c, ws[j].h, e, r, k)
    decreases j
  {
    hide Step, WorldInv, Current, Away, Writes;
    if i < j {
      CurrentThrough(c, ws, evs, i, j - 1, a, e, r, k);
      StepKeepsInv(c, ws[j - 1], evs[j - 1]);
      CurrentStep(c, ws[j - 1], evs[j - 1], e, r, k);
    }
  }

  lemma FileStep(c: Config, w: World, ev: Event, a: nat)
    requires Enabled(c, w, ev) && a in w.agents && !Writes(ev, a)
    ensures var v := Step(c, w, ev);
            a in v.agents && v.agents[a].disk == w.agents[a].disk && v.agents[a].e == w.agents[a].e
  {
  }

  lemma {:induction false} FileThrough(c: Config, ws: seq<World>, evs: seq<Event>, i: nat, j: nat, a: nat)
    requires WorldRun(c, ws, evs) && i <= j < |ws| && a in ws[i].agents && forall t | i <= t < j :: !Writes(evs[t], a)
    ensures a in ws[j].agents && ws[j].agents[a].disk == ws[i].agents[a].disk && ws[j].agents[a].e == ws[i].agents[a].e
    decreases j
  {
    hide Step, Enabled, Writes;
    if i < j {
      FileThrough(c, ws, evs, i, j - 1, a);
      FileStep(c, ws[j - 1], evs[j - 1], a);
    }
  }

  /** Every request under this number is a copy of the one attempt that was sent with it. */
  ghost predicate CopiesOf(w: World, rid: nat, e: Endpoint, offered: string) {
    rid < w.next && forall req | req in w.requests && req.rid == rid :: req.e == e && req.offered == offered
  }

  lemma CopiesStep(c: Config, w: World, ev: Event, rid: nat, e: Endpoint, offered: string)
    requires Enabled(c, w, ev) && CopiesOf(w, rid, e, offered)
    ensures CopiesOf(Step(c, w, ev), rid, e, offered)
  {
  }

  lemma {:induction false} CopiesThrough(c: Config, ws: seq<World>, evs: seq<Event>, i: nat, j: nat, rid: nat,
                                         e: Endpoint, offered: string)
    requires WorldRun(c, ws, evs) && i <= j < |ws| && CopiesOf(ws[i], rid, e, offered)
    ensures CopiesOf(ws[j], rid, e, offered)
    decreases j
  {
    hide Step, Enabled, CopiesOf;
    if i < j {
      CopiesThrough(c, ws, evs, i, j - 1, rid, e, offered);
      CopiesStep(c, ws[j - 1], evs[j - 1], rid, e, offered);
    }
  }

  /** An attempt is sent for the agent's endpoint and offers what its file says. */
  lemma AttemptSent(c: Config, w: World, ev: Event, a: nat)
    requires WorldInv(c, w) && Enabled(c, w, ev) && ev in {Boot(a), Retry(a)}
    ensures OldKey(w.agents[a].disk).Success?
    ensures CopiesOf(Step(c, w, ev), w.next, w.agents[a].e, OldKey(w.agents[a].disk).value)
  {
    hide OldKey, Inv, AttemptsMatch, SnapshotOk;
  }

  /**
   * A request at an endpoint whose row has key `k`: kept if it offers `k`, otherwise `k` is dead and the row
   * has a new key.
   */
  lemma ServedAt(c: Config, w: World, ev: Event, e: Endpoint, r: int, k: string)
    requires CollisionFree(c) && WorldInv(c, w) && Enabled(c, w, ev) && Current(c, w.h, e, r, k)
    requires ev.Serve? && ev.req.e == e && Register(w.h.table, ev.p, ev.now).result.Success?
    ensures var g, reg := Step(c, w, ev).h, Register(w.h.table, ev.p, ev.now).result.value;
            && reg.node.id == r && (reg.reused <==> ev.req.offered == k)
            && Current(c, g, e, r, reg.nodeKey) && g.table.rows.Keys == w.h.table.rows.Keys
            && (!reg.reused ==> MatchesNothing(c, g, k))
  {
    var op := Registering(ev.p, ev.now);
    StoreOpAdmissible(c, w, ev);
    RegisteredAt(c, w.h, ev.p, ev.now, e, r, k);
    assert Step(c, w, ev).h == Next(c, w.h, op);
  }

  lemma RegisteredAt(c: Config, h: History, p: RegisterParams, now: int, e: Endpoint, r: int, k: string)
    requires CollisionFree(c) && Inv(c, h) && Admissible(c, h, Registering(p, now)) && Current(c, h, e, r, k)
    requires p.endpoint == e && Register(h.table, p, now).result.Success?
    ensures var g, reg := Next(c, h, Registering(p, now)), Register(h.table, p, now).result.value;
            && reg.node.id == r && (reg.reused <==> p.existingNodeKey == Some(k))
            && Current(c, g, e, r, reg.nodeKey) && g.table.rows.Keys == h.table.rows.Keys
            && (!reg.reused ==> MatchesNothing(c, g, k))
  {
    LookupIs(h.table, e, r);
    IssuedKeyShape(c, h, k);
    RegisterOutcome(h.table, p, now);
    ReplyIsCurrent(c, h, p, now);
    assert h.table.rows[r].id == r;
    assert KeepsKey(h.table, p) <==> p.existingNodeKey == Some(k);
    if !KeepsKey(h.table, p) {
      WhatKillsAKey(c, h, Registering(p, now), k, r);
    }
  }

  /**
   * A restart, with anything at all going on elsewhere: the center answers for the same row, and it keeps the
   * key exactly if the agent's file offers it. If not, the old key is dead and the answer is the new one.
   */
  lemma RestartOutcome(c: Config, ws: seq<World>, evs: seq<Event>, m: nat, b: nat, n: nat, a: nat, r: int, k: string)
    requires CollisionFree(c) && WorldRun(c, ws, evs) && m <= b < n < |evs| && WorldInv(c, ws[m])
    requires a in ws[m].agents && Current(c, ws[m].h, ws[m].agents[a].e, r, k)
    requires Undisturbed(evs, m, n, a, ws[m].agents[a].e, r)
    requires evs[b] == Boot(a) && evs[n].Serve? && evs[n].req.rid == ws[b].next
    requires Register(ws[n].h.table, evs[n].p, evs[n].now).result.Success?
    ensures var reg := Register(ws[n].h.table, evs[n].p, evs[n].now).result.value;
            var e := ws[m].agents[a].e;
            && reg.node.id == r && (reg.reused <==> OldKey(ws[m].agents[a].disk) == Success(k))
            && Current(c, ws[n + 1].h, e, r, reg.nodeKey) && Lookup(ws[n + 1].h.table, e) == Some(r)
            && ws[n + 1].h.table.rows.Keys == ws[n].h.table.rows.Keys
            && (!reg.reused ==> MatchesNothing(c, ws[n + 1].h, k))
  {
    hide Step, WorldInv, Inv, Current, Away, OldKey, Enabled, MatchesNothing;
    var e := ws[m].agents[a].e;
    FileThrough(c, ws, evs, m, b, a);
    CurrentThrough(c, ws, evs, m, b, a, e, r, k);
    CurrentThrough(c, ws, evs, m, n, a, e, r, k);
    AttemptSent(c, ws[b], evs[b], a);
    CopiesThrough(c, ws, evs, b + 1, n, ws[b].next, e, OldKey(ws[m].agents[a].disk).value);
    ServedRequest(c, ws[n], evs[n], ws[b].next, e, OldKey(ws[m].agents[a].disk).value);
    ServedAt(c, ws[n], evs[n], e, r, k);
    StepKeepsInv(c, ws[n], evs[n]);
    CurrentRow(c, ws[n + 1], e, r, Register(ws[n].h.table, evs[n].p, evs[n].now).result.value.nodeKey);
  }

  lemma ServedRequest(c: Config, w: World, ev: Event, rid: nat, e: Endpoint, offered: string)
    requires Enabled(c, w, ev) && ev.Serve? && ev.req.rid == rid && CopiesOf(w, rid, e, offered)
    ensures ev.req.e == e && ev.req.offered == offered
  {
  }

  lemma CurrentRow(c: Config, w: World, e: Endpoint, r: int, k: string)
    requires WorldInv(c, w) && Current(c, w.h, e, r, k)
    ensures Lookup(w.h.table, e) == Some(r)
  {
    LookupIs(w.h.table, e, r);
  }

  /** After the agent wrote its file, a restart keeps the row's key exactly if the settings let it be read back. */
  lemma RestartKeepsKey(c: Config, ws: seq<World>, evs: seq<Event>, j: nat, b: nat, n: nat, a: nat)
    requires CollisionFree(c) && WorldRun(c, ws, evs) && j < b < n < |evs| && WorldInv(c, ws[j])
    requires evs[j].Persist? && evs[j].a == a && a in ws[j].agents && ws[j].agents[a].phase.Received?
    requires var g := ws[j].agents[a];
             Current(c, ws[j].h, g.e, g.phase.id, g.phase.key) && Undisturbed(evs, j + 1, n, a, g.e, g.phase.id)
    requires evs[b] == Boot(a) && evs[n].Serve? && evs[n].req.rid == ws[b].next
    requires Register(ws[n].h.table, evs[n].p, evs[n].now).result.Success?
    ensures var g := ws[j].agents[a];
            var reg := Register(ws[n].h.table, evs[n].p, evs[n].now).result.value;
            && reg.node.id == g.phase.id
            && (reg.reused <==> ReadsBack(g.cfg, g.phase.id, g.phase.key, evs[j].updatedAt))
            && (!reg.reused ==> MatchesNothing(c, ws[n + 1].h, g.phase.key))
  {
    var g := ws[j].agents[a];
    WroteFile(c, ws[j], a, evs[j].updatedAt);
    StepKeepsInv(c, ws[j], evs[j]);
    hide Step, WorldInv, Current, Away, OldKey, Enabled, ReadsBack;
    RestartOutcome(c, ws, evs, j + 1, b, n, a, g.phase.id, g.phase.key);
  }

  lemma WroteFile(c: Config, w: World, a: nat, updatedAt: string)
    requires WorldInv(c, w) && Enabled(c, w, Persist(a, updatedAt))
    requires Current(c, w.h, w.agents[a].e, w.agents[a].phase.id, w.agents[a].phase.key)
    ensures var g, v := w.agents[a], Step(c, w, Persist(a, updatedAt));
            && a in v.agents && v.h == w.h && v.agents[a].e == g.e
            && (OldKey(v.agents[a].disk) == Success(g.phase.key) <==>
                ReadsBack(g.cfg, g.phase.id, g.phase.key, updatedAt))
  {
    var g := w.agents[a];
    IssuedKeyShape(c, w.h, g.phase.key);
    hide ReadsBack, OldKey, IniFields, Inv;
    WrittenKeyIsOffered(g.cfg, g.phase.id, g.phase.key, updatedAt);
  }

  // ---------------------------------------------------------------- a file that cannot be read at all

  /** The agent's file has an overlong line, and the agent is past reading it. */
  ghost predicate Stuck(w: World, a: nat) {
    && a in w.agents && OldKey(w.agents[a].disk).Failure?
    && (w.agents[a].phase.Serving? || w.agents[a].phase.Down?)
  }

  lemma StuckStep(c: Config, w: World, ev: Event, a: nat)
    requires Enabled(c, w, ev) && Stuck(w, a)
    ensures ev != Boot(a) && Stuck(Step(c, w, ev), a)
  {
    hide OldKey;
  }

  /** Such an agent never boots again, whatever happens around it. */
  lemma {:induction false} StuckForever(c: Config, ws: seq<World>, evs: seq<Event>, i: nat, j: nat, a: nat)
    requires WorldRun(c, ws, evs) && i <= j < |ws| && Stuck(ws[i], a)
    ensures Stuck(ws[j], a) && (j < |evs| ==> evs[j] != Boot(a))
    decreases j
  {
    hide Step, Enabled, Stuck;
    if i < j {
      StuckForever(c, ws, evs, i, j - 1, a);
      StuckStep(c, ws[j - 1], evs[j - 1], a);
    }
    if j < |evs| {
      StuckStep(c, ws[j], evs[j], a);
    }
  }

  /** Writing the file puts the agent there exactly if one of the entries has a line of 64 KiB. */
  lemma LongEntryIsFatal(c: Config, w: World, a: nat, updatedAt: string)
    requires Enabled(c, w, Persist(a, updatedAt))
    ensures var g := w.agents[a];
            Stuck(Step(c, w, Persist(a, updatedAt)), a) <==>
            NodeIni.Overlong(IniFields(g.cfg, g.phase.id, g.phase.key, updatedAt))
  {
    var g := w.agents[a];
    hide IniFields, NodeIni.Overlong;
    LoadFails(IniFields(g.cfg, g.phase.id, g.phase.key, updatedAt));
  }

  lemma LoadFails(fields: NodeIni.NodeState)
    ensures OldKey(Some(NodeIni.SaveText(fields))).Failure? <==> NodeIni.Overlong(fields)
  {
    NodeIni.OverlongSaved(fields);
  }

  // ---------------------------------------------------------------- a crash after the commit

  /** An agent that starts to boot while it was waiting must have crashed in between. */
  lemma {:induction false} MustHaveCrashed(c: Config, ws: seq<World>, evs: seq<Event>, i: nat, j: nat, a: nat)
    returns (x: nat)
    requires WorldRun(c, ws, evs) && i <= j < |ws| && a in ws[i].agents && !ws[i].agents[a].phase.Down?
    requires a in ws[j].agents && ws[j].agents[a].phase.Down?
    ensures i <= x < j && evs[x] == Crash(a)
    decreases j
  {
    hide Step, Enabled;
    x := j - 1;
    var w, ev := ws[j - 1], evs[j - 1];
    if ev != Crash(a) {
      StaysDown(c, w, ev, a);
      x := MustHaveCrashed(c, ws, evs, i, j - 1, a);
    }
  }

  lemma StaysDown(c: Config, w: World, ev: Event, a: nat)
    requires Enabled(c, w, ev) && ev != Crash(a) && a in Step(c, w, ev).agents && Step(c, w, ev).agents[a].phase.Down?
    ensures a in w.agents && w.agents[a].phase.Down?
  {
  }

  /**
   * At step i the center commits a new key for an attempt of an agent that never gets to write it down. It
   * must crash before it boots again at step b, and the attempt of that boot, processed at step n, finds the
   * same single row at the endpoint. Its key is rotated once more and the committed one is dead, unless the
   * file happened to contain, all along, the very key that was generated at step i.
   */
  lemma CrashRotatesSameRow(c: Config, ws: seq<World>, evs: seq<Event>, i: nat, b: nat, n: nat, a: nat) returns (x: nat)
    requires CollisionFree(c) && WorldRun(c, ws, evs) && i < b < n < |evs| && WorldInv(c, ws[i])
    requires a in ws[i].agents && ws[i].agents[a].phase.Waiting?
    requires evs[i].Serve? && evs[i].req.rid == ws[i].agents[a].phase.rid
    requires Register(ws[i].h.table, evs[i].p, evs[i].now).result.Success?
    requires var first := Register(ws[i].h.table, evs[i].p, evs[i].now).result.value;
             !first.reused && Undisturbed(evs, i + 1, n, a, ws[i].agents[a].e, first.node.id)
    requires evs[b] == Boot(a) && evs[n].Serve? && evs[n].req.rid == ws[b].next
    requires Register(ws[n].h.table, evs[n].p, evs[n].now).result.Success?
    ensures i < x < b && evs[x] == Crash(a)
    ensures var first := Register(ws[i].h.table, evs[i].p, evs[i].now).result.value;
            var again := Register(ws[n].h.table, evs[n].p, evs[n].now).result.value;
            && again.node.id == first.node.id && Lookup(ws[n + 1].h.table, ws[i].agents[a].e) == Some(first.node.id)
            && ws[n + 1].h.table.rows.Keys == ws[n].h.table.rows.Keys
            && (again.reused <==> ws[i].agents[a].phase.oldKey == evs[i].p.generateKey)
            && (!again.reused ==> MatchesNothing(c, ws[n + 1].h, first.nodeKey))
  {
    var first := Register(ws[i].h.table, evs[i].p, evs[i].now).result.value;
    Committed(c, ws[i], evs[i], a);
    StepKeepsInv(c, ws[i], evs[i]);
    CanBoot(c, ws, evs, b, a);
    hide Step, WorldInv, Inv, Current, Away, OldKey, Enabled, MatchesNothing;
    x := MustHaveCrashed(c, ws, evs, i + 1, b, a);
    RestartOutcome(c, ws, evs, i + 1, b, n, a, first.node.id, first.nodeKey);
  }

  lemma CanBoot(c: Config, ws: seq<World>, evs: seq<Event>, b: nat, a: nat)
    requires WorldRun(c, ws, evs) && b < |evs| && evs[b] == Boot(a)
    ensures a in ws[b].agents && ws[b].agents[a].phase.Down?
  {
    hide Step;
  }

  /**
   * The state right after the commit: the new key is current, the agent still waits, its file still has the
   * old offer.
   */
  lemma Committed(c: Config, w: World, ev: Event, a: nat)
    requires CollisionFree(c) && WorldInv(c, w) && Enabled(c, w, ev)
    requires a in w.agents && w.agents[a].phase.Waiting? && ev.Serve? && ev.req.rid == w.agents[a].phase.rid
    requires var result := Register(w.h.table, ev.p, ev.now).result; result.Success? && !result.value.reused
    ensures var v, reg := Step(c, w, ev), Register(w.h.table, ev.p, ev.now).result.value;
            && a in v.agents && v.agents[a].e == w.agents[a].e && v.agents[a].phase.Waiting?
            && Current(c, v.h, w.agents[a].e, reg.node.id, reg.nodeKey) && reg.nodeKey == ev.p.generateKey
            && OldKey(v.agents[a].disk) == Success(w.agents[a].phase.oldKey)
  {
    hide OldKey;
    StoreOpAdmissible(c, w, ev);
    ReplyIsCurrent(c, w.h, ev.p, ev.now);
    NewKeyReported(w.h.table, ev.p, ev.now);
  }

  lemma NewKeyReported(t: Table, p: RegisterParams, now: int)
    requires WellFormed(t) && Register(t, p, now).result.Success? && !Register(t, p, now).result.value.reused
    ensures Register(t, p, now).result.value.nodeKey == p.generateKey
  {
    RegisterOutcome(t, p, now);
  }

  // ---------------------------------------------------------------- an attempt that was overtaken

  /**
   * An agent sends an attempt (step i) and retries it (step j). The second one is processed first (step s),
   * answered, received and written down (step v); then the first one is processed after all (step x). The
   * key in the file is still the row's key exactly if the retry's offer was kept, or was the very key that
   * was generated for it. Otherwise the file now holds a dead key.
   */
  lemma OvertakenAttempt(c: Config, ws: seq<World>, evs: seq<Event>, i: nat, j: nat, s: nat, v: nat, x: nat, a: nat,
                         reg: Registration)
    requires CollisionFree(c) && WorldRun(c, ws, evs) && i < j < s < v < x < |evs| && WorldInv(c, ws[i])
    requires evs[i] == Boot(a) && evs[j] == Retry(a) && a in ws[i].agents
    requires evs[s].Serve? && evs[s].req.rid == ws[j].next && evs[x].Serve? && evs[x].req.rid == ws[i].next
    requires Register(ws[s].h.table, evs[s].p, evs[s].now).result == Success(reg)
    requires Register(ws[x].h.table, evs[x].p, evs[x].now).result.Success?
    requires a in ws[v].agents && ws[v].agents[a].phase == Received(reg.node.id, reg.nodeKey) && Writes(evs[v], a)
    requires ReadsBack(ws[v].agents[a].cfg, reg.node.id, reg.nodeKey, evs[v].updatedAt)
    requires forall t | s < t < x :: Away(evs[t], ws[i].agents[a].e, reg.node.id)
    requires forall t | i < t < x && t != v :: !Writes(evs[t], a)
    ensures a in ws[x + 1].agents && OldKey(ws[x + 1].agents[a].disk) == Success(reg.nodeKey)
    ensures var kept := KeepsKey(ws[s].h.table, evs[s].p) || evs[s].req.offered == evs[s].p.generateKey;
            && (Current(c, ws[x + 1].h, ws[i].agents[a].e, reg.node.id, reg.nodeKey) <==> kept)
            && (!kept ==> MatchesNothing(c, ws[x + 1].h, reg.nodeKey))
  {
    hide Step, WorldInv, WorldRun, Inv, Current, Away, OldKey, Enabled, MatchesNothing, KeepsKey, ReadsBack;
    hide Register, Writes;
    RunStep(c, ws, evs, s);
    RunStep(c, ws, evs, x);
    var e := ws[i].agents[a].e;
    NotAWrite(evs[i], a);
    NotAWrite(evs[x], a);
    BothOfferTheSame(c, ws, evs, i, j, s, x, a);
    RunKeepsInv(c, ws, evs, i, s);
    ServedReply(c, ws[s], evs[s]);
    StepKeepsInv(c, ws[s], evs[s]);
    FileThrough(c, ws, evs, i, v, a);
    OfferIsKept(c, ws[s], evs[s]);
    WrittenStays(c, ws, evs, s + 1, v, x, a, e, reg.node.id, reg.nodeKey);
    KeptOrDead(c, ws[x], evs[x], e, reg.node.id, reg.nodeKey);
  }

  lemma RunStep(c: Config, ws: seq<World>, evs: seq<Event>, t: nat)
    requires WorldRun(c, ws, evs) && t < |evs|
    ensures |ws| == |evs| + 1 && Enabled(c, ws[t], evs[t]) && ws[t + 1] == Step(c, ws[t], evs[t])
  {
    hide Step, Enabled;
  }

  lemma NotAWrite(ev: Event, a: nat)
    requires !ev.Persist?
    ensures !Writes(ev, a)
  {
  }

  /** What was written at step v is still in the file at step x, and until then the key is still current. */
  lemma WrittenStays(c: Config, ws: seq<World>, evs: seq<Event>, m: nat, v: nat, x: nat, a: nat,
                     e: Endpoint, r: int, k: string)
    requires CollisionFree(c) && WorldRun(c, ws, evs) && m <= v < x < |evs| && WorldInv(c, ws[m])
    requires Current(c, ws[m].h, e, r, k)
    requires a in ws[v].agents && ws[v].agents[a].e == e && ws[v].agents[a].phase == Received(r, k)
    requires Writes(evs[v], a) && ReadsBack(ws[v].agents[a].cfg, r, k, evs[v].updatedAt)
    requires (forall t | m <= t < x :: Away(evs[t], e, r)) && forall t | v < t <= x :: !Writes(evs[t], a)
    ensures WorldInv(c, ws[x]) && Current(c, ws[x].h, e, r, k)
    ensures a in ws[x + 1].agents && OldKey(ws[x + 1].agents[a].disk) == Success(k)
  {
    hide Step, WorldInv, Current, Away, OldKey, Enabled, ReadsBack, Writes;
    CurrentLater(c, ws, evs, m, v, e, r, k);
    WroteRun(c, ws, evs, v, a);
    FileThrough(c, ws, evs, v + 1, x + 1, a);
    CurrentLater(c, ws, evs, m, x, e, r, k);
  }

  lemma BothOfferTheSame(c: Config, ws: seq<World>, evs: seq<Event>, i: nat, j: nat, s: nat, x: nat, a: nat)
    requires CollisionFree(c) && WorldRun(c, ws, evs) && i < j < s < x < |evs| && WorldInv(c, ws[i])
    requires evs[i] == Boot(a) && evs[j] == Retry(a) && a in ws[i].agents
    requires evs[s].Serve? && evs[s].req.rid == ws[j].next && evs[x].Serve? && evs[x].req.rid == ws[i].next
    requires forall t | i < t < s :: !Writes(evs[t], a)
    ensures evs[s].req.e == evs[x].req.e == ws[i].agents[a].e && evs[s].req.offered == evs[x].req.offered
  {
    var e, file := ws[i].agents[a].e, ws[i].agents[a].disk;
    hide Step, WorldInv, OldKey, Enabled;
    FileThrough(c, ws, evs, i, j, a);
    Sending(c, ws, evs, i, j, s, a, file, e);
    Sending(c, ws, evs, i, i, x, a, file, e);
    ServedRequest(c, ws[s], evs[s], ws[j].next, e, OldKey(file).value);
    ServedRequest(c, ws[x], evs[x], ws[i].next, e, OldKey(file).value);
  }

  /** The reply is the offered key exactly if the offer was kept or happened to be the generated key. */
  lemma OfferIsKept(c: Config, w: World, ev: Event)
    requires CollisionFree(c) && WorldInv(c, w) && Enabled(c, w, ev)
    requires ev.Serve? && Register(w.h.table, ev.p, ev.now).result.Success?
    ensures ev.req.offered == Register(w.h.table, ev.p, ev.now).result.value.nodeKey <==>
            KeepsKey(w.h.table, ev.p) || ev.req.offered == ev.p.generateKey
  {
    ServedReply(c, w, ev);
  }

  /** A request at an endpoint whose row has key `k` leaves `k` current if it offers it, and kills it otherwise. */
  lemma KeptOrDead(c: Config, w: World, ev: Event, e: Endpoint, r: int, k: string)
    requires CollisionFree(c) && WorldInv(c, w) && Enabled(c, w, ev) && Current(c, w.h, e, r, k)
    requires ev.Serve? && ev.req.e == e && Register(w.h.table, ev.p, ev.now).result.Success?
    ensures Current(c, Step(c, w, ev).h, e, r, k) <==> ev.req.offered == k
    ensures ev.req.offered != k ==> MatchesNothing(c, Step(c, w, ev).h, k)
  {
    hide Step, WorldInv, Enabled, Register;
    ServedAt(c, w, ev, e, r, k);
    if ev.req.offered == k {
      ServedKept(c, w, ev, e, r, k);
    } else {
      DeadOrCurrent(c, Step(c, w, ev).h, e, r, k);
    }
  }

  lemma Sending(c: Config, ws: seq<World>, evs: seq<Event>, i: nat, j: nat, n: nat, a: nat, file: Option<string>,
                e: Endpoint)
    requires CollisionFree(c) && WorldRun(c, ws, evs) && i <= j < n < |evs| && WorldInv(c, ws[i])
    requires evs[j] in {Boot(a), Retry(a)}
    requires a in ws[j].agents && ws[j].agents[a].disk == file && ws[j].agents[a].e == e
    ensures OldKey(file).Success? && CopiesOf(ws[n], ws[j].next, e, OldKey(file).value)
  {
    hide Step, WorldInv, OldKey, Enabled, CopiesOf;
    RunKeepsInv(c, ws, evs, i, j);
    AttemptSent(c, ws[j], evs[j], a);
    CopiesThrough(c, ws, evs, j + 1, n, ws[j].next, e, OldKey(file).value);
  }

  lemma ServedReply(c: Config, w: World, ev: Event)
    requires CollisionFree(c) && WorldInv(c, w) && Enabled(c, w, ev)
    requires ev.Serve? && Register(w.h.table, ev.p, ev.now).result.Success?
    ensures var g, reg := Step(c, w, ev).h, Register(w.h.table, ev.p, ev.now).result.value;
            && Current(c, g, ev.req.e, reg.node.id, reg.nodeKey)
            && reg.nodeKey == (if KeepsKey(w.h.table, ev.p) then ev.req.offered else ev.p.generateKey)
  {
    StoreOpAdmissible(c, w, ev);
    ReplyIsCurrent(c, w.h, ev.p, ev.now);
    RegisterOutcome(w.h.table, ev.p, ev.now);
  }

  lemma CurrentLater(c: Config, ws: seq<World>, evs: seq<Event>, i: nat, j: nat, e: Endpoint, r: int, k: string)
    requires CollisionFree(c) && WorldRun(c, ws, evs) && i <= j < |ws| && WorldInv(c, ws[i])
    requires Current(c, ws[i].h, e, r, k)
    requires forall t | i <= t < j :: Away(evs[t], e, r)
    ensures WorldInv(c, ws[j]) && Current(c, ws[j].h, e, r, k)
    decreases j
  {
    hide Step, WorldInv, Current, Away;
    if i < j {
      CurrentLater(c, ws, evs, i, j - 1, e, r, k);
      StepKeepsInv(c, ws[j - 1], evs[j - 1]);
      CurrentStep(c, ws[j - 1], evs[j - 1], e, r, k);
    }
  }

  lemma WroteRun(c: Config, ws: seq<World>, evs: seq<Event>, v: nat, a: nat)
    requires WorldRun(c, ws, evs) && v < |evs| && WorldInv(c, ws[v]) && Writes(evs[v], a)
    requires a in ws[v].agents && ws[v].agents[a].phase.Received?
    requires var g := ws[v].agents[a];
             && Current(c, ws[v].h, g.e, g.phase.id, g.phase.key)
             && ReadsBack(g.cfg, g.phase.id, g.phase.key, evs[v].updatedAt)
    ensures a in ws[v + 1].agents && OldKey(ws[v + 1].agents[a].disk) == Success(ws[v].agents[a].phase.key)
  {
    hide OldKey, ReadsBack, Current, WorldInv, Step;
    WroteFile(c, ws[v], a, evs[v].updatedAt);
  }

  lemma DeadOrCurrent(c: Config, h: History, e: Endpoint, r: int, k: string)
    requires MatchesNothing(c, h, k)
    ensures !Current(c, h, e, r, k)
  {
  }

  lemma ServedKept(c: Config, w: World, ev: Event, e: Endpoint, r: int, k: string)
    requires CollisionFree(c) && WorldInv(c, w) && Enabled(c, w, ev) && Current(c, w.h, e, r, k)
    requires ev.Serve? && ev.req.e == e && ev.req.offered == k && Register(w.h.table, ev.p, ev.now).result.Success?
    ensures Current(c, Step(c, w, ev).h, e, r, k)
  {
    ServedAt(c, w, ev, e, r, k);
    IssuedKeyShape(c, w.h, k);
    RegisterOutcome(w.h.table, ev.p, ev.now);
  }
}
