/**
 * The Python center: registration and node administration over ORM row objects whose attributes are assigned
 * in place.
 */
module PyRegister {
  import opened Wrappers
  import opened NodeTable

  datatype PyError = MultipleResults | Raised(error: StoreError)

  /** A row whose attributes all kept their values keeps its timestamp too. */
  function Committed(loaded: Node, wanted: Node): Node {
    if wanted.(updatedAt := loaded.updatedAt) == loaded then loaded else wanted
  }

  /** A failed check leaves the last latency as it was; the Go center clears it. */
  function PyHealthNoted(n: Node, h: Health): Node {
    if h.markSeen then HealthNoted(n, h) else n.(lastStatus := h.status, lastError := h.error, updatedAt := h.now)
  }

  /** The row before and after a health result, column by column. */
  predicate PyHealthWritten(was: Node, n: Node, h: Health) {
    && n.lastStatus == h.status && n.lastError == h.error
    && (if h.markSeen then n.lastLatencyMs == h.latencyMs && n.lastSeenAt == Some(h.now)
        else n.lastLatencyMs == was.lastLatencyMs && n.lastSeenAt == was.lastSeenAt)
    && (n == was || n.updatedAt == h.now)
    && n.(lastStatus := was.lastStatus, lastLatencyMs := was.lastLatencyMs, lastError := was.lastError,
          updatedAt := was.updatedAt, lastSeenAt := was.lastSeenAt) == was
  }

  /** A mapped row object; what is never assigned is constant here. */
  class Row {
    const id: int
    const endpoint: Endpoint
    const createdAt: int
    var lastSeenAt: Option<int>
    var lastStatus: string
    var lastLatencyMs: Option<real>
    var lastError: Option<string>
    var name: string
    var protocol: string
    var nodeKeyHash: string
    var keyFingerprint: string
    var nodeKeySealed: Option<string>
    var nodeMetadata: Option<string>
    var enabled: bool
    var updatedAt: int

    function View(): Node
      reads this
    {
      Node(id, name, endpoint, protocol, nodeKeyHash, keyFingerprint, nodeKeySealed, nodeMetadata, enabled,
           createdAt, updatedAt, lastSeenAt, lastStatus, lastLatencyMs, lastError)
    }

    constructor (n: Node)
      ensures View() == n
    {
      id, endpoint, createdAt := n.id, n.endpoint, n.createdAt;
      name, protocol, nodeKeyHash, keyFingerprint := n.name, n.protocol, n.nodeKeyHash, n.keyFingerprint;
      nodeKeySealed, nodeMetadata, enabled, updatedAt := n.nodeKeySealed, n.metadataJson, n.enabled, n.updatedAt;
      lastSeenAt, lastStatus, lastLatencyMs, lastError := n.lastSeenAt, n.lastStatus, n.lastLatencyMs, n.lastError;
    }

    /** A matching row: new description, same key. */
    method Redescribe(p: RegisterParams, now: int)
      modifies this
      ensures View() == Committed(old(View()), KeyKept(old(View()), p, now))
    {
      var loaded := View();
      name := p.name;
      protocol := p.protocol;
      nodeMetadata := p.metadataJson;
      enabled := true;
      Commit(loaded, now);
    }

    /** A row that exists but whose key was not offered: new description and new key. */
    method Rekey(p: RegisterParams, nodeHash: string, fingerprint: string, sealed: Option<string>, now: int)
      requires nodeHash == p.hashKey(p.generateKey) && fingerprint == p.fingerprint(p.generateKey)
      modifies this
      ensures View() == Committed(old(View()), KeyRotated(old(View()), p, sealed, now))
    {
      var loaded := View();
      name := p.name;
      protocol := p.protocol;
      nodeKeyHash := nodeHash;
      keyFingerprint := fingerprint;
      nodeKeySealed := sealed;
      nodeMetadata := p.metadataJson;
      enabled := true;
      assert View() == KeyRotated(loaded, p, sealed, now).(updatedAt := loaded.updatedAt);
      hide KeyRotated, KeyKept;
      Commit(loaded, now);
    }

    /** Enabling or disabling. */
    method Switch(on: bool, now: int)
      modifies this
      ensures View() == Committed(old(View()), EnabledSet(old(View()), on, now))
      ensures View().enabled == on && View().updatedAt == (if on == old(enabled) then old(updatedAt) else now)
      ensures View().(enabled := old(enabled), updatedAt := old(updatedAt)) == old(View())
    {
      var loaded := View();
      enabled := on;
      Commit(loaded, now);
    }

    /** The result of a health check or speed test. */
    method NoteHealth(h: Health)
      modifies this
      ensures View() == Committed(old(View()), PyHealthNoted(old(View()), h))
      ensures PyHealthWritten(old(View()), View(), h)
    {
      var loaded := View();
      lastStatus := h.status;
      lastError := h.error;
      if h.markSeen {
        lastLatencyMs := h.latencyMs;
        lastSeenAt := Some(h.now);
      }
      Commit(loaded, h.now);
    }

    /** commit: an UPDATE, with its onupdate timestamp, goes out only if some attribute really changed. */
    method Commit(loaded: Node, now: int)
      modifies this`updatedAt
      ensures View() == if old(View()) == loaded then loaded else old(View()).(updatedAt := now)
    {
      if View() != loaded {
        updatedAt := now;
      }
    }
  }

  /** What this implementation does: `Register`, up to the timestamp of a row in which nothing changed. */
  ghost function PyOutcome(t: Table, p: RegisterParams, now: int): Outcome {
    var o := Register(t, p, now);
    if o.result.Failure? || o.result.value.node.id !in t.rows then o
    else
      var id := o.result.value.node.id;
      var n := Committed(t.rows[id], o.result.value.node);
      Outcome(Update(t, id, n), Success(o.result.value.(node := n)))
  }

  /** The table after one operation of the Python center. */
  ghost function PyApply(t: Table, op: Op): Table {
    match op
    case Registering(p, now) => PyOutcome(t, p, now).table
    case Deleting(id) => t.(rows := t.rows - {id})
    case SettingEnabled(id, enabled, now) =>
      if id in t.rows then Update(t, id, Committed(t.rows[id], EnabledSet(t.rows[id], enabled, now))) else t
    case NotingHealth(id, h) =>
      if id in t.rows then Update(t, id, Committed(t.rows[id], PyHealthNoted(t.rows[id], h))) else t
  }

  /** The two implementations give the same reply and, timestamps of untouched rows aside, the same table. */
  lemma SameTransition(t: Table, p: RegisterParams, now: int)
    requires WellFormed(t)
    ensures var go, py := Register(t, p, now), PyOutcome(t, p, now);
            && go.table.nextId == py.table.nextId && go.table.rows.Keys == py.table.rows.Keys
            && (forall id | id in go.table.rows ::
                  go.table.rows[id].(updatedAt := 0) == py.table.rows[id].(updatedAt := 0))
            && (match (go.result, py.result)
                case (Success(a), Success(b)) =>
                  a.nodeKey == b.nodeKey && a.reused == b.reused && a.node.id == b.node.id
                case (Failure(e), Failure(f)) => e == f
                case _ => false)
  {
    if Register(t, p, now).result.Success? {
      RegisterOutcome(t, p, now);
    }
  }

  lemma UpdateWellFormed(t: Table, id: int, n: Node)
    requires WellFormed(t) && id in t.rows && SameIdentity(t.rows[id], n)
    ensures WellFormed(Update(t, id, n))
  {
  }

  lemma IdsBelow(t: Table)
    requires WellFormed(t)
    ensures forall id | id in t.rows :: id < t.nextId
  {
  }

  lemma InsertWellFormed(t: Table, n: Node)
    requires WellFormed(t) && n.id == t.nextId && Lookup(t, n.endpoint).None?
    ensures WellFormed(Table(t.rows[n.id := n], t.nextId + 1))
  {
    assert forall id | id in t.rows && t.rows[id].endpoint == n.endpoint :: IsRowAt(t, n.endpoint, id);
  }

  lemma ShrunkWellFormed(t: Table, id: int)
    requires WellFormed(t)
    ensures WellFormed(t.(rows := t.rows - {id}))
  {
  }

  lemma KeptOffers(t: Table, p: RegisterParams)
    ensures KeepsKey(t, p) ==> Offers(p)
  {
  }

  lemma OutcomeKept(t: Table, p: RegisterParams, now: int)
    requires WellFormed(t) && KeepsKey(t, p)
    ensures var id := Lookup(t, p.endpoint).value;
            var n := Committed(t.rows[id], KeyKept(t.rows[id], p, now));
            PyOutcome(t, p, now) == Outcome(Update(t, id, n), Success(Registration(n, p.existingNodeKey.value, true)))
  {
  }

  lemma OutcomeAnew(t: Table, p: RegisterParams, now: int)
    requires WellFormed(t) && !KeepsKey(t, p) && p.sealKey(p.generateKey).Success?
    ensures PyOutcome(t, p, now) ==
            match Lookup(t, p.endpoint)
            case None =>
              var n := NewNode(t.nextId, p, p.sealKey(p.generateKey).value, now);
              Outcome(Table(t.rows[t.nextId := n], t.nextId + 1), Success(Registration(n, p.generateKey, false)))
            case Some(id) =>
              var n := Committed(t.rows[id], KeyRotated(t.rows[id], p, p.sealKey(p.generateKey).value, now));
              Outcome(Update(t, id, n), Success(Registration(n, p.generateKey, false)))
  {
  }

  /** A registered row has the new timestamp, unless nothing else in it changed. */
  lemma PyTimestamp(t: Table, p: RegisterParams, now: int, id: int)
    requires WellFormed(t) && id in t.rows && t.rows[id].endpoint == p.endpoint
    requires Register(t, p, now).result.Success?
    ensures var was, n := t.rows[id], PyOutcome(t, p, now).table.rows[id];
            n.updatedAt == if n.(updatedAt := was.updatedAt) == was then was.updatedAt else now
  {
    LookupIs(t, p.endpoint, id);
    RegisterOutcome(t, p, now);
    RegisterDescribes(t, p, now);
    hide Register;
  }

  /** Rows that an operation does not name stay exactly as they are in the Python center too. */
  lemma PyApplyFrame(t: Table, op: Op, id: int)
    requires WellFormed(t) && id in t.rows
    requires match op
             case Registering(p, _) => p.endpoint != t.rows[id].endpoint
             case Deleting(gone) => gone != id
             case SettingEnabled(other, _, _) => other != id
             case NotingHealth(other, _) => other != id
    ensures id in PyApply(t, op).rows && PyApply(t, op).rows[id] == t.rows[id]
  {
    if op.Registering? && Register(t, op.p, op.now).result.Success? {
      RegisterOutcome(t, op.p, op.now);
      ApplyFrame(t, op, id);
    }
  }

  /** What enabling, disabling and health results write, column by column. */
  lemma PyApplyWrites(t: Table, op: Op)
    requires (op.SettingEnabled? || op.NotingHealth?) && op.id in t.rows
    ensures var was, n := t.rows[op.id], PyApply(t, op).rows[op.id];
            match op
            case SettingEnabled(_, enabled, now) =>
              && n.enabled == enabled && n.updatedAt == (if enabled == was.enabled then was.updatedAt else now)
              && n.(enabled := was.enabled, updatedAt := was.updatedAt) == was
            case NotingHealth(_, h) => PyHealthWritten(was, n, h)
            case _ => true
  {
  }

  class Session {
    var rows: set<Row>
    var nextId: int

    ghost predicate OneObjectPerId()
      reads this, rows
    {
      forall a, b | a in rows && b in rows && a.id == b.id :: a == b
    }

    ghost function Abs(): Table
      requires OneObjectPerId()
      reads this, rows
    {
      Table(map row | row in rows :: row.id := row.View(), nextId)
    }

    ghost predicate Valid()
      reads this, rows
    {
      OneObjectPerId() && WellFormed(Abs())
    }

    constructor ()
      ensures Valid() && Abs() == Table(map[], 1)
    {
      rows, nextId := {}, 1;
    }

    /** query(...).one_or_none() on the rows that satisfy the filter. */
    method OneOrNone(found: set<Row>) returns (r: Result<Option<Row>, PyError>)
      ensures match r
              case Success(None) => found == {}
              case Success(Some(row)) => found == {row}
              case Failure(e) => e == MultipleResults && exists i, j :: i in found && j in found && i != j
    {
      if found == {} {
        return Success(None);
      }
      var row :| row in found;
      var others := found - {row};
      assert found == others + {row};
      if others == {} {
        r := Success(Some(row));
      } else {
        ghost var other :| other in others;
        r := Failure(MultipleResults);
      }
    }

    /** Changing one row object changes that row of the table and no other. */
    twostate lemma OneRowChanged(row: Row)
      requires old(Valid()) && unchanged(this) && row in rows
      requires forall other | other in rows && other != row :: unchanged(other)
      ensures Valid() && Abs() == Update(old(Abs()), row.id, row.View())
    {
      forall other | other in rows && other != row ensures other.View() == old(other.View()) {
      }
      assert Abs().rows == old(Abs()).rows[row.id := row.View()];
      UpdateWellFormed(old(Abs()), row.id, row.View());
    }

    lemma RowsInTable()
      requires OneObjectPerId()
      ensures forall row | row in rows :: row.id in Abs().rows && Abs().rows[row.id] == row.View()
      ensures forall id | id in Abs().rows :: exists row :: row in rows && row.id == id
    {
    }

    /** db.add of a new row object. */
    method Add(n: Node) returns (row: Row)
      requires Valid() && n.id == nextId && Lookup(Abs(), n.endpoint).None?
      modifies this
      ensures Valid() && row.View() == n && row in rows
      ensures Abs() == Table(old(Abs()).rows[n.id := n], old(nextId) + 1)
    {
      hide WellFormed;
      RowsInTable();
      IdsBelow(Abs());
      InsertWellFormed(Abs(), n);
      assert forall other | other in rows :: other.id < n.id;
      row := new Row(n);
      rows := rows + {row};
      nextId := nextId + 1;
      TableGrew(row);
    }

    twostate lemma TableGrew(new row: Row)
      requires old(OneObjectPerId()) && forall other | other in old(rows) :: old(allocated(other)) && other.id < row.id
      requires rows == old(rows) + {row} && unchanged(old(rows)) && row !in old(rows)
      ensures OneObjectPerId() && Abs() == Table(old(Abs()).rows[row.id := row.View()], nextId)
    {
      forall other | other in old(rows) ensures other.View() == old(other.View()) {
      }
    }

    /** The UNIQUE constraint leaves at most one row at an endpoint, so this query cannot raise. */
    method Query(e: Endpoint) returns (r: Option<Row>)
      requires Valid()
      ensures Lookup(Abs(), e) == match r case None => None case Some(row) => Some(row.id)
      ensures r.Some? ==> r.value in rows
    {
      var found := set row | row in rows && row.endpoint == e;
      ghost var t := Abs();
      assert forall row | row in rows :: row.id in t.rows && t.rows[row.id] == row.View();
      assert forall row | row in found :: IsRowAt(t, e, row.id);
      assert forall a, b | a in found && b in found :: a == b;
      var row := OneOrNone(found);
      r := row.value;
      assert forall id | IsRowAt(t, e, id) :: exists row :: row in found && row.id == id;
    }

    method QueryHash(hash: string) returns (r: Result<Option<Row>, PyError>)
      requires Valid()
      ensures match r
              case Success(None) => forall row | row in rows :: row.nodeKeyHash != hash
              case Success(Some(row)) => row in rows && row.nodeKeyHash == hash
              case Failure(e) => e == MultipleResults && !UniqueHashes(Abs())
    {
      var found := set row | row in rows && row.nodeKeyHash == hash;
      assert forall row | row in rows && row.nodeKeyHash == hash :: row in found;
      r := OneOrNone(found);
      if r.Failure? {
        ghost var i, j :| i in found && j in found && i != j;
        assert Abs().rows[i.id].nodeKeyHash == Abs().rows[j.id].nodeKeyHash;
      }
    }

    /** The owner/target id test is the hash comparison of `KeepsKey`. */
    lemma OwnerDecides(p: RegisterParams, owner: Option<Row>, target: Option<Row>)
      requires Valid() && Offers(p)
      requires match target
               case None => Lookup(Abs(), p.endpoint) == None
               case Some(row) => row in rows && Lookup(Abs(), p.endpoint) == Some(row.id)
      requires match owner
               case None => forall row | row in rows :: row.nodeKeyHash != p.hashKey(p.existingNodeKey.value)
               case Some(row) => row in rows && row.nodeKeyHash == p.hashKey(p.existingNodeKey.value)
      ensures owner.Some? && target.Some? && owner.value.id == target.value.id ==> KeepsKey(Abs(), p) && owner == target
      ensures UniqueHashes(Abs()) && KeepsKey(Abs(), p) ==>
                owner.Some? && target.Some? && owner.value.id == target.value.id
    {
      RowsInTable();
    }

    twostate lemma TableShrank(row: Row)
      requires old(Valid()) && row in old(rows) && rows == old(rows) - {row} && nextId == old(nextId)
      requires unchanged(old(rows))
      ensures Valid() && Abs() == PyApply(old(Abs()), Deleting(row.id))
    {
      hide WellFormed, PyOutcome;
      forall other | other in rows ensures other.View() == old(other.View()) && other.id != row.id {
      }
      assert Abs().rows == old(Abs()).rows - {row.id};
      ShrunkWellFormed(old(Abs()), row.id);
    }

    /** db.get: the row object with this id. */
    method GetRow(id: int) returns (r: Option<Row>)
      requires Valid()
      ensures r.None? ==> id !in Abs().rows
      ensures r.Some? ==> r.value in rows && r.value.id == id && id in Abs().rows
    {
      RowsInTable();
      var found := set row | row in rows && row.id == id;
      assert forall row | row in rows && row.id == id :: row in found;
      if found == {} {
        return None;
      }
      var row :| row in found;
      r := Some(row);
    }

    method SetEnabled(id: int, enabled: bool, now: int) returns (found: bool)
      requires Valid()
      modifies this, rows
      ensures Valid() && Abs() == PyApply(old(Abs()), SettingEnabled(id, enabled, now))
      ensures found <==> id in old(Abs()).rows
    {
      hide WellFormed, Committed, EnabledSet, Update, PyOutcome;
      var node := GetRow(id);
      if node.None? {
        return false;
      }
      RowsInTable();
      node.value.Switch(enabled, now);
      OneRowChanged(node.value);
      found := true;
    }

    method NoteHealth(id: int, h: Health) returns (found: bool)
      requires Valid()
      modifies this, rows
      ensures Valid() && Abs() == PyApply(old(Abs()), NotingHealth(id, h))
      ensures found <==> id in old(Abs()).rows
      ensures found ==> id in Abs().rows && PyHealthWritten(old(Abs()).rows[id], Abs().rows[id], h)
    {
      hide WellFormed, Committed, PyHealthNoted, Update, PyOutcome;
      var node := GetRow(id);
      if node.None? {
        return false;
      }
      RowsInTable();
      node.value.NoteHealth(h);
      OneRowChanged(node.value);
      found := true;
    }

    method Delete(id: int) returns (found: bool)
      requires Valid()
      modifies this
      ensures Valid() && Abs() == PyApply(old(Abs()), Deleting(id))
      ensures found <==> id in old(Abs()).rows
    {
      var node := GetRow(id);
      if node.None? {
        assert Abs().rows - {id} == Abs().rows;
        return false;
      }
      RowsInTable();
      rows := rows - {node.value};
      TableShrank(node.value);
      found := true;
    }

    /** The first half: the offered key is the row's key and is kept. */
    method Reuse(p: RegisterParams, target: Row, now: int)
      requires Valid() && target in rows && Lookup(Abs(), p.endpoint) == Some(target.id) && KeepsKey(Abs(), p)
      modifies rows
      ensures Valid() && Agrees(Success((target, p.existingNodeKey.value, true)), PyOutcome(old(Abs()), p, now))
    {
      RowsInTable();
      OutcomeKept(Abs(), p, now);
      target.Redescribe(p, now);
      OneRowChanged(target);
    }

    method RegisterOrReuse(p: RegisterParams, now: int) returns (r: Result<(Row, string, bool), PyError>)
      requires Valid()
      modifies this, rows
      ensures Valid()
      ensures UniqueHashes(old(Abs())) ==> Agrees(r, PyOutcome(old(Abs()), p, now))
      ensures r == Failure(MultipleResults) ==> Abs() == old(Abs())
    {
      hide PyOutcome, Register, WellFormed, KeepsKey, UniqueHashes, Lookup;
      KeptOffers(Abs(), p);
      var target := Query(p.endpoint);
      if p.existingNodeKey.Some? && p.existingNodeKey.value != "" {
        var owner :- QueryHash(p.hashKey(p.existingNodeKey.value));
        OwnerDecides(p, owner, target);
        if owner.Some? && target.Some? && owner.value.id == target.value.id {
          Reuse(p, target.value, now);
          return Success((target.value, p.existingNodeKey.value, true));
        }
      }
      r := Issue(p, target, now);
    }

    /** The second half: generate a key, then create the row or rotate its key. */
    method Issue(p: RegisterParams, target: Option<Row>, now: int) returns (r: Result<(Row, string, bool), PyError>)
      requires Valid() && (target.Some? ==> target.value in rows)
      requires Lookup(Abs(), p.endpoint) == match target case None => None case Some(row) => Some(row.id)
      modifies this, rows
      ensures Valid() && r != Failure(MultipleResults)
      ensures !KeepsKey(old(Abs()), p) ==> Agrees(r, PyOutcome(old(Abs()), p, now))
    {
      var nodeKey := p.generateKey;
      var nodeHash, fingerprint := p.hashKey(nodeKey), p.fingerprint(nodeKey);
      var sealing := p.sealKey(nodeKey);
      if sealing.Failure? {
        return Failure(Raised(sealing.error));
      }
      ghost var t := Abs();
      RowsInTable();

      if target.None? {
        var row := Add(Node(nextId, p.name, p.endpoint, p.protocol, nodeHash, fingerprint, sealing.value,
                            p.metadataJson, true, now, now, None, "unknown", None, None));
        r := Success((row, nodeKey, false));
      } else {
        target.value.Rekey(p, nodeHash, fingerprint, sealing.value, now);
        OneRowChanged(target.value);
        r := Success((target.value, nodeKey, false));
      }
      if !KeepsKey(t, p) {
        OutcomeAnew(t, p, now);
      }
    }

    /** The reply and the current table are those of `o`; MultipleResultsFound is no outcome. */
    ghost predicate Agrees(r: Result<(Row, string, bool), PyError>, o: Outcome)
      requires OneObjectPerId()
      reads this, rows, if r.Success? then {r.value.0} else {}
    {
      match r
      case Success((row, key, reused)) => Outcome(Abs(), Success(Registration(row.View(), key, reused))) == o
      case Failure(Raised(e)) => Outcome(Abs(), Failure(e)) == o
      case Failure(MultipleResults) => false
    }
  }
}
