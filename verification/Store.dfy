/** internal/store/store.go: the store object, each public method one atomic step under its mutex. */
module Store {
  import opened Wrappers
  import opened NodeTable

  class NodeStore {
    var rows: map<int, Node>
    var nextId: int

    ghost function Abs(): Table
      reads this
    {
      Table(rows, nextId)
    }

    ghost predicate Valid()
      reads this
    {
      WellFormed(Abs())
    }

    constructor ()
      ensures Valid() && Abs() == Table(map[], 1)
    {
      rows, nextId := map[], 1;
    }

    method Get(id: int) returns (r: Result<Node, StoreError>)
      ensures r == if id in rows then Success(rows[id]) else Failure(NotFound)
    {
      r := if id in rows then Success(rows[id]) else Failure(NotFound);
    }

    method FindByAddressPort(e: Endpoint) returns (r: Option<Node>)
      requires Valid()
      ensures r == match Lookup(Abs(), e) case None => None case Some(id) => Some(rows[id])
    {
      if id :| id in rows && rows[id].endpoint == e {
        LookupIs(Abs(), e, id);
        r := Some(rows[id]);
      } else {
        assert forall id :: !IsRowAt(Abs(), e, id);
        r := None;
      }
    }

    /** Any row with the hash may be the one that the query returns first. */
    method FindByKeyHash(hash: string) returns (r: Option<Node>)
      requires Valid()
      ensures r.Some? ==> r.value.id in rows && rows[r.value.id] == r.value && r.value.nodeKeyHash == hash
      ensures r.None? ==> forall id | id in rows :: rows[id].nodeKeyHash != hash
    {
      if id :| id in rows && rows[id].nodeKeyHash == hash {
        r := Some(rows[id]);
      } else {
        r := None;
      }
    }

    /** INSERT: refused when the endpoint is taken, otherwise assigns the next id. */
    method InsertRow(n: Node) returns (r: Result<int, StoreError>)
      requires Valid()
      modifies this
      ensures old(Lookup(Abs(), n.endpoint)).Some? ==> r == Failure(UniqueViolation) && Abs() == old(Abs())
      ensures old(Lookup(Abs(), n.endpoint)).None? ==>
                && r == Success(old(nextId))
                && Abs() == Table(old(rows)[old(nextId) := n.(id := old(nextId))], old(nextId) + 1)
    {
      var taken := FindByAddressPort(n.endpoint);
      if taken.Some? {
        return Failure(UniqueViolation);
      }
      r := Success(nextId);
      rows := rows[nextId := n.(id := nextId)];
      nextId := nextId + 1;
    }

    /** UPDATE ... WHERE id: the number of rows affected. */
    method UpdateRow(id: int, n: Node) returns (affected: nat)
      modifies this
      ensures affected == if id in old(rows) then 1 else 0
      ensures Abs() == if id in old(rows) then Update(old(Abs()), id, n) else old(Abs())
    {
      if id !in rows {
        return 0;
      }
      rows := rows[id := n];
      affected := 1;
    }

    method SetEnabled(id: int, enabled: bool, now: int) returns (r: Result<Node, StoreError>)
      requires Valid()
      modifies this
      ensures Valid() && Abs() == Apply(old(Abs()), SettingEnabled(id, enabled, now))
      ensures r == if id in old(rows) then Success(rows[id]) else Failure(NotFound)
      ensures id in old(rows) ==>
                && rows[id].enabled == enabled && rows[id].updatedAt == now
                && rows[id].(enabled := old(rows)[id].enabled, updatedAt := old(rows)[id].updatedAt) == old(rows)[id]
    {
      ApplyWellFormed(Abs(), SettingEnabled(id, enabled, now));
      var node :- Get(id);
      var _ := UpdateRow(id, node.(enabled := enabled, updatedAt := now));
      r := Get(id);
    }

    method Delete(id: int) returns (r: Result<(), StoreError>)
      requires Valid()
      modifies this
      ensures Valid() && Abs() == Apply(old(Abs()), Deleting(id)) && rows == old(rows) - {id} && nextId == old(nextId)
      ensures r == if id in old(rows) then Success(()) else Failure(NotFound)
    {
      ApplyWellFormed(Abs(), Deleting(id));
      var found := Get(id);
      if found.Failure? {
        assert rows - {id} == rows;
        return Failure(found.error);
      }
      rows := rows - {id};
      r := Success(());
    }

    method UpdateHealthResult(id: int, h: Health) returns (r: Result<(), StoreError>)
      requires Valid()
      modifies this
      ensures Valid() && Abs() == Apply(old(Abs()), NotingHealth(id, h))
      ensures id in old(rows) ==>
                var was, n := old(rows)[id], rows[id];
                && n.lastStatus == h.status && n.lastLatencyMs == h.latencyMs && n.lastError == h.error
                && n.updatedAt == h.now && n.lastSeenAt == (if h.markSeen then Some(h.now) else was.lastSeenAt)
                && n.(lastStatus := was.lastStatus, lastLatencyMs := was.lastLatencyMs, lastError := was.lastError,
                      updatedAt := was.updatedAt, lastSeenAt := was.lastSeenAt) == was
      ensures forall other | other in old(rows) && other != id :: other in rows && rows[other] == old(rows)[other]
      ensures r == if id in old(rows) then Success(()) else Failure(NotFound)
    {
      ApplyWellFormed(Abs(), NotingHealth(id, h));
      if id !in rows {
        return Failure(NotFound);
      }
      var row := rows[id].(lastStatus := h.status, lastLatencyMs := h.latencyMs, lastError := h.error,
                               updatedAt := h.now);
      if h.markSeen {
        row := row.(lastSeenAt := Some(h.now));
      }
      var _ := UpdateRow(id, row);
      r := Success(());
    }

    /**
     * The two lookups amount to the single comparison of `Register`, and the insert never meets the
     * UNIQUE constraint. Only if some two rows shared a hash could the owner lookup return the wrong
     * row and rotate a key that should have been kept.
     */
    method RegisterOrReuse(p: RegisterParams, now: int) returns (r: Result<Registration, StoreError>)
      requires Valid()
      modifies this
      ensures Valid()
      ensures UniqueHashes(old(Abs())) ==> Outcome(Abs(), r) == Register(old(Abs()), p, now)
      ensures Outcome(Abs(), r) == Register(old(Abs()), p, now) || Outcome(Abs(), r) == RegisterAnew(old(Abs()), p, now)
    {
      ApplyWellFormed(Abs(), Registering(p, now));
      ApplyWellFormed(Abs(), Registering(p.(existingNodeKey := None), now));
      var target := FindByAddressPort(p.endpoint);

      if p.existingNodeKey.Some? && p.existingNodeKey.value != "" {
        var owner := FindByKeyHash(p.hashKey(p.existingNodeKey.value));
        if owner.Some? && target.Some? && owner.value.id == target.value.id {
          var kept := target.value.(name := p.name, protocol := p.protocol, metadataJson := p.metadataJson,
                                    enabled := true, updatedAt := now);
          var _ := UpdateRow(target.value.id, kept);
          return Success(Registration(kept, p.existingNodeKey.value, true));
        }
      }

      var newKey := p.generateKey;
      var hash := p.hashKey(newKey);
      var fingerprint := p.fingerprint(newKey);
      var sealed :- p.sealKey(newKey);

      if target.None? {
        var row := Node(0, p.name, p.endpoint, p.protocol, hash, fingerprint, sealed, p.metadataJson, true, now, now,
                        None, "unknown", None, None);
        var id := InsertRow(row);
        return Success(Registration(rows[id.value], newKey, false));
      }

      var rotated := target.value.(name := p.name, protocol := p.protocol, metadataJson := p.metadataJson,
                                   nodeKeyHash := hash, keyFingerprint := fingerprint, nodeKeySealed := sealed,
                                   enabled := true, updatedAt := now);
      var _ := UpdateRow(target.value.id, rotated);
      r := Success(Registration(rotated, newKey, false));
    }
  }
}
