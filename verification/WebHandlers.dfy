/** cmd/web: registration requests, the choice of a node key, and handlers that read first and write later. */
module WebHandlers {
  import opened Wrappers
  import opened NodeTable
  import opened Store
  import opened KeyLifecycle
  import Protocol
  import Text

  type Status = int

  datatype RegisterRequest = RegisterRequest(
    name: string,
    protocol: string,
    metadata: Option<string>,
    existingNodeKey: Option<string>)

  datatype Settings = Settings(
    hashKey: string -> string,
    fingerprint: string -> string,
    storeSealed: bool,
    seal: string -> Result<string, StoreError>,
    unseal: string -> Option<string>)

  datatype RegisterReply = RegisterReply(id: int, nodeKey: string, reused: bool)

  /** The closure handed to the store: no copy at all, or the key sealed under SECRET_KEY. */
  function SealKey(s: Settings): string -> Result<Option<string>, StoreError> {
    (key: string) =>
      if !s.storeSealed then Success(None)
      else match s.seal(key)
        case Success(sealed) => Success(Some(sealed))
        case Failure(e) => Failure(e)
  }

  /** The parameters of one accepted request; only self-registration passes the old key on. */
  function Params(s: Settings, req: RegisterRequest, auto: bool, resolved: (Endpoint, string),
                  newKey: string): RegisterParams {
    RegisterParams(req.name, resolved.0, resolved.1, req.metadata,
                   if auto && req.existingNodeKey != Some("") then req.existingNodeKey else None,
                   newKey, s.hashKey, s.fingerprint, SealKey(s))
  }

  /** The key that a request offers and the row it must belong to: self-registration at the row's own endpoint. */
  predicate OffersRowKey(t: Table, s: Settings, req: RegisterRequest, auto: bool, e: Endpoint, id: int) {
    && auto && req.existingNodeKey.Some? && req.existingNodeKey.value != ""
    && id in t.rows && t.rows[id].endpoint == e && t.rows[id].nodeKeyHash == s.hashKey(req.existingNodeKey.value)
  }

  /**
   * What an accepted registration at endpoint `e` answers and stores: the row's own key if it was offered,
   * a new key otherwise; the description in both cases; nothing at other endpoints; and an error only if
   * sealing a new key fails.
   */
  ghost predicate Answered(t: Table, u: Table, s: Settings, req: RegisterRequest, auto: bool, e: Endpoint,
                           protocol: string, newKey: string, r: Result<RegisterReply, Status>) {
    && (forall id | OffersRowKey(t, s, req, auto, e, id) ::
          r == Success(RegisterReply(id, req.existingNodeKey.value, true)))
    && ((forall id :: !OffersRowKey(t, s, req, auto, e, id)) ==>
          if s.storeSealed && s.seal(newKey).Failure? then r == Failure(500) && u == t
          else r.Success? && !r.value.reused && r.value.nodeKey == newKey)
    && (forall id | id in t.rows && t.rows[id].endpoint != e :: id in u.rows && u.rows[id] == t.rows[id])
    && (r.Success? ==>
          && r.value.id in u.rows
          && (r.value.id in t.rows || r.value.id == t.nextId)
          && u.rows.Keys == t.rows.Keys + {r.value.id}
          && var n := u.rows[r.value.id];
             && n.name == req.name && n.endpoint == e && n.protocol == protocol && n.metadataJson == req.metadata
             && n.enabled
             && (r.value.reused ==> && r.value.id in t.rows && n.nodeKeyHash == t.rows[r.value.id].nodeKeyHash
                                    && n.nodeKeySealed == t.rows[r.value.id].nodeKeySealed)
             && (!r.value.reused ==>
                   && n.nodeKeyHash == s.hashKey(newKey) && n.keyFingerprint == s.fingerprint(newKey)
                   && if s.storeSealed then s.seal(newKey).Success? && n.nodeKeySealed == Some(s.seal(newKey).value)
                      else n.nodeKeySealed == None))
  }

  function Reply(result: Result<Registration, StoreError>): Result<RegisterReply, Status> {
    match result
    case Success(reg) => Success(RegisterReply(reg.node.id, reg.nodeKey, reg.reused))
    case Failure(_) => Failure(500)
  }

  /** The parameters that the handler builds make the store answer so. */
  lemma ParamsAnswer(t: Table, s: Settings, req: RegisterRequest, auto: bool, e: Endpoint, protocol: string,
                     newKey: string, now: int)
    requires WellFormed(t)
    ensures var o := Register(t, Params(s, req, auto, (e, protocol), newKey), now);
            Answered(t, o.table, s, req, auto, e, protocol, newKey, Reply(o.result))
  {
    var p := Params(s, req, auto, (e, protocol), newKey);
    var o := Register(t, p, now);
    OffersDecide(t, s, req, auto, e, protocol, newKey);
    forall id | id in t.rows && t.rows[id].endpoint != e ensures id in o.table.rows && o.table.rows[id] == t.rows[id] {
      RegisterFrame(t, p, now, id);
    }
    if o.result.Success? {
      RegisterOutcome(t, p, now);
      RegisterDescribes(t, p, now);
    }
  }

  /** The store keeps a key exactly if the request offers the key of a row at the endpoint. */
  lemma OffersDecide(t: Table, s: Settings, req: RegisterRequest, auto: bool, e: Endpoint, protocol: string,
                     newKey: string)
    requires WellFormed(t)
    ensures var p := Params(s, req, auto, (e, protocol), newKey);
            && (forall id | OffersRowKey(t, s, req, auto, e, id) ::
                  KeepsKey(t, p) && Lookup(t, e) == Some(id) && p.existingNodeKey == req.existingNodeKey)
            && (KeepsKey(t, p) ==> OffersRowKey(t, s, req, auto, e, Lookup(t, e).value))
  {
    forall id | OffersRowKey(t, s, req, auto, e, id) ensures Lookup(t, e) == Some(id) {
      LookupIs(t, e, id);
    }
  }

  /** `resolve` is the address validation, given the protocol with its default filled in. */
  method HandleRegister(store: NodeStore, s: Settings, req: RegisterRequest, auto: bool,
                        resolve: string -> Option<(Endpoint, string)>, newKey: string, now: int)
    returns (r: Result<RegisterReply, Status>)
    requires store.Valid()
    modifies store
    ensures store.Valid()
    ensures var protocol := if req.protocol == "" then "http" else req.protocol;
            if Text.Trim(req.name) == "" then r == Failure(422) && store.Abs() == old(store.Abs())
            else if resolve(protocol).None? then r == Failure(400) && store.Abs() == old(store.Abs())
            else
              var (e, resolved) := resolve(protocol).value;
              UniqueHashes(old(store.Abs())) ==>
                && Answered(old(store.Abs()), store.Abs(), s, req, auto, e, resolved, newKey, r)
                && store.Abs() == Register(old(store.Abs()), Params(s, req, auto, (e, resolved), newKey), now).table
                && (auto && req.existingNodeKey.Some? && req.existingNodeKey.value != "" ==>
                      forall id | id in old(store.rows) && old(store.rows)[id].endpoint == e
                                  && old(store.rows)[id].nodeKeyHash == s.hashKey(req.existingNodeKey.value) ::
                        r == Success(RegisterReply(id, req.existingNodeKey.value, true)))
                && (r.Success? ==>
                      && r.value.id in store.rows
                      && var n := store.rows[r.value.id];
                         && n.name == req.name && n.endpoint == e && n.protocol == resolved
                         && n.metadataJson == req.metadata)
    ensures !auto && r.Success? ==> !r.value.reused && r.value.nodeKey == newKey
  {
    if Text.Trim(req.name) == "" {
      return Failure(422);
    }
    var protocol := req.protocol;
    if protocol == "" {
      protocol := "http";
    }
    var resolved := resolve(protocol);
    if resolved.None? {
      return Failure(400);
    }
    var existingKey := None;
    if auto && req.existingNodeKey.Some? && req.existingNodeKey.value != "" {
      existingKey := req.existingNodeKey;
    }
    var p := RegisterParams(req.name, resolved.value.0, resolved.value.1, req.metadata, existingKey, newKey,
                            s.hashKey, s.fingerprint, SealKey(s));
    assert p == Params(s, req, auto, resolved.value, newKey);
    ParamsAnswer(store.Abs(), s, req, auto, resolved.value.0, resolved.value.1, newKey, now);
    hide Answered;
    var outcome := store.RegisterOrReuse(p, now);
    r := match outcome
         case Success(reg) => Success(RegisterReply(reg.node.id, reg.nodeKey, reg.reused))
         case Failure(_) => Failure(500);
  }

  /** Sealing that can be undone makes every registration of this handler admissible. */
  lemma HandlerIsAdmissible(c: Config, h: History, s: Settings, req: RegisterRequest, auto: bool,
                            resolved: (Endpoint, string), newKey: string, now: int)
    requires s.hashKey == c.hash && (forall key :: s.seal(key).Success? ==> c.unseal(s.seal(key).value) == Some(key))
    requires newKey in c.keys - h.issued && GeneratedShape(newKey)
    requires auto && req.existingNodeKey.Some? && req.existingNodeKey.value != "" ==>
        req.existingNodeKey.value in c.keys
    ensures Admissible(c, h, Registering(Params(s, req, auto, resolved, newKey), now))
    ensures !auto ==> !KeepsKey(h.table, Params(s, req, auto, resolved, newKey))
  {
    if s.storeSealed && s.seal(newKey).Success? {
      assert c.unseal(s.seal(newKey).value) == Some(newKey);
    }
  }

  /**
   * An agent's request as it reaches the handler: an empty old key is left out of its JSON. Serving it with
   * the parameters that the handler builds is exactly the step that the run theorems are about; a manual
   * registration is an administrator's step.
   */
  lemma HandlerServes(c: Config, w: Protocol.World, s: Settings, sent: Protocol.Request, req: RegisterRequest,
                      protocol: string, newKey: string, now: int)
    requires s.hashKey == c.hash && (forall key :: s.seal(key).Success? ==> c.unseal(s.seal(key).value) == Some(key))
    requires newKey in c.keys - w.h.issued && GeneratedShape(newKey)
    requires sent in w.requests && (sent.offered != "" ==> sent.offered in c.keys)
    requires req.existingNodeKey == if sent.offered == "" then None else Some(sent.offered)
    ensures Protocol.Enabled(c, w, Protocol.Serve(sent, Params(s, req, true, (sent.e, protocol), newKey), now))
    ensures Protocol.Enabled(c, w, Protocol.Admin(Registering(Params(s, req, false, (sent.e, protocol), newKey), now)))
  {
    HandlerIsAdmissible(c, w.h, s, req, true, (sent.e, protocol), newKey, now);
    HandlerIsAdmissible(c, w.h, s, req, false, (sent.e, protocol), newKey, now);
  }

  // ---------------------------------------------------------------- which key to use for a node

  function ResolveNodeKey(s: Settings, node: Node, supplied: Option<string>): Result<string, Status> {
    if supplied.Some? && supplied.value != "" then
      if s.hashKey(supplied.value) != node.nodeKeyHash then Failure(400) else Success(supplied.value)
    else if node.nodeKeySealed.Some? then
      match s.unseal(node.nodeKeySealed.value)
      case None => Failure(500)
      case Some(key) => Success(key)
    else Failure(400)
  }

  /**
   * In every reachable state, for every snapshot a handler holds: whichever branch supplies the key, it is
   * the one key the snapshot's hash was made from, and unsealing never fails.
   */
  lemma ResolvedKeyMatches(c: Config, w: Protocol.World, ch: nat, s: Settings, supplied: Option<string>)
    requires CollisionFree(c) && Protocol.WorldInv(c, w) && ch in w.checks
    requires s.hashKey == c.hash && s.unseal == c.unseal
    requires supplied.Some? ==> supplied.value in c.keys
    ensures var node := w.checks[ch];
            match ResolveNodeKey(s, node, supplied)
            case Success(key) =>
              && key in w.h.issued && Backs(c, key, node)
              && (forall other | other in c.keys && c.hash(other) == node.nodeKeyHash :: other == key)
            case Failure(status) =>
              && status == 400
              && (if supplied.Some? && supplied.value != "" then c.hash(supplied.value) != node.nodeKeyHash
                  else node.nodeKeySealed.None?)
  {
    assert Protocol.SnapshotOk(c, w.h, w.checks[ch]);
    var key :| key in w.h.issued && Backs(c, key, w.checks[ch]);
  }

  // ---------------------------------------------------------------- handlers

  method HandleSetEnabled(store: NodeStore, id: Option<int>, enabled: bool, now: int) returns (r: Result<Node, Status>)
    requires store.Valid()
    modifies store
    ensures store.Valid()
    ensures id.None? ==> r == Failure(400) && store.Abs() == old(store.Abs())
    ensures id.Some? ==> && store.Abs() == Apply(old(store.Abs()), SettingEnabled(id.value, enabled, now))
                         && (r.Success? <==> id.value in old(store.rows)) && (r.Failure? ==> r.error == 404)
                         && (r.Success? ==>
                               var was, n := old(store.rows)[id.value], store.rows[id.value];
                               && n == r.value && n.enabled == enabled && n.updatedAt == now
                               && n.(enabled := was.enabled, updatedAt := was.updatedAt) == was)
  {
    if id.None? {
      return Failure(400);
    }
    var node := store.SetEnabled(id.value, enabled, now);
    r := if node.Success? then Success(node.value) else Failure(404);
  }

  method HandleDeleteNode(store: NodeStore, id: Option<int>) returns (status: Status)
    requires store.Valid()
    modifies store
    ensures store.Valid()
    ensures id.None? ==> status == 400 && store.Abs() == old(store.Abs())
    ensures id.Some? ==> && store.Abs() == Apply(old(store.Abs()), Deleting(id.value))
                         && status == if id.value in old(store.rows) then 204 else 404
  {
    if id.None? {
      return 400;
    }
    var deleted := store.Delete(id.value);
    status := if deleted.Success? then 204 else 404;
  }

  /** The body's node_key, which hides the X-Node-Key header even when it is empty. */
  function Supplied(bodyKey: Option<string>, header: string): Option<string> {
    if bodyKey.Some? then bodyKey else if header == "" then None else Some(header)
  }

  /**
   * Everything before the network: the snapshot, and the key to talk to the node with. `body` is the
   * node_key of the request body, or nothing at all for a body that is not JSON.
   */
  method BeginHealthCheck(store: NodeStore, s: Settings, id: Option<int>, body: Option<Option<string>>, header: string,
                          speedtest: bool)
    returns (r: Result<(Node, string), Status>)
    ensures match r
            case Success((node, key)) =>
              && id.Some? && id.value in store.rows && node == store.rows[id.value] && (speedtest ==> node.enabled)
              && body.Some? && ResolveNodeKey(s, node, Supplied(body.value, header)) == Success(key)
            case Failure(status) =>
              if id.None? then status == 400
              else if id.value !in store.rows then status == 404
              else if speedtest && !store.rows[id.value].enabled then status == 409
              else if body.None? then status == 400
              else ResolveNodeKey(s, store.rows[id.value], Supplied(body.value, header)) == Failure(status)
    ensures id.Some? && id.value in store.rows && body.Some? && (speedtest ==> store.rows[id.value].enabled) ==>
              var node := store.rows[id.value];
              && (forall key | key != "" && (body.value == Some(key) || (body.value.None? && header == key)) ::
                    r == if s.hashKey(key) == node.nodeKeyHash then Success((node, key)) else Failure(400))
              && (body.value == Some("") || (body.value.None? && header == "") ==>
                    if node.nodeKeySealed.None? then r == Failure(400)
                    else if s.unseal(node.nodeKeySealed.value).None? then r == Failure(500)
                    else r == Success((node, s.unseal(node.nodeKeySealed.value).value)))
  {
    if id.None? {
      return Failure(400);
    }
    var node := store.Get(id.value);
    if node.Failure? {
      return Failure(404);
    }
    if speedtest && !node.value.enabled {
      return Failure(409);
    }
    if body.None? {
      return Failure(400);
    }
    var supplied := body.value;
    if supplied.None? && header != "" {
      supplied := Some(header);
    }
    var key := ResolveNodeKey(s, node.value, supplied);
    r := if key.Success? then Success((node.value, key.value)) else Failure(key.error);
  }

  datatype Probe = Reached(latencyMs: real) | Unreachable(message: string)

  function ProbeHealth(probe: Probe, now: int): Health {
    match probe
    case Reached(latency) => Health("online", Some(latency), None, true, now)
    case Unreachable(message) => Health("error", None, Some(message), false, now)
  }

  /**
   * The write after the measurement, with the store in whatever state it is in by then. Its error is
   * dropped: the caller is told the measured result even when the row has gone.
   */
  method FinishHealthCheck(store: NodeStore, node: Node, probe: Probe, now: int) returns (status: string)
    requires store.Valid()
    modifies store
    ensures store.Valid() && store.Abs() == Apply(old(store.Abs()), NotingHealth(node.id, ProbeHealth(probe, now)))
    ensures status == ProbeHealth(probe, now).status
    ensures node.id in old(store.rows) ==>
              var was, n := old(store.rows)[node.id], store.rows[node.id];
              && n.updatedAt == now
              && (match probe
                  case Reached(latency) =>
                    && status == n.lastStatus == "online" && n.lastLatencyMs == Some(latency)
                    && n.lastError == None && n.lastSeenAt == Some(now)
                  case Unreachable(message) =>
                    && status == n.lastStatus == "error" && n.lastLatencyMs == None
                    && n.lastError == Some(message) && n.lastSeenAt == was.lastSeenAt)
              && n.(lastStatus := was.lastStatus, lastLatencyMs := was.lastLatencyMs, lastError := was.lastError,
                    updatedAt := was.updatedAt, lastSeenAt := was.lastSeenAt) == was
    ensures forall id | id in old(store.rows) && id != node.id ::
              id in store.rows && store.rows[id] == old(store.rows)[id]
    ensures node.id !in old(store.rows) ==> store.Abs() == old(store.Abs())
  {
    match probe {
      case Unreachable(message) =>
        var _ := store.UpdateHealthResult(node.id, Health("error", None, Some(message), false, now));
        status := "error";
      case Reached(latency) =>
        var _ := store.UpdateHealthResult(node.id, Health("online", Some(latency), None, true, now));
        status := "online";
    }
  }
}
