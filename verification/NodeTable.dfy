/** The nodes table of internal/store/store.go as a value, and what each statement does to it. */
module NodeTable {
  import opened Wrappers

  datatype Endpoint = Endpoint(address: string, port: int)

  datatype Node = Node(
    id: int,
    name: string,
    endpoint: Endpoint,
    protocol: string,
    nodeKeyHash: string,
    keyFingerprint: string,
    nodeKeySealed: Option<string>,
    metadataJson: Option<string>,
    enabled: bool,
    createdAt: int,
    updatedAt: int,
    lastSeenAt: Option<int>,
    lastStatus: string,
    lastLatencyMs: Option<real>,
    lastError: Option<string>)

  /** Rows by primary key; `nextId` is the AUTOINCREMENT counter, which deletes do not lower. */
  datatype Table = Table(rows: map<int, Node>, nextId: int)

  datatype StoreError = NotFound | UniqueViolation | SealFailed

  /** One call's inputs; `generateKey` stands for the key that GenerateKey returns when it is called. */
  datatype RegisterParams = RegisterParams(
    name: string,
    endpoint: Endpoint,
    protocol: string,
    metadataJson: Option<string>,
    existingNodeKey: Option<string>,
    generateKey: string,
    hashKey: string -> string,
    fingerprint: string -> string,
    sealKey: string -> Result<Option<string>, StoreError>)

  datatype Registration = Registration(node: Node, nodeKey: string, reused: bool)

  datatype Outcome = Outcome(table: Table, result: Result<Registration, StoreError>)

  datatype Health = Health(status: string, latencyMs: Option<real>, error: Option<string>, markSeen: bool, now: int)

  /** Primary key, AUTOINCREMENT and UNIQUE(address, port). */
  ghost predicate WellFormed(t: Table) {
    && t.nextId >= 1
    && (forall id | id in t.rows :: 1 <= id < t.nextId && t.rows[id].id == id)
    && (forall i, j | i in t.rows && j in t.rows && t.rows[i].endpoint == t.rows[j].endpoint :: i == j)
  }

  /** Not enforced by the schema: node_key_hash carries a plain index only. */
  ghost predicate UniqueHashes(t: Table) {
    forall i, j | i in t.rows && j in t.rows && t.rows[i].nodeKeyHash == t.rows[j].nodeKeyHash :: i == j
  }

  ghost predicate IsRowAt(t: Table, e: Endpoint, id: int) {
    id in t.rows && t.rows[id].endpoint == e
  }

  /** The id of the row at an endpoint, if there is one. */
  ghost function Lookup(t: Table, e: Endpoint): (r: Option<int>)
    ensures r.Some? ==> IsRowAt(t, e, r.value)
    ensures r.None? ==> forall id :: !IsRowAt(t, e, id)
  {
    if id :| IsRowAt(t, e, id) then Some(id) else None
  }

  lemma LookupIs(t: Table, e: Endpoint, id: int)
    requires WellFormed(t) && IsRowAt(t, e, id)
    ensures Lookup(t, e) == Some(id)
  {
  }

  predicate Offers(p: RegisterParams) {
    p.existingNodeKey.Some? && p.existingNodeKey.value != ""
  }

  function KeyKept(n: Node, p: RegisterParams, now: int): Node {
    n.(name := p.name, protocol := p.protocol, metadataJson := p.metadataJson, enabled := true, updatedAt := now)
  }

  function KeyRotated(n: Node, p: RegisterParams, sealed: Option<string>, now: int): Node {
    KeyKept(n, p, now).(nodeKeyHash := p.hashKey(p.generateKey),
                        keyFingerprint := p.fingerprint(p.generateKey),
                        nodeKeySealed := sealed)
  }

  function NewNode(id: int, p: RegisterParams, sealed: Option<string>, now: int): Node {
    Node(id, p.name, p.endpoint, p.protocol, p.hashKey(p.generateKey), p.fingerprint(p.generateKey), sealed,
         p.metadataJson, true, now, now, None, "unknown", None, None)
  }

  function EnabledSet(n: Node, enabled: bool, now: int): Node {
    n.(enabled := enabled, updatedAt := now)
  }

  function HealthNoted(n: Node, h: Health): Node {
    n.(lastStatus := h.status, lastLatencyMs := h.latencyMs, lastError := h.error, updatedAt := h.now,
       lastSeenAt := if h.markSeen then Some(h.now) else n.lastSeenAt)
  }

  /** The offered key is the current key of the row at the registered endpoint. */
  ghost predicate KeepsKey(t: Table, p: RegisterParams) {
    && Offers(p)
    && Lookup(t, p.endpoint).Some?
    && t.rows[Lookup(t, p.endpoint).value].nodeKeyHash == p.hashKey(p.existingNodeKey.value)
  }

  ghost function RegisterKeeping(t: Table, p: RegisterParams, now: int): Outcome
    requires Offers(p) && Lookup(t, p.endpoint).Some?
  {
    var id := Lookup(t, p.endpoint).value;
    var n := KeyKept(t.rows[id], p, now);
    Outcome(t.(rows := t.rows[id := n]), Success(Registration(n, p.existingNodeKey.value, true)))
  }

  ghost function RegisterAnew(t: Table, p: RegisterParams, now: int): Outcome {
    match p.sealKey(p.generateKey)
    case Failure(error) => Outcome(t, Failure(error))
    case Success(sealed) =>
      match Lookup(t, p.endpoint)
      case None =>
        var n := NewNode(t.nextId, p, sealed, now);
        Outcome(Table(t.rows[t.nextId := n], t.nextId + 1), Success(Registration(n, p.generateKey, false)))
      case Some(id) =>
        var n := KeyRotated(t.rows[id], p, sealed, now);
        Outcome(t.(rows := t.rows[id := n]), Success(Registration(n, p.generateKey, false)))
  }

  /** Registration: one hash comparison decides between keeping the row's key and issuing a new one. */
  ghost function Register(t: Table, p: RegisterParams, now: int): Outcome {
    if KeepsKey(t, p) then RegisterKeeping(t, p, now) else RegisterAnew(t, p, now)
  }

  function Update(t: Table, id: int, n: Node): Table {
    t.(rows := t.rows[id := n])
  }

  // ---------------------------------------------------------------- operations

  datatype Op =
    | Registering(p: RegisterParams, now: int)
    | Deleting(id: int)
    | SettingEnabled(id: int, enabled: bool, now: int)
    | NotingHealth(id: int, h: Health)

  /** The table after one public method of the store; a missing id changes nothing. */
  ghost function Apply(t: Table, op: Op): Table {
    match op
    case Registering(p, now) => Register(t, p, now).table
    case Deleting(id) => t.(rows := t.rows - {id})
    case SettingEnabled(id, enabled, now) =>
      if id in t.rows then Update(t, id, EnabledSet(t.rows[id], enabled, now)) else t
    case NotingHealth(id, h) =>
      if id in t.rows then Update(t, id, HealthNoted(t.rows[id], h)) else t
  }

  /** Every operation keeps the schema's constraints, whatever the keys and hashes are. */
  lemma ApplyWellFormed(t: Table, op: Op)
    requires WellFormed(t)
    ensures WellFormed(Apply(t, op)) && t.nextId <= Apply(t, op).nextId
  {
    if op.Registering? {
      assert forall id | id in t.rows && t.rows[id].endpoint == op.p.endpoint :: IsRowAt(t, op.p.endpoint, id);
    }
  }

  /** What a row is, as opposed to what state it is in. */
  predicate SameIdentity(a: Node, b: Node) {
    a.id == b.id && a.endpoint == b.endpoint && a.createdAt == b.createdAt
  }

  /** An id names one registration forever: it never comes back, and its endpoint never changes. */
  lemma ApplyKeepsIdentity(t: Table, op: Op, id: int)
    requires WellFormed(t) && id < t.nextId && id in Apply(t, op).rows
    ensures id in t.rows && SameIdentity(t.rows[id], Apply(t, op).rows[id])
  {
  }

  /** A registration touches the row at its own endpoint and no other. */
  lemma RegisterFrame(t: Table, p: RegisterParams, now: int, id: int)
    requires WellFormed(t) && id in t.rows && t.rows[id].endpoint != p.endpoint
    ensures var u := Register(t, p, now).table; id in u.rows && u.rows[id] == t.rows[id]
  {
  }

  /**
   * After a successful registration exactly one row, the reported one, is at the endpoint; a row that was
   * there stays.
   */
  lemma RegisterOutcome(t: Table, p: RegisterParams, now: int)
    requires WellFormed(t) && Register(t, p, now).result.Success?
    ensures var o := Register(t, p, now);
            var r := o.result.value;
            && Lookup(o.table, p.endpoint) == Some(r.node.id)
            && o.table.rows[r.node.id] == r.node
            && r.node.nodeKeyHash == p.hashKey(r.nodeKey)
            && (r.reused <==> KeepsKey(t, p))
            && (Lookup(t, p.endpoint).Some? ==> r.node.id == Lookup(t, p.endpoint).value)
            && (forall id | id in o.table.rows :: id in t.rows || id == r.node.id)
  {
    var o := Register(t, p, now);
    ApplyWellFormed(t, Registering(p, now));
    LookupIs(o.table, p.endpoint, o.result.value.node.id);
  }

  /**
   * What a successful registration writes: always the new description, key data only together with a new
   * key, and never an existing row's health record or creation time.
   */
  lemma RegisterDescribes(t: Table, p: RegisterParams, now: int)
    requires WellFormed(t) && Register(t, p, now).result.Success?
    ensures var reg := Register(t, p, now).result.value;
            var n := reg.node;
            && n.name == p.name && n.protocol == p.protocol && n.metadataJson == p.metadataJson
            && n.endpoint == p.endpoint
            && n.enabled && n.updatedAt == now
            && (!reg.reused ==>
                  && n.keyFingerprint == p.fingerprint(reg.nodeKey)
                  && p.sealKey(reg.nodeKey) == Success(n.nodeKeySealed))
            && (match Lookup(t, p.endpoint)
                case None =>
                  && n.id == t.nextId && n.createdAt == now && n.lastSeenAt == None && n.lastStatus == "unknown"
                  && n.lastLatencyMs == None && n.lastError == None
                case Some(id) =>
                  var was := t.rows[id];
                  && n.createdAt == was.createdAt && n.lastSeenAt == was.lastSeenAt && n.lastStatus == was.lastStatus
                  && n.lastLatencyMs == was.lastLatencyMs && n.lastError == was.lastError
                  && (reg.reused ==> n.keyFingerprint == was.keyFingerprint && n.nodeKeySealed == was.nodeKeySealed))
  {
    RegisterOutcome(t, p, now);
  }

  /** Rows that an operation does not name stay exactly as they are. */
  lemma ApplyFrame(t: Table, op: Op, id: int)
    requires WellFormed(t) && id in t.rows
    requires match op
             case Registering(p, _) => p.endpoint != t.rows[id].endpoint
             case Deleting(gone) => gone != id
             case SettingEnabled(other, _, _) => other != id
             case NotingHealth(other, _) => other != id
    ensures id in Apply(t, op).rows && Apply(t, op).rows[id] == t.rows[id]
  {
  }

  /** A health result reaches five columns; whether the node is enabled, above all, is not among them. */
  lemma HealthWrites(t: Table, id: int, h: Health)
    requires id in t.rows
    ensures var was, u := t.rows[id], Apply(t, NotingHealth(id, h));
            && u.rows.Keys == t.rows.Keys && u.nextId == t.nextId
            && var n := u.rows[id];
               && n.lastStatus == h.status && n.lastLatencyMs == h.latencyMs && n.lastError == h.error
               && n.updatedAt == h.now && n.lastSeenAt == (if h.markSeen then Some(h.now) else was.lastSeenAt)
               && n.(lastStatus := was.lastStatus, lastLatencyMs := was.lastLatencyMs, lastError := was.lastError,
                     updatedAt := was.updatedAt, lastSeenAt := was.lastSeenAt) == was
  {
  }

  /** Enabling or disabling leaves the description, the key and the health record alone. */
  lemma EnabledWrites(t: Table, id: int, enabled: bool, now: int)
    requires id in t.rows
    ensures var was, u := t.rows[id], Apply(t, SettingEnabled(id, enabled, now));
            && u.rows.Keys == t.rows.Keys && u.nextId == t.nextId
            && var n := u.rows[id];
               && n.enabled == enabled && n.updatedAt == now
               && n.(enabled := was.enabled, updatedAt := was.updatedAt) == was
  {
  }
}
