/** Which key opens which node, over every interleaving of store operations. */
module KeyLifecycle {
  import opened Wrappers
  import opened NodeTable

  /**
   * The surroundings of one deployment: the key hash, the unsealing under the constant SECRET_KEY, and
   * the keys considered in a run, among which the hash has no collision.
   */
  datatype Config = Config(
    hash: string -> string,
    unseal: string -> Option<string>,
    keys: set<string>)

  ghost predicate CollisionFree(c: Config) {
    forall a, b | a in c.keys && b in c.keys && c.hash(a) == c.hash(b) :: a == b
  }

  predicate IsKeyChar(ch: char) {
    'a' <= ch <= 'z' || 'A' <= ch <= 'Z' || '0' <= ch <= '9' || ch == '-' || ch == '_'
  }

  /** The shape of a generated key: 32 random bytes in unpadded URL-safe base64. */
  ghost predicate GeneratedShape(key: string) {
    |key| == 43 && forall i | 0 <= i < |key| :: IsKeyChar(key[i])
  }

  /** The table together with every key ever generated. */
  datatype History = History(table: Table, issued: set<string>)

  /** What a registration may assume of its surroundings: GenerateKey is fresh, and sealing can be undone. */
  ghost predicate Admissible(c: Config, h: History, op: Op) {
    op.Registering? ==>
      var p := op.p;
      && p.hashKey == c.hash
      && p.generateKey in c.keys - h.issued && GeneratedShape(p.generateKey)
      && (Offers(p) ==> p.existingNodeKey.value in c.keys)
      && (match p.sealKey(p.generateKey)
          case Success(Some(sealed)) => c.unseal(sealed) == Some(p.generateKey)
          case _ => true)
  }

  ghost function Next(c: Config, h: History, op: Op): History {
    History(Apply(h.table, op),
            if op.Registering? && !KeepsKey(h.table, op.p) then h.issued + {op.p.generateKey} else h.issued)
  }

  /** `key` is what this row's hash and sealed copy were made from. */
  ghost predicate Backs(c: Config, key: string, n: Node) {
    c.hash(key) == n.nodeKeyHash && (n.nodeKeySealed.Some? ==> c.unseal(n.nodeKeySealed.value) == Some(key))
  }

  ghost predicate Backed(c: Config, h: History, id: int)
    requires id in h.table.rows
  {
    exists key :: key in h.issued && Backs(c, key, h.table.rows[id])
  }

  /** Every reachable state: rows carry hashes of issued keys, all different, and honest sealed copies. */
  ghost predicate Inv(c: Config, h: History) {
    && WellFormed(h.table)
    && UniqueHashes(h.table)
    && h.issued <= c.keys
    && (forall key | key in h.issued :: GeneratedShape(key))
    && (forall id | id in h.table.rows :: Backed(c, h, id))
  }

  ghost predicate Matches(c: Config, h: History, id: int, key: string) {
    id in h.table.rows && h.table.rows[id].nodeKeyHash == c.hash(key)
  }

  ghost predicate MatchesNothing(c: Config, h: History, key: string) {
    forall id :: !Matches(c, h, id, key)
  }

  // ---------------------------------------------------------------- one step

  lemma FreshHash(c: Config, h: History, key: string, id: int)
    requires CollisionFree(c) && Inv(c, h) && key in c.keys - h.issued && id in h.table.rows
    ensures h.table.rows[id].nodeKeyHash != c.hash(key)
  {
    assert Backed(c, h, id);
  }

  /** Where a row after the step comes from: its key is unchanged, or it is the newly issued one. */
  lemma RowAfter(c: Config, h: History, op: Op, id: int)
    requires WellFormed(h.table) && Admissible(c, h, op) && id in Next(c, h, op).table.rows
    ensures var n := Next(c, h, op).table.rows[id];
            || (&& id in h.table.rows && n.nodeKeyHash == h.table.rows[id].nodeKeyHash
                && n.nodeKeySealed == h.table.rows[id].nodeKeySealed)
            || (&& op.Registering? && !KeepsKey(h.table, op.p) && Backs(c, op.p.generateKey, n)
                && Lookup(Next(c, h, op).table, op.p.endpoint) == Some(id))
  {
    if op.Registering? && Register(h.table, op.p, op.now).result.Success? {
      RegisterOutcome(h.table, op.p, op.now);
    }
  }

  lemma NextUnique(c: Config, h: History, op: Op)
    requires CollisionFree(c) && Inv(c, h) && Admissible(c, h, op)
    ensures UniqueHashes(Next(c, h, op).table)
  {
    var t := Next(c, h, op).table;
    forall i, j | i in t.rows && j in t.rows && t.rows[i].nodeKeyHash == t.rows[j].nodeKeyHash ensures i == j {
      RowAfter(c, h, op, i);
      RowAfter(c, h, op, j);
      if op.Registering? {
        if i in h.table.rows { FreshHash(c, h, op.p.generateKey, i); }
        if j in h.table.rows { FreshHash(c, h, op.p.generateKey, j); }
      }
    }
  }

  lemma NextBacked(c: Config, h: History, op: Op, id: int)
    requires CollisionFree(c) && Inv(c, h) && Admissible(c, h, op) && id in Next(c, h, op).table.rows
    ensures Backed(c, Next(c, h, op), id)
  {
    var g := Next(c, h, op);
    RowAfter(c, h, op, id);
    if id in h.table.rows && g.table.rows[id].nodeKeyHash == h.table.rows[id].nodeKeyHash
       && g.table.rows[id].nodeKeySealed == h.table.rows[id].nodeKeySealed {
      assert Backed(c, h, id);
      var key :| key in h.issued && Backs(c, key, h.table.rows[id]);
      assert Backs(c, key, g.table.rows[id]);
    } else {
      assert op.p.generateKey in g.issued;
    }
  }

  /** The invariant is kept by every operation. */
  lemma NextKeepsInv(c: Config, h: History, op: Op)
    requires CollisionFree(c) && Inv(c, h) && Admissible(c, h, op)
    ensures Inv(c, Next(c, h, op)) && h.issued <= Next(c, h, op).issued
  {
    ApplyWellFormed(h.table, op);
    NextUnique(c, h, op);
    forall id | id in Next(c, h, op).table.rows ensures Backed(c, Next(c, h, op), id) {
      NextBacked(c, h, op, id);
    }
  }

  /** A row that an issued key opens after a step was opened by it before. */
  lemma NoNewMatch(c: Config, h: History, op: Op, key: string, id: int)
    requires CollisionFree(c) && Inv(c, h) && Admissible(c, h, op)
    requires key in h.issued && Matches(c, Next(c, h, op), id, key)
    ensures Matches(c, h, id, key) && SameIdentity(h.table.rows[id], Next(c, h, op).table.rows[id])
  {
    RowAfter(c, h, op, id);
    if id in h.table.rows {
      ApplyKeepsIdentity(h.table, op, id);
    }
  }

  // ---------------------------------------------------------------- whole runs

  ghost predicate Run(c: Config, hs: seq<History>, ops: seq<Op>) {
    && |hs| == |ops| + 1
    && forall i | 0 <= i < |ops| :: Admissible(c, hs[i], ops[i]) && hs[i + 1] == Next(c, hs[i], ops[i])
  }

  const EMPTY := History(Table(map[], 1), {})

  lemma {:induction false} RunInv(c: Config, hs: seq<History>, ops: seq<Op>, i: nat, j: nat)
    requires CollisionFree(c) && Run(c, hs, ops) && i <= j < |hs| && Inv(c, hs[i])
    ensures Inv(c, hs[j]) && hs[i].issued <= hs[j].issued && hs[i].table.nextId <= hs[j].table.nextId
    decreases j
  {
    if i < j {
      RunInv(c, hs, ops, i, j - 1);
      NextKeepsInv(c, hs[j - 1], ops[j - 1]);
      ApplyWellFormed(hs[j - 1].table, ops[j - 1]);
    }
  }

  /** In every state of every run that starts from an empty table, each row belongs to exactly one issued key. */
  lemma EveryRowHasOneKey(c: Config, hs: seq<History>, ops: seq<Op>, j: nat, id: int)
    requires CollisionFree(c) && Run(c, hs, ops) && hs[0] == EMPTY && j < |hs| && id in hs[j].table.rows
    ensures exists key ::
              && key in hs[j].issued && Backs(c, key, hs[j].table.rows[id])
              && (forall other | other in c.keys && Matches(c, hs[j], id, other) :: other == key)
              && (forall row | Matches(c, hs[j], row, key) :: row == id)
  {
    RunInv(c, hs, ops, 0, j);
    assert Backed(c, hs[j], id);
    var key :| key in hs[j].issued && Backs(c, key, hs[j].table.rows[id]);
  }

  lemma {:induction false} MatchGoesBack(c: Config, hs: seq<History>, ops: seq<Op>, i: nat, j: nat, key: string,
                                         id: int)
    requires CollisionFree(c) && Run(c, hs, ops) && i <= j < |hs| && Inv(c, hs[i])
    requires key in hs[i].issued && Matches(c, hs[j], id, key)
    ensures Matches(c, hs[i], id, key) && SameIdentity(hs[i].table.rows[id], hs[j].table.rows[id])
    decreases j
  {
    if i < j {
      RunInv(c, hs, ops, i, j - 1);
      NoNewMatch(c, hs[j - 1], ops[j - 1], key, id);
      MatchGoesBack(c, hs, ops, i, j - 1, key, id);
    }
  }

  /** A key that opens no row, having been rotated out or deleted with its row, never opens one again. */
  lemma DeadKeysStayDead(c: Config, hs: seq<History>, ops: seq<Op>, i: nat, j: nat, key: string)
    requires CollisionFree(c) && Run(c, hs, ops) && i <= j < |hs| && Inv(c, hs[i])
    requires key in hs[i].issued && MatchesNothing(c, hs[i], key)
    ensures MatchesNothing(c, hs[j], key)
  {
    forall id ensures !Matches(c, hs[j], id, key) {
      if Matches(c, hs[j], id, key) {
        MatchGoesBack(c, hs, ops, i, j, key, id);
      }
    }
  }

  /** A key's life is one unbroken stretch on one row: same id, same endpoint, same creation. */
  lemma KeyLifeIsOneStretch(c: Config, hs: seq<History>, ops: seq<Op>, i: nat, j: nat, k: nat, key: string, a: int,
                            b: int)
    requires CollisionFree(c) && Run(c, hs, ops) && i <= j <= k < |hs| && Inv(c, hs[i]) && key in hs[i].issued
    requires Matches(c, hs[i], a, key) && Matches(c, hs[k], b, key)
    ensures a == b && Matches(c, hs[j], a, key)
    ensures SameIdentity(hs[i].table.rows[a], hs[j].table.rows[a])
  {
    RunInv(c, hs, ops, i, j);
    MatchGoesBack(c, hs, ops, j, k, key, b);
    MatchGoesBack(c, hs, ops, i, j, key, b);
  }

  /** Offering a key that opens no row, or the row of another endpoint, always gets a different, new key. */
  lemma DeadKeyIsNeverReused(c: Config, hs: seq<History>, ops: seq<Op>, i: nat, j: nat, key: string)
    requires CollisionFree(c) && Run(c, hs, ops) && i <= j < |ops| && Inv(c, hs[i])
    requires key in hs[i].issued && MatchesNothing(c, hs[i], key)
    requires ops[j].Registering? && ops[j].p.existingNodeKey == Some(key)
    ensures var r := Register(hs[j].table, ops[j].p, ops[j].now).result;
            r.Success? ==> !r.value.reused && r.value.nodeKey !in hs[j].issued
  {
    DeadKeysStayDead(c, hs, ops, i, j, key);
    var target := Lookup(hs[j].table, ops[j].p.endpoint);
    if target.Some? {
      assert !Matches(c, hs[j], target.value, key);
    }
  }

  /** Rotation and deletion are what kills a key: the registration's own endpoint, the deleted row, and nothing else. */
  lemma WhatKillsAKey(c: Config, h: History, op: Op, key: string, id: int)
    requires CollisionFree(c) && Inv(c, h) && Admissible(c, h, op) && key in h.issued && Matches(c, h, id, key)
    ensures Matches(c, Next(c, h, op), id, key) <==>
            match op
            case Registering(p, now) =>
              p.endpoint == h.table.rows[id].endpoint ==> KeepsKey(h.table, p) || p.sealKey(p.generateKey).Failure?
            case Deleting(gone) => gone != id
            case _ => true
    ensures !Matches(c, Next(c, h, op), id, key) ==> MatchesNothing(c, Next(c, h, op), key)
  {
    if op.Registering? {
      if op.p.endpoint == h.table.rows[id].endpoint {
        LookupIs(h.table, op.p.endpoint, id);
        FreshHash(c, h, op.p.generateKey, id);
      } else {
        RegisterFrame(h.table, op.p, op.now, id);
      }
    }
    forall other | Matches(c, Next(c, h, op), other, key) ensures other == id {
      NoNewMatch(c, h, op, key, other);
    }
  }

  // ---------------------------------------------------------------- the table as a map from endpoints to keys

  /** What an administrator thinks of: one key per endpoint. */
  type KeyMap = map<Endpoint, string>

  datatype KeyReply = KeyReply(key: string, reused: bool)

  /** Registration seen that way. */
  function KeyMapRegister(m: KeyMap, e: Endpoint, offered: Option<string>, newKey: string): (KeyMap, KeyReply) {
    if e in m && offered == Some(m[e]) then (m, KeyReply(m[e], true)) else (m[e := newKey], KeyReply(newKey, false))
  }

  datatype MapOp = Put(e: Endpoint, offered: Option<string>, newKey: string) | Remove(e: Endpoint) | Nothing

  function MapStep(m: KeyMap, op: MapOp): KeyMap {
    match op
    case Put(e, offered, newKey) => KeyMapRegister(m, e, offered, newKey).0
    case Remove(e) => m - {e}
    case Nothing => m
  }

  /** The same operation seen on the map; enabling and health results do not show there. */
  ghost function Seen(t: Table, op: Op): MapOp {
    match op
    case Registering(p, now) =>
      if Register(t, p, now).result.Success? then Put(p.endpoint, p.existingNodeKey, p.generateKey) else Nothing
    case Deleting(id) => if id in t.rows then Remove(t.rows[id].endpoint) else Nothing
    case _ => Nothing
  }

  /** `m` holds, endpoint by endpoint, the issued key that each row was made from. */
  ghost predicate Refines(c: Config, h: History, m: KeyMap) {
    && (forall e :: e in m <==> Lookup(h.table, e).Some?)
    && (forall e | e in m :: m[e] in h.issued && Backs(c, m[e], h.table.rows[Lookup(h.table, e).value]))
  }

  /** The hash comparison decides as the map does. */
  lemma KeepsKeyInMap(c: Config, h: History, m: KeyMap, p: RegisterParams, now: int)
    requires CollisionFree(c) && Inv(c, h) && Refines(c, h, m) && Admissible(c, h, Registering(p, now))
    ensures KeepsKey(h.table, p) <==> p.endpoint in m && p.existingNodeKey == Some(m[p.endpoint])
  {
    if p.endpoint in m {
      assert GeneratedShape(m[p.endpoint]);
    }
  }

  /** The reply is the one that the map gives, and only sealing can fail. */
  lemma ReplyRefines(c: Config, h: History, m: KeyMap, p: RegisterParams, now: int)
    requires CollisionFree(c) && Inv(c, h) && Refines(c, h, m) && Admissible(c, h, Registering(p, now))
    ensures var r := Register(h.table, p, now).result;
            match r
            case Success(reply) => KeyReply(reply.nodeKey, reply.reused) ==
                                   KeyMapRegister(m, p.endpoint, p.existingNodeKey, p.generateKey).1
            case Failure(_) => p.sealKey(p.generateKey).Failure? && !KeepsKey(h.table, p)
  {
    KeepsKeyInMap(c, h, m, p, now);
  }

  lemma RegisterRefines(c: Config, h: History, m: KeyMap, p: RegisterParams, now: int, e: Endpoint)
    requires CollisionFree(c) && Inv(c, h) && Refines(c, h, m) && Admissible(c, h, Registering(p, now))
    requires Register(h.table, p, now).result.Success?
    ensures var g := Next(c, h, Registering(p, now));
            var m' := MapStep(m, Seen(h.table, Registering(p, now)));
            && (e in m' <==> Lookup(g.table, e).Some?)
            && (e in m' ==> m'[e] in g.issued && Backs(c, m'[e], g.table.rows[Lookup(g.table, e).value]))
  {
    KeepsKeyInMap(c, h, m, p, now);
    RegisterOutcome(h.table, p, now);
    if e != p.endpoint {
      ApplyWellFormed(h.table, Registering(p, now));
      SameLookup(h.table, Next(c, h, Registering(p, now)).table, e);
    }
  }

  lemma OtherRefines(c: Config, h: History, m: KeyMap, op: Op, e: Endpoint)
    requires Inv(c, h) && Refines(c, h, m) && !op.Registering?
    ensures var g := Next(c, h, op);
            var m' := MapStep(m, Seen(h.table, op));
            && (e in m' <==> Lookup(g.table, e).Some?)
            && (e in m' ==> m'[e] in g.issued && Backs(c, m'[e], g.table.rows[Lookup(g.table, e).value]))
  {
    var g := Next(c, h, op);
    ApplyWellFormed(h.table, op);
    if op.Deleting? && op.id in h.table.rows && h.table.rows[op.id].endpoint == e {
      LookupIs(h.table, e, op.id);
    } else {
      SameLookup(h.table, g.table, e);
    }
  }

  /** One step of the table is one step of the map. */
  lemma StepRefines(c: Config, h: History, m: KeyMap, op: Op)
    requires CollisionFree(c) && Inv(c, h) && Refines(c, h, m) && Admissible(c, h, op)
    ensures Refines(c, Next(c, h, op), MapStep(m, Seen(h.table, op)))
  {
    var g, m' := Next(c, h, op), MapStep(m, Seen(h.table, op));
    forall e
      ensures e in m' <==> Lookup(g.table, e).Some?
      ensures e in m' ==> m'[e] in g.issued && Backs(c, m'[e], g.table.rows[Lookup(g.table, e).value])
    {
      if !op.Registering? {
        OtherRefines(c, h, m, op, e);
      } else if Register(h.table, op.p, op.now).result.Success? {
        RegisterRefines(c, h, m, op.p, op.now, e);
      }
    }
  }

  ghost function MapAt(hs: seq<History>, ops: seq<Op>, i: nat): KeyMap
    requires i <= |ops| && i < |hs|
  {
    if i == 0 then map[] else MapStep(MapAt(hs, ops, i - 1), Seen(hs[i - 1].table, ops[i - 1]))
  }

  /** Every run of the table is a run of the map, reply by reply. */
  lemma {:induction false} RunRefines(c: Config, hs: seq<History>, ops: seq<Op>, i: nat)
    requires CollisionFree(c) && Run(c, hs, ops) && hs[0] == EMPTY && i < |hs|
    ensures Inv(c, hs[i]) && Refines(c, hs[i], MapAt(hs, ops, i))
    ensures i < |ops| && ops[i].Registering? ==>
              var p := ops[i].p;
              match Register(hs[i].table, p, ops[i].now).result
              case Success(reply) => KeyReply(reply.nodeKey, reply.reused) ==
                                     KeyMapRegister(MapAt(hs, ops, i), p.endpoint, p.existingNodeKey, p.generateKey).1
              case Failure(_) => p.sealKey(p.generateKey).Failure?
  {
    if i > 0 {
      RunRefines(c, hs, ops, i - 1);
      StepRefines(c, hs[i - 1], MapAt(hs, ops, i - 1), ops[i - 1]);
      NextKeepsInv(c, hs[i - 1], ops[i - 1]);
    }
    if i < |ops| && ops[i].Registering? {
      ReplyRefines(c, hs[i], MapAt(hs, ops, i), ops[i].p, ops[i].now);
    }
  }

  lemma SameLookup(t: Table, u: Table, e: Endpoint)
    requires WellFormed(t) && WellFormed(u)
    requires forall id :: IsRowAt(t, e, id) <==> IsRowAt(u, e, id)
    ensures Lookup(t, e) == Lookup(u, e)
  {
    if Lookup(t, e).Some? {
      LookupIs(u, e, Lookup(t, e).value);
    }
  }
}
