/** The Python center over whole runs: its sessions keep the same invariant, so that no query ever finds two rows. */
module PyRuns {
  import opened Wrappers
  import opened NodeTable
  import opened KeyLifecycle
  import opened PyRegister

  /** Two tables that differ in descriptions, health and timestamps only. */
  ghost predicate SameKeys(t: Table, u: Table) {
    && t.nextId == u.nextId && t.rows.Keys == u.rows.Keys
    && forall id | id in t.rows ::
         && SameIdentity(t.rows[id], u.rows[id]) && t.rows[id].nodeKeyHash == u.rows[id].nodeKeyHash
         && t.rows[id].nodeKeySealed == u.rows[id].nodeKeySealed
  }

  ghost function PyNext(c: Config, h: History, op: Op): History {
    History(PyApply(h.table, op), Next(c, h, op).issued)
  }

  lemma PyApplySameKeys(t: Table, op: Op)
    requires WellFormed(t)
    ensures SameKeys(Apply(t, op), PyApply(t, op))
  {
    if op.Registering? && Register(t, op.p, op.now).result.Success? {
      RegisterOutcome(t, op.p, op.now);
    }
  }

  lemma InvOfKeys(c: Config, t: Table, u: Table, issued: set<string>)
    requires Inv(c, History(t, issued)) && SameKeys(t, u)
    ensures Inv(c, History(u, issued))
  {
    forall id | id in u.rows ensures Backed(c, History(u, issued), id) {
      assert Backed(c, History(t, issued), id);
      var key :| key in issued && Backs(c, key, t.rows[id]);
      assert Backs(c, key, u.rows[id]);
    }
  }

  /**
   * Registering, deleting, enabling and health results: each keeps all hashes different and all sealed copies
   * honest.
   */
  lemma PyNextKeepsInv(c: Config, h: History, op: Op)
    requires CollisionFree(c) && Inv(c, h) && Admissible(c, h, op)
    ensures Inv(c, PyNext(c, h, op)) && h.issued <= PyNext(c, h, op).issued
  {
    hide CollisionFree, Admissible, Register, SameKeys;
    NextKeepsInv(c, h, op);
    PyApplySameKeys(h.table, op);
    InvOfKeys(c, Apply(h.table, op), PyApply(h.table, op), Next(c, h, op).issued);
  }

  /** A key that opens no row opens none after any operation either. */
  lemma PyNoNewMatch(c: Config, h: History, op: Op, key: string, id: int)
    requires CollisionFree(c) && Inv(c, h) && Admissible(c, h, op)
    requires key in h.issued && Matches(c, PyNext(c, h, op), id, key)
    ensures Matches(c, h, id, key)
  {
    PyApplySameKeys(h.table, op);
    NoNewMatch(c, h, op, key, id);
  }

  ghost predicate PyRun(c: Config, hs: seq<History>, ops: seq<Op>) {
    && |hs| == |ops| + 1
    && forall i | 0 <= i < |ops| :: Admissible(c, hs[i], ops[i]) && hs[i + 1] == PyNext(c, hs[i], ops[i])
  }

  lemma {:induction false} PyRunInv(c: Config, hs: seq<History>, ops: seq<Op>, i: nat, j: nat)
    requires CollisionFree(c) && PyRun(c, hs, ops) && i <= j < |hs| && Inv(c, hs[i])
    ensures Inv(c, hs[j]) && hs[i].issued <= hs[j].issued
    decreases j
  {
    hide Inv, PyNext, Admissible, CollisionFree;
    if i < j {
      PyRunInv(c, hs, ops, i, j - 1);
      PyNextKeepsInv(c, hs[j - 1], ops[j - 1]);
    }
  }

  /** In the Python center too, a key rotated out or deleted with its row never opens a row again. */
  lemma {:induction false} PyDeadKeysStayDead(c: Config, hs: seq<History>, ops: seq<Op>, i: nat, j: nat, key: string)
    requires CollisionFree(c) && PyRun(c, hs, ops) && i <= j < |hs| && Inv(c, hs[i])
    requires key in hs[i].issued && MatchesNothing(c, hs[i], key)
    ensures MatchesNothing(c, hs[j], key)
    decreases j
  {
    hide Inv, PyNext, Admissible, CollisionFree, Matches;
    if i < j {
      PyDeadKeysStayDead(c, hs, ops, i, j - 1, key);
      PyRunInv(c, hs, ops, i, j - 1);
      forall id ensures !Matches(c, hs[j], id, key) {
        if Matches(c, hs[j], id, key) {
          PyNoNewMatch(c, hs[j - 1], ops[j - 1], key, id);
        }
      }
    }
  }

  /** Every table of every run from an empty database has different hashes, so one_or_none finds at most one row. */
  lemma PyHashesUnique(c: Config, hs: seq<History>, ops: seq<Op>, j: nat)
    requires CollisionFree(c) && PyRun(c, hs, ops) && hs[0] == EMPTY && j < |hs|
    ensures UniqueHashes(hs[j].table)
  {
    PyRunInv(c, hs, ops, 0, j);
  }

  /** The registration at step j of a run: never MultipleResultsFound, always the outcome of the transition. */
  method RegisterInRun(session: Session, p: RegisterParams, now: int,
                       ghost c: Config, ghost hs: seq<History>, ghost ops: seq<Op>, ghost j: nat)
    returns (r: Result<(Row, string, bool), PyError>)
    requires CollisionFree(c) && PyRun(c, hs, ops) && hs[0] == EMPTY && j < |ops| && ops[j] == Registering(p, now)
    requires session.Valid() && session.Abs() == hs[j].table
    modifies session, session.rows
    ensures session.Valid() && session.Abs() == hs[j + 1].table
    ensures r != Failure(MultipleResults) && session.Agrees(r, PyOutcome(hs[j].table, p, now))
  {
    PyHashesUnique(c, hs, ops, j);
    hide PyOutcome, UniqueHashes, WellFormed;
    r := session.RegisterOrReuse(p, now);
  }
}
