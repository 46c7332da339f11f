/**
 Agent runs and snapshot imports side by side: a run keeps reading the snapshot it was pinned to,
 whatever the agent and the data side commit later.
 */
module SnapshotPin {
  import opened Common
  import opened JccTables
  import opened Structured
  import opened AgentRows
  import opened AgentLifecycle
  import AgentTraces
  import opened JccDatabase
  import opened Publication

  datatype Service = Service(db: Database, jcc: Tables, published: seq<StructuredSnapshot>)

  const EMPTY_SERVICE := Service(EMPTY, NO_TABLES, [])

  /** One committed transaction on either side. */
  datatype Transaction = AgentSide(step: Step) | DataSide(operation: Operation)

  /** An agent step that resolves a snapshot reads the tables as they are then. */
  predicate Possible(w: Service, x: Transaction) {
    x.AgentSide? ==> Enabled(w.db, x.step) && (x.step.Resolve? ==> x.step.jcc == w.jcc)
  }

  function Commit(w: Service, x: Transaction): Service
    requires Possible(w, x)
  {
    match x
    case AgentSide(step) => w.(db := Apply(w.db, step))
    case DataSide(op) => w.(jcc := Perform(w.jcc, op), published := PublishedAfter(w.jcc, w.published, op))
  }

  ghost predicate Ran(ws: seq<Service>, xs: seq<Transaction>) {
    && |ws| == |xs| + 1 && ws[0] == EMPTY_SERVICE
    && forall k :: 0 <= k < |xs| ==> Possible(ws[k], xs[k]) && ws[k + 1] == Commit(ws[k], xs[k])
  }

  /** A recorded pin is what its snapshot still says. */
  predicate PinHolds(jcc: Tables, published: seq<StructuredSnapshot>, pin: SnapshotContext) {
    pin.snapshotId < |published| && pin.snapshotId < |jcc.snapshots|
    && ContextOf(jcc, FindSnapshot(jcc, pin.mode, pin.snapshotId)) == Some(pin)
  }

  predicate PinnedTo(db: Database, r: string, pin: SnapshotContext) { r in db.runs && db.runs[r].pin == Some(pin) }

  ghost predicate PinsHold(w: Service) {
    DatabaseOk(w.jcc, w.published)
    && forall r, pin :: PinnedTo(w.db, r, pin) ==> PinHolds(w.jcc, w.published, pin)
  }

  /** A step pins a run only by resolving it, to the context it resolved. */
  lemma NewPin(db: Database, s: Step, r: string, pin: SnapshotContext)
    requires Enabled(db, s) && PinnedTo(Apply(db, s), r, pin)
    ensures PinnedTo(db, r, pin) || (s.Resolve? && s.runId == r && ResolvedContext(db, s.jcc, s.configuredMode, r) == Some(pin))
  {
    match s {
      case Resolve(_, _, _) =>
      case SupersedeWaiting(c, except) =>
      case _ =>
    }
  }

  lemma ResolvedHolds(db: Database, jcc: Tables, published: seq<StructuredSnapshot>, mode: string, r: string)
    requires DatabaseOk(jcc, published) && ResolvedContext(db, jcc, mode, r).Some?
    ensures PinHolds(jcc, published, ResolvedContext(db, jcc, mode, r).value)
  {
    hide DatabaseOk;
    SnapshotCount(jcc, published);
  }

  lemma SnapshotCount(jcc: Tables, published: seq<StructuredSnapshot>)
    requires DatabaseOk(jcc, published)
    ensures |jcc.snapshots| == |published|
  {
    RowsBelongToBuilt(published);
    assert jcc.(current := map[]).snapshots == jcc.snapshots;
  }

  lemma CommitKeepsPins(w: Service, x: Transaction)
    requires PinsHold(w) && Possible(w, x)
    ensures PinsHold(Commit(w, x))
  {
    hide DatabaseOk, Enabled, Apply, Perform, PublishedAfter, ResolvedContext;
    var after := Commit(w, x);
    match x {
      case AgentSide(step) =>
        forall r, pin | PinnedTo(after.db, r, pin) ensures PinHolds(w.jcc, w.published, pin) {
          NewPin(w.db, step, r, pin);
          if !PinnedTo(w.db, r, pin) { ResolvedHolds(w.db, w.jcc, w.published, step.configuredMode, r); }
        }
      case DataSide(op) =>
        DataKeepsDatabase(w.jcc, w.published, op);
        forall r, pin | PinnedTo(after.db, r, pin) ensures PinHolds(after.jcc, after.published, pin) {
          assert PinnedTo(w.db, r, pin);
          OperationKeepsPublished(w.jcc, w.published, op, pin.snapshotId);
        }
    }
  }

  lemma DataKeepsDatabase(t: Tables, published: seq<StructuredSnapshot>, op: Operation)
    requires DatabaseOk(t, published)
    ensures DatabaseOk(Perform(t, op), PublishedAfter(t, published, op))
  {
    hide DatabaseOk, Import, Switch;
    match op {
      case DoImport(data) => ImportKeepsDatabase(t, published, data);
      case DoSwitch(mode, target) => SwitchKeepsDatabase(t, published, mode, target);
    }
  }

  lemma {:induction false} PinsAlwaysHold(ws: seq<Service>, xs: seq<Transaction>, k: nat)
    requires Ran(ws, xs) && k < |ws|
    ensures PinsHold(ws[k])
  {
    if k > 0 {
      PinsAlwaysHold(ws, xs, k - 1);
      hide PinsHold, Commit;
      CommitKeepsPins(ws[k - 1], xs[k - 1]);
    }
  }

  /** What one transaction leaves alone: a pin, and the row and content of a published snapshot. */
  predicate Keeps(a: Service, b: Service, r: string, pin: SnapshotContext) {
    PinnedTo(b.db, r, pin) && ContentOf(b.jcc, pin.snapshotId) == ContentOf(a.jcc, pin.snapshotId)
  }

  lemma CommitKeeps(w: Service, x: Transaction, r: string, pin: SnapshotContext)
    requires PinsHold(w) && Possible(w, x) && PinnedTo(w.db, r, pin)
    ensures Keeps(w, Commit(w, x), r, pin)
  {
    hide DatabaseOk, Enabled, Apply, Perform, PublishedAfter, ContentOf;
    assert PinHolds(w.jcc, w.published, pin);
    match x {
      case AgentSide(step) => AgentTraces.RunStepEvolves(w.db, step, r);
      case DataSide(op) => OperationKeepsPublished(w.jcc, w.published, op, pin.snapshotId);
    }
  }

  lemma {:induction false} PinKept(ws: seq<Service>, xs: seq<Transaction>, i: nat, j: nat, r: string, pin: SnapshotContext)
    requires Ran(ws, xs) && i <= j < |ws| && PinnedTo(ws[i].db, r, pin)
    ensures Keeps(ws[i], ws[j], r, pin)
    decreases j - i
  {
    hide PinsHold, Commit, ContentOf, PinnedTo, Possible;
    if i < j {
      PinKept(ws, xs, i, j - 1, r, pin);
      PinsAlwaysHold(ws, xs, j - 1);
      CommitKeeps(ws[j - 1], xs[j - 1], r, pin);
    }
  }

  /**
   Once pinned, every later execution of the run resolves to the recorded context, whichever mode is
   configured then, and the snapshot it reads still has exactly the rows it had when pinned.
   */
  lemma PinnedRunReadsTheSameSnapshot(ws: seq<Service>, xs: seq<Transaction>, i: nat, j: nat, r: string,
                                      pin: SnapshotContext, configuredMode: string)
    requires Ran(ws, xs) && i <= j < |ws| && PinnedTo(ws[i].db, r, pin)
    ensures ResolvedContext(ws[j].db, ws[j].jcc, configuredMode, r) == Some(pin)
    ensures ContentOf(ws[j].jcc, pin.snapshotId) == ContentOf(ws[i].jcc, pin.snapshotId)
  {
    hide Ran, DatabaseOk, ContentOf;
    PinKept(ws, xs, i, j, r, pin);
    PinsAlwaysHold(ws, xs, j);
    assert PinnedTo(ws[j].db, r, pin);
  }
}
