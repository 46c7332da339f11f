/**
 One conversation's runtime running against the shared database.

 The world interleaves API transactions, enqueues, the single consumer, the execution it awaits,
 and process restarts. It discharges what AgentLifecycle asks of its callers: every pair that the
 runtime hands to a transaction is a run together with its own message.
 */
module AgentSystem {
  import opened Common
  import opened AgentRows
  import opened AgentRuntime
  import L = AgentLifecycle
  import AgentEffects

  /** `enqueuing` holds the runtime lock; `task` is the execution the consumer awaits. */
  datatype World = World(
    db: Database, slot: QueueState, enqueuing: Option<Item>, superseded: bool,
    task: Option<nat>, live: set<nat>, nextTask: nat)

  datatype Move =
    | Transaction(step: L.Step)
    | BeginEnqueue(item: Item)
    | SupersedeOlder
    | PutNewest
    | Take
    | Skip
    | Execute
    | Orchestrate(step: L.Step)
    | ExecutionEnds
    | Release
    | Restart

  predicate PairIn(db: Database, conversationId: string, item: Item) {
    L.Paired(db, item.messageId, item.runId) && db.runs[item.runId].conversationId == conversationId
  }

  /** The transactions an execution of `item` commits, with the arguments it was created with. */
  predicate ExecutionStep(conversationId: string, item: Item, s: L.Step) {
    match s
    case Start(m, r, _) => m == item.messageId && r == item.runId
    case Resolve(r, _, _) => r == item.runId
    case Stream(m, r, _) => m == item.messageId && r == item.runId
    case Answer(c, m, r, _, _, _, _, _) => c == conversationId && m == item.messageId && r == item.runId
    case End(m, r, status, _, _, _, _) =>
      m == item.messageId && r == item.runId && (status == Failed || status == Cancelled)
    case _ => false
  }

  predicate FreshIds(db: Database, s: L.Step) { s.Answer? ==> s.answerId !in db.messages }

  predicate CanMove(w: World, c: string, v: Move) {
    match v
    case Transaction(s) => L.Enabled(w.db, s)
    case BeginEnqueue(item) => w.enqueuing.None? && PairIn(w.db, c, item)
    case SupersedeOlder => w.enqueuing.Some? && !w.superseded
    case PutNewest => w.enqueuing.Some? && w.superseded
    case Take => w.slot.held.None? && w.slot.queue != []
    case Skip => w.slot.held.Some? && w.task.None?
                 && !RunIn(w.db, w.slot.held.value.runId, {Queued})
    case Execute => w.slot.held.Some? && w.task.None? && RunIn(w.db, w.slot.held.value.runId, {Queued})
    case Orchestrate(s) => w.slot.held.Some? && w.task.Some? && w.task.value in w.live
                           && ExecutionStep(c, w.slot.held.value, s) && FreshIds(w.db, s)
    case ExecutionEnds => w.task.Some?
    case Release => w.slot.held.Some? && w.task.Some? && w.task.value !in w.live
    case Restart => true
  }

  ghost predicate WorldInv(w: World, c: string) {
    && L.Inv(w.db)
    && Accounted(w.slot)
    && (forall item :: item in w.slot.queue ==> PairIn(w.db, c, item))
    && (w.slot.held.Some? ==> PairIn(w.db, c, w.slot.held.value))
    && (w.enqueuing.Some? ==> PairIn(w.db, c, w.enqueuing.value))
    && (w.superseded ==> w.enqueuing.Some?)
    && (w.task.Some? ==> w.slot.held.Some? && w.task.value < w.nextTask)
    && (forall t :: t in w.live ==> w.task == Some(t))
  }

  lemma PairsPersist(db: Database, s: L.Step, c: string, item: Item)
    requires L.Enabled(db, s) && PairIn(db, c, item)
    ensures PairIn(L.Apply(db, s), c, item)
  {
    match s
    case SupersedeWaiting(_, _) =>
    case _ =>
  }

  /** Whatever the consumer's execution commits meets the caller obligations of the lifecycle. */
  lemma ExecutionStepsAreEnabled(w: World, c: string, s: L.Step)
    requires WorldInv(w, c) && CanMove(w, c, Orchestrate(s))
    ensures L.Enabled(w.db, s)
  {
  }

  function Committed(w: World, s: L.Step): World
    requires L.Enabled(w.db, s)
  {
    w.(db := L.Apply(w.db, s))
  }

  /** What the successor of a state is defined for; never assumed of a run, but proved in MoveKeepsWorld. */
  predicate CanApply(w: World, v: Move) { Accounted(w.slot) && (v.Orchestrate? ==> L.Enabled(w.db, v.step)) }

  function Moved(w: World, c: string, v: Move): World
    requires CanMove(w, c, v) && CanApply(w, v)
  {
    match v
    case Transaction(s) => Committed(w, s)
    case BeginEnqueue(item) => w.(enqueuing := Some(item), superseded := false)
    case SupersedeOlder => Committed(w, L.SupersedeWaiting(c, w.enqueuing.value.messageId)).(superseded := true)
    case PutNewest => w.(slot := Replaced(w.slot, w.enqueuing.value), enqueuing := None, superseded := false)
    case Take => w.(slot := Taken(w.slot))
    case Skip => w.(slot := Released(w.slot))
    case Execute => w.(task := Some(w.nextTask), live := w.live + {w.nextTask}, nextTask := w.nextTask + 1)
    case Orchestrate(s) => Committed(w, s)
    case ExecutionEnds => w.(live := w.live - {w.task.value})
    case Release => w.(slot := Released(w.slot), task := None)
    case Restart => World(w.db, IDLE, None, false, None, {}, w.nextTask)
  }

  lemma CommitKeepsWorld(w: World, c: string, s: L.Step)
    requires WorldInv(w, c) && L.Enabled(w.db, s)
    ensures WorldInv(Committed(w, s), c)
  {
    L.StepKeepsInv(w.db, s);
    forall item | PairIn(w.db, c, item) ensures PairIn(L.Apply(w.db, s), c, item) { PairsPersist(w.db, s, c, item); }
  }

  /** Every move keeps the queue accounted for, its pairs matched, and at most one execution alive. */
  lemma MoveKeepsWorld(w: World, c: string, v: Move)
    requires WorldInv(w, c) && CanMove(w, c, v)
    ensures CanApply(w, v)
    ensures WorldInv(Moved(w, c, v), c)
  {
    match v
    case Transaction(s) => CommitKeepsWorld(w, c, s);
    case SupersedeOlder => CommitKeepsWorld(w, c, L.SupersedeWaiting(c, w.enqueuing.value.messageId));
    case Orchestrate(s) => ExecutionStepsAreEnabled(w, c, s); CommitKeepsWorld(w, c, s);
    case _ =>
  }

  /** A run from the empty state: each move is one that the state allows, and leads to its outcome. */
  ghost predicate WorldTrace(worlds: seq<World>, moves: seq<Move>, c: string) {
    && |worlds| == |moves| + 1
    && worlds[0] == World(EMPTY, IDLE, None, false, None, {}, 0)
    && forall k :: 0 <= k < |moves| ==>
         && CanMove(worlds[k], c, moves[k])
         && (CanApply(worlds[k], moves[k]) ==> worlds[k + 1] == Moved(worlds[k], c, moves[k]))
  }

  lemma {:induction false} WorldInvAlways(worlds: seq<World>, moves: seq<Move>, c: string, k: nat)
    requires WorldTrace(worlds, moves, c) && k < |worlds|
    ensures WorldInv(worlds[k], c)
  {
    if k > 0 {
      WorldInvAlways(worlds, moves, c, k - 1);
      MoveKeepsWorld(worlds[k - 1], c, moves[k - 1]);
    }
  }

  /** At every point of every run: one slot, an exact counter, at most one live execution, and it executes the held pair. */
  lemma ConsumerDiscipline(worlds: seq<World>, moves: seq<Move>, c: string, k: nat)
    requires WorldTrace(worlds, moves, c) && k < |worlds|
    ensures var w := worlds[k];
            && |w.slot.queue| <= 1
            && w.slot.unfinished == |w.slot.queue| + HeldCount(w.slot)
            && |w.live| <= 1
            && (w.live != {} ==> w.slot.held.Some? && PairIn(w.db, c, w.slot.held.value))
  {
    WorldInvAlways(worlds, moves, c, k);
    var w := worlds[k];
    if w.live != {} {
      assert w.live == {w.task.value};
    }
  }

  /** When an enqueue's supersede step commits, only the newest message of the conversation is queued. */
  lemma NewestIsOnlyQueued(worlds: seq<World>, moves: seq<Move>, c: string, k: nat, r: string)
    requires WorldTrace(worlds, moves, c) && k < |moves| && moves[k] == SupersedeOlder
    requires r in worlds[k + 1].db.runs && worlds[k + 1].db.runs[r].conversationId == c
    requires worlds[k + 1].db.runs[r].status == Queued
    ensures worlds[k + 1].enqueuing.Some? && r == worlds[k + 1].enqueuing.value.runId
  {
    WorldInvAlways(worlds, moves, c, k);
    WorldInvAlways(worlds, moves, c, k + 1);
    var w := worlds[k + 1];
    var item := w.enqueuing.value;
    assert w.db == CancelQueued(worlds[k].db, c, item.messageId);
    assert w.db.runs[r].messageId == item.messageId;
    assert L.SharedMessage(w.db, r, item.runId);
  }

  // ---- Progress --------------------------------------------------------------------------

  /** In every state the consumer has its next move: it takes, skips or executes, ends, releases. */
  lemma ConsumerHasItsMove(w: World, c: string)
    requires WorldInv(w, c)
    ensures w.slot.held.None? && w.slot.queue != [] <==> CanMove(w, c, Take)
    ensures w.slot.held.Some? && w.task.None? ==>
              && (CanMove(w, c, Execute) <==> w.db.runs[w.slot.held.value.runId].status == Queued)
              && (CanMove(w, c, Skip) <==> w.db.runs[w.slot.held.value.runId].status != Queued)
    ensures w.task.Some? ==> CanMove(w, c, if w.task.value in w.live then ExecutionEnds else Release)
  {
  }

  /** When an execution ends, its item can be released, which leaves the consumer free and the rows alone. */
  lemma EndedExecutionIsReleased(w: World, c: string)
    requires WorldInv(w, c) && w.task.Some? && w.task.value in w.live
    ensures CanMove(w, c, ExecutionEnds) && CanApply(w, ExecutionEnds)
    ensures var ended := Moved(w, c, ExecutionEnds);
            && CanMove(ended, c, Release) && CanApply(ended, Release)
            && Moved(ended, c, Release) ==
               World(w.db, QueueState(w.slot.queue, |w.slot.queue|, None), w.enqueuing, w.superseded, None, {}, w.nextTask)
  {
    assert w.live == {w.task.value};
  }

  /** The moves that bring an interrupted pair back to work after the process died. */
  function ResumeMoves(item: Item, now: int): seq<Move> {
    [Restart, Transaction(L.Requeue(item.messageId, item.runId)), BeginEnqueue(item), SupersedeOlder, PutNewest, Take,
     Execute, Orchestrate(L.Start(item.messageId, item.runId, now))]
  }

  /** The moves are possible one after the other and lead through these states. */
  ghost predicate Leads(worlds: seq<World>, moves: seq<Move>, c: string) {
    |worlds| == |moves| + 1
    && forall k :: 0 <= k < |moves| ==>
         CanMove(worlds[k], c, moves[k]) && CanApply(worlds[k], moves[k]) && worlds[k + 1] == Moved(worlds[k], c, moves[k])
  }

  lemma OneMoveMore(worlds: seq<World>, moves: seq<Move>, c: string, v: Move) returns (more: seq<World>)
    requires Leads(worlds, moves, c) && WorldInv(worlds[|worlds| - 1], c) && CanMove(worlds[|worlds| - 1], c, v)
    ensures Leads(more, moves + [v], c) && worlds <= more && WorldInv(more[|more| - 1], c) && CanApply(worlds[|worlds| - 1], v)
    ensures more[|more| - 1] == Moved(worlds[|worlds| - 1], c, v)
  {
    hide WorldInv, CanMove, CanApply, Moved;
    MoveKeepsWorld(worlds[|worlds| - 1], c, v);
    more := worlds + [Moved(worlds[|worlds| - 1], c, v)];
  }

  lemma RequeuedPair(db: Database, c: string, item: Item)
    requires L.Inv(db) && PairIn(db, c, item)
    requires db.runs[item.runId].status == Running || db.runs[item.runId].status == Cancelling
    ensures Waits(L.Apply(db, L.Requeue(item.messageId, item.runId)), c, item)
  {
    AgentEffects.RequeueEffect(db, item.messageId, item.runId);
  }

  /** The pair is stored and waits for an execution. */
  predicate Waits(db: Database, c: string, item: Item) { PairIn(db, c, item) && db.runs[item.runId].status == Queued }

  lemma SupersedingSparesNewest(db: Database, c: string, item: Item)
    requires L.Inv(db) && Waits(db, c, item)
    ensures Waits(L.Apply(db, L.SupersedeWaiting(c, item.messageId)), c, item)
  {
    AgentEffects.SupersedeEffect(db, c, item.messageId);
  }

  /** The pair runs, and has done since `now`. */
  predicate Runs(db: Database, item: Item, now: int) {
    && item.runId in db.runs && item.messageId in db.messages
    && db.runs[item.runId].status == Running && db.messages[item.messageId].status == Running
    && db.runs[item.runId].startedAt == Some(now) && !db.runs[item.runId].cancelRequested
  }

  lemma StartedPairRuns(db: Database, c: string, item: Item, now: int)
    requires L.Inv(db) && Waits(db, c, item)
    ensures Runs(L.Apply(db, L.Start(item.messageId, item.runId, now)), item, now)
  {
    AgentEffects.StartEffect(db, item.messageId, item.runId, now);
  }

  /** Nothing is queued, held or executed, and no enqueue is under way; the next execution has this number. */
  predicate Idle(w: World, task: nat) {
    w.slot == IDLE && w.enqueuing == None && !w.superseded && w.task == None && w.live == {} && w.nextTask == task
  }

  /** Only this pair is queued. */
  predicate OnlyQueued(w: World, item: Item, task: nat) {
    w.slot == QueueState([item], 1, None) && w.enqueuing == None && w.task == None && w.live == {} && w.nextTask == task
  }

  /** The pair runs, held by the consumer, in the only live execution. */
  predicate Executes(w: World, item: Item, task: nat, now: int) {
    && Runs(w.db, item, now) && w.slot.held == Some(item) && w.slot.queue == []
    && w.task == Some(task) && w.live == {task}
  }

  /** An idle conversation queues a waiting pair. */
  lemma QueuesWaiting(before: seq<World>, done: seq<Move>, c: string, item: Item, task: nat) returns (worlds: seq<World>)
    requires before != [] && Leads(before, done, c)
    requires var w := before[|before| - 1]; WorldInv(w, c) && Waits(w.db, c, item) && Idle(w, task)
    ensures Leads(worlds, done + [BeginEnqueue(item)] + [SupersedeOlder] + [PutNewest], c) && before <= worlds
    ensures var w := worlds[|worlds| - 1]; WorldInv(w, c) && Waits(w.db, c, item) && OnlyQueued(w, item, task)
  {
    hide L.Inv, L.Enabled, L.Apply, Leads, Waits;
    InvOf(before[|before| - 1], c);
    WaitingIsPaired(before[|before| - 1].db, c, item);
    worlds := OneMoveMore(before, done, c, BeginEnqueue(item));
    SupersedingSparesNewest(worlds[|worlds| - 1].db, c, item);
    SupersedeIsEnabled(worlds[|worlds| - 1].db, c, item);
    worlds := OneMoveMore(worlds, done + [BeginEnqueue(item)], c, SupersedeOlder);
    worlds := OneMoveMore(worlds, done + [BeginEnqueue(item)] + [SupersedeOlder], c, PutNewest);
  }

  lemma InvOf(w: World, c: string)
    requires WorldInv(w, c)
    ensures L.Inv(w.db)
  {
  }

  lemma WaitingIsPaired(db: Database, c: string, item: Item)
    requires Waits(db, c, item)
    ensures PairIn(db, c, item) && RunIn(db, item.runId, {Queued})
  {
  }

  /** The consumer takes the queued pair and executes it. */
  lemma ExecutesQueued(before: seq<World>, done: seq<Move>, c: string, item: Item, task: nat, now: int) returns (worlds: seq<World>)
    requires before != [] && Leads(before, done, c)
    requires var w := before[|before| - 1]; WorldInv(w, c) && Waits(w.db, c, item) && OnlyQueued(w, item, task)
    ensures Leads(worlds, done + [Take] + [Execute] + [Orchestrate(L.Start(item.messageId, item.runId, now))], c) && before <= worlds
    ensures Executes(worlds[|worlds| - 1], item, task, now)
  {
    hide L.Inv, L.Enabled, L.Apply, Leads, Waits, Runs, PairIn;
    InvOf(before[|before| - 1], c);
    WaitingIsPaired(before[|before| - 1].db, c, item);
    worlds := OneMoveMore(before, done, c, Take);
    worlds := OneMoveMore(worlds, done + [Take], c, Execute);
    StartedPairRuns(worlds[|worlds| - 1].db, c, item, now);
    worlds := OneMoveMore(worlds, done + [Take] + [Execute], c, Orchestrate(L.Start(item.messageId, item.runId, now)));
  }

  lemma SupersedeIsEnabled(db: Database, c: string, item: Item)
    ensures L.Enabled(db, L.SupersedeWaiting(c, item.messageId))
  {
  }

  /**
   A pair that was running or being cancelled when the process died can always be brought back: the
   restart, its requeue, the enqueue and the consumer's moves are all possible in this order, and at
   their end the pair runs again, held by the consumer, in the only live execution.
   */
  lemma InterruptedPairResumes(w: World, c: string, item: Item, now: int) returns (worlds: seq<World>)
    requires WorldInv(w, c) && PairIn(w.db, c, item)
    requires w.db.runs[item.runId].status == Running || w.db.runs[item.runId].status == Cancelling
    ensures Leads(worlds, ResumeMoves(item, now), c) && worlds[0] == w
    ensures Executes(worlds[8], item, w.nextTask, now)
  {
    hide WorldInv, L.Inv, L.Apply, Executes, Waits, OnlyQueued;
    var requeue := Transaction(L.Requeue(item.messageId, item.runId));
    InvOf(w, c);
    RequeuedPair(w.db, c, item);
    worlds := [w];
    worlds := OneMoveMore(worlds, [], c, Restart);
    worlds := OneMoveMore(worlds, [] + [Restart], c, requeue);
    worlds := QueuesWaiting(worlds, [] + [Restart] + [requeue], c, item, w.nextTask);
    var queued := [] + [Restart] + [requeue] + [BeginEnqueue(item)] + [SupersedeOlder] + [PutNewest];
    worlds := ExecutesQueued(worlds, queued, c, item, w.nextTask, now);
    assert queued + [Take] + [Execute] + [Orchestrate(L.Start(item.messageId, item.runId, now))] == ResumeMoves(item, now);
  }
}
