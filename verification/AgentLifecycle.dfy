/**
 Every interleaving of the agent's committed transactions.

 A step is one committed transaction with the arguments its caller passed. Enabled says only what
 callers guarantee: ids of new rows are fresh, and a (message, run) pair names a run together with
 its own message. The order of steps is arbitrary.
 */
module AgentLifecycle {
  import opened Common
  import opened JccTables
  import opened AgentRows

  datatype Step =
    | NewConversation(id: string, userId: string, title: string, mode: StrategyMode)
    | EditConversation(userId: string, conversationId: string, newTitle: Option<string>, newMode: Option<StrategyMode>)
    | Archive(userId: string, conversationId: string)
    | Post(messageId: string, userId: string, conversationId: string, content: string,
           postMode: Option<StrategyMode>, requestId: Option<string>)
    | AttachRun(runId: string, messageId: string)
    | Start(messageId: string, runId: string, now: int)
    | Resolve(runId: string, jcc: Tables, configuredMode: string)
    | Stream(messageId: string, runId: string, content: string)
    | Answer(conversationId: string, messageId: string, runId: string, answerId: string,
             answer: string, mode: StrategyMode, now: int, usage: Usage)
    | End(messageId: string, runId: string, status: Status, errorCode: string, content: string, now: int, usage: Usage)
    | CancelCurrent(messageId: string, runId: string, now: int)
    | CancelWaiting(messageId: string, runId: string)
    | SupersedeWaiting(conversationId: string, messageId: string)
    | Requeue(messageId: string, runId: string)
    | AskCancel(userId: string, conversationId: string, messageId: string, runId: string)

  predicate Paired(db: Database, messageId: string, runId: string) {
    runId in db.runs && db.runs[runId].messageId == messageId
  }

  predicate Enabled(db: Database, s: Step) {
    match s
    case NewConversation(id, _, _, _) => id !in db.conversations
    case EditConversation(_, _, _, _) => true
    case Archive(_, _) => true
    case Post(id, _, _, _, _, _) => id !in db.messages
    case AttachRun(id, m) => id !in db.runs && m in db.messages && db.messages[m].role == User
    case Start(m, r, _) => Paired(db, m, r)
    case Resolve(_, _, _) => true
    case Stream(m, r, _) => Paired(db, m, r)
    case Answer(c, m, r, id, _, _, _, _) =>
      Paired(db, m, r) && db.runs[r].conversationId == c && id !in db.messages
    case End(m, r, status, _, _, _, _) => Paired(db, m, r) && (status == Failed || status == Cancelled)
    case CancelCurrent(m, r, _) => Paired(db, m, r)
    case CancelWaiting(m, r) => Paired(db, m, r)
    case SupersedeWaiting(_, _) => true
    case Requeue(m, r) => Paired(db, m, r)
    case AskCancel(_, _, _, _) => true
  }

  function Apply(db: Database, s: Step): Database
    requires Enabled(db, s)
  {
    match s
    case NewConversation(id, u, title, mode) => CreateConversation(db, id, u, title, mode)
    case EditConversation(u, c, title, mode) => UpdateConversation(db, u, c, title, mode)
    case Archive(u, c) => ArchiveConversation(db, u, c)
    case Post(id, u, c, content, mode, q) => CreateMessage(db, id, u, c, content, mode, q)
    case AttachRun(id, m) => EnsureRun(db, id, m)
    case Start(m, r, now) => MarkRunning(db, m, r, now)
    case Resolve(r, jcc, mode) => ResolveSnapshot(db, jcc, mode, r)
    case Stream(m, r, content) => SaveStreaming(db, m, r, content)
    case Answer(c, m, r, id, answer, mode, now, usage) => Complete(db, c, m, r, id, answer, mode, now, usage)
    case End(m, r, status, e, content, now, usage) => Finish(db, m, r, status, e, content, now, usage)
    case CancelCurrent(m, r, now) => MarkCancelled(db, m, r, now)
    case CancelWaiting(m, r) => CancelQueuedMessage(db, m, r)
    case SupersedeWaiting(c, m) => CancelQueued(db, c, m)
    case Requeue(m, r) => RequeueRun(db, r, m)
    case AskCancel(u, c, m, r) => RequestCancel(db, u, c, m, r)
  }

  // ---- Invariant -------------------------------------------------------------------------

  /** The columns a run shares with its user message. */
  predicate Agree(run: Run, message: Message) {
    run.status == message.status && run.errorCode == message.errorCode
    && run.startedAt == message.startedAt && run.completedAt == message.completedAt
  }

  predicate Terminal(status: Status) { status in {Completed, Failed, Cancelled} }

  /** The cancel flag is exactly "cancelling or cancelled"; error and end time come only with an end. */
  predicate RunShape(run: Run) {
    && run.status != Streaming
    && (run.cancelRequested <==> run.status in {Cancelling, Cancelled})
    && (!Terminal(run.status) ==> run.errorCode == None && run.completedAt == None)
    && (run.status == Completed ==> run.errorCode == None && run.completedAt.Some?)
    && (run.status == Failed ==> run.errorCode.Some? && run.completedAt.Some?)
    && (run.status in {Running, Completed} ==> run.startedAt.Some?)
  }

  predicate Answers(db: Database, answerId: string, runId: string) {
    answerId in db.messages && runId in db.runs
    && db.messages[answerId].role == Assistant
    && db.messages[answerId].conversationId == db.runs[runId].conversationId
    && db.messages[answerId].content == AnswerContent(db.runs[runId].outputContent)
  }

  ghost predicate HasAnswer(db: Database, runId: string) { exists a :: Answers(db, a, runId) }

  /** A run belongs to a user message of its conversation, in lockstep with it; completed means answered. */
  ghost predicate RunOk(db: Database, r: string)
    requires r in db.runs
  {
    var run := db.runs[r];
    && run.messageId in db.messages
    && db.messages[run.messageId].role == User
    && db.messages[run.messageId].conversationId == run.conversationId
    && Agree(run, db.messages[run.messageId])
    && RunShape(run)
    && (run.status == Completed ==> HasAnswer(db, r))
  }

  predicate RunFor(db: Database, r: string, m: string) { r in db.runs && db.runs[r].messageId == m }

  ghost predicate HasRun(db: Database, m: string) { exists r :: RunFor(db, r, m) }

  /** Ownership follows the conversation; before its run exists a user message is as posted; answers are final. */
  ghost predicate MessageOk(db: Database, m: string)
    requires m in db.messages
  {
    var msg := db.messages[m];
    && Owns(db, msg.userId, msg.conversationId)
    && StorableContent(msg.content)
    && (msg.role == User && !HasRun(db, m) ==>
          msg.status == Queued && msg.errorCode == None && msg.startedAt == None && msg.completedAt == None)
    && (msg.role == Assistant ==> msg.status == Completed && msg.clientRequestId == None)
  }

  predicate SharedMessage(db: Database, r: string, q: string) {
    r in db.runs && q in db.runs && db.runs[r].messageId == db.runs[q].messageId
  }

  /** Two messages of one conversation with one sequence number or one client request id. */
  predicate Clash(db: Database, m: string, n: string) {
    m in db.messages && n in db.messages && db.messages[m].conversationId == db.messages[n].conversationId
    && (db.messages[m].sequence == db.messages[n].sequence
        || (db.messages[m].clientRequestId.Some? && db.messages[m].clientRequestId == db.messages[n].clientRequestId))
  }

  ghost predicate Dense(s: set<nat>) {
    0 !in s && forall x: nat :: x + 1 in s && x != 0 ==> x in s
  }

  ghost predicate RunsOk(db: Database) { forall r {:trigger RunOk(db, r)} :: r in db.runs ==> RunOk(db, r) }
  ghost predicate MessagesOk(db: Database) { forall m {:trigger MessageOk(db, m)} :: m in db.messages ==> MessageOk(db, m) }
  ghost predicate OneRunPerMessage(db: Database) { forall r, q :: SharedMessage(db, r, q) ==> r == q }
  ghost predicate NoClash(db: Database) { forall m, n :: Clash(db, m, n) ==> m == n }
  ghost predicate Numbered(db: Database) { forall c :: Dense(Sequences(db, c)) }

  ghost predicate Inv(db: Database) {
    RunsOk(db) && MessagesOk(db) && OneRunPerMessage(db) && NoClash(db) && Numbered(db)
  }

  // ---- What message headers determine ----------------------------------------------------

  /** Message columns that no update touches. */
  predicate SameHeader(a: Message, b: Message) {
    a.conversationId == b.conversationId && a.userId == b.userId && a.role == b.role && a.content == b.content
    && a.sequence == b.sequence && a.strategyMode == b.strategyMode && a.clientRequestId == b.clientRequestId
  }

  ghost predicate SameHeaders(db: Database, after: Database) {
    db.messages.Keys == after.messages.Keys
    && forall m {:trigger after.messages[m]} :: m in db.messages ==> SameHeader(db.messages[m], after.messages[m])
  }

  lemma SameSequences(db: Database, after: Database, c: string)
    requires SameHeaders(db, after)
    ensures Sequences(after, c) == Sequences(db, c)
  {
    forall x | x in Sequences(db, c) ensures x in Sequences(after, c) {
      var m :| m in db.messages && db.messages[m].conversationId == c && db.messages[m].sequence == x;
      assert m in after.messages && after.messages[m].sequence == x;
    }
    forall x | x in Sequences(after, c) ensures x in Sequences(db, c) {
      var m :| m in after.messages && after.messages[m].conversationId == c && after.messages[m].sequence == x;
      assert m in db.messages && db.messages[m].sequence == x;
    }
  }

  lemma SameHeadersKeepLog(db: Database, after: Database)
    requires NoClash(db) && Numbered(db) && SameHeaders(db, after)
    ensures NoClash(after) && Numbered(after)
  {
    forall c ensures Dense(Sequences(after, c)) { SameSequences(db, after, c); }
    forall m, n | Clash(after, m, n) ensures m == n {
      assert SameHeader(db.messages[m], after.messages[m]) && SameHeader(db.messages[n], after.messages[n]);
      assert Clash(db, m, n);
    }
  }

  /** A run whose row did not change keeps its answer when no message disappears or changes its header. */
  lemma AnswerPersists(db: Database, after: Database, r: string)
    requires r in db.runs && r in after.runs && after.runs[r] == db.runs[r]
    requires HasAnswer(db, r)
    requires forall a :: Answers(db, a, r) ==> a in after.messages && SameHeader(db.messages[a], after.messages[a])
    ensures HasAnswer(after, r)
  {
    var a :| Answers(db, a, r);
    assert Answers(after, a, r);
  }

  lemma SameRunKeys(db: Database, after: Database)
    requires db.runs.Keys == after.runs.Keys
    requires forall r {:trigger after.runs[r]} :: r in db.runs ==> db.runs[r].messageId == after.runs[r].messageId
    ensures forall m :: HasRun(after, m) <==> HasRun(db, m)
    ensures OneRunPerMessage(db) ==> OneRunPerMessage(after)
  {
    forall m
      ensures HasRun(after, m) <==> HasRun(db, m)
    {
      if HasRun(db, m) { var r :| RunFor(db, r, m); assert RunFor(after, r, m); }
      if HasRun(after, m) { var r :| RunFor(after, r, m); assert RunFor(db, r, m); }
    }
    if OneRunPerMessage(db) {
      forall r, q | SharedMessage(after, r, q) ensures r == q {
        assert after.runs[r].messageId == db.runs[r].messageId && after.runs[q].messageId == db.runs[q].messageId;
        assert SharedMessage(db, r, q);
      }
    }
  }

  // ---- The common shape of paired updates ------------------------------------------------

  function PairUpdate(db: Database, runId: string, messageId: string, runFrom: set<Status>, messageFrom: set<Status>,
                      status: Status, p: RunPatch, mp: MessagePatch): Database
  {
    UpdateMessage(UpdateRun(db, runId, runFrom, status, p), messageId, messageFrom, status, mp)
  }

  /** Two guards agree when they admit the same statuses a run can have. */
  ghost predicate GuardsAgree(runFrom: set<Status>, messageFrom: set<Status>) {
    forall s: Status :: s != Streaming ==> (s in runFrom <==> s in messageFrom)
  }

  predicate PatchesAgree(p: RunPatch, mp: MessagePatch) {
    p.errorCode == mp.errorCode && p.startedAt == mp.startedAt && p.completedAt == mp.completedAt
  }

  /** A pair and its update: who may be updated, and with what. */
  ghost predicate GoodPairUpdate(db: Database, runId: string, messageId: string, runFrom: set<Status>,
                                 messageFrom: set<Status>, status: Status, p: RunPatch, mp: MessagePatch)
  {
    Paired(db, messageId, runId) && GuardsAgree(runFrom, messageFrom) && PatchesAgree(p, mp)
    && Completed !in runFrom
    && (RunIn(db, runId, runFrom) ==> RunShape(PatchedRun(db.runs[runId], status, p)))
  }

  /** The updated pair moves together, although its two rows are guarded independently. */
  lemma UpdatedPairAgrees(db: Database, runId: string, messageId: string, runFrom: set<Status>,
                          messageFrom: set<Status>, status: Status, p: RunPatch, mp: MessagePatch)
    requires Inv(db) && GoodPairUpdate(db, runId, messageId, runFrom, messageFrom, status, p, mp)
    ensures var after := PairUpdate(db, runId, messageId, runFrom, messageFrom, status, p, mp);
            && (RunIn(db, runId, runFrom) <==> MessageIn(db, messageId, messageFrom))
            && (!RunIn(db, runId, runFrom) ==> after == db)
            && messageId in after.messages && Agree(after.runs[runId], after.messages[messageId])
            && RunShape(after.runs[runId]) && SameHeaders(db, after)
  {
    assert RunOk(db, runId);
  }

  lemma PairUpdateKeepsRun(db: Database, r: string, runId: string, messageId: string, runFrom: set<Status>,
                           messageFrom: set<Status>, status: Status, p: RunPatch, mp: MessagePatch)
    requires Inv(db) && GoodPairUpdate(db, runId, messageId, runFrom, messageFrom, status, p, mp)
    requires status != Completed && r in db.runs
    ensures RunOk(PairUpdate(db, runId, messageId, runFrom, messageFrom, status, p, mp), r)
  {
    var after := PairUpdate(db, runId, messageId, runFrom, messageFrom, status, p, mp);
    UpdatedPairAgrees(db, runId, messageId, runFrom, messageFrom, status, p, mp);
    assert RunOk(db, r) && RunOk(db, runId);
    if r != runId {
      assert !SharedMessage(db, r, runId);
      if db.runs[r].status == Completed { AnswerPersists(db, after, r); }
    }
  }

  lemma PairUpdateKeepsMessages(db: Database, runId: string, messageId: string, runFrom: set<Status>,
                                messageFrom: set<Status>, status: Status, p: RunPatch, mp: MessagePatch)
    requires Inv(db) && GoodPairUpdate(db, runId, messageId, runFrom, messageFrom, status, p, mp)
    ensures var after := PairUpdate(db, runId, messageId, runFrom, messageFrom, status, p, mp);
            MessagesOk(after) && OneRunPerMessage(after) && NoClash(after) && Numbered(after)
  {
    var after := PairUpdate(db, runId, messageId, runFrom, messageFrom, status, p, mp);
    UpdatedPairAgrees(db, runId, messageId, runFrom, messageFrom, status, p, mp);
    SameRunKeys(db, after);
    SameHeadersKeepLog(db, after);
    assert RunOk(db, runId) && RunFor(db, runId, messageId);
    forall m | m in after.messages
      ensures MessageOk(after, m)
    {
      assert MessageOk(db, m) && SameHeader(db.messages[m], after.messages[m]);
      if m == messageId { assert HasRun(after, m); }
    }
  }

  /** A paired update that does not complete the run keeps the whole invariant. */
  lemma PairUpdateKeepsInv(db: Database, runId: string, messageId: string, runFrom: set<Status>,
                           messageFrom: set<Status>, status: Status, p: RunPatch, mp: MessagePatch)
    requires Inv(db) && GoodPairUpdate(db, runId, messageId, runFrom, messageFrom, status, p, mp)
    requires status != Completed
    ensures Inv(PairUpdate(db, runId, messageId, runFrom, messageFrom, status, p, mp))
  {
    var after := PairUpdate(db, runId, messageId, runFrom, messageFrom, status, p, mp);
    PairUpdateKeepsMessages(db, runId, messageId, runFrom, messageFrom, status, p, mp);
    forall r | r in after.runs
      ensures RunOk(after, r)
    {
      PairUpdateKeepsRun(db, r, runId, messageId, runFrom, messageFrom, status, p, mp);
    }
  }

  // ---- Each kind of step keeps the invariant ---------------------------------------------

  lemma StartKeepsInv(db: Database, m: string, r: string, now: int)
    requires Inv(db) && Paired(db, m, r)
    ensures Inv(MarkRunning(db, m, r, now))
  {
    assert RunOk(db, r);
    if CanStart(db, m, r) {
      PairUpdateKeepsInv(db, r, m, {Queued}, {Queued}, Running,
                         KEEP.(startedAt := Some(now), cancelRequested := Some(false)),
                         KEEP_MESSAGE.(startedAt := Some(now)));
    }
  }

  lemma EndKeepsInv(db: Database, m: string, r: string, status: Status, e: string, content: string, now: int, usage: Usage)
    requires Inv(db) && Paired(db, m, r) && (status == Failed || status == Cancelled)
    ensures Inv(Finish(db, m, r, status, e, content, now, usage))
  {
    assert RunOk(db, r);
    PairUpdateKeepsInv(db, r, m, {Queued, Running, Cancelling}, {Queued, Running, Streaming, Cancelling}, status,
                       KEEP.(cancelRequested := Some(status == Cancelled), errorCode := Some(e),
                             completedAt := Some(now), outputContent := Some(content),
                             inputTokens := usage.inputTokens, outputTokens := usage.outputTokens),
                       KEEP_MESSAGE.(errorCode := Some(e), completedAt := Some(now)));
  }

  lemma CancelCurrentKeepsInv(db: Database, m: string, r: string, now: int)
    requires Inv(db) && Paired(db, m, r)
    ensures Inv(MarkCancelled(db, m, r, now))
  {
    assert RunOk(db, r);
    PairUpdateKeepsInv(db, r, m, {Queued, Running, Cancelling}, {Queued, Running, Streaming, Cancelling}, Cancelled,
                       KEEP.(cancelRequested := Some(true), errorCode := Some("cancelled"), completedAt := Some(now)),
                       KEEP_MESSAGE.(errorCode := Some("cancelled"), completedAt := Some(now)));
  }

  lemma CancelWaitingKeepsInv(db: Database, m: string, r: string)
    requires Inv(db) && Paired(db, m, r)
    ensures Inv(CancelQueuedMessage(db, m, r))
  {
    PairUpdateKeepsInv(db, r, m, {Queued, Cancelling}, {Queued, Cancelling}, Cancelled,
                       KEEP.(cancelRequested := Some(true)), KEEP_MESSAGE);
  }

  lemma RequeueKeepsInv(db: Database, m: string, r: string)
    requires Inv(db) && Paired(db, m, r)
    ensures Inv(RequeueRun(db, r, m))
  {
    assert RunOk(db, r);
    PairUpdateKeepsInv(db, r, m, {Running, Cancelling}, {Running, Streaming, Cancelling}, Queued,
                       KEEP.(cancelRequested := Some(false)), KEEP_MESSAGE);
  }

  lemma AskCancelKeepsInv(db: Database, u: string, c: string, m: string, r: string)
    requires Inv(db)
    ensures Inv(RequestCancel(db, u, c, m, r))
  {
    if CancelTarget(db, u, c, m, r) && RunIn(db, r, ACTIVE) {
      assert RunOk(db, r);
      PairUpdateKeepsInv(db, r, m, ACTIVE, {Queued, Running, Streaming, Cancelling}, Cancelling,
                         KEEP.(cancelRequested := Some(true)), KEEP_MESSAGE);
    }
  }

  /** Updates of a running run that leave its status alone. */
  lemma RunOnlyStepKeepsInv(db: Database, s: Step)
    requires Inv(db) && Enabled(db, s)
    requires s.Stream? || s.Resolve?
    ensures Inv(Apply(db, s))
  {
    var after := Apply(db, s);
    assert after.messages == db.messages && after.conversations == db.conversations;
    assert db.runs.Keys == after.runs.Keys;
    SameRunKeys(db, after);
    SameHeadersKeepLog(db, after);
    forall r | r in after.runs
      ensures RunOk(after, r)
    {
      assert RunOk(db, r);
      if db.runs[r].status == Completed { AnswerPersists(db, after, r); }
    }
    forall m | m in after.messages
      ensures MessageOk(after, m)
    {
      assert MessageOk(db, m);
    }
  }

  /** The superseded runs are exactly the runs of the superseded messages. */
  lemma VictimsAndMessages(db: Database, c: string, except: string, r: string)
    requires Inv(db) && r in db.runs
    ensures var victims := Superseded(db, c, except);
            db.runs[r].messageId in (set v | v in victims :: db.runs[v].messageId) <==> r in victims
  {
    var victims := Superseded(db, c, except);
    var messages := set v | v in victims :: db.runs[v].messageId;
    if db.runs[r].messageId in messages {
      var q :| q in victims && db.runs[q].messageId == db.runs[r].messageId;
      assert SharedMessage(db, q, r);
    }
  }

  lemma SupersedeKeepsInv(db: Database, c: string, except: string)
    requires Inv(db)
    ensures Inv(CancelQueued(db, c, except))
  {
    var after := CancelQueued(db, c, except);
    SameRunKeys(db, after);
    SameHeadersKeepLog(db, after);
    forall r | r in after.runs ensures RunOk(after, r) { SupersededRunOk(db, c, except, r); }
    forall m | m in after.messages ensures MessageOk(after, m) { SupersededMessageOk(db, c, except, m); }
  }

  lemma SupersededRunOk(db: Database, c: string, except: string, r: string)
    requires Inv(db) && r in db.runs
    ensures RunOk(CancelQueued(db, c, except), r)
  {
    assert RunOk(db, r);
    VictimsAndMessages(db, c, except, r);
    if db.runs[r].status == Completed { AnswerPersists(db, CancelQueued(db, c, except), r); }
  }

  lemma SupersededMessageOk(db: Database, c: string, except: string, m: string)
    requires Inv(db) && m in db.messages
    ensures MessageOk(CancelQueued(db, c, except), m)
  {
    var victims := Superseded(db, c, except);
    var after := CancelQueued(db, c, except);
    SameRunKeys(db, after);
    assert MessageOk(db, m);
    if m in (set v | v in victims :: db.runs[v].messageId) {
      var q :| q in victims && db.runs[q].messageId == m;
      assert RunOk(db, q) && RunFor(db, q, m);
    }
  }

  /** Appending a message with the next free sequence number keeps the log dense and unambiguous. */
  lemma AppendKeepsLog(db: Database, after: Database, id: string, row: Message)
    requires NoClash(db) && Numbered(db) && id !in db.messages
    requires after.messages == db.messages[id := row]
    requires row.sequence == NextSequence(db, row.conversationId)
    requires row.clientRequestId.Some? ==> WithRequestId(db, row.conversationId, row.clientRequestId.value) == {}
    ensures NoClash(after) && Numbered(after)
  {
    forall c
      ensures Dense(Sequences(after, c))
    {
      AppendedSequences(db, after, id, row, c);
      assert Dense(Sequences(db, c));
    }
    forall m, n | Clash(after, m, n)
      ensures m == n
    {
      if m != id && n != id {
        assert Clash(db, m, n);
      } else if m != n {
        NewMessageIsUnlike(db, row, if m == id then n else m);
      }
    }
  }

  lemma AppendedSequences(db: Database, after: Database, id: string, row: Message, c: string)
    requires id !in db.messages && after.messages == db.messages[id := row]
    ensures Sequences(after, c) == Sequences(db, c) + (if c == row.conversationId then {row.sequence} else {})
  {
    var grown := Sequences(db, c) + (if c == row.conversationId then {row.sequence} else {});
    forall x | x in grown ensures x in Sequences(after, c) {
      if x in Sequences(db, c) {
        var m :| m in db.messages && db.messages[m].conversationId == c && db.messages[m].sequence == x;
        assert m in after.messages && after.messages[m] == db.messages[m];
      } else {
        assert id in after.messages && after.messages[id] == row;
      }
    }
    forall x | x in Sequences(after, c) ensures x in grown {
      var m :| m in after.messages && after.messages[m].conversationId == c && after.messages[m].sequence == x;
      if m != id { assert m in db.messages && after.messages[m] == db.messages[m]; }
    }
  }

  lemma NewMessageIsUnlike(db: Database, row: Message, m: string)
    requires m in db.messages && db.messages[m].conversationId == row.conversationId
    requires row.sequence == NextSequence(db, row.conversationId)
    requires row.clientRequestId.Some? ==> WithRequestId(db, row.conversationId, row.clientRequestId.value) == {}
    ensures db.messages[m].sequence < row.sequence
    ensures row.clientRequestId.Some? ==> db.messages[m].clientRequestId != row.clientRequestId
  {
    assert db.messages[m].sequence in Sequences(db, row.conversationId);
    if row.clientRequestId.Some? {
      assert m !in WithRequestId(db, row.conversationId, row.clientRequestId.value);
    }
  }

  lemma PostKeepsInv(db: Database, s: Step)
    requires Inv(db) && Enabled(db, s) && s.Post?
    ensures Inv(Apply(db, s))
  {
    if Inserts(db, s.userId, s.conversationId, s.content, s.requestId) {
      var row := UserRow(db, s.userId, s.conversationId, s.content, s.postMode, s.requestId);
      var after := Apply(db, s);
      SameRunKeys(db, after);
      AppendKeepsLog(db, after, s.messageId, row);
      forall r | r in after.runs
        ensures RunOk(after, r)
      {
        assert RunOk(db, r);
        if db.runs[r].status == Completed { AnswerPersists(db, after, r); }
      }
      forall m | m in after.messages
        ensures MessageOk(after, m)
      {
        if m != s.messageId { assert MessageOk(db, m); }
      }
    }
  }

  /** The completed pair before the answer row is added: everything holds but the missing answer. */
  lemma CompletedPairKeepsRows(db: Database, s: Step, r: string)
    requires Inv(db) && Enabled(db, s) && s.Answer? && r in db.runs
    ensures var done := CompletedPair(db, s.messageId, s.runId, s.answer, s.now, s.usage);
            && r in done.runs && done.runs[r].messageId == db.runs[r].messageId
            && done.runs[r].conversationId == db.runs[r].conversationId
            && db.runs[r].messageId in done.messages
            && Agree(done.runs[r], done.messages[db.runs[r].messageId]) && RunShape(done.runs[r])
            && (done.runs[r] == db.runs[r]
                || (r == s.runId && done.runs[r].status == Completed && done.runs[r].outputContent == s.answer))
  {
    var p := KEEP.(completedAt := Some(s.now), outputContent := Some(s.answer),
                   inputTokens := s.usage.inputTokens, outputTokens := s.usage.outputTokens);
    assert RunOk(db, s.runId) && RunOk(db, r);
    UpdatedPairAgrees(db, s.runId, s.messageId, {Running}, {Running, Streaming}, Completed, p,
                      KEEP_MESSAGE.(completedAt := Some(s.now)));
    if r != s.runId { assert !SharedMessage(db, r, s.runId); }
  }

  lemma CompletedPairKeepsMessages(db: Database, s: Step)
    requires Inv(db) && Enabled(db, s) && s.Answer?
    ensures var done := CompletedPair(db, s.messageId, s.runId, s.answer, s.now, s.usage);
            MessagesOk(done) && OneRunPerMessage(done) && NoClash(done) && Numbered(done) && SameHeaders(db, done)
            && done.runs.Keys == db.runs.Keys && done.conversations == db.conversations
  {
    var p := KEEP.(completedAt := Some(s.now), outputContent := Some(s.answer),
                   inputTokens := s.usage.inputTokens, outputTokens := s.usage.outputTokens);
    assert RunOk(db, s.runId);
    UpdatedPairAgrees(db, s.runId, s.messageId, {Running}, {Running, Streaming}, Completed, p,
                      KEEP_MESSAGE.(completedAt := Some(s.now)));
    PairUpdateKeepsMessages(db, s.runId, s.messageId, {Running}, {Running, Streaming}, Completed, p,
                            KEEP_MESSAGE.(completedAt := Some(s.now)));
  }

  lemma AnsweredRunOk(db: Database, s: Step, r: string)
    requires Inv(db) && Enabled(db, s) && s.Answer? && r in db.runs
    requires CanComplete(db, s.conversationId, s.messageId, s.runId, s.answer)
    ensures RunOk(Apply(db, s), r)
  {
    var after := Apply(db, s);
    assert RunOk(db, r) && RunOk(db, s.runId);
    CompletedPairKeepsRows(db, s, r);
    CompletedPairKeepsMessages(db, s);
    if after.runs[r] == db.runs[r] {
      if db.runs[r].status == Completed { AnswerPersists(db, after, r); }
    } else {
      assert Answers(after, s.answerId, r);
    }
  }

  lemma AnswerKeepsInv(db: Database, s: Step)
    requires Inv(db) && Enabled(db, s) && s.Answer?
    ensures Inv(Apply(db, s))
  {
    if CanComplete(db, s.conversationId, s.messageId, s.runId, s.answer) {
      var done := CompletedPair(db, s.messageId, s.runId, s.answer, s.now, s.usage);
      var row := AssistantRow(done, s.conversationId, s.answer, s.mode, s.now);
      var after := Apply(db, s);
      CompletedPairKeepsMessages(db, s);
      SameRunKeys(done, after);
      AppendKeepsLog(done, after, s.answerId, row);
      forall r | r in after.runs
        ensures RunOk(after, r)
      {
        AnsweredRunOk(db, s, r);
      }
      forall m | m in after.messages
        ensures MessageOk(after, m)
      {
        if m != s.answerId { assert MessageOk(done, m); }
      }
    }
  }

  lemma AttachKeepsInv(db: Database, s: Step)
    requires Inv(db) && Enabled(db, s) && s.AttachRun?
    ensures Inv(Apply(db, s))
  {
    var c := db.messages[s.messageId].conversationId;
    if RunsOf(db, c, s.messageId) == {} {
      var after := Apply(db, s);
      assert MessageOk(db, s.messageId);
      forall r | r in db.runs
        ensures db.runs[r].messageId != s.messageId
      {
        assert RunOk(db, r) && r !in RunsOf(db, c, s.messageId);
      }
      assert !HasRun(db, s.messageId);
      SameHeadersKeepLog(db, after);
      forall r, q | SharedMessage(after, r, q) ensures r == q {
        if r != s.runId && q != s.runId { assert SharedMessage(db, r, q); }
      }
      forall r | r in after.runs
        ensures RunOk(after, r)
      {
        if r != s.runId {
          assert RunOk(db, r);
          if db.runs[r].status == Completed { AnswerPersists(db, after, r); }
        }
      }
      forall m | m in after.messages
        ensures MessageOk(after, m)
      {
        assert MessageOk(db, m);
        if HasRun(db, m) { var r :| RunFor(db, r, m); assert RunFor(after, r, m); }
        if m == s.messageId { assert RunFor(after, s.runId, m); }
      }
    }
  }

  lemma ConversationStepKeepsInv(db: Database, s: Step)
    requires Inv(db) && Enabled(db, s)
    requires s.NewConversation? || s.EditConversation? || s.Archive?
    ensures Inv(Apply(db, s))
  {
    var after := Apply(db, s);
    SameRunKeys(db, after);
    SameHeadersKeepLog(db, after);
    forall r | r in after.runs
      ensures RunOk(after, r)
    {
      assert RunOk(db, r);
      if db.runs[r].status == Completed { AnswerPersists(db, after, r); }
    }
    forall m | m in after.messages
      ensures MessageOk(after, m)
    {
      assert MessageOk(db, m);
    }
  }

  /** No committed transaction, in any order, breaks the invariant. */
  lemma StepKeepsInv(db: Database, s: Step)
    requires Inv(db) && Enabled(db, s)
    ensures Inv(Apply(db, s))
  {
    match s
    case NewConversation(_, _, _, _) => ConversationStepKeepsInv(db, s);
    case EditConversation(_, _, _, _) => ConversationStepKeepsInv(db, s);
    case Archive(_, _) => ConversationStepKeepsInv(db, s);
    case Post(_, _, _, _, _, _) => PostKeepsInv(db, s);
    case AttachRun(_, _) => AttachKeepsInv(db, s);
    case Start(m, r, now) => StartKeepsInv(db, m, r, now);
    case Resolve(_, _, _) => RunOnlyStepKeepsInv(db, s);
    case Stream(_, _, _) => RunOnlyStepKeepsInv(db, s);
    case Answer(_, _, _, _, _, _, _, _) => AnswerKeepsInv(db, s);
    case End(m, r, status, e, content, now, usage) => EndKeepsInv(db, m, r, status, e, content, now, usage);
    case CancelCurrent(m, r, now) => CancelCurrentKeepsInv(db, m, r, now);
    case CancelWaiting(m, r) => CancelWaitingKeepsInv(db, m, r);
    case SupersedeWaiting(c, m) => SupersedeKeepsInv(db, c, m);
    case Requeue(m, r) => RequeueKeepsInv(db, m, r);
    case AskCancel(u, c, m, r) => AskCancelKeepsInv(db, u, c, m, r);
  }
}
