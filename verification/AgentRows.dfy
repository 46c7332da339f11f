/**
 Conversation, message and run rows, and the committed transactions that change them.

 Every function named after a transaction gives the database that its commit leaves behind.
 A guarded update (UpdateRun, UpdateMessage) is the source's
 `UPDATE ... WHERE id = ... AND status IN (...)`: it does nothing when the guard fails.
 */
module AgentRows {
  import opened Common
  import opened JccTables

  datatype Status = Queued | Running | Streaming | Completed | Failed | Cancelling | Cancelled

  datatype Role = User | Assistant

  datatype StrategyMode = Gamble | Operation

  datatype Conversation = Conversation(userId: string, title: string, strategyMode: StrategyMode, archived: bool)

  datatype Message = Message(
    conversationId: string, userId: string, role: Role, content: string, status: Status, sequence: nat,
    strategyMode: StrategyMode, clientRequestId: Option<string>,
    errorCode: Option<string>, startedAt: Option<int>, completedAt: Option<int>)

  datatype Run = Run(
    messageId: string, conversationId: string, status: Status, cancelRequested: bool,
    errorCode: Option<string>, outputContent: string, inputTokens: Option<int>, outputTokens: Option<int>,
    startedAt: Option<int>, completedAt: Option<int>, pin: Option<SnapshotContext>)

  datatype Database = Database(
    conversations: map<string, Conversation>, messages: map<string, Message>, runs: map<string, Run>)

  const EMPTY := Database(map[], map[], map[])

  // ---- Guarded updates -------------------------------------------------------------------

  /** Optional columns of one guarded run update; an absent column keeps its value. */
  datatype RunPatch = RunPatch(
    cancelRequested: Option<bool>, errorCode: Option<string>, startedAt: Option<int>, completedAt: Option<int>,
    outputContent: Option<string>, inputTokens: Option<int>, outputTokens: Option<int>, pin: Option<SnapshotContext>)

  const KEEP := RunPatch(None, None, None, None, None, None, None, None)

  datatype MessagePatch = MessagePatch(errorCode: Option<string>, startedAt: Option<int>, completedAt: Option<int>)

  const KEEP_MESSAGE := MessagePatch(None, None, None)

  function Merge<T>(patch: Option<T>, current: Option<T>): Option<T> {
    if patch.Some? then patch else current
  }

  function PatchedRun(run: Run, status: Status, p: RunPatch): Run {
    run.(status := status,
         cancelRequested := OrElse(p.cancelRequested, run.cancelRequested),
         errorCode := Merge(p.errorCode, run.errorCode),
         startedAt := Merge(p.startedAt, run.startedAt),
         completedAt := Merge(p.completedAt, run.completedAt),
         outputContent := OrElse(p.outputContent, run.outputContent),
         inputTokens := Merge(p.inputTokens, run.inputTokens),
         outputTokens := Merge(p.outputTokens, run.outputTokens),
         pin := Merge(p.pin, run.pin))
  }

  function PatchedMessage(message: Message, status: Status, p: MessagePatch): Message {
    message.(status := status,
             errorCode := Merge(p.errorCode, message.errorCode),
             startedAt := Merge(p.startedAt, message.startedAt),
             completedAt := Merge(p.completedAt, message.completedAt))
  }

  predicate RunIn(db: Database, runId: string, from: set<Status>) {
    runId in db.runs && db.runs[runId].status in from
  }

  predicate MessageIn(db: Database, messageId: string, from: set<Status>) {
    messageId in db.messages && db.messages[messageId].status in from
  }

  function UpdateRun(db: Database, runId: string, from: set<Status>, status: Status, p: RunPatch): Database {
    if RunIn(db, runId, from)
    then db.(runs := db.runs[runId := PatchedRun(db.runs[runId], status, p)])
    else db
  }

  function UpdateMessage(db: Database, messageId: string, from: set<Status>, status: Status, p: MessagePatch): Database {
    if MessageIn(db, messageId, from)
    then db.(messages := db.messages[messageId := PatchedMessage(db.messages[messageId], status, p)])
    else db
  }

  predicate BothExist(db: Database, messageId: string, runId: string) {
    messageId in db.messages && runId in db.runs
  }

  // ---- Transactions of the orchestrator --------------------------------------------------

  predicate CanStart(db: Database, messageId: string, runId: string) {
    RunIn(db, runId, {Queued}) && MessageIn(db, messageId, {Queued})
  }

  /** Both guarded updates or neither: the source rolls back unless both rows were queued. */
  function MarkRunning(db: Database, messageId: string, runId: string, started: int): Database {
    if CanStart(db, messageId, runId)
    then UpdateMessage(
           UpdateRun(db, runId, {Queued}, Running, KEEP.(startedAt := Some(started), cancelRequested := Some(false))),
           messageId, {Queued}, Running, KEEP_MESSAGE.(startedAt := Some(started)))
    else db
  }

  function SaveStreaming(db: Database, messageId: string, runId: string, content: string): Database {
    if BothExist(db, messageId, runId)
    then UpdateRun(db, runId, {Running}, Running, KEEP.(outputContent := Some(content)))
    else db
  }

  /** The snapshot an execution will read: the pinned one, or the mode's current one. */
  function ResolvedContext(db: Database, jcc: Tables, configuredMode: string, runId: string): Option<SnapshotContext> {
    if runId !in db.runs then None
    else match db.runs[runId].pin
      case Some(pin) => ContextOf(jcc, FindSnapshot(jcc, pin.mode, pin.snapshotId))
      case None => ContextOf(jcc, CurrentSnapshot(jcc, configuredMode))
  }

  function ResolveSnapshot(db: Database, jcc: Tables, configuredMode: string, runId: string): Database {
    var context := ResolvedContext(db, jcc, configuredMode, runId);
    if context.Some? && db.runs[runId].pin.None?
    then UpdateRun(db, runId, {Running}, Running, KEEP.(pin := context))
    else db
  }

  datatype Usage = Usage(inputTokens: Option<int>, outputTokens: Option<int>)

  const MAX_CONTENT := 8000

  /** The column check on message content. */
  predicate StorableContent(content: string) { 1 <= |content| <= MAX_CONTENT }

  function AnswerContent(answer: string): string { if answer == "" then " " else answer }

  /** Sequence numbers already used in a conversation. */
  function Sequences(db: Database, conversationId: string): set<nat> {
    set m | m in db.messages && db.messages[m].conversationId == conversationId :: db.messages[m].sequence
  }

  function NextSequence(db: Database, conversationId: string): nat { MaxOf(Sequences(db, conversationId)) + 1 }

  function AssistantRow(db: Database, conversationId: string, answer: string, mode: StrategyMode, now: int): Message
    requires conversationId in db.conversations
  {
    Message(conversationId, db.conversations[conversationId].userId, Assistant, AnswerContent(answer), Completed,
            NextSequence(db, conversationId), mode, None, None, Some(now), Some(now))
  }

  /** False when a row is missing or the answer violates the content check, which rolls everything back. */
  predicate CanComplete(db: Database, conversationId: string, messageId: string, runId: string, answer: string) {
    conversationId in db.conversations && BothExist(db, messageId, runId) && StorableContent(AnswerContent(answer))
  }

  function CompletedPair(db: Database, messageId: string, runId: string, answer: string, now: int, usage: Usage): Database {
    UpdateMessage(
      UpdateRun(db, runId, {Running}, Completed,
                KEEP.(completedAt := Some(now), outputContent := Some(answer),
                      inputTokens := usage.inputTokens, outputTokens := usage.outputTokens)),
      messageId, {Running, Streaming}, Completed, KEEP_MESSAGE.(completedAt := Some(now)))
  }

  /** The assistant row is inserted whether or not the guarded updates matched. */
  function Complete(db: Database, conversationId: string, messageId: string, runId: string, answerId: string,
                    answer: string, mode: StrategyMode, now: int, usage: Usage): Database
  {
    if CanComplete(db, conversationId, messageId, runId, answer)
    then
      var done := CompletedPair(db, messageId, runId, answer, now, usage);
      done.(messages := done.messages[answerId := AssistantRow(done, conversationId, answer, mode, now)])
    else db
  }

  function Finish(db: Database, messageId: string, runId: string, status: Status, errorCode: string,
                  content: string, now: int, usage: Usage): Database
  {
    if BothExist(db, messageId, runId)
    then UpdateMessage(
           UpdateRun(db, runId, {Queued, Running, Cancelling}, status,
                     KEEP.(cancelRequested := Some(status == Cancelled), errorCode := Some(errorCode),
                           completedAt := Some(now), outputContent := Some(content),
                           inputTokens := usage.inputTokens, outputTokens := usage.outputTokens)),
           messageId, {Queued, Running, Streaming, Cancelling}, status,
           KEEP_MESSAGE.(errorCode := Some(errorCode), completedAt := Some(now)))
    else db
  }

  // ---- Transactions of the runtime manager -----------------------------------------------

  function MarkCancelled(db: Database, messageId: string, runId: string, now: int): Database {
    if BothExist(db, messageId, runId)
    then UpdateMessage(
           UpdateRun(db, runId, {Queued, Running, Cancelling}, Cancelled,
                     KEEP.(cancelRequested := Some(true), errorCode := Some("cancelled"), completedAt := Some(now))),
           messageId, {Queued, Running, Streaming, Cancelling}, Cancelled,
           KEEP_MESSAGE.(errorCode := Some("cancelled"), completedAt := Some(now)))
    else db
  }

  function CancelQueuedMessage(db: Database, messageId: string, runId: string): Database {
    UpdateMessage(
      UpdateRun(db, runId, {Queued, Cancelling}, Cancelled, KEEP.(cancelRequested := Some(true))),
      messageId, {Queued, Cancelling}, Cancelled, KEEP_MESSAGE)
  }

  function RequeueRun(db: Database, runId: string, messageId: string): Database {
    UpdateMessage(
      UpdateRun(db, runId, {Running, Cancelling}, Queued, KEEP.(cancelRequested := Some(false))),
      messageId, {Running, Streaming, Cancelling}, Queued, KEEP_MESSAGE)
  }

  /** Runs that a newer message of the conversation supersedes. */
  function Superseded(db: Database, conversationId: string, exceptMessageId: string): set<string> {
    set r | r in db.runs && db.runs[r].conversationId == conversationId
            && db.runs[r].status == Queued && db.runs[r].messageId != exceptMessageId
  }

  const SUPERSEDE_RUN := KEEP.(cancelRequested := Some(true), errorCode := Some("superseded"))
  const SUPERSEDE_MESSAGE := KEEP_MESSAGE.(errorCode := Some("superseded"))

  /** Cancels a set of queued runs together with their messages. */
  function Supersede(db: Database, victims: set<string>): Database
    requires victims <= db.runs.Keys
  {
    var messages := set r | r in victims :: db.runs[r].messageId;
    db.(runs := map r | r in db.runs ::
          if r in victims && db.runs[r].status == Queued
          then PatchedRun(db.runs[r], Cancelled, SUPERSEDE_RUN) else db.runs[r],
        messages := map m | m in db.messages ::
          if m in messages && db.messages[m].status == Queued
          then PatchedMessage(db.messages[m], Cancelled, SUPERSEDE_MESSAGE) else db.messages[m])
  }

  function CancelQueued(db: Database, conversationId: string, exceptMessageId: string): Database {
    Supersede(db, Superseded(db, conversationId, exceptMessageId))
  }

  // ---- Transactions of the conversation service ------------------------------------------

  datatype ServiceError = NotFound | Archived | Conflict | Integrity

  predicate Owns(db: Database, userId: string, conversationId: string) {
    conversationId in db.conversations && db.conversations[conversationId].userId == userId
  }

  function CreateConversation(db: Database, id: string, userId: string, title: string, mode: StrategyMode): Database {
    db.(conversations := db.conversations[id := Conversation(userId, title, mode, false)])
  }

  function UpdateConversation(db: Database, userId: string, conversationId: string,
                              title: Option<string>, mode: Option<StrategyMode>): Database
  {
    if Owns(db, userId, conversationId) && !db.conversations[conversationId].archived
    then
      var c := db.conversations[conversationId];
      db.(conversations := db.conversations[conversationId :=
        c.(title := OrElse(title, c.title), strategyMode := OrElse(mode, c.strategyMode))])
    else db
  }

  function ArchiveConversation(db: Database, userId: string, conversationId: string): Database {
    if Owns(db, userId, conversationId)
    then db.(conversations := db.conversations[conversationId := db.conversations[conversationId].(archived := true)])
    else db
  }

  function EffectiveMode(db: Database, conversationId: string, mode: Option<StrategyMode>): StrategyMode
    requires conversationId in db.conversations
  {
    OrElse(mode, db.conversations[conversationId].strategyMode)
  }

  /** Messages of a conversation carrying a given client request id. */
  function WithRequestId(db: Database, conversationId: string, requestId: string): set<string> {
    set m | m in db.messages && db.messages[m].conversationId == conversationId
            && db.messages[m].clientRequestId == Some(requestId)
  }

  predicate SameRequest(message: Message, content: string, mode: StrategyMode) {
    message.content == content && message.strategyMode == mode
  }

  function UserRow(db: Database, userId: string, conversationId: string, content: string,
                   mode: Option<StrategyMode>, requestId: Option<string>): Message
    requires conversationId in db.conversations
  {
    Message(conversationId, userId, User, content, Queued, NextSequence(db, conversationId),
            EffectiveMode(db, conversationId, mode), requestId, None, None, None)
  }

  /** What one create-message call answers: an error, an existing message, or the fresh id. */
  ghost predicate CreateMessageAnswers(db: Database, id: string, userId: string, conversationId: string, content: string,
                                       mode: Option<StrategyMode>, requestId: Option<string>,
                                       answer: Result<string, ServiceError>)
  {
    if !Owns(db, userId, conversationId) then answer == Err(NotFound)
    else if db.conversations[conversationId].archived then answer == Err(Archived)
    else if requestId.Some? && WithRequestId(db, conversationId, requestId.value) != {} then
      exists m :: m in WithRequestId(db, conversationId, requestId.value)
        && answer == (if SameRequest(db.messages[m], content, EffectiveMode(db, conversationId, mode))
                      then Ok(m) else Err(Conflict))
    else if StorableContent(content) then answer == Ok(id)
    else answer == Err(Integrity)
  }

  predicate Inserts(db: Database, userId: string, conversationId: string, content: string, requestId: Option<string>) {
    Owns(db, userId, conversationId) && !db.conversations[conversationId].archived
    && (requestId.Some? ==> WithRequestId(db, conversationId, requestId.value) == {})
    && StorableContent(content)
  }

  function CreateMessage(db: Database, id: string, userId: string, conversationId: string, content: string,
                         mode: Option<StrategyMode>, requestId: Option<string>): Database
  {
    if Inserts(db, userId, conversationId, content, requestId)
    then db.(messages := db.messages[id := UserRow(db, userId, conversationId, content, mode, requestId)])
    else db
  }

  function RunsOf(db: Database, conversationId: string, messageId: string): set<string> {
    set r | r in db.runs && db.runs[r].conversationId == conversationId && db.runs[r].messageId == messageId
  }

  function FreshRun(message: Message, messageId: string): Run {
    Run(messageId, message.conversationId, Queued, false, None, "", None, None, None, None, None)
  }

  function EnsureRun(db: Database, id: string, messageId: string): Database
    requires messageId in db.messages
  {
    var message := db.messages[messageId];
    if RunsOf(db, message.conversationId, messageId) == {}
    then db.(runs := db.runs[id := FreshRun(message, messageId)])
    else db
  }

  const ACTIVE: set<Status> := {Queued, Running, Cancelling}

  /** The run a cancel request addresses, when the caller owns the conversation and the message has one. */
  predicate CancelTarget(db: Database, userId: string, conversationId: string, messageId: string, runId: string) {
    Owns(db, userId, conversationId)
    && messageId in db.messages && db.messages[messageId].conversationId == conversationId
    && runId in RunsOf(db, conversationId, messageId)
  }

  function RequestCancel(db: Database, userId: string, conversationId: string, messageId: string, runId: string): Database {
    if CancelTarget(db, userId, conversationId, messageId, runId) && RunIn(db, runId, ACTIVE)
    then UpdateMessage(
           UpdateRun(db, runId, ACTIVE, Cancelling, KEEP.(cancelRequested := Some(true))),
           messageId, {Queued, Running, Streaming, Cancelling}, Cancelling, KEEP_MESSAGE)
    else db
  }
}
