/**
 The persistent agent tables and the methods that change them in place.

 Each public method is one transaction. Its contract equates the new tables with a function of the
 old ones from AgentRows, and Valid() carries the lifecycle invariant across every call.
 */
module AgentStore {
  import opened Common
  import opened JccTables
  import opened AgentRows
  import L = AgentLifecycle

  /** Superseding one more run on top of those already superseded. */
  lemma SupersedeOneMore(db: Database, victims: set<string>, done: set<string>, r: string)
    requires victims <= db.runs.Keys && done <= victims && r in victims - done
    requires db.runs[r].status == Queued
    ensures UpdateMessage(UpdateRun(Supersede(db, done), r, {Queued}, Cancelled, SUPERSEDE_RUN),
                          db.runs[r].messageId, {Queued}, Cancelled, SUPERSEDE_MESSAGE)
            == Supersede(db, done + {r})
  {
    var before, after := Supersede(db, done), Supersede(db, done + {r});
    var m := db.runs[r].messageId;
    assert (set x | x in done + {r} :: db.runs[x].messageId) == (set x | x in done :: db.runs[x].messageId) + {m};
    var step := UpdateMessage(UpdateRun(before, r, {Queued}, Cancelled, SUPERSEDE_RUN), m, {Queued}, Cancelled, SUPERSEDE_MESSAGE);
    assert step.runs == after.runs;
    assert step.messages == after.messages;
  }

  /** The (message, run) pairs of a set of runs. */
  ghost function Pairs(db: Database, runIds: set<string>): set<(string, string)>
    requires runIds <= db.runs.Keys
  {
    set r | r in runIds :: (db.runs[r].messageId, r)
  }

  lemma PairsGrow(db: Database, done: set<string>, r: string)
    requires done + {r} <= db.runs.Keys
    ensures Pairs(db, done + {r}) == Pairs(db, done) + {(db.runs[r].messageId, r)}
  {
  }

  class AgentStore {
    var conversations: map<string, Conversation>
    var messages: map<string, Message>
    var runs: map<string, Run>

    ghost function State(): Database
      reads this
    {
      Database(conversations, messages, runs)
    }

    ghost predicate Valid()
      reads this
    {
      L.Inv(State())
    }

    constructor ()
      ensures Valid() && State() == EMPTY
    {
      conversations, messages, runs := map[], map[], map[];
    }

    // ---- Guarded updates -----------------------------------------------------------------

    method UpdateRunStatus(runId: string, from: set<Status>, status: Status, p: RunPatch) returns (updated: bool)
      modifies this`runs
      ensures updated == RunIn(old(State()), runId, from)
      ensures State() == UpdateRun(old(State()), runId, from, status, p)
    {
      updated := runId in runs && runs[runId].status in from;
      if updated {
        runs := runs[runId := PatchedRun(runs[runId], status, p)];
      }
    }

    method UpdateMessageStatus(messageId: string, from: set<Status>, status: Status, p: MessagePatch)
      returns (updated: bool)
      modifies this`messages
      ensures updated == MessageIn(old(State()), messageId, from)
      ensures State() == UpdateMessage(old(State()), messageId, from, status, p)
    {
      updated := messageId in messages && messages[messageId].status in from;
      if updated {
        messages := messages[messageId := PatchedMessage(messages[messageId], status, p)];
      }
    }

    // ---- Orchestrator --------------------------------------------------------------------

    method MarkRunning(messageId: string, runId: string, started: int) returns (ok: bool)
      requires Valid() && L.Paired(State(), messageId, runId)
      modifies this
      ensures Valid() && State() == AgentRows.MarkRunning(old(State()), messageId, runId, started)
      ensures ok == CanStart(old(State()), messageId, runId)
    {
      L.StepKeepsInv(State(), L.Start(messageId, runId, started));
      if runId !in runs || messageId !in messages {
        return false;
      }
      var savedRuns, savedMessages := runs, messages;
      var runUpdated := UpdateRunStatus(runId, {Queued}, Running,
                                        KEEP.(startedAt := Some(started), cancelRequested := Some(false)));
      var messageUpdated := UpdateMessageStatus(messageId, {Queued}, Running, KEEP_MESSAGE.(startedAt := Some(started)));
      if !runUpdated || !messageUpdated {
        runs, messages := savedRuns, savedMessages;
        return false;
      }
      ok := true;
    }

    method SaveStreaming(messageId: string, runId: string, content: string)
      requires Valid() && L.Paired(State(), messageId, runId)
      modifies this`runs
      ensures Valid() && State() == AgentRows.SaveStreaming(old(State()), messageId, runId, content)
    {
      L.StepKeepsInv(State(), L.Stream(messageId, runId, content));
      if runId !in runs || messageId !in messages {
        return;
      }
      var _ := UpdateRunStatus(runId, {Running}, Running, KEEP.(outputContent := Some(content)));
    }

    method ResolveSnapshot(jcc: Tables, configuredMode: string, runId: string) returns (context: Option<SnapshotContext>)
      requires Valid()
      modifies this`runs
      ensures Valid() && State() == AgentRows.ResolveSnapshot(old(State()), jcc, configuredMode, runId)
      ensures context == ResolvedContext(old(State()), jcc, configuredMode, runId)
    {
      L.StepKeepsInv(State(), L.Resolve(runId, jcc, configuredMode));
      if runId !in runs {
        return None;
      }
      var run := runs[runId];
      var snapshot;
      if run.pin.Some? {
        snapshot := FindSnapshot(jcc, run.pin.value.mode, run.pin.value.snapshotId);
      } else {
        snapshot := CurrentSnapshot(jcc, configuredMode);
      }
      if snapshot.None? {
        return None;
      }
      context := ContextOf(jcc, snapshot);
      if run.pin.None? {
        var _ := UpdateRunStatus(runId, {Running}, Running, KEEP.(pin := context));
      }
    }

    /** `stored` is false when a row is missing or the answer cannot be stored; then nothing changes. */
    method Complete(conversationId: string, messageId: string, runId: string, answerId: string, answer: string,
                    mode: StrategyMode, now: int, usage: Usage) returns (stored: bool)
      requires Valid() && L.Paired(State(), messageId, runId)
      requires runs[runId].conversationId == conversationId && answerId !in messages
      modifies this
      ensures Valid()
      ensures State() == AgentRows.Complete(old(State()), conversationId, messageId, runId, answerId, answer, mode, now, usage)
      ensures stored == CanComplete(old(State()), conversationId, messageId, runId, answer)
    {
      L.StepKeepsInv(State(), L.Answer(conversationId, messageId, runId, answerId, answer, mode, now, usage));
      if conversationId !in conversations || messageId !in messages || runId !in runs {
        return false;
      }
      var savedRuns, savedMessages := runs, messages;
      var _ := UpdateRunStatus(runId, {Running}, Completed,
                               KEEP.(completedAt := Some(now), outputContent := Some(answer),
                                     inputTokens := usage.inputTokens, outputTokens := usage.outputTokens));
      var _ := UpdateMessageStatus(messageId, {Running, Streaming}, Completed, KEEP_MESSAGE.(completedAt := Some(now)));
      stored := InsertAssistant(conversationId, answerId, answer, mode, now);
      if !stored {
        runs, messages := savedRuns, savedMessages;
      }
    }

    method InsertAssistant(conversationId: string, answerId: string, answer: string, mode: StrategyMode, now: int)
      returns (stored: bool)
      requires conversationId in conversations
      modifies this`messages
      ensures stored == StorableContent(AnswerContent(answer))
      ensures messages == if stored
                          then old(messages)[answerId := AssistantRow(old(State()), conversationId, answer, mode, now)]
                          else old(messages)
    {
      var content := if answer == "" then " " else answer;
      stored := 1 <= |content| <= MAX_CONTENT;
      if stored {
        var db := Database(conversations, messages, runs);
        messages := messages[answerId := Message(conversationId, conversations[conversationId].userId, Assistant, content,
                                                 Completed, NextSequence(db, conversationId), mode, None, None,
                                                 Some(now), Some(now))];
      }
    }

    method Finish(messageId: string, runId: string, status: Status, errorCode: string, content: string, now: int, usage: Usage)
      requires Valid() && L.Paired(State(), messageId, runId) && (status == Failed || status == Cancelled)
      modifies this
      ensures Valid()
      ensures State() == AgentRows.Finish(old(State()), messageId, runId, status, errorCode, content, now, usage)
    {
      L.StepKeepsInv(State(), L.End(messageId, runId, status, errorCode, content, now, usage));
      if messageId !in messages || runId !in runs {
        return;
      }
      var _ := UpdateRunStatus(runId, {Queued, Running, Cancelling}, status,
                               KEEP.(cancelRequested := Some(status == Cancelled), errorCode := Some(errorCode),
                                     completedAt := Some(now), outputContent := Some(content),
                                     inputTokens := usage.inputTokens, outputTokens := usage.outputTokens));
      var _ := UpdateMessageStatus(messageId, {Queued, Running, Streaming, Cancelling}, status,
                                   KEEP_MESSAGE.(errorCode := Some(errorCode), completedAt := Some(now)));
    }

    // ---- Runtime manager -----------------------------------------------------------------

    method MarkCancelled(messageId: string, runId: string, now: int)
      requires Valid() && L.Paired(State(), messageId, runId)
      modifies this
      ensures Valid() && State() == AgentRows.MarkCancelled(old(State()), messageId, runId, now)
    {
      L.StepKeepsInv(State(), L.CancelCurrent(messageId, runId, now));
      if messageId !in messages || runId !in runs {
        return;
      }
      var _ := UpdateRunStatus(runId, {Queued, Running, Cancelling}, Cancelled,
                               KEEP.(cancelRequested := Some(true), errorCode := Some("cancelled"), completedAt := Some(now)));
      var _ := UpdateMessageStatus(messageId, {Queued, Running, Streaming, Cancelling}, Cancelled,
                                   KEEP_MESSAGE.(errorCode := Some("cancelled"), completedAt := Some(now)));
    }

    method CancelQueuedMessage(messageId: string, runId: string) returns (cancelled: bool)
      requires Valid() && L.Paired(State(), messageId, runId)
      modifies this
      ensures Valid() && State() == AgentRows.CancelQueuedMessage(old(State()), messageId, runId)
      ensures cancelled <==> RunIn(old(State()), runId, {Queued, Cancelling})
    {
      L.StepKeepsInv(State(), L.CancelWaiting(messageId, runId));
      assert L.RunOk(State(), runId);
      var runUpdated, messageUpdated := false, false;
      if runId in runs {
        runUpdated := UpdateRunStatus(runId, {Queued, Cancelling}, Cancelled, KEEP.(cancelRequested := Some(true)));
      }
      if messageId in messages {
        messageUpdated := UpdateMessageStatus(messageId, {Queued, Cancelling}, Cancelled, KEEP_MESSAGE);
      }
      cancelled := runUpdated || messageUpdated;
    }

    method RequeueRun(runId: string, messageId: string)
      requires Valid() && L.Paired(State(), messageId, runId)
      modifies this
      ensures Valid() && State() == AgentRows.RequeueRun(old(State()), runId, messageId)
    {
      L.StepKeepsInv(State(), L.Requeue(messageId, runId));
      if runId in runs {
        var _ := UpdateRunStatus(runId, {Running, Cancelling}, Queued, KEEP.(cancelRequested := Some(false)));
      }
      if messageId in messages {
        var _ := UpdateMessageStatus(messageId, {Running, Streaming, Cancelling}, Queued, KEEP_MESSAGE);
      }
    }

    method SupersedeRun(runId: string) returns (pair: (string, string))
      requires runId in runs
      modifies this
      ensures pair == (old(runs)[runId].messageId, runId)
      ensures State() == UpdateMessage(UpdateRun(old(State()), runId, {Queued}, Cancelled, SUPERSEDE_RUN),
                                       pair.0, {Queued}, Cancelled, SUPERSEDE_MESSAGE)
    {
      var messageId := runs[runId].messageId;
      pair := (messageId, runId);
      var _ := UpdateRunStatus(runId, {Queued}, Cancelled, SUPERSEDE_RUN);
      if messageId in messages {
        var _ := UpdateMessageStatus(messageId, {Queued}, Cancelled, SUPERSEDE_MESSAGE);
      }
    }

    method SupersedeAll(victims: set<string>) returns (superseded: seq<(string, string)>)
      requires forall r :: r in victims ==> r in runs && runs[r].status == Queued
      modifies this
      ensures State() == Supersede(old(State()), victims)
      ensures forall p :: p in superseded <==> p in Pairs(old(State()), victims)
    {
      ghost var before := State();
      var todo := victims;
      ghost var done: set<string> := {};
      superseded := [];
      assert State() == Supersede(before, done);
      while todo != {}
        invariant done <= victims && todo == victims - done
        invariant State() == Supersede(before, done)
        invariant forall p :: p in superseded <==> p in Pairs(before, done)
        decreases todo
      {
        var r :| r in todo;
        SupersedeOneMore(before, victims, done, r);
        var pair := SupersedeRun(r);
        PairsGrow(before, done, r);
        superseded := superseded + [pair];
        done := done + {r};
        todo := todo - {r};
      }
      assert done == victims;
    }

    /** Afterwards no run of the conversation is queued except the one for `exceptMessageId`. */
    method CancelQueued(conversationId: string, exceptMessageId: string) returns (superseded: seq<(string, string)>)
      requires Valid()
      modifies this
      ensures Valid() && State() == AgentRows.CancelQueued(old(State()), conversationId, exceptMessageId)
      ensures forall r :: r in runs && runs[r].conversationId == conversationId && runs[r].status == Queued ==>
                runs[r].messageId == exceptMessageId
      ensures forall p :: p in superseded <==>
                p in Pairs(old(State()), Superseded(old(State()), conversationId, exceptMessageId))
    {
      L.StepKeepsInv(State(), L.SupersedeWaiting(conversationId, exceptMessageId));
      var victims := set r | r in runs && runs[r].conversationId == conversationId && runs[r].status == Queued
                             && runs[r].messageId != exceptMessageId;
      superseded := SupersedeAll(victims);
    }

    // ---- Conversation service ------------------------------------------------------------

    method CreateConversation(id: string, userId: string, title: string, mode: StrategyMode)
      requires Valid() && id !in conversations
      modifies this
      ensures Valid() && State() == AgentRows.CreateConversation(old(State()), id, userId, title, mode)
    {
      L.StepKeepsInv(State(), L.NewConversation(id, userId, title, mode));
      conversations := conversations[id := Conversation(userId, title, mode, false)];
    }

    method UpdateConversation(userId: string, conversationId: string, title: Option<string>, mode: Option<StrategyMode>)
      returns (error: Option<ServiceError>)
      requires Valid()
      modifies this
      ensures Valid() && State() == AgentRows.UpdateConversation(old(State()), userId, conversationId, title, mode)
      ensures error == if !Owns(old(State()), userId, conversationId) then Some(NotFound)
                       else if old(conversations)[conversationId].archived then Some(Archived) else None
    {
      L.StepKeepsInv(State(), L.EditConversation(userId, conversationId, title, mode));
      if conversationId !in conversations || conversations[conversationId].userId != userId {
        return Some(NotFound);
      }
      var c := conversations[conversationId];
      if c.archived {
        return Some(Archived);
      }
      if title.Some? { c := c.(title := title.value); }
      if mode.Some? { c := c.(strategyMode := mode.value); }
      conversations := conversations[conversationId := c];
      error := None;
    }

    method ArchiveConversation(userId: string, conversationId: string) returns (error: Option<ServiceError>)
      requires Valid()
      modifies this
      ensures Valid() && State() == AgentRows.ArchiveConversation(old(State()), userId, conversationId)
      ensures error == if Owns(old(State()), userId, conversationId) then None else Some(NotFound)
    {
      L.StepKeepsInv(State(), L.Archive(userId, conversationId));
      if conversationId !in conversations || conversations[conversationId].userId != userId {
        return Some(NotFound);
      }
      if !conversations[conversationId].archived {
        conversations := conversations[conversationId := conversations[conversationId].(archived := true)];
      }
      error := None;
    }

    method CreateMessage(id: string, userId: string, conversationId: string, content: string,
                         mode: Option<StrategyMode>, requestId: Option<string>)
      returns (answer: Result<string, ServiceError>)
      requires Valid() && id !in messages
      modifies this
      ensures Valid() && State() == AgentRows.CreateMessage(old(State()), id, userId, conversationId, content, mode, requestId)
      ensures CreateMessageAnswers(old(State()), id, userId, conversationId, content, mode, requestId, answer)
    {
      L.StepKeepsInv(State(), L.Post(id, userId, conversationId, content, mode, requestId));
      if conversationId !in conversations || conversations[conversationId].userId != userId {
        return Err(NotFound);
      }
      if conversations[conversationId].archived {
        return Err(Archived);
      }
      var effective := if mode.Some? then mode.value else conversations[conversationId].strategyMode;
      var db := Database(conversations, messages, runs);
      if requestId.Some? {
        var same := WithRequestId(db, conversationId, requestId.value);
        if same != {} {
          var existing :| existing in same;
          if messages[existing].content != content || messages[existing].strategyMode != effective {
            return Err(Conflict);
          }
          return Ok(existing);
        }
      }
      if |content| < 1 || MAX_CONTENT < |content| {
        return Err(Integrity);
      }
      messages := messages[id := Message(conversationId, userId, User, content, Queued, NextSequence(db, conversationId),
                                         effective, requestId, None, None, None)];
      answer := Ok(id);
    }

    /** Answers the message's only run, creating it when it is not committed yet. */
    method EnsureRun(id: string, messageId: string) returns (runId: string)
      requires Valid() && id !in runs && messageId in messages && messages[messageId].role == User
      modifies this
      ensures Valid() && State() == AgentRows.EnsureRun(old(State()), id, messageId)
      ensures L.Paired(State(), messageId, runId)
      ensures old(State()) != State() ==> runId == id
    {
      L.StepKeepsInv(State(), L.AttachRun(id, messageId));
      var message := messages[messageId];
      var existing := RunsOf(Database(conversations, messages, runs), message.conversationId, messageId);
      if existing != {} {
        runId :| runId in existing;
        return;
      }
      runs := runs[id := Run(messageId, message.conversationId, Queued, false, None, "", None, None, None, None, None)];
      runId := id;
    }

    /** Marks the message's run cancelling while it is active; a finished run is only reported. */
    method RequestCancel(userId: string, conversationId: string, messageId: string) returns (r: Result<string, ServiceError>)
      requires Valid()
      modifies this
      ensures Valid()
      ensures r.Ok? ==>
                && CancelTarget(old(State()), userId, conversationId, messageId, r.value)
                && State() == AgentRows.RequestCancel(old(State()), userId, conversationId, messageId, r.value)
      ensures r.Err? ==>
                && State() == old(State()) && r.error == NotFound
                && forall q :: !CancelTarget(old(State()), userId, conversationId, messageId, q)
    {
      if conversationId !in conversations || conversations[conversationId].userId != userId
         || messageId !in messages || messages[messageId].conversationId != conversationId {
        return Err(NotFound);
      }
      var candidates := RunsOf(Database(conversations, messages, runs), conversationId, messageId);
      if candidates == {} {
        return Err(NotFound);
      }
      var runId :| runId in candidates;
      L.StepKeepsInv(State(), L.AskCancel(userId, conversationId, messageId, runId));
      if runs[runId].status in ACTIVE {
        var _ := UpdateRunStatus(runId, ACTIVE, Cancelling, KEEP.(cancelRequested := Some(true)));
        var _ := UpdateMessageStatus(messageId, {Queued, Running, Streaming, Cancelling}, Cancelling, KEEP_MESSAGE);
      }
      r := Ok(runId);
    }
  }
}
