/**
 What each committed transaction does, column by column.

 A run and its message are always in one status, so each pair of guarded updates has one effect,
 stated here on the rows themselves: which columns get which values from which statuses, and that
 no other column, row or table changes.
 */
module AgentEffects {
  import opened Common
  import opened JccTables
  import opened AgentRows
  import L = AgentLifecycle

  lemma PairOf(db: Database, m: string, r: string)
    requires L.Inv(db) && L.Paired(db, m, r)
    ensures m in db.messages && db.messages[m].status == db.runs[r].status && db.runs[r].status != Streaming
    ensures db.messages[m].conversationId == db.runs[r].conversationId && db.messages[m].role == User
    ensures db.runs[r].conversationId in db.conversations
  {
    assert L.RunOk(db, r) && L.MessageOk(db, m);
  }

  /** The database with these two rows in place of what it had under their ids, and nothing else changed. */
  function With(db: Database, r: string, run: Run, m: string, message: Message): Database {
    Database(db.conversations, db.messages[m := message], db.runs[r := run])
  }

  /** A reported count replaces the stored one; an unknown count keeps it. */
  function Reported(count: Option<int>, stored: Option<int>): Option<int> { if count == None then stored else count }

  // ---- Executions ------------------------------------------------------------------------

  lemma StartEffect(db: Database, m: string, r: string, now: int)
    requires L.Inv(db) && L.Paired(db, m, r)
    ensures m in db.messages
    ensures L.Apply(db, L.Start(m, r, now)) ==
            if db.runs[r].status == Queued
            then With(db, r, db.runs[r].(status := Running, cancelRequested := false, startedAt := Some(now)),
                      m, db.messages[m].(status := Running, startedAt := Some(now)))
            else db
  {
    PairOf(db, m, r);
  }

  lemma StreamEffect(db: Database, m: string, r: string, content: string)
    requires L.Inv(db) && L.Paired(db, m, r)
    ensures L.Apply(db, L.Stream(m, r, content)) ==
            if db.runs[r].status == Running then db.(runs := db.runs[r := db.runs[r].(outputContent := content)]) else db
  {
    PairOf(db, m, r);
  }

  /** The snapshot row that a run reads: its pinned one, if that row has the pinned mode, or else the current one. */
  ghost predicate ReadsSnapshot(run: Run, jcc: Tables, mode: string, sid: nat) {
    && sid < |jcc.snapshots|
    && if run.pin.Some? then sid == run.pin.value.snapshotId && jcc.snapshots[sid].mode == run.pin.value.mode
       else mode in jcc.current && jcc.current[mode] == sid
  }

  function Described(jcc: Tables, sid: nat): SnapshotContext
    requires sid < |jcc.snapshots|
  {
    var s := jcc.snapshots[sid];
    SnapshotContext(sid, s.mode, s.season, s.version, s.revision, s.contentHash)
  }

  /** Resolving answers the snapshot a run reads, and records it on a running run that has none yet. */
  lemma ResolveEffect(db: Database, r: string, jcc: Tables, mode: string)
    ensures r in db.runs ==> forall sid :: ReadsSnapshot(db.runs[r], jcc, mode, sid) ==>
              ResolvedContext(db, jcc, mode, r) == Some(Described(jcc, sid))
    ensures (r !in db.runs || !exists sid :: ReadsSnapshot(db.runs[r], jcc, mode, sid))
            ==> ResolvedContext(db, jcc, mode, r) == None && L.Apply(db, L.Resolve(r, jcc, mode)) == db
    ensures r in db.runs ==> forall sid :: ReadsSnapshot(db.runs[r], jcc, mode, sid) ==>
              L.Apply(db, L.Resolve(r, jcc, mode)) ==
              if db.runs[r].status == Running && db.runs[r].pin == None
              then db.(runs := db.runs[r := db.runs[r].(pin := Some(Described(jcc, sid)))]) else db
  {
    if r in db.runs {
      var run := db.runs[r];
      var sid := if run.pin.Some? then run.pin.value.snapshotId else if mode in jcc.current then jcc.current[mode] else 0;
      assert ReadsSnapshot(run, jcc, mode, sid) <==> ResolvedContext(db, jcc, mode, r).Some?;
    }
  }

  /** The number after the last one used in a conversation. */
  ghost predicate NextNumber(db: Database, c: string, n: nat) {
    && n >= 1
    && (forall m :: m in db.messages && db.messages[m].conversationId == c ==> db.messages[m].sequence < n)
    && (n > 1 ==> exists m :: m in db.messages && db.messages[m].conversationId == c && db.messages[m].sequence == n - 1)
  }

  lemma NextIsNumber(db: Database, c: string, n: nat)
    ensures NextSequence(db, c) == n <==> NextNumber(db, c, n)
  {
    var used := Sequences(db, c);
    var next := NextSequence(db, c);
    forall m | m in db.messages && db.messages[m].conversationId == c ensures db.messages[m].sequence < next {
      assert db.messages[m].sequence in used;
    }
    if next > 1 {
      assert next - 1 in used;
      var m :| m in db.messages && db.messages[m].conversationId == c && db.messages[m].sequence == next - 1;
    }
  }

  /** The answer of a run: a blank stands for an empty text. */
  function AnswerRow(db: Database, c: string, answer: string, n: nat, mode: StrategyMode, now: int): Message
    requires c in db.conversations
  {
    Message(c, db.conversations[c].userId, Assistant, if answer == "" then " " else answer, Completed, n, mode,
            None, None, Some(now), Some(now))
  }

  /** Completing: over-long answers change nothing, others are stored, and a running pair is completed with them. */
  lemma AnswerEffect(db: Database, c: string, m: string, r: string, id: string, answer: string, mode: StrategyMode,
                     now: int, usage: Usage, n: nat)
    requires L.Inv(db) && L.Paired(db, m, r) && db.runs[r].conversationId == c && id !in db.messages
    requires NextNumber(db, c, n)
    ensures m in db.messages && c in db.conversations
    ensures L.Apply(db, L.Answer(c, m, r, id, answer, mode, now, usage)) ==
            if |answer| > 8000 then db
            else
              var row := AnswerRow(db, c, answer, n, mode, now);
              if db.runs[r].status != Running then db.(messages := db.messages[id := row])
              else
                var run := db.runs[r];
                var done := With(db, r,
                  run.(status := Completed, completedAt := Some(now), outputContent := answer,
                       inputTokens := Reported(usage.inputTokens, run.inputTokens),
                       outputTokens := Reported(usage.outputTokens, run.outputTokens)),
                  m, db.messages[m].(status := Completed, completedAt := Some(now)));
                done.(messages := done.messages[id := row])
  {
    PairOf(db, m, r);
    hide L.Inv;
    NextIsNumber(db, c, n);
    if CanComplete(db, c, m, r, answer) {
      var done := CompletedPair(db, m, r, answer, now, usage);
      SameNumbers(db, done, c);
    }
  }

  lemma SameNumbers(db: Database, after: Database, c: string)
    requires L.SameHeaders(db, after)
    ensures NextSequence(after, c) == NextSequence(db, c)
  {
    L.SameSequences(db, after, c);
  }

  lemma EndEffect(db: Database, m: string, r: string, status: Status, e: string, content: string, now: int, usage: Usage)
    requires L.Inv(db) && L.Paired(db, m, r) && (status == Failed || status == Cancelled)
    ensures m in db.messages
    ensures var run := db.runs[r];
            L.Apply(db, L.End(m, r, status, e, content, now, usage)) ==
            if run.status == Queued || run.status == Running || run.status == Cancelling
            then With(db, r,
                      run.(status := status, cancelRequested := status == Cancelled, errorCode := Some(e),
                           completedAt := Some(now), outputContent := content,
                           inputTokens := Reported(usage.inputTokens, run.inputTokens),
                           outputTokens := Reported(usage.outputTokens, run.outputTokens)),
                      m, db.messages[m].(status := status, errorCode := Some(e), completedAt := Some(now)))
            else db
  {
    PairOf(db, m, r);
  }

  // ---- Cancelling and restarting ---------------------------------------------------------

  lemma CancelCurrentEffect(db: Database, m: string, r: string, now: int)
    requires L.Inv(db) && L.Paired(db, m, r)
    ensures m in db.messages
    ensures var run := db.runs[r];
            L.Apply(db, L.CancelCurrent(m, r, now)) ==
            if run.status == Queued || run.status == Running || run.status == Cancelling
            then With(db, r,
                      run.(status := Cancelled, cancelRequested := true, errorCode := Some("cancelled"), completedAt := Some(now)),
                      m, db.messages[m].(status := Cancelled, errorCode := Some("cancelled"), completedAt := Some(now)))
            else db
  {
    PairOf(db, m, r);
  }

  /** A waiting pair is cancelled without an error code or an end time. */
  lemma CancelWaitingEffect(db: Database, m: string, r: string)
    requires L.Inv(db) && L.Paired(db, m, r)
    ensures m in db.messages
    ensures L.Apply(db, L.CancelWaiting(m, r)) ==
            if db.runs[r].status == Queued || db.runs[r].status == Cancelling
            then With(db, r, db.runs[r].(status := Cancelled, cancelRequested := true),
                      m, db.messages[m].(status := Cancelled))
            else db
  {
    PairOf(db, m, r);
  }

  /** After a restart an interrupted pair waits again with its flag cleared; pin, output and start stay. */
  lemma RequeueEffect(db: Database, m: string, r: string)
    requires L.Inv(db) && L.Paired(db, m, r)
    ensures m in db.messages
    ensures L.Apply(db, L.Requeue(m, r)) ==
            if db.runs[r].status == Running || db.runs[r].status == Cancelling
            then With(db, r, db.runs[r].(status := Queued, cancelRequested := false),
                      m, db.messages[m].(status := Queued))
            else db
  {
    PairOf(db, m, r);
  }

  /** A waiting run of the conversation whose message is not the newest one. */
  predicate Outdated(run: Run, c: string, newest: string) {
    run.conversationId == c && run.status == Queued && run.messageId != newest
  }

  /** Superseding cancels every outdated run and its message, and touches no other row. */
  lemma SupersedeEffect(db: Database, c: string, newest: string)
    requires L.Inv(db)
    ensures var after := L.Apply(db, L.SupersedeWaiting(c, newest));
            && after.conversations == db.conversations
            && after.runs.Keys == db.runs.Keys && after.messages.Keys == db.messages.Keys
            && (forall r :: r in db.runs && !Outdated(db.runs[r], c, newest) ==> after.runs[r] == db.runs[r])
            && (forall r :: r in db.runs && Outdated(db.runs[r], c, newest) ==>
                  after.runs[r] == db.runs[r].(status := Cancelled, cancelRequested := true, errorCode := Some("superseded")))
            && (forall m :: m in db.messages && !OutdatedMessage(db, m, c, newest) ==> after.messages[m] == db.messages[m])
            && (forall m :: m in db.messages && OutdatedMessage(db, m, c, newest) ==>
                  after.messages[m] == db.messages[m].(status := Cancelled, errorCode := Some("superseded")))
  {
    var victims := Superseded(db, c, newest);
    forall m | m in db.messages && OutdatedMessage(db, m, c, newest) ensures db.messages[m].status == Queued {
      var r :| r in db.runs && db.runs[r].messageId == m && Outdated(db.runs[r], c, newest);
      PairOf(db, m, r);
    }
    forall m ensures m in (set v | v in victims :: db.runs[v].messageId) <==> OutdatedMessage(db, m, c, newest) {
      if OutdatedMessage(db, m, c, newest) {
        var r :| r in db.runs && db.runs[r].messageId == m && Outdated(db.runs[r], c, newest);
        assert r in victims;
      }
    }
  }

  predicate OutdatedMessage(db: Database, m: string, c: string, newest: string) {
    exists r :: r in db.runs && db.runs[r].messageId == m && Outdated(db.runs[r], c, newest)
  }

  /** A cancel request by the owner marks an active pair cancelling; any other request changes nothing. */
  lemma AskCancelEffect(db: Database, u: string, c: string, m: string, r: string)
    requires L.Inv(db)
    ensures var known := c in db.conversations && db.conversations[c].userId == u && m in db.messages
                         && db.messages[m].conversationId == c && r in db.runs && db.runs[r].messageId == m;
            L.Apply(db, L.AskCancel(u, c, m, r)) ==
            if known && (db.runs[r].status == Queued || db.runs[r].status == Running || db.runs[r].status == Cancelling)
            then With(db, r, db.runs[r].(status := Cancelling, cancelRequested := true),
                      m, db.messages[m].(status := Cancelling))
            else db
  {
    if L.Paired(db, m, r) { PairOf(db, m, r); }
  }

  // ---- Conversations, messages and runs --------------------------------------------------

  predicate OwnedBy(db: Database, u: string, c: string) { c in db.conversations && db.conversations[c].userId == u }

  lemma ConversationEffects(db: Database, id: string, u: string, c: string, title: string, mode: StrategyMode,
                            newTitle: Option<string>, newMode: Option<StrategyMode>)
    requires id !in db.conversations
    ensures L.Apply(db, L.NewConversation(id, u, title, mode))
            == db.(conversations := db.conversations[id := Conversation(u, title, mode, false)])
    ensures L.Apply(db, L.EditConversation(u, c, newTitle, newMode)) ==
            if OwnedBy(db, u, c) && !db.conversations[c].archived
            then
              var was := db.conversations[c];
              db.(conversations := db.conversations[c := Conversation(
                was.userId, if newTitle.Some? then newTitle.value else was.title,
                if newMode.Some? then newMode.value else was.strategyMode, false)])
            else db
    ensures L.Apply(db, L.Archive(u, c)) ==
            if OwnedBy(db, u, c)
            then
              var was := db.conversations[c];
              db.(conversations := db.conversations[c := Conversation(was.userId, was.title, was.strategyMode, true)])
            else db
  {
  }

  /** A message that already carries this request id in this conversation. */
  predicate Requested(db: Database, c: string, q: Option<string>, m: string) {
    q.Some? && m in db.messages && db.messages[m].conversationId == c && db.messages[m].clientRequestId == q
  }

  function ChosenMode(db: Database, c: string, mode: Option<StrategyMode>): StrategyMode
    requires c in db.conversations
  {
    if mode.Some? then mode.value else db.conversations[c].strategyMode
  }

  /** Posting inserts one queued user message with the next number, or nothing. */
  lemma PostEffect(db: Database, id: string, u: string, c: string, content: string, mode: Option<StrategyMode>,
                   q: Option<string>, n: nat)
    requires id !in db.messages && NextNumber(db, c, n)
    ensures var accepted := OwnedBy(db, u, c) && !db.conversations[c].archived && (forall m :: !Requested(db, c, q, m))
                            && 1 <= |content| <= 8000;
            L.Apply(db, L.Post(id, u, c, content, mode, q)) ==
            if accepted
            then db.(messages := db.messages[id := Message(c, u, User, content, Queued, n, ChosenMode(db, c, mode), q,
                                                           None, None, None)])
            else db
  {
    NextIsNumber(db, c, n);
    RequestedIds(db, c, q);
  }

  lemma RequestedIds(db: Database, c: string, q: Option<string>)
    ensures q.Some? ==> forall m :: m in WithRequestId(db, c, q.value) <==> Requested(db, c, q, m)
    ensures q.None? ==> forall m :: !Requested(db, c, q, m)
  {
  }

  /** What a post answers, in every case. */
  lemma PostAnswer(db: Database, id: string, u: string, c: string, content: string, mode: Option<StrategyMode>,
                   q: Option<string>, answer: Result<string, ServiceError>)
    requires L.Inv(db) && CreateMessageAnswers(db, id, u, c, content, mode, q, answer)
    ensures answer == Err(NotFound) <==> !OwnedBy(db, u, c)
    ensures answer == Err(Archived) <==> OwnedBy(db, u, c) && db.conversations[c].archived
    ensures forall m :: OwnedBy(db, u, c) && !db.conversations[c].archived && Requested(db, c, q, m) ==>
              answer == if db.messages[m].content == content && db.messages[m].strategyMode == ChosenMode(db, c, mode)
                        then Ok(m) else Err(Conflict)
    ensures OwnedBy(db, u, c) && !db.conversations[c].archived && (forall m :: !Requested(db, c, q, m)) ==>
              answer == if 1 <= |content| <= 8000 then Ok(id) else Err(Integrity)
  {
    RequestedIds(db, c, q);
    forall m, x | Requested(db, c, q, m) && Requested(db, c, q, x) ensures m == x { assert L.Clash(db, m, x); }
  }

  /** A message's first attachment creates its run, waiting and empty; a later one changes nothing. */
  lemma AttachEffect(db: Database, id: string, m: string)
    requires L.Inv(db) && id !in db.runs && m in db.messages && db.messages[m].role == User
    ensures L.Apply(db, L.AttachRun(id, m)) ==
            if exists r :: r in db.runs && db.runs[r].messageId == m then db
            else db.(runs := db.runs[id := Run(m, db.messages[m].conversationId, Queued, false, None, "", None, None,
                                               None, None, None)])
  {
    var own := RunsOf(db, db.messages[m].conversationId, m);
    forall r | r in db.runs && db.runs[r].messageId == m ensures r in own { PairOf(db, m, r); }
  }
}
