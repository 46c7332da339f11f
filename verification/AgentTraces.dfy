/**
 Whole-run properties of the agent lifecycle: what holds in every state that some sequence of
 committed transactions reaches, and what can no longer change once it has happened.
 */
module AgentTraces {
  import opened Common
  import opened JccTables
  import opened AgentRows
  import opened AgentLifecycle

  /** A history from the empty database: states[k+1] is what committing steps[k] made of states[k]. */
  ghost predicate Trace(states: seq<Database>, steps: seq<Step>) {
    && |states| == |steps| + 1
    && states[0] == EMPTY
    && forall k :: 0 <= k < |steps| ==> Enabled(states[k], steps[k]) && states[k + 1] == Apply(states[k], steps[k])
  }

  lemma {:induction false} TraceKeepsInv(states: seq<Database>, steps: seq<Step>, k: nat)
    requires Trace(states, steps) && k < |states|
    ensures Inv(states[k])
  {
    if k > 0 {
      TraceKeepsInv(states, steps, k - 1);
      StepKeepsInv(states[k - 1], steps[k - 1]);
    }
  }

  /** In every reachable state a run and its user message agree, and the cancel flag says what it means. */
  lemma LockstepAlways(states: seq<Database>, steps: seq<Step>, k: nat, r: string)
    requires Trace(states, steps) && k < |states| && r in states[k].runs
    ensures var run := states[k].runs[r];
            && run.messageId in states[k].messages
            && run.status == states[k].messages[run.messageId].status
            && run.errorCode == states[k].messages[run.messageId].errorCode
            && run.startedAt == states[k].messages[run.messageId].startedAt
            && run.completedAt == states[k].messages[run.messageId].completedAt
            && (run.cancelRequested <==> run.status == Cancelling || run.status == Cancelled)
            && (forall q :: q in states[k].runs && states[k].runs[q].messageId == run.messageId ==> q == r)
  {
    TraceKeepsInv(states, steps, k);
    assert RunOk(states[k], r);
    forall q | q in states[k].runs && states[k].runs[q].messageId == states[k].runs[r].messageId ensures q == r {
      assert SharedMessage(states[k], q, r);
    }
  }

  // ---- The message log -------------------------------------------------------------------

  function MessagesOf(db: Database, c: string): set<string> {
    set m | m in db.messages && db.messages[m].conversationId == c
  }

  lemma {:induction false} DistinctSequences(db: Database, c: string, ms: set<string>)
    requires NoClash(db) && ms <= MessagesOf(db, c)
    ensures |set m | m in ms :: db.messages[m].sequence| == |ms|
  {
    var image := set m | m in ms :: db.messages[m].sequence;
    if ms != {} {
      var x :| x in ms;
      DistinctSequences(db, c, ms - {x});
      var rest := set m | m in ms - {x} :: db.messages[m].sequence;
      forall m | m in ms - {x} ensures db.messages[m].sequence != db.messages[x].sequence {
        assert !Clash(db, m, x);
      }
      assert image == rest + {db.messages[x].sequence};
    }
  }

  lemma {:induction false} DenseIsInterval(s: set<nat>, k: nat)
    requires Dense(s) && 1 <= k && (exists top :: top in s && k <= top)
    ensures k in s
    decreases MaxOf(s) - k
  {
    if k < MaxOf(s) { DenseIsInterval(s, k + 1); }
  }

  function UpTo(n: nat): (s: set<nat>)
    ensures forall x :: x in s <==> 1 <= x <= n
    ensures |s| == n
  {
    if n == 0 then {} else UpTo(n - 1) + {n}
  }

  /** The messages of a conversation, user and assistant together, are numbered exactly 1..n. */
  lemma NumberedOneToN(states: seq<Database>, steps: seq<Step>, k: nat, c: string)
    requires Trace(states, steps) && k < |states|
    ensures Sequences(states[k], c) == UpTo(|MessagesOf(states[k], c)|)
  {
    var db := states[k];
    TraceKeepsInv(states, steps, k);
    var s := Sequences(db, c);
    assert Dense(s);
    forall n: nat | 1 <= n <= MaxOf(s) ensures n in s { DenseIsInterval(s, n); }
    assert s == UpTo(MaxOf(s));
    DistinctSequences(db, c, MessagesOf(db, c));
    assert s == set m | m in MessagesOf(db, c) :: db.messages[m].sequence;
  }

  /** A repeated request is answered from its first message exactly when content and effective mode agree. */
  lemma RetryAnswer(db: Database, m: string, id: string, userId: string, content: string,
                    mode: Option<StrategyMode>, answer: Result<string, ServiceError>)
    requires Inv(db) && m in db.messages && db.messages[m].clientRequestId.Some?
    ensures var c := db.messages[m].conversationId;
            var q := db.messages[m].clientRequestId;
            && c in db.conversations
            && CreateMessage(db, id, userId, c, content, mode, q) == db
            && (CreateMessageAnswers(db, id, userId, c, content, mode, q, answer) <==>
                  answer == if userId != db.messages[m].userId then Err(NotFound)
                            else if db.conversations[c].archived then Err(Archived)
                            else if db.messages[m].content == content
                                 && db.messages[m].strategyMode == EffectiveMode(db, c, mode) then Ok(m)
                            else Err(Conflict))
  {
    var c := db.messages[m].conversationId;
    var q := db.messages[m].clientRequestId;
    assert MessageOk(db, m);
    assert m in WithRequestId(db, c, q.value);
    forall n | n in WithRequestId(db, c, q.value) ensures n == m { assert Clash(db, m, n); }
  }

  // ---- What never changes again ----------------------------------------------------------

  predicate MessageEvolves(db: Database, after: Database, m: string)
    requires m in db.messages
  {
    m in after.messages && SameHeader(db.messages[m], after.messages[m])
    && (Terminal(db.messages[m].status) ==> after.messages[m] == db.messages[m])
  }

  predicate RunEvolves(db: Database, after: Database, r: string)
    requires r in db.runs
  {
    r in after.runs
    && after.runs[r].messageId == db.runs[r].messageId
    && after.runs[r].conversationId == db.runs[r].conversationId
    && (Terminal(db.runs[r].status) ==> after.runs[r] == db.runs[r])
    && (db.runs[r].pin.Some? ==> after.runs[r].pin == db.runs[r].pin)
  }

  predicate ConversationEvolves(db: Database, after: Database, c: string)
    requires c in db.conversations
  {
    c in after.conversations && after.conversations[c].userId == db.conversations[c].userId
    && (db.conversations[c].archived ==> after.conversations[c] == db.conversations[c])
  }

  predicate UserMessageIn(db: Database, c: string, m: string) {
    m in db.messages && db.messages[m].conversationId == c && db.messages[m].role == User
  }

  predicate ArchivedIn(db: Database, c: string) { c in db.conversations && db.conversations[c].archived }

  /** Rows are never deleted; headers and pins never change; terminal rows and archives are frozen. */
  ghost predicate Evolves(db: Database, after: Database) {
    && (forall m {:trigger MessageEvolves(db, after, m)} :: m in db.messages ==> MessageEvolves(db, after, m))
    && (forall r {:trigger RunEvolves(db, after, r)} :: r in db.runs ==> RunEvolves(db, after, r))
    && (forall c {:trigger ConversationEvolves(db, after, c)} :: c in db.conversations ==> ConversationEvolves(db, after, c))
    && (forall c, m {:trigger ArchivedIn(db, c), UserMessageIn(after, c, m)} ::
          ArchivedIn(db, c) && UserMessageIn(after, c, m) ==> UserMessageIn(db, c, m))
  }

  lemma StepEvolves(db: Database, s: Step)
    requires Enabled(db, s)
    ensures Evolves(db, Apply(db, s))
  {
    var after := Apply(db, s);
    forall m | m in db.messages ensures MessageEvolves(db, after, m) { MessageStepEvolves(db, s, m); }
    forall r | r in db.runs ensures RunEvolves(db, after, r) { RunStepEvolves(db, s, r); }
    forall c, m | ArchivedIn(db, c) && UserMessageIn(after, c, m) ensures UserMessageIn(db, c, m) {
      ArchivedStepEvolves(db, s, c, m);
    }
  }

  /** Steps of an execution, and steps that cancel or requeue one run with its message. */
  predicate Executes(s: Step) { s.Start? || s.Stream? || s.End? }

  predicate Withdraws(s: Step) { s.CancelCurrent? || s.CancelWaiting? || s.Requeue? || s.AskCancel? }

  lemma MessageStepEvolves(db: Database, s: Step, m: string)
    requires Enabled(db, s) && m in db.messages
    ensures MessageEvolves(db, Apply(db, s), m)
  {
    hide Enabled, Apply, MessageEvolves;
    if Executes(s) { MessageExecutionStep(db, s, m); } else if Withdraws(s) { MessageWithdrawalStep(db, s, m); } else { MessageOtherStep(db, s, m); }
  }

  lemma MessageExecutionStep(db: Database, s: Step, m: string)
    requires Enabled(db, s) && m in db.messages && Executes(s)
    ensures MessageEvolves(db, Apply(db, s), m)
  {
  }

  lemma MessageWithdrawalStep(db: Database, s: Step, m: string)
    requires Enabled(db, s) && m in db.messages && Withdraws(s)
    ensures MessageEvolves(db, Apply(db, s), m)
  {
  }

  lemma MessageOtherStep(db: Database, s: Step, m: string)
    requires Enabled(db, s) && m in db.messages && !Executes(s) && !Withdraws(s)
    ensures MessageEvolves(db, Apply(db, s), m)
  {
    match s {
      case SupersedeWaiting(c, except) =>
      case Answer(_, _, _, _, _, _, _, _) =>
      case _ =>
    }
  }

  lemma RunStepEvolves(db: Database, s: Step, r: string)
    requires Enabled(db, s) && r in db.runs
    ensures RunEvolves(db, Apply(db, s), r)
  {
    hide Enabled, Apply, RunEvolves;
    if Executes(s) { RunExecutionStep(db, s, r); } else if Withdraws(s) { RunWithdrawalStep(db, s, r); } else { RunOtherStep(db, s, r); }
  }

  lemma RunExecutionStep(db: Database, s: Step, r: string)
    requires Enabled(db, s) && r in db.runs && Executes(s)
    ensures RunEvolves(db, Apply(db, s), r)
  {
  }

  lemma RunWithdrawalStep(db: Database, s: Step, r: string)
    requires Enabled(db, s) && r in db.runs && Withdraws(s)
    ensures RunEvolves(db, Apply(db, s), r)
  {
  }

  lemma RunOtherStep(db: Database, s: Step, r: string)
    requires Enabled(db, s) && r in db.runs && !Executes(s) && !Withdraws(s)
    ensures RunEvolves(db, Apply(db, s), r)
  {
    match s {
      case Resolve(_, _, _) =>
      case SupersedeWaiting(c, except) =>
      case _ =>
    }
  }

  lemma ArchivedStepEvolves(db: Database, s: Step, c: string, m: string)
    requires Enabled(db, s) && ArchivedIn(db, c) && UserMessageIn(Apply(db, s), c, m)
    ensures UserMessageIn(db, c, m)
  {
    match s {
      case Post(_, _, _, _, _, _) =>
      case SupersedeWaiting(_, _) =>
      case Answer(_, _, _, _, _, _, _, _) =>
      case _ =>
    }
  }

  lemma EvolvesTransitive(a: Database, b: Database, c: Database)
    requires Evolves(a, b) && Evolves(b, c)
    ensures Evolves(a, c)
  {
    forall m | m in a.messages ensures MessageEvolves(a, c, m) {
      assert MessageEvolves(a, b, m) && MessageEvolves(b, c, m);
    }
    forall r | r in a.runs ensures RunEvolves(a, c, r) {
      assert RunEvolves(a, b, r) && RunEvolves(b, c, r);
    }
    forall v | v in a.conversations ensures ConversationEvolves(a, c, v) {
      assert ConversationEvolves(a, b, v) && ConversationEvolves(b, c, v);
    }
    forall v, m | ArchivedIn(a, v) && UserMessageIn(c, v, m) ensures UserMessageIn(a, v, m) {
      assert ConversationEvolves(a, b, v);
      assert ArchivedIn(b, v);
      assert UserMessageIn(b, v, m);
    }
  }

  lemma {:induction false} TraceEvolves(states: seq<Database>, steps: seq<Step>, i: nat, j: nat)
    requires Trace(states, steps) && i <= j < |states|
    ensures Evolves(states[i], states[j])
    decreases j - i
  {
    if i == j {
      forall m | m in states[i].messages ensures MessageEvolves(states[i], states[j], m) {}
      forall r | r in states[i].runs ensures RunEvolves(states[i], states[j], r) {}
    } else {
      TraceEvolves(states, steps, i, j - 1);
      StepEvolves(states[j - 1], steps[j - 1]);
      EvolvesTransitive(states[i], states[j - 1], states[j]);
    }
  }

  /** Once a run is completed, failed or cancelled, neither it nor its message ever changes again. */
  lemma TerminalRowsFrozen(states: seq<Database>, steps: seq<Step>, i: nat, j: nat, r: string)
    requires Trace(states, steps) && i <= j < |states|
    requires r in states[i].runs && Terminal(states[i].runs[r].status)
    ensures r in states[j].runs && states[j].runs[r] == states[i].runs[r]
    ensures var m := states[i].runs[r].messageId;
            m in states[i].messages && m in states[j].messages && states[j].messages[m] == states[i].messages[m]
  {
    TraceEvolves(states, steps, i, j);
    LockstepAlways(states, steps, i, r);
    assert RunEvolves(states[i], states[j], r);
    assert MessageEvolves(states[i], states[j], states[i].runs[r].messageId);
  }

  /** A recorded snapshot pin survives streaming, cancelling, requeueing and everything else. */
  lemma PinNeverChanges(states: seq<Database>, steps: seq<Step>, i: nat, j: nat, r: string)
    requires Trace(states, steps) && i <= j < |states|
    requires r in states[i].runs && states[i].runs[r].pin.Some?
    ensures r in states[j].runs && states[j].runs[r].pin == states[i].runs[r].pin
  {
    TraceEvolves(states, steps, i, j);
    assert RunEvolves(states[i], states[j], r);
  }

  /** After archiving, a conversation keeps exactly its user messages, whatever is posted. */
  lemma NoUserMessageAfterArchive(states: seq<Database>, steps: seq<Step>, i: nat, j: nat, c: string, m: string)
    requires Trace(states, steps) && i <= j < |states| && ArchivedIn(states[i], c)
    ensures UserMessageIn(states[j], c, m) <==> UserMessageIn(states[i], c, m)
  {
    TraceEvolves(states, steps, i, j);
    if m in states[i].messages { assert MessageEvolves(states[i], states[j], m); }
  }

  /** A retry at any later time meets the message of the first request, unchanged in what it compares. */
  lemma RetryAtAnyLaterTime(states: seq<Database>, steps: seq<Step>, i: nat, j: nat, m: string, id: string,
                            mode: Option<StrategyMode>)
    requires Trace(states, steps) && i <= j < |states|
    requires m in states[i].messages && states[i].messages[m].clientRequestId.Some?
    requires !ArchivedIn(states[j], states[i].messages[m].conversationId)
    ensures var first := states[i].messages[m];
            var c := first.conversationId;
            && c in states[j].conversations
            && CreateMessage(states[j], id, first.userId, c, first.content, mode, first.clientRequestId) == states[j]
            && (CreateMessageAnswers(states[j], id, first.userId, c, first.content, mode, first.clientRequestId, Ok(m))
                <==> EffectiveMode(states[j], c, mode) == first.strategyMode)
            && (CreateMessageAnswers(states[j], id, first.userId, c, first.content, mode, first.clientRequestId, Err(Conflict))
                <==> EffectiveMode(states[j], c, mode) != first.strategyMode)
  {
    TraceEvolves(states, steps, i, j);
    TraceKeepsInv(states, steps, j);
    assert MessageEvolves(states[i], states[j], m);
    var first := states[i].messages[m];
    assert MessageOk(states[j], m);
    RetryAnswer(states[j], m, id, first.userId, first.content, mode, Ok(m));
    RetryAnswer(states[j], m, id, first.userId, first.content, mode, Err(Conflict));
  }

  // ---- How often a run can start ---------------------------------------------------------

  predicate StartedBetween(db: Database, after: Database, r: string) {
    r in db.runs && r in after.runs && db.runs[r].status == Queued && after.runs[r].status == Running
  }

  predicate RequeuedBetween(db: Database, after: Database, s: Step, r: string) {
    s.Requeue? && s.runId == r && db != after
  }

  ghost function Starts(states: seq<Database>, r: string, k: nat): nat
    requires k < |states|
  {
    if k == 0 then 0
    else Starts(states, r, k - 1) + (if StartedBetween(states[k - 1], states[k], r) then 1 else 0)
  }

  ghost function Requeues(states: seq<Database>, steps: seq<Step>, r: string, k: nat): nat
    requires k < |states| && |states| == |steps| + 1
  {
    if k == 0 then 0
    else Requeues(states, steps, r, k - 1)
         + (if RequeuedBetween(states[k - 1], states[k], steps[k - 1], r) then 1 else 0)
  }

  predicate WaitingIn(db: Database, r: string) { r in db.runs && db.runs[r].status == Queued }

  /** A run becomes queued only by being attached or by an effective restart requeue. */
  lemma BecomesQueued(db: Database, s: Step, r: string)
    requires Enabled(db, s) && !WaitingIn(db, r) && WaitingIn(Apply(db, s), r)
    ensures r !in db.runs || RequeuedBetween(db, Apply(db, s), s, r)
  {
    match s {
      case SupersedeWaiting(_, _) =>
      case _ =>
    }
  }

  lemma {:induction false} StartsFollowQueueing(states: seq<Database>, steps: seq<Step>, r: string, k: nat)
    requires Trace(states, steps) && k < |states|
    ensures r !in states[k].runs ==> Starts(states, r, k) == 0
    ensures Starts(states, r, k) + (if WaitingIn(states[k], r) then 1 else 0) <= 1 + Requeues(states, steps, r, k)
  {
    if k > 0 {
      StartsFollowQueueing(states, steps, r, k - 1);
      var db, s := states[k - 1], steps[k - 1];
      if r in db.runs { RunStepEvolves(db, s, r); }
      if !WaitingIn(db, r) && WaitingIn(states[k], r) { BecomesQueued(db, s, r); }
    }
  }

  /** A run starts at most once, plus once for every restart that really requeued it. */
  lemma StartsBounded(states: seq<Database>, steps: seq<Step>, r: string, k: nat)
    requires Trace(states, steps) && k < |states|
    ensures Starts(states, r, k) <= 1 + Requeues(states, steps, r, k)
  {
    StartsFollowQueueing(states, steps, r, k);
  }

  // ---- Answers and completions -----------------------------------------------------------

  function CompletedRuns(db: Database, c: string): set<string> {
    set r | r in db.runs && db.runs[r].conversationId == c && db.runs[r].status == Completed
  }

  function AnswersOf(db: Database, c: string): set<string> {
    set m | m in db.messages && db.messages[m].conversationId == c && db.messages[m].role == Assistant
  }

  /**
   Completing writes an answer in every case, but completes the run exactly when it was running:
   a run that was cancelled or requeued in between keeps its status and still gets an answer.
   */
  lemma AnswerCompletesIffRunning(db: Database, s: Step)
    requires Inv(db) && Enabled(db, s) && s.Answer?
    requires CanComplete(db, s.conversationId, s.messageId, s.runId, s.answer)
    ensures AnswersOf(Apply(db, s), s.conversationId) == AnswersOf(db, s.conversationId) + {s.answerId}
    ensures s.answerId !in AnswersOf(db, s.conversationId)
    ensures CompletedRuns(Apply(db, s), s.conversationId) ==
            CompletedRuns(db, s.conversationId) + (if db.runs[s.runId].status == Running then {s.runId} else {})
    ensures forall c :: c != s.conversationId ==>
              AnswersOf(Apply(db, s), c) == AnswersOf(db, c) && CompletedRuns(Apply(db, s), c) == CompletedRuns(db, c)
  {
    assert RunOk(db, s.runId);
    CompletedPairKeepsMessages(db, s);
    forall r | r in db.runs ensures true { CompletedPairKeepsRows(db, s, r); }
  }

  lemma OtherStepsKeepCompletedRun(db: Database, s: Step, r: string)
    requires Enabled(db, s) && r in db.runs
    requires s.Answer? ==> !CanComplete(db, s.conversationId, s.messageId, s.runId, s.answer)
    ensures r in Apply(db, s).runs
    ensures Apply(db, s).runs[r].status == Completed <==> db.runs[r].status == Completed
    ensures Apply(db, s).runs[r].conversationId == db.runs[r].conversationId
  {
    RunStepEvolves(db, s, r);
    match s {
      case SupersedeWaiting(_, _) =>
      case _ =>
    }
  }

  lemma NewRowsAreQueued(db: Database, s: Step)
    requires Enabled(db, s)
    requires s.Answer? ==> !CanComplete(db, s.conversationId, s.messageId, s.runId, s.answer)
    ensures forall r :: r in Apply(db, s).runs && r !in db.runs ==> Apply(db, s).runs[r].status == Queued
    ensures forall m :: m in Apply(db, s).messages && m !in db.messages ==> Apply(db, s).messages[m].role == User
  {
    match s {
      case SupersedeWaiting(_, _) =>
      case _ =>
    }
  }

  lemma OtherStepsKeepCompletions(db: Database, s: Step, c: string)
    requires Enabled(db, s)
    requires s.Answer? ==> !CanComplete(db, s.conversationId, s.messageId, s.runId, s.answer)
    ensures AnswersOf(Apply(db, s), c) == AnswersOf(db, c)
    ensures CompletedRuns(Apply(db, s), c) == CompletedRuns(db, c)
  {
    var after := Apply(db, s);
    NewRowsAreQueued(db, s);
    forall m | m in db.messages
      ensures m in AnswersOf(after, c) <==> m in AnswersOf(db, c)
    {
      MessageStepEvolves(db, s, m);
    }
    forall r | r in db.runs
      ensures r in CompletedRuns(after, c) <==> r in CompletedRuns(db, c)
    {
      OtherStepsKeepCompletedRun(db, s, r);
    }
  }

  /** No conversation ever has more completed runs than answers. */
  lemma {:induction false} CompletionsHaveAnswers(states: seq<Database>, steps: seq<Step>, c: string, k: nat)
    requires Trace(states, steps) && k < |states|
    ensures |CompletedRuns(states[k], c)| <= |AnswersOf(states[k], c)|
  {
    if k > 0 {
      CompletionsHaveAnswers(states, steps, c, k - 1);
      TraceKeepsInv(states, steps, k - 1);
      var db, s := states[k - 1], steps[k - 1];
      if s.Answer? && CanComplete(db, s.conversationId, s.messageId, s.runId, s.answer) {
        AnswerCompletesIffRunning(db, s);
      } else {
        OtherStepsKeepCompletions(db, s, c);
      }
    }
  }

  const LATE_STEPS: seq<Step> :=
    [NewConversation("c", "u", "t", Gamble), Post("m", "u", "c", "hi", None, None), AttachRun("r", "m"),
     Start("m", "r", 1), CancelCurrent("m", "r", 2),
     Answer("c", "m", "r", "a", "late", Gamble, 3, Usage(None, None))]

  /** The one-conversation database of the late answer, by the state of its pair. */
  function LatePair(withRun: bool, status: Status, flag: bool, e: Option<string>, t: Option<int>, end: Option<int>): Database {
    Database(map["c" := Conversation("u", "t", Gamble, false)],
             map["m" := Message("c", "u", User, "hi", status, 1, Gamble, None, e, t, end)],
             if withRun then map["r" := Run("m", "c", status, flag, e, "", None, None, t, end, None)] else map[])
  }

  lemma LatePosted()
    ensures Enabled(EMPTY, LATE_STEPS[0])
    ensures var s1 := Apply(EMPTY, LATE_STEPS[0]);
            Enabled(s1, LATE_STEPS[1]) && Apply(s1, LATE_STEPS[1]) == LatePair(false, Queued, false, None, None, None)
  {
    var s1 := Apply(EMPTY, LATE_STEPS[0]);
    assert Sequences(s1, "c") == {};
    assert Inserts(s1, "u", "c", "hi", None);
    assert UserRow(s1, "u", "c", "hi", None, None) ==
           Message("c", "u", User, "hi", Queued, 1, Gamble, None, None, None, None);
  }

  lemma LateStarted()
    ensures var s2 := LatePair(false, Queued, false, None, None, None);
            Enabled(s2, LATE_STEPS[2]) && Apply(s2, LATE_STEPS[2]) == LatePair(true, Queued, false, None, None, None)
    ensures var s3 := LatePair(true, Queued, false, None, None, None);
            Enabled(s3, LATE_STEPS[3]) && Apply(s3, LATE_STEPS[3]) == LatePair(true, Running, false, None, Some(1), None)
  {
    assert RunsOf(LatePair(false, Queued, false, None, None, None), "c", "m") == {};
  }

  lemma LateCancelled()
    ensures var s4 := LatePair(true, Running, false, None, Some(1), None);
            Enabled(s4, LATE_STEPS[4])
            && Apply(s4, LATE_STEPS[4]) == LatePair(true, Cancelled, true, Some("cancelled"), Some(1), Some(2))
  {
  }

  function LateStates(): seq<Database> {
    [EMPTY, CreateConversation(EMPTY, "c", "u", "t", Gamble), LatePair(false, Queued, false, None, None, None),
     LatePair(true, Queued, false, None, None, None), LatePair(true, Running, false, None, Some(1), None),
     LatePair(true, Cancelled, true, Some("cancelled"), Some(1), Some(2))]
  }

  lemma LateTrace(k: nat)
    requires k < 5
    ensures Enabled(LateStates()[k], LATE_STEPS[k]) && LateStates()[k + 1] == Apply(LateStates()[k], LATE_STEPS[k])
  {
    LatePosted();
    LateStarted();
    LateCancelled();
  }

  lemma LateIsTrace()
    ensures Trace(LateStates(), LATE_STEPS[..5])
  {
    hide Enabled, Apply;
    var states := LateStates();
    forall k: nat | k < 5
      ensures Enabled(states[k], LATE_STEPS[k]) && states[k + 1] == Apply(states[k], LATE_STEPS[k])
    {
      LateTrace(k);
    }
  }

  /** The converse of CompletionsHaveAnswers fails: a reachable answer without any completed run. */
  lemma AnswerWithoutCompletion()
    ensures Trace(LateStates(), LATE_STEPS[..5])
    ensures var s5 := LateStates()[5];
            && Enabled(s5, LATE_STEPS[5])
            && AnswersOf(Apply(s5, LATE_STEPS[5]), "c") == {"a"} && CompletedRuns(Apply(s5, LATE_STEPS[5]), "c") == {}
  {
    hide Trace, Inv;
    LateIsTrace();
    TraceKeepsInv(LateStates(), LATE_STEPS[..5], 5);
    AnswerCompletesIffRunning(LateStates()[5], LATE_STEPS[5]);
  }
}
