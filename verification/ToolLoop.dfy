/**
 The tool-call loop of one execution: model turns, tool results, and the audit rows of every call.

 The model, the tools, the moments at which cancellation is noticed and the events that cannot be
 delivered are arbitrary functions.
 */
module ToolLoop {
  import opened Common
  import opened AgentRows
  import TokenUsage

  datatype ToolCall = ToolCall(id: string, name: string, arguments: string)

  datatype Response = Response(text: string, calls: seq<ToolCall>, usage: Option<Usage>)

  /** What saving the sources or reporting the call may still do once its audit row was ended. */
  datatype Afterwards = NothingFails | LaterError | LaterTimeout | LaterCancel

  /** How one tool call can go. */
  datatype ToolOutcome =
    | NotAllowed | InvalidArguments | OutputLimit(after: Afterwards) | Succeeds(output: string, after: Afterwards)
    | TimesOut | Crashes | Interrupted

  datatype ToolResult = Output(output: string) | ErrorCode(code: string)

  datatype Entry =
    | Plain(role: Role, content: string)
    | AssistantCalls(text: Option<string>, calls: seq<ToolCall>)
    | ToolReply(callId: string, result: ToolResult)

  datatype AuditStatus = InProgress | AuditSucceeded | AuditFailed | AuditTimeout | AuditRejected | AuditCancelled

  datatype Audit = Audit(runId: string, toolUseId: string, status: AuditStatus)

  /** Where the loop looks for cancellation, or sends an event outside any handler. */
  datatype Point = Turn(round: nat) | Text(round: nat) | Call(row: nat) | Start(row: nat) | Report(row: nat)

  datatype Failure = Stopped | SinkFailed | ModelFailed | ToolLimit | DuplicateToolUse | NoIterations

  function AuditStatusOf(outcome: ToolOutcome): AuditStatus {
    match outcome
    case NotAllowed => AuditRejected
    case InvalidArguments => AuditRejected
    case OutputLimit(_) => AuditFailed
    case Succeeds(_, _) => AuditSucceeded
    case TimesOut => AuditTimeout
    case Crashes => AuditFailed
    case Interrupted => AuditCancelled
  }

  /** The execution itself was cancelled, so the model is told nothing. */
  predicate Stops(outcome: ToolOutcome) {
    outcome == Interrupted || ((outcome.OutputLimit? || outcome.Succeeds?) && outcome.after == LaterCancel)
  }

  /** The call is reported outside its handlers, where an undeliverable event ends the execution. */
  predicate ReportedUnguarded(outcome: ToolOutcome) {
    match outcome
    case OutputLimit(after) => after == LaterError || after == LaterTimeout
    case Succeeds(_, after) => after == LaterError || after == LaterTimeout
    case Interrupted => false
    case _ => true
  }

  /** What the model is told when something fails after the row was ended. */
  function Later(after: Afterwards, otherwise: ToolResult): ToolResult {
    match after
    case NothingFails => otherwise
    case LaterError => ErrorCode("tool_execution_failed")
    case LaterTimeout => ErrorCode("tool_timeout")
    case LaterCancel => ErrorCode("cancelled")
  }

  /** What the model is told. A later failure replaces the result, while the row keeps its first end. */
  function ResultOf(outcome: ToolOutcome): ToolResult {
    match outcome
    case NotAllowed => ErrorCode("tool_not_allowed")
    case InvalidArguments => ErrorCode("tool_invalid_arguments")
    case OutputLimit(after) => Later(after, ErrorCode("tool_output_limit"))
    case Succeeds(output, after) => Later(after, Output(output))
    case TimesOut => ErrorCode("tool_timeout")
    case Crashes => ErrorCode("tool_execution_failed")
    case Interrupted => ErrorCode("cancelled")
  }

  predicate Ended(status: AuditStatus) { status != InProgress }

  /** The guarded audit update: only a row still in progress can end. */
  function EndAudit(audits: seq<Audit>, id: nat, status: AuditStatus): seq<Audit> {
    if id < |audits| && !Ended(audits[id].status) then audits[id := audits[id].(status := status)] else audits
  }

  /** Ending a row changes the status of that row alone, and only while it is in progress. */
  lemma EndAuditEffect(audits: seq<Audit>, id: nat, status: AuditStatus, i: nat)
    requires i < |audits|
    ensures |EndAudit(audits, id, status)| == |audits|
    ensures EndAudit(audits, id, status)[i] ==
            if i == id && audits[i].status == InProgress then Audit(audits[i].runId, audits[i].toolUseId, status) else audits[i]
  {
  }

  /** One round: the assistant's calls and the results given back for them. */
  datatype Round = Round(response: Response, results: seq<ToolResult>)

  predicate WholeRound(r: Round) { r.response.calls != [] && |r.results| == |r.response.calls| }

  function Replies(calls: seq<ToolCall>, results: seq<ToolResult>): seq<Entry>
    requires |results| <= |calls|
  {
    seq(|results|, i requires 0 <= i < |results| => ToolReply(calls[i].id, results[i]))
  }

  function TextOrNone(text: string): Option<string> { if text == "" then None else Some(text) }

  function RoundEntries(r: Round): seq<Entry>
    requires WholeRound(r)
  {
    [AssistantCalls(TextOrNone(r.response.text), r.response.calls)] + Replies(r.response.calls, r.results)
  }

  /** The transcript: the history, then every round's calls followed by their results in call order. */
  function Transcript(history: seq<Entry>, rounds: seq<Round>): seq<Entry>
    requires forall k :: 0 <= k < |rounds| ==> WholeRound(rounds[k])
  {
    if rounds == [] then history
    else Transcript(history, rounds[..|rounds| - 1]) + RoundEntries(rounds[|rounds| - 1])
  }

  function CallsIn(rounds: seq<Round>): nat {
    if rounds == [] then 0 else CallsIn(rounds[..|rounds| - 1]) + |rounds[|rounds| - 1].response.calls|
  }

  lemma CallsInOneMore(rounds: seq<Round>, round: Round)
    ensures CallsIn(rounds + [round]) == CallsIn(rounds) + |round.response.calls|
  {
    var grown := rounds + [round];
    assert grown[..|grown| - 1] == rounds;
  }

  /** At this place stands the assistant's turn, followed by one reply to each of its calls, in order. */
  predicate StandsAt(messages: seq<Entry>, at: nat, r: Round)
    requires WholeRound(r)
  {
    var calls := r.response.calls;
    && at + |calls| < |messages|
    && messages[at] == AssistantCalls(if r.response.text == "" then None else Some(r.response.text), calls)
    && forall i :: 0 <= i < |calls| ==> messages[at + 1 + i] == ToolReply(calls[i].id, r.results[i])
  }

  /** Where each round stands in the messages: after the history and all entries of the earlier rounds. */
  predicate LaidOut(history: seq<Entry>, rounds: seq<Round>, messages: seq<Entry>)
    requires forall k :: 0 <= k < |rounds| ==> WholeRound(rounds[k])
  {
    && history <= messages && |messages| == |history| + |rounds| + CallsIn(rounds)
    && forall k :: 0 <= k < |rounds| ==> StandsAt(messages, |history| + k + CallsIn(rounds[..k]), rounds[k])
  }

  lemma StaysAt(messages: seq<Entry>, more: seq<Entry>, at: nat, r: Round)
    requires WholeRound(r) && StandsAt(messages, at, r) && messages <= more
    ensures StandsAt(more, at, r)
  {
  }

  lemma RoundStands(before: seq<Entry>, r: Round)
    requires WholeRound(r)
    ensures StandsAt(before + RoundEntries(r), |before|, r) && |RoundEntries(r)| == 1 + |r.response.calls|
  {
    var messages, n := before + RoundEntries(r), |before|;
    assert messages[n] == RoundEntries(r)[0];
    forall i | 0 <= i < |r.response.calls| ensures messages[n + 1 + i] == ToolReply(r.response.calls[i].id, r.results[i]) {
      assert messages[n + 1 + i] == RoundEntries(r)[1 + i];
    }
  }

  /** Every transcript is laid out so: no reply is lost, added, reordered or given to another call. */
  lemma {:induction false} TranscriptIsLaidOut(history: seq<Entry>, rounds: seq<Round>)
    requires forall k :: 0 <= k < |rounds| ==> WholeRound(rounds[k])
    ensures LaidOut(history, rounds, Transcript(history, rounds))
  {
    hide StandsAt, RoundEntries;
    if rounds != [] {
      var n := |rounds| - 1;
      var init, before, messages := rounds[..n], Transcript(history, rounds[..n]), Transcript(history, rounds);
      TranscriptIsLaidOut(history, init);
      RoundStands(before, rounds[n]);
      forall k | 0 <= k < |rounds| ensures StandsAt(messages, |history| + k + CallsIn(rounds[..k]), rounds[k]) {
        assert k < n ==> init[..k] == rounds[..k];
        if k < n { StaysAt(before, messages, |history| + k + CallsIn(rounds[..k]), rounds[k]); }
      }
    }
  }

  function Usages(rounds: seq<Round>): seq<Option<Usage>> {
    seq(|rounds|, k requires 0 <= k < |rounds| => rounds[k].response.usage)
  }

  /** Texts the model produced, in order, skipping empty ones. */
  function Texts(rounds: seq<Round>): seq<string> {
    if rounds == [] then [] else Texts(rounds[..|rounds| - 1]) + Spoken(rounds[|rounds| - 1].response)
  }

  /** The texts of the rounds follow one another; a round without text adds none. */
  lemma {:induction false} TextsFollow(a: seq<Round>, b: seq<Round>)
    ensures Texts(a + b) == Texts(a) + Texts(b)
    ensures |a| == 1 ==> Texts(a) == if a[0].response.text == "" then [] else [a[0].response.text]
  {
    if |a| == 1 { assert a[..0] == [] && Texts(a[..0]) == []; }
    if b == [] {
      assert a + b == a;
    } else {
      var n := |b| - 1;
      TextsFollow(a, b[..n]);
      assert (a + b)[..|a + b| - 1] == a + b[..n];
    }
  }

  function Spoken(r: Response): seq<string> { if r.text == "" then [] else [r.text] }

  /** Old rows untouched; new rows belong to the run and have ended, but for possibly the very last. */
  ghost predicate Audited(runId: string, before: seq<Audit>, after: seq<Audit>, allEnded: bool) {
    && |before| <= |after| && after[..|before|] == before
    && (forall i :: |before| <= i < |after| ==> after[i].runId == runId)
    && (forall i :: |before| <= i < |after| - 1 ==> Ended(after[i].status))
    && (allEnded && |before| < |after| ==> Ended(after[|after| - 1].status))
  }

  lemma AuditedThen(runId: string, before: seq<Audit>, middle: seq<Audit>, after: seq<Audit>, allEnded: bool)
    requires Audited(runId, before, middle, true) && Audited(runId, middle, after, allEnded)
    ensures Audited(runId, before, after, allEnded)
  {
    assert forall i :: |before| <= i < |middle| ==> after[i] == after[..|middle|][i] == middle[i];
    assert after[..|before|] == after[..|middle|][..|before|];
  }

  lemma MayEndOpen(runId: string, before: seq<Audit>, after: seq<Audit>)
    requires Audited(runId, before, after, true)
    ensures Audited(runId, before, after, false)
  {
  }

  lemma AuditedGrows(runId: string, before: seq<Audit>, after: seq<Audit>, allEnded: bool)
    requires Audited(runId, before, after, allEnded)
    ensures before <= after
  {
  }

  class Loop {
    const reply: seq<Entry> -> Option<Response>
    const tool: (ToolCall, nat) -> ToolOutcome
    const cancelled: Point -> bool
    const undelivered: Point -> bool
    const maxToolIterations: int
    const runId: string
    var audits: seq<Audit>

    constructor (reply: seq<Entry> -> Option<Response>, tool: (ToolCall, nat) -> ToolOutcome,
                 cancelled: Point -> bool, undelivered: Point -> bool,
                 maxToolIterations: int, runId: string, audits: seq<Audit>)
      ensures this.reply == reply && this.tool == tool && this.maxToolIterations == maxToolIterations
      ensures this.cancelled == cancelled && this.undelivered == undelivered
      ensures this.runId == runId && this.audits == audits
    {
      this.reply, this.tool, this.maxToolIterations := reply, tool, maxToolIterations;
      this.cancelled, this.undelivered := cancelled, undelivered;
      this.runId, this.audits := runId, audits;
    }

    predicate UsedIn(rows: seq<Audit>, toolUseId: string) {
      exists i :: 0 <= i < |rows| && rows[i].runId == runId && rows[i].toolUseId == toolUseId
    }

    /** Inserts a row in progress unless (run, tool use) is already taken. */
    method CreateAudit(toolUseId: string) returns (id: Option<nat>)
      modifies this`audits
      ensures id.None? <==> UsedIn(old(audits), toolUseId)
      ensures audits == if id.None? then old(audits) else old(audits) + [Audit(runId, toolUseId, InProgress)]
      ensures id.Some? ==> id.value == |old(audits)|
    {
      if UsedIn(audits, toolUseId) {
        return None;
      }
      id := Some(|audits|);
      audits := audits + [Audit(runId, toolUseId, InProgress)];
    }

    method FinishAudit(id: nat, status: AuditStatus)
      modifies this`audits
      ensures audits == EndAudit(old(audits), id, status)
    {
      if id < |audits| && audits[id].status == InProgress {
        audits := audits[id := audits[id].(status := status)];
      }
    }

    /** The audit row of one finished call. */
    ghost function EndedRow(call: ToolCall, id: nat): Audit {
      Audit(runId, call.id, AuditStatusOf(tool(call, id)))
    }

    /** The execution ends before the tool is reached, so that the row of the call stays in progress. */
    predicate CutBeforeTool(call: ToolCall, id: nat) {
      cancelled(Call(id)) || (tool(call, id) != NotAllowed && undelivered(Start(id)))
    }

    /** The first thing that ends the execution during this call, if any. */
    function EndOf(rows: seq<Audit>, call: ToolCall): Option<Failure> {
      var id, outcome := |rows|, tool(call, |rows|);
      if UsedIn(rows, call.id) then Some(DuplicateToolUse)
      else if cancelled(Call(id)) then Some(Stopped)
      else if outcome != NotAllowed && undelivered(Start(id)) then Some(SinkFailed)
      else if Stops(outcome) then Some(Stopped)
      else if ReportedUnguarded(outcome) && undelivered(Report(id)) then Some(SinkFailed)
      else None
    }

    /** The rows once the call was run: one more, unless the tool use was already taken. */
    ghost function RowsAfter(rows: seq<Audit>, call: ToolCall): seq<Audit> {
      if UsedIn(rows, call.id) then rows
      else if CutBeforeTool(call, |rows|) then rows + [Audit(runId, call.id, InProgress)]
      else rows + [EndedRow(call, |rows|)]
    }

    /** Runs one call. Its row ends with the outcome, except when the execution ends before the tool is reached. */
    method RunCall(call: ToolCall) returns (r: Result<ToolResult, Failure>)
      modifies this`audits
      ensures r.Ok? <==> EndOf(old(audits), call) == None
      ensures r.Ok? ==> r.value == ResultOf(tool(call, |old(audits)|))
      ensures r.Err? ==> EndOf(old(audits), call) == Some(r.error)
      ensures audits == RowsAfter(old(audits), call)
    {
      var created := CreateAudit(call.id);
      if created.None? {
        return Err(DuplicateToolUse);
      }
      var id := created.value;
      if cancelled(Call(id)) {
        return Err(Stopped);
      }
      if tool(call, id) != NotAllowed && undelivered(Start(id)) {
        return Err(SinkFailed);
      }
      match tool(call, id)
      case NotAllowed =>
        FinishAudit(id, AuditRejected);
        r := ReportError(id, "tool_not_allowed");
      case InvalidArguments =>
        FinishAudit(id, AuditRejected);
        r := ReportError(id, "tool_invalid_arguments");
      case OutputLimit(after) =>
        FinishAudit(id, AuditFailed);
        r := FailLater(id, after, ErrorCode("tool_output_limit"));
      case Succeeds(output, after) =>
        FinishAudit(id, AuditSucceeded);
        r := FailLater(id, after, Output(output));
      case TimesOut =>
        FinishAudit(id, AuditTimeout);
        r := ReportError(id, "tool_timeout");
      case Crashes =>
        FinishAudit(id, AuditFailed);
        r := ReportError(id, "tool_execution_failed");
      case Interrupted =>
        FinishAudit(id, AuditCancelled);
        r := Err(Stopped);
    }

    /** The event that reports a failed call; outside the handlers, its own failure ends the execution. */
    method ReportError(id: nat, code: string) returns (r: Result<ToolResult, Failure>)
      ensures r == if undelivered(Report(id)) then Err(SinkFailed) else Ok(ErrorCode(code))
    {
      if undelivered(Report(id)) {
        return Err(SinkFailed);
      }
      r := Ok(ErrorCode(code));
    }

    /** The handlers around a call whose row has already ended: they try to end it again, in vain. */
    method FailLater(id: nat, after: Afterwards, otherwise: ToolResult) returns (r: Result<ToolResult, Failure>)
      requires id < |audits| && Ended(audits[id].status)
      modifies this`audits
      ensures audits == old(audits)
      ensures r == match after
                   case NothingFails => Ok(otherwise)
                   case LaterCancel => Err(Stopped)
                   case _ => if undelivered(Report(id)) then Err(SinkFailed) else Ok(Later(after, otherwise))
    {
      match after
      case NothingFails =>
        r := Ok(otherwise);
      case LaterError =>
        FinishAudit(id, AuditFailed);
        r := ReportError(id, "tool_execution_failed");
      case LaterTimeout =>
        FinishAudit(id, AuditTimeout);
        r := ReportError(id, "tool_timeout");
      case LaterCancel =>
        FinishAudit(id, AuditCancelled);
        r := Err(Stopped);
    }

    /**
     When the execution goes on after a call, and what ends it otherwise: a tool use id the run has
     used before; cancellation noticed before or during the call; an event that cannot be delivered.
     */
    lemma EndOfReads(rows: seq<Audit>, call: ToolCall)
      ensures var id := |rows|; var outcome := tool(call, id); var end := EndOf(rows, call);
              var used := exists row :: row in rows && row.runId == runId && row.toolUseId == call.id;
              var started := !used && !cancelled(Call(id)) && (outcome.NotAllowed? || !undelivered(Start(id)));
              var broken := outcome in {OutputLimit(LaterCancel), Interrupted}
                            || (outcome.Succeeds? && outcome.after == LaterCancel);
              var told := outcome in {NotAllowed, InvalidArguments, TimesOut, Crashes}
                          || ((outcome.OutputLimit? || outcome.Succeeds?) && outcome.after in {LaterError, LaterTimeout});
              && (end == Some(DuplicateToolUse) <==> used)
              && (end == Some(Stopped) <==> (!used && cancelled(Call(id))) || (started && broken))
              && (end == Some(SinkFailed)
                  <==> !used && !cancelled(Call(id))
                       && ((!outcome.NotAllowed? && undelivered(Start(id))) || (started && told && undelivered(Report(id)))))
              && (end == None <==> started && !broken && (told ==> !undelivered(Report(id))))
              && (RowsAfter(rows, call) == rows <==> used)
              && (!used ==> RowsAfter(rows, call)
                            == rows + [if started then EndedRow(call, id) else Audit(runId, call.id, InProgress)])
    {
      if UsedIn(rows, call.id) {
        var i :| 0 <= i < |rows| && rows[i].runId == runId && rows[i].toolUseId == call.id;
        assert rows[i] in rows;
      }
      assert |RowsAfter(rows, call)| == |rows| <==> UsedIn(rows, call.id);
    }

    /** The call was run at this row without ending the execution, and this is its row and its result. */
    ghost predicate Ran(rows: seq<Audit>, id: nat, call: ToolCall, result: ToolResult) {
      && id < |rows| && EndOf(rows[..id], call) == None && rows[id] == EndedRow(call, id)
      && result == ResultOf(tool(call, id))
    }

    /** From this place on, the audit rows and the results are those of these calls' outcomes, one by one. */
    ghost predicate RowsOf(rows: seq<Audit>, at: nat, calls: seq<ToolCall>, results: seq<ToolResult>) {
      && |results| == |calls| && at + |calls| <= |rows|
      && forall i :: 0 <= i < |calls| ==> Ran(rows, at + i, calls[i], results[i])
    }

    lemma RanStays(rows: seq<Audit>, more: seq<Audit>, id: nat, call: ToolCall, result: ToolResult)
      requires Ran(rows, id, call, result) && rows <= more
      ensures Ran(more, id, call, result)
    {
      hide EndOf, ResultOf, EndedRow;
      assert more[..id] == rows[..id];
    }

    lemma RowsOfStays(rows: seq<Audit>, more: seq<Audit>, at: nat, calls: seq<ToolCall>, results: seq<ToolResult>)
      requires RowsOf(rows, at, calls, results) && rows <= more
      ensures RowsOf(more, at, calls, results)
    {
      hide Ran;
      forall i | 0 <= i < |calls| ensures Ran(more, at + i, calls[i], results[i]) {
        RanStays(rows, more, at + i, calls[i], results[i]);
      }
    }

    /** A call that lets the execution go on adds its ended row, whose status the execution keeps. */
    lemma CallRan(rows: seq<Audit>, call: ToolCall, result: ToolResult)
      requires EndOf(rows, call) == None && result == ResultOf(tool(call, |rows|))
      ensures RowsAfter(rows, call) == rows + [EndedRow(call, |rows|)]
      ensures Ran(RowsAfter(rows, call), |rows|, call, result)
    {
      hide ResultOf;
      assert RowsAfter(rows, call)[..|rows|] == rows;
    }

    lemma OneMoreRow(rows: seq<Audit>, more: seq<Audit>, at: nat, calls: seq<ToolCall>, i: nat,
                     results: seq<ToolResult>, result: ToolResult)
      requires i < |calls| && |rows| == at + i && RowsOf(rows, at, calls[..i], results)
      requires rows <= more && |rows| < |more| && Ran(more, at + i, calls[i], result)
      ensures RowsOf(more, at, calls[..i + 1], results + [result])
    {
      hide Ran;
      var grown := calls[..i + 1];
      RowsOfStays(rows, more, at, calls[..i], results);
      forall k | 0 <= k < |grown| ensures Ran(more, at + k, grown[k], (results + [result])[k]) {
        if k < i { assert Ran(more, at + k, calls[..i][k], results[k]); }
      }
    }

    lemma NothingAudited(rows: seq<Audit>, calls: seq<ToolCall>)
      ensures Audited(runId, rows, rows, true) && RowsOf(rows, |rows|, calls[..0], [])
    {
    }

    /** The calls ran one by one up to this one, which ended the execution so. */
    ghost predicate CutShort(before: seq<Audit>, after: seq<Audit>, calls: seq<ToolCall>, results: seq<ToolResult>,
                             error: Failure)
    {
      var n := |results|;
      && n < |calls| && |before| + n <= |after|
      && var middle := after[..|before| + n];
         && RowsOf(middle, |before|, calls[..n], results)
         && EndOf(middle, calls[n]) == Some(error) && after == RowsAfter(middle, calls[n])
    }

    /** At most one more row keeps the account; it must have ended for the calls to go on. */
    lemma OneAudited(before: seq<Audit>, middle: seq<Audit>, after: seq<Audit>, ended: bool)
      requires Audited(runId, before, middle, true)
      requires after == middle || (|after| == |middle| + 1 && middle <= after && after[|middle|].runId == runId)
      requires ended && after != middle ==> Ended(after[|middle|].status)
      ensures Audited(runId, before, after, ended)
    {
      AuditedThen(runId, before, middle, after, ended);
    }

    /** The k-th round's rows stand after those of all earlier rounds. */
    ghost predicate RecordedAt(rows: seq<Audit>, first: nat, rounds: seq<Round>, k: nat)
      requires k < |rounds|
    {
      RowsOf(rows, first + CallsIn(rounds[..k]), rounds[k].response.calls, rounds[k].results)
    }

    /** The rounds account for every row created from `first` on, in order. */
    ghost predicate Recorded(rows: seq<Audit>, first: nat, rounds: seq<Round>) {
      forall k :: 0 <= k < |rounds| ==> RecordedAt(rows, first, rounds, k)
    }

    lemma RecordedStays(rows: seq<Audit>, more: seq<Audit>, first: nat, rounds: seq<Round>)
      requires Recorded(rows, first, rounds) && rows <= more
      ensures Recorded(more, first, rounds)
    {
      hide CallsIn;
      hide RowsOf;
      forall k | 0 <= k < |rounds| ensures RecordedAt(more, first, rounds, k) {
        assert RecordedAt(rows, first, rounds, k);
        RowsOfStays(rows, more, first + CallsIn(rounds[..k]), rounds[k].response.calls, rounds[k].results);
      }
    }

    lemma RecordedAtGrown(rows: seq<Audit>, first: nat, rounds: seq<Round>, round: Round, k: nat)
      requires k < |rounds| && RecordedAt(rows, first, rounds, k)
      ensures RecordedAt(rows, first, rounds + [round], k)
    {
      hide CallsIn, RowsOf;
      assert (rounds + [round])[..k] == rounds[..k];
    }

    lemma RecordedLast(rows: seq<Audit>, first: nat, rounds: seq<Round>, round: Round)
      requires RowsOf(rows, first + CallsIn(rounds), round.response.calls, round.results)
      ensures RecordedAt(rows, first, rounds + [round], |rounds|)
    {
      hide RowsOf, CallsIn;
      var grown := rounds + [round];
      assert grown[..|rounds|] == rounds && grown[|rounds|] == round;
    }

    lemma RecordRound(rows: seq<Audit>, more: seq<Audit>, first: nat, rounds: seq<Round>, round: Round)
      requires Recorded(rows, first, rounds) && rows <= more && |rows| == first + CallsIn(rounds)
      requires RowsOf(more, |rows|, round.response.calls, round.results)
      ensures Recorded(more, first, rounds + [round])
      ensures CallsIn(rounds + [round]) == CallsIn(rounds) + |round.response.calls|
    {
      hide RowsOf, RecordedAt, CallsIn;
      RecordedStays(rows, more, first, rounds);
      RecordedLast(more, first, rounds, round);
      CallsInOneMore(rounds, round);
      forall k | 0 <= k <= |rounds| ensures RecordedAt(more, first, rounds + [round], k) {
        if k < |rounds| { RecordedAtGrown(more, first, rounds, round, k); }
      }
    }

    /**
     Call by call over a whole run: the row says succeeded while the model is told an error exactly
     when the tool succeeded and something failed afterwards; a told output always has such a row.
     */
    lemma AuditDisagreesIff(rows: seq<Audit>, first: nat, rounds: seq<Round>, k: nat, i: nat)
      requires Recorded(rows, first, rounds) && k < |rounds| && i < |rounds[k].response.calls|
      ensures i < |rounds[k].results| && first + CallsIn(rounds[..k]) + i < |rows|
      ensures var id := first + CallsIn(rounds[..k]) + i; var outcome := tool(rounds[k].response.calls[i], id);
              && (rows[id].status == AuditSucceeded && rounds[k].results[i].ErrorCode?
                  <==> outcome.Succeeds? && outcome.after != NothingFails)
              && (rounds[k].results[i].Output? ==> rows[id].status == AuditSucceeded)
              && rows[id].runId == runId && rows[id].toolUseId == rounds[k].response.calls[i].id
    {
      hide CallsIn;
      assert RecordedAt(rows, first, rounds, k);
    }

    /** How the row of a call ends, outcome by outcome, also when the execution is then cancelled. */
    lemma EndedRowReads(call: ToolCall, id: nat)
      ensures var outcome := tool(call, id); var row := EndedRow(call, id);
              && row.runId == runId && row.toolUseId == call.id
              && (row.status == AuditRejected <==> outcome.NotAllowed? || outcome.InvalidArguments?)
              && (row.status == AuditTimeout <==> outcome.TimesOut?)
              && (row.status == AuditFailed <==> outcome.Crashes? || outcome.OutputLimit?)
              && (row.status == AuditSucceeded <==> outcome.Succeeds?)
              && (row.status == AuditCancelled <==> outcome.Interrupted?)
              && row.status != InProgress
    {
    }

    /** The reply that this outcome deserves, error code by error code. */
    predicate Tells(reply: ToolResult, outcome: ToolOutcome) {
      match outcome
      case NotAllowed => reply == ErrorCode("tool_not_allowed")
      case InvalidArguments => reply == ErrorCode("tool_invalid_arguments")
      case TimesOut => reply == ErrorCode("tool_timeout")
      case Crashes => reply == ErrorCode("tool_execution_failed")
      case Interrupted => false
      case OutputLimit(NothingFails) => reply == ErrorCode("tool_output_limit")
      case Succeeds(output, NothingFails) => reply == Output(output)
      case OutputLimit(LaterError) => reply == ErrorCode("tool_execution_failed")
      case Succeeds(_, LaterError) => reply == ErrorCode("tool_execution_failed")
      case OutputLimit(LaterTimeout) => reply == ErrorCode("tool_timeout")
      case Succeeds(_, LaterTimeout) => reply == ErrorCode("tool_timeout")
      case _ => false
    }

    /**
     Call by call over a whole run: the row is rejected, timed out, failed or succeeded exactly as the
     tool's outcome says, and the reply carries exactly its own code or output.
     */
    lemma RowsAndRepliesFit(rows: seq<Audit>, first: nat, rounds: seq<Round>, k: nat, i: nat)
      requires Recorded(rows, first, rounds) && k < |rounds| && i < |rounds[k].response.calls|
      ensures i < |rounds[k].results| && first + CallsIn(rounds[..k]) + i < |rows|
      ensures var id := first + CallsIn(rounds[..k]) + i; var outcome := tool(rounds[k].response.calls[i], id);
              && rows[id].runId == runId && rows[id].toolUseId == rounds[k].response.calls[i].id
              && (rows[id].status == AuditRejected <==> outcome.NotAllowed? || outcome.InvalidArguments?)
              && (rows[id].status == AuditTimeout <==> outcome.TimesOut?)
              && (rows[id].status == AuditFailed <==> outcome.Crashes? || outcome.OutputLimit?)
              && (rows[id].status == AuditSucceeded <==> outcome.Succeeds?)
              && Tells(rounds[k].results[i], outcome)
    {
      hide CallsIn, EndedRow;
      assert RecordedAt(rows, first, rounds, k);
      var id := first + CallsIn(rounds[..k]) + i;
      EndedRowReads(rounds[k].response.calls[i], id);
    }

    lemma RowsAfterAdds(rows: seq<Audit>, call: ToolCall)
      ensures var after := RowsAfter(rows, call);
              && (after == rows || (|after| == |rows| + 1 && rows <= after && after[|rows|].runId == runId))
              && after[..|rows|] == rows
              && (EndOf(rows, call) == None ==> |after| == |rows| + 1 && Ended(after[|rows|].status))
    {
    }

    /** Runs the calls of one response in order, up to one that ends the execution. */
    method RunRound(calls: seq<ToolCall>) returns (r: Result<seq<ToolResult>, Failure>, ghost results: seq<ToolResult>)
      modifies this`audits
      ensures Audited(runId, old(audits), audits, r.Ok?)
      ensures r.Ok? ==>
                && r.value == results && |results| == |calls| && |audits| == |old(audits)| + |calls|
                && RowsOf(audits, |old(audits)|, calls, results)
      ensures r.Err? ==> CutShort(old(audits), audits, calls, results, r.error) && r.error in {Stopped, SinkFailed, DuplicateToolUse}
    {
      hide RowsOf, Ran, EndOf, RowsAfter, ResultOf, Audited;
      ghost var before := audits;
      var replies: seq<ToolResult> := [];
      NothingAudited(before, calls);
      for i := 0 to |calls|
        invariant |replies| == i && |audits| == |before| + i && Audited(runId, before, audits, true)
        invariant RowsOf(audits, |before|, calls[..i], replies)
      {
        ghost var middle := audits;
        var one := RunCall(calls[i]);
        EndOfReads(middle, calls[i]);
        RowsAfterAdds(middle, calls[i]);
        OneAudited(before, middle, audits, one.Ok?);
        if one.Err? {
          return Err(one.error), replies;
        }
        CallRan(middle, calls[i], one.value);
        OneMoreRow(middle, audits, |before|, calls, i, replies, one.value);
        replies := replies + [one.value];
      }
      assert calls[..|calls|] == calls;
      return Ok(replies), replies;
    }

    /** The model was asked with exactly the transcript so far, before every round and at the end. */
    ghost predicate Asked(history: seq<Entry>, rounds: seq<Round>) {
      && (forall k :: 0 <= k < |rounds| ==> WholeRound(rounds[k]))
      && forall k :: 0 <= k < |rounds| ==> reply(Transcript(history, rounds[..k])) == Some(rounds[k].response)
    }

    /** What the loop has accumulated is what its rounds account for. */
    ghost predicate Accumulated(history: seq<Entry>, rounds: seq<Round>, messages: seq<Entry>, total: Usage,
                                generated: seq<string>)
    {
      && Asked(history, rounds) && messages == Transcript(history, rounds)
      && total == TokenUsage.Sum(Usages(rounds)) && generated == Texts(rounds)
    }

    lemma AppendRound(history: seq<Entry>, rounds: seq<Round>, messages: seq<Entry>, total: Usage,
                      generated: seq<string>, round: Round)
      requires Accumulated(history, rounds, messages, total, generated) && WholeRound(round)
      requires reply(messages) == Some(round.response)
      ensures Accumulated(history, rounds + [round], messages + RoundEntries(round),
                          TokenUsage.Add(total, round.response.usage), generated + Spoken(round.response))
    {
      var grown := rounds + [round];
      AskedOnceMore(history, rounds, round);
      hide Asked;
      assert grown[..|rounds|] == rounds;
      assert Usages(grown)[..|rounds|] == Usages(rounds);
    }

    lemma StartsEmpty(history: seq<Entry>)
      ensures Accumulated(history, [], history, TokenUsage.UNKNOWN, []) && TurnsPassed([])
      ensures CallsIn([]) == 0
      ensures forall rows, first: nat :: Recorded(rows, first, [])
    {
      assert Usages([]) == [];
    }

    lemma LaidOutAgain(history: seq<Entry>, rounds: seq<Round>)
      requires Asked(history, rounds)
      ensures LaidOut(history, rounds, Transcript(history, rounds))
    {
      TranscriptIsLaidOut(history, rounds);
    }

    lemma AskedOnceMore(history: seq<Entry>, rounds: seq<Round>, round: Round)
      requires Asked(history, rounds) && WholeRound(round) && reply(Transcript(history, rounds)) == Some(round.response)
      ensures Asked(history, rounds + [round])
    {
      hide Transcript, WholeRound;
      var grown := rounds + [round];
      forall k | 0 <= k < |grown| ensures reply(Transcript(history, grown[..k])) == Some(grown[k].response) {
        assert grown[..k] == rounds[..k];
        if k == |rounds| { assert rounds[..k] == rounds; }
      }
    }

    /** The final response closes the account. */
    lemma CloseAccount(history: seq<Entry>, rounds: seq<Round>, messages: seq<Entry>, total: Usage,
                       generated: seq<string>, usage: Option<Usage>)
      requires Accumulated(history, rounds, messages, total, generated)
      ensures TokenUsage.Add(total, usage) == TokenUsage.Sum(Usages(rounds) + [usage])
    {
      var all := Usages(rounds) + [usage];
      assert all[..|all| - 1] == Usages(rounds);
    }

    /** One model turn's tool calls: the entries they add to the messages. */
    method Answer(res: Response) returns (r: Result<seq<Entry>, Failure>, ghost round: Round)
      requires res.calls != []
      modifies this`audits
      ensures Audited(runId, old(audits), audits, r.Ok?) && round.response == res
      ensures r.Ok? ==>
                && WholeRound(round) && r.value == RoundEntries(round)
                && |audits| == |old(audits)| + |res.calls| && RowsOf(audits, |old(audits)|, res.calls, round.results)
      ensures r.Err? ==>
                && CutShort(old(audits), audits, res.calls, round.results, r.error)
                && r.error in {Stopped, SinkFailed, DuplicateToolUse}
    {
      hide RowsOf, CutShort, Audited;
      var results; ghost var given;
      results, given := RunRound(res.calls);
      round := Round(res, given);
      if results.Err? {
        r := Err(results.error);
        return;
      }
      var entries := [AssistantCalls(TextOrNone(res.text), res.calls)];
      r := Ok(entries + Replies(res.calls, results.value));
    }

    /** Every turn so far went on: no cancellation at its start, and its text was delivered. */
    ghost predicate TurnsPassed(rounds: seq<Round>) {
      forall k: nat :: k < |rounds| ==> !cancelled(Turn(k)) && (rounds[k].response.text == "" || !undelivered(Text(k)))
    }

    lemma TurnPassed(rounds: seq<Round>, round: Round)
      requires TurnsPassed(rounds) && !cancelled(Turn(|rounds|))
      requires round.response.text == "" || !undelivered(Text(|rounds|))
      ensures TurnsPassed(rounds + [round])
    {
    }

    /**
     How a loop ends after these rounds. `answered` are the last turn's results before a call ended it.
     */
    ghost predicate EndsSo(before: seq<Audit>, rounds: seq<Round>, messages: seq<Entry>, r: Result<Usage, Failure>,
                           after: seq<Audit>, answered: seq<ToolResult>)
    {
      var n := |rounds|;
      if maxToolIterations < n then
        r == Err(NoIterations) && after == before && n == 0
      else if cancelled(Turn(n)) then
        r == Err(Stopped) && after == before
      else match reply(messages)
      case None => r == Err(ModelFailed) && after == before
      case Some(res) =>
        if res.text != "" && undelivered(Text(n)) then
          r == Err(SinkFailed) && after == before
        else if res.calls == [] then
          r == Ok(TokenUsage.Sum(Usages(rounds) + [res.usage])) && after == before
        else if n == maxToolIterations then
          r == Err(ToolLimit) && after == before
        else
          r.Err? && CutShort(before, after, res.calls, answered, r.error)
    }

    /**
     A loop that nothing outside disturbs, neither cancellation nor an event that cannot be delivered,
     returns normally exactly when the model's last response calls no tool. Otherwise the model failed,
     wanted more turns than allowed, or named a tool use id again.
     */
    lemma UndisturbedEnd(before: seq<Audit>, rounds: seq<Round>, messages: seq<Entry>, r: Result<Usage, Failure>,
                         after: seq<Audit>, answered: seq<ToolResult>)
      requires EndsSo(before, rounds, messages, r, after, answered) && |rounds| <= maxToolIterations
      requires forall p :: !cancelled(p) && !undelivered(p)
      requires forall call, id :: tool(call, id) !in {Interrupted, OutputLimit(LaterCancel)}
      requires forall call, id :: tool(call, id).Succeeds? ==> tool(call, id).after != LaterCancel
      ensures r.Ok? <==> reply(messages).Some? && reply(messages).value.calls == []
      ensures r == Err(ModelFailed) <==> reply(messages) == None
      ensures r == Err(ToolLimit) <==>
              |rounds| == maxToolIterations && reply(messages).Some? && reply(messages).value.calls != []
      ensures r.Err? ==> r.error in {ModelFailed, ToolLimit, DuplicateToolUse}
      ensures r == Err(DuplicateToolUse) ==>
                |answered| < |reply(messages).value.calls|
                && exists row :: row in after && row.runId == runId
                                 && row.toolUseId == reply(messages).value.calls[|answered|].id
    {
      if r.Err? && r.error !in {ModelFailed, ToolLimit} {
        var calls, n := reply(messages).value.calls, |answered|;
        var middle := after[..|before| + n];
        EndOfReads(middle, calls[n]);
        assert r == Err(DuplicateToolUse);
        var row :| row in middle && row.runId == runId && row.toolUseId == calls[n].id;
        assert row in after;
      }
    }

    /** Cancellation noticed at the start of a turn stops the loop there, before the model is asked again. */
    lemma CancelledEnd(before: seq<Audit>, rounds: seq<Round>, messages: seq<Entry>, r: Result<Usage, Failure>,
                       after: seq<Audit>, answered: seq<ToolResult>)
      requires EndsSo(before, rounds, messages, r, after, answered) && |rounds| <= maxToolIterations
      ensures cancelled(Turn(|rounds|)) ==> r == Err(Stopped) && after == before
      ensures r == Err(Stopped) && !cancelled(Turn(|rounds|)) ==>
                reply(messages).Some? && |answered| < |reply(messages).value.calls|
    {
      hide EndOf, RowsAfter;
    }

    /**
     However it ends, the messages are the history followed by whole rounds, each laid out with one
     reply to every call, and the audit rows are those calls' rows. The loop goes on through a turn
     exactly when nothing ends it there, and it ends as the first thing that does: `EndsSo`. On a
     normal return the model was asked once more than there are rounds, its last response calls no
     tool, and the usage is the sum over all responses.
     */
    method Run(history: seq<Entry>)
      returns (r: Result<Usage, Failure>, messages: seq<Entry>, generated: seq<string>, asked: nat,
               ghost rounds: seq<Round>, ghost kept: seq<Audit>, ghost answered: seq<ToolResult>)
      modifies this`audits
      ensures Audited(runId, old(audits), audits, r.Ok?) && old(audits) <= kept <= audits
      ensures Asked(history, rounds) && LaidOut(history, rounds, messages) && messages == Transcript(history, rounds)
      ensures Recorded(kept, |old(audits)|, rounds) && |kept| == |old(audits)| + CallsIn(rounds)
      ensures TurnsPassed(rounds) && EndsSo(kept, rounds, messages, r, audits, answered)
      ensures asked == |rounds| + if r == Err(NoIterations) || cancelled(Turn(|rounds|)) then 0 else 1
      ensures asked <= if maxToolIterations < 0 then 0 else maxToolIterations + 1
      ensures generated == Texts(rounds)
                           + if asked == |rounds| || reply(messages).None? then [] else Spoken(reply(messages).value)
    {
      hide RowsOf, Recorded, CutShort, Asked, LaidOut, StandsAt, WholeRound, Transcript, Texts, Usages, CallsIn, Audited;
      hide TurnsPassed, TokenUsage.Add, TokenUsage.Sum;
      StartsEmpty(history);
      messages, generated, asked, rounds, kept, answered := history, [], 0, [], audits, [];
      var total := TokenUsage.UNKNOWN;
      ghost var before := audits;
      NothingAudited(before, []);
      while asked <= maxToolIterations
        invariant asked == |rounds| && asked <= (if maxToolIterations < 0 then 0 else maxToolIterations)
        invariant kept == audits && before <= kept && Audited(runId, before, kept, true) && TurnsPassed(rounds)
        invariant Accumulated(history, rounds, messages, total, generated)
        invariant Recorded(kept, |before|, rounds) && |kept| == |before| + CallsIn(rounds)
        decreases maxToolIterations - asked
      {
        MayEndOpen(runId, before, kept);
        LaidOutAgain(history, rounds);
        if cancelled(Turn(asked)) {
          r := Err(Stopped);
          return;
        }
        var response := reply(messages);
        asked := asked + 1;
        if response.None? {
          r := Err(ModelFailed);
          return;
        }
        var res := response.value;
        CloseAccount(history, rounds, messages, total, generated, res.usage);
        ghost var totalBefore, heardBefore := total, generated;
        total := TokenUsage.Add(total, res.usage);
        generated := generated + (if res.text != "" then [res.text] else []);
        if res.text != "" {
          if undelivered(Text(asked - 1)) {
            r := Err(SinkFailed);
            return;
          }
        }
        if res.calls == [] {
          r := Ok(total);
          return;
        }
        if asked - 1 >= maxToolIterations {
          r := Err(ToolLimit);
          return;
        }
        var entries; ghost var round;
        entries, round := Answer(res);
        AuditedThen(runId, before, kept, audits, entries.Ok?);
        AuditedGrows(runId, kept, audits, entries.Ok?);
        if entries.Err? {
          r, answered := Err(entries.error), round.results;
          return;
        }
        AppendRound(history, rounds, messages, totalBefore, heardBefore, round);
        RecordRound(kept, audits, |before|, rounds, round);
        TurnPassed(rounds, round);
        messages, rounds, kept := messages + entries.value, rounds + [round], audits;
      }
      MayEndOpen(runId, before, kept);
      LaidOutAgain(history, rounds);
      r := Err(NoIterations);
    }
  }
}
