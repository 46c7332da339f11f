/**
 The in-process part of one conversation: the bounded asyncio queue, the single consumer's slot,
 and the event history with its sequence numbers.
 */
module AgentRuntime {
  import opened Common

  datatype Item = Item(messageId: string, runId: string)

  /** Queue content, unfinished-task counter, and the item the consumer took but has not marked done. */
  datatype QueueState = QueueState(queue: seq<Item>, unfinished: nat, held: Option<Item>)

  const IDLE := QueueState([], 0, None)

  function HeldCount(q: QueueState): nat { if q.held.Some? then 1 else 0 }

  /** The queue is a slot, and the counter is exactly what is queued or being processed. */
  predicate Accounted(q: QueueState) {
    |q.queue| <= 1 && q.unfinished == |q.queue| + HeldCount(q)
  }

  /** Draining and putting one item: everything still queued is dropped, the held item is not. */
  function Replaced(q: QueueState, item: Item): QueueState {
    QueueState([item], HeldCount(q) + 1, q.held)
  }

  function Taken(q: QueueState): QueueState
    requires q.queue != []
  {
    QueueState(q.queue[1..], q.unfinished, Some(q.queue[0]))
  }

  function Released(q: QueueState): QueueState
    requires q.unfinished > 0
  {
    QueueState(q.queue, q.unfinished - 1, None)
  }

  datatype Event = Event(name: string, messageId: string, runId: string, id: nat)

  const HISTORY_LIMIT := 100

  /** The last HISTORY_LIMIT events of everything ever published. */
  function Recent(log: seq<Event>): seq<Event> {
    if |log| <= HISTORY_LIMIT then log else log[|log| - HISTORY_LIMIT..]
  }

  predicate Numbered(log: seq<Event>) { forall i :: 0 <= i < |log| ==> log[i].id == i + 1 }

  function After(events: seq<Event>, cursor: int): (r: seq<Event>)
    ensures forall e :: e in r ==> e in events && e.id > cursor
  {
    if events == [] then []
    else (if events[0].id > cursor then [events[0]] else []) + After(events[1..], cursor)
  }

  /** For consecutive ids, selecting by id is dropping a prefix. */
  lemma {:induction false} AfterIsSuffix(events: seq<Event>, first: nat, cursor: int)
    requires forall i :: 0 <= i < |events| ==> events[i].id == first + i
    ensures var skip := if cursor < first then 0 else if cursor - first + 1 >= |events| then |events| else cursor - first + 1;
            After(events, cursor) == events[skip..]
  {
    if events != [] {
      AfterIsSuffix(events[1..], first + 1, cursor);
      var skip := if cursor < first then 0 else if cursor - first + 1 >= |events| then |events| else cursor - first + 1;
      if skip > 0 {
        assert events[skip..] == events[1..][skip - 1..];
      } else {
        assert events == [events[0]] + events[1..];
      }
    }
  }

  lemma SuffixAfter(log: seq<Event>, dropped: nat, cursor: int)
    requires Numbered(log) && dropped <= |log|
    ensures var from := if cursor < dropped then dropped else if cursor > |log| then |log| else cursor;
            After(log[dropped..], cursor) == log[from..]
  {
    var recent := log[dropped..];
    AfterIsSuffix(recent, dropped + 1, cursor);
    var skip := if cursor < dropped + 1 then 0 else if cursor - dropped >= |recent| then |recent| else cursor - dropped;
    assert After(recent, cursor) == recent[skip..];
    assert recent[skip..] == log[dropped + skip..];
  }

  /** What replay answers, as a stretch of everything ever published. */
  lemma ReplayIsSuffix(log: seq<Event>, cursor: int)
    requires Numbered(log)
    ensures var dropped := |log| - |Recent(log)|;
            var from := if cursor < dropped then dropped else if cursor > |log| then |log| else cursor;
            After(Recent(log), cursor) == log[from..]
  {
    var dropped := |log| - |Recent(log)|;
    SuffixAfter(log, dropped, cursor);
    assert Recent(log) == log[dropped..];
  }

  /** Replay misses nothing after the cursor exactly while at most 100 events followed it. */
  lemma ReplayIsComplete(log: seq<Event>, cursor: int)
    requires Numbered(log)
    ensures After(Recent(log), cursor) == After(log, cursor) <==>
              |log| <= 100 || cursor >= |log| - 100
  {
    ReplayIsSuffix(log, cursor);
    AfterIsSuffix(log, 1, cursor);
    var skip := if cursor < 1 then 0 else if cursor >= |log| then |log| else cursor;
    assert After(log, cursor) == log[skip..];
  }

  class ConversationRuntime {
    const maxsize: int
    var queue: seq<Item>
    var unfinished: nat
    var held: Option<Item>
    var eventHistory: seq<Event>
    var eventSequence: nat
    /** Every event ever published, oldest first. */
    ghost var log: seq<Event>

    ghost function Slot(): QueueState
      reads this
    {
      QueueState(queue, unfinished, held)
    }

    ghost predicate Valid()
      reads this
    {
      Accounted(Slot()) && Numbered(log) && eventSequence == |log| && eventHistory == Recent(log)
    }

    constructor (maxsize: int)
      ensures Valid() && Slot() == IDLE && log == [] && this.maxsize == maxsize
    {
      this.maxsize := maxsize;
      queue, unfinished, held := [], 0, None;
      eventHistory, eventSequence, log := [], 0, [];
    }

    predicate Full()
      reads this
    {
      0 < maxsize && maxsize <= |queue|
    }

    /** `put_nowait`: refuses when the bounded queue is full. */
    method PutNowait(item: Item) returns (overflow: bool)
      modifies this`queue, this`unfinished
      ensures overflow == old(Full())
      ensures Slot() == if overflow then old(Slot())
                        else QueueState(old(queue) + [item], old(unfinished) + 1, held)
    {
      overflow := Full();
      if !overflow {
        queue := queue + [item];
        unfinished := unfinished + 1;
      }
    }

    /** The tail of enqueue: drop whatever is still queued, then put the new item. It never overflows. */
    method ReplaceQueued(item: Item) returns (overflow: bool)
      requires Valid()
      modifies this`queue, this`unfinished
      ensures Valid() && !overflow
      ensures Slot() == Replaced(old(Slot()), item)
    {
      while queue != []
        invariant unfinished == |queue| + HeldCount(Slot())
        decreases |queue|
      {
        queue := queue[1..];
        unfinished := unfinished - 1;
      }
      overflow := PutNowait(item);
    }

    method Get() returns (item: Item)
      requires Valid() && queue != [] && held.None?
      modifies this`queue, this`held
      ensures Valid() && Slot() == Taken(old(Slot())) && Some(item) == held
    {
      item := queue[0];
      queue := queue[1..];
      held := Some(item);
    }

    method TaskDone()
      requires Valid() && held.Some?
      modifies this`unfinished, this`held
      ensures Valid() && Slot() == Released(old(Slot()))
    {
      unfinished := unfinished - 1;
      held := None;
    }

    method Publish(name: string, messageId: string, runId: string)
      requires Valid()
      modifies this`eventSequence, this`eventHistory, this`log
      ensures Valid()
      ensures log == old(log) + [Event(name, messageId, runId, |old(log)| + 1)]
    {
      eventSequence := eventSequence + 1;
      var emitted := Event(name, messageId, runId, eventSequence);
      eventHistory := eventHistory + [emitted];
      log := log + [emitted];
      while |eventHistory| > HISTORY_LIMIT
        invariant |eventHistory| <= |log| && eventHistory == log[|log| - |eventHistory|..]
        invariant |Recent(log)| <= |eventHistory|
        modifies this`eventHistory
        decreases |eventHistory|
      {
        eventHistory := eventHistory[1..];
      }
    }

    /** Events after a cursor; see ReplayIsSuffix and ReplayIsComplete. */
    method Replay(cursor: int) returns (events: seq<Event>)
      requires Valid()
      ensures events == After(Recent(log), cursor)
    {
      events := After(eventHistory, cursor);
    }
  }
}
