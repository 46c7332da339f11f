/**
 The in-process sliding-window limiter.

 The deque of one key is compared with the full history of accepted calls, which the class keeps
 only as a ghost.
 */
module RateLimit {
  datatype Decision = Allowed | Refused(retryAfterSeconds: int) | Crashed

  predicate Sorted(s: seq<real>) { forall i, j :: 0 <= i < j < |s| ==> s[i] <= s[j] }

  /** What is left of a deque after popping every leading hit at or before the cutoff. */
  function Expire(hits: seq<real>, cutoff: real): seq<real> {
    if hits != [] && hits[0] <= cutoff then Expire(hits[1..], cutoff) else hits
  }

  /** On a sorted deque, expiring keeps exactly the hits after the cutoff. */
  lemma {:induction false} ExpireKeepsRecent(hits: seq<real>, cutoff: real)
    requires Sorted(hits)
    ensures |Expire(hits, cutoff)| <= |hits|
    ensures Expire(hits, cutoff) == hits[|hits| - |Expire(hits, cutoff)|..]
    ensures forall i :: 0 <= i < |hits| ==> (hits[i] > cutoff <==> i >= |hits| - |Expire(hits, cutoff)|)
  {
    if hits != [] && hits[0] <= cutoff {
      var rest := hits[1..];
      ExpireKeepsRecent(rest, cutoff);
      forall i | 0 <= i < |hits| ensures hits[i] > cutoff <==> i >= |hits| - |Expire(hits, cutoff)| {
        if i > 0 { assert hits[i] == rest[i - 1]; }
      }
    }
  }

  /** Expiring a deque from which expired hits were already dropped gives the same as expiring all history. */
  lemma {:induction false} ExpireFromDropped(history: seq<real>, dropped: nat, cutoff: real)
    requires dropped <= |history| && forall i :: 0 <= i < dropped ==> history[i] <= cutoff
    ensures Expire(history[dropped..], cutoff) == Expire(history, cutoff)
  {
    if dropped > 0 {
      assert history[1..][dropped - 1..] == history[dropped..];
      ExpireFromDropped(history[1..], dropped - 1, cutoff);
    }
  }

  lemma {:induction false} ExpireAppend(hits: seq<real>, cutoff: real, now: real)
    requires now > cutoff
    ensures Expire(hits + [now], cutoff) == Expire(hits, cutoff) + [now]
  {
    if hits != [] && hits[0] <= cutoff {
      assert (hits + [now])[1..] == hits[1..] + [now];
      ExpireAppend(hits[1..], cutoff, now);
    }
  }

  /** Any `limit` consecutive acceptances after one another span at least the window. */
  ghost predicate Spaced(history: seq<real>, limit: nat, window: real) {
    forall i, j :: 0 <= i && j == i + limit && j < |history| ==> history[j] - history[i] >= window
  }

  lemma AcceptKeepsSpacing(history: seq<real>, limit: nat, window: real, now: real)
    requires Sorted(history) && Spaced(history, limit, window) && limit >= 1
    requires |Expire(history, now - window)| < limit
    ensures Spaced(history + [now], limit, window)
  {
    ExpireKeepsRecent(history, now - window);
  }

  function RetryAfter(wait: real): int {
    var seconds := (wait + 0.999).Floor;
    if seconds < 1 then 1 else seconds
  }

  lemma RetryBounds(wait: real)
    requires wait > 0.0
    ensures RetryAfter(wait) >= 1
    ensures RetryAfter(wait) as real > wait - 0.001
    ensures RetryAfter(wait) as real <= wait + 0.999 || RetryAfter(wait) == 1
  {
  }

  /** The waits that rounding does not cut short: all but those just above a whole number of seconds. */
  predicate Covered(wait: real) { wait <= 1.0 || wait == wait.Floor as real || wait - wait.Floor as real >= 0.001 }

  lemma RetryCoversWait(wait: real)
    requires wait > 0.0
    ensures RetryAfter(wait) as real >= wait <==> Covered(wait)
  {
    var whole := wait.Floor;
    var part := wait - whole as real;
    if part >= 0.001 {
      assert (wait + 0.999).Floor == whole + 1;
    } else {
      assert (wait + 0.999).Floor == whole;
    }
  }

  /** The answer for a key whose hits inside the window are `live`; indexing an empty deque crashes. */
  function Verdict(live: seq<real>, limit: nat, window: real, now: real): Decision {
    if |live| < limit then Allowed
    else if live == [] then Crashed
    else Refused(RetryAfter(live[0] + window - now))
  }

  /** After a refusal, and without new acceptances, a later call passes exactly when the oldest hit has aged out. */
  lemma AllowedAgainWhen(history: seq<real>, limit: nat, window: real, now: real, later: real)
    requires Sorted(history) && limit >= 1 && now <= later
    requires |Expire(history, now - window)| == limit
    ensures var oldest := Expire(history, now - window)[0];
            |Expire(history, later - window)| < limit <==> later >= oldest + window
  {
    ExpireKeepsRecent(history, now - window);
    ExpireKeepsRecent(history, later - window);
    var k := |history| - limit;
    assert history[k] == Expire(history, now - window)[0];
  }

  /** A deque is a suffix of its history, and what it lacks has left the window. */
  ghost predicate Tracks(history: seq<real>, deque: seq<real>, clock: real, limit: nat, window: real) {
    && Sorted(history) && (forall i :: 0 <= i < |history| ==> history[i] <= clock)
    && |deque| <= |history| && deque == history[|history| - |deque|..]
    && (forall i :: 0 <= i < |history| - |deque| ==> history[i] <= clock - window)
    && |deque| <= limit
    && (limit >= 1 ==> Spaced(history, limit, window))
    && (limit == 0 ==> history == [])
  }

  /** Time may pass, and expired hits may be dropped: then the deque is the history inside the window. */
  lemma ExpireKeepsTracks(history: seq<real>, deque: seq<real>, clock: real, limit: nat, window: real, now: real)
    requires Tracks(history, deque, clock, limit, window) && clock <= now
    ensures Expire(deque, now - window) == Expire(history, now - window)
    ensures Tracks(history, Expire(deque, now - window), now, limit, window)
  {
    hide Expire, Spaced;
    ExpireFromDropped(history, |history| - |deque|, now - window);
    ExpireKeepsRecent(history, now - window);
    ExpireKeepsRecent(deque, now - window);
  }

  /** A call is refused only when `limit` accepted hits lie inside the window, and crashes only without a limit. */
  lemma RefusedOnlyWhenFull(history: seq<real>, deque: seq<real>, clock: real, limit: nat, window: real, now: real)
    requires Tracks(history, deque, clock, limit, window) && clock <= now
    ensures var live := Expire(history, now - window);
            && (Verdict(live, limit, window, now) == Crashed <==> limit == 0)
            && (Verdict(live, limit, window, now) != Allowed ==> |live| == limit)
            && (forall i :: 0 <= i < |live| ==> now - window < live[i] <= now)
  {
    ExpireKeepsTracks(history, deque, clock, limit, window, now);
    ExpireKeepsRecent(history, now - window);
    var live := Expire(history, now - window);
    forall i | 0 <= i < |live| ensures now - window < live[i] <= now {
      assert live[i] == history[|history| - |live| + i];
    }
  }

  lemma WithinLimit(history: seq<real>, deque: seq<real>, clock: real, limit: nat, window: real)
    requires Tracks(history, deque, clock, limit, window)
    ensures |deque| <= limit
  {
  }

  lemma TimePasses(history: seq<real>, deque: seq<real>, clock: real, limit: nat, window: real, now: real)
    requires Tracks(history, deque, clock, limit, window) && clock <= now
    ensures Tracks(history, deque, now, limit, window)
  {
  }

  lemma AcceptKeepsTracks(history: seq<real>, deque: seq<real>, limit: nat, window: real, now: real)
    requires window >= 0.001 && Tracks(history, deque, now, limit, window) && deque == Expire(history, now - window)
    requires |deque| < limit
    ensures Tracks(history + [now], deque + [now], now, limit, window)
    ensures deque + [now] == Expire(history + [now], now - window)
  {
    hide Expire, Spaced;
    AcceptKeepsSpacing(history, limit, window, now);
    ExpireAppend(history, now - window, now);
    ExpireKeepsRecent(history, now - window);
    var grown := history + [now];
    assert grown[|history| - |deque|..] == deque + [now];
  }

  class RateLimiter {
    const limit: nat
    const window: real
    var hits: map<string, seq<real>>
    /** Every accepted call, per key, and the latest reading of the monotonic clock. */
    ghost var accepted: map<string, seq<real>>
    ghost var clock: real

    ghost function History(key: string): seq<real>
      reads this
    {
      if key in accepted then accepted[key] else []
    }

    ghost function Deque(key: string): seq<real>
      reads this
    {
      if key in hits then hits[key] else []
    }

    ghost predicate Valid()
      reads this
    {
      window >= 0.001
      && forall key {:trigger History(key)} {:trigger Deque(key)} ::
           Tracks(History(key), Deque(key), clock, limit, window)
    }

    constructor (requestedLimit: int, requestedWindow: real)
      ensures Valid() && limit == (if requestedLimit < 0 then 0 else requestedLimit)
      ensures window == (if requestedWindow < 0.001 then 0.001 else requestedWindow)
      ensures clock == 0.0 && forall key :: History(key) == []
    {
      limit := if requestedLimit < 0 then 0 else requestedLimit;
      window := if requestedWindow < 0.001 then 0.001 else requestedWindow;
      hits, accepted, clock := map[], map[], 0.0;
    }

    /** One key's turn: pop what left the window, then admit or refuse. With limit zero it reads an empty deque. */
    method Admit(deque: seq<real>, now: real) returns (kept: seq<real>, decision: Decision)
      requires |deque| <= limit
      ensures var live := Expire(deque, now - window);
              && decision == Verdict(live, limit, window, now)
              && kept == (if decision == Allowed then live + [now] else live)
    {
      var cutoff := now - window;
      kept := deque;
      while kept != [] && kept[0] <= cutoff
        invariant Expire(kept, cutoff) == Expire(deque, cutoff) && |kept| <= |deque|
        decreases |kept|
      {
        kept := kept[1..];
      }
      if |kept| >= limit {
        if kept == [] {
          return kept, Crashed;
        }
        var seconds := (kept[0] + window - now + 0.999).Floor;
        return kept, Refused(if 1 < seconds then seconds else 1);
      }
      kept, decision := kept + [now], Allowed;
    }

    /**
     Accepts exactly while fewer than `limit` accepted hits lie inside the window, and leaves the
     deque equal to the part of the accepted history inside the window.
     */
    method Check(key: string, now: real) returns (decision: Decision)
      requires Valid() && clock <= now
      modifies this
      ensures Valid() && clock == now
      ensures var live := Expire(old(History(key)), now - window);
              && decision == Verdict(live, limit, window, now)
              && History(key) == (if decision == Allowed then old(History(key)) + [now] else old(History(key)))
              && Deque(key) == Expire(History(key), now - window)
      ensures forall other :: other != key ==> History(other) == old(History(other)) && Deque(other) == old(Deque(other))
    {
      hide Tracks, Expire;
      ghost var h := History(key);
      var deque := if key in hits then hits[key] else [];
      ghost var live := Expire(h, now - window);
      assert Expire(deque, now - window) == live && Tracks(h, live, now, limit, window) by {
        ExpireKeepsTracks(h, deque, clock, limit, window, now);
      }
      WithinLimit(h, deque, clock, limit, window);
      var kept;
      kept, decision := Admit(deque, now);
      ghost var grown := if decision == Allowed then h + [now] else h;
      assert Tracks(grown, kept, now, limit, window) && kept == Expire(grown, now - window) by {
        if decision == Allowed { AcceptKeepsTracks(h, live, limit, window, now); }
      }
      Store(key, kept, grown, now);
    }

    method Store(key: string, kept: seq<real>, ghost history: seq<real>, ghost now: real)
      requires Valid() && clock <= now && Tracks(history, kept, now, limit, window)
      modifies this
      ensures Valid() && clock == now && History(key) == history && Deque(key) == kept
      ensures forall other :: other != key ==> History(other) == old(History(other)) && Deque(other) == old(Deque(other))
    {
      hits := hits[key := kept];
      accepted := accepted[key := history];
      clock := now;
      forall other
        ensures Tracks(History(other), Deque(other), clock, limit, window)
      {
        if other != key {
          TimePasses(old(History(other)), old(Deque(other)), old(clock), limit, window, now);
        }
      }
    }
  }

  /** In any valid state the (i+limit)-th acceptance of a key comes at least one window after the i-th. */
  lemma AcceptancesAreSpaced(limiter: RateLimiter, key: string, i: nat)
    requires limiter.Valid() && limiter.limit >= 1 && i + limiter.limit < |limiter.History(key)|
    ensures limiter.History(key)[i + limiter.limit] - limiter.History(key)[i] >= limiter.window
  {
    assert Tracks(limiter.History(key), limiter.Deque(key), limiter.clock, limiter.limit, limiter.window);
  }

  /** The hits of a key that are inside the window at a moment. */
  ghost function Live(limiter: RateLimiter, key: string, now: real): seq<real>
    reads limiter
  {
    Expire(limiter.History(key), now - limiter.window)
  }

  /**
   A caller that is refused and, with no acceptance of its key in between, calls again after exactly
   the advertised seconds is accepted if and only if rounding did not cut its wait short.
   */
  lemma RetryPassesIff(limiter: RateLimiter, key: string, now: real, seconds: int)
    requires limiter.Valid() && limiter.clock <= now
    requires Verdict(Live(limiter, key, now), limiter.limit, limiter.window, now) == Refused(seconds)
    ensures Live(limiter, key, now) != []
    ensures Verdict(Live(limiter, key, now + seconds as real), limiter.limit, limiter.window, now + seconds as real) == Allowed
            <==> Covered(Live(limiter, key, now)[0] + limiter.window - now)
  {
    hide Tracks, RetryAfter, Covered;
    var h, deque, limit, window := limiter.History(key), limiter.Deque(key), limiter.limit, limiter.window;
    assert Tracks(h, deque, limiter.clock, limit, window);
    ExpireKeepsTracks(h, deque, limiter.clock, limit, window, now);
    FullWindow(h, Expire(h, now - window), limit, window, now);
    var wait := Expire(h, now - window)[0] + window - now;
    RetryBounds(wait);
    RetryCoversWait(wait);
    AllowedAgainWhen(h, limit, window, now, now + seconds as real);
  }

  /** A full deque holds exactly `limit` hits, the oldest of which still has time to wait. */
  lemma FullWindow(h: seq<real>, live: seq<real>, limit: nat, window: real, now: real)
    requires Tracks(h, live, now, limit, window) && live == Expire(h, now - window) && |live| >= limit && live != []
    ensures Sorted(h) && limit >= 1 && |live| == limit && live[0] + window - now > 0.0
  {
    ExpireKeepsRecent(h, now - window);
    assert live[0] == h[|h| - |live|];
  }

  /** One call per window of 60.0005 seconds: at 59 the wait of 1.0005 is advertised as 1, and at 60 it is not over. */
  lemma JustOverOneSecond()
    ensures Verdict(Expire([], 0.0 - 60.0005), 1, 60.0005, 0.0) == Allowed
    ensures Verdict(Expire([0.0], 59.0 - 60.0005), 1, 60.0005, 59.0) == Refused(1)
    ensures Verdict(Expire([0.0], 60.0 - 60.0005), 1, 60.0005, 60.0) == Refused(1)
  {
    assert (1.0005 + 0.999).Floor == 1 && (0.0005 + 0.999).Floor == 0;
  }

  /** A caller that waits exactly as long as it is told is refused again. */
  method RetryCanBeTooShort() returns (first: Decision, second: Decision, third: Decision)
    ensures first == Allowed && second == Refused(1) && third == Refused(1)
  {
    hide Expire, Verdict, Tracks, RateLimiter.Valid;
    JustOverOneSecond();
    var limiter := new RateLimiter(1, 60.0005);
    assert limiter.History("caller") == [];
    first := limiter.Check("caller", 0.0);
    assert limiter.History("caller") == [0.0];
    second := limiter.Check("caller", 59.0);
    third := limiter.Check("caller", 60.0);
  }
}
