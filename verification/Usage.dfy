/** Token accounting: adding usages with unknown parts. */
module TokenUsage {
  import opened Common
  import opened AgentRows

  const UNKNOWN := Usage(None, None)

  function AddCount(left: Option<int>, right: Option<int>): Option<int> {
    if left.None? then right else if right.None? then left else Some(left.value + right.value)
  }

  /** `LLMUsage.add`. */
  function Add(left: Usage, right: Option<Usage>): Usage {
    match right
    case None => left
    case Some(u) => Usage(AddCount(left.inputTokens, u.inputTokens), AddCount(left.outputTokens, u.outputTokens))
  }

  /** Usages added one after another, as the loops do. */
  function Sum(usages: seq<Option<Usage>>): Usage {
    if usages == [] then UNKNOWN else Add(Sum(usages[..|usages| - 1]), usages[|usages| - 1])
  }

  /** One side of a usage. */
  function Side(u: Usage, input: bool): Option<int> { if input then u.inputTokens else u.outputTokens }

  /** The known counts of one side, in order. */
  function Known(usages: seq<Option<Usage>>, input: bool): seq<int> {
    if usages == [] then []
    else
      var last := usages[|usages| - 1];
      var count := if last.None? then None else Side(last.value, input);
      Known(usages[..|usages| - 1], input) + (if count.Some? then [count.value] else [])
  }

  function Total(counts: seq<int>): int {
    if counts == [] then 0 else Total(counts[..|counts| - 1]) + counts[|counts| - 1]
  }

  /** What one usage reports on one side. */
  function Reported(u: Option<Usage>, input: bool): Option<int> { if u.None? then None else Side(u.value, input) }

  lemma SideOfAdd(left: Usage, right: Option<Usage>, input: bool)
    ensures Side(Add(left, right), input) == AddCount(Side(left, input), Reported(right, input))
  {
  }

  lemma TotalOfMore(counts: seq<int>, count: int)
    ensures Total(counts + [count]) == Total(counts) + count
  {
    var all := counts + [count];
    assert all[..|all| - 1] == counts;
  }

  lemma OneMoreKnown(usages: seq<Option<Usage>>, input: bool)
    requires usages != []
    ensures var init, count := usages[..|usages| - 1], Reported(usages[|usages| - 1], input);
            Known(usages, input) == Known(init, input) + if count.Some? then [count.value] else []
  {
  }

  /** The running sum is the plain total of the known counts, and unknown exactly when none is known. */
  lemma {:induction false} SumOfKnown(usages: seq<Option<Usage>>, input: bool)
    ensures Side(Sum(usages), input) ==
            (if Known(usages, input) == [] then None else Some(Total(Known(usages, input))))
  {
    if usages != [] {
      var init, last := usages[..|usages| - 1], usages[|usages| - 1];
      SumOfKnown(init, input);
      SideOfAdd(Sum(init), last, input);
      OneMoreKnown(usages, input);
      if Reported(last, input).Some? {
        TotalOfMore(Known(init, input), Reported(last, input).value);
      } else {
        assert Known(init, input) + [] == Known(init, input);
      }
      assert Total([]) == 0;
      assert Sum(usages) == Add(Sum(init), last);
      hide Sum, Known, Total, Side, Reported, Add;
    }
  }

  /** Both totals, each over its own counts. */
  lemma TotalsByField(usages: seq<Option<Usage>>)
    ensures var inputs, outputs := Known(usages, true), Known(usages, false); var sum := Sum(usages);
            && sum.inputTokens == (if inputs == [] then None else Some(Total(inputs)))
            && sum.outputTokens == (if outputs == [] then None else Some(Total(outputs)))
  {
    hide Known, Sum, Total;
    SumOfKnown(usages, true);
    SumOfKnown(usages, false);
  }

  /** The known counts of a field, response by response; a response without usage counts as none. */
  lemma KnownFollows(usages: seq<Option<Usage>>, last: Option<Usage>)
    ensures Known([], true) == [] == Known([], false)
    ensures Known(usages + [last], true) ==
            Known(usages, true) + if last.Some? && last.value.inputTokens.Some? then [last.value.inputTokens.value] else []
    ensures Known(usages + [last], false) ==
            Known(usages, false) + if last.Some? && last.value.outputTokens.Some? then [last.value.outputTokens.value] else []
  {
    var all := usages + [last];
    assert all[..|all| - 1] == usages;
    OneMoreKnown(all, true);
    OneMoreKnown(all, false);
  }

  /** Swapping the order in which two usages arrive does not change where the sum ends up. */
  lemma AddIsOrderFree(base: Usage, a: Option<Usage>, b: Option<Usage>)
    ensures Add(Add(base, a), b) == Add(Add(base, b), a)
  {
  }

  lemma {:induction false} SumWithout(usages: seq<Option<Usage>>, i: nat)
    requires i < |usages|
    ensures Sum(usages) == Add(Sum(usages[..i] + usages[i + 1..]), usages[i])
  {
    var last := |usages| - 1;
    if i == last {
      assert usages[..i] + usages[i + 1..] == usages[..last];
    } else {
      var init := usages[..last];
      SumWithout(init, i);
      var rest := usages[..i] + usages[i + 1..];
      assert rest[..|rest| - 1] == init[..i] + init[i + 1..];
      AddIsOrderFree(Sum(init[..i] + init[i + 1..]), usages[i], usages[last]);
    }
  }

  /** The total depends only on which usages were reported, not on their order. */
  lemma {:induction false} SumIsOrderFree(a: seq<Option<Usage>>, b: seq<Option<Usage>>)
    requires multiset(a) == multiset(b)
    ensures Sum(a) == Sum(b)
    decreases |a|
  {
    if a == [] {
      assert |b| == |multiset(b)| == 0;
    } else {
      var last := |a| - 1;
      assert a == a[..last] + [a[last]];
      assert a[last] in multiset(b);
      var i :| 0 <= i < |b| && b[i] == a[last];
      var rest := b[..i] + b[i + 1..];
      assert b == b[..i] + [b[i]] + b[i + 1..];
      assert multiset(rest) == multiset(b) - multiset{b[i]} == multiset(a[..last]);
      SumIsOrderFree(a[..last], rest);
      SumWithout(b, i);
    }
  }
}
