/** Budgeted compaction of the older part of a conversation into one context note. */
module Summary {
  import opened Common
  import opened Text

  datatype Role = User | Assistant | System | Tool

  function RoleName(role: Role): string {
    match role
    case User => "user"
    case Assistant => "assistant"
    case System => "system"
    case Tool => "tool"
  }

  datatype ChatMessage = ChatMessage(role: Role, content: string)

  const PREFIX := "Earlier conversation context:\n"
  const ELLIPSIS := "…"

  function TotalChars(messages: seq<ChatMessage>): nat {
    if messages == [] then 0 else |messages[0].content| + TotalChars(messages[1..])
  }

  function Fragment(m: ChatMessage): string { RoleName(m.role) + ": " + Collapse(m.content) }

  /** The facts that an unlimited budget would keep: one per message that is not blank. */
  function Fragments(messages: seq<ChatMessage>): seq<string> {
    if messages == [] then []
    else (if Collapse(messages[0].content) == "" then [] else [Fragment(messages[0])]) + Fragments(messages[1..])
  }

  function Cut(fragment: string, remaining: nat): string
    requires remaining < |fragment|
  {
    RStrip(fragment[..remaining]) + ELLIPSIS
  }

  /** The fragment that fits, or its cut form. */
  function Fitted(fragment: string, remaining: nat): string {
    if |fragment| > remaining then Cut(fragment, remaining) else fragment
  }

  lemma NameHasNoBlank(role: Role)
    ensures forall i :: 0 <= i < |RoleName(role)| ==> !IsBlank(RoleName(role)[i])
  {
    match role case User => case Assistant => case System => case Tool =>
  }

  lemma Labelled(name: string, content: string)
    requires (forall i :: 0 <= i < |name| ==> !IsBlank(name[i])) && NoDoubleBlank(content)
    requires content != "" && !IsBlank(content[0])
    ensures NoDoubleBlank(name + ": " + content)
  {
    var f := name + ": " + content;
    assert !IsBlank(':') && f[|name|] == ':';
    hide IsBlank;
    forall i | 0 <= i < |f| - 1 ensures !(IsBlank(f[i]) && IsBlank(f[i + 1])) {
      if i > |name| + 1 {
        assert f[i] == content[i - |name| - 2] && f[i + 1] == content[i - |name| - 1];
      } else if i == |name| + 1 {
        assert f[i + 1] == content[0];
      } else if i < |name| {
        assert f[i] == name[i];
      }
    }
  }

  lemma FragmentShape(m: ChatMessage)
    requires Collapse(m.content) != ""
    ensures NoDoubleBlank(Fragment(m))
  {
    hide Collapse, RoleName, IsBlank, NoDoubleBlank;
    CollapseShape(m.content);
    NameHasNoBlank(m.role);
    Labelled(RoleName(m.role), Collapse(m.content));
  }

  /** A cut fragment overshoots the budget by at most the ellipsis, and undershoots it by at most nothing. */
  lemma CutLength(m: ChatMessage, remaining: nat)
    requires Collapse(m.content) != "" && remaining < |Fragment(m)|
    ensures remaining <= |Cut(Fragment(m), remaining)| <= remaining + 1
  {
    FragmentShape(m);
    var kept := Fragment(m)[..remaining];
    assert NoDoubleBlank(kept);
    RStripCutsOne(kept);
  }

  /** What the budget loop collects from the older messages. */
  function Facts(older: seq<ChatMessage>, remaining: nat): seq<string> {
    if older == [] then []
    else if Collapse(older[0].content) == "" then Facts(older[1..], remaining)
    else
      var fact := Fitted(Fragment(older[0]), remaining);
      var left := remaining - |fact| - 1;
      [fact] + (if left <= 0 then [] else Facts(older[1..], left))
  }

  predicate Compacts(messages: seq<ChatMessage>, triggerChars: int, keepRecent: int) {
    TotalChars(messages) > triggerChars && |messages| > keepRecent
  }

  function SplitPoint(messages: seq<ChatMessage>, keepRecent: int): nat
    requires |messages| > keepRecent
  {
    if keepRecent < 0 then |messages| else |messages| - keepRecent
  }

  /** The note holding some facts, cut to its maximal length. */
  function Note(facts: seq<string>, maxSummaryChars: nat): ChatMessage {
    var text := PREFIX + Join("\n", facts);
    var end := maxSummaryChars + |PREFIX|;
    ChatMessage(System, if |text| > end then text[..end] else text)
  }

  /** `compact_history`: its result as a function of its arguments. */
  function Compacted(messages: seq<ChatMessage>, triggerChars: int, keepRecent: int, maxSummaryChars: nat): seq<ChatMessage> {
    if !Compacts(messages, triggerChars, keepRecent) then messages
    else
      var split := SplitPoint(messages, keepRecent);
      var facts := Facts(messages[..split], maxSummaryChars);
      (if facts == [] then [] else [Note(facts, maxSummaryChars)]) + messages[split..]
  }

  /** The text of one message within the remaining budget. */
  method FitFragment(message: ChatMessage, content: string, remaining: nat) returns (fragment: string)
    requires content == Collapse(message.content)
    ensures fragment == Fitted(Fragment(message), remaining)
  {
    fragment := RoleName(message.role) + ": " + content;
    if |fragment| > remaining {
      fragment := RStrip(fragment[..remaining]) + ELLIPSIS;
    }
  }

  lemma FactsStep(older: seq<ChatMessage>, i: nat, remaining: nat)
    requires i < |older|
    ensures var m := older[i]; var fact := Fitted(Fragment(m), remaining); var left := remaining - |fact| - 1;
            Facts(older[i..], remaining)
            == if Collapse(m.content) == "" then Facts(older[i + 1..], remaining)
               else [fact] + (if left <= 0 then [] else Facts(older[i + 1..], left))
  {
    hide Collapse, Fragment, Fitted;
    assert older[i..][0] == older[i] && older[i..][1..] == older[i + 1..];
  }

  /** The budget loop over the older messages, which stops early when the budget is used up. */
  method CollectFacts(older: seq<ChatMessage>, maxSummaryChars: nat) returns (facts: seq<string>)
    ensures facts == Facts(older, maxSummaryChars)
  {
    hide Collapse, Fitted, Fragment, Facts;
    facts := [];
    var remaining: nat := maxSummaryChars;
    var i := 0;
    assert older[0..] == older;
    while i < |older|
      invariant 0 <= i <= |older|
      invariant Facts(older, maxSummaryChars) == facts + Facts(older[i..], remaining)
    {
      FactsStep(older, i, remaining);
      var message := older[i];
      i := i + 1;
      var content := Collapse(message.content);
      if content == "" {
        continue;
      }
      var fragment := FitFragment(message, content, remaining);
      facts := facts + [fragment];
      if remaining - (|fragment| + 1) <= 0 {
        return;
      }
      remaining := remaining - (|fragment| + 1);
    }
    NoFactsLeft(remaining);
    assert older[i..] == [];
  }

  lemma NoFactsLeft(remaining: nat)
    ensures Facts([], remaining) == []
  {
  }

  method CompactHistory(messages: seq<ChatMessage>, triggerChars: int, keepRecent: int, maxSummaryChars: nat)
    returns (result: seq<ChatMessage>)
    ensures result == Compacted(messages, triggerChars, keepRecent, maxSummaryChars)
  {
    if TotalChars(messages) <= triggerChars || |messages| <= keepRecent {
      return messages;
    }
    var split := if keepRecent < 0 then |messages| else |messages| - keepRecent;
    var older, recent := messages[..split], messages[split..];
    var facts := CollectFacts(older, maxSummaryChars);
    if facts == [] {
      return recent;
    }
    var text := PREFIX + Join("\n", facts);
    var end := maxSummaryChars + |PREFIX|;
    result := [ChatMessage(System, if |text| > end then text[..end] else text)] + recent;
  }

  // ---- What compaction promises ----------------------------------------------------------

  /** A fragment names its role, and then its message's words with one blank between any two. */
  lemma FragmentReads(m: ChatMessage)
    ensures var text := Join(" ", Words(m.content));
            && (m.role == User ==> Fragment(m) == "user: " + text)
            && (m.role == Assistant ==> Fragment(m) == "assistant: " + text)
            && (m.role == System ==> Fragment(m) == "system: " + text)
            && (m.role == Tool ==> Fragment(m) == "tool: " + text)
  {
    hide Join, Words;
    assert "user" + ": " == "user: " && "assistant" + ": " == "assistant: ";
    assert "system" + ": " == "system: " && "tool" + ": " == "tool: ";
  }

  /** The trigger compares the number of characters of all contents together. */
  lemma {:induction false} TotalIsSum(a: seq<ChatMessage>, b: seq<ChatMessage>)
    ensures TotalChars(a + b) == TotalChars(a) + TotalChars(b)
    ensures |a| == 1 ==> TotalChars(a) == |a[0].content|
  {
    if a == [] {
      assert a + b == b;
    } else {
      TotalIsSum(a[1..], b);
      assert (a + b)[1..] == a[1..] + b;
      if |a| == 1 { assert a[1..] == []; }
    }
  }

  /** Fragments follow the messages in order, one for each that is not blank. */
  lemma {:induction false} FragmentsFollow(a: seq<ChatMessage>, b: seq<ChatMessage>)
    ensures Fragments(a + b) == Fragments(a) + Fragments(b)
  {
    hide Fragments;
    if a == [] {
      assert a + b == b;
      assert Fragments([]) == [] by { NoFragments(); }
    } else {
      FragmentsFollow(a[1..], b);
      FirstFragment(a);
      FirstFragment(a + b);
      TailOfSum(a, b);
      Regroup(OwnFragment(a[0]), Fragments(a[1..]), Fragments(b));
    }
  }

  /** What one message contributes: its fragment, unless it is blank. */
  function OwnFragment(m: ChatMessage): seq<string> { if Words(m.content) == [] then [] else [Fragment(m)] }

  lemma NoFragments()
    ensures Fragments([]) == []
  {
  }

  lemma FirstFragment(messages: seq<ChatMessage>)
    requires messages != []
    ensures Fragments(messages) == OwnFragment(messages[0]) + Fragments(messages[1..])
    ensures |messages| == 1 ==> Fragments(messages) == OwnFragment(messages[0])
  {
    hide Fragment, Words, Collapse;
    BlankHasNoWords(messages[0].content);
    if |messages| == 1 { assert messages[1..] == []; }
  }

  lemma BlankHasNoWords(s: string)
    ensures Collapse(s) == "" <==> Words(s) == []
  {
    JoinedWords(Words(s));
  }

  /** A fragment cut after some characters: trailing blanks go, and an ellipsis marks the cut. */
  predicate CutTo(fact: string, fragment: string, kept: nat) {
    kept < |fragment| && fact == RStrip(fragment[..kept]) + "…"
  }

  /** All fragments before the last fact are kept whole, and the last one whole or cut. */
  ghost predicate PrefixOfFragments(facts: seq<string>, fragments: seq<string>) {
    && |facts| <= |fragments|
    && (forall i :: 0 <= i < |facts| - 1 ==> facts[i] == fragments[i])
    && (facts != [] ==>
          var last := |facts| - 1;
          facts[last] == fragments[last]
          || exists kept: nat :: CutTo(facts[last], fragments[last], kept))
  }

  /**
   The facts use the fragments in order and fit the budget. Some are left out only when it is used up,
   and none is started once it is.
   */
  ghost predicate BudgetKept(facts: seq<string>, fragments: seq<string>, remaining: nat) {
    && PrefixOfFragments(facts, fragments)
    && |Join("\n", facts)| <= remaining + 1
    && (facts == [] <==> fragments == [])
    && (|facts| < |fragments| ==> |Join("\n", facts)| >= remaining - 1)
    && (|facts| > 1 ==> |Join("\n", facts[..|facts| - 1])| < remaining - 1)
  }

  lemma WholeFactFirst(fragment: string, facts: seq<string>, fragments: seq<string>, left: nat, remaining: nat)
    requires BudgetKept(facts, fragments, left) && left > 0 && remaining == left + |fragment| + 1
    ensures BudgetKept([fragment] + facts, [fragment] + fragments, remaining)
  {
    var more := [fragment] + facts;
    assert more[1..] == facts;
    if facts != [] {
      var last := |facts| - 1;
      assert more[last + 1] == facts[last] && ([fragment] + fragments)[last + 1] == fragments[last];
      assert more[..|more| - 1] == [fragment] + facts[..last];
    }
  }

  lemma OnlyFact(fragment: string, fragments: seq<string>, remaining: nat)
    requires var fact := Fitted(fragment, remaining); |fact| <= remaining + 1 && remaining - |fact| - 1 <= 0
    ensures BudgetKept([Fitted(fragment, remaining)], [fragment] + fragments, remaining)
  {
    hide RStrip;
    if |fragment| > remaining { assert CutTo(Fitted(fragment, remaining), fragment, remaining); }
  }

  /**
   Facts are an in-order prefix of the fragments of the older messages; together they fit the budget
   up to one character, and something is left out only when the budget is used up to one character.
   */
  lemma {:induction false} FactsFitBudget(older: seq<ChatMessage>, remaining: nat)
    ensures BudgetKept(Facts(older, remaining), Fragments(older), remaining)
  {
    if older != [] {
      hide BudgetKept, Collapse, Fragment, Cut;
      var rest := older[1..];
      if Collapse(older[0].content) == "" {
        FactsFitBudget(rest, remaining);
      } else {
        var fragment := Fragment(older[0]);
        var fact := Fitted(fragment, remaining);
        if |fragment| > remaining { CutLength(older[0], remaining); }
        var left := remaining - |fact| - 1;
        if left > 0 {
          FactsFitBudget(rest, left);
          WholeFactFirst(fragment, Facts(rest, left), Fragments(rest), left, remaining);
        } else {
          OnlyFact(fragment, Fragments(rest), remaining);
        }
      }
    }
  }

  /** A note is a bounded text that starts with the prefix and loses at most its final character. */
  lemma NoteLosesAtMostOneCharacter(older: seq<ChatMessage>, maxSummaryChars: nat)
    ensures var facts := Facts(older, maxSummaryChars);
            var prefix := "Earlier conversation context:\n";
            var text := prefix + Join("\n", facts);
            var content := Note(facts, maxSummaryChars).content;
            && (content == text || content == text[..|text| - 1])
            && |content| <= maxSummaryChars + |prefix|
            && prefix <= content
  {
    FactsFitBudget(older, maxSummaryChars);
  }

  /** The character that can be lost is always the ellipsis of a cut last fact. */
  lemma {:induction false} OnlyEllipsisIsLost(older: seq<ChatMessage>, remaining: nat)
    requires |Join("\n", Facts(older, remaining))| == remaining + 1
    ensures var joined := Join("\n", Facts(older, remaining));
            joined[remaining..] == "…"
  {
    if older != [] {
      var rest := older[1..];
      if Collapse(older[0].content) == "" {
        OnlyEllipsisIsLost(rest, remaining);
      } else {
        var fact := Fitted(Fragment(older[0]), remaining);
        var left := remaining - |fact| - 1;
        if left > 0 {
          FactsFitBudget(rest, left);
          var facts := Facts(rest, left);
          assert Facts(older, remaining) == [fact] + facts;
          assert ([fact] + facts)[1..] == facts;
          if facts != [] {
            var joined := Join("\n", facts);
            assert Join("\n", [fact] + facts) == fact + "\n" + joined;
            OnlyEllipsisIsLost(rest, left);
            assert Join("\n", Facts(older, remaining))[remaining..] == joined[left..];
          }
        } else {
          assert Join("\n", [fact]) == fact;
        }
      }
    }
  }

  /** Either nothing changes, or the recent messages stay exactly, preceded by at most one system note. */
  lemma RecentMessagesStay(messages: seq<ChatMessage>, triggerChars: int, keepRecent: int, maxSummaryChars: nat)
    ensures var result := Compacted(messages, triggerChars, keepRecent, maxSummaryChars);
            if TotalChars(messages) <= triggerChars || |messages| <= keepRecent then result == messages
            else
              var keep := if keepRecent < 0 then 0 else keepRecent;
              && keep <= |result| <= keep + 1
              && result[|result| - keep..] == messages[|messages| - keep..]
              && (|result| == keep + 1 ==>
                    && result[0].role == System
                    && result[0] == Note(Facts(messages[..|messages| - keep], maxSummaryChars), maxSummaryChars))
              && (|result| == keep <==> forall m :: m in messages[..|messages| - keep] ==> Collapse(m.content) == "")
  {
    if Compacts(messages, triggerChars, keepRecent) {
      var older := messages[..SplitPoint(messages, keepRecent)];
      FactsFitBudget(older, maxSummaryChars);
      NoFragmentsIffBlank(older);
    }
  }

  lemma {:induction false} NoFragmentsIffBlank(older: seq<ChatMessage>)
    ensures Fragments(older) == [] <==> forall m :: m in older ==> Collapse(m.content) == ""
  {
    if older != [] {
      NoFragmentsIffBlank(older[1..]);
      assert older == [older[0]] + older[1..];
    }
  }
}
