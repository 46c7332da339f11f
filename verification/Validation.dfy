/** Scalar checks and the delimiter parser of source records. */
module Validation {
  import opened Common
  import opened RawData
  import opened Decimal
  import opened Text

  /** `str(value)` of a present scalar. */
  function AsText(value: Scalar): Option<string> {
    match value
    case Null => None
    case Number(n) => Some(PrintInt(n))
    case Text(s) => Some(s)
  }

  function RequiredString(value: Scalar): Option<string> {
    var s := AsText(value);
    if s == Some("") then None else s
  }

  /** An absent or empty field is simply absent. */
  function OptionalString(value: Scalar): Option<string> { RequiredString(value) }

  /** An id that names an entity: present and none of the source's sentinels. */
  function EntityId(id: Scalar): Option<string> {
    var s := RequiredString(id);
    if s.None? || s.value == "0" || s.value == "-1" then None else s
  }

  /** The record's id, when it names an entity and agrees with the object key. */
  function KeyMatchingId(key: string, id: Scalar): Option<string> {
    var s := EntityId(id);
    if s.None? || s.value != key then None else s
  }

  /** The decimal number a text denotes, blanks around it and underscores ignored. */
  function ParseDecimal(text: string): Option<DecimalNumber> {
    var s := WithoutUnderscores(Strip(text));
    ParseUnsigned(Negative(s), Unsigned(s))
  }

  /** The integer a text denotes, in any decimal form: "12", "12.0" and "1.2e1" alike. */
  function ParseInteger(text: string): Option<int> {
    var d := ParseDecimal(text);
    if d.None? then None else IntegerOf(d.value)
  }

  /** A present integer, or None for a missing or malformed one. */
  function RequiredInt(value: Scalar): Option<int> {
    match value
    case Null => None
    case Number(n) => Some(n)
    case Text(s) => ParseInteger(s)
  }

  /** An optional decimal field is acceptable. */
  predicate DecimalOk(value: Scalar) {
    MissingInt(value) || value.Number? || (value.Text? && ParseDecimal(value.s).Some?)
  }

  predicate MissingInt(value: Scalar) { value == Null || value == Text("") }

  /** An optional integer: None is an error, Some(None) an absent value. */
  function OptionalInt(value: Scalar): Option<Option<int>> {
    if MissingInt(value) then Some(None)
    else
      var n := RequiredInt(value);
      if n.None? then None else Some(n)
  }

  predicate IsBar(c: char) { c == '|' || c == '\U{FF5C}' }

  predicate HasBar(s: string) { exists i :: 0 <= i < |s| && IsBar(s[i]) }

  function FirstBar(s: string): (n: nat)
    ensures n <= |s| && (forall i :: 0 <= i < n ==> !IsBar(s[i])) && (n < |s| ==> IsBar(s[n]))
  {
    if s == "" || IsBar(s[0]) then 0 else 1 + FirstBar(s[1..])
  }

  /** Splitting at every delimiter, half or full width. */
  function SplitBars(s: string): (parts: seq<string>)
    ensures parts != []
    decreases |s|
  {
    var n := FirstBar(s);
    if n == |s| then [s] else [s[..n]] + SplitBars(s[n + 1..])
  }

  function Stripped(parts: seq<string>): (r: seq<string>)
    ensures |r| == |parts|
  {
    seq(|parts|, i requires 0 <= i < |parts| => Strip(parts[i]))
  }

  function WithoutSentinels(parts: seq<string>, sentinels: set<string>): seq<string> {
    if parts == [] then []
    else WithoutSentinels(parts[..|parts| - 1], sentinels)
         + (if parts[|parts| - 1] in sentinels then [] else [parts[|parts| - 1]])
  }

  /** The ids of a relationship field: every part non-blank, all parts distinct, sentinels dropped. */
  function SplitIds(value: Scalar, sentinels: set<string>): Option<seq<string>> {
    match AsText(value)
    case None => None
    case Some(s) =>
      var parts := Stripped(SplitBars(s));
      if "" in parts || !Distinct(parts) then None else Some(WithoutSentinels(parts, sentinels))
  }

  const RELATION_SENTINELS: set<string> := {"0", "-1"}

  function ParseAll(parts: seq<string>): Option<seq<int>> {
    if parts == [] then Some([])
    else
      var init := ParseAll(parts[..|parts| - 1]);
      var last := ParseInteger(parts[|parts| - 1]);
      if init.None? || last.None? then None else Some(init.value + [last.value])
  }

  function SplitInts(value: Scalar): Option<seq<int>> {
    match SplitIds(value, {})
    case None => None
    case Some(parts) => ParseAll(parts)
  }

  /** The accumulation loop of `split_ids`. */
  method KeepIds(parts: seq<string>, sentinels: set<string>) returns (kept: seq<string>)
    ensures kept == WithoutSentinels(parts, sentinels)
  {
    kept := [];
    for i := 0 to |parts|
      invariant kept == WithoutSentinels(parts[..i], sentinels)
    {
      assert parts[..i + 1][..i] == parts[..i];
      if parts[i] !in sentinels {
        kept := kept + [parts[i]];
      }
    }
    assert parts[..|parts|] == parts;
  }

  method CollectIds(value: Scalar, sentinels: set<string>) returns (r: Option<seq<string>>)
    ensures r == SplitIds(value, sentinels)
  {
    var text := AsText(value);
    if text.None? {
      return None;
    }
    var parts := Stripped(SplitBars(text.value));
    if "" in parts || !Distinct(parts) {
      return None;
    }
    var kept := KeepIds(parts, sentinels);
    r := Some(kept);
  }

  /** The accumulation loop of `split_ints`. */
  method ParseParts(parts: seq<string>) returns (r: Option<seq<int>>)
    ensures r == ParseAll(parts)
  {
    var result: seq<int> := [];
    for i := 0 to |parts|
      invariant ParseAll(parts[..i]) == Some(result)
    {
      assert parts[..i + 1][..i] == parts[..i];
      var parsed := ParseInteger(parts[i]);
      if parsed.None? {
        ParseFailsEarly(parts, i);
        return None;
      }
      result := result + [parsed.value];
    }
    assert parts[..|parts|] == parts;
    r := Some(result);
  }

  method CollectInts(value: Scalar) returns (r: Option<seq<int>>)
    ensures r == SplitInts(value)
  {
    var parts := CollectIds(value, {});
    if parts.None? {
      return None;
    }
    r := ParseParts(parts.value);
  }

  lemma {:induction false} ParseFailsEarly(parts: seq<string>, i: nat)
    requires i < |parts| && ParseInteger(parts[i]).None?
    ensures ParseAll(parts).None?
  {
    if i < |parts| - 1 { ParseFailsEarly(parts[..|parts| - 1], i); }
  }

  // ---- What the parser promises ----------------------------------------------------------

  /** Rejoining the parts with the delimiters that separated them gives the text back. */
  function Rejoined(parts: seq<string>, bars: seq<char>): string
    requires |bars| == |parts| - 1
  {
    if |parts| == 1 then parts[0] else parts[0] + [bars[0]] + Rejoined(parts[1..], bars[1..])
  }

  function Bars(s: string): seq<char> {
    if s == "" then [] else (if IsBar(s[0]) then [s[0]] else []) + Bars(s[1..])
  }

  lemma {:induction false} BarsAfterFirst(s: string)
    ensures Bars(s) == if FirstBar(s) == |s| then [] else [s[FirstBar(s)]] + Bars(s[FirstBar(s) + 1..])
  {
    hide IsBar;
    if s != "" && !IsBar(s[0]) {
      BarsAfterFirst(s[1..]);
      var n := FirstBar(s[1..]);
      assert Bars(s) == Bars(s[1..]) && FirstBar(s) == 1 + n;
      if n < |s| - 1 { assert s[1..][n] == s[n + 1] && s[1..][n + 1..] == s[n + 2..]; }
    }
  }

  /** Splitting loses nothing: no part contains a delimiter and the parts rejoin to the text. */
  lemma {:induction false} SplitIsExact(s: string)
    ensures var parts := SplitBars(s);
            |Bars(s)| == |parts| - 1 && Rejoined(parts, Bars(s)) == s
            && forall i, k :: 0 <= i < |parts| && 0 <= k < |parts[i]| ==> !IsBar(parts[i][k])
    decreases |s|
  {
    hide IsBar, FirstBar, Bars;
    var n := FirstBar(s);
    BarsAfterFirst(s);
    if n < |s| {
      SplitIsExact(s[n + 1..]);
      assert SplitBars(s)[1..] == SplitBars(s[n + 1..]);
      assert Bars(s)[1..] == Bars(s[n + 1..]);
      assert s == s[..n] + [s[n]] + s[n + 1..];
    }
  }

  lemma {:induction false} KeptParts(parts: seq<string>, sentinels: set<string>)
    requires Distinct(parts)
    ensures Distinct(WithoutSentinels(parts, sentinels))
    ensures forall p :: p in WithoutSentinels(parts, sentinels) <==> p in parts && p !in sentinels
    ensures sentinels == {} ==> WithoutSentinels(parts, sentinels) == parts
  {
    if parts != [] {
      var init, last := parts[..|parts| - 1], parts[|parts| - 1];
      KeptParts(init, sentinels);
      var kept := WithoutSentinels(init, sentinels);
      hide WithoutSentinels;
      assert last !in init && last !in kept;
      assert forall p :: p in parts <==> p in init || p == last;
    }
  }

  /** Accepted ids are distinct, non-empty, and exactly the parts that are not sentinels. */
  lemma AcceptedIds(value: Scalar, sentinels: set<string>)
    requires SplitIds(value, sentinels).Some?
    ensures var ids := SplitIds(value, sentinels).value;
            && Distinct(ids) && "" !in ids
            && AsText(value).Some?
            && (forall id :: id in ids <==> id in Stripped(SplitBars(AsText(value).value)) && id !in sentinels)
            && (sentinels == {} ==> ids == Stripped(SplitBars(AsText(value).value)))
  {
    KeptParts(Stripped(SplitBars(AsText(value).value)), sentinels);
  }

  /** The ids are the parts at these increasing places, which are those of all parts that are no sentinels. */
  predicate KeptAt(parts: seq<string>, sentinels: set<string>, ids: seq<string>, at: seq<nat>) {
    && |at| == |ids| && (forall k :: 0 <= k < |at| ==> at[k] < |parts| && parts[at[k]] == ids[k])
    && (forall j, k :: 0 <= j < k < |at| ==> at[j] < at[k])
    && forall p :: 0 <= p < |parts| ==> (parts[p] !in sentinels <==> p in at)
  }

  ghost predicate KeptInOrder(parts: seq<string>, sentinels: set<string>, ids: seq<string>) {
    exists at :: KeptAt(parts, sentinels, ids, at)
  }

  lemma {:induction false} SentinelsDropInOrder(parts: seq<string>, sentinels: set<string>) returns (at: seq<nat>)
    ensures KeptAt(parts, sentinels, WithoutSentinels(parts, sentinels), at)
  {
    if parts == [] {
      at := [];
    } else {
      var n := |parts| - 1;
      var before := SentinelsDropInOrder(parts[..n], sentinels);
      at := before + (if parts[n] in sentinels then [] else [n]);
      OnePartMore(parts, sentinels, WithoutSentinels(parts[..n], sentinels), before);
    }
  }

  lemma OnePartMore(parts: seq<string>, sentinels: set<string>, ids: seq<string>, at: seq<nat>)
    requires parts != [] && KeptAt(parts[..|parts| - 1], sentinels, ids, at)
    ensures var n := |parts| - 1; var kept := parts[n] !in sentinels;
            KeptAt(parts, sentinels, ids + (if kept then [parts[n]] else []), at + (if kept then [n] else []))
  {
    var n := |parts| - 1;
    assert forall p :: 0 <= p < n ==> parts[..n][p] == parts[p];
    assert n !in at;
  }

  /**
   A relationship field is accepted exactly when it is present and its parts are distinct and not
   blank; its ids are then the parts that are no sentinels, in their order.
   */
  lemma SplitIdsIff(value: Scalar, sentinels: set<string>)
    ensures SplitIds(value, sentinels).Some? <==>
              AsText(value).Some? && "" !in Stripped(SplitBars(AsText(value).value)) && Distinct(Stripped(SplitBars(AsText(value).value)))
    ensures SplitIds(value, sentinels).Some? ==>
              KeptInOrder(Stripped(SplitBars(AsText(value).value)), sentinels, SplitIds(value, sentinels).value)
  {
    if SplitIds(value, sentinels).Some? {
      var at := SentinelsDropInOrder(Stripped(SplitBars(AsText(value).value)), sentinels);
    }
  }

  /** An integer list is accepted exactly when its parts are distinct integers; its numbers are theirs, part by part. */
  lemma SplitIntsIff(value: Scalar)
    ensures SplitInts(value).Some? <==>
              SplitIds(value, {}).Some?
              && forall part :: part in Stripped(SplitBars(AsText(value).value)) ==> ParseInteger(part).Some?
    ensures SplitInts(value).Some? ==>
              var parts := Stripped(SplitBars(AsText(value).value));
              && |SplitInts(value).value| == |parts|
              && forall i :: 0 <= i < |parts| ==> ParseInteger(parts[i]) == Some(SplitInts(value).value[i])
  {
    hide ParseInteger, SplitBars, Stripped, SplitIds, ParseAll;
    if SplitIds(value, {}).Some? {
      AcceptedIds(value, {});
      ParseAllIff(SplitIds(value, {}).value);
      if SplitInts(value).Some? { ParseKeepsLength(SplitIds(value, {}).value); }
    }
  }

  lemma {:induction false} ParseAllIff(parts: seq<string>)
    ensures ParseAll(parts).Some? <==> forall part :: part in parts ==> ParseInteger(part).Some?
  {
    hide ParseInteger;
    if parts != [] {
      var n := |parts| - 1;
      ParseAllIff(parts[..n]);
      assert parts == parts[..n] + [parts[n]];
    }
  }

  lemma PrintedIsText(n: int)
    ensures PrintInt(n) != ""
  {
  }

  /** How single fields read: what is absent, what is an error, and what value there is. */
  lemma FieldsRead(n: int, s: string, key: string)
    ensures RequiredString(Null) == None && RequiredString(Text("")) == None
    ensures s != "" ==> RequiredString(Text(s)) == Some(s) && OptionalString(Text(s)) == Some(s)
    ensures OptionalString(Null) == None && OptionalString(Text("")) == None
    ensures RequiredString(Number(n)) == Some(PrintInt(n)) && OptionalString(Number(n)) == Some(PrintInt(n))
    ensures OptionalInt(Null) == Some(None) && OptionalInt(Text("")) == Some(None)
    ensures OptionalInt(Number(n)) == Some(Some(n)) && RequiredInt(Number(n)) == Some(n) && RequiredInt(Null) == None
    ensures s != "" ==> (OptionalInt(Text(s)) == Some(Some(n)) <==> ParseInteger(s) == Some(n))
    ensures s != "" ==> (OptionalInt(Text(s)) == None <==> ParseInteger(s) == None)
    ensures RequiredInt(Text(s)) == ParseInteger(s)
    ensures EntityId(Text(s)) == if s == "" || s == "0" || s == "-1" then None else Some(s)
    ensures KeyMatchingId(key, Text(s)) == if s == "" || s == "0" || s == "-1" || s != key then None else Some(key)
  {
    hide ParseInteger, PrintInt;
    PrintedIsText(n);
  }

  lemma {:induction false} ParseKeepsLength(parts: seq<string>)
    requires ParseAll(parts).Some?
    ensures |ParseAll(parts).value| == |parts|
    ensures forall i :: 0 <= i < |parts| ==> ParseInteger(parts[i]) == Some(ParseAll(parts).value[i])
  {
    hide ParseInteger;
    if parts != [] { ParseKeepsLength(parts[..|parts| - 1]); }
  }

  /** An accepted activation list is never empty. */
  lemma AcceptedIntsNonEmpty(value: Scalar)
    requires SplitInts(value).Some?
    ensures SplitInts(value).value != []
  {
    AcceptedIds(value, {});
    ParseKeepsLength(SplitIds(value, {}).value);
  }

  // ---- Integers in decimal notation ------------------------------------------------------

  /** A text denotes a number exactly when, stripped and without underscores, it is written as that number. */
  lemma ParseDecimalIff(text: string, d: DecimalNumber)
    ensures ParseDecimal(text) == Some(d) <==>
              exists n :: WellFormed(n) && Written(n) == WithoutUnderscores(Strip(text)) && Meant(n) == d
  {
    hide Written, Meant, WellFormed, ParseUnsigned, Negative, Unsigned, Strip;
    var s := WithoutUnderscores(Strip(text));
    if ParseDecimal(text) == Some(d) {
      var n := ReadIsNotation(s);
      NotationIsRead(n);
      assert WellFormed(n) && Written(n) == s && Meant(n) == d;
    }
    if n :| WellFormed(n) && Written(n) == s && Meant(n) == d { NotationIsRead(n); }
  }

  function Kept(c: char): string { if c == '_' then "" else [c] }

  lemma OneUnderscore(s: string)
    requires s != ""
    ensures WithoutUnderscores(s) == Kept(s[0]) + WithoutUnderscores(s[1..])
  {
  }

  /** Underscores go, and every other character stays in its place. */
  lemma {:induction false} OnlyUnderscoresGo(a: string, b: string)
    ensures WithoutUnderscores(a + b) == WithoutUnderscores(a) + WithoutUnderscores(b)
  {
    hide WithoutUnderscores, Kept;
    if a == "" {
      assert a + b == b;
      assert WithoutUnderscores(a) == "" by { EmptyStaysEmpty(); }
    } else {
      OnlyUnderscoresGo(a[1..], b);
      OneUnderscore(a);
      OneUnderscore(a + b);
      TailOfSum(a, b);
      Regroup(Kept(a[0]), WithoutUnderscores(a[1..]), WithoutUnderscores(b));
    }
  }

  lemma EmptyStaysEmpty()
    ensures WithoutUnderscores("") == ""
  {
  }

  lemma SingleCharacters(c: char)
    ensures WithoutUnderscores([c]) == if c == '_' then "" else [c]
  {
    assert [c][1..] == "";
  }

  /** A decimal number is accepted as v exactly when it equals v, both sides scaled to integers. */
  lemma IntegerOfIff(d: DecimalNumber, v: int)
    ensures IntegerOf(d) == Some(v)
            <==> v * PowerOfTen(if d.exponent < 0 then -d.exponent else 0)
                 == Signed(d.negative, d.coefficient) * PowerOfTen(if d.exponent < 0 then 0 else d.exponent)
  {
    assert PowerOfTen(0) == 1;
    hide PowerOfTen, Signed;
    if d.exponent < 0 {
      QuotientIff(d.negative, d.coefficient, PowerOfTen(-d.exponent), v);
    } else {
      SignedTimes(d.negative, d.coefficient, PowerOfTen(d.exponent));
    }
  }

  lemma SignedTimes(negative: bool, n: nat, p: nat)
    ensures Signed(negative, n * p) == Signed(negative, n) * p
  {
    if negative { assert (0 - n) * p == 0 - n * p; }
  }

  lemma QuotientIff(negative: bool, n: nat, unit: nat, v: int)
    requires unit > 0
    ensures n % unit == 0 && Signed(negative, n / unit) == v <==> v * unit == Signed(negative, n)
  {
    var q := if negative then 0 - v else v;
    DivisionIff(n, unit, q);
    if negative { assert q * unit == 0 - v * unit; }
  }

  lemma DivisionIff(n: nat, unit: nat, q: int)
    requires unit > 0
    ensures q * unit == n <==> n % unit == 0 && q == n / unit
  {
    assert n == (n / unit) * unit + n % unit;
    Between(q - n / unit, unit, n % unit);
    assert (q - n / unit) * unit == q * unit - (n / unit) * unit;
  }

  /** No positive multiple of a unit is smaller than the unit. */
  lemma Between(k: int, unit: nat, rest: nat)
    requires rest < unit
    ensures k * unit == rest <==> k == 0 && rest == 0
  {
    if k > 0 { assert k * unit >= unit; }
    if k < 0 { assert k * unit <= 0 - unit; }
  }

  /** An integer's own text is read back as that integer. */
  lemma IntegerTextIsReadBack(n: int)
    ensures ParseInteger(PrintInt(n)) == Some(n)
  {
    var digits := Print(if n < 0 then -n else n);
    ValueOfPrint(if n < 0 then -n else n);
    hide Print, PrintInt, Value, Strip, WithoutUnderscores, ParseUnsigned, ParseInteger;
    SignedText(n, digits);
    PlainDigits(n < 0, digits);
    PlainNumber(PrintInt(n), n < 0, digits);
  }

  lemma SignedText(n: int, digits: string)
    requires digits == Print(if n < 0 then -n else n)
    ensures Strip(PrintInt(n)) == PrintInt(n) && WithoutUnderscores(PrintInt(n)) == PrintInt(n)
    ensures Negative(PrintInt(n)) == (n < 0) && Unsigned(PrintInt(n)) == digits
  {
    hide Print, Strip, WithoutUnderscores;
    var s := PrintInt(n);
    assert s == digits || s == "-" + digits;
    assert forall i :: 0 <= i < |s| ==> s[i] == '-' || IsDigit(s[i]);
    PlainText(s);
    assert IsDigit(digits[0]);
    if n < 0 { assert s[1..] == digits; }
  }

  lemma PlainNumber(s: string, negative: bool, digits: string)
    requires Strip(s) == s && WithoutUnderscores(s) == s && Negative(s) == negative && Unsigned(s) == digits
    requires AllDigits(digits) && ParseUnsigned(negative, digits) == Some(DecimalNumber(negative, Value(digits), 0))
    ensures ParseInteger(s) == Some(Signed(negative, Value(digits)))
  {
    hide ParseUnsigned, Value, Strip, WithoutUnderscores, Negative, Unsigned;
  }

  lemma PlainDigits(negative: bool, digits: string)
    requires digits != "" && AllDigits(digits)
    ensures ParseUnsigned(negative, digits) == Some(DecimalNumber(negative, Value(digits), 0))
  {
    RunOfDigits(digits);
    assert digits[..|digits|] == digits && digits[|digits|..] == "" && digits + "" == digits;
  }

  lemma PlainText(s: string)
    requires forall i :: 0 <= i < |s| ==> !IsBlank(s[i]) && s[i] != '_'
    ensures Strip(s) == s && WithoutUnderscores(s) == s
  {
    NoUnderscores(s);
  }

  lemma {:induction false} NoUnderscores(s: string)
    requires forall i :: 0 <= i < |s| ==> s[i] != '_'
    ensures WithoutUnderscores(s) == s
  {
    if s != "" {
      NoUnderscores(s[1..]);
      assert s == [s[0]] + s[1..];
    }
  }
}
