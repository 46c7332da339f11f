/** The marker scanner that cuts one aggregate description into one piece per activation count. */
module Descriptions {
  import opened Common
  import opened Decimal
  import opened Text

  /** A marker "(n)" found in a text: where it starts, where it ends, and n. */
  datatype Marker = Marker(start: nat, end: nat, count: nat)

  function DigitsFrom(s: string, i: nat): (e: nat)
    requires i <= |s|
    ensures i <= e <= |s| && (forall k :: i <= k < e ==> IsDigit(s[k])) && (e < |s| ==> !IsDigit(s[e]))
    decreases |s| - i
  {
    if i < |s| && IsDigit(s[i]) then DigitsFrom(s, i + 1) else i
  }

  /** The marker starting at i, if the pattern matches there. */
  function MarkerAt(s: string, i: nat): (m: Option<Marker>)
    requires i <= |s|
    ensures m.Some? ==> m.value.start == i && i + 2 < m.value.end <= |s|
  {
    if i < |s| && s[i] == '(' then
      var e := DigitsFrom(s, i + 1);
      if e > i + 1 && s[i + 1] != '0' && e < |s| && s[e] == ')'
      then Some(Marker(i, e + 1, Value(s[i + 1..e])))
      else None
    else None
  }

  /** Left-to-right scan from i, continuing after each marker. */
  function Scan(s: string, i: nat): seq<Marker>
    requires i <= |s|
    decreases |s| - i
  {
    if i == |s| then []
    else
      var m := MarkerAt(s, i);
      if m.Some? then [m.value] + Scan(s, m.value.end) else Scan(s, i + 1)
  }

  method FindMarkers(s: string) returns (markers: seq<Marker>)
    ensures markers == Scan(s, 0)
  {
    markers := [];
    var i := 0;
    while i < |s|
      invariant 0 <= i <= |s| && Scan(s, 0) == markers + Scan(s, i)
      decreases |s| - i
    {
      var m := MarkerAt(s, i);
      if m.Some? {
        markers := markers + [m.value];
        i := m.value.end;
      } else {
        i := i + 1;
      }
    }
  }

  function Counts(markers: seq<Marker>): (r: seq<int>)
    ensures |r| == |markers|
  {
    seq(|markers|, k requires 0 <= k < |markers| => markers[k].count as int)
  }

  function PieceEnd(s: string, markers: seq<Marker>, k: nat): nat
    requires k < |markers|
  {
    if k + 1 < |markers| then markers[k + 1].start else |s|
  }

  /** The markers of a text, as the scanner finds them, in order and inside the text. */
  ghost predicate InOrder(s: string, markers: seq<Marker>) {
    && (forall k :: 0 <= k < |markers| ==> markers[k].start < markers[k].end <= |s|)
    && (forall k :: 0 <= k < |markers| - 1 ==> markers[k].end <= markers[k + 1].start)
  }

  lemma {:induction false} ScanInOrder(s: string, i: nat)
    requires i <= |s|
    ensures InOrder(s, Scan(s, i))
    ensures Scan(s, i) != [] ==> i <= Scan(s, i)[0].start
    decreases |s| - i
  {
    if i < |s| {
      var m := MarkerAt(s, i);
      if m.Some? { ScanInOrder(s, m.value.end); } else { ScanInOrder(s, i + 1); }
    }
  }

  /** No marker starts strictly inside another: its characters after the first are digits and ")". */
  lemma NoMarkerInside(s: string, i: nat, j: nat)
    requires i <= |s| && MarkerAt(s, i).Some? && i < j < MarkerAt(s, i).value.end
    ensures MarkerAt(s, j).None?
  {
    var e := DigitsFrom(s, i + 1);
    assert j < e ==> IsDigit(s[j]);
  }

  /** The scanner finds exactly the positions where the pattern matches. */
  lemma {:induction false} ScanFindsAll(s: string, i: nat, j: nat)
    requires i <= j <= |s|
    ensures MarkerAt(s, j).Some? <==> exists k :: 0 <= k < |Scan(s, i)| && Scan(s, i)[k].start == j
    ensures forall k :: 0 <= k < |Scan(s, i)| && Scan(s, i)[k].start == j ==> Some(Scan(s, i)[k]) == MarkerAt(s, j)
    decreases |s| - i
  {
    if i < |s| {
      var m := MarkerAt(s, i);
      var all := Scan(s, i);
      if m.Some? {
        var rest := Scan(s, m.value.end);
        assert all == [m.value] + rest;
        ScanInOrder(s, m.value.end);
        StartsFrom(s, m.value.end);
        if j >= m.value.end {
          ScanFindsAll(s, m.value.end, j);
          if MarkerAt(s, j).Some? {
            var k :| 0 <= k < |rest| && rest[k].start == j;
            assert all[k + 1].start == j;
          }
        } else if j > i {
          NoMarkerInside(s, i, j);
        } else {
          assert all[0].start == j;
        }
      } else {
        if j > i { ScanFindsAll(s, i + 1, j); } else { StartsFrom(s, i + 1); }
      }
    }
  }

  lemma {:induction false} StartsFrom(s: string, i: nat)
    requires i <= |s|
    ensures forall k :: 0 <= k < |Scan(s, i)| ==> Scan(s, i)[k].start >= i
    decreases |s| - i
  {
    if i < |s| {
      var m := MarkerAt(s, i);
      if m.Some? { StartsFrom(s, m.value.end); } else { StartsFrom(s, i + 1); }
    }
  }

  /** From one marker to the next, before stripping. */
  function RawPiece(s: string, markers: seq<Marker>, k: nat): string
    requires k < |markers| && InOrder(s, markers)
  {
    s[markers[k].start..PieceEnd(s, markers, k)]
  }

  /** `_split_aggregate_tier_descriptions`: None is a rejected description. */
  function SplitDescriptions(value: Option<string>, activation: seq<int>): Option<seq<Option<string>>> {
    match value
    case None => Some(seq(|activation|, _ => None))
    case Some(s) =>
      var markers := Scan(s, 0);
      ScanInOrder(s, 0);
      if Counts(markers) != activation then None
      else Some(seq(|markers|, k requires 0 <= k < |markers| => Some(Strip(RawPiece(s, markers, k)))))
  }

  // ---- What splitting promises -----------------------------------------------------------

  function Concatenated(s: string, markers: seq<Marker>, k: nat): string
    requires k <= |markers| && InOrder(s, markers)
    decreases |markers| - k
  {
    if k == |markers| then "" else RawPiece(s, markers, k) + Concatenated(s, markers, k + 1)
  }

  /** The unstripped pieces, put together, are the text from the first marker on. */
  lemma {:induction false} PiecesCoverText(s: string, markers: seq<Marker>, k: nat)
    requires k < |markers| && InOrder(s, markers)
    ensures Concatenated(s, markers, k) == s[markers[k].start..]
    decreases |markers| - k
  {
    if k + 1 < |markers| {
      PiecesCoverText(s, markers, k + 1);
      var a, b := markers[k].start, markers[k + 1].start;
      assert s[a..] == s[a..b] + s[b..];
    } else {
      assert Concatenated(s, markers, k + 1) == "";
    }
  }

  /** The text a marker stands for. */
  function MarkerText(count: nat): string { "(" + Print(count) + ")" }

  lemma MarkerIsItsText(s: string, i: nat)
    requires i <= |s| && MarkerAt(s, i).Some?
    ensures var m := MarkerAt(s, i).value; s[i..m.end] == MarkerText(m.count) && m.count > 0
  {
    var e := DigitsFrom(s, i + 1);
    var digits := s[i + 1..e];
    assert IsPositiveNumeral(digits);
    PrintOfValue(digits);
    assert s[i..e + 1] == "(" + digits + ")";
  }

  lemma {:induction false} DigitsEnd(s: string, i: nat, e: nat)
    requires i <= e < |s| && !IsDigit(s[e]) && forall k :: i <= k < e ==> IsDigit(s[k])
    ensures DigitsFrom(s, i) == e
    decreases e - i
  {
    if i < e { DigitsEnd(s, i + 1, e); }
  }

  lemma InBrackets(s: string, i: nat, inner: string)
    requires i + |inner| + 2 <= |s| && s[i..i + |inner| + 2] == "(" + inner + ")"
    ensures s[i] == '(' && s[i + 1..i + 1 + |inner|] == inner && s[i + 1 + |inner|] == ')'
  {
    var n := |inner|;
    var front, text := "(" + inner, s[i..i + n + 2];
    SplitsBack(front, ")");
    SplitsBack("(", inner);
    assert |front| == n + 1 && text == front + ")";
    assert text[0] == front[0] == '(';
    assert s[i] == text[0] && s[i + n + 1] == text[n + 1];
    forall k | 0 <= k < n ensures s[i + 1 + k] == inner[k] {
      assert s[i + 1 + k] == text[k + 1] == text[..n + 1][k + 1] == front[1..][k];
    }
  }

  /** Wherever a positive numeral stands in brackets, the pattern matches and gives its number. */
  lemma BracketsAreFound(s: string, i: nat, digits: string)
    requires IsPositiveNumeral(digits) && i + |digits| + 2 <= |s| && s[i..i + |digits| + 2] == "(" + digits + ")"
    ensures MarkerAt(s, i) == Some(Marker(i, i + |digits| + 2, Value(digits)))
  {
    hide *;
    InBrackets(s, i, digits);
    NumeralMatches(s, i, digits);
  }

  lemma NumeralMatches(s: string, i: nat, digits: string)
    requires IsPositiveNumeral(digits) && i + |digits| + 2 <= |s|
    requires s[i] == '(' && s[i + 1..i + 1 + |digits|] == digits && s[i + 1 + |digits|] == ')'
    ensures MarkerAt(s, i) == Some(Marker(i, i + |digits| + 2, Value(digits)))
  {
    hide Value, DigitsFrom;
    var e := i + 1 + |digits|;
    forall k | i + 1 <= k < e ensures IsDigit(s[k]) { assert s[k] == s[i + 1..e][k - i - 1]; }
    assert s[i + 1] == s[i + 1..e][0];
    DigitsEnd(s, i + 1, e);
  }

  lemma {:induction false} DigitsInPiece(s: string, a: nat, b: nat, i: nat)
    requires a <= i <= b <= |s|
    ensures DigitsFrom(s[a..b], i - a) == if DigitsFrom(s, i) <= b then DigitsFrom(s, i) - a else b - a
    decreases b - i
  {
    if i < b && IsDigit(s[i]) { DigitsInPiece(s, a, b, i + 1); }
  }

  /** A marker of a piece is a marker of the whole text. */
  lemma MarkerOfPiece(s: string, a: nat, b: nat, j: nat)
    requires a <= b <= |s| && j <= b - a && MarkerAt(s[a..b], j).Some?
    ensures MarkerAt(s, a + j).Some?
  {
    DigitsInPiece(s, a, b, a + j + 1);
  }

  /**
   An accepted description has one piece per count; the k-th unstripped piece starts with "(count_k)"
   and contains no further marker.
   */
  lemma PiecesStartWithTheirCount(s: string, activation: seq<int>, k: nat)
    requires SplitDescriptions(Some(s), activation).Some? && k < |activation|
    ensures var markers := Scan(s, 0);
            && InOrder(s, markers) && |markers| == |activation| && activation[k] > 0
            && MarkerText(activation[k]) <= RawPiece(s, markers, k)
            && (forall j :: 0 < j <= |RawPiece(s, markers, k)| ==> MarkerAt(RawPiece(s, markers, k), j).None?)
            && SplitDescriptions(Some(s), activation).value[k] == Some(Strip(RawPiece(s, markers, k)))
  {
    var markers := Scan(s, 0);
    ScanInOrder(s, 0);
    assert Counts(markers)[k] == activation[k];
    var start, end := markers[k].start, PieceEnd(s, markers, k);
    var piece := RawPiece(s, markers, k);
    ScanFindsAll(s, 0, start);
    MarkerIsItsText(s, start);
    assert MarkerAt(s, start).value == markers[k];
    SliceOfSlice(s, start, markers[k].end, end);
    forall j | 0 < j <= |piece| ensures MarkerAt(piece, j).None? {
      if MarkerAt(piece, j).Some? {
        MarkerOfPiece(s, start, end, j);
        ScanFindsAll(s, 0, start + j);
        var q :| 0 <= q < |markers| && markers[q].start == start + j;
        BetweenNeighbours(s, markers, k, q);
      }
    }
  }

  lemma SliceOfSlice(s: string, a: nat, b: nat, c: nat)
    requires a <= b <= c <= |s|
    ensures s[a..c][..b - a] == s[a..b]
  {
  }

  /** A marker that starts after one and before the next does not exist. */
  lemma BetweenNeighbours(s: string, markers: seq<Marker>, k: nat, q: nat)
    requires InOrder(s, markers) && k < |markers| && q < |markers|
    ensures markers[q].start <= markers[k].start || markers[q].start >= PieceEnd(s, markers, k) || q == k
  {
    if q > k + 1 { StartsGrow(s, markers, k + 1, q); }
    if q < k { StartsGrow(s, markers, q, k); }
  }

  lemma {:induction false} StartsGrow(s: string, markers: seq<Marker>, a: nat, b: nat)
    requires InOrder(s, markers) && a <= b < |markers|
    ensures markers[a].start <= markers[b].start
    decreases b - a
  {
    if a < b { StartsGrow(s, markers, a + 1, b); }
  }

  /** Stripping a piece removes nothing but trailing blanks, so the marker stays in front. */
  lemma StripKeepsMarker(piece: string, count: nat)
    requires MarkerText(count) <= piece
    ensures MarkerText(count) <= Strip(piece) && Strip(piece) <= piece
  {
    var m := MarkerText(count);
    assert piece[0] == m[0] == '(';
    assert LStrip(piece) == piece;
    assert piece[|m| - 1] == m[|m| - 1] == ')';
    RStripKeeps(piece, |m| - 1);
  }

  lemma {:induction false} RStripKeeps(s: string, k: nat)
    requires k < |s| && !IsBlank(s[k])
    ensures |RStrip(s)| > k
  {
    if IsBlank(s[|s| - 1]) { RStripKeeps(s[..|s| - 1], k); }
  }
}
