/** String primitives that the source takes from Python: blanks, words, joining and stripping. */
module Text {
  /** White space that `str.split` and `str.strip` recognise, by code point. */
  predicate IsBlank(c: char) {
    var n := c as int;
    9 <= n <= 13 || 28 <= n <= 32 || n == 0x85 || n == 0xA0 || n == 0x1680 || 0x2000 <= n <= 0x200A
    || n == 0x2028 || n == 0x2029 || n == 0x202F || n == 0x205F || n == 0x3000
  }

  const ASCII_BLANKS := {' ', '\t', '\n', '\r', '\U{000B}', '\U{000C}', '\U{001C}', '\U{001D}', '\U{001E}', '\U{001F}'}

  const OTHER_BLANKS := {
    '\U{0085}', '\U{00A0}', '\U{1680}', '\U{2000}', '\U{2001}', '\U{2002}', '\U{2003}', '\U{2004}', '\U{2005}',
    '\U{2006}', '\U{2007}', '\U{2008}', '\U{2009}', '\U{200A}', '\U{2028}', '\U{2029}', '\U{202F}', '\U{205F}', '\U{3000}'}

  /** Exactly these characters are blank, among them the ideographic space. */
  lemma BlanksAre(c: char)
    ensures IsBlank(c) <==> c in ASCII_BLANKS || c in OTHER_BLANKS
  {
  }

  function WordLength(s: string): (n: nat)
    ensures n <= |s| && (forall i :: 0 <= i < n ==> !IsBlank(s[i])) && (n < |s| ==> IsBlank(s[n]))
  {
    if s == "" || IsBlank(s[0]) then 0 else 1 + WordLength(s[1..])
  }

  predicate IsWord(w: string) { w != "" && forall i :: 0 <= i < |w| ==> !IsBlank(w[i]) }

  predicate AllWords(ws: seq<string>) { forall i :: 0 <= i < |ws| ==> IsWord(ws[i]) }

  /** `s.split()`. */
  function Words(s: string): (ws: seq<string>)
    ensures AllWords(ws)
    decreases |s|
  {
    if s == "" then []
    else if IsBlank(s[0]) then Words(s[1..])
    else
      var n := WordLength(s);
      [s[..n]] + Words(s[n..])
  }

  function Join(separator: string, parts: seq<string>): string {
    if parts == [] then ""
    else if |parts| == 1 then parts[0]
    else parts[0] + separator + Join(separator, parts[1..])
  }

  /** White space runs become single spaces; leading and trailing white space goes. */
  function Collapse(s: string): string { Join(" ", Words(s)) }

  predicate NoDoubleBlank(s: string) {
    forall i :: 0 <= i < |s| - 1 ==> !(IsBlank(s[i]) && IsBlank(s[i + 1]))
  }

  lemma {:induction false} JoinedWords(ws: seq<string>)
    requires AllWords(ws)
    ensures NoDoubleBlank(Join(" ", ws))
    ensures ws != [] ==> Join(" ", ws) != "" && !IsBlank(Join(" ", ws)[0])
  {
    if |ws| >= 2 {
      JoinedWords(ws[1..]);
      assert IsWord(ws[0]);
      var rest := Join(" ", ws[1..]);
      var all := Join(" ", ws);
      assert all == ws[0] + (" " + rest);
      forall i | 0 <= i < |all| - 1 ensures !(IsBlank(all[i]) && IsBlank(all[i + 1])) {
        if i < |ws[0]| {
          assert all[i] == ws[0][i];
        } else if i == |ws[0]| {
          assert all[i + 1] == rest[0];
        } else {
          assert all[i] == rest[i - |ws[0]| - 1] && all[i + 1] == rest[i - |ws[0]|];
        }
      }
      assert all[0] == ws[0][0];
    } else if |ws| == 1 {
      assert IsWord(ws[0]);
    }
  }

  lemma CollapseShape(s: string)
    ensures NoDoubleBlank(Collapse(s))
    ensures Collapse(s) != "" ==> !IsBlank(Collapse(s)[0])
  {
    JoinedWords(Words(s));
  }

  function RStrip(s: string): (r: string)
    ensures r <= s && (r == "" || !IsBlank(r[|r| - 1]))
    ensures forall i :: |r| <= i < |s| ==> IsBlank(s[i])
  {
    if s != "" && IsBlank(s[|s| - 1]) then RStrip(s[..|s| - 1]) else s
  }

  function LStrip(s: string): (r: string)
    ensures |r| <= |s| && r == s[|s| - |r|..] && (r == "" || !IsBlank(r[0]))
    ensures forall i :: 0 <= i < |s| - |r| ==> IsBlank(s[i])
  {
    if s != "" && IsBlank(s[0]) then LStrip(s[1..]) else s
  }

  /** `s.strip()`. */
  function Strip(s: string): string { RStrip(LStrip(s)) }

  predicate AllBlank(s: string) { forall i :: 0 <= i < |s| ==> IsBlank(s[i]) }

  lemma LStripSplits(s: string) returns (before: string)
    ensures AllBlank(before) && s == before + LStrip(s) && (LStrip(s) != "" ==> !IsBlank(LStrip(s)[0]))
  {
    before := s[..|s| - |LStrip(s)|];
  }

  lemma RStripSplits(s: string) returns (after: string)
    ensures AllBlank(after) && s == RStrip(s) + after
    ensures RStrip(s) != "" ==> RStrip(s)[0] == s[0] && !IsBlank(RStrip(s)[|RStrip(s)| - 1])
  {
    after := s[|RStrip(s)|..];
  }

  /** Stripping takes blanks from both ends, all of them, and nothing else. */
  lemma StripIsExact(s: string) returns (before: string, after: string)
    ensures AllBlank(before) && AllBlank(after) && s == before + Strip(s) + after
    ensures Strip(s) != "" ==> !IsBlank(Strip(s)[0]) && !IsBlank(Strip(s)[|Strip(s)| - 1])
  {
    hide LStrip, RStrip, AllBlank, IsBlank;
    before := LStripSplits(s);
    after := RStripSplits(LStrip(s));
    var l, r := LStrip(s), Strip(s);
    assert before + (r + after) == before + r + after;
    assert r != "" ==> l != "";
  }

  /** Words with stretches of blanks around and between them. */
  function Spread(blanks: seq<string>, ws: seq<string>): string
    requires |blanks| == |ws| + 1
  {
    if ws == [] then blanks[0] else blanks[0] + ws[0] + Spread(blanks[1..], ws[1..])
  }

  /** Blanks surround the words, and at least one stands between any two. */
  predicate Separates(blanks: seq<string>, ws: seq<string>) {
    && |blanks| == |ws| + 1 && (forall i :: 0 <= i < |blanks| ==> AllBlank(blanks[i]))
    && forall i :: 0 < i < |ws| ==> blanks[i] != ""
  }

  lemma WordComesFirst(blanks: seq<string>, ws: seq<string>)
    requires |blanks| == |ws| + 1 && AllWords(ws) && ws != [] && blanks[0] == ""
    ensures Spread(blanks, ws) != "" && !IsBlank(Spread(blanks, ws)[0])
  {
    assert IsWord(ws[0]);
    assert Spread(blanks, ws)[0] == ws[0][0];
  }

  /** Splitting into words loses nothing but blanks, joins no two words and cuts none. */
  lemma {:induction false} WordsAreExact(s: string) returns (blanks: seq<string>)
    ensures Separates(blanks, Words(s)) && Spread(blanks, Words(s)) == s
    decreases |s|
  {
    if s == "" {
      blanks := [""];
    } else if IsBlank(s[0]) {
      var rest := WordsAreExact(s[1..]);
      blanks := [[s[0]] + rest[0]] + rest[1..];
      assert blanks[1..] == rest[1..];
      if Words(s) == [] {
        assert s == [s[0]] + s[1..];
      } else {
        assert Spread(blanks, Words(s)) == [s[0]] + Spread(rest, Words(s[1..]));
      }
    } else {
      var n := WordLength(s);
      var rest := WordsAreExact(s[n..]);
      var ws := Words(s[n..]);
      blanks := [""] + rest;
      assert blanks[1..] == rest && Words(s)[1..] == ws;
      if ws != [] {
        assert IsBlank(s[n..][0]);
        if rest[0] == "" { WordComesFirst(rest, ws); }
      }
      assert s == "" + s[..n] + s[n..];
    }
  }

  lemma RStripCutsOne(s: string)
    requires NoDoubleBlank(s)
    ensures |RStrip(s)| >= |s| - 1
  {
    if s != "" && IsBlank(s[|s| - 1]) && |s| > 1 {
      assert !IsBlank(s[|s| - 2]);
    }
  }

  // ---- Order of strings ------------------------------------------------------------------

  /** The order in which `sorted` lists strings. */
  predicate Less(a: string, b: string) {
    b != "" && (a == "" || a[0] < b[0] || (a[0] == b[0] && Less(a[1..], b[1..])))
  }

  /** Of two strings, a proper prefix comes first, or else the one with the smaller first differing character. */
  lemma {:induction false} LessIff(a: string, b: string, n: nat)
    requires n <= |a| && n <= |b| && a[..n] == b[..n] && (n == |a| || n == |b| || a[n] != b[n])
    ensures Less(a, b) <==> n < |b| && (n == |a| || a[n] < b[n])
  {
    if n > 0 {
      assert a[0] == a[..n][0] == b[..n][0] == b[0];
      assert a[1..][..n - 1] == a[..n][1..] == b[..n][1..] == b[1..][..n - 1];
      LessIff(a[1..], b[1..], n - 1);
    }
  }

  lemma {:induction false} LessIsTotal(a: string, b: string)
    ensures a == b || Less(a, b) || Less(b, a)
    ensures !(Less(a, b) && Less(b, a)) && !Less(a, a)
  {
    if a != "" && b != "" {
      LessIsTotal(a[1..], b[1..]);
      assert a == [a[0]] + a[1..] && b == [b[0]] + b[1..];
    }
    if a != "" { LessIsTotal(a[1..], a[1..]); }
  }

  lemma {:induction false} LessIsTransitive(a: string, b: string, c: string)
    requires Less(a, b) && Less(b, c)
    ensures Less(a, c)
  {
    if a != "" && a[0] == b[0] == c[0] { LessIsTransitive(a[1..], b[1..], c[1..]); }
  }
}
