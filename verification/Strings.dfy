/** Text in the Python manner: lower case, whitespace, and lines. */
module Strings {
  function LowerChar(c: char): char {
    if 'A' <= c <= 'Z' then c - 'A' + 'a' else c
  }

  function Lower(s: string): (r: string)
    ensures |r| == |s|
  {
    seq(|s|, i requires 0 <= i < |s| => LowerChar(s[i]))
  }

  /** The same character, or one letter of A to Z in either case. */
  predicate SameLetter(a: char, b: char) {
    a == b || ('A' <= a <= 'Z' && b as int == a as int + 32) || ('A' <= b <= 'Z' && a as int == b as int + 32)
  }

  /** The same text but for case. */
  predicate SameText(a: string, b: string) {
    |a| == |b| && forall k :: 0 <= k < |a| ==> SameLetter(a[k], b[k])
  }

  lemma LowerMeans(a: string, b: string)
    ensures Lower(a) == Lower(b) <==> SameText(a, b)
  {
    if |a| == |b| {
      forall k | 0 <= k < |a| ensures Lower(a)[k] == Lower(b)[k] <==> SameLetter(a[k], b[k]) {
      }
    }
  }

  /** Python's whitespace. */
  predicate IsSpace(c: char) {
    || 0x09 <= c as int <= 0x0D || 0x1C <= c as int <= 0x20 || c as int in {0x85, 0xA0, 0x1680}
    || 0x2000 <= c as int <= 0x200A || c as int in {0x2028, 0x2029, 0x202F, 0x205F, 0x3000}
  }

  /** Character by character: tab to carriage return, the four separators, the blank, and the wide ones. */
  lemma SpacesExactly(c: char)
    ensures IsSpace(c) <==> c as int in {
              9, 10, 11, 12, 13, 28, 29, 30, 31, 32, 133, 160, 5760, 8192, 8193, 8194, 8195, 8196, 8197, 8198, 8199,
              8200, 8201, 8202, 8232, 8233, 8239, 8287, 12288}
  {
  }

  function TrimLeft(s: string): string {
    if s != "" && IsSpace(s[0]) then TrimLeft(s[1..]) else s
  }

  function TrimRight(s: string): string {
    if s != "" && IsSpace(s[|s| - 1]) then TrimRight(s[..|s| - 1]) else s
  }

  /** str.strip. */
  function Strip(s: string): string {
    TrimRight(TrimLeft(s))
  }

  predicate Blank(s: string) {
    forall k :: 0 <= k < |s| ==> IsSpace(s[k])
  }

  /** t is s less the blanks around it, and something is left. */
  ghost predicate Stripped(s: string, t: string) {
    exists i: nat :: StrippedAt(s, t, i)
  }

  predicate StrippedAt(s: string, t: string, i: nat) {
    && t != "" && !IsSpace(t[0]) && !IsSpace(t[|t| - 1])
    && i + |t| <= |s| && t == s[i..i + |t|] && Blank(s[..i]) && Blank(s[i + |t|..])
  }

  /** Stripping leaves nothing of a blank text, and of another what lies between the blanks around it. */
  lemma StripMeans(s: string)
    ensures Strip(s) == "" <==> Blank(s)
    ensures forall t :: Stripped(s, t) <==> t == Strip(s) && t != ""
  {
    var i := TrimLeftMeans(s);
    var rest := TrimLeft(s);
    var n := TrimRightMeans(rest);
    var t := Strip(s);
    assert rest[n..] == s[i + n..] && rest[..n] == s[i..i + n];
    if t == "" {
      assert s == s[..i] + rest;
    } else {
      assert s[i] == t[0];
      assert StrippedAt(s, t, i);
    }
    forall u, j: nat | StrippedAt(s, u, j) ensures t != "" && u == t {
      assert s[j] == u[0];
      if t != "" {
        StrippedOnce(s, t, i, u, j);
      }
    }
  }

  lemma StrippedOnce(s: string, t: string, i: nat, u: string, j: nat)
    requires StrippedAt(s, t, i) && StrippedAt(s, u, j)
    ensures t == u
  {
    EdgesOf(s, t, i);
    EdgesOf(s, u, j);
    assert i == j;
    assert i + |t| == j + |u|;
  }

  lemma EdgesOf(s: string, t: string, i: nat)
    requires StrippedAt(s, t, i)
    ensures !IsSpace(s[i]) && !IsSpace(s[i + |t| - 1])
    ensures forall k :: 0 <= k < |s| && !IsSpace(s[k]) ==> i <= k < i + |t|
  {
    assert s[i] == t[0] && s[i + |t| - 1] == t[|t| - 1];
    var before, after := s[..i], s[i + |t|..];
    assert forall k :: 0 <= k < i ==> s[k] == before[k];
    assert forall k :: i + |t| <= k < |s| ==> s[k] == after[k - (i + |t|)];
  }

  lemma {:induction false} TrimLeftMeans(s: string) returns (i: nat)
    ensures i <= |s| && TrimLeft(s) == s[i..] && Blank(s[..i]) && (i < |s| ==> !IsSpace(s[i]))
  {
    if s != "" && IsSpace(s[0]) {
      var j := TrimLeftMeans(s[1..]);
      i := j + 1;
      assert s[..i] == [s[0]] + s[1..][..j];
    } else {
      i := 0;
    }
  }

  lemma {:induction false} TrimRightMeans(s: string) returns (n: nat)
    ensures n <= |s| && TrimRight(s) == s[..n] && Blank(s[n..]) && (n > 0 ==> !IsSpace(s[n - 1]))
  {
    if s != "" && IsSpace(s[|s| - 1]) {
      n := TrimRightMeans(s[..|s| - 1]);
      assert s[n..] == s[..|s| - 1][n..] + [s[|s| - 1]];
    } else {
      n := |s|;
    }
  }

  /** text.split("\n"). */
  function Split(text: string): (lines: seq<string>)
    ensures lines != []
  {
    if text == "" then [""]
    else
      var rest := Split(text[1..]);
      if text[0] == '\n' then [""] + rest else [[text[0]] + rest[0]] + rest[1..]
  }

  /** "\n".join(lines). */
  function Join(lines: seq<string>): string {
    if lines == [] then "" else if |lines| == 1 then lines[0] else lines[0] + "\n" + Join(lines[1..])
  }

  /** Splitting loses nothing, and no line holds a newline. */
  lemma {:induction false} JoinSplit(text: string)
    ensures Join(Split(text)) == text
    ensures forall k :: 0 <= k < |Split(text)| ==> '\n' !in Split(text)[k]
  {
    if text != "" {
      var rest := Split(text[1..]);
      JoinSplit(text[1..]);
      assert text == [text[0]] + text[1..];
      if text[0] == '\n' {
        assert ([""] + rest)[1..] == rest;
      } else {
        var first := [text[0]] + rest[0];
        assert ([first] + rest[1..])[1..] == rest[1..];
        assert |rest| > 1 ==> Join(rest) == rest[0] + "\n" + Join(rest[1..]);
      }
    }
  }

  lemma {:induction false} JoinSplitsAt(lines: seq<string>, n: nat)
    requires 0 < n < |lines|
    ensures Join(lines) == Join(lines[..n]) + "\n" + Join(lines[n..])
  {
    if n > 1 {
      JoinSplitsAt(lines[1..], n - 1);
      assert lines[1..][..n - 1] == lines[..n][1..] && lines[1..][n - 1..] == lines[n..];
    } else {
      assert lines[..1] == [lines[0]];
    }
  }

  /** A run of lines, joined, is a part of the text that begins and ends at line breaks. */
  ghost predicate Within(text: string, part: string) {
    exists before: string, after: string :: Surround(text, before, part, after)
  }

  predicate Surround(text: string, before: string, part: string, after: string) {
    && text == before + part + after
    && (before == "" || before[|before| - 1] == '\n') && (after == "" || after[0] == '\n')
  }

  lemma RunIsWithin(lines: seq<string>, i: nat, j: nat)
    requires i < j <= |lines|
    ensures Within(Join(lines), Join(lines[i..j]))
  {
    var before := WhatPrecedes(lines, i);
    var after := WhatFollows(lines, i, j);
    WithinBetween(Join(lines), before, Join(lines[i..]), Join(lines[i..j]), after);
  }

  lemma WithinBetween(text: string, before: string, rest: string, part: string, after: string)
    requires text == before + rest && rest == part + after
    requires (before == "" || before[|before| - 1] == '\n') && (after == "" || after[0] == '\n')
    ensures Within(text, part)
  {
    assert Surround(text, before, part, after);
  }

  lemma WhatPrecedes(lines: seq<string>, i: nat) returns (before: string)
    requires i < |lines|
    ensures Join(lines) == before + Join(lines[i..]) && (before == "" || before[|before| - 1] == '\n')
  {
    if i == 0 {
      before := "";
      assert lines[0..] == lines;
    } else {
      before := Join(lines[..i]) + "\n";
      JoinSplitsAt(lines, i);
    }
  }

  lemma WhatFollows(lines: seq<string>, i: nat, j: nat) returns (after: string)
    requires i < j <= |lines|
    ensures Join(lines[i..]) == Join(lines[i..j]) + after && (after == "" || after[0] == '\n')
  {
    if j == |lines| {
      after := "";
      assert lines[i..] == lines[i..j];
    } else {
      after := "\n" + Join(lines[j..]);
      JoinSplitsAt(lines[i..], j - i);
      assert lines[i..][..j - i] == lines[i..j] && lines[i..][j - i..] == lines[j..];
    }
  }
}
