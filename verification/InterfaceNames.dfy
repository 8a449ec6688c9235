/**
 Interface names as people write them: which abbreviations name one interface, and
 which lines are headers.
 */
module InterfaceNames {
  import opened Wrappers
  import opened Strings
  import opened Stanza

  /** An alphabetic lead: a letter, then letters and hyphens. */
  predicate IsLead(p: string) {
    && p != "" && ('a' <= p[0] <= 'z' || 'A' <= p[0] <= 'Z')
    && forall k :: 0 < k < |p| ==> 'a' <= p[k] <= 'z' || 'A' <= p[k] <= 'Z' || p[k] == '-'
  }

  /** What may follow it: nothing, or something that neither goes on with the lead nor ends in a blank. */
  predicate IsRest(x: string) {
    && '\n' !in x
    && (x != "" ==> !('a' <= x[0] <= 'z' || 'A' <= x[0] <= 'Z' || x[0] == '-') && !IsSpace(x[|x| - 1]))
  }

  lemma {:induction false} RunOfLead(p: string, x: string)
    requires IsRest(x) && forall k :: 0 <= k < |p| ==> 'a' <= p[k] <= 'z' || 'A' <= p[k] <= 'Z' || p[k] == '-'
    ensures LetterRun(p + x) == |p|
  {
    if p == "" {
      assert p + x == x;
    } else {
      assert (p + x)[1..] == p[1..] + x;
      RunOfLead(p[1..], x);
    }
  }

  lemma NotStripped(s: string)
    requires s != "" && !IsSpace(s[0]) && !IsSpace(s[|s| - 1])
    ensures Strip(s) == s
  {
  }

  lemma LeadAndRest(p: string, x: string)
    requires IsLead(p) && IsRest(x)
    ensures Strip(p + x) == p + x && SplitPrefix(p + x) == (p, x)
  {
    var s := p + x;
    assert s[1..] == p[1..] + x;
    RunOfLead(p[1..], x);
    NoLetterIsBlank(s[0]);
    if x == "" {
      assert s[|s| - 1] == p[|p| - 1];
      NoLetterIsBlank(p[|p| - 1]);
    }
    NotStripped(s);
    assert s[..|p|] == p && s[|p|..] == x;
    assert '\n' !in p by {
      forall k | 0 <= k < |p| ensures p[k] != '\n' {
        NoLetterIsBlank(p[k]);
      }
    }
  }

  lemma NoLetterIsBlank(c: char)
    requires 'a' <= c <= 'z' || 'A' <= c <= 'Z' || c == '-'
    ensures !IsSpace(c) && c != '\n'
  {
  }

  /** Two names with alphabetic leads name one interface exactly when what follows the leads is the same and one
      lead abbreviates the other, whatever the case; or they are the same text but for case. */
  lemma NamesMatchExactly(p: string, x: string, q: string, y: string)
    requires IsLead(p) && IsRest(x) && IsLead(q) && IsRest(y)
    ensures NamesMatch(p + x, q + y) <==>
            || (Lower(x) == Lower(y) && (Lower(p) <= Lower(q) || Lower(q) <= Lower(p)))
            || Lower(p + x) == Lower(q + y)
  {
    LeadAndRest(p, x);
    LeadAndRest(q, y);
  }

  /** So another number is another interface, however its type is written. */
  lemma NumbersDecide(p: string, x: string, q: string, y: string)
    requires IsLead(p) && IsRest(x) && IsLead(q) && IsRest(y) && |x| == |y| && Lower(x) != Lower(y)
    ensures !NamesMatch(p + x, q + y)
  {
    NamesMatchExactly(p, x, q, y);
    assert Lower(p + x)[|p|..] == Lower(x);
    assert Lower(q + y)[|q|..] == Lower(y);
  }

  // --------------------------------------------------------------------- headers

  predicate Plain(name: string) {
    name != "" && !IsSpace(name[0]) && !IsSpace(name[|name| - 1])
  }

  /** "interface NAME" at the start of a line, in any case and after any blank, is the header of NAME. */
  lemma ColumnHeaderNames(word: string, blank: char, name: string)
    requires Lower(word) == "interface" && IsSpace(blank) && Plain(name)
    ensures ColumnHeader(word + [blank] + name) == Some(name)
    ensures IndentedHeader(word + [blank] + name) == None
  {
    var line := word + [blank] + name;
    assert |word| == 9;
    assert line[..9] == word && line[9] == blank && line[9..] == [blank] + name;
    BlankBefore(blank, name);
    assert LowerChar(word[0]) == 'i' by {
      assert Lower(word)[0] == 'i';
    }
  }

  lemma BlankBefore(blank: char, name: string)
    requires IsSpace(blank) && Plain(name)
    ensures Strip([blank] + name) == name
  {
    assert ([blank] + name)[1..] == name;
    NotStripped(name);
  }

  /** From i on the line is "interface" in any case, blanks, the name, and blanks. */
  ghost predicate HeaderAt(line: string, name: string, i: nat) {
    && i + 9 < |line| && Lower(line[i..i + 9]) == "interface" && IsSpace(line[i + 9])
    && Stripped(line[i + 9..], name)
  }

  /** Column-0 headers are exactly the lines that are so from the start, indented ones exactly those that are so
      after blanks, as many as the indent. */
  lemma HeadersExactly(line: string, name: string, n: nat)
    ensures ColumnHeader(line) == Some(name) <==> HeaderAt(line, name, 0)
    ensures IndentedHeader(line) == Some((n, name)) <==> n > 0 && HeaderAt(line, name, n) && Blank(line[..n])
  {
    ColumnHeaderMeans(line, name);
    LeadMeans(line);
    var lead := LeadingSpace(line);
    ColumnHeaderMeans(line[lead..], name);
    assert HeaderAt(line[lead..], name, 0) <==> HeaderAt(line, name, lead) by {
      if lead + 9 < |line| {
        assert line[lead..][..9] == line[lead..lead + 9] && line[lead..][9..] == line[lead + 9..];
      }
    }
    if HeaderAt(line, name, n) && Blank(line[..n]) {
      WordIsNoBlank(line, n);
      assert forall k :: 0 <= k < n ==> line[k] == line[..n][k];
      assert n == lead;
    }
  }

  lemma ColumnHeaderMeans(line: string, name: string)
    ensures ColumnHeader(line) == Some(name) <==> HeaderAt(line, name, 0)
  {
    if |line| > 9 {
      StripMeans(line[9..]);
      assert line[0..9] == line[..9];
    }
  }

  lemma WordIsNoBlank(line: string, n: nat)
    requires n + 9 < |line| && Lower(line[n..n + 9]) == "interface"
    ensures !IsSpace(line[n])
  {
    assert Lower(line[n..n + 9])[0] == LowerChar(line[n]);
  }

  lemma {:induction false} LeadMeans(line: string)
    ensures Blank(line[..LeadingSpace(line)])
    ensures LeadingSpace(line) < |line| ==> !IsSpace(line[LeadingSpace(line)])
    ensures forall k :: 0 <= k < LeadingSpace(line) ==> IsSpace(line[k])
  {
    if line != "" && IsSpace(line[0]) {
      LeadMeans(line[1..]);
      assert line[..LeadingSpace(line)] == [line[0]] + line[1..][..LeadingSpace(line[1..])];
    }
  }

  /** "NAME {", with blanks around or without, opens a block called NAME. */
  lemma BlockHeaderNames(name: string)
    requires name != "" && forall k :: 0 <= k < |name| ==> !IsSpace(name[k])
    ensures NamedBlock(name + " {") == Some(name) && NamedBlock(name + "{") == Some(name)
  {
    NotStripped(name + " {");
    NotStripped(name + "{");
    assert (name + " {")[..|name| + 1] == name + " ";
    assert (name + "{")[..|name|] == name;
    assert (name + " ")[..|name|] == name;
    assert TrimRight(name) == name;
    assert TrimRight(name + " ") == name;
  }

  /** The line is blanks, the name, blanks, a brace and blanks. */
  predicate OpensBlock(line: string, name: string, i: nat, j: nat) {
    && i + |name| <= j < |line| && line[i..i + |name|] == name && line[j] == '{'
    && Blank(line[..i]) && Blank(line[i + |name|..j]) && Blank(line[j + 1..])
  }

  /** Exactly such lines open a block, of exactly that name: one without a blank in it. */
  lemma BlockHeadersExactly(line: string, name: string)
    ensures NamedBlock(line) == Some(name) <==>
            && name != "" && (forall k :: 0 <= k < |name| ==> !IsSpace(name[k]))
            && exists i: nat, j: nat :: OpensBlock(line, name, i, j)
  {
    StripMeans(line);
    if NamedBlock(line) == Some(name) {
      var t := Strip(line);
      assert Stripped(line, t);
      var i: nat :| StrippedAt(line, t, i);
      var n := TrimRightMeans(t[..|t| - 1]);
      PartOfPart(line, t, i, n);
      assert line[i + |t| - 1] == t[|t| - 1];
      assert OpensBlock(line, name, i, i + |t| - 1);
    }
    if name != "" && forall k :: 0 <= k < |name| ==> !IsSpace(name[k]) {
      forall i: nat, j: nat | OpensBlock(line, name, i, j) ensures NamedBlock(line) == Some(name) {
        OpenerIsNamed(line, name, i, j);
      }
    }
  }

  /** So an `interfaces` header is that word and a brace, with blanks around. */
  lemma InterfacesHeaderExactly(line: string)
    ensures InterfacesHeader(line) <==> exists i: nat, j: nat :: OpensBlock(line, "interfaces", i, j)
  {
    BlockHeadersExactly(line, "interfaces");
  }

  lemma PartOfPart(line: string, t: string, i: nat, n: nat)
    requires i + |t| <= |line| && t == line[i..i + |t|] && n < |t|
    ensures line[i..i + n] == t[..|t| - 1][..n]
    ensures line[i + n..i + |t| - 1] == t[..|t| - 1][n..]
  {
    assert forall k :: 0 <= k < |t| ==> t[k] == line[i + k];
  }

  lemma OpenerIsNamed(line: string, name: string, i: nat, j: nat)
    requires name != "" && (forall k :: 0 <= k < |name| ==> !IsSpace(name[k])) && OpensBlock(line, name, i, j)
    ensures NamedBlock(line) == Some(name)
  {
    var t := line[i..j + 1];
    assert t[0] == name[0] && t[|t| - 1] == '{';
    assert StrippedAt(line, t, i);
    StripMeans(line);
    assert Stripped(line, t);
    var gap := line[i + |name|..j];
    PartOfPart(line, t, i, |name|);
    assert t[..|t| - 1] == t[..|t| - 1][..|name|] + t[..|t| - 1][|name|..];
    TrimmedTail(name, gap);
  }

  lemma {:induction false} TrimmedTail(name: string, gap: string)
    requires name != "" && !IsSpace(name[|name| - 1]) && Blank(gap)
    ensures TrimRight(name + gap) == name
  {
    if gap == "" {
      assert name + gap == name;
    } else {
      var s := name + gap;
      assert s[|s| - 1] == gap[|gap| - 1];
      assert s[..|s| - 1] == name + gap[..|gap| - 1];
      TrimmedTail(name, gap[..|gap| - 1]);
    }
  }

  // ---------------------------------------------------------------------- blocks

  /** How a line of an indented header's block begins: with more blanks and tabs than the header, and then
      something; and it is not a lone '!'. */
  lemma DeeperMeans(line: string, indent: nat)
    ensures Deeper(line, indent) <==>
            Strip(line) != "!" && exists n :: indent < n < |line| && BeginsWithBlanks(line, n)
  {
    IndentMeans(line);
    if Indent(line) < |line| {
      assert BeginsWithBlanks(line, Indent(line));
    }
    forall n | 0 <= n < |line| && BeginsWithBlanks(line, n) ensures n == Indent(line) {
    }
  }

  predicate BeginsWithBlanks(line: string, n: nat)
    requires n < |line|
  {
    (forall k :: 0 <= k < n ==> line[k] == ' ' || line[k] == '\t') && line[n] != ' ' && line[n] != '\t'
  }

  lemma {:induction false} IndentMeans(line: string)
    ensures forall k :: 0 <= k < Indent(line) ==> line[k] == ' ' || line[k] == '\t'
    ensures Indent(line) < |line| ==> line[Indent(line)] != ' ' && line[Indent(line)] != '\t'
  {
    if line != "" && (line[0] == ' ' || line[0] == '\t') {
      IndentMeans(line[1..]);
      forall k | 0 <= k < Indent(line) ensures line[k] == ' ' || line[k] == '\t' {
        if k > 0 {
          assert line[k] == line[1..][k - 1];
        }
      }
    }
  }

  /** The empty names are dropped, and no other. */
  lemma {:induction false} CandidatesMembers(names: seq<string>, c: string)
    ensures c in Candidates(names) <==> c in names && c != ""
  {
    if names != [] {
      var init, last := names[..|names| - 1], names[|names| - 1];
      assert names == init + [last];
      CandidatesMembers(init, c);
    }
  }

  // ---------------------------------------------------------------- which headers

  /** The same name, blanks around it and case aside. */
  lemma ExactMatchMeans(a: string, b: string)
    ensures ExactMatch(a, b) <==> exists s, t :: Stripped(a, s) && Stripped(b, t) && SameText(s, t)
  {
    StripMeans(a);
    StripMeans(b);
    LowerMeans(Strip(a), Strip(b));
  }

  /** Blanks around either name make no difference. */
  lemma BlanksDoNotMatter(a: string, b: string, s: string, t: string)
    requires Stripped(a, s) && Stripped(b, t)
    ensures (PrefixMatch(a, b) <==> PrefixMatch(s, t)) && (ExactMatch(a, b) <==> ExactMatch(s, t))
  {
    StripMeans(a);
    StripMeans(b);
    NotStripped(s);
    NotStripped(t);
  }

  /** A name that begins with no letter abbreviates nothing and has no abbreviation. */
  lemma NoLeadNoAbbreviation(a: string, b: string, s: string)
    requires Stripped(a, s) && !('a' <= s[0] <= 'z' || 'A' <= s[0] <= 'Z')
    ensures !PrefixMatch(a, b) && !PrefixMatch(b, a)
  {
    StripMeans(a);
  }

  /** Which name a header has, and whether it names a candidate: in full or by abbreviation. */
  ghost predicate NamesOne(candidates: seq<string>, name: string, inFull: bool) {
    exists c :: c in candidates && if inFull then ExactMatch(name, c) else PrefixMatch(name, c)
  }

  /** Each way's headers: at column 0, or indented, with a name that is a candidate's, in full or abbreviated. */
  lemma HeaderExactly(lines: seq<string>, candidates: seq<string>, i: nat, inFull: bool)
    requires i < |lines|
    ensures IsHeader(if inFull then ColumnExact else ColumnPrefix, lines, candidates, i) <==>
            exists name :: HeaderAt(lines[i], name, 0) && NamesOne(candidates, name, inFull)
    ensures IsHeader(if inFull then IndentedExact else IndentedPrefix, lines, candidates, i) <==>
            exists name, n: nat :: n > 0 && HeaderAt(lines[i], name, n) && Blank(lines[i][..n])
                                   && NamesOne(candidates, name, inFull)
  {
    forall name, n: nat
      ensures ColumnHeader(lines[i]) == Some(name) <==> HeaderAt(lines[i], name, 0)
      ensures IndentedHeader(lines[i]) == Some((n, name)) <==>
              n > 0 && HeaderAt(lines[i], name, n) && Blank(lines[i][..n])
    {
      HeadersExactly(lines[i], name, n);
    }
    if IndentedHeader(lines[i]).Some? {
      var (n, name) := IndentedHeader(lines[i]).value;
      assert HeaderAt(lines[i], name, n);
    }
    if ColumnHeader(lines[i]).Some? {
      assert HeaderAt(lines[i], ColumnHeader(lines[i]).value, 0);
    }
  }

  /** And Junos ones: a block directly inside an `interfaces` block, with such a name. */
  lemma JunosHeaderExactly(lines: seq<string>, candidates: seq<string>, i: nat)
    requires i < |lines|
    ensures IsHeader(Junos, lines, candidates, i) <==>
            && (exists h :: 0 <= h < i && OpenSince(lines, h, i, 1))
            && exists name :: NamedBlock(lines[i]) == Some(name)
                              && (NamesOne(candidates, name, true) || NamesOne(candidates, name, false))
  {
    ScanMeans(lines, i, 1);
  }

  // ------------------------------------------------------------------ the search

  /** The first column-0 header of all, when it has exactly the name asked for, is the one wanted. */
  lemma OwnHeaderIsWanted(lines: seq<string>, i: nat, word: string, blank: char, name: string)
    requires i < |lines| && Lower(word) == "interface" && IsSpace(blank) && Plain(name)
    requires lines[i] == word + [blank] + name && forall k :: 0 <= k < i ==> ColumnHeader(lines[k]) == None
    ensures Wanted(ColumnExact, lines, [name], i)
  {
    ColumnHeaderNames(word, blank, name);
    NotStripped(name);
    assert name in [name] && ExactMatch(name, name);
  }

  /** A block called NAME directly inside an `interfaces` block is NAME's header. */
  lemma OwnBlockIsAHeader(lines: seq<string>, h: nat, i: nat, name: string)
    requires h < i < |lines| && OpenSince(lines, h, i, 1)
    requires name != "" && (forall k :: 0 <= k < |name| ==> !IsSpace(name[k])) && lines[i] in {name + " {", name + "{"}
    ensures IsHeader(Junos, lines, [name], i)
  {
    BlockHeaderNames(name);
    OpenIsInside(lines, h, i, 1);
    NotStripped(name);
    assert name in [name] && NamesMatch(name, name);
  }

  /** Column-0 headers come before indented ones and those before Junos blocks, and among the first two an exact
      name before an abbreviated one, wherever they stand in the text. */
  lemma PreferredWays(w: Way, lines: seq<string>, candidates: seq<string>, i: nat)
    requires Wanted(w, lines, candidates, i)
    ensures w != ColumnExact ==> NoHeader(ColumnExact, lines, candidates)
    ensures w.IndentedExact? || w.IndentedPrefix? || w.Junos? ==> NoHeader(ColumnPrefix, lines, candidates)
    ensures w.IndentedPrefix? || w.Junos? ==> NoHeader(IndentedExact, lines, candidates)
    ensures w.Junos? ==> NoHeader(IndentedPrefix, lines, candidates)
  {
    assert Priority(ColumnExact) < Priority(ColumnPrefix) < Priority(IndentedExact) < Priority(IndentedPrefix)
           < Priority(Junos);
  }

  /** A line's net of braces is how many more it opens than it closes. */
  lemma NetMeans(line: string)
    ensures Net(line) + multiset(line)['}'] == multiset(line)['{']
  {
    CountMeans(line, '{');
    CountMeans(line, '}');
  }

  lemma {:induction false} CountMeans(line: string, c: char)
    ensures Count(line, c) == multiset(line)[c]
  {
    if line != "" {
      assert line == [line[0]] + line[1..];
      CountMeans(line[1..], c);
    }
  }
}
