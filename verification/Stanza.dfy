/**
 One interface's own block cut out of a stored device config
 (netpath/configrx_stanza.py): five ways of finding its header, tried in order, and
 the scanners that say where each kind of block ends.
 */
module Stanza {
  import opened Wrappers
  import opened Strings

  // ------------------------------------------------------------------ headers

  const INTERFACE := "interface"

  /** The name in "interface NAME" at the start of a line. */
  function ColumnHeader(line: string): Option<string> {
    if |line| > 9 && Lower(line[..9]) == INTERFACE && IsSpace(line[9]) && Strip(line[9..]) != ""
        then Some(Strip(line[9..]))
    else None
  }

  function LeadingSpace(line: string): (n: nat)
    ensures n <= |line|
  {
    if line != "" && IsSpace(line[0]) then 1 + LeadingSpace(line[1..]) else 0
  }

  /** The indent and the name in an indented "interface NAME". */
  function IndentedHeader(line: string): Option<(nat, string)> {
    var n := LeadingSpace(line);
    if n == 0 then None
    else match ColumnHeader(line[n..]) case Some(name) => Some((n, name)) case None => None
  }

  predicate IsLetter(c: char) {
    'a' <= LowerChar(c) <= 'z'
  }

  /** The length of a name's alphabetic lead: a letter, then letters and hyphens. */
  function LeadLength(name: string): (n: nat)
    ensures n <= |name|
  {
    if name == "" || !IsLetter(name[0]) then 0 else 1 + LetterRun(name[1..])
  }

  function LetterRun(s: string): (n: nat)
    ensures n <= |s|
  {
    if s != "" && (IsLetter(s[0]) || s[0] == '-') then 1 + LetterRun(s[1..]) else 0
  }

  /** _split_prefix: the alphabetic lead and the rest; no lead when a line break follows it. */
  function SplitPrefix(name: string): (string, string) {
    var n := LeadLength(name);
    if '\n' in name then ("", name) else (name[..n], name[n..])
  }

  predicate ExactMatch(a: string, b: string) {
    Strip(a) != "" && Strip(b) != "" && Lower(Strip(a)) == Lower(Strip(b))
  }

  predicate PrefixMatch(a: string, b: string) {
    var (leadA, restA) := SplitPrefix(Strip(a));
    var (leadB, restB) := SplitPrefix(Strip(b));
    && leadA != "" && leadB != "" && Lower(restA) == Lower(restB)
    && (Lower(leadA) <= Lower(leadB) || Lower(leadB) <= Lower(leadA))
  }

  predicate NamesMatch(a: string, b: string) {
    ExactMatch(a, b) || PrefixMatch(a, b)
  }

  predicate AnyOf(candidates: seq<string>, name: string, exact: bool) {
    exists c :: c in candidates && if exact then ExactMatch(name, c) else PrefixMatch(name, c)
  }

  // ------------------------------------------------------ where blocks end

  predicate Bang(line: string) {
    Strip(line) == "!"
  }

  /** A line that a column-0 block goes on with. */
  predicate Continues(line: string) {
    (line != "" && line[0] in {' ', '\t'}) || Bang(line)
  }

  function RunEnd(lines: seq<string>, i: nat): (e: nat)
    requires i <= |lines|
    ensures i <= e <= |lines|
    decreases |lines| - i
  {
    if i < |lines| && Continues(lines[i]) then RunEnd(lines, i + 1) else i
  }

  /** Where a run ends without its trailing '!' lines. */
  function TrimBangs(lines: seq<string>, start: nat, end: nat): (e: nat)
    requires start <= end <= |lines|
    ensures start <= e <= end
  {
    if end > start && Bang(lines[end - 1]) then TrimBangs(lines, start, end - 1) else end
  }

  function IndentedEnd(lines: seq<string>, start: nat): (e: nat)
    requires start < |lines|
    ensures start <= e <= |lines|
  {
    TrimBangs(lines, start, RunEnd(lines, start + 1))
  }

  /** How far a line is indented, in blanks and tabs. */
  function Indent(line: string): (n: nat)
    ensures n <= |line|
  {
    if line != "" && line[0] in {' ', '\t'} then 1 + Indent(line[1..]) else 0
  }

  /** A line of an indented header's block: deeper than the header, not blank, not '!'. */
  predicate Deeper(line: string, indent: nat) {
    !Bang(line) && Indent(line) < |line| && Indent(line) > indent
  }

  function DeeperEnd(lines: seq<string>, i: nat, indent: nat): (e: nat)
    requires i <= |lines|
    ensures i <= e <= |lines|
    decreases |lines| - i
  {
    if i < |lines| && Deeper(lines[i], indent) then DeeperEnd(lines, i + 1, indent) else i
  }

  function Count(line: string, c: char): nat {
    if line == "" then 0 else Count(line[1..], c) + if line[0] == c then 1 else 0
  }

  /** Opening less closing braces. */
  function Net(line: string): int {
    Count(line, '{') - Count(line, '}')
  }

  function NetOf(lines: seq<string>): int {
    if lines == [] then 0 else NetOf(lines[..|lines| - 1]) + Net(lines[|lines| - 1])
  }

  /** Where the brackets open at `net` before line i are closed. */
  function BraceEnd(lines: seq<string>, i: nat, net: int): (e: nat)
    requires i <= |lines|
    ensures i <= e <= |lines|
    decreases |lines| - i
  {
    if i < |lines| && net > 0 then BraceEnd(lines, i + 1, net + Net(lines[i])) else i
  }

  // ------------------------------------------------------------------- Junos

  predicate HasSpace(s: string) {
    exists k :: 0 <= k < |s| && IsSpace(s[k])
  }

  /** The name in "NAME {". */
  function NamedBlock(line: string): Option<string> {
    var t := Strip(line);
    if t == "" || t[|t| - 1] != '{' then None
    else
      var name := TrimRight(t[..|t| - 1]);
      if name == "" || HasSpace(name) then None else Some(name)
  }

  predicate InterfacesHeader(line: string) {
    NamedBlock(line) == Some("interfaces")
  }

  datatype Scan = Scan(inside: bool, depth: int)

  /** The scanner's state before line i. */
  function ScanAt(lines: seq<string>, i: nat): Scan
    requires i <= |lines|
  {
    if i == 0 then Scan(false, 0) else ScanOn(ScanAt(lines, i - 1), lines[i - 1])
  }

  function ScanOn(s: Scan, line: string): Scan {
    if !s.inside then if InterfacesHeader(line) then Scan(true, 1) else s
    else Scan(s.depth + Net(line) > 0, s.depth + Net(line))
  }

  predicate NamesCandidate(name: string, candidates: seq<string>) {
    exists c :: c in candidates && NamesMatch(name, c)
  }

  // -------------------------------------------------------------- the search

  /** The ways a line can be the wanted header, in order of priority. */
  datatype Way = ColumnExact | ColumnPrefix | IndentedExact | IndentedPrefix | Junos

  function Priority(w: Way): nat {
    match w
    case ColumnExact => 0
    case ColumnPrefix => 1
    case IndentedExact => 2
    case IndentedPrefix => 3
    case Junos => 4
  }

  predicate IsHeader(w: Way, lines: seq<string>, candidates: seq<string>, i: nat)
    requires i < |lines|
  {
    match w
    case ColumnExact | ColumnPrefix =>
      var h := ColumnHeader(lines[i]);
      h.Some? && AnyOf(candidates, h.value, w.ColumnExact?)
    case IndentedExact | IndentedPrefix =>
      var h := IndentedHeader(lines[i]);
      h.Some? && AnyOf(candidates, h.value.1, w.IndentedExact?)
    case Junos =>
      var n := NamedBlock(lines[i]);
      ScanAt(lines, i) == Scan(true, 1) && n.Some? && NamesCandidate(n.value, candidates)
  }

  function BlockEnd(w: Way, lines: seq<string>, i: nat): (e: nat)
    requires i < |lines|
    ensures i <= e <= |lines|
  {
    match w
    case ColumnExact | ColumnPrefix => IndentedEnd(lines, i)
    case IndentedExact | IndentedPrefix =>
      DeeperEnd(lines, i + 1, if IndentedHeader(lines[i]).Some? then IndentedHeader(lines[i]).value.0 else 0)
    case Junos => BraceEnd(lines, i + 1, Net(lines[i]))
  }

  ghost predicate NoHeader(w: Way, lines: seq<string>, candidates: seq<string>) {
    forall k :: 0 <= k < |lines| ==> !IsHeader(w, lines, candidates, k)
  }

  ghost predicate FirstHeader(w: Way, lines: seq<string>, candidates: seq<string>, i: nat) {
    i < |lines| && IsHeader(w, lines, candidates, i) && forall k :: 0 <= k < i ==> !IsHeader(w, lines, candidates, k)
  }

  /** Line i is the first header of the first way that has one. */
  ghost predicate Wanted(w: Way, lines: seq<string>, candidates: seq<string>, i: nat) {
    FirstHeader(w, lines, candidates, i) && forall v :: Priority(v) < Priority(w) ==> NoHeader(v, lines, candidates)
  }

  // --------------------------------------------------- what the blocks are

  lemma {:induction false} RunEndMeans(lines: seq<string>, i: nat)
    requires i <= |lines|
    ensures forall k :: i <= k < RunEnd(lines, i) ==> Continues(lines[k])
    ensures RunEnd(lines, i) < |lines| ==> !Continues(lines[RunEnd(lines, i)])
    decreases |lines| - i
  {
    if i < |lines| && Continues(lines[i]) {
      RunEndMeans(lines, i + 1);
    }
  }

  lemma {:induction false} TrimBangsMeans(lines: seq<string>, start: nat, end: nat)
    requires start <= end <= |lines|
    ensures forall k :: TrimBangs(lines, start, end) <= k < end ==> Bang(lines[k])
    ensures TrimBangs(lines, start, end) > start ==> !Bang(lines[TrimBangs(lines, start, end) - 1])
  {
    if end > start && Bang(lines[end - 1]) {
      TrimBangsMeans(lines, start, end - 1);
    }
  }

  lemma HeaderLine(line: string)
    requires ColumnHeader(line).Some?
    ensures !Continues(line) && !Bang(line)
  {
    assert Lower(line[..9])[0] == INTERFACE[0];
    assert LowerChar(line[0]) == 'i';
    assert TrimLeft(line) == line;
    assert line[0] != '!';
    FirstCharStays(line);
  }

  lemma {:induction false} FirstCharStays(s: string)
    requires s != "" && !IsSpace(s[0])
    ensures TrimRight(s) != "" && TrimRight(s)[0] == s[0]
  {
    if IsSpace(s[|s| - 1]) {
      FirstCharStays(s[..|s| - 1]);
    }
  }

  /** A column-0 block is its header and the longest run of indented or '!' lines after it, less the
      '!' lines it ends with; so it never reaches into the next column-0 header's block. */
  lemma ColumnBlockIsMaximal(lines: seq<string>, i: nat)
    requires i < |lines| && ColumnHeader(lines[i]).Some?
    ensures
      var end, run := IndentedEnd(lines, i), RunEnd(lines, i + 1);
      && i < end <= run && Strip(lines[end - 1]) != "!" && (forall k :: end <= k < run ==> Strip(lines[k]) == "!")
      && (forall k :: i < k < run ==> [' '] <= lines[k] || ['\t'] <= lines[k] || Strip(lines[k]) == "!")
      && (run < |lines| ==> !([' '] <= lines[run] || ['\t'] <= lines[run] || Strip(lines[run]) == "!"))
      && forall k :: i < k < end ==> ColumnHeader(lines[k]).None?
  {
    RunEndMeans(lines, i + 1);
    TrimBangsMeans(lines, i, RunEnd(lines, i + 1));
    HeaderLine(lines[i]);
    forall k | i < k < IndentedEnd(lines, i) ensures ColumnHeader(lines[k]).None? {
      if ColumnHeader(lines[k]).Some? {
        HeaderLine(lines[k]);
      }
    }
  }

  /** An indented header's block is it and the longest run of deeper lines after it. */
  lemma {:induction false} DeeperBlockIsMaximal(lines: seq<string>, i: nat, indent: nat)
    requires i <= |lines|
    ensures
      var end := DeeperEnd(lines, i, indent);
      (forall k :: i <= k < end ==> Deeper(lines[k], indent)) && (end < |lines| ==> !Deeper(lines[end], indent))
    decreases |lines| - i
  {
    if i < |lines| && Deeper(lines[i], indent) {
      DeeperBlockIsMaximal(lines, i + 1, indent);
    }
  }

  lemma NetOneMore(lines: seq<string>, i: nat, j: nat)
    requires i <= j < |lines|
    ensures NetOf(lines[i..j + 1]) == NetOf(lines[i..j]) + Net(lines[j])
  {
    assert lines[i..j + 1][..j - i] == lines[i..j];
  }

  /** The scan for the closing brace, from line j of a block begun at line i. */
  lemma {:induction false} BraceEndMeans(lines: seq<string>, i: nat, j: nat)
    requires i < j <= |lines| && forall k :: i < k < j ==> NetOf(lines[i..k]) > 0
    ensures
      var end := BraceEnd(lines, j, NetOf(lines[i..j]));
      (forall k :: i < k < end ==> NetOf(lines[i..k]) > 0) && (NetOf(lines[i..end]) <= 0 || end == |lines|)
    decreases |lines| - j
  {
    if j < |lines| && NetOf(lines[i..j]) > 0 {
      NetOneMore(lines, i, j);
      BraceEndMeans(lines, i, j + 1);
    }
  }

  /** A Junos block is the shortest one from its header on whose braces are closed, or what is left
      of the text. */
  lemma JunosBlockIsShortest(lines: seq<string>, i: nat)
    requires i < |lines|
    ensures
      var end := BlockEnd(Junos, lines, i);
      && i < end && (NetOf(lines[i..end]) <= 0 || end == |lines|)
      && forall k :: i < k < end ==> NetOf(lines[i..k]) > 0
  {
    NetOfOne(lines, i);
    BraceEndMeans(lines, i, i + 1);
  }

  /** No line of a block, its header included, closes more braces than are open when it is reached. */
  ghost predicate NeverOvercloses(lines: seq<string>, i: nat, end: nat)
    requires i <= end <= |lines|
  {
    forall k :: i <= k < end ==> Net(lines[k]) >= -NetOf(lines[i..k])
  }

  /** A Junos block is balanced exactly, or runs to the end of the text with braces still open, if and
      only if none of its lines closes more than is open. */
  lemma JunosBlockIsBalanced(lines: seq<string>, i: nat)
    requires i < |lines|
    ensures
      var end := BlockEnd(Junos, lines, i);
      NetOf(lines[i..end]) == 0 || (end == |lines| && NetOf(lines[i..end]) > 0) <==> NeverOvercloses(lines, i, end)
  {
    JunosBlockIsShortest(lines, i);
    var end := BlockEnd(Junos, lines, i);
    assert NetOf(lines[i..i]) == 0;
    NetOneMore(lines, i, end - 1);
    forall k | i <= k < end - 1 ensures Net(lines[k]) >= -NetOf(lines[i..k]) {
      NetOneMore(lines, i, k);
    }
  }

  /** The braces opened at the header of a block are still open after each line up to k. */
  ghost predicate OpenUpTo(lines: seq<string>, i: nat, k: nat) {
    i < k < |lines| && forall m :: i < m <= k ==> NetOf(lines[i..m]) > 0
  }

  /** The first line that closes more than is open is kept whole, and the block ends with it, below
      balance. */
  lemma OvercloserEndsBelowBalance(lines: seq<string>, i: nat, k: nat)
    requires OpenUpTo(lines, i, k) && Net(lines[k]) < -NetOf(lines[i..k])
    ensures BlockEnd(Junos, lines, i) == k + 1 && NetOf(lines[i..k + 1]) < 0
  {
    JunosBlockIsShortest(lines, i);
    NetOneMore(lines, i, k);
  }

  /** One such block: a header, and a line that closes two. */
  lemma DoubleCloserOverbalances()
    ensures
      var lines := ["e0 {", "} }"];
      BlockEnd(Junos, lines, 0) == 2 && NetOf(lines[0..2]) == -1
  {
    var lines := ["e0 {", "} }"];
    CountsOfTheHeader();
    CountsOfTheCloser();
    NetOfOne(lines, 0);
    NetOneMore(lines, 0, 1);
    OvercloserEndsBelowBalance(lines, 0, 1);
  }

  lemma CountsOfTheHeader()
    ensures Net("e0 {") == 1
  {
    var s := "e0 ";
    CountLast(s, '{', '{');
    CountLast(s, '{', '}');
    AbsentCountsNone(s, '{');
    AbsentCountsNone(s, '}');
    assert s + ['{'] == "e0 {";
  }

  lemma CountsOfTheCloser()
    ensures Net("} }") == -2
  {
    forall c ensures Count("} }", c) == if c == '}' then 2 else if c == ' ' then 1 else 0 {
      CountLast("} ", '}', c);
      CountLast("}", ' ', c);
      CountLast("", '}', c);
    }
  }

  lemma CountLast(s: string, last: char, c: char)
    ensures Count(s + [last], c) == Count(s, c) + if last == c then 1 else 0
  {
    CountSplits(s, [last], c);
    assert [last][1..] == "";
  }

  lemma NetOfOne(lines: seq<string>, i: nat)
    requires i < |lines|
    ensures NetOf(lines[i..i + 1]) == Net(lines[i])
  {
    assert lines[i..i + 1] == [lines[i]] && [lines[i]][..0] == [];
    assert NetOf([lines[i]]) == NetOf([]) + Net(lines[i]);
  }

  lemma {:induction false} CountSplits(a: string, b: string, c: char)
    ensures Count(a + b, c) == Count(a, c) + Count(b, c)
  {
    if a == "" {
      assert a + b == b;
    } else {
      CountSplits(a[1..], b, c);
      assert (a + b)[1..] == a[1..] + b;
    }
  }

  lemma {:induction false} CountTrimLeft(s: string, c: char)
    requires !IsSpace(c)
    ensures Count(TrimLeft(s), c) == Count(s, c)
  {
    if s != "" && IsSpace(s[0]) {
      CountTrimLeft(s[1..], c);
    }
  }

  lemma {:induction false} CountTrimRight(s: string, c: char)
    requires !IsSpace(c)
    ensures Count(TrimRight(s), c) == Count(s, c)
  {
    if s != "" && IsSpace(s[|s| - 1]) {
      CountTrimRight(s[..|s| - 1], c);
      LastCounts(s, c);
    }
  }

  lemma LastCounts(s: string, c: char)
    requires s != ""
    ensures Count(s, c) == Count(s[..|s| - 1], c) + if s[|s| - 1] == c then 1 else 0
  {
    var last := [s[|s| - 1]];
    assert s == s[..|s| - 1] + last && last[1..] == "";
    CountSplits(s[..|s| - 1], last, c);
  }

  lemma CountInHeader(line: string, c: char)
    requires NamedBlock(line).Some? && !IsSpace(c)
    ensures Count(line, c) == Count(NamedBlock(line).value, c) + if c == '{' then 1 else 0
  {
    var t := Strip(line);
    CountTrimLeft(line, c);
    CountTrimRight(TrimLeft(line), c);
    LastCounts(t, c);
    CountTrimRight(t[..|t| - 1], c);
  }

  lemma {:induction false} AbsentCountsNone(s: string, c: char)
    requires c !in s
    ensures Count(s, c) == 0
  {
    if s != "" {
      AbsentCountsNone(s[1..], c);
    }
  }

  /** A header whose name has no brace opens exactly one. */
  lemma PlainHeaderOpensOne(line: string)
    requires NamedBlock(line).Some? && '{' !in NamedBlock(line).value && '}' !in NamedBlock(line).value
    ensures Net(line) == 1
  {
    CountInHeader(line, '{');
    CountInHeader(line, '}');
    AbsentCountsNone(NamedBlock(line).value, '{');
    AbsentCountsNone(NamedBlock(line).value, '}');
  }

  function DepthSince(lines: seq<string>, h: nat, k: nat): int
    requires h < k <= |lines|
  {
    1 + NetOf(lines[h + 1..k])
  }

  /** Line h opens an `interfaces` block that nothing before line i closes, `depth` deep there. */
  ghost predicate Encloses(lines: seq<string>, h: nat, i: nat, depth: int)
    requires h < i <= |lines|
  {
    && InterfacesHeader(lines[h]) && depth == DepthSince(lines, h, i)
    && forall k :: h < k <= i ==> DepthSince(lines, h, k) > 0
  }

  lemma EnclosesOneMore(lines: seq<string>, h: nat, i: nat, depth: int)
    requires h < i < |lines| && Encloses(lines, h, i, depth) && depth + Net(lines[i]) > 0
    ensures Encloses(lines, h, i + 1, depth + Net(lines[i]))
  {
    NetOneMore(lines, h + 1, i);
  }

  /** The header at line h is met outside any `interfaces` block, and its own is still open at line i. */
  ghost predicate OpenSince(lines: seq<string>, h: nat, i: nat, depth: int)
    requires h < i <= |lines|
  {
    !ScanAt(lines, h).inside && Encloses(lines, h, i, depth)
  }

  lemma {:induction false} OpenIsInside(lines: seq<string>, h: nat, i: nat, depth: int)
    requires h < i <= |lines| && OpenSince(lines, h, i, depth)
    ensures ScanAt(lines, i) == Scan(true, depth)
  {
    if i == h + 1 {
      assert lines[i..i] == [];
    } else {
      NetOneMore(lines, h + 1, i - 1);
      OpenIsInside(lines, h, i - 1, depth - Net(lines[i - 1]));
    }
  }

  lemma {:induction false} InsideIsOpen(lines: seq<string>, i: nat)
    requires i <= |lines| && ScanAt(lines, i).inside
    ensures exists h :: 0 <= h < i && OpenSince(lines, h, i, ScanAt(lines, i).depth)
  {
    var s := ScanAt(lines, i - 1);
    if s.inside {
      InsideIsOpen(lines, i - 1);
      var h :| 0 <= h < i - 1 && OpenSince(lines, h, i - 1, s.depth);
      EnclosesOneMore(lines, h, i - 1, s.depth);
      assert OpenSince(lines, h, i, ScanAt(lines, i).depth);
    } else {
      assert lines[i..i] == [];
      assert OpenSince(lines, i - 1, i, 1);
    }
  }

  /** Inside at depth d means: an `interfaces` header that was met outside any such block is above, nothing has
      closed its block, and d of the braces opened from it on are open still. */
  lemma ScanMeans(lines: seq<string>, i: nat, d: int)
    requires i <= |lines|
    ensures ScanAt(lines, i) == Scan(true, d) <==> exists h :: 0 <= h < i && OpenSince(lines, h, i, d)
  {
    if ScanAt(lines, i).inside {
      InsideIsOpen(lines, i);
    }
    forall h | 0 <= h < i && OpenSince(lines, h, i, d) ensures ScanAt(lines, i) == Scan(true, d) {
      OpenIsInside(lines, h, i, d);
    }
  }

  // ------------------------------------------------------------- the scanners

  /** _indented_block. */
  method IndentedBlock(lines: seq<string>, start: nat) returns (block: string)
    requires start < |lines|
    ensures block == Join(lines[start..IndentedEnd(lines, start)])
  {
    var kept := [lines[start]];
    var i := start + 1;
    while i < |lines| && Continues(lines[i])
      invariant start < i <= |lines| && kept == lines[start..i]
      invariant RunEnd(lines, i) == RunEnd(lines, start + 1)
    {
      kept := kept + [lines[i]];
      i := i + 1;
    }
    kept := DropBangs(lines, start, i, kept);
    block := Join(kept);
  }

  method DropBangs(lines: seq<string>, start: nat, end: nat, run: seq<string>) returns (kept: seq<string>)
    requires start <= end <= |lines| && run == lines[start..end]
    ensures kept == lines[start..TrimBangs(lines, start, end)]
  {
    kept := run;
    ghost var i: nat := end;
    while kept != [] && Bang(kept[|kept| - 1])
      invariant start <= i <= |lines| && kept == lines[start..i]
      invariant TrimBangs(lines, start, i) == TrimBangs(lines, start, end)
      decreases |kept|
    {
      assert kept[..|kept| - 1] == lines[start..i - 1];
      kept := kept[..|kept| - 1];
      i := i - 1;
    }
  }

  /** _indented_header_block. */
  method IndentedHeaderBlock(lines: seq<string>, start: nat, indent: nat) returns (block: string)
    requires start < |lines|
    ensures block == Join(lines[start..DeeperEnd(lines, start + 1, indent)])
  {
    var kept := [lines[start]];
    var i := start + 1;
    while i < |lines|
      invariant start < i <= |lines| && kept == lines[start..i]
      invariant DeeperEnd(lines, i, indent) == DeeperEnd(lines, start + 1, indent)
    {
      if Bang(lines[i]) || Indent(lines[i]) == |lines[i]| || Indent(lines[i]) <= indent {
        break;
      }
      kept := kept + [lines[i]];
      i := i + 1;
    }
    block := Join(kept);
  }

  /** _juniper_block: the first named block directly inside an `interfaces` block. */
  method JuniperBlock(lines: seq<string>, candidates: seq<string>) returns (block: Option<string>, ghost at: nat)
    ensures block.None? ==> NoHeader(Junos, lines, candidates)
    ensures block.Some? ==>
              FirstHeader(Junos, lines, candidates, at) && block.value == Join(lines[at..BlockEnd(Junos, lines, at)])
  {
    var inside, depth, i := false, 0, 0;
    while i < |lines|
      invariant i <= |lines| && inside == ScanAt(lines, i).inside && (inside ==> depth == ScanAt(lines, i).depth)
      invariant forall k :: 0 <= k < i ==> !IsHeader(Junos, lines, candidates, k)
    {
      var line := lines[i];
      if !inside {
        if InterfacesHeader(line) {
          inside, depth := true, 1;
        }
        i := i + 1;
        continue;
      }
      if depth == 1 {
        var name := NamedBlock(line);
        if name.Some? && NamesCandidate(name.value, candidates) {
          var text := BracedBlock(lines, i);
          return Some(text), i;
        }
      }
      depth := depth + Net(line);
      if depth <= 0 {
        inside := false;
      }
      i := i + 1;
    }
    return None, 0;
  }

  method BracedBlock(lines: seq<string>, start: nat) returns (block: string)
    requires start < |lines|
    ensures block == Join(lines[start..BlockEnd(Junos, lines, start)])
  {
    var kept, braces, j := [lines[start]], Net(lines[start]), start + 1;
    while j < |lines| && braces > 0
      invariant start < j <= |lines| && kept == lines[start..j]
      invariant BraceEnd(lines, j, braces) == BlockEnd(Junos, lines, start)
    {
      kept := kept + [lines[j]];
      braces := braces + Net(lines[j]);
      j := j + 1;
    }
    block := Join(kept);
  }

  /** The headers among the lines: where, how far indented, and the name. */
  datatype Header = Header(line: nat, indent: nat, name: string)

  /** `headers` lists exactly the column-0 (or the indented) headers before line n, in order. */
  ghost predicate Lists(headers: seq<Header>, lines: seq<string>, n: nat, column: bool)
    requires n <= |lines|
  {
    && (forall a, b :: 0 <= a < b < |headers| ==> headers[a].line < headers[b].line)
    && (forall a :: 0 <= a < |headers| ==> headers[a].line < n && HeaderAt(lines[headers[a].line], headers[a], column))
    && forall k :: 0 <= k < n && IsHeaderLine(lines[k], column) ==>
         exists a :: 0 <= a < |headers| && headers[a].line == k
  }

  predicate HeaderAt(line: string, h: Header, column: bool) {
    if column then ColumnHeader(line) == Some(h.name) else IndentedHeader(line) == Some((h.indent, h.name))
  }

  /** The first of the listed headers that names a candidate. */
  method Find(headers: seq<Header>, candidates: seq<string>, exact: bool) returns (r: Option<nat>)
    ensures r.Some? ==> r.value < |headers| && AnyOf(candidates, headers[r.value].name, exact)
    ensures forall a :: 0 <= a < (if r.Some? then r.value else |headers|) ==> !AnyOf(candidates, headers[a].name, exact)
  {
    for a := 0 to |headers|
      invariant forall b :: 0 <= b < a ==> !AnyOf(candidates, headers[b].name, exact)
    {
      if AnyOf(candidates, headers[a].name, exact) {
        return Some(a);
      }
    }
    return None;
  }

  method CollectHeaders(lines: seq<string>) returns (headers: seq<Header>, indented: seq<Header>)
    ensures Lists(headers, lines, |lines|, true) && Lists(indented, lines, |lines|, false)
  {
    headers, indented := [], [];
    for i := 0 to |lines|
      invariant Lists(headers, lines, i, true) && Lists(indented, lines, i, false)
    {
      var column, deeper := ColumnHeader(lines[i]), IndentedHeader(lines[i]);
      NotBothHeaders(lines[i]);
      ListsNoMore(headers, lines, i, true);
      ListsNoMore(indented, lines, i, false);
      if column.Some? {
        ListsOneMore(headers, lines, i, true, Header(i, 0, column.value));
        headers := headers + [Header(i, 0, column.value)];
      } else if deeper.Some? {
        ListsOneMore(indented, lines, i, false, Header(i, deeper.value.0, deeper.value.1));
        indented := indented + [Header(i, deeper.value.0, deeper.value.1)];
      }
    }
  }

  lemma NotBothHeaders(line: string)
    ensures ColumnHeader(line).None? || IndentedHeader(line).None?
  {
    if ColumnHeader(line).Some? {
      assert Lower(line[..9])[0] == INTERFACE[0];
      assert LowerChar(line[0]) == 'i';
    }
  }

  predicate IsHeaderLine(line: string, column: bool) {
    if column then ColumnHeader(line).Some? else IndentedHeader(line).Some?
  }

  lemma ListsNoMore(headers: seq<Header>, lines: seq<string>, i: nat, column: bool)
    requires i < |lines| && Lists(headers, lines, i, column)
    ensures !IsHeaderLine(lines[i], column) ==> Lists(headers, lines, i + 1, column)
  {
  }

  lemma ListsOneMore(headers: seq<Header>, lines: seq<string>, i: nat, column: bool, h: Header)
    requires i < |lines| && Lists(headers, lines, i, column) && h.line == i && HeaderAt(lines[i], h, column)
    ensures Lists(headers + [h], lines, i + 1, column)
  {
    var more := headers + [h];
    forall k | 0 <= k < i + 1 && IsHeaderLine(lines[k], column)
      ensures exists a :: 0 <= a < |more| && more[a].line == k
    {
      if k < i {
        var a :| 0 <= a < |headers| && headers[a].line == k;
        assert more[a].line == k;
      } else {
        assert more[|headers|].line == k;
      }
    }
  }

  predicate Exactly(w: Way) {
    w.ColumnExact? || w.IndentedExact?
  }

  predicate AtColumn(w: Way) {
    w.ColumnExact? || w.ColumnPrefix?
  }

  lemma WantedHeaderIsListed(headers: seq<Header>, lines: seq<string>, candidates: seq<string>, w: Way, k: nat)
    requires !w.Junos? && Lists(headers, lines, |lines|, AtColumn(w)) && k < |lines|
    requires IsHeader(w, lines, candidates, k)
    ensures exists a :: 0 <= a < |headers| && headers[a].line == k && AnyOf(candidates, headers[a].name, Exactly(w))
  {
    assert IsHeaderLine(lines[k], AtColumn(w));
    var a :| 0 <= a < |headers| && headers[a].line == k;
    assert HeaderAt(lines[k], headers[a], AtColumn(w));
  }

  /** The first line that is a header in the way asked for. */
  method Search(headers: seq<Header>, lines: seq<string>, candidates: seq<string>, w: Way) returns (r: Option<Header>)
    requires !w.Junos? && Lists(headers, lines, |lines|, AtColumn(w))
    ensures r.None? ==> NoHeader(w, lines, candidates)
    ensures r.Some? ==>
              && r.value.line < |lines| && HeaderAt(lines[r.value.line], r.value, AtColumn(w))
              && IsHeader(w, lines, candidates, r.value.line)
              && forall k :: 0 <= k < r.value.line ==> !IsHeader(w, lines, candidates, k)
  {
    var found := Find(headers, candidates, Exactly(w));
    var end := if found.Some? then found.value else |headers|;
    NothingBefore(headers, lines, candidates, w, end);
    r := if found.Some? then Some(headers[found.value]) else None;
  }

  /** When none of the first `end` listed headers names a candidate, no line before the next is wanted. */
  lemma NothingBefore(headers: seq<Header>, lines: seq<string>, candidates: seq<string>, w: Way, end: nat)
    requires !w.Junos? && Lists(headers, lines, |lines|, AtColumn(w)) && end <= |headers|
    requires forall a :: 0 <= a < end ==> !AnyOf(candidates, headers[a].name, Exactly(w))
    ensures forall k :: 0 <= k < (if end < |headers| then headers[end].line else |lines|) ==>
                !IsHeader(w, lines, candidates, k)
  {
    var last := if end < |headers| then headers[end].line else |lines|;
    forall k | 0 <= k < last ensures !IsHeader(w, lines, candidates, k) {
      if IsHeader(w, lines, candidates, k) {
        WantedHeaderIsListed(headers, lines, candidates, w, k);
      }
    }
  }

  /** The names given, without the empty ones. */
  function Candidates(names: seq<string>): seq<string> {
    if names == [] then []
    else
      var init, last := Candidates(names[..|names| - 1]), names[|names| - 1];
      if last != "" then init + [last] else init
  }

  /** What interface_stanza answers for the lines of a text. */
  ghost predicate Answers(lines: seq<string>, candidates: seq<string>, stanza: Option<string>) {
    match stanza
    case None => forall w :: NoHeader(w, lines, candidates)
    case Some(block) => exists w, i :: IsBlockOf(block, lines, candidates, w, i)
  }

  ghost predicate IsBlockOf(block: string, lines: seq<string>, candidates: seq<string>, w: Way, i: nat) {
    Wanted(w, lines, candidates, i) && block == Join(lines[i..BlockEnd(w, lines, i)])
  }

  /** The ways tried before this one found nothing. */
  ghost predicate TriedInVain(w: Way, lines: seq<string>, candidates: seq<string>)
    decreases Priority(w)
  {
    && (w.ColumnPrefix? ==> NoHeader(ColumnExact, lines, candidates))
    && (w.IndentedExact? ==> NoHeader(ColumnPrefix, lines, candidates) && TriedInVain(ColumnPrefix, lines, candidates))
    && (w.IndentedPrefix? ==>
          NoHeader(IndentedExact, lines, candidates) && TriedInVain(IndentedExact, lines, candidates))
    && (w.Junos? ==> NoHeader(IndentedPrefix, lines, candidates) && TriedInVain(IndentedPrefix, lines, candidates))
  }

  lemma {:induction false} NowWanted(w: Way, lines: seq<string>, candidates: seq<string>)
    requires TriedInVain(w, lines, candidates)
    ensures forall v :: Priority(v) < Priority(w) ==> NoHeader(v, lines, candidates)
    decreases Priority(w)
  {
  }

  /** One pass over the listed headers, and the block of the one it finds. */
  method Pass(headers: seq<Header>, lines: seq<string>, candidates: seq<string>, w: Way) returns (block: Option<string>)
    requires !w.Junos? && Lists(headers, lines, |lines|, AtColumn(w)) && TriedInVain(w, lines, candidates)
    ensures if block.None? then TriedInVain(NextWay(w), lines, candidates) else Answers(lines, candidates, block)
  {
    var found := Search(headers, lines, candidates, w);
    if found.None? {
      return None;
    }
    var h := found.value;
    var text;
    if AtColumn(w) {
      text := IndentedBlock(lines, h.line);
    } else {
      text := IndentedHeaderBlock(lines, h.line, h.indent);
    }
    NowWanted(w, lines, candidates);
    assert IsBlockOf(text, lines, candidates, w, h.line);
    return Some(text);
  }

  function NextWay(w: Way): Way {
    match w
    case ColumnExact => ColumnPrefix
    case ColumnPrefix => IndentedExact
    case IndentedExact => IndentedPrefix
    case _ => Junos
  }

  method LastPass(lines: seq<string>, candidates: seq<string>) returns (block: Option<string>)
    requires TriedInVain(Junos, lines, candidates)
    ensures Answers(lines, candidates, block)
  {
    ghost var at;
    block, at := JuniperBlock(lines, candidates);
    LastWay(lines, candidates);
    assert block.Some? ==> IsBlockOf(block.value, lines, candidates, Junos, at);
  }

  lemma LastWay(lines: seq<string>, candidates: seq<string>)
    requires TriedInVain(Junos, lines, candidates)
    ensures forall i :: FirstHeader(Junos, lines, candidates, i) ==> Wanted(Junos, lines, candidates, i)
    ensures NoHeader(Junos, lines, candidates) ==> forall v :: NoHeader(v, lines, candidates)
  {
  }

  /** interface_stanza: the block of the first header of the first way that finds one, and nothing
      only when no way does. */
  method InterfaceStanza(text: string, names: seq<string>) returns (stanza: Option<string>)
    ensures
      if text == "" || Candidates(names) == [] then stanza.None?
      else Answers(Split(text), Candidates(names), stanza)
  {
    var candidates := Candidates(names);
    if text == "" || candidates == [] {
      return None;
    }
    var lines := Split(text);
    var headers, indented := CollectHeaders(lines);
    stanza := Pass(headers, lines, candidates, ColumnExact);
    if stanza.Some? {
      return stanza;
    }
    stanza := Pass(headers, lines, candidates, ColumnPrefix);
    if stanza.Some? {
      return stanza;
    }
    stanza := Pass(indented, lines, candidates, IndentedExact);
    if stanza.Some? {
      return stanza;
    }
    stanza := Pass(indented, lines, candidates, IndentedPrefix);
    if stanza.Some? {
      return stanza;
    }
    stanza := LastPass(lines, candidates);
  }

  /** Every stanza is a run of whole lines of the text that begins at its header. */
  lemma StanzaIsWithin(text: string, candidates: seq<string>, w: Way, i: nat)
    requires Wanted(w, Split(text), candidates, i)
    ensures i < BlockEnd(w, Split(text), i) && Within(text, Join(Split(text)[i..BlockEnd(w, Split(text), i)]))
  {
    var lines := Split(text);
    JoinSplit(text);
    if w.ColumnExact? || w.ColumnPrefix? {
      ColumnBlockIsMaximal(lines, i);
    }
    RunIsWithin(lines, i, BlockEnd(w, lines, i));
  }
}
