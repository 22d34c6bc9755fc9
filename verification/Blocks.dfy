/** The line scanner of rag/chunking.py: markdown or plain text into structural blocks. */
module Blocks {
  import opened Wrappers
  import opened Text

  datatype Level = H1 | H2 | H3 | PARAGRAPH | TABLE | LIST

  datatype TextBlock = TextBlock(level: Level, text: string, page: Option<nat>, path: seq<string>)

  /** What the scanner makes of a line, tests in their order. */
  datatype Kind = Marker(page: nat) | Heading(depth: nat) | TableRow | ListItem | Plain

  // ---------- Line tests ----------
  // dec gives the decimal value of a character beyond ASCII, anything outside 0..9 when it has none.

  predicate IsDigit(dec: char -> int, c: char) {
    if c as int < 128 then '0' <= c <= '9' else 0 <= dec(c) <= 9 && !IsSpace(c)
  }

  function DigitValue(dec: char -> int, c: char): nat
    requires IsDigit(dec, c)
  {
    if c as int < 128 then c as int - '0' as int else dec(c)
  }

  predicate AllDigits(dec: char -> int, s: string) {
    forall i :: 0 <= i < |s| ==> IsDigit(dec, s[i])
  }

  /** int(s) on decimal digits. */
  function PageValue(dec: char -> int, s: string): nat
    requires AllDigits(dec, s)
  {
    if s == "" then 0 else 10 * PageValue(dec, s[..|s| - 1]) + DigitValue(dec, s[|s| - 1])
  }

  /** A line that is ---page-N---, with or without its newline. */
  function MarkerPage(dec: char -> int, line: string): Option<nat> {
    var body := if line != "" && line[|line| - 1] == '\n' then line[..|line| - 1] else line;
    if |body| > 11 && body[..8] == "---page-" && body[|body| - 3..] == "---" && AllDigits(dec, body[8..|body| - 3]) then
      Some(PageValue(dec, body[8..|body| - 3]))
    else
      None
  }

  function Hashes(s: string): (n: nat)
    ensures n <= |s|
  {
    if s != "" && s[0] == '#' then 1 + Hashes(s[1..]) else 0
  }

  /** One to six # followed by whitespace and a title; 0 for any other line. */
  function HeadingDepth(line: string): (depth: nat)
    ensures depth <= 6
    ensures depth > 0 ==> line != "" && line[0] == '#' && depth < |RStrip(line)|
  {
    RStripEnds(line);
    var s := RStrip(line);
    var n := Hashes(s);
    if 1 <= n <= 6 && n < |s| && IsSpace(s[n]) then n else 0
  }

  function HeadingTitle(line: string): string
    requires HeadingDepth(line) > 0
  {
    Strip(RStrip(line)[HeadingDepth(line)..])
  }

  function HeadingLevel(depth: nat): Level {
    if depth == 1 then H1 else if depth == 2 then H2 else H3
  }

  predicate StartsTable(line: string) {
    line != "" && line[0] == '|'
  }

  predicate TableContinues(line: string) {
    StartsTable(line) || Strip(line) == ""
  }

  function DigitRun(dec: char -> int, s: string): (n: nat)
    ensures n <= |s|
  {
    if s != "" && IsDigit(dec, s[0]) then 1 + DigitRun(dec, s[1..]) else 0
  }

  /** A bullet or a number with its dot, then whitespace. */
  predicate LooksLikeItem(dec: char -> int, s: string) {
    var n := DigitRun(dec, s);
    || (|s| > 1 && s[0] in {'-', '*', '+'} && IsSpace(s[1]))
    || (n > 0 && |s| > n + 1 && s[n] == '.' && IsSpace(s[n + 1]))
  }

  predicate StartsList(dec: char -> int, line: string) {
    LooksLikeItem(dec, LStrip(line))
  }

  predicate ListContinues(dec: char -> int, line: string) {
    StartsList(dec, line) || (|line| > 1 && line[0] == ' ' && line[1] == ' ')
  }

  function Classify(dec: char -> int, line: string): Kind {
    if MarkerPage(dec, line).Some? then Marker(MarkerPage(dec, line).value)
    else if HeadingDepth(line) > 0 then Heading(HeadingDepth(line))
    else if StartsTable(line) then TableRow
    else if StartsList(dec, line) then ListItem
    else Plain
  }

  lemma MarkerStart(dec: char -> int, line: string)
    requires MarkerPage(dec, line).Some?
    ensures |line| > 11 && line[0] == '-' && line[1] == '-'
  {
    var marker := "---page-";
    assert line[..8] == marker;
    assert line[0] == line[..8][0] == marker[0];
    assert line[1] == line[..8][1] == marker[1];
  }

  /** Page markers and headings are never taken by the table or the list that precedes them. */
  lemma NeverSwallowed(dec: char -> int, line: string)
    ensures TableContinues(line) || ListContinues(dec, line) ==> !Classify(dec, line).Marker? && !Classify(dec, line).Heading?
  {
    StripEnds(line);
    if MarkerPage(dec, line).Some? {
      MarkerStart(dec, line);
      assert LStrip(line) == line;
    } else if HeadingDepth(line) > 0 {
      assert LStrip(line) == line;
    }
  }

  // ---------- What the line tests accept ----------

  /** A marker of these digits, with or without a newline behind it. */
  predicate IsMarker(dec: char -> int, line: string, digits: string) {
    && digits != "" && AllDigits(dec, digits)
    && (line == "---page-" + digits + "---" || line == "---page-" + digits + "---" + "\n")
  }

  /** A marker line is ---page-, some digits and ---, with or without a newline. */
  lemma MarkerLine(dec: char -> int, line: string)
    ensures MarkerPage(dec, line).Some? <==> exists digits :: IsMarker(dec, line, digits)
    ensures forall digits :: IsMarker(dec, line, digits) ==> MarkerPage(dec, line) == Some(PageValue(dec, digits))
  {
    hide IsMarker, MarkerPage, PageValue;
    if MarkerPage(dec, line).Some? {
      MarkerFound(dec, line);
    }
    forall digits | IsMarker(dec, line, digits)
      ensures AllDigits(dec, digits) && MarkerPage(dec, line) == Some(PageValue(dec, digits))
    {
      MarkerAccepts(dec, line, digits);
    }
  }

  lemma MarkerFound(dec: char -> int, line: string)
    requires MarkerPage(dec, line).Some?
    ensures exists digits :: IsMarker(dec, line, digits)
  {
    hide AllDigits, PageValue;
    var body := if line[|line| - 1] == '\n' then line[..|line| - 1] else line;
    var digits := body[8..|body| - 3];
    assert body == body[..8] + digits + body[|body| - 3..];
    assert line == body || line == body + "\n";
    assert IsMarker(dec, line, digits);
  }

  lemma MarkerAccepts(dec: char -> int, line: string, digits: string)
    requires IsMarker(dec, line, digits)
    ensures AllDigits(dec, digits) && MarkerPage(dec, line) == Some(PageValue(dec, digits))
  {
    hide PageValue, AllDigits;
    var body := "---page-" + digits + "---";
    assert body[..8] == "---page-" && body[|body| - 3..] == "---" && body[8..|body| - 3] == digits;
    assert body[|body| - 1] == '-';
    if line != body {
      assert line[..|line| - 1] == body && line[|line| - 1] == '\n';
    }
  }

  function Repeat(c: char, n: nat): (s: string)
    ensures |s| == n
  {
    seq(n, _ => c)
  }

  lemma {:induction false} HashesMeaning(s: string, n: nat)
    ensures Hashes(s) == n <==> n <= |s| && s[..n] == Repeat('#', n) && (n < |s| ==> s[n] != '#')
  {
    if s != "" && s[0] == '#' && n > 0 {
      HashesMeaning(s[1..], n - 1);
      assert n <= |s| ==> s[..n] == [s[0]] + s[1..][..n - 1];
      assert Repeat('#', n) == ['#'] + Repeat('#', n - 1);
    } else if n <= |s| && n > 0 {
      assert s[..n][0] == s[0] && Repeat('#', n)[0] == '#';
    }
  }

  /** A heading of depth 1 to 6 is so many #, whitespace and more, after the space at the end of the line is gone. */
  lemma HeadingLine(line: string, depth: nat)
    requires 1 <= depth
    ensures HeadingDepth(line) == depth <==>
            depth <= 6 && exists rest :: RStrip(line) == Repeat('#', depth) + rest && rest != "" && IsSpace(rest[0])
    ensures HeadingDepth(line) == depth ==> HeadingTitle(line) == Strip(RStrip(line)[depth..])
  {
    hide IsSpace, RStrip;
    var s := RStrip(line);
    HashNoSpace();
    HashesMeaning(s, depth);
    HashesMeaning(s, Hashes(s));
    if HeadingDepth(line) == depth {
      assert s == s[..depth] + s[depth..];
      assert s[depth..] != "" && IsSpace(s[depth..][0]);
    }
    forall rest | s == Repeat('#', depth) + rest && rest != "" && IsSpace(rest[0])
      ensures Hashes(s) == depth && depth < |s| && IsSpace(s[depth])
    {
      assert s[..depth] == Repeat('#', depth) && s[depth] == rest[0];
    }
  }

  lemma HashNoSpace()
    ensures !IsSpace('#')
  {
  }

  /** The level of a heading: H1, H2, and H3 from depth 3 on. */
  lemma HeadingLevels(depth: nat)
    requires 1 <= depth <= 6
    ensures HeadingLevel(depth) == [H1, H2, H3, H3, H3, H3][depth - 1]
  {
  }

  /** What is left of the title stack is shorter than the depth, and the title comes on top. */
  lemma TitleStack(stack: seq<string>, depth: nat, title: string)
    requires depth > 0
    ensures var stack' := PushTitle(stack, depth, title);
            && |stack'| >= 1 && stack'[|stack'| - 1] == title
            && stack'[..|stack'| - 1] <= stack
            && |stack'| - 1 == if |stack| < depth then |stack| else depth - 1
  {
  }

  lemma {:induction false} DigitRunMeaning(dec: char -> int, s: string)
    ensures AllDigits(dec, s[..DigitRun(dec, s)])
    ensures DigitRun(dec, s) < |s| ==> !IsDigit(dec, s[DigitRun(dec, s)])
  {
    if s != "" && IsDigit(dec, s[0]) {
      DigitRunMeaning(dec, s[1..]);
      var n := DigitRun(dec, s);
      assert s[..n] == [s[0]] + s[1..][..n - 1];
    }
  }

  /** A list item behind its indent: a bullet and whitespace, or digits, a dot and whitespace. */
  ghost predicate ItemText(dec: char -> int, s: string) {
    || (exists bullet, rest :: bullet in {'-', '*', '+'} && rest != "" && IsSpace(rest[0]) && s == [bullet] + rest)
    || (exists digits, rest :: digits != "" && AllDigits(dec, digits) && rest != "" && IsSpace(rest[0])
          && s == digits + ("." + rest))
  }

  lemma {:induction false} LStripSplits(line: string)
    ensures exists indent :: Blank(indent) && line == indent + LStrip(line)
    ensures LStrip(line) != "" ==> !IsSpace(LStrip(line)[0])
  {
    if line != "" && IsSpace(line[0]) {
      LStripSplits(line[1..]);
      var indent :| Blank(indent) && line[1..] == indent + LStrip(line[1..]);
      assert Blank([line[0]] + indent) && line == [line[0]] + indent + LStrip(line);
    } else {
      assert Blank("") && line == "" + LStrip(line);
    }
  }

  lemma {:induction false} LStripIndent(indent: string, s: string)
    requires Blank(indent) && (s != "" ==> !IsSpace(s[0]))
    ensures LStrip(indent + s) == s
  {
    if indent == "" {
      assert indent + s == s;
    } else {
      assert (indent + s)[1..] == indent[1..] + s;
      assert forall i :: 0 <= i < |indent| - 1 ==> indent[1..][i] == indent[i + 1];
      LStripIndent(indent[1..], s);
    }
  }

  lemma {:induction false} DigitRunIs(dec: char -> int, digits: string, rest: string)
    requires AllDigits(dec, digits) && (rest == "" || !IsDigit(dec, rest[0]))
    ensures DigitRun(dec, digits + rest) == |digits|
  {
    if digits == "" {
      assert digits + rest == rest;
    } else {
      assert (digits + rest)[1..] == digits[1..] + rest;
      DigitRunIs(dec, digits[1..], rest);
    }
  }

  lemma BulletLooks(dec: char -> int, bullet: char, rest: string)
    requires bullet in {'-', '*', '+'} && rest != "" && IsSpace(rest[0])
    ensures LooksLikeItem(dec, [bullet] + rest) && !IsSpace(bullet)
  {
    hide DigitRun;
  }

  lemma NumberLooks(dec: char -> int, digits: string, rest: string)
    requires digits != "" && AllDigits(dec, digits) && rest != "" && IsSpace(rest[0])
    ensures LooksLikeItem(dec, digits + ("." + rest)) && !IsSpace(digits[0])
  {
    hide DigitRun;
    DotNoDigit(dec);
    DigitRunIs(dec, digits, "." + rest);
    DigitNoSpace(dec, digits[0]);
    var s := digits + ("." + rest);
    assert s[|digits|] == '.' && s[|digits| + 1] == rest[0];
  }

  lemma DotNoDigit(dec: char -> int)
    ensures !IsDigit(dec, '.')
  {
  }

  lemma DigitNoSpace(dec: char -> int, c: char)
    requires IsDigit(dec, c)
    ensures !IsSpace(c)
  {
  }

  /** A line starts a list exactly if it is whitespace, which may be missing, and an item. */
  lemma ListLine(dec: char -> int, line: string)
    ensures StartsList(dec, line) <==> exists indent, s :: Blank(indent) && ItemText(dec, s) && line == indent + s
  {
    hide IsSpace, IsDigit, LStrip, Blank, DigitRun, AllDigits;
    var s := LStrip(line);
    LStripSplits(line);
    assert StartsList(dec, line) <==> LooksLikeItem(dec, s);
    if StartsList(dec, line) {
      var indent :| Blank(indent) && line == indent + s;
      LooksRight(dec, s);
    }
    forall indent, t | Blank(indent) && ItemText(dec, t) && line == indent + t
      ensures LooksLikeItem(dec, s)
    {
      ItemLooks(dec, t);
      LStripIndent(indent, t);
    }
  }

  lemma LooksRight(dec: char -> int, s: string)
    requires LooksLikeItem(dec, s)
    ensures ItemText(dec, s)
  {
    hide IsSpace, IsDigit, DigitRun;
    var n := DigitRun(dec, s);
    DigitRunMeaning(dec, s);
    if |s| > 1 && s[0] in {'-', '*', '+'} && IsSpace(s[1]) {
      assert s == [s[0]] + s[1..] && IsSpace(s[1..][0]);
    } else {
      assert s == s[..n] + ("." + s[n + 1..]) && IsSpace(s[n + 1..][0]);
    }
  }

  lemma ItemLooks(dec: char -> int, s: string)
    requires ItemText(dec, s)
    ensures LooksLikeItem(dec, s) && s != "" && !IsSpace(s[0])
  {
    hide IsSpace, AllDigits, LooksLikeItem;
    if bullet, rest :| bullet in {'-', '*', '+'} && rest != "" && IsSpace(rest[0]) && s == [bullet] + rest {
      BulletLooks(dec, bullet, rest);
    } else {
      var digits, rest :| digits != "" && AllDigits(dec, digits) && rest != "" && IsSpace(rest[0]) && s == digits + ("." + rest);
      NumberLooks(dec, digits, rest);
    }
  }

  /** Which lines go on with a table or a list, and which start a table. */
  lemma ContinuationLines(dec: char -> int, line: string)
    ensures StartsTable(line) <==> "|" <= line
    ensures TableContinues(line) <==> "|" <= line || Blank(line)
    ensures ListContinues(dec, line) <==> StartsList(dec, line) || "  " <= line
  {
    hide StartsList;
    StripEnds(line);
    assert "|" <= line <==> line != "" && line[0] == "|"[0];
    assert |line| > 1 ==> ("  " <= line <==> line[0] == "  "[0] && line[1] == "  "[1]);
  }

  // ---------- Position in the document ----------

  /** The page of the last marker. */
  function PageAfter(dec: char -> int, lines: seq<string>): Option<nat> {
    if lines == [] then None
    else
      var kind := Classify(dec, lines[|lines| - 1]);
      if kind.Marker? then Some(kind.page) else PageAfter(dec, lines[..|lines| - 1])
  }

  /** A heading replaces the titles of its own depth and below. */
  function PushTitle(stack: seq<string>, depth: nat, title: string): seq<string>
    requires depth > 0
  {
    (if |stack| >= depth then stack[..depth - 1] else stack) + [title]
  }

  function PathAfter(dec: char -> int, lines: seq<string>): seq<string> {
    if lines == [] then []
    else
      var before, last := PathAfter(dec, lines[..|lines| - 1]), lines[|lines| - 1];
      if Classify(dec, last).Heading? then PushTitle(before, HeadingDepth(last), HeadingTitle(last)) else before
  }

  // ---------- Specification of the scan ----------

  ghost predicate Gap(dec: char -> int, lines: seq<string>, a: nat, b: nat)
    requires b <= |lines|
  {
    forall i :: a <= i < b ==> Classify(dec, lines[i]).Marker? || (Classify(dec, lines[i]).Plain? && Blank(lines[i]))
  }

  ghost predicate Run(dec: char -> int, lines: seq<string>, a: nat, b: nat, kind: Kind)
    requires b <= |lines|
  {
    match kind
    case Marker(_) => false
    case Heading(_) => b == a + 1
    case TableRow =>
      (forall i :: a <= i < b ==> TableContinues(lines[i])) && (b < |lines| ==> !TableContinues(lines[b]))
    case ListItem =>
      (forall i :: a <= i < b ==> ListContinues(dec, lines[i])) && (b < |lines| ==> !ListContinues(dec, lines[b]))
    case Plain =>
      (forall i :: a <= i < b ==> Classify(dec, lines[i]).Plain?) && (b < |lines| ==> !Classify(dec, lines[b]).Plain?)
  }

  function LevelOf(kind: Kind): Level {
    match kind
    case Heading(depth) => HeadingLevel(depth)
    case TableRow => TABLE
    case ListItem => LIST
    case _ => PARAGRAPH
  }

  /** The block is the longest run of lines of its kind that starts at a, on the page and under the headings before it. */
  ghost predicate Covers(dec: char -> int, lines: seq<string>, block: TextBlock, a: nat, b: nat)
    requires a < b <= |lines|
  {
    var kind := Classify(dec, lines[a]);
    && Run(dec, lines, a, b, kind)
    && block.level == LevelOf(kind)
    && block.text == (if kind.Heading? then RStrip(lines[a]) else Strip(Concat(lines[a..b])))
    && block.text != ""
    && block.page == PageAfter(dec, lines[..b])
    && block.path == PathAfter(dec, lines[..b])
  }

  /** The blocks cover the first lines in order; only page markers and blank lines are left between them. */
  ghost predicate Tiled(dec: char -> int, lines: seq<string>, blocks: seq<TextBlock>, spans: seq<(nat, nat)>, to: nat)
    requires to <= |lines|
    decreases |blocks|
  {
    if blocks == [] then
      spans == [] && Gap(dec, lines, 0, to)
    else
      && |spans| == |blocks|
      && var (a, b) := spans[|spans| - 1];
      && a < b <= to
      && Gap(dec, lines, b, to)
      && Covers(dec, lines, blocks[|blocks| - 1], a, b)
      && Tiled(dec, lines, blocks[..|blocks| - 1], spans[..|spans| - 1], a)
  }

  lemma TiledGap(dec: char -> int, lines: seq<string>, blocks: seq<TextBlock>, spans: seq<(nat, nat)>, from: nat, to: nat)
    requires from <= to <= |lines| && Tiled(dec, lines, blocks, spans, from)
    requires Gap(dec, lines, from, to)
    ensures Tiled(dec, lines, blocks, spans, to)
  {
  }

  lemma TiledPush(dec: char -> int, lines: seq<string>, blocks: seq<TextBlock>, spans: seq<(nat, nat)>,
                  block: TextBlock, a: nat, b: nat)
    requires a < b <= |lines| && Tiled(dec, lines, blocks, spans, a)
    requires Covers(dec, lines, block, a, b)
    ensures Tiled(dec, lines, blocks + [block], spans + [(a, b)], b)
  {
    assert blocks == [] ==> spans == [];
    assert (blocks + [block])[..|blocks|] == blocks && (spans + [(a, b)])[..|spans|] == spans;
  }

  // ---------- The scanner ----------

  method Flush(blocks: seq<TextBlock>, buffer: seq<string>, page: Option<nat>, stack: seq<string>)
    returns (blocks': seq<TextBlock>)
    ensures blocks' == if Blank(Concat(buffer)) then blocks
                       else blocks + [TextBlock(PARAGRAPH, Strip(Concat(buffer)), page, stack)]
  {
    StripEnds(Concat(buffer));
    blocks' := blocks;
    var joined := Strip(Concat(buffer));
    if joined != "" {
      blocks' := blocks' + [TextBlock(PARAGRAPH, joined, page, stack)];
    }
  }

  method PopAndPush(stack: seq<string>, depth: nat, title: string) returns (stack': seq<string>)
    requires depth > 0
    ensures stack' == PushTitle(stack, depth, title)
  {
    stack' := stack;
    while |stack'| >= depth
      invariant stack' == stack[..|stack'|] && |stack'| <= |stack|
      invariant |stack'| >= depth - 1 || stack' == stack
    {
      stack' := stack'[..|stack'| - 1];
    }
    stack' := stack' + [title];
  }

  ghost predicate Extracted(dec: char -> int, source: string, blocks: seq<TextBlock>, spans: seq<(nat, nat)>) {
    var text := Strip(source);
    var lines := SplitLines(text);
    || (Tiled(dec, lines, blocks, spans, |lines|) && (blocks == [] ==> text == ""))
    || (Tiled(dec, lines, [], [], |lines|) && text != "" && blocks == [TextBlock(PARAGRAPH, text, None, [])])
  }

  lemma AfterLine(dec: char -> int, lines: seq<string>, i: nat)
    requires i < |lines|
    ensures PageAfter(dec, lines[..i + 1]) ==
            var kind := Classify(dec, lines[i]); if kind.Marker? then Some(kind.page) else PageAfter(dec, lines[..i])
    ensures PathAfter(dec, lines[..i + 1]) ==
            if Classify(dec, lines[i]).Heading? then
              PushTitle(PathAfter(dec, lines[..i]), HeadingDepth(lines[i]), HeadingTitle(lines[i]))
            else PathAfter(dec, lines[..i])
  {
    assert lines[..i + 1][..i] == lines[..i];
  }

  lemma ConcatLine(lines: seq<string>, a: nat, i: nat)
    requires a <= i < |lines|
    ensures lines[a..i + 1] == lines[a..i] + [lines[i]]
  {
  }

  lemma {:induction false} BlankConcat(lines: seq<string>, a: nat, b: nat)
    requires a <= b <= |lines|
    ensures Blank(Concat(lines[a..b])) ==> forall i :: a <= i < b ==> Blank(lines[i])
  {
    hide Blank;
    if a < b {
      BlankConcat(lines, a, b - 1);
      ConcatLine(lines, a, b - 1);
      var init, last := Concat(lines[a..b - 1]), lines[b - 1];
      assert lines[a..b][..b - a - 1] == lines[a..b - 1];
      assert Concat(lines[a..b]) == init + last;
      BlankBoth(init, last);
    }
  }

  lemma BlankBoth(a: string, b: string)
    ensures Blank(a + b) ==> Blank(a) && Blank(b)
  {
    assert forall i :: 0 <= i < |a| ==> (a + b)[i] == a[i];
    assert forall i :: 0 <= i < |b| ==> (a + b)[|a| + i] == b[i];
  }

  /** Flushing the buffered plain lines keeps the tiling. */
  lemma TiledFlush(dec: char -> int, lines: seq<string>, blocks: seq<TextBlock>, spans: seq<(nat, nat)>, a: nat, b: nat)
    returns (spans': seq<(nat, nat)>)
    requires a <= b <= |lines| && Tiled(dec, lines, blocks, spans, a)
    requires forall i :: a <= i < b ==> Classify(dec, lines[i]).Plain?
    requires b < |lines| ==> !Classify(dec, lines[b]).Plain?
    ensures Tiled(dec, lines, if Blank(Concat(lines[a..b])) then blocks
                              else blocks + [TextBlock(PARAGRAPH, Strip(Concat(lines[a..b])),
                                                       PageAfter(dec, lines[..b]), PathAfter(dec, lines[..b]))],
                  spans', b)
  {
    hide Classify, PageAfter, PathAfter, Tiled, Strip, Blank;
    BlankConcat(lines, a, b);
    StripEnds(Concat(lines[a..b]));
    if Blank(Concat(lines[a..b])) {
      TiledGap(dec, lines, blocks, spans, a, b);
      spans' := spans;
    } else {
      assert a == b ==> Concat(lines[a..b]) == "";
      BlankEmpty();
      var block := TextBlock(PARAGRAPH, Strip(Concat(lines[a..b])), PageAfter(dec, lines[..b]), PathAfter(dec, lines[..b]));
      TiledPush(dec, lines, blocks, spans, block, a, b);
      spans' := spans + [(a, b)];
    }
  }

  lemma BlankEmpty()
    ensures Blank("")
  {
  }

  /** The rows of a table: the longest run of table and blank lines. */
  method ScanTable(dec: char -> int, lines: seq<string>, start: nat) returns (rows: seq<string>, i: nat)
    requires start < |lines| && Classify(dec, lines[start]).TableRow?
    ensures start < i <= |lines| && rows == lines[start..i]
    ensures Run(dec, lines, start, i, TableRow)
    ensures PageAfter(dec, lines[..i]) == PageAfter(dec, lines[..start])
    ensures PathAfter(dec, lines[..i]) == PathAfter(dec, lines[..start])
  {
    hide PageAfter, PathAfter, PushTitle, Strip, MarkerPage, HeadingDepth, HeadingTitle, StartsList;
    rows, i := [], start;
    while i < |lines| && (StartsTable(lines[i]) || Strip(lines[i]) == "")
      invariant start <= i <= |lines| && rows == lines[start..i]
      invariant forall k :: start <= k < i ==> TableContinues(lines[k])
      invariant PageAfter(dec, lines[..i]) == PageAfter(dec, lines[..start])
      invariant PathAfter(dec, lines[..i]) == PathAfter(dec, lines[..start])
    {
      NeverSwallowed(dec, lines[i]);
      AfterLine(dec, lines, i);
      rows := rows + [lines[i]];
      i := i + 1;
    }
  }

  /** The lines of a list: the longest run of items and indented lines. */
  method ScanList(dec: char -> int, lines: seq<string>, start: nat) returns (items: seq<string>, i: nat)
    requires start < |lines| && Classify(dec, lines[start]).ListItem?
    ensures start < i <= |lines| && items == lines[start..i]
    ensures Run(dec, lines, start, i, ListItem)
    ensures PageAfter(dec, lines[..i]) == PageAfter(dec, lines[..start])
    ensures PathAfter(dec, lines[..i]) == PathAfter(dec, lines[..start])
  {
    hide PageAfter, PathAfter, PushTitle, Strip, MarkerPage, HeadingDepth, HeadingTitle, StartsList;
    items, i := [], start;
    while i < |lines| && (StartsList(dec, lines[i]) || (items != [] && |lines[i]| > 1 && lines[i][..2] == "  "))
      invariant start <= i <= |lines| && items == lines[start..i]
      invariant forall k :: start <= k < i ==> ListContinues(dec, lines[k])
      invariant PageAfter(dec, lines[..i]) == PageAfter(dec, lines[..start])
      invariant PathAfter(dec, lines[..i]) == PathAfter(dec, lines[..start])
    {
      assert |lines[i]| > 1 && lines[i][..2] == "  " ==> lines[i][0] == "  "[0] && lines[i][1] == "  "[1];
      NeverSwallowed(dec, lines[i]);
      AfterLine(dec, lines, i);
      items := items + [lines[i]];
      i := i + 1;
    }
    if i < |lines| && |lines[i]| > 1 && lines[i][0] == ' ' && lines[i][1] == ' ' {
      assert lines[i][..2] == "  ";
    }
  }

  // ---------- One lemma for each branch of the scan ----------

  lemma TiledStart(dec: char -> int, lines: seq<string>)
    ensures Tiled(dec, lines, [], [], 0)
    ensures PageAfter(dec, lines[..0]) == None && PathAfter(dec, lines[..0]) == []
  {
  }

  lemma Tests(dec: char -> int, line: string)
    ensures var kind := Classify(dec, line);
            if MarkerPage(dec, line).Some? then kind == Marker(MarkerPage(dec, line).value)
            else if HeadingDepth(line) > 0 then kind == Heading(HeadingDepth(line))
            else if StartsTable(line) then kind == TableRow
            else if StartsList(dec, line) then kind == ListItem
            else kind == Plain
  {
  }

  lemma TiledMarker(dec: char -> int, lines: seq<string>, blocks: seq<TextBlock>, spans: seq<(nat, nat)>, i: nat)
    requires i < |lines| && Tiled(dec, lines, blocks, spans, i) && Classify(dec, lines[i]).Marker?
    ensures Tiled(dec, lines, blocks, spans, i + 1)
  {
    TiledGap(dec, lines, blocks, spans, i, i + 1);
  }

  lemma TiledHeading(dec: char -> int, lines: seq<string>, blocks: seq<TextBlock>, spans: seq<(nat, nat)>, i: nat)
    requires i < |lines| && Tiled(dec, lines, blocks, spans, i)
    requires HeadingDepth(lines[i]) > 0 && Classify(dec, lines[i]) == Heading(HeadingDepth(lines[i]))
    ensures Tiled(dec, lines,
                  blocks + [TextBlock(HeadingLevel(HeadingDepth(lines[i])), RStrip(lines[i]),
                                      PageAfter(dec, lines[..i + 1]), PathAfter(dec, lines[..i + 1]))],
                  spans + [(i, i + 1)], i + 1)
  {
    hide PageAfter, PathAfter, Tiled, Classify;
    var block := TextBlock(HeadingLevel(HeadingDepth(lines[i])), RStrip(lines[i]),
                           PageAfter(dec, lines[..i + 1]), PathAfter(dec, lines[..i + 1]));
    TiledPush(dec, lines, blocks, spans, block, i, i + 1);
  }

  lemma NotBlank(dec: char -> int, line: string)
    requires Classify(dec, line).TableRow? || Classify(dec, line).ListItem?
    ensures !Blank(line)
  {
    StripEnds(line);
    if Classify(dec, line).TableRow? {
      assert !IsSpace(line[0]);
    } else {
      assert LStrip(line) != "";
      LStripFirst(line);
      WordsLStrip(line);
      WordsOfBlank(line);
      WordsOfBlank(LStrip(line));
      assert !IsSpace(LStrip(line)[0]);
    }
  }

  lemma TiledRun(dec: char -> int, lines: seq<string>, blocks: seq<TextBlock>, spans: seq<(nat, nat)>, a: nat, b: nat)
    requires a < b <= |lines| && Tiled(dec, lines, blocks, spans, a)
    requires Classify(dec, lines[a]).TableRow? || Classify(dec, lines[a]).ListItem?
    requires Run(dec, lines, a, b, Classify(dec, lines[a]))
    ensures Tiled(dec, lines,
                  blocks + [TextBlock(LevelOf(Classify(dec, lines[a])), Strip(Concat(lines[a..b])),
                                      PageAfter(dec, lines[..b]), PathAfter(dec, lines[..b]))],
                  spans + [(a, b)], b)
  {
    hide PageAfter, PathAfter, Tiled, Classify, Concat, Strip, Blank, Run;
    var block := TextBlock(LevelOf(Classify(dec, lines[a])), Strip(Concat(lines[a..b])),
                           PageAfter(dec, lines[..b]), PathAfter(dec, lines[..b]));
    NotBlank(dec, lines[a]);
    BlankConcat(lines, a, b);
    StripEnds(Concat(lines[a..b]));
    assert block.text != "";
    TiledPush(dec, lines, blocks, spans, block, a, b);
  }

  lemma ExtractedByTiling(dec: char -> int, source: string, blocks: seq<TextBlock>, spans: seq<(nat, nat)>)
    requires Tiled(dec, SplitLines(Strip(source)), blocks, spans, |SplitLines(Strip(source))|)
    ensures Extracted(dec, source, if blocks == [] && Strip(source) != "" then [TextBlock(PARAGRAPH, Strip(source), None, [])]
                                   else blocks, spans)
  {
    hide SplitLines, Strip, Gap;
  }

  method ExtractBlocks(dec: char -> int, source: string) returns (blocks: seq<TextBlock>, ghost spans: seq<(nat, nat)>)
    ensures Extracted(dec, source, blocks, spans)
    ensures BlockWords(blocks) == SourceWords(dec, source)
    ensures forall k :: 0 <= k < |blocks| ==> Trimmed(blocks[k].text)
  {
    hide *;
    var text := Strip(source);
    var lines := SplitLines(text);
    blocks, spans := [], [];
    var page: Option<nat> := None;
    var stack: seq<string> := [];
    var buffer: seq<string> := [];
    ghost var from := 0;
    var i := 0;
    TiledStart(dec, lines);
    while i < |lines|
      invariant from <= i <= |lines|
      invariant buffer == lines[from..i]
      invariant forall k :: from <= k < i ==> Classify(dec, lines[k]).Plain?
      invariant Tiled(dec, lines, blocks, spans, from)
      invariant page == PageAfter(dec, lines[..i]) && stack == PathAfter(dec, lines[..i])
    {
      Tests(dec, lines[i]);
      AfterLine(dec, lines, i);
      if !Classify(dec, lines[i]).Plain? {
        spans := TiledFlush(dec, lines, blocks, spans, from, i);
      }
      if MarkerPage(dec, lines[i]).Some? {
        blocks := Flush(blocks, buffer, page, stack);
        buffer := [];
        TiledMarker(dec, lines, blocks, spans, i);
        page := Some(MarkerPage(dec, lines[i]).value);
        i := i + 1;
        from := i;
      } else if HeadingDepth(lines[i]) > 0 {
        blocks := Flush(blocks, buffer, page, stack);
        buffer := [];
        var depth := HeadingDepth(lines[i]);
        stack := PopAndPush(stack, depth, HeadingTitle(lines[i]));
        TiledHeading(dec, lines, blocks, spans, i);
        spans := spans + [(i, i + 1)];
        blocks := blocks + [TextBlock(HeadingLevel(depth), RStrip(lines[i]), page, stack)];
        i := i + 1;
        from := i;
      } else if StartsTable(lines[i]) {
        blocks := Flush(blocks, buffer, page, stack);
        buffer := [];
        var rows;
        from := i;
        rows, i := ScanTable(dec, lines, i);
        TiledRun(dec, lines, blocks, spans, from, i);
        spans := spans + [(from, i)];
        LevelOfRun();
        blocks := blocks + [TextBlock(TABLE, Strip(Concat(rows)), page, stack)];
        from := i;
      } else if StartsList(dec, lines[i]) {
        blocks := Flush(blocks, buffer, page, stack);
        buffer := [];
        var items;
        from := i;
        items, i := ScanList(dec, lines, i);
        TiledRun(dec, lines, blocks, spans, from, i);
        spans := spans + [(from, i)];
        LevelOfRun();
        blocks := blocks + [TextBlock(LIST, Strip(Concat(items)), page, stack)];
        from := i;
      } else {
        buffer := buffer + [lines[i]];
        i := i + 1;
      }
    }
    spans := TiledFlush(dec, lines, blocks, spans, from, i);
    blocks := Flush(blocks, buffer, page, stack);
    ExtractedByTiling(dec, source, blocks, spans);
    if blocks == [] && text != "" {
      blocks := [TextBlock(PARAGRAPH, text, None, [])];
    }
    ExtractedWords(dec, source, blocks, spans);
  }

  lemma LevelOfRun()
    ensures LevelOf(TableRow) == TABLE && LevelOf(ListItem) == LIST
  {
  }

  // ---------- What the blocks keep ----------

  /** The words of the lines that are not page markers. */
  function KeptWords(dec: char -> int, lines: seq<string>): seq<string> {
    if lines == [] then []
    else
      var last := lines[|lines| - 1];
      KeptWords(dec, lines[..|lines| - 1]) + (if Classify(dec, last).Marker? then [] else Words(last))
  }

  /** The words to be chunked: everything but the page markers, unless there is nothing else. */
  function SourceWords(dec: char -> int, source: string): seq<string> {
    var kept := KeptWords(dec, SplitLines(Strip(source)));
    if kept == [] then Words(source) else kept
  }

  function BlockWords(blocks: seq<TextBlock>): seq<string> {
    if blocks == [] then [] else BlockWords(blocks[..|blocks| - 1]) + Words(blocks[|blocks| - 1].text)
  }

  lemma KeptLine(dec: char -> int, lines: seq<string>, i: nat)
    requires i < |lines|
    ensures KeptWords(dec, lines[..i + 1]) ==
            KeptWords(dec, lines[..i]) + (if Classify(dec, lines[i]).Marker? then [] else Words(lines[i]))
  {
    assert lines[..i + 1][..i] == lines[..i];
  }

  lemma {:induction false} KeptGap(dec: char -> int, lines: seq<string>, a: nat, b: nat)
    requires a <= b <= |lines| && Gap(dec, lines, a, b)
    ensures KeptWords(dec, lines[..b]) == KeptWords(dec, lines[..a])
  {
    hide Classify, KeptWords, Words, Blank;
    if a < b {
      KeptGap(dec, lines, a, b - 1);
      KeptLine(dec, lines, b - 1);
      WordsOfBlank(lines[b - 1]);
    }
  }

  lemma {:induction false} KeptRun(dec: char -> int, lines: seq<string>, a: nat, b: nat)
    requires a <= b <= |lines| && forall i :: a <= i < b ==> !Classify(dec, lines[i]).Marker?
    ensures KeptWords(dec, lines[..b]) == KeptWords(dec, lines[..a]) + WordsOf(lines[a..b])
  {
    hide Classify, KeptWords, Words;
    if a == b {
      assert lines[a..b] == [];
    } else {
      KeptRun(dec, lines, a, b - 1);
      KeptLine(dec, lines, b - 1);
      ConcatLine(lines, a, b - 1);
      WordsOfAppend(lines[a..b - 1], lines[b - 1]);
    }
  }

  lemma ProperSlice(lines: seq<string>, a: nat, b: nat)
    requires a <= b <= |lines| && ProperLines(lines)
    ensures ProperLines(lines[a..b])
  {
  }

  lemma RunHasNoMarker(dec: char -> int, lines: seq<string>, a: nat, b: nat)
    requires a < b <= |lines| && Run(dec, lines, a, b, Classify(dec, lines[a]))
    ensures forall i :: a <= i < b ==> !Classify(dec, lines[i]).Marker?
  {
    forall i | a <= i < b
      ensures !Classify(dec, lines[i]).Marker?
    {
      hide Classify, TableContinues, ListContinues;
      NeverSwallowed(dec, lines[i]);
    }
  }

  lemma CoversWords(dec: char -> int, lines: seq<string>, block: TextBlock, a: nat, b: nat)
    requires a < b <= |lines| && ProperLines(lines) && Covers(dec, lines, block, a, b)
    ensures Words(block.text) == WordsOf(lines[a..b])
  {
    hide Classify, Words, Run, Strip, Concat, PageAfter, PathAfter, RStrip;
    if Classify(dec, lines[a]).Heading? {
      HeadingRun(dec, lines, a, b);
      WordsRStrip(lines[a]);
      assert lines[a..b] == [] + [lines[a]];
      WordsOfAppend([], lines[a]);
    } else {
      ProperSlice(lines, a, b);
      WordsOfLines(lines[a..b]);
      WordsStrip(Concat(lines[a..b]));
    }
  }

  lemma HeadingRun(dec: char -> int, lines: seq<string>, a: nat, b: nat)
    requires a < b <= |lines| && Classify(dec, lines[a]).Heading? && Run(dec, lines, a, b, Classify(dec, lines[a]))
    ensures b == a + 1
  {
  }

  lemma {:induction false} TiledWords(dec: char -> int, lines: seq<string>, blocks: seq<TextBlock>,
                                      spans: seq<(nat, nat)>, to: nat)
    requires to <= |lines| && ProperLines(lines) && Tiled(dec, lines, blocks, spans, to)
    ensures BlockWords(blocks) == KeptWords(dec, lines[..to])
    decreases |blocks|
  {
    hide Covers, Gap, KeptWords, Words, Run, Classify, ProperLines;
    if blocks == [] {
      KeptGap(dec, lines, 0, to);
      KeptNone(dec, lines);
    } else {
      var (a, b) := spans[|spans| - 1];
      TiledWords(dec, lines, blocks[..|blocks| - 1], spans[..|spans| - 1], a);
      CoversWords(dec, lines, blocks[|blocks| - 1], a, b);
      CoversRun(dec, lines, blocks[|blocks| - 1], a, b);
      RunHasNoMarker(dec, lines, a, b);
      KeptRun(dec, lines, a, b);
      KeptGap(dec, lines, b, to);
    }
  }

  lemma KeptNone(dec: char -> int, lines: seq<string>)
    ensures KeptWords(dec, lines[..0]) == []
  {
  }

  lemma CoversRun(dec: char -> int, lines: seq<string>, block: TextBlock, a: nat, b: nat)
    requires a < b <= |lines| && Covers(dec, lines, block, a, b)
    ensures Run(dec, lines, a, b, Classify(dec, lines[a]))
  {
  }

  predicate Trimmed(s: string) {
    s != "" && !IsSpace(s[0]) && !IsSpace(s[|s| - 1])
  }

  lemma CoversTrimmed(dec: char -> int, lines: seq<string>, block: TextBlock, a: nat, b: nat)
    requires a < b <= |lines| && Covers(dec, lines, block, a, b)
    ensures Trimmed(block.text)
  {
    if Classify(dec, lines[a]).Heading? {
      RStripEnds(lines[a]);
      assert lines[a][0] == block.text[0];
    } else {
      StripEnds(Concat(lines[a..b]));
    }
  }

  lemma {:induction false} TiledTrimmed(dec: char -> int, lines: seq<string>, blocks: seq<TextBlock>,
                                        spans: seq<(nat, nat)>, to: nat)
    requires to <= |lines| && Tiled(dec, lines, blocks, spans, to)
    ensures forall k :: 0 <= k < |blocks| ==> Trimmed(blocks[k].text)
    decreases |blocks|
  {
    hide Covers, Gap, Trimmed;
    if blocks != [] {
      var (a, b) := spans[|spans| - 1];
      var init := blocks[..|blocks| - 1];
      TiledTrimmed(dec, lines, init, spans[..|spans| - 1], a);
      CoversTrimmed(dec, lines, blocks[|blocks| - 1], a, b);
      assert forall k :: 0 <= k < |init| ==> blocks[k] == init[k];
    }
  }

  /** The scan loses no word: the blocks hold the words of the text, in order, and none of them is blank. */
  lemma ExtractedWords(dec: char -> int, source: string, blocks: seq<TextBlock>, spans: seq<(nat, nat)>)
    requires Extracted(dec, source, blocks, spans)
    ensures BlockWords(blocks) == SourceWords(dec, source)
    ensures forall k :: 0 <= k < |blocks| ==> Trimmed(blocks[k].text)
  {
    var text := Strip(source);
    var lines := SplitLines(text);
    hide SplitLines, Strip, Words, KeptWords, Tiled, ProperLines;
    SplitLinesProper(text);
    StripEnds(source);
    WordsStrip(source);
    assert lines[..|lines|] == lines;
    if Tiled(dec, lines, blocks, spans, |lines|) && (blocks == [] ==> text == "") {
      TiledWords(dec, lines, blocks, spans, |lines|);
      TiledTrimmed(dec, lines, blocks, spans, |lines|);
      if blocks == [] {
        WordsOfEmpty();
      } else {
        SomeWords(blocks);
      }
    } else {
      TiledWords(dec, lines, [], [], |lines|);
      OneBlock(blocks[0]);
    }
  }

  lemma SomeWords(blocks: seq<TextBlock>)
    requires blocks != [] && Trimmed(blocks[|blocks| - 1].text)
    ensures BlockWords(blocks) != []
  {
    var text := blocks[|blocks| - 1].text;
    WordsOfBlank(text);
    assert !Blank(text);
  }

  lemma OneBlock(block: TextBlock)
    ensures BlockWords([block]) == Words(block.text)
  {
    hide Words;
    assert [block][..0] == [];
  }

  /** Every heading line is a block of its own and every table row lies in a table block, wherever they stand. */
  lemma {:induction false} LinePlaced(dec: char -> int, lines: seq<string>, blocks: seq<TextBlock>,
                                      spans: seq<(nat, nat)>, to: nat, i: nat) returns (k: nat)
    requires i < to <= |lines| && Tiled(dec, lines, blocks, spans, to)
    requires Classify(dec, lines[i]).Heading? || Classify(dec, lines[i]).TableRow?
    ensures k < |blocks| == |spans| && spans[k].0 <= i < spans[k].1 <= to
    ensures Covers(dec, lines, blocks[k], spans[k].0, spans[k].1)
    ensures Classify(dec, lines[i]).Heading? ==> blocks[k].text == RStrip(lines[i]) && blocks[k].level in {H1, H2, H3}
    ensures Classify(dec, lines[i]).TableRow? ==> blocks[k].level == TABLE
    decreases |blocks|
  {
    hide Classify;
    assert blocks != [];
    var (a, b) := spans[|spans| - 1];
    if i < a {
      k := LinePlaced(dec, lines, blocks[..|blocks| - 1], spans[..|spans| - 1], a, i);
    } else {
      assert i < b;
      k := |blocks| - 1;
      RunPlaces(dec, lines, a, b, i);
    }
  }

  lemma RunPlaces(dec: char -> int, lines: seq<string>, a: nat, b: nat, i: nat)
    requires a <= i < b <= |lines| && Run(dec, lines, a, b, Classify(dec, lines[a]))
    ensures Classify(dec, lines[i]).Heading? ==> a == i
    ensures Classify(dec, lines[i]).TableRow? ==> Classify(dec, lines[a]).TableRow?
  {
    NeverSwallowed(dec, lines[i]);
    Tests(dec, lines[i]);
    Tests(dec, lines[a]);
    if StartsTable(lines[i]) {
      assert LStrip(lines[i]) == lines[i];
    }
  }
}
