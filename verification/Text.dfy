/** Python's whitespace, stripping, splitting and joining on strings, with the laws of their words. */
module Text {

  /** str.isspace, which is also the class \s of a text pattern. */
  predicate IsSpace(c: char) {
    var n := c as int;
    0x09 <= n <= 0x0D || 0x1C <= n <= 0x20 || n == 0x85 || n == 0xA0 || n == 0x1680
    || 0x2000 <= n <= 0x200A || n == 0x2028 || n == 0x2029 || n == 0x202F || n == 0x205F || n == 0x3000
  }

  /** The line boundaries of str.splitlines. */
  predicate IsBreak(c: char) {
    var n := c as int;
    0x0A <= n <= 0x0D || 0x1C <= n <= 0x1E || n == 0x85 || n == 0x2028 || n == 0x2029
  }

  /** The code points of whitespace, and those that end a line. */
  lemma SpaceMeaning(c: char)
    ensures IsSpace(c) <==>
      c as int in {9, 10, 11, 12, 13, 28, 29, 30, 31, 32, 133, 160, 5760, 8192, 8193, 8194, 8195, 8196, 8197, 8198, 8199,
                   8200, 8201, 8202, 8232, 8233, 8239, 8287, 12288}
    ensures IsBreak(c) <==> c as int in {10, 11, 12, 13, 28, 29, 30, 133, 8232, 8233}
    ensures IsBreak(c) ==> IsSpace(c)
  {
  }

  predicate Blank(s: string) {
    forall i :: 0 <= i < |s| ==> IsSpace(s[i])
  }

  predicate NoSpace(s: string) {
    forall i :: 0 <= i < |s| ==> !IsSpace(s[i])
  }

  // ---------- Stripping ----------

  function LStrip(s: string): string {
    if s != "" && IsSpace(s[0]) then LStrip(s[1..]) else s
  }

  function RStrip(s: string): string {
    if s != "" && IsSpace(s[|s| - 1]) then RStrip(s[..|s| - 1]) else s
  }

  function Strip(s: string): string {
    RStrip(LStrip(s))
  }

  // ---------- Words: str.split() ----------

  /** Length of the leading run of non-space characters. */
  function WordLength(s: string): (n: nat)
    ensures n <= |s| && NoSpace(s[..n]) && (n < |s| ==> IsSpace(s[n]))
  {
    if s == "" || IsSpace(s[0]) then 0 else 1 + WordLength(s[1..])
  }

  function Words(s: string): seq<string>
    decreases |s|
  {
    if s == "" then []
    else if IsSpace(s[0]) then Words(s[1..])
    else [s[..WordLength(s)]] + Words(s[WordLength(s)..])
  }

  predicate IsWord(w: string) {
    w != "" && NoSpace(w)
  }

  lemma {:induction false} WordsAreWords(s: string)
    ensures forall w :: w in Words(s) ==> IsWord(w)
    decreases |s|
  {
    if s != "" {
      if IsSpace(s[0]) {
        WordsAreWords(s[1..]);
      } else {
        WordsAreWords(s[WordLength(s)..]);
      }
    }
  }

  lemma {:induction false} WordLengthConcat(a: string, b: string)
    requires WordLength(a) < |a| || b == "" || IsSpace(b[0])
    ensures WordLength(a + b) == WordLength(a)
  {
    if a == "" {
      assert a + b == b;
    } else if !IsSpace(a[0]) {
      assert (a + b)[1..] == a[1..] + b;
      WordLengthConcat(a[1..], b);
    }
  }

  lemma WordsFirst(s: string)
    requires s != "" && !IsSpace(s[0])
    ensures 0 < WordLength(s) <= |s|
    ensures Words(s) == [s[..WordLength(s)]] + Words(s[WordLength(s)..])
    ensures WordLength(s) == |s| ==> !IsSpace(s[|s| - 1])
  {
    if WordLength(s) == |s| {
      assert s[..|s|][|s| - 1] == s[|s| - 1];
    }
  }

  lemma WordsSkip(s: string)
    requires s != "" && IsSpace(s[0])
    ensures Words(s) == Words(s[1..])
  {
  }

  lemma WordsOfEmpty()
    ensures Words("") == []
  {
  }

  /** Words are split apart by whitespace on either side of a concatenation. */
  lemma {:induction false} WordsConcat(a: string, b: string)
    requires a == "" || b == "" || IsSpace(a[|a| - 1]) || IsSpace(b[0])
    ensures Words(a + b) == Words(a) + Words(b)
    decreases |a|
  {
    hide Words, WordLength, NoSpace, IsSpace;
    WordsOfEmpty();
    if a == "" {
      assert a + b == b;
    } else if b == "" {
      assert a + b == a;
    } else if IsSpace(a[0]) {
      assert (a + b)[1..] == a[1..] + b;
      WordsSkip(a);
      WordsSkip(a + b);
      WordsConcat(a[1..], b);
    } else {
      WordsConcatAtWord(a, b);
      WordsFirst(a);
      var rest := a[WordLength(a)..];
      assert rest != "" ==> rest[|rest| - 1] == a[|a| - 1];
      WordsConcat(rest, b);
    }
  }

  lemma WordsConcatAtWord(a: string, b: string)
    requires a != "" && b != "" && !IsSpace(a[0])
    requires IsSpace(a[|a| - 1]) || IsSpace(b[0])
    ensures Words(a + b) == [a[..WordLength(a)]] + Words(a[WordLength(a)..] + b)
  {
    hide Words, WordLength, NoSpace;
    var n := WordLength(a);
    WordsFirst(a);
    WordLengthConcat(a, b);
    WordsFirst(a + b);
    assert (a + b)[..n] == a[..n] && (a + b)[n..] == a[n..] + b;
  }

  lemma {:induction false} WordsOfBlank(s: string)
    ensures Blank(s) <==> Words(s) == []
  {
    if s != "" {
      WordsOfBlank(s[1..]);
      if !IsSpace(s[0]) {
        assert !Blank(s);
      } else {
        assert Blank(s) <==> Blank(s[1..]) by {
          assert forall i :: 0 < i < |s| ==> s[i] == s[1..][i - 1];
        }
      }
    }
  }

  lemma {:induction false} WordsLStrip(s: string)
    ensures Words(LStrip(s)) == Words(s)
  {
    if s != "" && IsSpace(s[0]) {
      WordsLStrip(s[1..]);
    }
  }

  lemma {:induction false} WordsRStrip(s: string)
    ensures Words(RStrip(s)) == Words(s)
  {
    if s != "" && IsSpace(s[|s| - 1]) {
      var init := s[..|s| - 1];
      WordsRStrip(init);
      WordsConcat(init, [s[|s| - 1]]);
      WordsOfBlank([s[|s| - 1]]);
      assert s == init + [s[|s| - 1]];
    }
  }

  lemma WordsStrip(s: string)
    ensures Words(Strip(s)) == Words(s)
  {
    WordsLStrip(s);
    WordsRStrip(LStrip(s));
  }

  lemma {:induction false} LStripFirst(s: string)
    ensures LStrip(s) != "" ==> !IsSpace(LStrip(s)[0])
  {
    if s != "" && IsSpace(s[0]) {
      LStripFirst(s[1..]);
    }
  }

  lemma {:induction false} RStripEnds(s: string)
    ensures RStrip(s) <= s
    ensures RStrip(s) != "" ==> !IsSpace(RStrip(s)[|RStrip(s)| - 1])
  {
    if s != "" && IsSpace(s[|s| - 1]) {
      RStripEnds(s[..|s| - 1]);
    }
  }

  /** A stripped string neither starts nor ends with whitespace, and is empty exactly for a blank one. */
  lemma StripEnds(s: string)
    ensures Strip(s) != "" ==> !IsSpace(Strip(s)[0]) && !IsSpace(Strip(s)[|Strip(s)| - 1])
    ensures Strip(s) == "" <==> Blank(s)
  {
    LStripFirst(s);
    RStripEnds(LStrip(s));
    WordsStrip(s);
    WordsOfBlank(s);
    WordsOfBlank(Strip(s));
    if Strip(s) != "" {
      assert Strip(s)[0] == LStrip(s)[0];
      assert !Blank(Strip(s));
    }
  }

  /** Words take a character each and a space between them. */
  lemma {:induction false} WordsHalf(s: string)
    ensures 2 * |Words(s)| <= |s| + 1
    decreases |s|
  {
    if s != "" {
      if IsSpace(s[0]) {
        WordsHalf(s[1..]);
      } else {
        WordsFirst(s);
        var rest := s[WordLength(s)..];
        if rest != "" {
          WordsSkip(rest);
          WordsHalf(rest[1..]);
        }
      }
    }
  }

  // ---------- Suffixes ----------

  predicate IsSuffix(w: string, u: string) {
    |w| <= |u| && u[|u| - |w|..] == w
  }

  /** The last words of a list, the first of them possibly cut on its left. */
  predicate IsTail(tail: seq<string>, ws: seq<string>) {
    tail == []
    || (|tail| <= |ws| && IsSuffix(tail[0], ws[|ws| - |tail|]) && tail[1..] == ws[|ws| - |tail| + 1..])
  }

  lemma TailOfConcat(tail: seq<string>, a: seq<string>, b: seq<string>)
    requires IsTail(tail, b)
    ensures IsTail(tail, a + b)
  {
    if tail != [] {
      assert (a + b)[|a + b| - |tail| + 1..] == b[|b| - |tail| + 1..];
    }
  }

  lemma TailOfSlice(ws: seq<string>, n: nat)
    requires n <= |ws|
    ensures IsTail(ws[n..], ws)
  {
  }

  /** Cutting characters off the front leaves the last words, with at most the first of them cut. */
  lemma {:induction false} WordsOfSuffix(s: string, k: nat)
    requires k <= |s|
    ensures IsTail(Words(s[k..]), Words(s))
    decreases |s|
  {
    hide Words, WordLength, IsSpace;
    if k == 0 {
      assert s[0..] == s;
      TailOfSlice(Words(s), 0);
    } else if IsSpace(s[0]) {
      assert s[k..] == s[1..][k - 1..];
      WordsSkip(s);
      WordsOfSuffix(s[1..], k - 1);
    } else {
      WordsFirst(s);
      var n := WordLength(s);
      if k >= n {
        assert s[k..] == s[n..][k - n..];
        WordsOfSuffix(s[n..], k - n);
        TailOfConcat(Words(s[k..]), [s[..n]], Words(s[n..]));
      } else {
        WordsOfCut(s, k);
      }
    }
  }

  lemma CutWord(s: string, k: nat)
    requires k < WordLength(s)
    ensures IsWord(s[k..WordLength(s)]) && IsSuffix(s[k..WordLength(s)], s[..WordLength(s)])
    ensures WordLength(s) < |s| ==> IsSpace(s[WordLength(s)])
  {
    var n := WordLength(s);
    assert s[..n][k..] == s[k..n];
  }

  lemma WordsOfCut(s: string, k: nat)
    requires s != "" && !IsSpace(s[0]) && k < WordLength(s)
    ensures IsTail(Words(s[k..]), Words(s))
  {
    hide Words, IsSpace, NoSpace, WordLength;
    var n := WordLength(s);
    WordsFirst(s);
    CutWord(s, k);
    assert s[k..] == s[k..n] + s[n..];
    SingleWord(s[k..n]);
    WordsConcat(s[k..n], s[n..]);
  }

  lemma SingleWord(w: string)
    requires IsWord(w)
    ensures Words(w) == [w]
  {
    var n := WordLength(w);
    assert n == |w|;
    assert w[..n] == w && w[n..] == "";
  }

  // ---------- Joining ----------

  /** " ".join(ws). */
  function JoinSpace(ws: seq<string>): string {
    if ws == [] then ""
    else if |ws| == 1 then ws[0]
    else JoinSpace(ws[..|ws| - 1]) + " " + ws[|ws| - 1]
  }

  lemma {:induction false} WordsOfJoin(ws: seq<string>)
    requires forall w :: w in ws ==> IsWord(w)
    ensures Words(JoinSpace(ws)) == ws
  {
    if |ws| == 1 {
      SingleWord(ws[0]);
    } else if ws != [] {
      var init, last := ws[..|ws| - 1], ws[|ws| - 1];
      WordsOfJoin(init);
      SingleWord(last);
      WordsOfBlank(" ");
      WordsConcat(JoinSpace(init), " ");
      WordsConcat(JoinSpace(init) + " ", last);
      assert ws == init + [last];
    }
  }

  /** All the words of a list of texts, in order. */
  function WordsOf(parts: seq<string>): seq<string> {
    if parts == [] then [] else WordsOf(parts[..|parts| - 1]) + Words(parts[|parts| - 1])
  }

  lemma WordsOfAppend(parts: seq<string>, part: string)
    ensures WordsOf(parts + [part]) == WordsOf(parts) + Words(part)
  {
    assert (parts + [part])[..|parts|] == parts;
  }

  lemma WordsOfNone()
    ensures WordsOf([]) == []
  {
  }

  lemma {:induction false} WordsOfConcat(a: seq<string>, b: seq<string>)
    ensures WordsOf(a + b) == WordsOf(a) + WordsOf(b)
  {
    hide Words, WordsOf;
    if b == [] {
      WordsOfNone();
      assert a + b == a;
    } else {
      var init, last := b[..|b| - 1], b[|b| - 1];
      WordsOfConcat(a, init);
      WordsOfAppend(a + init, last);
      WordsOfAppend(init, last);
      assert b == init + [last];
      assert a + b == a + init + [last];
      assert WordsOf(a) + (WordsOf(init) + Words(last)) == WordsOf(a) + WordsOf(init) + Words(last);
    }
  }

  /** "\n\n".join of the parts that are not blank. */
  function JoinParagraphs(parts: seq<string>): string {
    if parts == [] then ""
    else
      var init, last := JoinParagraphs(parts[..|parts| - 1]), parts[|parts| - 1];
      if Blank(last) then init
      else if init == "" then last
      else init + "\n\n" + last
  }

  lemma {:induction false} WordsOfParagraphs(parts: seq<string>)
    ensures Words(JoinParagraphs(parts)) == WordsOf(parts)
  {
    if parts != [] {
      var init, last := JoinParagraphs(parts[..|parts| - 1]), parts[|parts| - 1];
      WordsOfParagraphs(parts[..|parts| - 1]);
      WordsOfBlank(last);
      if !Blank(last) && init != "" {
        WordsOfBlank("\n\n");
        WordsConcat(init, "\n\n");
        WordsConcat(init + "\n\n", last);
      }
    }
  }

  /** Joining with spaces puts one space between two lists of words. */
  lemma {:induction false} JoinSpaceConcat(a: seq<string>, b: seq<string>)
    requires a != [] && b != []
    ensures JoinSpace(a + b) == JoinSpace(a) + (" " + JoinSpace(b))
  {
    var n := |b| - 1;
    assert (a + b)[..|a + b| - 1] == a + b[..n];
    if n == 0 {
      assert a + b[..0] == a;
    } else {
      JoinSpaceConcat(a, b[..n]);
    }
  }

  /** Joining paragraphs puts an empty line between two lists of them, unless one has no text. */
  lemma {:induction false} JoinParagraphsConcat(a: seq<string>, b: seq<string>)
    ensures JoinParagraphs(a + b) ==
      if JoinParagraphs(a) == "" then JoinParagraphs(b)
      else if JoinParagraphs(b) == "" then JoinParagraphs(a)
      else JoinParagraphs(a) + ("\n\n" + JoinParagraphs(b))
  {
    if b == [] {
      assert a + b == a;
    } else {
      var n := |b| - 1;
      assert (a + b)[..|a + b| - 1] == a + b[..n];
      JoinParagraphsConcat(a, b[..n]);
    }
  }

  lemma JoinOne(part: string)
    ensures JoinSpace([part]) == part
    ensures JoinParagraphs([part]) == if Blank(part) then "" else part
  {
    assert [part][..0] == [];
  }

  // ---------- str.splitlines(keepends=True) ----------

  /** Only the end of a line is a line break: one character, or a carriage return and a newline. */
  predicate OneLine(line: string) {
    && line != ""
    && forall i :: 0 <= i < |line| - 1 && IsBreak(line[i]) ==> i == |line| - 2 && line[i] == '\r' && line[i + 1] == '\n'
  }

  function LineLength(s: string): (n: nat)
    requires s != ""
    ensures 1 <= n <= |s|
    ensures n < |s| ==> IsBreak(s[n - 1])
  {
    if IsBreak(s[0]) then
      if s[0] == '\r' && |s| > 1 && s[1] == '\n' then 2 else 1
    else if |s| == 1 then 1
    else 1 + LineLength(s[1..])
  }

  function SplitLines(s: string): seq<string>
    decreases |s|
  {
    if s == "" then [] else [s[..LineLength(s)]] + SplitLines(s[LineLength(s)..])
  }

  /** A line is followed by another only at its end. */
  predicate Seam(line: string, next: string) {
    line != "" && next != "" && IsBreak(line[|line| - 1]) && !(line[|line| - 1] == '\r' && next[0] == '\n')
  }

  lemma {:induction false} FirstLine(s: string)
    requires s != ""
    ensures var n := LineLength(s);
      OneLine(s[..n]) && (n < |s| ==> !(s[n - 1] == '\r' && s[n] == '\n'))
  {
    hide IsBreak;
    var n := LineLength(s);
    if !IsBreak(s[0]) && |s| > 1 {
      FirstLine(s[1..]);
      forall i | 0 <= i < n - 1 && IsBreak(s[..n][i])
        ensures i == n - 2 && s[i] == '\r' && s[i + 1] == '\n'
      {
        assert s[..n][i] == s[1..][..n - 1][i - 1];
      }
    }
  }

  lemma FirstSeam(s: string)
    requires s != "" && LineLength(s) < |s|
    ensures var n := LineLength(s); SplitLines(s[n..]) != [] && Seam(s[..n], SplitLines(s[n..])[0])
  {
    hide IsBreak, OneLine;
    var n := LineLength(s);
    FirstLine(s);
    assert SplitLines(s[n..])[0] == s[n..][..LineLength(s[n..])];
    assert s[..n][n - 1] == s[n - 1] && s[n..][0] == s[n];
  }

  /** Lines that are each one line, cut at their ends only. */
  predicate Seams(lines: seq<string>) {
    && (forall j :: 0 <= j < |lines| ==> OneLine(lines[j]))
    && forall j :: 0 < j < |lines| ==> Seam(lines[j - 1], lines[j])
  }

  lemma SeamsCons(line: string, lines: seq<string>)
    requires OneLine(line) && Seams(lines) && (lines != [] ==> Seam(line, lines[0]))
    ensures Seams([line] + lines)
  {
    hide OneLine, Seam;
    var all := [line] + lines;
    forall j | 0 <= j < |all|
      ensures OneLine(all[j]) && (j > 0 ==> Seam(all[j - 1], all[j]))
    {
      assert j > 0 ==> all[j] == lines[j - 1];
      assert j > 1 ==> all[j - 1] == lines[j - 2];
    }
  }

  /** The lines of a text: put together they are the text, each is one line, and none is cut before its end. */
  lemma {:induction false} LinesMeaning(s: string)
    ensures Concat(SplitLines(s)) == s && Seams(SplitLines(s))
    decreases |s|
  {
    hide IsBreak, OneLine, Seam, Seams;
    if s == "" {
      NoSeams();
    } else {
      var n := LineLength(s);
      LinesMeaning(s[n..]);
      FirstLine(s);
      ConcatCons(s[..n], SplitLines(s[n..]));
      assert s == s[..n] + s[n..];
      if n < |s| {
        FirstSeam(s);
      }
      SeamsCons(s[..n], SplitLines(s[n..]));
    }
  }

  lemma NoSeams()
    ensures Seams([])
  {
  }

  lemma {:induction false} ConcatCons(line: string, lines: seq<string>)
    ensures Concat([line] + lines) == line + Concat(lines)
  {
    if lines == [] {
      assert [line] + lines == [line] && [line][..0] == [];
    } else {
      var n := |lines| - 1;
      assert ([line] + lines)[..n + 1] == [line] + lines[..n];
      ConcatCons(line, lines[..n]);
    }
  }

  /** Lines are never empty, and all but the last end in whitespace. */
  predicate ProperLines(lines: seq<string>) {
    && (forall i :: 0 <= i < |lines| ==> lines[i] != "")
    && (forall i :: 0 <= i < |lines| - 1 ==> IsSpace(lines[i][|lines[i]| - 1]))
  }

  lemma {:induction false} SplitLinesProper(s: string)
    ensures ProperLines(SplitLines(s))
    decreases |s|
  {
    if s != "" {
      var n := LineLength(s);
      SplitLinesProper(s[n..]);
      assert n < |s| ==> IsSpace(s[..n][n - 1]);
      ProperCons(s[..n], SplitLines(s[n..]));
    }
  }

  lemma ProperCons(line: string, lines: seq<string>)
    requires line != "" && ProperLines(lines)
    requires lines != [] ==> IsSpace(line[|line| - 1])
    ensures ProperLines([line] + lines)
  {
    forall i | 0 <= i < |lines|
      ensures IsSpace(([line] + lines)[i][|([line] + lines)[i]| - 1])
    {
      if i > 0 {
        assert ([line] + lines)[i] == lines[i - 1];
      }
    }
  }

  /** Cutting a text into lines keeps its words. */
  lemma {:induction false} SplitLinesWords(s: string)
    ensures WordsOf(SplitLines(s)) == Words(s)
    decreases |s|
  {
    hide Words;
    WordsOfEmpty();
    if s != "" {
      var n := LineLength(s);
      SplitLinesWords(s[n..]);
      assert s == s[..n] + s[n..];
      assert n < |s| ==> IsSpace(s[..n][n - 1]);
      WordsConcat(s[..n], s[n..]);
      WordsOfCons(s[..n], SplitLines(s[n..]));
    }
  }

  lemma WordsOfCons(part: string, parts: seq<string>)
    ensures WordsOf([part] + parts) == Words(part) + WordsOf(parts)
  {
    hide Words;
    WordsOfConcat([part], parts);
    WordsOfAppend([], part);
    assert [] + [part] == [part];
  }

  /** "".join(lines). */
  function Concat(lines: seq<string>): string {
    if lines == [] then "" else Concat(lines[..|lines| - 1]) + lines[|lines| - 1]
  }

  /** Consecutive lines keep their words when put back together. */
  lemma {:induction false} WordsOfLines(lines: seq<string>)
    requires ProperLines(lines)
    ensures Words(Concat(lines)) == WordsOf(lines)
    ensures lines != [] ==> Concat(lines) != "" && Concat(lines)[|Concat(lines)| - 1] == lines[|lines| - 1][|lines[|lines| - 1]| - 1]
  {
    if lines != [] {
      var init, last := lines[..|lines| - 1], lines[|lines| - 1];
      WordsOfLines(init);
      WordsConcat(Concat(init), last);
    }
  }
}
