/**
 How a text must be cut into chunks: the units that are never cut, where one chunk ends and the next begins, and what the
 next one repeats. The chunker is proved to follow this plan.
 */
module ChunkPlan {
  import opened Wrappers
  import opened Text
  import opened Blocks

  /** _approx_tokens: a quarter of the characters, but at least one. */
  function Tokens(text: string): (n: nat)
    ensures if |text| < 8 then n == 1 else 4 * n <= |text| < 4 * n + 4
  {
    if |text| / 4 > 1 then |text| / 4 else 1
  }

  function SumTokens(words: seq<string>): nat {
    if words == [] then 0 else SumTokens(words[..|words| - 1]) + Tokens(words[|words| - 1])
  }

  /** s[-k:] for k other than 0; a negative k drops from the front. */
  function Tail<T>(s: seq<T>, k: int): (t: seq<T>)
    requires k != 0
    ensures |t| <= |s| && t == s[|s| - |t|..]
    ensures k > 0 ==> |t| == if k < |s| then k else |s|
    ensures k < 0 ==> |t| == if |s| + k > 0 then |s| + k else 0
  {
    if k >= |s| then s
    else if k > 0 then s[|s| - k..]
    else if -k <= |s| then s[-k..]
    else []
  }

  /** H1, H2 and tables are chunks of their own. */
  predicate Whole(level: Level) {
    level in {H1, H2, TABLE}
  }

  // ---------- Sentences ----------

  function SentenceEnd(s: string, i: nat): (n: nat)
    requires 1 <= i <= |s|
    ensures i <= n <= |s|
    ensures n < |s| ==> IsSpace(s[n]) && s[n - 1] in {'.', '!', '?'}
    ensures forall m :: i <= m < n ==> !(IsSpace(s[m]) && s[m - 1] in {'.', '!', '?'})
    decreases |s| - i
  {
    if i == |s| then i
    else if IsSpace(s[i]) && s[i - 1] in {'.', '!', '?'} then i
    else SentenceEnd(s, i + 1)
  }

  lemma {:induction false} LStripShorter(s: string)
    ensures |LStrip(s)| <= |s|
  {
    if s != "" && IsSpace(s[0]) {
      LStripShorter(s[1..]);
    }
  }

  /** Cut at every run of whitespace that follows a full stop, an exclamation or a question mark. */
  function SplitSentences(s: string): seq<string>
    decreases |s|
  {
    if s == "" then [s]
    else
      var n := SentenceEnd(s, 1);
      LStripShorter(s[n..]);
      if n == |s| then [s] else [s[..n]] + SplitSentences(LStrip(s[n..]))
  }

  /** Whitespace right after a full stop, an exclamation or a question mark. */
  predicate CutsAt(s: string, i: nat)
    requires 1 <= i < |s|
  {
    IsSpace(s[i]) && s[i - 1] in {'.', '!', '?'}
  }

  /** Every sentence but the last ends with its mark, and none could be cut further. */
  lemma {:induction false} SentenceCuts(s: string)
    ensures SplitSentences(s) != []
    ensures forall j :: 0 <= j < |SplitSentences(s)| ==>
      var t := SplitSentences(s)[j];
      && (forall i :: 1 <= i < |t| ==> !CutsAt(t, i))
      && (j < |SplitSentences(s)| - 1 ==> t != "" && t[|t| - 1] in {'.', '!', '?'})
    decreases |s|
  {
    if s != "" {
      var n := SentenceEnd(s, 1);
      LStripShorter(s[n..]);
      if n < |s| {
        SentenceCuts(LStrip(s[n..]));
      }
    }
  }

  // ---------- Units ----------

  /** A block, a sentence or a word; first marks the first word of its sentence. */
  datatype UnitKind = ABlock | ASentence | AWord(first: bool)

  /** Unit number index of a block. */
  datatype Unit = Unit(text: string, block: nat, index: nat, kind: UnitKind)

  datatype Context = Context(blocks: seq<TextBlock>, chunkSize: int, overlap: int)

  /** A block over the budget that may be cut. */
  predicate Splits(c: Context, k: nat) {
    k < |c.blocks| && !Whole(c.blocks[k].level) && Tokens(c.blocks[k].text) > c.chunkSize
  }

  function WordUnits(k: nat, from: nat, words: seq<string>): (units: seq<Unit>)
    ensures |units| == |words|
    ensures forall i :: 0 <= i < |units| ==> units[i] == Unit(words[i], k, from + i, AWord(i == 0))
  {
    seq(|words|, i requires 0 <= i < |words| => Unit(words[i], k, from + i, AWord(i == 0)))
  }

  /** The units of one sentence: itself, or its words if it is over the budget. */
  function SentenceUnits(c: Context, k: nat, from: nat, sentence: string): seq<Unit> {
    if Tokens(sentence) > c.chunkSize then WordUnits(k, from, Words(sentence))
    else [Unit(sentence, k, from, ASentence)]
  }

  function SplitUnits(c: Context, k: nat, sentences: seq<string>): seq<Unit> {
    if sentences == [] then []
    else
      var n := |sentences| - 1;
      var before := SplitUnits(c, k, sentences[..n]);
      before + SentenceUnits(c, k, |before|, sentences[n])
  }

  /** The units of a block. */
  function BlockUnits(c: Context, k: nat): seq<Unit>
    requires k < |c.blocks|
  {
    if Splits(c, k) then SplitUnits(c, k, SplitSentences(c.blocks[k].text))
    else [Unit(c.blocks[k].text, k, 0, ABlock)]
  }

  /** The units of the first k blocks. */
  function UnitsUpTo(c: Context, k: nat): seq<Unit>
    requires k <= |c.blocks|
  {
    if k == 0 then [] else UnitsUpTo(c, k - 1) + BlockUnits(c, k - 1)
  }

  // ---------- What a chunk is made of ----------

  /** The copy in front of a chunk's first unit: nothing, a text of its own, or words that run on into the unit. */
  datatype Start = Anew | CopiedText(text: string) | CopiedWords(words: seq<string>)

  /** A chunk: a copy left over from before a block that was split, a copy of the chunk before, and its units. */
  datatype Made = Made(lead: Option<string>, start: Start, units: seq<Unit>)

  function Texts(units: seq<Unit>): (texts: seq<string>)
    ensures |texts| == |units|
  {
    seq(|units|, i requires 0 <= i < |units| => units[i].text)
  }

  function CopiedOf(start: Start): seq<string> {
    if start.CopiedWords? then start.words else []
  }

  /** The texts behind the lead: a run of words is one text. */
  function Behind(start: Start, units: seq<Unit>): seq<string> {
    if units == [] then (if start.CopiedText? then [start.text] else [])
    else
      var n := |units| - 1;
      if units[n].kind.AWord? then [JoinSpace(CopiedOf(start) + Texts(units))]
      else Behind(start, units[..n]) + [units[n].text]
  }

  function Parts(m: Made): (parts: seq<string>)
    ensures m.units != [] ==> parts != []
  {
    (if m.lead.Some? then [m.lead.value] else []) + Behind(m.start, m.units)
  }

  function Cost(start: Start): nat {
    match start
    case Anew => 0
    case CopiedText(text) => Tokens(text)
    case CopiedWords(words) => SumTokens(words)
  }

  // ---------- Where a chunk ends ----------

  predicate IsWhole(c: Context, k: nat) {
    k < |c.blocks| && Whole(c.blocks[k].level)
  }

  /** A chunk always ends between these units: around H1, H2 and tables, and before a block or sentence that is split. */
  predicate Apart(c: Context, u: Unit, v: Unit) {
    || IsWhole(c, u.block) || IsWhole(c, v.block)
    || (v.index == 0 && Splits(c, v.block))
    || v.kind == AWord(true)
  }

  /** The next unit still belongs to the chunk. */
  predicate Continues(c: Context, start: Start, units: seq<Unit>, v: Unit)
    requires units != []
  {
    && !Apart(c, units[|units| - 1], v)
    && Cost(start) + SumTokens(Texts(units)) + Tokens(v.text) <= c.chunkSize
  }

  /** No unit of the chunk should have begun another one. */
  ghost predicate Unbroken(c: Context, m: Made) {
    m.units != [] && forall i :: 0 < i < |m.units| ==> Continues(c, m.start, m.units[..i], m.units[i])
  }

  /** The last words of a text, as a text. */
  function LastWords(text: string, overlap: int): Start {
    if overlap == 0 || Tail(Words(text), overlap) == [] then Anew else CopiedText(JoinSpace(Tail(Words(text), overlap)))
  }

  /** What the chunk that begins with v repeats of the last text of the chunk before. */
  function Repeats(c: Context, u: Unit, last: string, v: Unit): Start {
    if Apart(c, u, v) || c.overlap == 0 then Anew
    else
      match v.kind
      case ABlock => LastWords(last, c.overlap)
      case ASentence => CopiedText(Tail(last, c.overlap * 4))
      case AWord(_) => CopiedWords(Tail(Words(last), c.overlap))
  }

  /** A chunk begins where the one before could not go on, with the copy that is due. */
  ghost predicate Follows(c: Context, before: seq<Made>, m: Made)
    requires m.units != []
  {
    if before == [] then m.start == Anew
    else
      var p := before[|before| - 1];
      && p.units != []
      && !Continues(c, p.start, p.units, m.units[0])
      && m.start == Repeats(c, p.units[|p.units| - 1], Parts(p)[|Parts(p)| - 1], m.units[0])
  }

  // ---------- Blocks that are split ----------

  ghost predicate Begins(m: Made, k: nat) {
    m.units != [] && m.units[0].block == k && m.units[0].index == 0
  }

  /** The chunk holds the last unit of the block. */
  ghost predicate Ends(c: Context, m: Made, k: nat)
    requires k < |c.blocks|
  {
    exists i :: 0 <= i < |m.units| && m.units[i].block == k && m.units[i].index == |BlockUnits(c, k)| - 1
  }

  /** What the chunk before number i leaves for the end of the block that begins there. */
  ghost function LeftBefore(c: Context, made: seq<Made>, i: nat): Option<string>
    requires i <= |made|
  {
    if i == 0 || made[i - 1].units == [] then None
    else
      var p := made[i - 1];
      if IsWhole(c, p.units[|p.units| - 1].block) then None
      else
        var start := LastWords(Parts(p)[|Parts(p)| - 1], c.overlap);
        if start.CopiedText? then Some(start.text) else None
  }

  /** Only the chunk with the end of a split block has a lead: the copy of what waited before the block. */
  ghost predicate LeadRight(c: Context, before: seq<Made>, m: Made)
    requires m.units != []
  {
    var k := m.units[0].block;
    if k < |c.blocks| && Splits(c, k) && Ends(c, m, k) then
      exists i :: 0 <= i <= |before| && Begins((before + [m])[i], k) && m.lead == LeftBefore(c, before, i)
    else m.lead == None
  }

  // ---------- The plan ----------

  function Flat(made: seq<Made>): seq<Unit> {
    if made == [] then [] else Flat(made[..|made| - 1]) + made[|made| - 1].units
  }

  ghost predicate MadeRight(c: Context, before: seq<Made>, m: Made) {
    m.units != [] && Unbroken(c, m) && Follows(c, before, m) && LeadRight(c, before, m)
  }

  /** The texts of the chunks are laid out as planned, and each follows on the ones before. */
  ghost predicate Planned(c: Context, texts: seq<string>, made: seq<Made>) {
    && |texts| == |made|
    && forall j :: 0 <= j < |made| ==> texts[j] == JoinParagraphs(Parts(made[j])) && MadeRight(c, made[..j], made[j])
  }

  // ---------- Building it ----------

  lemma FlatPush(made: seq<Made>, m: Made)
    ensures Flat(made + [m]) == Flat(made) + m.units
  {
    assert (made + [m])[..|made|] == made;
  }

  lemma PlannedPush(c: Context, texts: seq<string>, made: seq<Made>, m: Made)
    requires Planned(c, texts, made) && MadeRight(c, made, m)
    ensures Planned(c, texts + [JoinParagraphs(Parts(m))], made + [m])
    ensures Flat(made + [m]) == Flat(made) + m.units
  {
    hide MadeRight, Parts, JoinParagraphs;
    FlatPush(made, m);
    var texts', made' := texts + [JoinParagraphs(Parts(m))], made + [m];
    forall j | 0 <= j < |made'|
      ensures texts'[j] == JoinParagraphs(Parts(made'[j])) && MadeRight(c, made'[..j], made'[j])
    {
      assert made'[..j] == made[..j];
      if j == |made| {
        assert made[..j] == made;
      }
    }
  }

  /** A chunk that is being filled: everything about it is right except, so far, its lead. */
  ghost predicate Growing(c: Context, made: seq<Made>, open: Made, tokens: int) {
    && open.units != [] && Unbroken(c, open) && Follows(c, made, open)
    && tokens == Cost(open.start) + SumTokens(Texts(open.units))
  }

  lemma TextsPush(units: seq<Unit>, v: Unit)
    ensures Texts(units + [v]) == Texts(units) + [v.text]
    ensures SumTokens(Texts(units + [v])) == SumTokens(Texts(units)) + Tokens(v.text)
  {
    assert (Texts(units) + [v.text])[..|units|] == Texts(units);
  }

  lemma OneText(v: Unit)
    ensures Texts([v]) == [v.text] && SumTokens(Texts([v])) == Tokens(v.text)
  {
    assert Texts([v]) == [v.text];
    assert [v.text][..0] == [];
  }

  /** The first unit of a chunk that repeats nothing. */
  lemma BeginUnit(c: Context, made: seq<Made>, v: Unit)
    requires made != [] ==>
      var p := made[|made| - 1]; p.units != [] && Apart(c, p.units[|p.units| - 1], v)
    ensures Growing(c, made, Made(None, Anew, [v]), Tokens(v.text))
    ensures Parts(Made(None, Anew, [v])) == [v.text]
  {
    hide SumTokens, Tokens, Apart;
    OneText(v);
    PartsOne(Anew, v);
    assert JoinSpace([v.text]) == v.text;
  }

  lemma PartsOne(start: Start, v: Unit)
    ensures Parts(Made(None, start, [v])) ==
      match v.kind
      case AWord(_) => [JoinSpace(CopiedOf(start) + [v.text])]
      case _ => (if start.CopiedText? then [start.text] else []) + [v.text]
  {
    hide JoinSpace;
    OneText(v);
    assert [v][..0] == [];
    assert Behind(start, []) == if start.CopiedText? then [start.text] else [];
    assert !v.kind.AWord? ==> Behind(start, [v]) == Behind(start, []) + [v.text];
    assert forall parts: seq<string> :: [] + parts == parts;
  }

  /** The next unit goes on. */
  lemma ContinueUnit(c: Context, made: seq<Made>, open: Made, tokens: int, v: Unit)
    requires Growing(c, made, open, tokens)
    requires !Apart(c, open.units[|open.units| - 1], v) && tokens + Tokens(v.text) <= c.chunkSize
    ensures Growing(c, made, open.(units := open.units + [v]), tokens + Tokens(v.text))
    ensures Parts(open.(units := open.units + [v])) ==
      if v.kind.AWord? then (if open.lead.Some? then [open.lead.value] else []) + [JoinSpace(CopiedOf(open.start) + Texts(open.units) + [v.text])]
      else Parts(open) + [v.text]
  {
    hide SumTokens, Tokens, Apart, Cost, Repeats;
    TextsPush(open.units, v);
    var units := open.units + [v];
    assert units[..|open.units|] == open.units;
    forall i | 0 < i < |units|
      ensures Continues(c, open.start, units[..i], units[i])
    {
      if i < |open.units| {
        assert units[..i] == open.units[..i];
      }
    }
    assert CopiedOf(open.start) + (Texts(open.units) + [v.text]) == CopiedOf(open.start) + Texts(open.units) + [v.text];
  }

  /** The next unit begins another chunk. */
  lemma BreakUnit(c: Context, made: seq<Made>, open: Made, tokens: int, v: Unit)
    requires Growing(c, made, open, tokens)
    requires Apart(c, open.units[|open.units| - 1], v) || tokens + Tokens(v.text) > c.chunkSize
    ensures var start := Repeats(c, open.units[|open.units| - 1], Parts(open)[|Parts(open)| - 1], v);
      Growing(c, made + [open], Made(None, start, [v]), Cost(start) + Tokens(v.text))
  {
    hide SumTokens, Tokens, Apart, Cost, Repeats, Parts;
    OneText(v);
  }

  /** A lead changes nothing about where the chunk begins. */
  lemma LeadAdded(c: Context, made: seq<Made>, open: Made, tokens: int, lead: Option<string>)
    requires Growing(c, made, open, tokens)
    ensures Growing(c, made, open.(lead := lead), tokens)
    ensures open.lead == None ==>
      Parts(open.(lead := lead)) == (if lead.Some? then [lead.value] else []) + Parts(open)
  {
    hide SumTokens, Tokens, Apart, Cost, Repeats, Behind;
  }

  // ---------- Leads ----------

  /** A chunk that begins with a block that is not split has no lead. */
  lemma NoLead(c: Context, made: seq<Made>, m: Made)
    requires m.units != [] && m.lead == None && !Splits(c, m.units[0].block)
    ensures LeadRight(c, made, m)
  {
  }

  /** Neither has one that does not reach the end of the block it begins with. */
  lemma NoLeadInside(c: Context, made: seq<Made>, m: Made, k: nat, done: nat)
    requires m.units != [] && m.lead == None && k < |c.blocks|
    requires forall i :: 0 <= i < |m.units| ==> m.units[i].block == k && m.units[i].index < done
    requires done < |BlockUnits(c, k)|
    ensures LeadRight(c, made, m)
  {
    hide BlockUnits, Splits;
    assert m.units[0].block == k;
  }

  /** Units of later blocks do not change what the lead must be. */
  lemma LeadKept(c: Context, made: seq<Made>, m: Made, v: Unit)
    requires m.units != [] && LeadRight(c, made, m) && v.block != m.units[0].block
    ensures LeadRight(c, made, m.(units := m.units + [v]))
  {
    hide BlockUnits, Splits, LeftBefore;
    var more := m.(units := m.units + [v]);
    var k := m.units[0].block;
    if k < |c.blocks| {
      if Ends(c, m, k) {
        var i :| 0 <= i < |m.units| && m.units[i].block == k && m.units[i].index == |BlockUnits(c, k)| - 1;
        assert more.units[i] == m.units[i];
      }
      if Ends(c, more, k) {
        var i :| 0 <= i < |more.units| && more.units[i].block == k && more.units[i].index == |BlockUnits(c, k)| - 1;
        assert m.units[i] == more.units[i];
      }
      if Splits(c, k) && Ends(c, m, k) {
        var i :| 0 <= i <= |made| && Begins((made + [m])[i], k) && m.lead == LeftBefore(c, made, i);
        assert Begins((made + [more])[i], k);
      }
    }
  }

  /** The lead of the chunk that ends a split block. */
  lemma LeadSet(c: Context, made: seq<Made>, m: Made, k: nat, i: nat)
    requires m.units != [] && m.units[0].block == k && k < |c.blocks| && Splits(c, k) && Ends(c, m, k)
    requires i <= |made| && Begins((made + [m])[i], k)
    ensures LeadRight(c, made, m.(lead := LeftBefore(c, made, i)))
  {
    hide BlockUnits, Splits, LeftBefore;
    var led := m.(lead := LeftBefore(c, made, i));
    assert Begins((made + [led])[i], k);
    var e :| 0 <= e < |m.units| && m.units[e].block == k && m.units[e].index == |BlockUnits(c, k)| - 1;
    assert led.units[e] == m.units[e];
  }

  // ---------- Consequences ----------

  lemma {:induction false} BehindBlocks(start: Start, units: seq<Unit>)
    requires !start.CopiedWords? && forall i :: 0 <= i < |units| ==> units[i].kind == ABlock
    ensures Behind(start, units) == (if start.CopiedText? then [start.text] else []) + Texts(units)
  {
    if units == [] {
      assert Texts(units) == [];
    } else {
      var n := |units| - 1;
      BehindBlocks(start, units[..n]);
      assert Texts(units) == Texts(units[..n]) + [units[n].text];
    }
  }

  lemma LastWordsCount(text: string, overlap: int)
    requires overlap > 0
    ensures var last := Words(text);
      var n := if overlap < |last| then overlap else |last|;
      WordsOf(if LastWords(text, overlap).CopiedText? then [LastWords(text, overlap).text] else []) == last[|last| - n..]
  {
    hide Words, IsWord, JoinSpace;
    WordsAreWords(text);
    WordsOfNone();
    var copy := Tail(Words(text), overlap);
    WordsOfJoin(copy);
    assert [JoinSpace(copy)][..0] == [];
    assert WordsOf([JoinSpace(copy)]) == WordsOf([JoinSpace(copy)][..0]) + Words(JoinSpace(copy));
  }

  /**
   When blocks that fit the budget overflow a chunk, the next chunk is exactly the last min(overlap, n) of the n words of
   the last text of the one before, and then its blocks.
   */
  lemma BlockOverlap(c: Context, texts: seq<string>, made: seq<Made>, j: nat)
    requires Planned(c, texts, made) && j + 1 < |made| && c.overlap > 0
    requires made[j].units != [] && made[j + 1].units != []
    requires forall u :: u in made[j + 1].units ==> u.kind == ABlock && u.index == 0
    requires !Apart(c, made[j].units[|made[j].units| - 1], made[j + 1].units[0])
    ensures Parts(made[j]) != []
    ensures var last := Words(Parts(made[j])[|Parts(made[j])| - 1]);
      var n := if c.overlap < |last| then c.overlap else |last|;
      Words(texts[j + 1]) == last[|last| - n..] + WordsOf(Texts(made[j + 1].units))
  {
    hide Words, JoinSpace, JoinParagraphs, Tokens, LastWords, Behind, WordsOf, Planned, Apart, BlockUnits, LeadRight, Texts;
    var p, m := made[j], made[j + 1];
    StartOf(c, texts, made, j);
    var last := Parts(p)[|Parts(p)| - 1];
    var u, v := p.units[|p.units| - 1], m.units[0];
    assert v in m.units;
    assert m.start == LastWords(last, c.overlap);
    LastWordsKind(last, c.overlap);
    LastWordsCount(last, c.overlap);
    BehindBlocks(m.start, m.units);
    BlockLead(c, made[..j + 1], u, m);
    var copy := if m.start.CopiedText? then [m.start.text] else [];
    LaidOut(m, copy);
  }

  lemma LaidOut(m: Made, copy: seq<string>)
    requires m.lead == None && Behind(m.start, m.units) == copy + Texts(m.units)
    ensures Words(JoinParagraphs(Parts(m))) == WordsOf(copy) + WordsOf(Texts(m.units))
  {
    hide Words, JoinParagraphs, Behind, WordsOf;
    assert [] + (copy + Texts(m.units)) == copy + Texts(m.units);
    WordsOfParagraphs(Parts(m));
    WordsOfConcat(copy, Texts(m.units));
  }

  /** A chunk that goes on with a block which is not split has no lead. */
  lemma BlockLead(c: Context, before: seq<Made>, u: Unit, m: Made)
    requires m.units != [] && LeadRight(c, before, m) && m.units[0].index == 0 && !Apart(c, u, m.units[0])
    ensures m.lead == None
  {
    hide BlockUnits;
  }

  /** How a chunk begins. */
  lemma StartOf(c: Context, texts: seq<string>, made: seq<Made>, j: nat)
    requires Planned(c, texts, made) && j + 1 < |made|
    ensures made[j].units != [] && made[j + 1].units != [] && Parts(made[j]) != []
    ensures made[j + 1].start ==
      Repeats(c, made[j].units[|made[j].units| - 1], Parts(made[j])[|Parts(made[j])| - 1], made[j + 1].units[0])
    ensures LeadRight(c, made[..j + 1], made[j + 1])
    ensures texts[j + 1] == JoinParagraphs(Parts(made[j + 1]))
  {
    hide Parts, JoinParagraphs, Unbroken, LeadRight, Repeats, Continues;
    assert MadeRight(c, made[..j], made[j]);
    assert MadeRight(c, made[..j + 1], made[j + 1]);
    assert made[..j + 1][|made[..j + 1]| - 1] == made[j];
  }

  lemma LastWordsKind(text: string, overlap: int)
    ensures !LastWords(text, overlap).CopiedWords?
  {
  }

  /** A sentence that is cut repeats exactly the last min(overlap, n) of the n words of the chunk's last text. */
  lemma WordOverlap(c: Context, texts: seq<string>, made: seq<Made>, j: nat)
    requires Planned(c, texts, made) && j + 1 < |made| && c.overlap > 0
    requires made[j].units != [] && made[j + 1].units != [] && made[j + 1].units[0].kind == AWord(false)
    requires !Apart(c, made[j].units[|made[j].units| - 1], made[j + 1].units[0])
    ensures Parts(made[j]) != []
    ensures var last := Words(Parts(made[j])[|Parts(made[j])| - 1]);
      var n := if c.overlap < |last| then c.overlap else |last|;
      made[j + 1].start == CopiedWords(last[|last| - n..])
  {
    hide Words, JoinSpace, JoinParagraphs, Planned, Apart, Parts, LeadRight;
    StartOf(c, texts, made, j);
  }

  /** A chunk that goes on with another sentence of a block repeats exactly the last 4 * overlap characters, if there are as many. */
  lemma SentenceOverlap(c: Context, texts: seq<string>, made: seq<Made>, j: nat)
    requires Planned(c, texts, made) && j + 1 < |made| && c.overlap > 0
    requires made[j].units != [] && made[j + 1].units != [] && made[j + 1].units[0].kind == ASentence
    requires !Apart(c, made[j].units[|made[j].units| - 1], made[j + 1].units[0])
    ensures Parts(made[j]) != []
    ensures var last := Parts(made[j])[|Parts(made[j])| - 1];
      var n := if 4 * c.overlap < |last| then 4 * c.overlap else |last|;
      made[j + 1].start == CopiedText(last[|last| - n..])
  {
    hide Words, JoinSpace, JoinParagraphs, Planned, Apart, Parts, LeadRight;
    StartOf(c, texts, made, j);
  }
}
