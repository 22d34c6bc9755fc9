/** How the loops of the chunker keep to the plan: over the words of a sentence, the sentences of a block, the blocks. */
module ChunkPlanning {
  import opened Wrappers
  import opened Text
  import opened Blocks
  import opened ChunkPlan

  /** All units are of block k, before number done. */
  ghost predicate Inside(m: Made, k: nat, done: nat) {
    forall i :: 0 <= i < |m.units| ==> m.units[i].block == k && m.units[i].index < done
  }

  /** The chunk being filled, closed without a lead, keeps the plan. */
  lemma CloseInside(c: Context, texts: seq<string>, made: seq<Made>, open: Made, tokens: int, k: nat, done: nat)
    requires Planned(c, texts, made) && Growing(c, made, open, tokens) && open.lead == None
    requires k < |c.blocks| && Inside(open, k, done) && done < |BlockUnits(c, k)|
    ensures Planned(c, texts + [JoinParagraphs(Parts(open))], made + [open])
    ensures Flat(made + [open]) == Flat(made) + open.units
  {
    hide Planned, Parts, JoinParagraphs, Unbroken, Follows, LeadRight, BlockUnits, Flat, Cost;
    NoLeadInside(c, made, open, k, done);
    PlannedPush(c, texts, made, open);
  }

  lemma LastHasUnits(c: Context, texts: seq<string>, made: seq<Made>)
    requires Planned(c, texts, made) && made != []
    ensures made[|made| - 1].units != []
  {
    hide Unbroken, Follows, LeadRight, JoinParagraphs, Parts;
  }

  // ---------- The words of a long sentence ----------

  /** The first i words of a sentence are in chunks or in the one being filled, whose only text is acc. */
  ghost predicate WordsPlanned(c: Context, k: nat, from: nat, words: seq<string>, i: nat, start: seq<Made>,
                               texts: seq<string>, made: seq<Made>, open: Made, acc: seq<string>, tokens: int)
    requires i <= |words|
  {
    && Planned(c, texts, made) && start <= made
    && (i == 0 ==> made == start && acc == [])
    && (i > 0 ==>
          && Growing(c, made, open, tokens) && open.lead == None && !open.start.CopiedText?
          && acc == CopiedOf(open.start) + Texts(open.units) && Parts(open) == [JoinSpace(acc)]
          && Inside(open, k, from + i)
          && Flat(made) + open.units == Flat(start) + WordUnits(k, from, words)[..i]
          && (made + [open])[|start|].units != []
          && (made + [open])[|start|].units[0] == WordUnits(k, from, words)[0])
  }

  lemma FirstWord(c: Context, k: nat, from: nat, words: seq<string>, start: seq<Made>, texts: seq<string>,
                  made: seq<Made>, open: Made, acc: seq<string>, tokens: int)
    requires words != [] && WordsPlanned(c, k, from, words, 0, start, texts, made, open, acc, tokens)
    ensures made == start
    ensures WordsPlanned(c, k, from, words, 1, start, texts, start,
                         Made(None, Anew, [WordUnits(k, from, words)[0]]), [words[0]], Tokens(words[0]))
  {
    hide Growing, Planned, SumTokens, Tokens, Flat, JoinSpace, Parts;
    var v := WordUnits(k, from, words)[0];
    if start != [] {
      LastHasUnits(c, texts, start);
    }
    BeginUnit(c, start, v);
    PartsOne(Anew, v);
    OneText(v);
    assert [] + [words[0]] == [words[0]];
    assert [v] == WordUnits(k, from, words)[..1];
  }

  /** The next word of the same sentence. */
  lemma SameSentence(c: Context, k: nat, from: nat, words: seq<string>, i: nat, u: Unit)
    requires Splits(c, k) && 0 < i < |words| && u.block == k
    ensures var v := WordUnits(k, from, words)[i];
      !Apart(c, u, v) && v.kind == AWord(false) && v.block == k && v.index == from + i && v.text == words[i]
      && WordUnits(k, from, words)[..i + 1] == WordUnits(k, from, words)[..i] + [v]
  {
  }

  lemma NextWord(c: Context, k: nat, from: nat, words: seq<string>, i: nat, start: seq<Made>,
                 texts: seq<string>, made: seq<Made>, open: Made, acc: seq<string>, tokens: int)
    requires Splits(c, k) && 0 < i < |words|
    requires WordsPlanned(c, k, from, words, i, start, texts, made, open, acc, tokens)
    requires tokens + Tokens(words[i]) <= c.chunkSize
    ensures WordsPlanned(c, k, from, words, i + 1, start, texts, made,
                         open.(units := open.units + [WordUnits(k, from, words)[i]]), acc + [words[i]], tokens + Tokens(words[i]))
  {
    hide Growing, Planned, SumTokens, Tokens, Flat, JoinSpace, Parts, WordUnits, Apart, Splits;
    var v := WordUnits(k, from, words)[i];
    GrowingUnits(c, made, open, tokens);
    SameSentence(c, k, from, words, i, open.units[|open.units| - 1]);
    ContinueUnit(c, made, open, tokens, v);
    TextsPush(open.units, v);
    var open' := open.(units := open.units + [v]);
    assert acc + [words[i]] == CopiedOf(open.start) + (Texts(open.units) + [v.text]);
    assert Flat(made) + open'.units == Flat(made) + open.units + [v];
    assert Flat(start) + (WordUnits(k, from, words)[..i] + [v]) == Flat(start) + WordUnits(k, from, words)[..i] + [v];
    assert [] + [JoinSpace(acc + [words[i]])] == [JoinSpace(acc + [words[i]])];
    if |start| < |made| {
      assert (made + [open'])[|start|] == (made + [open])[|start|];
    }
  }

  lemma GrowingUnits(c: Context, made: seq<Made>, open: Made, tokens: int)
    requires Growing(c, made, open, tokens)
    ensures open.units != []
  {
    hide Unbroken, Follows, Cost;
  }

  /** The words gathered go out, and the next one follows on a copy of the last of them. */
  lemma BreakWord(c: Context, k: nat, from: nat, words: seq<string>, i: nat, start: seq<Made>,
                  texts: seq<string>, made: seq<Made>, open: Made, acc: seq<string>, tokens: int)
    requires k < |c.blocks| && Splits(c, k) && 0 < i < |words| && from + |words| <= |BlockUnits(c, k)|
    requires WordsPlanned(c, k, from, words, i, start, texts, made, open, acc, tokens)
    requires tokens + Tokens(words[i]) > c.chunkSize && forall w :: w in acc ==> IsWord(w)
    ensures var copy := if c.overlap != 0 then Tail(acc, c.overlap) else [];
      var open' := Made(None, if c.overlap != 0 then CopiedWords(copy) else Anew, [WordUnits(k, from, words)[i]]);
      WordsPlanned(c, k, from, words, i + 1, start, texts + [JoinParagraphs([JoinSpace(acc)])], made + [open], open',
                   copy + [words[i]], SumTokens(copy) + Tokens(words[i]))
  {
    hide Growing, Planned, Tokens, SumTokens, Flat, JoinSpace, Parts, WordUnits, Apart, Splits, BlockUnits, JoinParagraphs, IsWord, Tail,
      Repeats, Texts;
    var v := WordUnits(k, from, words)[i];
    GrowingUnits(c, made, open, tokens);
    var u := open.units[|open.units| - 1];
    SameSentence(c, k, from, words, i, u);
    BreakUnit(c, made, open, tokens, v);
    CloseInside(c, texts, made, open, tokens, k, from + i);
    RepeatedWords(c, u, acc, v);
    var copy := if c.overlap != 0 then Tail(acc, c.overlap) else [];
    var first := if c.overlap != 0 then CopiedWords(copy) else Anew;
    var open' := Made(None, first, [v]);
    CostOfWords(c, copy);
    PartsOne(first, v);
    OneText(v);
    Shifted(Flat(made), open.units, Flat(start), WordUnits(k, from, words)[..i], v);
    assert (made + [open] + [open'])[|start|] == (made + [open])[|start|];
  }

  lemma Shifted<T>(a: seq<T>, b: seq<T>, x: seq<T>, y: seq<T>, v: T)
    requires a + b == x + y
    ensures a + b + [v] == x + (y + [v])
  {
  }

  /** Within a sentence the copy is the last of the words gathered. */
  lemma RepeatedWords(c: Context, u: Unit, acc: seq<string>, v: Unit)
    requires !Apart(c, u, v) && v.kind == AWord(false) && forall w :: w in acc ==> IsWord(w)
    ensures Repeats(c, u, JoinSpace(acc), v) == if c.overlap != 0 then CopiedWords(Tail(acc, c.overlap)) else Anew
  {
    hide Apart, JoinSpace, Words, IsWord, Tail;
    WordsOfJoin(acc);
  }

  lemma CostOfWords(c: Context, copy: seq<string>)
    requires c.overlap == 0 ==> copy == []
    ensures Cost(if c.overlap != 0 then CopiedWords(copy) else Anew) == SumTokens(copy)
    ensures CopiedOf(if c.overlap != 0 then CopiedWords(copy) else Anew) == copy
  {
  }

  // ---------- The sentences of a block ----------

  lemma {:induction false} SplitUnitsPlaced(c: Context, k: nat, sentences: seq<string>)
    ensures forall i :: 0 <= i < |SplitUnits(c, k, sentences)| ==>
      SplitUnits(c, k, sentences)[i].block == k && SplitUnits(c, k, sentences)[i].index == i
  {
    if sentences != [] {
      SplitUnitsPlaced(c, k, sentences[..|sentences| - 1]);
    }
  }

  lemma SplitUnitsNext(c: Context, k: nat, sentences: seq<string>, s: nat)
    requires s < |sentences|
    ensures var before := SplitUnits(c, k, sentences[..s]);
      SplitUnits(c, k, sentences[..s + 1]) == before + SentenceUnits(c, k, |before|, sentences[s])
  {
    assert sentences[..s + 1][..s] == sentences[..s];
  }

  lemma {:induction false} SplitUnitsGrow(c: Context, k: nat, sentences: seq<string>, s: nat)
    requires s <= |sentences|
    ensures |SplitUnits(c, k, sentences[..s])| <= |SplitUnits(c, k, sentences)|
    decreases |sentences| - s
  {
    if s == |sentences| {
      assert sentences[..s] == sentences;
    } else {
      SplitUnitsNext(c, k, sentences, s);
      SplitUnitsGrow(c, k, sentences, s + 1);
    }
  }

  /** The first s sentences of block k are in chunks, the last of them perhaps in the one being filled. */
  ghost predicate Between(c: Context, k: nat, sentences: seq<string>, s: nat, start: seq<Made>,
                          texts: seq<string>, made: seq<Made>)
    requires s <= |sentences|
  {
    && Planned(c, texts, made) && start <= made
    && Flat(made) == Flat(start) + SplitUnits(c, k, sentences[..s])
    && (s == 0 ==> made == start)
    && (s > 0 ==> |start| < |made| && Begins(made[|start|], k))
  }

  ghost predicate SentencesPlanned(c: Context, k: nat, sentences: seq<string>, s: nat, start: seq<Made>,
                                   texts: seq<string>, made: seq<Made>, open: Made, buffer: seq<string>, tokens: int)
    requires 0 < s <= |sentences|
  {
    && Planned(c, texts, made) && start <= made
    && Growing(c, made, open, tokens) && open.lead == None && Parts(open) == buffer
    && Inside(open, k, |SplitUnits(c, k, sentences[..s])|)
    && Flat(made) + open.units == Flat(start) + SplitUnits(c, k, sentences[..s])
    && Begins((made + [open])[|start|], k)
  }

  /** The sentences of block k, which is split. */
  ghost predicate SplitAs(c: Context, k: nat, sentences: seq<string>) {
    k < |c.blocks| && Splits(c, k) && sentences == SplitSentences(c.blocks[k].text)
  }

  lemma StartSentences(c: Context, k: nat, sentences: seq<string>, start: seq<Made>, texts: seq<string>)
    requires Planned(c, texts, start)
    ensures Between(c, k, sentences, 0, start, texts, start)
  {
    hide Planned;
    assert sentences[..0] == [];
  }

  lemma FirstSentence(c: Context, k: nat, sentences: seq<string>, start: seq<Made>, texts: seq<string>)
    requires SplitAs(c, k, sentences) && sentences != [] && Tokens(sentences[0]) <= c.chunkSize
    requires Between(c, k, sentences, 0, start, texts, start)
    ensures SentencesPlanned(c, k, sentences, 1, start, texts, start,
                             Made(None, Anew, [Unit(sentences[0], k, 0, ASentence)]), [sentences[0]], Tokens(sentences[0]))
  {
    hide Growing, Planned, SumTokens, Tokens, Flat, JoinSpace, Parts, Splits;
    var v := Unit(sentences[0], k, 0, ASentence);
    if start != [] {
      LastHasUnits(c, texts, start);
    }
    BeginUnit(c, start, v);
    assert sentences[..0] == [] && sentences[..1] == [sentences[0]];
    SplitUnitsNext(c, k, sentences, 0);
  }

  /** A short sentence is the next unit of its block. */
  lemma ShortSentence(c: Context, k: nat, sentences: seq<string>, s: nat, u: Unit)
    requires SplitAs(c, k, sentences) && 0 < s < |sentences| && Tokens(sentences[s]) <= c.chunkSize && u.block == k
    requires SplitUnits(c, k, sentences[..s]) != []
    ensures var v := Unit(sentences[s], k, |SplitUnits(c, k, sentences[..s])|, ASentence);
      !Apart(c, u, v) && SplitUnits(c, k, sentences[..s + 1]) == SplitUnits(c, k, sentences[..s]) + [v]
      && |SplitUnits(c, k, sentences[..s])| < |BlockUnits(c, k)|
  {
    hide SplitUnits, Tokens;
    SplitUnitsNext(c, k, sentences, s);
    SplitUnitsGrow(c, k, sentences, s + 1);
  }

  lemma NextSentence(c: Context, k: nat, sentences: seq<string>, s: nat, start: seq<Made>,
                     texts: seq<string>, made: seq<Made>, open: Made, buffer: seq<string>, tokens: int)
    requires SplitAs(c, k, sentences) && 0 < s < |sentences| && Tokens(sentences[s]) <= c.chunkSize
    requires SentencesPlanned(c, k, sentences, s, start, texts, made, open, buffer, tokens)
    requires tokens + Tokens(sentences[s]) <= c.chunkSize
    ensures var v := Unit(sentences[s], k, |SplitUnits(c, k, sentences[..s])|, ASentence);
      SentencesPlanned(c, k, sentences, s + 1, start, texts, made, open.(units := open.units + [v]), buffer + [sentences[s]],
                       tokens + Tokens(sentences[s]))
  {
    hide Growing, Planned, SumTokens, Tokens, Flat, JoinSpace, Parts, Splits, SplitUnits, Apart, SplitAs, BlockUnits;
    var v := Unit(sentences[s], k, |SplitUnits(c, k, sentences[..s])|, ASentence);
    GrowingUnits(c, made, open, tokens);
    ShortSentence(c, k, sentences, s, open.units[|open.units| - 1]);
    ContinueUnit(c, made, open, tokens, v);
    var open' := open.(units := open.units + [v]);
    assert Flat(made) + open'.units == Flat(made) + open.units + [v];
    assert Flat(start) + (SplitUnits(c, k, sentences[..s]) + [v]) == Flat(start) + SplitUnits(c, k, sentences[..s]) + [v];
    assert (made + [open'])[|start|].units[0] == (made + [open])[|start|].units[0];
  }

  /** The copy of the last characters of the last text. */
  function LastCharacters(text: string, overlap: int): Start {
    if overlap == 0 then Anew else CopiedText(Tail(text, overlap * 4))
  }

  lemma BreakSentence(c: Context, k: nat, sentences: seq<string>, s: nat, start: seq<Made>,
                      texts: seq<string>, made: seq<Made>, open: Made, buffer: seq<string>, tokens: int)
    requires k < |c.blocks| && SplitAs(c, k, sentences)
    requires 0 < s < |sentences| && Tokens(sentences[s]) <= c.chunkSize && buffer != []
    requires SentencesPlanned(c, k, sentences, s, start, texts, made, open, buffer, tokens)
    requires tokens + Tokens(sentences[s]) > c.chunkSize
    ensures var v := Unit(sentences[s], k, |SplitUnits(c, k, sentences[..s])|, ASentence);
      var first := LastCharacters(buffer[|buffer| - 1], c.overlap);
      SentencesPlanned(c, k, sentences, s + 1, start, texts + [JoinParagraphs(buffer)], made + [open], Made(None, first, [v]),
                       (if first.CopiedText? then [first.text] else []) + [sentences[s]], Cost(first) + Tokens(sentences[s]))
  {
    hide Growing, Planned, SumTokens, Tokens, Flat, JoinSpace, Parts, Splits, SplitUnits, Apart, SplitAs, BlockUnits, Cost,
      JoinParagraphs;
    var v := Unit(sentences[s], k, |SplitUnits(c, k, sentences[..s])|, ASentence);
    GrowingUnits(c, made, open, tokens);
    ShortSentence(c, k, sentences, s, open.units[|open.units| - 1]);
    BreakUnit(c, made, open, tokens, v);
    CloseInside(c, texts, made, open, tokens, k, |SplitUnits(c, k, sentences[..s])|);
    var first := LastCharacters(buffer[|buffer| - 1], c.overlap);
    PartsOne(first, v);
    assert Flat(made) + open.units + [v] == Flat(start) + (SplitUnits(c, k, sentences[..s]) + [v]);
    assert (made + [open] + [Made(None, first, [v])])[|start|] == (made + [open])[|start|];
  }

  /** Before a long sentence everything goes out. */
  lemma BeforeLong(c: Context, k: nat, sentences: seq<string>, s: nat, start: seq<Made>,
                   texts: seq<string>, made: seq<Made>, open: Made, buffer: seq<string>, tokens: int)
    requires SplitAs(c, k, sentences) && 0 < s < |sentences| && Words(sentences[s]) != []
    requires SentencesPlanned(c, k, sentences, s, start, texts, made, open, buffer, tokens)
    ensures Between(c, k, sentences, s, start, texts + [JoinParagraphs(buffer)], made + [open])
  {
    hide Growing, Planned, Tokens, Flat, JoinSpace, Parts, Splits, SplitUnits, Apart, BlockUnits, JoinParagraphs, Words;
    MoreUnits(c, k, sentences, s);
    CloseInside(c, texts, made, open, tokens, k, |SplitUnits(c, k, sentences[..s])|);
  }

  lemma MoreUnits(c: Context, k: nat, sentences: seq<string>, s: nat)
    requires SplitAs(c, k, sentences) && s < |sentences| && Words(sentences[s]) != []
    ensures |SplitUnits(c, k, sentences[..s])| < |BlockUnits(c, k)|
    ensures |SplitUnits(c, k, sentences[..s])| + |SentenceUnits(c, k, |SplitUnits(c, k, sentences[..s])|, sentences[s])|
            <= |BlockUnits(c, k)|
    ensures Tokens(sentences[s]) > c.chunkSize ==>
      |SplitUnits(c, k, sentences[..s])| + |Words(sentences[s])| <= |BlockUnits(c, k)|
  {
    hide Words, Tokens, SplitUnits;
    SplitUnitsNext(c, k, sentences, s);
    SplitUnitsGrow(c, k, sentences, s + 1);
  }

  lemma NoUnits(c: Context, k: nat, sentences: seq<string>)
    ensures SplitUnits(c, k, sentences[..0]) == []
  {
    assert sentences[..0] == [];
  }

  lemma AfterLong(c: Context, k: nat, sentences: seq<string>, s: nat, start: seq<Made>, texts: seq<string>, made: seq<Made>,
                  texts': seq<string>, made': seq<Made>, open: Made, acc: seq<string>, tokens: int)
    requires SplitAs(c, k, sentences) && s < |sentences| && Tokens(sentences[s]) > c.chunkSize && Words(sentences[s]) != []
    requires Between(c, k, sentences, s, start, texts, made)
    requires WordsPlanned(c, k, |SplitUnits(c, k, sentences[..s])|, Words(sentences[s]), |Words(sentences[s])|, made,
                          texts', made', open, acc, tokens)
    ensures SentencesPlanned(c, k, sentences, s + 1, start, texts', made', open, [JoinSpace(acc)], tokens)
  {
    hide Growing, Planned, Tokens, Flat, JoinSpace, Parts, Splits, Apart, BlockUnits, Words, SplitUnits, SplitAs, WordUnits;
    SplitUnitsNext(c, k, sentences, s);
    NoUnits(c, k, sentences);
    var before, words := SplitUnits(c, k, sentences[..s]), Words(sentences[s]);
    var units := WordUnits(k, |before|, words);
    assert SentenceUnits(c, k, |before|, sentences[s]) == units && |units| == |words|;
    assert units[..|words|] == units;
    assert Flat(start) + (before + units) == Flat(start) + before + units;
    if s > 0 {
      assert (made' + [open])[|start|] == made'[|start|] == made[|start|];
    }
  }

  // ---------- Blocks ----------

  /** The first k blocks are in chunks; the next chunk repeats nothing of them unless it says so. */
  ghost predicate Emptied(c: Context, k: nat, texts: seq<string>, made: seq<Made>)
    requires k <= |c.blocks|
  {
    Planned(c, texts, made) && Flat(made) == UnitsUpTo(c, k)
  }

  ghost predicate AfterWhole(c: Context, made: seq<Made>) {
    made == [] || (made[|made| - 1].units != []
                   && IsWhole(c, made[|made| - 1].units[|made[|made| - 1].units| - 1].block))
  }

  /** The first k blocks are in chunks or in the one being filled, whose texts are the waiting parts. */
  ghost predicate BlocksPlanned(c: Context, k: nat, texts: seq<string>, made: seq<Made>, open: Made, parts: seq<string>, tokens: int)
    requires k <= |c.blocks|
  {
    if parts == [] then Emptied(c, k, texts, made) && AfterWhole(c, made) && tokens == 0
    else
      && Planned(c, texts, made) && Growing(c, made, open, tokens) && LeadRight(c, made, open)
      && Parts(open) == parts && Flat(made) + open.units == UnitsUpTo(c, k)
      && open.units[0].block < k
      && !IsWhole(c, open.units[|open.units| - 1].block)
  }

  lemma StartBlocks(c: Context, open: Made)
    ensures BlocksPlanned(c, 0, [], [], open, [], 0)
  {
  }

  /** Emitting the waiting parts. */
  lemma CloseBlocks(c: Context, k: nat, texts: seq<string>, made: seq<Made>, open: Made, parts: seq<string>, tokens: int)
    requires k <= |c.blocks| && parts != [] && BlocksPlanned(c, k, texts, made, open, parts, tokens)
    ensures Emptied(c, k, texts + [JoinParagraphs(parts)], made + [open])
  {
    hide Planned, Parts, JoinParagraphs, Unbroken, Follows, LeadRight, Flat, Cost, UnitsUpTo, IsWhole;
    PlannedPush(c, texts, made, open);
  }

  /** The only unit of a block that is not split. */
  lemma OneUnit(c: Context, k: nat)
    requires k < |c.blocks| && !Splits(c, k)
    ensures UnitsUpTo(c, k + 1) == UnitsUpTo(c, k) + [Unit(c.blocks[k].text, k, 0, ABlock)]
  {
    hide Tokens;
  }

  /** An H1, an H2 or a table: a chunk of its own. */
  lemma WholeChunk(c: Context, k: nat, texts: seq<string>, made: seq<Made>, open: Made)
    requires k < |c.blocks| && Whole(c.blocks[k].level) && Emptied(c, k, texts, made)
    ensures var m := Made(None, Anew, [Unit(c.blocks[k].text, k, 0, ABlock)]);
      BlocksPlanned(c, k + 1, texts + [JoinParagraphs([c.blocks[k].text])], made + [m], open, [], 0)
  {
    hide Planned, Parts, JoinParagraphs, Flat, UnitsUpTo, Tokens, SumTokens, Cost;
    var v := Unit(c.blocks[k].text, k, 0, ABlock);
    var m := Made(None, Anew, [v]);
    if made != [] {
      LastHasUnits(c, texts, made);
    }
    BeginUnit(c, made, v);
    NoLead(c, made, m);
    PlannedPush(c, texts, made, m);
    OneUnit(c, k);
  }

  /** A block that fits waits alone. */
  lemma FirstBlock(c: Context, k: nat, texts: seq<string>, made: seq<Made>, open: Made)
    requires k < |c.blocks| && !Whole(c.blocks[k].level) && Tokens(c.blocks[k].text) <= c.chunkSize
    requires BlocksPlanned(c, k, texts, made, open, [], 0)
    ensures BlocksPlanned(c, k + 1, texts, made, Made(None, Anew, [Unit(c.blocks[k].text, k, 0, ABlock)]), [c.blocks[k].text],
                          Tokens(c.blocks[k].text))
  {
    hide Planned, Parts, JoinParagraphs, Flat, UnitsUpTo, Tokens, SumTokens, Cost, Growing;
    var v := Unit(c.blocks[k].text, k, 0, ABlock);
    BeginUnit(c, made, v);
    NoLead(c, made, Made(None, Anew, [v]));
    OneUnit(c, k);
  }

  /** A block that fits waits with the others. */
  lemma NextBlock(c: Context, k: nat, texts: seq<string>, made: seq<Made>, open: Made, parts: seq<string>, tokens: int)
    requires k < |c.blocks| && !Whole(c.blocks[k].level) && tokens + Tokens(c.blocks[k].text) <= c.chunkSize
    requires parts != [] && BlocksPlanned(c, k, texts, made, open, parts, tokens) && tokens >= 0
    ensures BlocksPlanned(c, k + 1, texts, made, open.(units := open.units + [Unit(c.blocks[k].text, k, 0, ABlock)]),
                          parts + [c.blocks[k].text], tokens + Tokens(c.blocks[k].text))
  {
    hide Planned, Parts, JoinParagraphs, Flat, UnitsUpTo, Tokens, SumTokens, Cost, Growing, LeadRight;
    var v := Unit(c.blocks[k].text, k, 0, ABlock);
    GrowingUnits(c, made, open, tokens);
    ContinueUnit(c, made, open, tokens, v);
    LeadKept(c, made, open, v);
    OneUnit(c, k);
    assert Flat(made) + (open.units + [v]) == Flat(made) + open.units + [v];
  }

  /** A block that fits the budget, but not the waiting parts, follows on a copy of their last words. */
  lemma BreakBlock(c: Context, k: nat, texts: seq<string>, made: seq<Made>, open: Made, parts: seq<string>, tokens: int)
    requires k < |c.blocks| && !Whole(c.blocks[k].level) && Tokens(c.blocks[k].text) <= c.chunkSize
    requires parts != [] && BlocksPlanned(c, k, texts, made, open, parts, tokens)
    requires tokens + Tokens(c.blocks[k].text) > c.chunkSize
    ensures var first := LastWords(parts[|parts| - 1], c.overlap);
      BlocksPlanned(c, k + 1, texts + [JoinParagraphs(parts)], made + [open],
                    Made(None, first, [Unit(c.blocks[k].text, k, 0, ABlock)]),
                    (if first.CopiedText? then [first.text] else []) + [c.blocks[k].text],
                    Cost(first) + Tokens(c.blocks[k].text))
  {
    hide Planned, Parts, JoinParagraphs, Flat, UnitsUpTo, Tokens, SumTokens, Cost, Growing, LeadRight, LastWords;
    var v := Unit(c.blocks[k].text, k, 0, ABlock);
    var first := LastWords(parts[|parts| - 1], c.overlap);
    GrowingUnits(c, made, open, tokens);
    BreakUnit(c, made, open, tokens, v);
    CloseBlocks(c, k, texts, made, open, parts, tokens);
    LastWordsNone(parts[|parts| - 1]);
    PartsOne(first, v);
    NoLead(c, made + [open], Made(None, first, [v]));
    FlatPush(made, open);
    OneUnit(c, k);
  }

  lemma LastWordsNone(text: string)
    ensures LastWords(text, 0) == Anew
    ensures forall overlap: int :: !LastWords(text, overlap).CopiedWords?
  {
  }

  /** What a split block leaves over waits behind the copy of what waited before it. */
  lemma SplitChunk(c: Context, k: nat, texts: seq<string>, start: seq<Made>, texts': seq<string>, made: seq<Made>, open: Made,
                   buffer: seq<string>, tokens: int)
    requires k < |c.blocks| && Splits(c, k) && Emptied(c, k, texts, start)
    requires SplitSentences(c.blocks[k].text) != [] && buffer != []
    requires var sentences := SplitSentences(c.blocks[k].text);
      SentencesPlanned(c, k, sentences, |sentences|, start, texts', made, open, buffer, tokens)
    ensures var lead := LeftBefore(c, start, |start|);
      BlocksPlanned(c, k + 1, texts', made, open.(lead := lead), (if lead.Some? then [lead.value] else []) + buffer, tokens)
  {
    hide Planned, Parts, JoinParagraphs, Flat, Tokens, SumTokens, Cost, Growing, LeadRight, LastWords, LeftBefore, Splits, SplitUnits;
    var sentences := SplitSentences(c.blocks[k].text);
    assert sentences[..|sentences|] == sentences;
    GrowingUnits(c, made, open, tokens);
    SplitUnitsPlaced(c, k, sentences);
    var units := SplitUnits(c, k, sentences);
    var n := |open.units| - 1;
    assert open.units[n] == (Flat(made) + open.units)[|Flat(made)| + n] == (Flat(start) + units)[|Flat(start) + units| - 1];
    assert units != [] by {
      MustHaveUnits(c, k, start, made, open, units);
    }
    assert (Flat(start) + units)[|Flat(start) + units| - 1] == units[|units| - 1];
    assert open.units[n].block == k && open.units[n].index == |BlockUnits(c, k)| - 1;
    assert Ends(c, open, k);
    SplitFacts(c, k);
    LeadSet(c, made, open, k, |start|);
    LeftBeforeStart(c, start, made);
    LeadAdded(c, made, open, tokens, LeftBefore(c, start, |start|));
  }

  lemma SplitFacts(c: Context, k: nat)
    requires k < |c.blocks| && Splits(c, k)
    ensures !IsWhole(c, k)
    ensures BlockUnits(c, k) == SplitUnits(c, k, SplitSentences(c.blocks[k].text))
    ensures UnitsUpTo(c, k + 1) == UnitsUpTo(c, k) + BlockUnits(c, k)
  {
  }

  lemma LeftBeforeStart(c: Context, start: seq<Made>, made: seq<Made>)
    requires start <= made
    ensures LeftBefore(c, made, |start|) == LeftBefore(c, start, |start|)
  {
    hide Parts, LastWords;
  }

  lemma MustHaveUnits(c: Context, k: nat, start: seq<Made>, made: seq<Made>, open: Made, units: seq<Unit>)
    requires start <= made && open.units != [] && Flat(made) + open.units == Flat(start) + units
    ensures units != []
  {
    FlatGrows(start, made);
  }

  lemma {:induction false} FlatGrows(start: seq<Made>, made: seq<Made>)
    requires start <= made
    ensures |Flat(start)| <= |Flat(made)|
  {
    if |start| < |made| {
      FlatGrows(start, made[..|made| - 1]);
    } else {
      assert start == made;
    }
  }
}
