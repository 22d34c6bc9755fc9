/** chunk_text of rag/chunking.py: blocks packed into chunks under a token budget, with overlap copies. */
module Chunker {
  import opened Wrappers
  import opened Text
  import opened Blocks
  import opened ChunkPlan
  import opened ChunkPlanning

  datatype Chunk = Chunk(text: string, index: nat, page: Option<nat>, section: Option<string>, tokens: nat)

  /** How a chunk's words come about: a copy of earlier words, then words of its own, up to some block. */
  datatype Piece = Piece(copied: seq<string>, own: seq<string>, block: nat)

  // ---------- Labels ----------

  function SectionLabel(block: TextBlock): Option<string> {
    var n := |block.path|;
    if n == 0 then None
    else if n == 1 then Some(block.path[0])
    else Some(block.path[n - 2] + " > " + block.path[n - 1])
  }

  /** block.page_number or current_page: page 0 counts as no page. */
  function PageOr(block: TextBlock, current: Option<nat>): Option<nat> {
    if block.page.Some? && block.page.value != 0 then block.page else current
  }

  function SectionOr(block: TextBlock, current: Option<string>): Option<string> {
    var own := SectionLabel(block);
    if own.Some? && own.value != "" then own else current
  }

  /** The last page, other than 0, that any of the blocks carries. */
  function LastPage(blocks: seq<TextBlock>): Option<nat> {
    if blocks == [] then None else PageOr(blocks[|blocks| - 1], LastPage(blocks[..|blocks| - 1]))
  }

  function LastSection(blocks: seq<TextBlock>): Option<string> {
    if blocks == [] then None else SectionOr(blocks[|blocks| - 1], LastSection(blocks[..|blocks| - 1]))
  }

  /** The last page is that of the last block that has one other than 0. */
  lemma {:induction false} LastPageMeaning(blocks: seq<TextBlock>)
    ensures LastPage(blocks) == None <==>
            forall i :: 0 <= i < |blocks| ==> blocks[i].page == None || blocks[i].page == Some(0)
    ensures LastPage(blocks).Some? ==>
              exists i :: 0 <= i < |blocks| && blocks[i].page == LastPage(blocks) && blocks[i].page != Some(0)
                          && forall k :: i < k < |blocks| ==> blocks[k].page == None || blocks[k].page == Some(0)
  {
    if blocks != [] {
      var n := |blocks| - 1;
      LastPageMeaning(blocks[..n]);
      if blocks[n].page == None || blocks[n].page == Some(0) {
        if LastPage(blocks).Some? {
          var i :| 0 <= i < n && blocks[..n][i].page == LastPage(blocks) && blocks[..n][i].page != Some(0)
                   && forall k :: i < k < n ==> blocks[..n][k].page == None || blocks[..n][k].page == Some(0);
          assert blocks[i].page == LastPage(blocks);
          assert forall k :: i < k < n ==> blocks[..n][k] == blocks[k];
        } else {
          assert forall k :: 0 <= k < n ==> blocks[..n][k] == blocks[k];
        }
      } else {
        assert blocks[n].page == LastPage(blocks);
      }
    }
  }

  /** A path names a section if its last two titles, joined, are not empty. */
  predicate NamesSection(path: seq<string>) {
    |path| >= 2 || (|path| == 1 && path[0] != "")
  }

  /** The last section is that of the last block whose path names one: its last two titles, or its only one. */
  lemma {:induction false} LastSectionMeaning(blocks: seq<TextBlock>)
    ensures LastSection(blocks) == None <==> forall i :: 0 <= i < |blocks| ==> !NamesSection(blocks[i].path)
    ensures forall i :: 0 <= i < |blocks| && NamesSection(blocks[i].path)
                        && (forall k :: i < k < |blocks| ==> !NamesSection(blocks[k].path)) ==>
              var path := blocks[i].path;
              LastSection(blocks) ==
                Some(if |path| == 1 then path[0] else path[|path| - 2] + (" > " + path[|path| - 1]))
  {
    if blocks != [] {
      var n := |blocks| - 1;
      LastSectionMeaning(blocks[..n]);
      LabelMeaning(blocks[n]);
      assert forall k :: 0 <= k < n ==> blocks[..n][k] == blocks[k];
    }
  }

  lemma LabelMeaning(block: TextBlock)
    ensures SectionLabel(block).Some? && SectionLabel(block).value != "" <==> NamesSection(block.path)
    ensures var path := block.path;
            |path| >= 2 ==> SectionLabel(block) == Some(path[|path| - 2] + (" > " + path[|path| - 1]))
  {
    if |block.path| >= 2 {
      var a, b := block.path[|block.path| - 2], block.path[|block.path| - 1];
      assert a + " > " + b == a + (" > " + b);
      assert |a + " > " + b| >= 3;
    }
  }

  // ---------- Sentences ----------

  lemma {:induction false} LStripKeepsEnd(s: string)
    requires s != "" && !IsSpace(s[|s| - 1])
    ensures Trimmed(LStrip(s))
  {
    if IsSpace(s[0]) {
      LStripKeepsEnd(s[1..]);
    }
  }

  /** Sentences keep the words of their block, and none of them is blank. */
  lemma {:induction false} SentencesKeep(s: string)
    requires Trimmed(s)
    ensures WordsOf(SplitSentences(s)) == Words(s)
    ensures forall i :: 0 <= i < |SplitSentences(s)| ==> Words(SplitSentences(s)[i]) != []
    ensures SplitSentences(s) != []
    decreases |s|
  {
    hide Words, IsSpace, WordsOf, SentenceEnd;
    var n := SentenceEnd(s, 1);
    FirstWords(s);
    if n == |s| {
      WordsOfOne(s);
    } else {
      FirstWords(s[..n]);
      var rest := LStrip(s[n..]);
      LStripShorter(s[n..]);
      LStripKeepsEnd(s[n..]);
      SentencesKeep(rest);
      WordsLStrip(s[n..]);
      assert s == s[..n] + s[n..];
      WordsConcat(s[..n], s[n..]);
      WordsOfCons(s[..n], SplitSentences(rest));
      var tail := SplitSentences(rest);
      assert forall i :: 0 < i < |[s[..n]] + tail| ==> ([s[..n]] + tail)[i] == tail[i - 1];
    }
  }

  lemma FirstWords(s: string)
    requires s != "" && !IsSpace(s[0])
    ensures Words(s) != []
  {
  }

  lemma WordsOfOne(part: string)
    ensures WordsOf([part]) == Words(part)
  {
    hide Words;
    assert [part][..0] == [];
  }

  // ---------- What the chunks must satisfy ----------

  function OwnWords(pieces: seq<Piece>): seq<string> {
    if pieces == [] then [] else OwnWords(pieces[..|pieces| - 1]) + pieces[|pieces| - 1].own
  }

  /** The last words of some chunk, no more of them than the limit. */
  ghost predicate TailCopy(tail: seq<string>, chunks: seq<Chunk>, limit: int) {
    && (limit >= 0 ==> |tail| <= limit)
    && (tail == [] || exists j :: 0 <= j < |chunks| && IsTail(tail, Words(chunks[j].text)))
  }

  /** What a chunk copies: the last words of one earlier chunk, then the last words of another. */
  ghost predicate SoundCopy(copied: seq<string>, chunks: seq<Chunk>, overlap: int) {
    exists n :: 0 <= n <= |copied| && TailCopy(copied[..n], chunks, overlap) && TailCopy(copied[n..], chunks, 2 * overlap)
  }

  /**
   * A chunk is a bounded copy of the ends of earlier chunks and then words of its own, which follow on
   * from theirs (before) and end inside the block that labels the chunk.
   */
  ghost predicate SoundPiece(blocks: seq<TextBlock>, overlap: int, chunk: Chunk, piece: Piece,
                             earlier: seq<Chunk>, before: seq<string>) {
    && chunk.index == |earlier|
    && chunk.tokens == Tokens(chunk.text)
    && Words(chunk.text) == piece.copied + piece.own
    && piece.own != []
    && SoundCopy(piece.copied, earlier, overlap)
    && piece.block < |blocks|
    && BlockWords(blocks[..piece.block]) < before + piece.own <= BlockWords(blocks[..piece.block + 1])
    && chunk.page == LastPage(blocks[..piece.block + 1])
    && chunk.section == LastSection(blocks[..piece.block + 1])
  }

  ghost predicate Sound(blocks: seq<TextBlock>, overlap: int, chunks: seq<Chunk>, pieces: seq<Piece>) {
    && |chunks| == |pieces|
    && forall j :: 0 <= j < |chunks| ==>
         SoundPiece(blocks, overlap, chunks[j], pieces[j], chunks[..j], OwnWords(pieces[..j]))
  }

  /**
   * Whole blocks, sentences or words make up a chunk's own text; their token estimates stay within the budget,
   * unless the chunk is a single word or a block that must not be cut.
   */
  ghost predicate BudgetOk(blocks: seq<TextBlock>, chunkSize: int, piece: Piece, units: seq<string>) {
    && WordsOf(units) == piece.own
    && (SumTokens(units) <= chunkSize
        || (|units| == 1 && |Words(units[0])| == 1)
        || (piece.block < |blocks| && Whole(blocks[piece.block].level) && units == [blocks[piece.block].text]))
  }

  ghost predicate Budgeted(blocks: seq<TextBlock>, chunkSize: int, pieces: seq<Piece>, units: seq<seq<string>>) {
    |units| == |pieces| && forall j :: 0 <= j < |pieces| ==> BudgetOk(blocks, chunkSize, pieces[j], units[j])
  }

  /** Chunk j is block b and nothing else, and holds it right after the words of the blocks before. */
  ghost predicate WholeAt(blocks: seq<TextBlock>, chunks: seq<Chunk>, pieces: seq<Piece>, b: nat, j: int) {
    && b < |blocks|
    && 0 <= j < |chunks| == |pieces|
    && chunks[j].text == blocks[b].text
    && pieces[j] == Piece([], Words(blocks[b].text), b)
    && OwnWords(pieces[..j]) == BlockWords(blocks[..b])
  }

  lemma WholeAtGrows(blocks: seq<TextBlock>, chunks: seq<Chunk>, pieces: seq<Piece>,
                     chunks': seq<Chunk>, pieces': seq<Piece>, b: nat, j: int)
    requires WholeAt(blocks, chunks, pieces, b, j)
    requires chunks <= chunks' && pieces <= pieces' && |chunks'| == |pieces'|
    ensures WholeAt(blocks, chunks', pieces', b, j)
  {
    hide OwnWords, Words, BlockWords;
    assert pieces'[..j] == pieces[..j];
  }

  lemma OwnWordsPush(pieces: seq<Piece>, piece: Piece)
    ensures OwnWords(pieces + [piece]) == OwnWords(pieces) + piece.own
  {
    assert (pieces + [piece])[..|pieces|] == pieces;
  }

  lemma BlockWordsPush(blocks: seq<TextBlock>, k: nat)
    requires k < |blocks|
    ensures BlockWords(blocks[..k + 1]) == BlockWords(blocks[..k]) + Words(blocks[k].text)
    ensures LastPage(blocks[..k + 1]) == PageOr(blocks[k], LastPage(blocks[..k]))
    ensures LastSection(blocks[..k + 1]) == SectionOr(blocks[k], LastSection(blocks[..k]))
  {
    hide Words, PageOr, SectionOr;
    assert blocks[..k + 1][..k] == blocks[..k];
  }

  // ---------- Emission ----------

  function ChunkTexts(chunks: seq<Chunk>): (texts: seq<string>)
    ensures |texts| == |chunks|
  {
    seq(|chunks|, j requires 0 <= j < |chunks| => chunks[j].text)
  }

  lemma ChunkTextsPush(chunks: seq<Chunk>, parts: seq<string>, page: Option<nat>, section: Option<string>)
    ensures ChunkTexts(chunks + [Body(parts, |chunks|, page, section)]) == ChunkTexts(chunks) + [JoinParagraphs(parts)]
  {
    hide JoinParagraphs, Tokens;
  }

  /** The chunk made of some parts. */
  function Body(parts: seq<string>, index: nat, page: Option<nat>, section: Option<string>): Chunk {
    var text := JoinParagraphs(parts);
    Chunk(text, index, page, section, Tokens(text))
  }

  /** Appends the parts that are not blank as one chunk, if there are any. */
  method Emit(chunks: seq<Chunk>, parts: seq<string>, page: Option<nat>, section: Option<string>)
    returns (chunks': seq<Chunk>)
    ensures chunks' == if WordsOf(parts) == [] then chunks else chunks + [Body(parts, |chunks|, page, section)]
  {
    hide WordsOf, JoinParagraphs;
    WordsOfParagraphs(parts);
    var body := JoinParagraphs(parts);
    WordsOfBlank(body);
    StripEnds(body);
    if Strip(body) == "" {
      return chunks;
    }
    chunks' := chunks + [Chunk(body, |chunks|, page, section, Tokens(body))];
  }

  lemma SoundEmit(blocks: seq<TextBlock>, overlap: int, chunks: seq<Chunk>, pieces: seq<Piece>, parts: seq<string>, piece: Piece)
    requires Sound(blocks, overlap, chunks, pieces)
    requires WordsOf(parts) == piece.copied + piece.own && piece.own != []
    requires SoundCopy(piece.copied, chunks, overlap)
    requires piece.block < |blocks|
    requires BlockWords(blocks[..piece.block]) < OwnWords(pieces) + piece.own <= BlockWords(blocks[..piece.block + 1])
    ensures Sound(blocks, overlap,
                  chunks + [Body(parts, |chunks|, LastPage(blocks[..piece.block + 1]), LastSection(blocks[..piece.block + 1]))],
                  pieces + [piece])
    ensures WordsOf(parts) != []
    ensures OwnWords(pieces + [piece]) == OwnWords(pieces) + piece.own
  {
    hide OwnWords, WordsOf, Words, BlockWords, LastPage, LastSection, SoundCopy, JoinParagraphs, Tokens;
    OwnWordsPush(pieces, piece);
    WordsOfParagraphs(parts);
    var chunk := Body(parts, |chunks|, LastPage(blocks[..piece.block + 1]), LastSection(blocks[..piece.block + 1]));
    var chunks', pieces' := chunks + [chunk], pieces + [piece];
    forall j | 0 <= j < |chunks'|
      ensures SoundPiece(blocks, overlap, chunks'[j], pieces'[j], chunks'[..j], OwnWords(pieces'[..j]))
    {
      assert pieces'[..j] == pieces[..j] && chunks'[..j] == chunks[..j];
      if j == |chunks| {
        assert pieces[..j] == pieces && chunks[..j] == chunks;
      }
    }
  }

  // ---------- Overlap copies ----------

  lemma NothingCopied(chunks: seq<Chunk>, limit: int)
    ensures TailCopy([], chunks, limit)
  {
  }

  /** A copy stays one as more chunks are emitted and under a wider limit. */
  lemma TailCopyKept(tail: seq<string>, chunks: seq<Chunk>, chunks': seq<Chunk>, limit: int)
    requires TailCopy(tail, chunks, limit) && chunks <= chunks'
    ensures TailCopy(tail, chunks', limit) && TailCopy(tail, chunks', 2 * limit)
  {
    if tail != [] {
      var j :| 0 <= j < |chunks| && IsTail(tail, Words(chunks[j].text));
      assert chunks'[j] == chunks[j];
    }
  }

  lemma PairCopied(first: seq<string>, second: seq<string>, chunks: seq<Chunk>, overlap: int)
    requires TailCopy(first, chunks, overlap) && TailCopy(second, chunks, 2 * overlap)
    ensures SoundCopy(first + second, chunks, overlap)
  {
    var n := |first|;
    assert (first + second)[..n] == first && (first + second)[n..] == second;
  }

  lemma SecondCopied(second: seq<string>, chunks: seq<Chunk>, overlap: int)
    requires TailCopy(second, chunks, 2 * overlap)
    ensures SoundCopy(second, chunks, overlap)
  {
    NothingCopied(chunks, overlap);
    PairCopied([], second, chunks, overlap);
    assert [] + second == second;
  }

  lemma LastChunkCopied(tail: seq<string>, chunks: seq<Chunk>, chunk: Chunk, limit: int)
    requires IsTail(tail, Words(chunk.text)) && (limit >= 0 ==> |tail| <= limit)
    ensures TailCopy(tail, chunks + [chunk], limit)
  {
    assert (chunks + [chunk])[|chunks|] == chunk;
  }

  /** The last characters of the last part may cut a word, but n characters hold at most (n + 1) / 2 words. */
  lemma TailOfText(parts: seq<string>, overlap: int)
    requires overlap != 0 && parts != []
    ensures var tail := Words(Tail(parts[|parts| - 1], overlap * 4));
            IsTail(tail, WordsOf(parts)) && (overlap >= 0 ==> |tail| <= 2 * overlap)
  {
    hide Words, IsTail;
    var text := parts[|parts| - 1];
    var tail := Tail(text, overlap * 4);
    WordsHalf(tail);
    var cut := |text| - |tail|;
    assert tail == text[cut..];
    WordsOfSuffix(text, cut);
    TailOfConcat(Words(tail), WordsOf(parts[..|parts| - 1]), Words(text));
  }

  /** The last words of the last part. */
  lemma TailOfPart(parts: seq<string>, overlap: int)
    requires overlap != 0 && parts != []
    ensures var tail := Tail(Words(parts[|parts| - 1]), overlap);
            IsTail(tail, WordsOf(parts)) && (overlap >= 0 ==> |tail| <= overlap)
  {
    hide Words, IsTail;
    var words := Words(parts[|parts| - 1]);
    TailOfSlice(words, |words| - |Tail(words, overlap)|);
    TailOfConcat(Tail(words, overlap), WordsOf(parts[..|parts| - 1]), words);
  }

  lemma Within(a: seq<string>, b: seq<string>, c: seq<string>, i: nat, d: seq<string>)
    requires a <= b && b + c <= d && 0 < i <= |c|
    ensures a < b + c[..i] <= d
  {
    assert b + c[..i] == (b + c)[..|b| + i];
  }

  lemma Advance(a: seq<string>, own: seq<string>, b: seq<string>, words: seq<string>, i: nat)
    requires i < |words| && a + own == b + words[..i]
    ensures a + (own + [words[i]]) == b + words[..i + 1]
  {
    assert a + (own + [words[i]]) == a + own + [words[i]];
    assert b + words[..i + 1] == b + words[..i] + [words[i]];
  }

  // ---------- Words ----------

  lemma SumTokensPush(words: seq<string>, word: string)
    ensures SumTokens(words + [word]) == SumTokens(words) + Tokens(word)
  {
    assert (words + [word])[..|words|] == words;
  }

  /** What waits to be emitted fits the budget, and its token counter is no lower than its own estimate. */
  ghost predicate Fits(units: seq<string>, own: seq<string>, tokens: int, chunkSize: int) {
    && WordsOf(units) == own
    && SumTokens(units) <= tokens
    && (units == [] || SumTokens(units) <= chunkSize || (|units| == 1 && |Words(units[0])| == 1))
  }

  lemma FitsNothing(tokens: nat, chunkSize: int)
    ensures Fits([], [], tokens, chunkSize) && WordsOf([]) == []
  {
  }

  /** The next unit goes with what waits if the counter stays within the budget, or starts anew. */
  lemma FitsNext(units: seq<string>, own: seq<string>, tokens: int, unit: string, chunkSize: int)
    requires Fits(units, own, tokens, chunkSize) && tokens >= 0
    requires if own == [] then Tokens(unit) <= chunkSize || |Words(unit)| == 1 else tokens + Tokens(unit) <= chunkSize
    requires own == [] ==> units == []
    ensures Fits(units + [unit], own + Words(unit), tokens + Tokens(unit), chunkSize)
  {
    hide Words, Tokens, WordsOf;
    SumTokensPush(units, unit);
    WordsOfAppend(units, unit);
  }

  lemma BudgetPush(blocks: seq<TextBlock>, chunkSize: int, pieces: seq<Piece>, units: seq<seq<string>>, piece: Piece,
                   mine: seq<string>, tokens: int)
    requires Budgeted(blocks, chunkSize, pieces, units) && Fits(mine, piece.own, tokens, chunkSize) && piece.own != []
    ensures Budgeted(blocks, chunkSize, pieces + [piece], units + [mine])
  {
    hide Words, SumTokens;
  }

  lemma BudgetWhole(blocks: seq<TextBlock>, chunkSize: int, pieces: seq<Piece>, units: seq<seq<string>>, k: nat)
    requires Budgeted(blocks, chunkSize, pieces, units) && k < |blocks| && Whole(blocks[k].level)
    ensures Budgeted(blocks, chunkSize, pieces + [Piece([], Words(blocks[k].text), k)], units + [[blocks[k].text]])
  {
    hide Words, SumTokens;
    WordsOfOne(blocks[k].text);
  }

  lemma OneWord(word: string)
    requires IsWord(word)
    ensures Words(word) == [word]
  {
    SingleWord(word);
  }

  /** sum(_approx_tokens(w) for w in words). */
  method CountTokens(words: seq<string>) returns (tokens: nat)
    ensures tokens == SumTokens(words)
  {
    tokens := 0;
    for i := 0 to |words|
      invariant tokens == SumTokens(words[..i])
    {
      SumTokensPush(words[..i], words[i]);
      assert words[..i + 1] == words[..i] + [words[i]];
      tokens := tokens + Tokens(words[i]);
    }
    assert words[..|words|] == words;
  }

  /** A sentence over the budget, word by word; what is left over goes back to the caller. */
  method SplitWords(chunks: seq<Chunk>, sentence: string, chunkSize: int, overlap: int,
                    page: Option<nat>, section: Option<string>,
                    ghost blocks: seq<TextBlock>, ghost k: nat, ghost pieces: seq<Piece>, ghost units: seq<seq<string>>,
                    ghost c: Context, ghost from: nat, ghost made: seq<Made>)
    returns (chunks': seq<Chunk>, acc: seq<string>, tokens: nat, ghost pieces': seq<Piece>, ghost copied: seq<string>,
             ghost own: seq<string>, ghost units': seq<seq<string>>, ghost made': seq<Made>, ghost open: Made)
    requires c == Context(blocks, chunkSize, overlap) && Splits(c, k) && Planned(c, ChunkTexts(chunks), made)
    requires from + |Words(sentence)| <= |BlockUnits(c, k)|
    ensures WordsPlanned(c, k, from, Words(sentence), |Words(sentence)|, made, ChunkTexts(chunks'), made', open, acc, tokens)
    requires Sound(blocks, overlap, chunks, pieces) && k < |blocks|
    requires page == LastPage(blocks[..k + 1]) && section == LastSection(blocks[..k + 1])
    requires BlockWords(blocks[..k]) <= OwnWords(pieces)
    requires OwnWords(pieces) + Words(sentence) <= BlockWords(blocks[..k + 1])
    requires Words(sentence) != [] && Budgeted(blocks, chunkSize, pieces, units)
    ensures Sound(blocks, overlap, chunks', pieces') && chunks <= chunks' && pieces <= pieces'
    ensures Budgeted(blocks, chunkSize, pieces', units') && Fits(own, own, tokens, chunkSize)
    ensures OwnWords(pieces') + own == OwnWords(pieces) + Words(sentence) && OwnWords(pieces) <= OwnWords(pieces')
    ensures acc == copied + own && own != [] && forall w :: w in acc ==> IsWord(w)
    ensures TailCopy(copied, chunks', overlap)
  {
    hide *;
    var words := Words(sentence);
    WordsAreWords(sentence);
    chunks', acc, tokens, pieces', copied, own, units' := chunks, [], 0, pieces, [], [], units;
    made', open := made, Made(None, Anew, []);
    NothingCopied(chunks, overlap);
    FitsNothing(0, chunkSize);
    NoWords(c, k, from, words, ChunkTexts(chunks), made, open);
    var i := 0;
    while i < |words|
      invariant 0 <= i <= |words|
      invariant Sound(blocks, overlap, chunks', pieces') && chunks <= chunks' && pieces <= pieces'
      invariant OwnWords(pieces') + own == OwnWords(pieces) + words[..i]
      invariant acc == copied + own && (if i == 0 then acc == [] else own != [])
      invariant forall w :: w in acc ==> IsWord(w)
      invariant TailCopy(copied, chunks', overlap)
      invariant OwnWords(pieces) <= OwnWords(pieces')
      invariant Budgeted(blocks, chunkSize, pieces', units') && Fits(own, own, tokens, chunkSize)
      invariant WordsPlanned(c, k, from, words, i, made, ChunkTexts(chunks'), made', open, acc, tokens)
      invariant i == 0 ==> tokens == 0
    {
      var word := words[i];
      if i == 0 {
        FirstWord(c, k, from, words, made, ChunkTexts(chunks'), made', open, acc, tokens);
        open := Made(None, Anew, [WordUnits(k, from, words)[0]]);
        assert [] + [word] == [word];
      } else if tokens + Tokens(word) > chunkSize {
        BreakWord(c, k, from, words, i, made, ChunkTexts(chunks'), made', open, acc, tokens);
        ChunkTextsPush(chunks', [JoinSpace(acc)], page, section);
        made', open := made' + [open], Made(None, if overlap != 0 then CopiedWords(Tail(acc, overlap)) else Anew,
                                            [WordUnits(k, from, words)[i]]);
      } else {
        NextWord(c, k, from, words, i, made, ChunkTexts(chunks'), made', open, acc, tokens);
        open := open.(units := open.units + [WordUnits(k, from, words)[i]]);
      }
      if tokens + Tokens(word) > chunkSize && acc != [] {
        Within(BlockWords(blocks[..k]), OwnWords(pieces), words, i, BlockWords(blocks[..k + 1]));
        EmitWords(blocks, k, overlap, chunks', pieces', acc, copied, own);
        chunks' := Emit(chunks', [JoinSpace(acc)], page, section);
        BudgetPush(blocks, chunkSize, pieces', units', Piece(copied, own, k), own, tokens);
        pieces', units' := pieces' + [Piece(copied, own, k)], units' + [own];
        acc := if overlap != 0 then Tail(acc, overlap) else [];
        copied, own := acc, [];
        tokens := CountTokens(acc);
        FitsNothing(tokens, chunkSize);
      }
      OneWord(word);
      FitsNext(own, own, tokens, word, chunkSize);
      Advance(OwnWords(pieces'), own, OwnWords(pieces), words, i);
      acc, own := acc + [word], own + [word];
      tokens := tokens + Tokens(word);
      i := i + 1;
    }
    assert words[..i] == words;
  }

  /** Emitting the words gathered so far, which leaves the last of them as a copy. */
  lemma EmitWords(blocks: seq<TextBlock>, k: nat, overlap: int, chunks: seq<Chunk>, pieces: seq<Piece>,
                  acc: seq<string>, copied: seq<string>, own: seq<string>)
    requires k < |blocks| && Sound(blocks, overlap, chunks, pieces)
    requires acc == copied + own && own != [] && (forall w :: w in acc ==> IsWord(w)) && TailCopy(copied, chunks, overlap)
    requires BlockWords(blocks[..k]) < OwnWords(pieces) + own <= BlockWords(blocks[..k + 1])
    ensures WordsOf([JoinSpace(acc)]) != []
    ensures var chunk := Body([JoinSpace(acc)], |chunks|, LastPage(blocks[..k + 1]), LastSection(blocks[..k + 1]));
            var pieces' := pieces + [Piece(copied, own, k)];
            var rest := if overlap != 0 then Tail(acc, overlap) else [];
            && Sound(blocks, overlap, chunks + [chunk], pieces')
            && OwnWords(pieces') == OwnWords(pieces) + own
            && TailCopy(rest, chunks + [chunk], overlap)
            && forall w :: w in rest ==> IsWord(w)
  {
    hide OwnWords, WordsOf, Words, BlockWords, LastPage, LastSection, TailCopy, SoundCopy, JoinParagraphs, Tokens, JoinSpace,
      Sound, IsWord, Tail;
    var parts := [JoinSpace(acc)];
    var chunk := Body(parts, |chunks|, LastPage(blocks[..k + 1]), LastSection(blocks[..k + 1]));
    WordsOfOne(JoinSpace(acc));
    WordsOfJoin(acc);
    TailCopyKept(copied, chunks, chunks, overlap);
    SecondCopied(copied, chunks, overlap);
    SoundEmit(blocks, overlap, chunks, pieces, parts, Piece(copied, own, k));
    WordsOfParagraphs(parts);
    EmittedTail(acc, chunks, chunk, overlap);
  }

  lemma EmittedTail(acc: seq<string>, chunks: seq<Chunk>, chunk: Chunk, overlap: int)
    requires Words(chunk.text) == acc && (forall w :: w in acc ==> IsWord(w))
    ensures var rest := if overlap != 0 then Tail(acc, overlap) else [];
            TailCopy(rest, chunks + [chunk], overlap) && forall w :: w in rest ==> IsWord(w)
  {
    hide Words, TailCopy, IsWord, IsTail;
    NothingCopied(chunks + [chunk], overlap);
    if overlap != 0 {
      var rest := Tail(acc, overlap);
      TailOfSlice(acc, |acc| - |rest|);
      LastChunkCopied(rest, chunks, chunk, overlap);
    }
  }

  // ---------- Sentences of a large block ----------

  lemma SentencePrefix(sentences: seq<string>, s: nat)
    requires s < |sentences|
    ensures WordsOf(sentences[..s + 1]) == WordsOf(sentences[..s]) + Words(sentences[s])
    ensures WordsOf(sentences[..s + 1]) <= WordsOf(sentences)
    decreases |sentences| - s
  {
    hide Words;
    assert sentences[..s + 1][..s] == sentences[..s];
    if s + 1 == |sentences| {
      assert sentences[..s + 1] == sentences;
    } else {
      SentencePrefix(sentences, s + 1);
    }
  }

  /** What the loop over sentences keeps: everything emitted or waiting is in order, and the buffer starts with a copy. */
  ghost predicate Filling(blocks: seq<TextBlock>, k: nat, overlap: int, done: seq<string>,
                          chunks: seq<Chunk>, pieces: seq<Piece>, buffer: seq<string>, copied: seq<string>, own: seq<string>)
    requires k < |blocks|
  {
    && Sound(blocks, overlap, chunks, pieces)
    && BlockWords(blocks[..k]) <= OwnWords(pieces)
    && OwnWords(pieces) + own == BlockWords(blocks[..k]) + done
    && WordsOf(buffer) == copied + own
    && TailCopy(copied, chunks, 2 * overlap)
  }

  lemma StartFilling(blocks: seq<TextBlock>, k: nat, overlap: int, chunks: seq<Chunk>, pieces: seq<Piece>)
    requires k < |blocks| && Sound(blocks, overlap, chunks, pieces) && OwnWords(pieces) == BlockWords(blocks[..k])
    ensures Filling(blocks, k, overlap, [], chunks, pieces, [], [], [])
    ensures forall parts: seq<string> :: WordsOf(parts[..0]) == []
  {
    hide OwnWords, BlockWords, Sound;
  }

  /** Emitting the buffer, which is then emptied or left with a copy of its last characters. */
  lemma FlushBuffer(blocks: seq<TextBlock>, k: nat, overlap: int, done: seq<string>, all: seq<string>,
                    chunks: seq<Chunk>, pieces: seq<Piece>, buffer: seq<string>, copied: seq<string>, own: seq<string>)
    requires k < |blocks| && Filling(blocks, k, overlap, done, chunks, pieces, buffer, copied, own)
    requires buffer != [] && own != [] && done <= all && BlockWords(blocks[..k + 1]) == BlockWords(blocks[..k]) + all
    ensures WordsOf(buffer) != []
    ensures var chunks' := chunks + [Body(buffer, |chunks|, LastPage(blocks[..k + 1]), LastSection(blocks[..k + 1]))];
            var pieces' := pieces + [Piece(copied, own, k)];
            var rest := if overlap != 0 then [Tail(buffer[|buffer| - 1], overlap * 4)] else [];
            && Filling(blocks, k, overlap, done, chunks', pieces', [], [], [])
            && Filling(blocks, k, overlap, done, chunks', pieces', rest, WordsOf(rest), [])
  {
    hide OwnWords, BlockWords, Sound, SoundCopy, TailCopy, LastPage, LastSection, JoinParagraphs, Tokens, Words, Tail;
    Enclosed(BlockWords(blocks[..k]), OwnWords(pieces), own, done, BlockWords(blocks[..k + 1]), all);
    SecondCopied(copied, chunks, overlap);
    SoundEmit(blocks, overlap, chunks, pieces, buffer, Piece(copied, own, k));
    TailOfBuffer(buffer, chunks, Body(buffer, |chunks|, LastPage(blocks[..k + 1]), LastSection(blocks[..k + 1])), overlap);
    NothingCopied(chunks + [Body(buffer, |chunks|, LastPage(blocks[..k + 1]), LastSection(blocks[..k + 1]))], 2 * overlap);
    assert WordsOf([]) == [];
  }

  lemma AppendSentence(blocks: seq<TextBlock>, k: nat, overlap: int, done: seq<string>, sentence: string,
                       chunks: seq<Chunk>, pieces: seq<Piece>, buffer: seq<string>, copied: seq<string>, own: seq<string>)
    requires k < |blocks| && Filling(blocks, k, overlap, done, chunks, pieces, buffer, copied, own)
    ensures Filling(blocks, k, overlap, done + Words(sentence), chunks, pieces, buffer + [sentence], copied, own + Words(sentence))
  {
    hide OwnWords, BlockWords, Sound, SoundCopy, Words, WordsOf;
    WordsOfAppend(buffer, sentence);
    Grown(OwnWords(pieces), copied, own, Words(sentence), BlockWords(blocks[..k]), done, WordsOf(buffer));
  }

  /** With an empty buffer, the next sentence may be split into words. */
  lemma BeforeWords(blocks: seq<TextBlock>, k: nat, overlap: int, done: seq<string>, next: seq<string>, all: seq<string>,
                    chunks: seq<Chunk>, pieces: seq<Piece>)
    requires k < |blocks| && Filling(blocks, k, overlap, done, chunks, pieces, [], [], [])
    requires done + next <= all && BlockWords(blocks[..k + 1]) == BlockWords(blocks[..k]) + all
    ensures Sound(blocks, overlap, chunks, pieces) && BlockWords(blocks[..k]) <= OwnWords(pieces)
    ensures OwnWords(pieces) == BlockWords(blocks[..k]) + done
    ensures OwnWords(pieces) + next <= BlockWords(blocks[..k + 1])
  {
    hide OwnWords, BlockWords, Sound, SoundCopy;
    var base := BlockWords(blocks[..k]);
    assert OwnWords(pieces) + [] == OwnWords(pieces);
    assert base + done + next == base + (done + next);
    assert (base + all)[..|base| + |done| + |next|] == base + all[..|done| + |next|];
  }

  lemma AfterWords(blocks: seq<TextBlock>, k: nat, overlap: int, done: seq<string>, sentence: string,
                   chunks: seq<Chunk>, pieces: seq<Piece>, acc: seq<string>, copied: seq<string>, own: seq<string>)
    requires k < |blocks| && Sound(blocks, overlap, chunks, pieces) && BlockWords(blocks[..k]) <= OwnWords(pieces)
    requires OwnWords(pieces) + own == BlockWords(blocks[..k]) + done + Words(sentence)
    requires acc == copied + own && (forall w :: w in acc ==> IsWord(w)) && TailCopy(copied, chunks, overlap)
    ensures Filling(blocks, k, overlap, done + Words(sentence), chunks, pieces, [JoinSpace(acc)], copied, own)
  {
    hide OwnWords, BlockWords, Sound, SoundCopy, Words, WordsOf, IsWord, JoinSpace;
    WordsOfOne(JoinSpace(acc));
    WordsOfJoin(acc);
    TailCopyKept(copied, chunks, chunks, overlap);
    assert BlockWords(blocks[..k]) + done + Words(sentence) == BlockWords(blocks[..k]) + (done + Words(sentence));
  }

  lemma FillingFacts(blocks: seq<TextBlock>, k: nat, overlap: int, done: seq<string>,
                     chunks: seq<Chunk>, pieces: seq<Piece>, buffer: seq<string>, copied: seq<string>, own: seq<string>)
    requires k < |blocks| && Filling(blocks, k, overlap, done, chunks, pieces, buffer, copied, own)
    ensures Sound(blocks, overlap, chunks, pieces)
    ensures OwnWords(pieces) + own == BlockWords(blocks[..k]) + done
    ensures WordsOf(buffer) == copied + own && TailCopy(copied, chunks, 2 * overlap)
    ensures buffer == [] ==> copied == own == []
  {
    hide OwnWords, BlockWords, Sound, SoundCopy;
  }

  /** A block over the budget, sentence by sentence; the last buffer goes back to the caller. */
  method SplitBlock(chunks: seq<Chunk>, text: string, chunkSize: int, overlap: int,
                    page: Option<nat>, section: Option<string>,
                    ghost blocks: seq<TextBlock>, ghost k: nat, ghost pieces: seq<Piece>, ghost units: seq<seq<string>>,
                    ghost c: Context, ghost made: seq<Made>)
    returns (chunks': seq<Chunk>, buffer: seq<string>, tokens: nat, ghost pieces': seq<Piece>, ghost copied: seq<string>,
             ghost own: seq<string>, ghost units': seq<seq<string>>, ghost mine: seq<string>,
             ghost made': seq<Made>, ghost open: Made)
    requires c == Context(blocks, chunkSize, overlap) && Splits(c, k) && Planned(c, ChunkTexts(chunks), made)
    ensures SplitSentences(text) != []
    ensures SentencesPlanned(c, k, SplitSentences(text), |SplitSentences(text)|, made, ChunkTexts(chunks'), made', open, buffer,
                             tokens)
    requires Sound(blocks, overlap, chunks, pieces) && k < |blocks|
    requires blocks[k].text == text && Trimmed(text)
    requires page == LastPage(blocks[..k + 1]) && section == LastSection(blocks[..k + 1])
    requires OwnWords(pieces) == BlockWords(blocks[..k]) && Budgeted(blocks, chunkSize, pieces, units)
    ensures Sound(blocks, overlap, chunks', pieces') && chunks <= chunks' && pieces <= pieces'
    ensures Budgeted(blocks, chunkSize, pieces', units') && Fits(mine, own, tokens, chunkSize)
    ensures OwnWords(pieces') + own == BlockWords(blocks[..k + 1])
    ensures WordsOf(buffer) == copied + own && own != [] && buffer != []
    ensures TailCopy(copied, chunks', 2 * overlap)
  {
    hide *;
    var sentences := SplitSentences(text);
    SentencesKeep(text);
    BlockWordsPush(blocks, k);
    chunks', buffer, tokens, pieces', copied, own, units', mine := chunks, [], 0, pieces, [], [], units, [];
    FitsNothing(0, chunkSize);
    StartFilling(blocks, k, overlap, chunks, pieces);
    made', open := made, Made(None, Anew, []);
    StartSentences(c, k, sentences, made, ChunkTexts(chunks));
    SplitAsBlock(c, k);
    var s := 0;
    ghost var done: seq<string> := [];
    while s < |sentences|
      invariant 0 <= s <= |sentences| && done == WordsOf(sentences[..s])
      invariant Filling(blocks, k, overlap, done, chunks', pieces', buffer, copied, own)
      invariant chunks <= chunks' && pieces <= pieces'
      invariant (buffer != [] ==> own != []) && (s > 0 ==> buffer != [])
      invariant Budgeted(blocks, chunkSize, pieces', units') && Fits(mine, own, tokens, chunkSize)
      invariant own == [] ==> mine == []
      invariant s == 0 ==> Between(c, k, sentences, 0, made, ChunkTexts(chunks'), made') && tokens == 0 && buffer == []
                           && made' == made
      invariant s > 0 ==> SentencesPlanned(c, k, sentences, s, made, ChunkTexts(chunks'), made', open, buffer, tokens)
    {
      var sentence := sentences[s];
      var st := Tokens(sentence);
      SentencePrefix(sentences, s);
      FillingFacts(blocks, k, overlap, done, chunks', pieces', buffer, copied, own);
      if st > chunkSize {
        if buffer != [] {
          FlushBuffer(blocks, k, overlap, done, WordsOf(sentences), chunks', pieces', buffer, copied, own);
          BeforeLong(c, k, sentences, s, made, ChunkTexts(chunks'), made', open, buffer, tokens);
          ChunkTextsPush(chunks', buffer, page, section);
          made' := made' + [open];
          chunks' := Emit(chunks', buffer, page, section);
          BudgetPush(blocks, chunkSize, pieces', units', Piece(copied, own, k), mine, tokens);
          pieces', units' := pieces' + [Piece(copied, own, k)], units' + [mine];
          buffer, tokens, copied, own, mine := [], 0, [], [], [];
        }
        BeforeWords(blocks, k, overlap, done, Words(sentence), WordsOf(sentences), chunks', pieces');
        var acc;
        MoreUnits(c, k, sentences, s);
        ghost var texts, before := ChunkTexts(chunks'), made';
        BetweenPlanned(c, k, sentences, s, made, texts, before);
        chunks', acc, tokens, pieces', copied, own, units', made', open :=
          SplitWords(chunks', sentence, chunkSize, overlap, page, section, blocks, k, pieces', units',
                     c, |SplitUnits(c, k, sentences[..s])|, before);
        AfterLong(c, k, sentences, s, made, texts, before, ChunkTexts(chunks'), made', open, acc, tokens);
        mine := own;
        if acc != [] {
          buffer := buffer + [JoinSpace(acc)];
        }
        AfterWords(blocks, k, overlap, done, sentence, chunks', pieces', acc, copied, own);
        assert buffer == [JoinSpace(acc)];
      } else {
        if s == 0 {
          FirstSentence(c, k, sentences, made, ChunkTexts(chunks'));
          open := Made(None, Anew, [Unit(sentence, k, 0, ASentence)]);
          assert [] + [sentence] == [sentence];
        } else if tokens + st > chunkSize {
          BreakSentence(c, k, sentences, s, made, ChunkTexts(chunks'), made', open, buffer, tokens);
          ChunkTextsPush(chunks', buffer, page, section);
          LastCharactersMeaning(buffer[|buffer| - 1], overlap);
          made', open := made' + [open], Made(None, LastCharacters(buffer[|buffer| - 1], overlap),
                                              [Unit(sentence, k, |SplitUnits(c, k, sentences[..s])|, ASentence)]);
        } else {
          NextSentence(c, k, sentences, s, made, ChunkTexts(chunks'), made', open, buffer, tokens);
          open := open.(units := open.units + [Unit(sentence, k, |SplitUnits(c, k, sentences[..s])|, ASentence)]);
        }
        if tokens + st > chunkSize && buffer != [] {
          FlushBuffer(blocks, k, overlap, done, WordsOf(sentences), chunks', pieces', buffer, copied, own);
          chunks' := Emit(chunks', buffer, page, section);
          BudgetPush(blocks, chunkSize, pieces', units', Piece(copied, own, k), mine, tokens);
          pieces', units' := pieces' + [Piece(copied, own, k)], units' + [mine];
          var tail := buffer[|buffer| - 1];
          buffer := if overlap != 0 then [Tail(tail, overlap * 4)] else [];
          tokens := if buffer != [] then Tokens(buffer[0]) else 0;
          copied, own, mine := WordsOf(buffer), [], [];
          FitsNothing(tokens, chunkSize);
        }
        AppendSentence(blocks, k, overlap, done, sentence, chunks', pieces', buffer, copied, own);
        FitsNext(mine, own, tokens, sentence, chunkSize);
        buffer, own, mine := buffer + [sentence], own + Words(sentence), mine + [sentence];
        tokens := tokens + st;
      }
      s, done := s + 1, done + Words(sentence);
    }
    assert sentences[..s] == sentences;
    FillingFacts(blocks, k, overlap, done, chunks', pieces', buffer, copied, own);
  }

  lemma NoWords(c: Context, k: nat, from: nat, words: seq<string>, texts: seq<string>, made: seq<Made>, open: Made)
    requires Planned(c, texts, made)
    ensures WordsPlanned(c, k, from, words, 0, made, texts, made, open, [], 0)
  {
    hide Planned;
  }

  lemma SplitAsBlock(c: Context, k: nat)
    requires k < |c.blocks| && Splits(c, k)
    ensures SplitAs(c, k, SplitSentences(c.blocks[k].text))
  {
  }

  lemma BetweenPlanned(c: Context, k: nat, sentences: seq<string>, s: nat, start: seq<Made>, texts: seq<string>, made: seq<Made>)
    requires s <= |sentences| && Between(c, k, sentences, s, start, texts, made)
    ensures Planned(c, texts, made)
  {
    hide Planned;
  }

  lemma LastCharactersMeaning(text: string, overlap: int)
    ensures LastCharacters(text, overlap) == if overlap != 0 then CopiedText(Tail(text, overlap * 4)) else Anew
    ensures Cost(LastCharacters(text, overlap)) == if overlap != 0 then Tokens(Tail(text, overlap * 4)) else 0
  {
  }

  lemma Enclosed(base: seq<string>, emitted: seq<string>, own: seq<string>, done: seq<string>, whole: seq<string>, all: seq<string>)
    requires emitted + own == base + done && own != [] && done <= all && whole == base + all
    requires base <= emitted
    ensures base < emitted + own <= whole
  {
  }

  lemma TailOfBuffer(buffer: seq<string>, chunks: seq<Chunk>, chunk: Chunk, overlap: int)
    requires buffer != [] && chunk.text == JoinParagraphs(buffer)
    ensures TailCopy(WordsOf(if overlap != 0 then [Tail(buffer[|buffer| - 1], overlap * 4)] else []), chunks + [chunk], 2 * overlap)
  {
    hide Words, WordsOf, JoinParagraphs, TailCopy;
    NothingCopied(chunks + [chunk], 2 * overlap);
    WordsOfParagraphs(buffer);
    if overlap != 0 {
      TailOfText(buffer, overlap);
      WordsOfOne(Tail(buffer[|buffer| - 1], overlap * 4));
      LastChunkCopied(Words(Tail(buffer[|buffer| - 1], overlap * 4)), chunks, chunk, 2 * overlap);
    } else {
      WordsOfNone();
    }
  }

  lemma Grown(emitted: seq<string>, copied: seq<string>, own: seq<string>, next: seq<string>,
              base: seq<string>, done: seq<string>, words: seq<string>)
    requires emitted + own == base + done && words == copied + own
    ensures emitted + (own + next) == base + (done + next)
    ensures words + next == copied + (own + next)
  {
    assert emitted + (own + next) == emitted + own + next;
    assert base + (done + next) == base + done + next;
  }

  // ---------- Packing blocks into chunks ----------

  ghost predicate AllTrimmed(blocks: seq<TextBlock>) {
    forall k :: 0 <= k < |blocks| ==> Trimmed(blocks[k].text)
  }

  /** What the loop over blocks keeps: the first k blocks are emitted or waiting, in order. */
  ghost predicate Packing(blocks: seq<TextBlock>, k: nat, overlap: int, chunks: seq<Chunk>, pieces: seq<Piece>,
                          parts: seq<string>, copied: seq<string>, own: seq<string>)
    requires k <= |blocks|
  {
    && Sound(blocks, overlap, chunks, pieces)
    && OwnWords(pieces) + own == BlockWords(blocks[..k])
    && WordsOf(parts) == copied + own
    && SoundCopy(copied, chunks, overlap)
  }

  ghost predicate WholesPlaced(blocks: seq<TextBlock>, at: seq<int>, chunks: seq<Chunk>, pieces: seq<Piece>)
    requires |at| <= |blocks|
  {
    forall b :: 0 <= b < |at| && Whole(blocks[b].level) ==> WholeAt(blocks, chunks, pieces, b, at[b])
  }

  lemma WholesGrow(blocks: seq<TextBlock>, at: seq<int>, chunks: seq<Chunk>, pieces: seq<Piece>,
                   chunks': seq<Chunk>, pieces': seq<Piece>, j: int)
    requires |at| < |blocks| && WholesPlaced(blocks, at, chunks, pieces)
    requires chunks <= chunks' && pieces <= pieces' && |chunks'| == |pieces'|
    requires Whole(blocks[|at|].level) ==> WholeAt(blocks, chunks', pieces', |at|, j)
    ensures WholesPlaced(blocks, at + [j], chunks', pieces')
  {
    hide WholeAt;
    WholesKept(blocks, at, chunks, pieces, chunks', pieces');
  }

  lemma StartPacking(blocks: seq<TextBlock>, overlap: int)
    ensures Packing(blocks, 0, overlap, [], [], [], [], []) && WholesPlaced(blocks, [], [], [])
    ensures LastPage(blocks[..0]) == None && LastSection(blocks[..0]) == None
  {
    NothingCopied([], 2 * overlap);
    SecondCopied([], [], overlap);
  }

  lemma PackingFacts(blocks: seq<TextBlock>, k: nat, overlap: int, chunks: seq<Chunk>, pieces: seq<Piece>,
                     parts: seq<string>, copied: seq<string>, own: seq<string>)
    requires k <= |blocks| && Packing(blocks, k, overlap, chunks, pieces, parts, copied, own)
    ensures Sound(blocks, overlap, chunks, pieces) && |chunks| == |pieces|
    ensures parts == [] ==> copied == own == []
    ensures own == [] ==> OwnWords(pieces) == BlockWords(blocks[..k]) && WordsOf(parts) == copied
  {
    hide OwnWords, BlockWords, SoundCopy, SoundPiece;
  }

  /** The copy put before the next block: the last words of the last part. */
  function OverlapText(parts: seq<string>, overlap: int): string {
    if overlap != 0 && parts != [] then JoinSpace(Tail(Words(parts[|parts| - 1]), overlap)) else ""
  }

  function OverlapParts(parts: seq<string>, overlap: int): seq<string> {
    var text := OverlapText(parts, overlap);
    if Strip(text) != "" then [text] else []
  }

  lemma OverlapCopied(parts: seq<string>, chunks: seq<Chunk>, chunk: Chunk, overlap: int)
    requires parts != [] && chunk.text == JoinParagraphs(parts)
    ensures TailCopy(WordsOf(OverlapParts(parts, overlap)), chunks + [chunk], overlap)
  {
    hide Words, WordsOf, JoinSpace, JoinParagraphs, Strip, IsWord, TailCopy, Tail;
    var last, text := parts[|parts| - 1], OverlapText(parts, overlap);
    NothingCopied(chunks + [chunk], overlap);
    if overlap != 0 && Strip(text) != "" {
      WordsOfOne(text);
      WordsOfParagraphs(parts);
      TailOfPart(parts, overlap);
      WordsAreWords(last);
      TailMembers(Words(last), overlap);
      WordsOfJoin(Tail(Words(last), overlap));
      LastChunkCopied(Tail(Words(last), overlap), chunks, chunk, overlap);
    } else {
      StripNothing();
      WordsOfNone();
    }
  }

  lemma TailMembers(words: seq<string>, k: int)
    requires k != 0
    ensures forall w :: w in Tail(words, k) ==> w in words
  {
  }

  lemma StripNothing()
    ensures Strip("") == ""
  {
  }

  /** Emitting the waiting parts, which leaves nothing or a copy of the last words. */
  lemma FlushParts(blocks: seq<TextBlock>, k: nat, overlap: int, chunks: seq<Chunk>, pieces: seq<Piece>,
                   parts: seq<string>, copied: seq<string>, own: seq<string>)
    requires k <= |blocks| && AllTrimmed(blocks)
    requires Packing(blocks, k, overlap, chunks, pieces, parts, copied, own)
    requires parts != [] && own != []
    ensures k > 0 && WordsOf(parts) != []
    ensures var chunks' := chunks + [Body(parts, |chunks|, LastPage(blocks[..k]), LastSection(blocks[..k]))];
            var pieces' := pieces + [Piece(copied, own, k - 1)];
            var rest := OverlapParts(parts, overlap);
            && Packing(blocks, k, overlap, chunks', pieces', [], [], [])
            && Packing(blocks, k, overlap, chunks', pieces', rest, WordsOf(rest), [])
            && TailCopy(WordsOf(rest), chunks', overlap)
  {
    hide OwnWords, BlockWords, Sound, SoundCopy, TailCopy, LastPage, LastSection, JoinParagraphs, Tokens, Words, OverlapParts,
      Trimmed, PageOr, SectionOr;
    NoBlocks(blocks);
    BlockWordsPush(blocks, k - 1);
    TrimmedWords(blocks[k - 1].text);
    assert BlockWords(blocks[..k - 1]) < BlockWords(blocks[..k]);
    SoundEmit(blocks, overlap, chunks, pieces, parts, Piece(copied, own, k - 1));
    var chunk := Body(parts, |chunks|, LastPage(blocks[..k]), LastSection(blocks[..k]));
    var rest := WordsOf(OverlapParts(parts, overlap));
    OverlapCopied(parts, chunks, chunk, overlap);
    TailCopyKept(rest, chunks + [chunk], chunks + [chunk], overlap);
    SecondCopied(rest, chunks + [chunk], overlap);
    NothingCopied(chunks + [chunk], 2 * overlap);
    SecondCopied([], chunks + [chunk], overlap);
    WordsOfNone();
  }

  lemma NoBlocks(blocks: seq<TextBlock>)
    ensures BlockWords(blocks[..0]) == []
  {
  }

  lemma TrimmedWords(text: string)
    requires Trimmed(text)
    ensures Words(text) != [] && JoinParagraphs([text]) == text && WordsOf([text]) == Words(text)
  {
    FirstWords(text);
    WordsOfOne(text);
    assert !Blank(text);
    assert [text][..0] == [];
  }

  /** Headings of the first two levels and tables are chunks of their own. */
  lemma EmitWhole(blocks: seq<TextBlock>, k: nat, overlap: int, chunks: seq<Chunk>, pieces: seq<Piece>)
    requires k < |blocks| && AllTrimmed(blocks)
    requires Packing(blocks, k, overlap, chunks, pieces, [], [], [])
    ensures WordsOf([blocks[k].text]) != []
    ensures var chunk := Body([blocks[k].text], |chunks|, LastPage(blocks[..k + 1]), LastSection(blocks[..k + 1]));
            var pieces' := pieces + [Piece([], Words(blocks[k].text), k)];
            && Packing(blocks, k + 1, overlap, chunks + [chunk], pieces', [], [], [])
            && WholeAt(blocks, chunks + [chunk], pieces', k, |chunks|)
  {
    hide OwnWords, BlockWords, Sound, SoundCopy, TailCopy, LastPage, LastSection, Words, Trimmed, PageOr, SectionOr, JoinParagraphs;
    PackingFacts(blocks, k, overlap, chunks, pieces, [], [], []);
    var text := blocks[k].text;
    var chunk := Body([text], |chunks|, LastPage(blocks[..k + 1]), LastSection(blocks[..k + 1]));
    TrimmedWords(text);
    BlockWordsPush(blocks, k);
    SoundEmit(blocks, overlap, chunks, pieces, [text], Piece([], Words(text), k));
    NothingCopied(chunks + [chunk], 2 * overlap);
    SecondCopied([], chunks + [chunk], overlap);
    assert (pieces + [Piece([], Words(text), k)])[..|pieces|] == pieces;
  }

  /** A block that fits waits with the others. */
  lemma AddBlock(blocks: seq<TextBlock>, k: nat, overlap: int, chunks: seq<Chunk>, pieces: seq<Piece>,
                 parts: seq<string>, copied: seq<string>, own: seq<string>)
    requires k < |blocks| && AllTrimmed(blocks)
    requires Packing(blocks, k, overlap, chunks, pieces, parts, copied, own)
    ensures own + Words(blocks[k].text) != []
    ensures Packing(blocks, k + 1, overlap, chunks, pieces, parts + [blocks[k].text], copied, own + Words(blocks[k].text))
  {
    hide OwnWords, BlockWords, Sound, SoundCopy, LastPage, LastSection, Words, WordsOf, Trimmed, PageOr, SectionOr;
    TrimmedWords(blocks[k].text);
    BlockWordsPush(blocks, k);
    WordsOfAppend(parts, blocks[k].text);
    assert copied + (own + Words(blocks[k].text)) == copied + own + Words(blocks[k].text);
    assert OwnWords(pieces) + (own + Words(blocks[k].text)) == OwnWords(pieces) + own + Words(blocks[k].text);
  }

  /** What a split block leaves over waits behind the copy of the block before. */
  lemma AddRest(blocks: seq<TextBlock>, k: nat, overlap: int, before: seq<Chunk>, chunks: seq<Chunk>, pieces: seq<Piece>,
                parts: seq<string>, copied: seq<string>, buffer: seq<string>, copied': seq<string>, own: seq<string>)
    requires k < |blocks| && Sound(blocks, overlap, chunks, pieces) && before <= chunks
    requires WordsOf(parts) == copied && TailCopy(copied, before, overlap)
    requires OwnWords(pieces) + own == BlockWords(blocks[..k + 1])
    requires WordsOf(buffer) == copied' + own && TailCopy(copied', chunks, 2 * overlap)
    ensures Packing(blocks, k + 1, overlap, chunks, pieces, parts + buffer, copied + copied', own)
  {
    hide OwnWords, BlockWords, Sound, WordsOf, TailCopy, SoundCopy;
    WordsOfConcat(parts, buffer);
    TailCopyKept(copied, before, chunks, overlap);
    PairCopied(copied, copied', chunks, overlap);
  }

  lemma StartBudget(blocks: seq<TextBlock>, chunkSize: int)
    ensures Budgeted(blocks, chunkSize, [], []) && Fits([], [], 0, chunkSize)
  {
  }

  lemma AllTrimmedHolds(blocks: seq<TextBlock>)
    ensures (forall k :: 0 <= k < |blocks| ==> Trimmed(blocks[k].text)) ==> AllTrimmed(blocks)
  {
  }

  lemma TrimmedAt(blocks: seq<TextBlock>, k: nat)
    requires AllTrimmed(blocks) && k < |blocks|
    ensures Trimmed(blocks[k].text)
  {
  }

  lemma OrAgain(block: TextBlock, page: Option<nat>, section: Option<string>)
    ensures PageOr(block, page) == None ==> page == None
    ensures var own := SectionOr(block, section); own == None || own.value == "" ==> own == section
  {
  }

  lemma NothingWaits(blocks: seq<TextBlock>, k: nat, overlap: int, chunks: seq<Chunk>, pieces: seq<Piece>,
                     copied: seq<string>, own: seq<string>)
    requires k <= |blocks| && Packing(blocks, k, overlap, chunks, pieces, [], copied, own)
    ensures copied == own == [] && TailCopy([], chunks, overlap)
  {
    hide OwnWords, BlockWords, Sound, SoundCopy;
  }

  lemma WholesKept(blocks: seq<TextBlock>, at: seq<int>, chunks: seq<Chunk>, pieces: seq<Piece>,
                   chunks': seq<Chunk>, pieces': seq<Piece>)
    requires |at| <= |blocks| && WholesPlaced(blocks, at, chunks, pieces)
    requires chunks <= chunks' && pieces <= pieces' && |chunks'| == |pieces'|
    ensures WholesPlaced(blocks, at, chunks', pieces')
  {
    forall b | 0 <= b < |at| && Whole(blocks[b].level)
      ensures WholeAt(blocks, chunks', pieces', b, at[b])
    {
      hide WholeAt;
      WholeAtGrows(blocks, chunks, pieces, chunks', pieces', b, at[b]);
    }
  }

  /** Emits the waiting parts: nothing waits any more, or only the overlap copy of their last words. */
  method EmitWaiting(chunks: seq<Chunk>, parts: seq<string>, page: Option<nat>, section: Option<string>,
                     ghost blocks: seq<TextBlock>, ghost k: nat, ghost chunkSize: int, ghost overlap: int, ghost tokens: nat,
                     ghost pieces: seq<Piece>, ghost copied: seq<string>, ghost own: seq<string>,
                     ghost units: seq<seq<string>>, ghost mine: seq<string>)
    returns (chunks': seq<Chunk>, ghost pieces': seq<Piece>, ghost units': seq<seq<string>>)
    ensures ChunkTexts(chunks') == ChunkTexts(chunks) + [JoinParagraphs(parts)]
    requires k <= |blocks| && AllTrimmed(blocks) && parts != [] && own != []
    requires Packing(blocks, k, overlap, chunks, pieces, parts, copied, own)
    requires Budgeted(blocks, chunkSize, pieces, units) && Fits(mine, own, tokens, chunkSize)
    requires page == LastPage(blocks[..k]) && section == LastSection(blocks[..k])
    ensures chunks <= chunks' && pieces <= pieces' && |chunks'| == |pieces'|
    ensures Packing(blocks, k, overlap, chunks', pieces', [], [], [])
    ensures var rest := OverlapParts(parts, overlap);
            Packing(blocks, k, overlap, chunks', pieces', rest, WordsOf(rest), []) && TailCopy(WordsOf(rest), chunks', overlap)
    ensures Budgeted(blocks, chunkSize, pieces', units')
  {
    hide *;
    FlushParts(blocks, k, overlap, chunks, pieces, parts, copied, own);
    ChunkTextsPush(chunks, parts, page, section);
    chunks' := Emit(chunks, parts, page, section);
    BudgetPush(blocks, chunkSize, pieces, units, Piece(copied, own, k - 1), mine, tokens);
    pieces', units' := pieces + [Piece(copied, own, k - 1)], units + [mine];
    PackingFacts(blocks, k, overlap, chunks', pieces', [], [], []);
  }

  /** The texts of the copy that the code puts before the next block. */
  lemma OverlapMeaning(parts: seq<string>, overlap: int)
    requires parts != []
    ensures var start := LastWords(parts[|parts| - 1], overlap);
      && OverlapParts(parts, overlap) == (if start.CopiedText? then [start.text] else [])
      && Cost(start) == (if OverlapParts(parts, overlap) != [] then Tokens(OverlapText(parts, overlap)) else 0)
  {
    hide Words, JoinSpace, Strip, IsWord, Tail, Tokens;
    if overlap != 0 {
      var last := Words(parts[|parts| - 1]);
      WordsAreWords(parts[|parts| - 1]);
      TailMembers(last, overlap);
      var text := JoinSpace(Tail(last, overlap));
      WordsOfJoin(Tail(last, overlap));
      StripEnds(text);
      WordsOfBlank(text);
    } else {
      StripNothing();
    }
  }

  /** What the waiting parts leave for the end of a block that is split. */
  lemma LeftAfter(c: Context, k: nat, texts: seq<string>, made: seq<Made>, open: Made, parts: seq<string>, tokens: int)
    requires k <= |c.blocks| && parts != [] && BlocksPlanned(c, k, texts, made, open, parts, tokens)
    ensures var start := LastWords(parts[|parts| - 1], c.overlap);
      LeftBefore(c, made + [open], |made| + 1) == if start.CopiedText? then Some(start.text) else None
  {
    hide Planned, Parts, LeadRight, Unbroken, Follows, LastWords, Flat, UnitsUpTo, Cost;
  }

  lemma NoneLeft(c: Context, k: nat, texts: seq<string>, made: seq<Made>, open: Made, tokens: int)
    requires k <= |c.blocks| && BlocksPlanned(c, k, texts, made, open, [], tokens)
    ensures Emptied(c, k, texts, made) && tokens == 0 && LeftBefore(c, made, |made|) == None
  {
    hide Planned, Parts, LastWords, Flat, UnitsUpTo;
  }

  lemma MustSplit(c: Context, k: nat, texts: seq<string>, made: seq<Made>)
    requires k < |c.blocks| && !Whole(c.blocks[k].level) && Tokens(c.blocks[k].text) > c.chunkSize
    requires Emptied(c, k, texts, made)
    ensures Splits(c, k) && Planned(c, texts, made)
  {
    hide Planned, Tokens;
  }

  /** A block that would overflow the waiting parts: they are emitted, and it waits behind their copy or is split. */
  method PackOverflowing(chunks: seq<Chunk>, parts: seq<string>, tokens: nat, block: TextBlock, chunkSize: int, overlap: int,
                         page: Option<nat>, section: Option<string>, currentPage: Option<nat>, currentSection: Option<string>,
                         ghost blocks: seq<TextBlock>, ghost k: nat, ghost pieces: seq<Piece>, ghost copied: seq<string>,
                         ghost own: seq<string>, ghost units: seq<seq<string>>, ghost mine: seq<string>,
                         ghost c: Context, ghost made: seq<Made>, ghost open: Made)
    returns (chunks': seq<Chunk>, parts': seq<string>, tokens': nat, ghost pieces': seq<Piece>, ghost copied': seq<string>,
             ghost own': seq<string>, ghost units': seq<seq<string>>, ghost mine': seq<string>,
             ghost made': seq<Made>, ghost open': Made)
    requires c == Context(blocks, chunkSize, overlap) && k < |blocks| && !Whole(block.level)
    requires BlocksPlanned(c, k, ChunkTexts(chunks), made, open, parts, tokens)
    ensures BlocksPlanned(c, k + 1, ChunkTexts(chunks'), made', open', parts', tokens') && parts' != []
    requires k < |blocks| && AllTrimmed(blocks) && block == blocks[k]
    requires Packing(blocks, k, overlap, chunks, pieces, parts, copied, own) && (parts != [] ==> own != [])
    requires Budgeted(blocks, chunkSize, pieces, units) && Fits(mine, own, tokens, chunkSize) && (own == [] ==> mine == [])
    requires currentPage == LastPage(blocks[..k]) && currentSection == LastSection(blocks[..k])
    requires page == LastPage(blocks[..k + 1]) && section == LastSection(blocks[..k + 1])
    requires tokens + Tokens(block.text) > chunkSize
    ensures chunks <= chunks' && pieces <= pieces'
    ensures Packing(blocks, k + 1, overlap, chunks', pieces', parts', copied', own') && own' != []
    ensures Budgeted(blocks, chunkSize, pieces', units') && Fits(mine', own', tokens', chunkSize)
  {
    hide *;
    chunks', parts', tokens', pieces', copied', own', units', mine' := chunks, parts, tokens, pieces, copied, own, units, mine;
    made', open' := made, open;
    if parts != [] {
      CloseBlocks(c, k, ChunkTexts(chunks), made, open, parts, tokens);
      if Tokens(block.text) <= chunkSize {
        BreakBlock(c, k, ChunkTexts(chunks), made, open, parts, tokens);
      }
      OverlapMeaning(parts, overlap);
      LeftAfter(c, k, ChunkTexts(chunks), made, open, parts, tokens);
      made', open' := made + [open], Made(None, LastWords(parts[|parts| - 1], overlap), [Unit(block.text, k, 0, ABlock)]);
      chunks', pieces', units' := EmitWaiting(chunks, parts, currentPage, currentSection, blocks, k, chunkSize, overlap, tokens,
                                              pieces, copied, own, units, mine);
      var text := OverlapText(parts, overlap);
      parts' := OverlapParts(parts, overlap);
      tokens' := if parts' != [] then Tokens(text) else 0;
      copied', own', mine' := WordsOf(parts'), [], [];
      FitsNothing(tokens', chunkSize);
    } else {
      NothingWaits(blocks, k, overlap, chunks, pieces, copied, own);
      NoneLeft(c, k, ChunkTexts(chunks), made, open, tokens);
    }
    PackingFacts(blocks, k, overlap, chunks', pieces', parts', copied', own');
    if Tokens(block.text) <= chunkSize {
      AddBlock(blocks, k, overlap, chunks', pieces', parts', copied', own');
      FitsNext(mine', own', tokens', block.text, chunkSize);
      parts', own', mine' := parts' + [block.text], own' + Words(block.text), mine' + [block.text];
      tokens' := tokens' + Tokens(block.text);
    } else {
      ghost var before, rest := chunks', copied';
      TrimmedAt(blocks, k);
      var buffer, sentenceTokens;
      ghost var last;
      ghost var texts, start := ChunkTexts(chunks'), made';
      MustSplit(c, k, texts, start);
      chunks', buffer, sentenceTokens, pieces', last, own', units', mine', made', open' :=
        SplitBlock(chunks', block.text, chunkSize, overlap, page, section, blocks, k, pieces', units', c, start);
      SplitChunk(c, k, texts, start, ChunkTexts(chunks'), made', open', buffer, sentenceTokens);
      open' := open'.(lead := LeftBefore(c, start, |start|));
      AddRest(blocks, k, overlap, before, chunks', pieces', parts', rest, buffer, last, own');
      if buffer != [] {
        parts', tokens' := parts' + buffer, sentenceTokens;
      }
      copied' := rest + last;
    }
  }

  method ChunkText(dec: char -> int, source: string, chunkSize: int, overlap: int)
    returns (chunks: seq<Chunk>, ghost blocks: seq<TextBlock>, ghost spans: seq<(nat, nat)>,
             ghost pieces: seq<Piece>, ghost at: seq<int>, ghost units: seq<seq<string>>, ghost made: seq<Made>)
    ensures var c := Context(blocks, chunkSize, overlap);
      Planned(c, ChunkTexts(chunks), made) && Flat(made) == UnitsUpTo(c, |blocks|)
    ensures Extracted(dec, source, blocks, spans)
    ensures Sound(blocks, overlap, chunks, pieces)
    ensures OwnWords(pieces) == SourceWords(dec, source)
    ensures |at| == |blocks| && WholesPlaced(blocks, at, chunks, pieces)
    ensures Budgeted(blocks, chunkSize, pieces, units)
    ensures forall j :: 0 <= j < |chunks| ==> chunks[j].index == j && chunks[j].tokens == Tokens(chunks[j].text)
    ensures overlap == 0 ==> ChunkWords(chunks) == SourceWords(dec, source)
  {
    hide *;
    var todo;
    todo, spans := ExtractBlocks(dec, source);
    blocks := todo;
    AllTrimmedHolds(blocks);
    chunks, pieces, at, units := [], [], [], [];
    var parts: seq<string> := [];
    ghost var copied: seq<string>, own: seq<string>, mine: seq<string> := [], [], [];
    var tokens: nat := 0;
    var currentPage: Option<nat> := None;
    var currentSection: Option<string> := None;
    StartPacking(blocks, overlap);
    StartBudget(blocks, chunkSize);
    ghost var c := Context(blocks, chunkSize, overlap);
    ghost var open := Made(None, Anew, []);
    made := [];
    StartBlocks(c, open);
    assert ChunkTexts([]) == [] by {
      NoTexts();
    }
    var k := 0;
    while k < |todo|
      invariant 0 <= k <= |todo| && |at| == k && blocks == todo
      invariant Packing(blocks, k, overlap, chunks, pieces, parts, copied, own)
      invariant parts != [] ==> own != []
      invariant WholesPlaced(blocks, at, chunks, pieces)
      invariant currentPage == LastPage(blocks[..k]) && currentSection == LastSection(blocks[..k])
      invariant Budgeted(blocks, chunkSize, pieces, units) && Fits(mine, own, tokens, chunkSize)
      invariant own == [] ==> mine == []
      invariant BlocksPlanned(c, k, ChunkTexts(chunks), made, open, parts, tokens)
    {
      var block := todo[k];
      var blockTokens := Tokens(block.text);
      var section := SectionOr(block, currentSection);
      var page := PageOr(block, currentPage);
      BlockWordsPush(blocks, k);
      OrAgain(block, currentPage, currentSection);
      PackingFacts(blocks, k, overlap, chunks, pieces, parts, copied, own);
      ghost var chunks0, pieces0 := chunks, pieces;
      WholeLevels(block.level);
      if block.level in {H1, H2, TABLE} {
        if parts != [] {
          CloseBlocks(c, k, ChunkTexts(chunks), made, open, parts, tokens);
          made := made + [open];
          chunks, pieces, units := EmitWaiting(chunks, parts, currentPage, currentSection, blocks, k, chunkSize, overlap, tokens,
                                               pieces, copied, own, units, mine);
          parts, tokens, copied, own, mine := [], 0, [], [], [];
          FitsNothing(tokens, chunkSize);
        } else {
          NothingWaits(blocks, k, overlap, chunks, pieces, copied, own);
          NoneLeft(c, k, ChunkTexts(chunks), made, open, tokens);
        }
        EmitWhole(blocks, k, overlap, chunks, pieces);
        WholeChunk(c, k, ChunkTexts(chunks), made, open);
        ChunkTextsPush(chunks, [block.text], page, section);
        made := made + [Made(None, Anew, [Unit(block.text, k, 0, ABlock)])];
        chunks := Emit(chunks, [block.text], page, section);
        BudgetWhole(blocks, chunkSize, pieces, units, k);
        pieces, units := pieces + [Piece([], Words(block.text), k)], units + [[block.text]];
        currentPage, currentSection := page, section;
      } else if tokens + blockTokens <= chunkSize {
        if parts == [] {
          NoneLeft(c, k, ChunkTexts(chunks), made, open, tokens);
          FirstBlock(c, k, ChunkTexts(chunks), made, open);
          open := Made(None, Anew, [Unit(block.text, k, 0, ABlock)]);
          assert [] + [block.text] == [block.text];
        } else {
          NextBlock(c, k, ChunkTexts(chunks), made, open, parts, tokens);
          open := open.(units := open.units + [Unit(block.text, k, 0, ABlock)]);
        }
        AddBlock(blocks, k, overlap, chunks, pieces, parts, copied, own);
        FitsNext(mine, own, tokens, block.text, chunkSize);
        parts, own, mine := parts + [block.text], own + Words(block.text), mine + [block.text];
        tokens := tokens + blockTokens;
        if page.Some? {
          currentPage := page;
        }
        if section.Some? && section.value != "" {
          currentSection := section;
        }
      } else {
        chunks, parts, tokens, pieces, copied, own, units, mine, made, open :=
          PackOverflowing(chunks, parts, tokens, block, chunkSize, overlap, page, section, currentPage, currentSection,
                          blocks, k, pieces, copied, own, units, mine, c, made, open);
        currentPage, currentSection := page, section;
      }
      assert Packing(blocks, k + 1, overlap, chunks, pieces, parts, copied, own);
      PackingFacts(blocks, k + 1, overlap, chunks, pieces, parts, copied, own);
      WholesGrow(blocks, at, chunks0, pieces0, chunks, pieces, |chunks| - 1);
      at, k := at + [|chunks| - 1], k + 1;
    }
    ghost var chunks0, pieces0 := chunks, pieces;
    PackingFacts(blocks, k, overlap, chunks, pieces, parts, copied, own);
    if parts != [] {
      CloseBlocks(c, k, ChunkTexts(chunks), made, open, parts, tokens);
      made := made + [open];
      chunks, pieces, units := EmitWaiting(chunks, parts, currentPage, currentSection, blocks, k, chunkSize, overlap, tokens,
                                           pieces, copied, own, units, mine);
      PackingFacts(blocks, k, overlap, chunks, pieces, [], [], []);
    } else {
      NoneLeft(c, k, ChunkTexts(chunks), made, open, tokens);
    }
    EmptiedFacts(c, k, ChunkTexts(chunks), made);
    WholesKept(blocks, at, chunks0, pieces0, chunks, pieces);
    assert blocks[..k] == blocks;
    SoundIndices(blocks, overlap, chunks, pieces);
    if overlap == 0 {
      NoOverlapPartitions(blocks, chunks, pieces);
    }
  }

  lemma WholeLevels(level: Level)
    ensures Whole(level) <==> level in {H1, H2, TABLE}
  {
  }

  lemma NoTexts()
    ensures ChunkTexts([]) == []
  {
  }

  lemma EmptiedFacts(c: Context, k: nat, texts: seq<string>, made: seq<Made>)
    requires k <= |c.blocks| && Emptied(c, k, texts, made)
    ensures Planned(c, texts, made) && Flat(made) == UnitsUpTo(c, k)
  {
    hide Planned, Flat, UnitsUpTo;
  }

  // ---------- Consequences ----------

  function ChunkWords(chunks: seq<Chunk>): seq<string> {
    if chunks == [] then [] else ChunkWords(chunks[..|chunks| - 1]) + Words(chunks[|chunks| - 1].text)
  }

  lemma SoundInit(blocks: seq<TextBlock>, overlap: int, chunks: seq<Chunk>, pieces: seq<Piece>)
    requires Sound(blocks, overlap, chunks, pieces) && chunks != []
    ensures Sound(blocks, overlap, chunks[..|chunks| - 1], pieces[..|chunks| - 1])
  {
    hide OwnWords, SoundPiece;
    var n := |chunks| - 1;
    forall j | 0 <= j < n
      ensures SoundPiece(blocks, overlap, chunks[..n][j], pieces[..n][j], chunks[..n][..j], OwnWords(pieces[..n][..j]))
    {
      assert pieces[..n][..j] == pieces[..j] && chunks[..n][..j] == chunks[..j];
    }
  }

  lemma SoundLast(blocks: seq<TextBlock>, overlap: int, chunks: seq<Chunk>, pieces: seq<Piece>)
    requires Sound(blocks, overlap, chunks, pieces) && chunks != []
    ensures var n := |chunks| - 1;
            |pieces| == n + 1 && Words(chunks[n].text) == pieces[n].copied + pieces[n].own
            && SoundCopy(pieces[n].copied, chunks[..n], overlap)
  {
    hide OwnWords, Words, BlockWords, LastPage, LastSection, Tokens, SoundCopy;
  }

  lemma SoundIndices(blocks: seq<TextBlock>, overlap: int, chunks: seq<Chunk>, pieces: seq<Piece>)
    requires Sound(blocks, overlap, chunks, pieces)
    ensures forall j :: 0 <= j < |chunks| ==> chunks[j].index == j && chunks[j].tokens == Tokens(chunks[j].text)
  {
    hide OwnWords, Words, BlockWords, LastPage, LastSection, Tokens, SoundCopy;
  }

  lemma NoCopy(copied: seq<string>, chunks: seq<Chunk>)
    requires SoundCopy(copied, chunks, 0)
    ensures copied == []
  {
  }

  /** Without overlap the chunks partition the words of the source. */
  lemma {:induction false} NoOverlapPartitions(blocks: seq<TextBlock>, chunks: seq<Chunk>, pieces: seq<Piece>)
    requires Sound(blocks, 0, chunks, pieces)
    ensures ChunkWords(chunks) == OwnWords(pieces)
  {
    hide Words, Sound, SoundCopy, OwnWords;
    assert |pieces| == |chunks| by {
      SoundLength(blocks, 0, chunks, pieces);
    }
    if chunks == [] {
      assert OwnWords([]) == [] by {
        NoOwnWords();
      }
    } else {
      var n := |chunks| - 1;
      SoundInit(blocks, 0, chunks, pieces);
      NoOverlapPartitions(blocks, chunks[..n], pieces[..n]);
      SoundLast(blocks, 0, chunks, pieces);
      NoCopy(pieces[n].copied, chunks[..n]);
      OwnWordsPush(pieces[..n], pieces[n]);
      assert pieces == pieces[..n] + [pieces[n]];
    }
  }

  lemma NoOwnWords()
    ensures OwnWords([]) == []
  {
  }

  lemma SoundLength(blocks: seq<TextBlock>, overlap: int, chunks: seq<Chunk>, pieces: seq<Piece>)
    requires Sound(blocks, overlap, chunks, pieces)
    ensures |chunks| == |pieces|
  {
    hide SoundPiece;
  }
}
