/** Splitting a document into overlapping chunks (splitText in
    internal/knowledge/ingest/pipeline.go): the text is cut into tokens at white
    space, the tokens into runs, and each run is joined by blanks. */
module Chunking {

  type Token = string

  // ---- strings.Fields and strings.Join ----------------------------------------------

  /** Leading characters that are not white space. */
  function WordLength(space: char -> bool, text: string): (n: nat)
    ensures n <= |text|
  {
    if text == "" || space(text[0]) then 0 else 1 + WordLength(space, text[1..])
  }

  function Fields(space: char -> bool, text: string): seq<Token>
    decreases |text|
  {
    if text == "" then []
    else if space(text[0]) then Fields(space, text[1..])
    else
      var n := WordLength(space, text);
      [text[..n]] + Fields(space, text[n..])
  }

  function Joined(tokens: seq<Token>): string {
    if tokens == [] then "" else if |tokens| == 1 then tokens[0] else tokens[0] + " " + Joined(tokens[1..])
  }

  predicate IsWord(space: char -> bool, t: Token) { t != "" && forall i | 0 <= i < |t| :: !space(t[i]) }

  predicate Words(space: char -> bool, tokens: seq<Token>) {
    forall i | 0 <= i < |tokens| :: IsWord(space, tokens[i])
  }

  lemma {:induction false} PrefixIsWord(space: char -> bool, text: string)
    requires text != "" && !space(text[0])
    ensures WordLength(space, text) > 0 && IsWord(space, text[..WordLength(space, text)])
  {
    var n := WordLength(space, text);
    if |text| > 1 && !space(text[1]) {
      PrefixIsWord(space, text[1..]);
      assert text[..n] == [text[0]] + text[1..][..n - 1];
    }
  }

  lemma {:induction false} FieldsAreWords(space: char -> bool, text: string)
    ensures Words(space, Fields(space, text))
    decreases |text|
  {
    if text != "" {
      if space(text[0]) {
        FieldsAreWords(space, text[1..]);
      } else {
        PrefixIsWord(space, text);
        FieldsAreWords(space, text[WordLength(space, text)..]);
      }
    }
  }

  lemma {:induction false} WordEnds(space: char -> bool, t: Token, rest: string)
    requires (forall i | 0 <= i < |t| :: !space(t[i])) && (rest == "" || space(rest[0]))
    ensures WordLength(space, t + rest) == |t|
    decreases |t|
  {
    if t == "" {
      assert t + rest == rest;
    } else {
      WordEnds(space, t[1..], rest);
      assert (t + rest)[1..] == t[1..] + rest;
    }
  }

  lemma FirstField(space: char -> bool, t: Token, rest: string)
    requires IsWord(space, t) && (rest == "" || space(rest[0]))
    ensures Fields(space, t + rest) == [t] + Fields(space, rest)
  {
    WordEnds(space, t, rest);
    assert (t + rest)[..|t|] == t && (t + rest)[|t|..] == rest;
  }

  /** Joining words and cutting the text again gives back the words. */
  lemma {:induction false} FieldsOfJoined(space: char -> bool, tokens: seq<Token>)
    requires space(' ') && Words(space, tokens)
    ensures Fields(space, Joined(tokens)) == tokens
    decreases |tokens|
  {
    if |tokens| == 1 {
      FirstField(space, tokens[0], "");
      assert tokens[0] + "" == tokens[0] && tokens == [tokens[0]];
    } else if |tokens| > 1 {
      var rest := Joined(tokens[1..]);
      FieldsOfJoined(space, tokens[1..]);
      FirstField(space, tokens[0], " " + rest);
      assert tokens[0] + " " + rest == tokens[0] + (" " + rest) && (" " + rest)[1..] == rest;
      assert tokens == [tokens[0]] + tokens[1..];
    }
  }

  // ---- Chunks -------------------------------------------------------------------------

  function EffectiveSize(chunkSize: int): (n: nat)
    ensures n > 0
  {
    if chunkSize <= 0 then 500 else chunkSize
  }

  /** How many tokens neighbours share: the overlap, unless it leaves no room. */
  function EffectiveOverlap(chunkSize: int, overlap: int): (n: nat)
    ensures n < EffectiveSize(chunkSize)
  {
    if 0 <= overlap < EffectiveSize(chunkSize) then overlap else 0
  }

  /** Puts chunks back together, dropping the shared prefix of each later one. */
  function Reassembled(chunks: seq<seq<Token>>, shared: nat): seq<Token> {
    if chunks == [] then []
    else if |chunks| == 1 then chunks[0]
    else
      var last := chunks[|chunks| - 1];
      Reassembled(chunks[..|chunks| - 1], shared) + (if shared <= |last| then last[shared..] else [])
  }

  predicate Neighbours(a: seq<Token>, b: seq<Token>, shared: nat) {
    shared <= |a| && shared < |b| && a[|a| - shared..] == b[..shared]
  }

  /** The chunks cover the tokens in order: each but the last is full, each has at
      most size tokens and at least one, and neighbours share exactly that many. */
  predicate GoodChunks(chunks: seq<seq<Token>>, size: nat, shared: nat) {
    && (forall i | 0 <= i < |chunks| :: 0 < |chunks[i]| <= size)
    && (forall i | 0 <= i < |chunks| - 1 :: |chunks[i]| == size)
    && (forall i | 0 <= i < |chunks| - 1 :: Neighbours(chunks[i], chunks[i + 1], shared))
  }

  /** The tokens of each chunk text. */
  function TokensOf(space: char -> bool, texts: seq<string>): seq<seq<Token>> {
    seq(|texts|, i requires 0 <= i < |texts| => Fields(space, texts[i]))
  }

  lemma InForce(chunkSize: int, overlap: int, size: int, step: int)
    requires size == (if chunkSize <= 0 then 500 else chunkSize)
    requires var left := size - (if overlap < 0 then 0 else overlap); step == if left <= 0 then size else left
    ensures 0 < step <= size == EffectiveSize(chunkSize) && size - step == EffectiveOverlap(chunkSize, overlap)
  {
  }

  /** space says what counts as white space; a blank does. The tokens of the chunk texts
      cover the tokens of the text with the promised overlap. */
  method SplitText(space: char -> bool, text: string, chunkSize: int, overlap: int) returns (out: seq<string>)
    requires space(' ')
    ensures out == [] <==> Fields(space, text) == []
    ensures GoodChunks(TokensOf(space, out), EffectiveSize(chunkSize), EffectiveOverlap(chunkSize, overlap))
    ensures Reassembled(TokensOf(space, out), EffectiveOverlap(chunkSize, overlap)) == Fields(space, text)
    ensures forall i | 0 <= i < |out| :: out[i] == Joined(Fields(space, out[i]))
  {
    var size := chunkSize;
    if size <= 0 {
      size := 500;
    }
    var over := overlap;
    if over < 0 {
      over := 0;
    }
    var tokens := Fields(space, text);
    if |tokens| == 0 {
      assert TokensOf(space, []) == [];
      return [];
    }
    var step := size - over;
    if step <= 0 {
      step := size;
    }
    InForce(chunkSize, overlap, size, step);
    var chunks := Chunks(tokens, size, step);
    out := seq(|chunks|, i requires 0 <= i < |chunks| => Joined(chunks[i]));
    FieldsAreWords(space, text);
    ChunksFromTokens(tokens, chunks, size, size - step);
    ChunksReadBack(space, tokens, chunks, out);
  }

  lemma ChunksReadBack(space: char -> bool, tokens: seq<Token>, chunks: seq<seq<Token>>, out: seq<string>)
    requires space(' ') && Words(space, tokens) && FromTokens(tokens, chunks)
    requires |out| == |chunks| && forall i | 0 <= i < |chunks| :: out[i] == Joined(chunks[i])
    ensures TokensOf(space, out) == chunks
    ensures forall i | 0 <= i < |out| :: out[i] == Joined(Fields(space, out[i]))
  {
    forall i | 0 <= i < |chunks| ensures Fields(space, out[i]) == chunks[i] {
      forall j | 0 <= j < |chunks[i]| ensures IsWord(space, chunks[i][j]) {
        assert chunks[i][j] in tokens;
      }
      FieldsOfJoined(space, chunks[i]);
    }
  }

  predicate FromTokens(tokens: seq<Token>, chunks: seq<seq<Token>>) {
    forall i | 0 <= i < |chunks| :: forall j | 0 <= j < |chunks[i]| :: chunks[i][j] in tokens
  }

  /** A chunk holds tokens of the text only: behind the shared part they are added to
      the text put together, the shared part is in the chunk before. */
  lemma LastFromTokens(head: seq<Token>, before: seq<Token>, last: seq<Token>, shared: nat)
    requires Neighbours(before, last, shared) && forall j | 0 <= j < |before| :: before[j] in head
    ensures forall j | 0 <= j < |last| :: last[j] in head + last[shared..]
  {
    forall j | 0 <= j < |last| ensures last[j] in head + last[shared..] {
      if j < shared {
        assert last[j] == last[..shared][j] == before[|before| - shared..][j] == before[|before| - shared + j];
      } else {
        assert last[j] == last[shared..][j - shared];
      }
    }
  }

  lemma {:induction false} ChunksFromTokens(tokens: seq<Token>, chunks: seq<seq<Token>>, size: nat, shared: nat)
    requires GoodChunks(chunks, size, shared) && Reassembled(chunks, shared) == tokens
    ensures FromTokens(tokens, chunks)
    decreases |chunks|
  {
    if |chunks| > 1 {
      var n := |chunks| - 1;
      var front, last := chunks[..n], chunks[n];
      var head := Reassembled(front, shared);
      ChunksFromTokens(head, front, size, shared);
      assert tokens == head + last[shared..];
      forall i | 0 <= i < n ensures forall j | 0 <= j < |chunks[i]| :: chunks[i][j] in tokens {
        assert chunks[i] == front[i];
      }
      assert chunks[n - 1] == front[n - 1];
      LastFromTokens(head, chunks[n - 1], last, shared);
    }
  }

  /** The loop of SplitText: chunks of size tokens, each starting step after the last. */
  method Chunks(tokens: seq<Token>, size: nat, step: nat) returns (out: seq<seq<Token>>)
    requires tokens != [] && 0 < step <= size
    ensures out != [] && GoodChunks(out, size, size - step) && Reassembled(out, size - step) == tokens
  {
    out := [];
    var i := 0;
    ghost var shared := size - step;
    while i < |tokens|
      invariant Midway(tokens, out, i, size, shared)
      decreases |tokens| - i
    {
      var end := i + size;
      if end > |tokens| {
        end := |tokens|;
      }
      ExtendChunks(tokens, out, i, end, size, shared);
      out := out + [tokens[i..end]];
      if end == |tokens| {
        return;
      }
      i := i + step;
    }
  }

  /** The loop stands before the chunk that starts at token i: the chunks so far put
      together are the tokens up to the part the next chunk shares with them. */
  predicate Midway(tokens: seq<Token>, out: seq<seq<Token>>, i: nat, size: nat, shared: nat) {
    && shared < size && i < |tokens|
    && GoodChunks(out, size, shared)
    && (out == [] ==> i == 0)
    && (out != [] ==>
          && size - shared <= i && i + shared < |tokens|
          && Reassembled(out, shared) == tokens[..i + shared]
          && out[|out| - 1] == tokens[i - (size - shared)..i + shared])
  }

  lemma ExtendChunks(tokens: seq<Token>, out: seq<seq<Token>>, i: nat, end: nat, size: nat, shared: nat)
    requires Midway(tokens, out, i, size, shared)
    requires end == if i + size > |tokens| then |tokens| else i + size
    ensures var all := out + [tokens[i..end]];
            if end == |tokens| then GoodChunks(all, size, shared) && Reassembled(all, shared) == tokens
            else Midway(tokens, all, i + (size - shared), size, shared)
  {
    var chunk := tokens[i..end];
    AppendChunk(tokens, out, chunk, i, end, size, shared);
    assert tokens[..|tokens|] == tokens;
  }

  lemma AppendChunk(tokens: seq<Token>, out: seq<seq<Token>>, chunk: seq<Token>, i: nat, end: nat, size: nat,
      shared: nat)
    requires Midway(tokens, out, i, size, shared)
    requires i + shared < end <= |tokens| || (out == [] && i < end <= |tokens|)
    requires end <= i + size && chunk == tokens[i..end]
    ensures GoodChunks(out + [chunk], size, shared)
    ensures Reassembled(out + [chunk], shared) == tokens[..end]
  {
    if out == [] {
      assert out + [chunk] == [chunk];
    } else {
      LastNeighbour(tokens, out[|out| - 1], chunk, i, end, size, shared);
      OneMoreChunk(out, chunk, size, shared);
      OneMorePart(tokens, i, shared, end);
    }
  }

  lemma OneMoreChunk(out: seq<seq<Token>>, chunk: seq<Token>, size: nat, shared: nat)
    requires out != [] && GoodChunks(out, size, shared) && 0 < |chunk| <= size && |out[|out| - 1]| == size
    requires Neighbours(out[|out| - 1], chunk, shared)
    ensures GoodChunks(out + [chunk], size, shared)
    ensures Reassembled(out + [chunk], shared) == Reassembled(out, shared) + chunk[shared..]
  {
    assert (out + [chunk])[..|out|] == out;
  }

  lemma OneMorePart(tokens: seq<Token>, i: nat, shared: nat, end: nat)
    requires i + shared < end <= |tokens|
    ensures tokens[..i + shared] + tokens[i..end][shared..] == tokens[..end]
  {
    assert tokens[i..end][shared..] == tokens[i + shared..end];
  }

  lemma LastNeighbour(tokens: seq<Token>, last: seq<Token>, chunk: seq<Token>, i: nat, end: nat, size: nat, shared: nat)
    requires shared < size && size - shared <= i && i + shared < end <= |tokens|
    requires last == tokens[i - (size - shared)..i + shared] && chunk == tokens[i..end]
    ensures |last| == size && Neighbours(last, chunk, shared)
  {
    assert last[|last| - shared..] == tokens[i..i + shared] == chunk[..shared];
  }
}
