/** The text chunker of `utils/chunking.ts`: `chunkText` packs whole sentences
    into chunks of about `targetTokens * 4` characters, seeding each new chunk
    with the tail of the previous one, and `combineChunks` joins chunk texts.
    Paragraphs are split at runs of blank lines by `Js.Paragraphs`; splitting
    into sentences (after `.`, `!` or `?` followed by white space) is
    regular-expression work supplied by the caller as a `Splitter`.
    `aggregateVectors` is `Vectors.MeanPool`. */
module Chunking {
  import opened Numeric
  import Js

  datatype Chunk = Chunk(text: string, start: int, end: int, tokens: nat)

  /** `text.split(/(?<=[.!?])\s+/)`, the sentence split. */
  datatype Splitter = Splitter(sentences: string -> seq<string>)

  /** `estimateTokens`: four characters per token, rounded up. */
  function EstimateTokens(text: string): (n: nat)
    ensures 4 * (n - 1) < |text| <= 4 * n
  {
    CeilDiv(|text|, 4)
  }

  /** The chunk pushed for a buffer starting at `start`. */
  function MakeChunk(text: string, start: int): Chunk
  {
    Chunk(text, start, start + |text|, EstimateTokens(text))
  }

  /** `a + " " + b`. */
  function Spaced(a: string, b: string): (r: string)
    ensures |r| == |a| + 1 + |b|
    ensures r[..|a|] == a && r[|a|] == ' ' && r[|a| + 1..] == b
  {
    a + " " + b
  }

  /** The buffer with a sentence appended: a space separates them unless the
      buffer is empty. */
  function Extended(cur: string, s: string): string
  {
    if cur != "" then Spaced(cur, s) else s
  }

  /** The loop state: the chunks pushed so far, the buffer and its start offset. */
  datatype Chunker = Chunker(chunks: seq<Chunk>, cur: string, start: int)

  /** One sentence of the loop. The buffer is flushed only when it is non-empty and
      adding the sentence would make it longer than `targetChars`; the new buffer is
      the buffer's last `overlapChars` characters, a space and the sentence. */
  function Step(st: Chunker, s: string, targetChars: int, overlapChars: int): (r: Chunker)
    ensures |st.cur| > 0 && |st.cur| + 1 + |s| > targetChars ==>
      && r.chunks == st.chunks + [MakeChunk(st.cur, st.start)]
      && r.cur == Spaced(Js.SliceFrom(st.cur, -overlapChars), s)
      && r.start == st.start + |s|
    ensures !(|st.cur| > 0 && |st.cur| + 1 + |s| > targetChars) ==>
      r.chunks == st.chunks && r.start == st.start
  {
    var potential := Extended(st.cur, s);
    if |potential| > targetChars && |st.cur| > 0 then
      var overlap := Js.SliceFrom(st.cur, -overlapChars);
      var cur := Spaced(overlap, s);
      Chunker(st.chunks + [MakeChunk(st.cur, st.start)], cur, st.start + |cur| - |overlap| - 1)
    else
      Chunker(st.chunks, potential, st.start)
  }

  /** The loop over a run of sentences. */
  function Run(st: Chunker, ss: seq<string>, targetChars: int, overlapChars: int): Chunker
  {
    if ss == [] then st
    else Step(Run(st, ss[..|ss| - 1], targetChars, overlapChars), ss[|ss| - 1], targetChars, overlapChars)
  }

  /** The sentences of the paragraphs, in order. */
  function Sentences(sp: Splitter, paras: seq<string>): seq<string>
  {
    if paras == [] then [] else Sentences(sp, paras[..|paras| - 1]) + sp.sentences(paras[|paras| - 1])
  }

  /** The trailing buffer is pushed when it is non-empty. */
  function Finish(st: Chunker): seq<Chunk>
  {
    if |st.cur| > 0 then st.chunks + [MakeChunk(st.cur, st.start)] else st.chunks
  }

  /** `Math.floor(targetChars * overlapRatio)`. */
  function OverlapChars(targetTokens: int, overlapRatio: real): int
  {
    ((targetTokens * 4) as real * overlapRatio).Floor
  }

  /** What `chunkText` returns. */
  function Chunks(sp: Splitter, text: string, targetTokens: int, overlapRatio: real): seq<Chunk>
  {
    if EstimateTokens(text) <= targetTokens then [Chunk(text, 0, |text|, EstimateTokens(text))]
    else
      Finish(Run(Chunker([], "", 0), Sentences(sp, Js.Paragraphs(text)),
                 targetTokens * 4, OverlapChars(targetTokens, overlapRatio)))
  }

  lemma RunSnoc(st: Chunker, ss: seq<string>, s: string, tc: int, oc: int)
    ensures Run(st, ss + [s], tc, oc) == Step(Run(st, ss, tc, oc), s, tc, oc)
  {
    assert (ss + [s])[..|ss|] == ss;
  }

  /** Running over two runs of sentences is running over the first, then the second. */
  lemma {:induction false} RunAppend(st: Chunker, a: seq<string>, b: seq<string>, tc: int, oc: int)
    ensures Run(st, a + b, tc, oc) == Run(Run(st, a, tc, oc), b, tc, oc)
  {
    if b != [] {
      RunAppend(st, a, b[..|b| - 1], tc, oc);
      assert (a + b)[..|a + b| - 1] == a + b[..|b| - 1];
    } else {
      assert a + b == a;
    }
  }

  /** `chunkText`: the loop over paragraphs; the loop over the sentences of each
      is `Feed`. */
  method ChunkText(sp: Splitter, text: string, targetTokens: int, overlapRatio: real) returns (chunks: seq<Chunk>)
    ensures chunks == Chunks(sp, text, targetTokens, overlapRatio)
  {
    var totalTokens := EstimateTokens(text);
    if totalTokens <= targetTokens {
      return [Chunk(text, 0, |text|, totalTokens)];
    }
    var targetChars := targetTokens * 4;
    var overlapChars := OverlapChars(targetTokens, overlapRatio);
    var paragraphs := Js.Paragraphs(text);
    chunks := [];
    var currentChunk := "";
    var chunkStart := 0;
    ghost var init := Chunker([], "", 0);
    var i := 0;
    while i < |paragraphs|
      invariant 0 <= i <= |paragraphs|
      invariant Chunker(chunks, currentChunk, chunkStart) == Run(init, Sentences(sp, paragraphs[..i]), targetChars, overlapChars)
    {
      Js.PrefixSlice(paragraphs, i, i + 1);
      var sentences := sp.sentences(paragraphs[i]);
      RunAppend(init, Sentences(sp, paragraphs[..i]), sentences, targetChars, overlapChars);
      chunks, currentChunk, chunkStart := Feed(chunks, currentChunk, chunkStart, sentences, targetChars, overlapChars);
      i := i + 1;
    }
    Js.WholeSlice(paragraphs);
    if |currentChunk| > 0 {
      chunks := chunks + [Chunk(currentChunk, chunkStart, chunkStart + |currentChunk|, EstimateTokens(currentChunk))];
    }
  }

  /** The inner loop of `chunkText` over the sentences of one paragraph. */
  method Feed(chunks0: seq<Chunk>, cur0: string, start0: int, sentences: seq<string>, targetChars: int, overlapChars: int)
    returns (chunks: seq<Chunk>, currentChunk: string, chunkStart: int)
    ensures Chunker(chunks, currentChunk, chunkStart) == Run(Chunker(chunks0, cur0, start0), sentences, targetChars, overlapChars)
  {
    chunks, currentChunk, chunkStart := chunks0, cur0, start0;
    ghost var init := Chunker(chunks0, cur0, start0);
    var j := 0;
    while j < |sentences|
      invariant 0 <= j <= |sentences|
      invariant Chunker(chunks, currentChunk, chunkStart) == Run(init, sentences[..j], targetChars, overlapChars)
    {
      var sentence := sentences[j];
      Js.PrefixSlice(sentences, j, j + 1);
      var potentialChunk := Extended(currentChunk, sentence);
      if |potentialChunk| > targetChars && |currentChunk| > 0 {
        chunks := chunks + [Chunk(currentChunk, chunkStart, chunkStart + |currentChunk|, EstimateTokens(currentChunk))];
        var overlapText := Js.SliceFrom(currentChunk, -overlapChars);
        currentChunk := Spaced(overlapText, sentence);
        chunkStart := chunkStart + |currentChunk| - |overlapText| - 1;
      } else {
        currentChunk := potentialChunk;
      }
      j := j + 1;
    }
    Js.WholeSlice(sentences);
  }

  /** A chunk whose offsets and token estimate agree with its text. */
  predicate Measured(c: Chunk)
  {
    c.end == c.start + |c.text| && c.tokens == EstimateTokens(c.text)
  }

  /** `b` starts with the last `overlapChars` characters of `a` and a space. */
  predicate Seeds(a: string, b: string, overlapChars: int)
  {
    var overlap := Js.SliceFrom(a, -overlapChars);
    |overlap| < |b| && b[..|overlap|] == overlap && b[|overlap|] == ' '
  }

  /** What holds of the loop state after every sentence: pushed chunks are
      measured and non-empty, each chunk is seeded from the one before and does
      not start before it, and the buffer is seeded from the last pushed chunk. */
  ghost predicate Good(st: Chunker, oc: int)
  {
    && (forall k :: 0 <= k < |st.chunks| ==> Measured(st.chunks[k]) && |st.chunks[k].text| > 0)
    && (forall k :: 0 <= k < |st.chunks| - 1 ==>
          Seeds(st.chunks[k].text, st.chunks[k + 1].text, oc) && st.chunks[k].start <= st.chunks[k + 1].start)
    && (|st.chunks| > 0 ==>
          Seeds(st.chunks[|st.chunks| - 1].text, st.cur, oc) && st.chunks[|st.chunks| - 1].start <= st.start)
  }

  lemma StepGood(st: Chunker, s: string, tc: int, oc: int)
    requires Good(st, oc)
    ensures Good(Step(st, s, tc, oc), oc)
  {
    if |st.cur| > 0 && |st.cur| + 1 + |s| > tc {
      FlushGood(st, s, tc, oc);
    } else {
      ExtendGood(st, s, tc, oc);
    }
  }

  /** A flush pushes the measured buffer, which seeds the new one. */
  lemma FlushGood(st: Chunker, s: string, tc: int, oc: int)
    requires Good(st, oc) && |st.cur| > 0 && |st.cur| + 1 + |s| > tc
    ensures Good(Step(st, s, tc, oc), oc)
  {
    var r := Step(st, s, tc, oc);
    var n := |st.chunks|;
    assert r.chunks == st.chunks + [MakeChunk(st.cur, st.start)];
    assert Seeds(st.cur, r.cur, oc);
    forall k | 0 <= k < |r.chunks| ensures Measured(r.chunks[k]) && |r.chunks[k].text| > 0 {
      if k < n {
        assert r.chunks[k] == st.chunks[k];
      }
    }
    forall k | 0 <= k < |r.chunks| - 1
      ensures Seeds(r.chunks[k].text, r.chunks[k + 1].text, oc) && r.chunks[k].start <= r.chunks[k + 1].start
    {
      assert r.chunks[k] == st.chunks[k];
      if k + 1 < n {
        assert r.chunks[k + 1] == st.chunks[k + 1];
      }
    }
  }

  /** Without a flush the buffer grows at its end, so it stays seeded. */
  lemma ExtendGood(st: Chunker, s: string, tc: int, oc: int)
    requires Good(st, oc) && !(|st.cur| > 0 && |st.cur| + 1 + |s| > tc)
    ensures Good(Step(st, s, tc, oc), oc)
  {
    var r := Step(st, s, tc, oc);
    if |st.chunks| > 0 {
      var overlap := Js.SliceFrom(st.chunks[|st.chunks| - 1].text, -oc);
      assert st.cur[..|overlap|] == overlap && st.cur[|overlap|] == ' ';
      assert r.cur == Spaced(st.cur, s);
      assert r.cur[..|st.cur|] == st.cur;
      assert r.cur[..|overlap|] == overlap;
    }
  }

  lemma {:induction false} RunGood(st: Chunker, ss: seq<string>, tc: int, oc: int)
    requires Good(st, oc)
    ensures Good(Run(st, ss, tc, oc), oc)
  {
    if ss != [] {
      RunGood(st, ss[..|ss| - 1], tc, oc);
      StepGood(Run(st, ss[..|ss| - 1], tc, oc), ss[|ss| - 1], tc, oc);
    }
  }

  /** What `chunkText` promises. Short text comes back as one chunk spanning it.
      Otherwise every chunk is non-empty, its end is its start plus its length
      and its token count is the estimate for its text; each chunk begins with
      the last `overlapChars` characters of the previous one and a space; and
      start offsets never decrease. */
  lemma ChunksFacts(sp: Splitter, text: string, targetTokens: int, overlapRatio: real)
    ensures var cs := Chunks(sp, text, targetTokens, overlapRatio);
      && (forall k :: 0 <= k < |cs| ==> Measured(cs[k]))
      && (EstimateTokens(text) <= targetTokens ==> |cs| == 1 && cs[0].text == text && cs[0].start == 0)
      && (EstimateTokens(text) > targetTokens ==>
            && (forall k :: 0 <= k < |cs| ==> |cs[k].text| > 0)
            && (forall k :: 0 <= k < |cs| - 1 ==>
                  Seeds(cs[k].text, cs[k + 1].text, OverlapChars(targetTokens, overlapRatio))
                  && cs[k].start <= cs[k + 1].start))
  {
    if EstimateTokens(text) > targetTokens {
      var oc := OverlapChars(targetTokens, overlapRatio);
      var init := Chunker([], "", 0);
      var ss := Sentences(sp, Js.Paragraphs(text));
      RunGood(init, ss, targetTokens * 4, oc);
      FinishGood(Run(init, ss, targetTokens * 4, oc), oc);
    }
  }

  /** Pushing the trailing buffer keeps every chunk measured, non-empty and
      seeded from the one before. */
  lemma FinishGood(st: Chunker, oc: int)
    requires Good(st, oc)
    ensures var cs := Finish(st);
      && (forall k :: 0 <= k < |cs| ==> Measured(cs[k]) && |cs[k].text| > 0)
      && (forall k :: 0 <= k < |cs| - 1 ==> Seeds(cs[k].text, cs[k + 1].text, oc) && cs[k].start <= cs[k + 1].start)
  {
    var cs := Finish(st);
    var n := |st.chunks|;
    if |st.cur| > 0 {
      assert cs == st.chunks + [MakeChunk(st.cur, st.start)];
      forall k | 0 <= k < |cs| ensures Measured(cs[k]) && |cs[k].text| > 0 {
        if k < n {
          assert cs[k] == st.chunks[k];
        }
      }
      forall k | 0 <= k < |cs| - 1 ensures Seeds(cs[k].text, cs[k + 1].text, oc) && cs[k].start <= cs[k + 1].start {
        assert cs[k] == st.chunks[k];
        if k + 1 < n {
          assert cs[k + 1] == st.chunks[k + 1];
        }
      }
    }
  }


  function Texts(cs: seq<Chunk>): (r: seq<string>)
    ensures |r| == |cs| && forall k :: 0 <= k < |cs| ==> r[k] == cs[k].text
  {
    if cs == [] then [] else Texts(cs[..|cs| - 1]) + [cs[|cs| - 1].text]
  }

  /** `combineChunks`: the chunk texts joined by single spaces. */
  function CombineChunks(cs: seq<Chunk>): string
  {
    Js.Join(Texts(cs), " ")
  }

  /** Recombining the chunks of a short text gives the text back; in general the
      result is as long as the texts plus one space between each two. */
  lemma CombineChunksFacts(sp: Splitter, text: string, targetTokens: int, overlapRatio: real, cs: seq<Chunk>)
    ensures EstimateTokens(text) <= targetTokens ==> CombineChunks(Chunks(sp, text, targetTokens, overlapRatio)) == text
    ensures |cs| > 0 ==> |CombineChunks(cs)| == Js.SumLengths(Texts(cs)) + |cs| - 1
  {
    if |cs| > 0 {
      Js.JoinLength(Texts(cs), " ");
    }
  }
}
