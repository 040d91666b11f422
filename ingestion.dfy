/** Document ingestion (`ingestion/index.ts`): a document whose estimated size
    passes a threshold, or whose caller forces it, is stored as a reflective
    root memory summarising it plus one child memory per section, each child
    linked from the root; any other document is stored as one memory. The
    extractors (PDF, DOCX, HTML, URL fetching) are not part of this model: an
    extraction is a parameter. */
module Ingestion {
  import opened Wrappers
  import opened Numeric
  import Js
  import Json
  import Db
  import Database
  import Embedding
  import Hsg

  // ---- splitIntoSections ------------------------------------------------------------

  /** `cur += (cur ? '\n\n' : '') + para`. */
  function AddPara(cur: string, para: string): (r: string)
    ensures |r| == |cur| + (if cur != "" then 2 else 0) + |para|
    ensures cur == "" ==> r == para
  {
    cur + (if cur != "" then "\n\n" else "") + para
  }

  /** The buffer built from the paragraphs `g`, one `AddPara` each. */
  function Glue(g: seq<string>): string
  {
    if g == [] then ""
    else AddPara(Glue(g[..|g| - 1]), g[|g| - 1])
  }

  /** The sections flushed so far, as the runs of paragraphs they were built
      from, and the paragraphs of the current buffer. */
  datatype Packing = Packing(groups: seq<seq<string>>, group: seq<string>)

  /** The loop of `splitIntoSections` over the paragraphs. */
  function Pack(paras: seq<string>, size: int): (r: Packing)
  {
    if paras == [] then Packing([], [])
    else Push(Pack(paras[..|paras| - 1], size), paras[|paras| - 1], size)
  }

  /** One paragraph of the loop: the buffer is flushed when it is non-empty and
      the paragraph would make it longer than `size`; the paragraph then starts
      the next buffer, and otherwise joins the current one. */
  function Push(p: Packing, para: string, size: int): Packing
  {
    var cur := Glue(p.group);
    if |cur| + |para| > size && |cur| > 0 then Packing(p.groups + [p.group], [para])
    else Packing(p.groups, p.group + [para])
  }

  /** The trimmed buffers of the flushed sections. */
  function Flushed(groups: seq<seq<string>>): (r: seq<string>)
    ensures |r| == |groups| && forall i :: 0 <= i < |groups| ==> r[i] == Js.Trim(Glue(groups[i]))
  {
    seq(|groups|, i requires 0 <= i < |groups| => Js.Trim(Glue(groups[i])))
  }

  /** `splitIntoSections(text, sectionSize)`. */
  function Sections(text: string, size: int): seq<string>
  {
    if |text| <= size then [text]
    else
      Finish(Pack(Js.Paragraphs(text), size))
  }

  /** After the loop: the flushed sections, then the trimmed buffer unless it is empty. */
  function Finish(p: Packing): seq<string>
  {
    var last := Js.Trim(Glue(p.group));
    Flushed(p.groups) + (if last != "" then [last] else [])
  }

  /** One paragraph of the loop. */
  lemma PackStep(paras: seq<string>, i: nat, size: int)
    requires i < |paras|
    ensures var p := Pack(paras[..i], size);
      Pack(paras[..i + 1], size) ==
        if |Glue(p.group)| + |paras[i]| > size && |Glue(p.group)| > 0 then Packing(p.groups + [p.group], [paras[i]])
        else Packing(p.groups, p.group + [paras[i]])
  {
    Js.PrefixSlice(paras, i, i + 1);
  }

  lemma GlueSnoc(g: seq<string>, para: string)
    ensures Glue(g + [para]) == AddPara(Glue(g), para)
  {
    assert (g + [para])[..|g|] == g;
  }

  lemma FlushedSnoc(groups: seq<seq<string>>, g: seq<string>)
    ensures Flushed(groups + [g]) == Flushed(groups) + [Js.Trim(Glue(g))]
  {
  }

  method SplitIntoSections(text: string, sectionSize: int) returns (sections: seq<string>)
    ensures sections == Sections(text, sectionSize)
  {
    if |text| <= sectionSize {
      return [text];
    }
    var currentSection;
    sections, currentSection := PackParagraphs(Js.Paragraphs(text), sectionSize);
    if Js.Trim(currentSection) != "" {
      sections := sections + [Js.Trim(currentSection)];
    }
  }

  /** The `for (const para of paragraphs)` loop: the sections it flushes and
      the buffer it leaves. */
  method PackParagraphs(paragraphs: seq<string>, sectionSize: int) returns (sections: seq<string>, currentSection: string)
    ensures sections == Flushed(Pack(paragraphs, sectionSize).groups)
    ensures currentSection == Glue(Pack(paragraphs, sectionSize).group)
  {
    sections := [];
    currentSection := "";
    ghost var packed := Packing([], []);
    for i := 0 to |paragraphs|
      invariant packed == Pack(paragraphs[..i], sectionSize)
      invariant sections == Flushed(packed.groups)
      invariant currentSection == Glue(packed.group)
    {
      var para := paragraphs[i];
      PackStep(paragraphs, i, sectionSize);
      if |currentSection| + |para| > sectionSize && |currentSection| > 0 {
        FlushedSnoc(packed.groups, packed.group);
        sections := sections + [Js.Trim(currentSection)];
        currentSection := para;
        packed := Packing(packed.groups + [packed.group], [para]);
        GlueSnoc([], para);
      } else {
        currentSection := AddPara(currentSection, para);
        GlueSnoc(packed.group, para);
        packed := Packing(packed.groups, packed.group + [para]);
      }
    }
    Js.WholeSlice(paragraphs);
  }

  // ---- what splitIntoSections promises ----------------------------------------------

  /** The paragraphs of a run of groups, in order. */
  function Flatten(gs: seq<seq<string>>): seq<string>
  {
    if gs == [] then [] else Flatten(gs[..|gs| - 1]) + gs[|gs| - 1]
  }

  /** Js.Paragraphs are never split, dropped or reordered: the flushed groups and
      the current buffer hold exactly the paragraphs, in order, and after the
      first paragraph the current buffer holds at least one paragraph. */
  lemma {:induction false} PackCovers(paras: seq<string>, size: int)
    ensures var p := Pack(paras, size);
      && Flatten(p.groups) + p.group == paras
      && (paras != [] ==> p.group != [])
  {
    if paras != [] {
      var init := paras[..|paras| - 1];
      var para := paras[|paras| - 1];
      PackCovers(init, size);
      PushCovers(Pack(init, size), para, size);
      assert init + [para] == paras;
    }
  }

  /** A step keeps every paragraph, in order, and leaves a non-empty buffer. */
  lemma PushCovers(q: Packing, para: string, size: int)
    ensures var p := Push(q, para, size);
      Flatten(p.groups) + p.group == Flatten(q.groups) + q.group + [para] && p.group != []
  {
    if |Glue(q.group)| + |para| > size && |Glue(q.group)| > 0 {
      FlattenSnoc(q.groups, q.group);
    }
  }

  lemma FlattenSnoc(gs: seq<seq<string>>, g: seq<string>)
    ensures Flatten(gs + [g]) == Flatten(gs) + g
  {
    assert (gs + [g])[..|gs|] == gs;
  }


  /** A flushed group is never empty and neither is its buffer. */
  lemma {:induction false} PackGroups(paras: seq<string>, size: int)
    ensures var p := Pack(paras, size);
      forall k :: 0 <= k < |p.groups| ==> p.groups[k] != [] && Glue(p.groups[k]) != ""
  {
    if paras != [] {
      var init := paras[..|paras| - 1];
      var para := paras[|paras| - 1];
      PackGroups(init, size);
      var q := Pack(init, size);
      var p := Pack(paras, size);
      PackStep(paras, |paras| - 1, size);
      Js.WholeSlice(paras);
      if |Glue(q.group)| + |para| > size && |Glue(q.group)| > 0 {
        assert p.groups == q.groups + [q.group];
        assert q.group != [];
        forall k | 0 <= k < |p.groups| ensures p.groups[k] != [] && Glue(p.groups[k]) != "" {
          if k < |q.groups| {
            assert p.groups[k] == q.groups[k];
          }
        }
      } else {
        assert p.groups == q.groups;
      }
    }
  }

  /** The buffer `all[k]` was flushed because the next paragraph, the first of
      `all[k + 1]`, would have made it longer than `size`. */
  ghost predicate FlushedAt(all: seq<seq<string>>, k: int, size: int)
    requires 0 <= k < |all| - 1
  {
    all[k + 1] != [] && |Glue(all[k])| + |all[k + 1][0]| > size
  }

  /** A section is flushed only when its buffer is non-empty and adding the
      next paragraph would make it longer than `size`. */
  lemma {:induction false} PackFlushRule(paras: seq<string>, size: int)
    ensures var p := Pack(paras, size);
      forall k :: 0 <= k < |p.groups| ==> FlushedAt(p.groups + [p.group], k, size)
  {
    if paras != [] {
      var init := paras[..|paras| - 1];
      var para := paras[|paras| - 1];
      PackFlushRule(init, size);
      PackCovers(init, size);
      var q := Pack(init, size);
      var old_all := q.groups + [q.group];
      var p := Pack(paras, size);
      var all := p.groups + [p.group];
      if |Glue(q.group)| + |para| > size && |Glue(q.group)| > 0 {
        assert all == old_all + [[para]];
        forall k | 0 <= k < |p.groups| ensures FlushedAt(all, k, size) {
          if k < |q.groups| {
            assert all[k] == old_all[k] && all[k + 1] == old_all[k + 1];
            assert FlushedAt(old_all, k, size);
          }
        }
      } else {
        forall k | 0 <= k < |p.groups| ensures FlushedAt(all, k, size) {
          assert FlushedAt(old_all, k, size);
          assert all[k] == old_all[k];
          if k + 1 < |p.groups| {
            assert all[k + 1] == old_all[k + 1];
          } else {
            assert all[k + 1] == q.group + [para] && old_all[k + 1] == q.group;
          }
        }
      }
    }
  }

  /** A paragraph joins a buffer only when the buffer is empty or the two
      lengths together are at most `size`; the separator is not counted. */
  ghost predicate Fits(g: seq<string>, size: int)
  {
    forall j :: 0 < j < |g| ==> Glue(g[..j]) == "" || |Glue(g[..j])| + |g[j]| <= size
  }

  lemma {:induction false} PackFitRule(paras: seq<string>, size: int)
    ensures var p := Pack(paras, size);
      Fits(p.group, size) && forall k :: 0 <= k < |p.groups| ==> Fits(p.groups[k], size)
  {
    if paras != [] {
      var init := paras[..|paras| - 1];
      var para := paras[|paras| - 1];
      PackFitRule(init, size);
      var q := Pack(init, size);
      var p := Pack(paras, size);
      if |Glue(q.group)| + |para| > size && |Glue(q.group)| > 0 {
        assert p.groups == q.groups + [q.group];
      } else {
        var g := q.group + [para];
        forall j | 0 < j < |g| ensures Glue(g[..j]) == "" || |Glue(g[..j])| + |g[j]| <= size {
          if j < |q.group| {
            assert g[..j] == q.group[..j];
          } else {
            assert g[..j] == q.group;
          }
        }
      }
    }
  }

  /** A buffer that started with a non-empty paragraph is its paragraphs
      joined by a blank line. */
  lemma {:induction false} GlueJoin(g: seq<string>)
    requires g != [] && g[0] != ""
    ensures Glue(g) == Js.Join(g, "\n\n") && Glue(g) != ""
  {
    if |g| == 1 {
      assert g[..0] == [];
    } else {
      var init := g[..|g| - 1];
      GlueJoin(init);
    }
  }

  /** A text no longer than `size` is one section; otherwise every section is
      trimmed, one per flushed buffer, plus the last buffer unless it trims to
      nothing. A flushed buffer of white space alone gives an empty section. */
  lemma SectionsTrimmed(text: string, size: int)
    ensures |text| <= size ==> Sections(text, size) == [text]
    ensures |text| > size ==>
      && (forall i :: 0 <= i < |Sections(text, size)| ==> Js.Trim(Sections(text, size)[i]) == Sections(text, size)[i])
      && var p := Pack(Js.Paragraphs(text), size);
         |Sections(text, size)| == |p.groups| + (if Js.Trim(Glue(p.group)) != "" then 1 else 0)
  {
    if |text| > size {
      assert Sections(text, size) == Finish(Pack(Js.Paragraphs(text), size));
      FinishTrimmed(Pack(Js.Paragraphs(text), size));
    }
  }

  lemma FinishTrimmed(p: Packing)
    ensures forall i :: 0 <= i < |Finish(p)| ==> Js.Trim(Finish(p)[i]) == Finish(p)[i]
    ensures |Finish(p)| == |p.groups| + (if Js.Trim(Glue(p.group)) != "" then 1 else 0)
  {
    var r := Finish(p);
    var f := Flushed(p.groups);
    forall i | 0 <= i < |r| ensures Js.Trim(r[i]) == r[i] {
      if i < |p.groups| {
        assert r[i] == f[i] == Js.Trim(Glue(p.groups[i]));
        Js.TrimIdempotent(Glue(p.groups[i]));
      } else {
        assert r[i] == Js.Trim(Glue(p.group));
        Js.TrimIdempotent(Glue(p.group));
      }
    }
  }

  lemma {:induction false} FlattenHas(gs: seq<seq<string>>, k: nat, j: nat)
    requires k < |gs| && j < |gs[k]|
    ensures gs[k][j] in Flatten(gs)
  {
    if k < |gs| - 1 {
      FlattenHas(gs[..|gs| - 1], k, j);
    }
  }

  /** A buffer whose paragraphs all fitted is at most two characters over
      `size` (the uncounted separator), unless it is its last paragraph alone. */
  lemma GlueBound(g: seq<string>, size: int)
    requires g != [] && Fits(g, size)
    ensures |Glue(g)| <= size + 2 || Glue(g) == g[|g| - 1]
  {
    var j := |g| - 1;
    if j == 0 {
      assert g[..0] == [];
    } else {
      assert g[..j] == g[..|g| - 1];
    }
  }

  /** Every section is at most two characters longer than `size`, or is a
      single paragraph of the text, trimmed; paragraphs are never cut. */
  lemma SectionsBound(text: string, size: int)
    ensures forall i :: 0 <= i < |Sections(text, size)| ==>
      |Sections(text, size)[i]| <= size + 2 || exists q :: q in Js.Paragraphs(text) && Sections(text, size)[i] == Js.Trim(q)
  {
    if |text| > size {
      assert Sections(text, size) == Finish(Pack(Js.Paragraphs(text), size));
      FinishBound(Js.Paragraphs(text), size);
    } else {
      assert Sections(text, size) == [text];
    }
  }

  lemma FinishBound(paras: seq<string>, size: int)
    ensures var r := Finish(Pack(paras, size));
      forall i :: 0 <= i < |r| ==> |r[i]| <= size + 2 || exists q :: q in paras && r[i] == Js.Trim(q)
  {
    var p := Pack(paras, size);
    PackCovers(paras, size);
    PackGroups(paras, size);
    PackFitRule(paras, size);
    FlattenSnoc(p.groups, p.group);
    FinishBoundOf(p, paras, size);
  }

  /** The bound on the sections of any packing whose buffers obey the fit rule
      and that holds exactly `paras`. */
  lemma FinishBoundOf(p: Packing, paras: seq<string>, size: int)
    requires Flatten(p.groups + [p.group]) == paras
    requires p.group != [] || paras == []
    requires Fits(p.group, size) && forall k :: 0 <= k < |p.groups| ==> Fits(p.groups[k], size)
    requires forall k :: 0 <= k < |p.groups| ==> p.groups[k] != []
    ensures var r := Finish(p);
      forall i :: 0 <= i < |r| ==> |r[i]| <= size + 2 || exists q :: q in paras && r[i] == Js.Trim(q)
  {
    var r := Finish(p);
    var all := p.groups + [p.group];
    forall i | 0 <= i < |r|
      ensures |r[i]| <= size + 2 || exists q :: q in paras && r[i] == Js.Trim(q)
    {
      var k := if i < |p.groups| then i else |p.groups|;
      FinishAt(p, i, size);
      FinishOne(all, paras, k, size, r[i]);
    }
  }

  /** The bound for one section: the trimmed glue of one buffer. */
  lemma FinishOne(all: seq<seq<string>>, paras: seq<string>, k: nat, size: int, s: string)
    requires Flatten(all) == paras && k < |all| && all[k] != [] && Fits(all[k], size)
    requires s == Js.Trim(Glue(all[k]))
    ensures |s| <= size + 2 || exists q :: q in paras && s == Js.Trim(q)
  {
    SectionBound(all, k, size);
    var g := all[k];
    if |s| > size + 2 {
      assert g[|g| - 1] in paras;
    }
  }

  /** Section `i` of a finished packing is the trimmed glue of buffer `i`,
      the last one being the open buffer. */
  lemma FinishAt(p: Packing, i: nat, size: int)
    requires i < |Finish(p)|
    requires i < |p.groups| ==> p.groups[i] != [] && Fits(p.groups[i], size)
    requires i >= |p.groups| ==> Fits(p.group, size)
    ensures var all := p.groups + [p.group];
      var k := if i < |p.groups| then i else |p.groups|;
      Finish(p)[i] == Js.Trim(Glue(all[k])) && all[k] != [] && Fits(all[k], size)
  {
    var all := p.groups + [p.group];
    assert p.group == [] ==> Glue(p.group) == "";
    if i < |p.groups| {
      assert all[i] == p.groups[i];
    } else {
      assert all[|p.groups|] == p.group;
    }
  }

  /** A non-empty buffer that obeyed the fit rule is short or is one paragraph. */
  lemma SectionBound(all: seq<seq<string>>, k: nat, size: int)
    requires k < |all| && all[k] != [] && Fits(all[k], size)
    ensures var g := all[k];
      |Js.Trim(Glue(g))| <= size + 2 || (g[|g| - 1] in Flatten(all) && Js.Trim(Glue(g)) == Js.Trim(g[|g| - 1]))
  {
    var g := all[k];
    GlueBound(g, size);
    FlattenHas(all, k, |g| - 1);
  }


  // ---- the strategy -----------------------------------------------------------------

  const LargeDocThreshold: int := 8000
  const SectionSize: int := 3000

  /** `IngestionConfig`; a missing `forceRootChild` is `false`. */
  datatype Config = Config(forceRootChild: bool, sectionSize: Option<int>, largeDocThreshold: Option<int>)

  /** `value || fallback` on an optional number: missing and zero both fall back. */
  function OrElse(value: Option<int>, fallback: int): (r: int)
    ensures value.Some? && value.value != 0 ==> r == value.value
    ensures value.None? || value.value == 0 ==> r == fallback
  {
    if value.Some? && value.value != 0 then value.value else fallback
  }

  function Threshold(config: Config): int
  {
    OrElse(config.largeDocThreshold, LargeDocThreshold)
  }

  function SectionSizeOf(config: Config): int
  {
    OrElse(config.sectionSize, SectionSize)
  }

  /** `config?.forceRootChild || estimated_tokens > threshold`. */
  predicate UseRootChild(config: Config, estimatedTokens: int)
  {
    config.forceRootChild || estimatedTokens > Threshold(config)
  }

  /** Forcing always splits; without forcing, a document is split exactly when
      its estimate passes the threshold, which is 8000 tokens when the option is
      missing or zero; and a larger estimate never switches back to a single
      memory. */
  lemma UseRootChildFacts(config: Config, tokens: int, more: int)
    ensures config.forceRootChild ==> UseRootChild(config, tokens)
    ensures !config.forceRootChild && (config.largeDocThreshold.None? || config.largeDocThreshold.value == 0) ==>
      (UseRootChild(config, tokens) <==> tokens > 8000)
    ensures !config.forceRootChild && config.largeDocThreshold.Some? && config.largeDocThreshold.value != 0 ==>
      (UseRootChild(config, tokens) <==> tokens > config.largeDocThreshold.value)
    ensures UseRootChild(config, tokens) && tokens <= more ==> UseRootChild(config, more)
  {
  }

  // ---- the root memory --------------------------------------------------------------

  /** What an extractor returns: the text, its `content_type` and
      `estimated_tokens`, and the whole metadata object. */
  datatype Extraction = Extraction(text: string, contentType: string, estimatedTokens: int, meta: seq<Json.Field>)

  /** `j([])`. */
  const EmptyTags := "[]"

  /** The first 500 characters and an ellipsis when the text is longer. */
  function Summary(text: string): (r: string)
    ensures |text| <= 500 ==> r == text
    ensures |text| > 500 ==> |r| == 503 && r == text[..500] + "..."
  {
    if |text| > 500 then text[..500] + "..." else text
  }

  /** The root's content: a header naming the content type in upper case, the
      summary, and a section count computed with the constant 3000-character
      section size. */
  function RootContent(text: string, contentType: string): string
  {
    "[Document: " + Js.ToUpper(contentType) + "]\n\n" + Summary(text)
      + "\n\n[Full content split across " + Js.NatToString(CeilDiv(|text|, SectionSize)) + " sections]"
  }

  /** `{ ...metadata, ...extraction.metadata, is_root: true, ingestion_strategy: 'root-child', ingested_at }`. */
  function RootMeta(metadata: seq<Json.Field>, e: Extraction, created: int): seq<Json.Field>
  {
    Json.Spread(Json.Spread(Json.Copy(metadata), e.meta),
                [Json.Field("is_root", Json.Bool(true)), Json.Field("ingestion_strategy", Json.Str("root-child")),
                 Json.Field("ingested_at", Json.Num(created as real))])
  }

  /** The row `createRootMemory` inserts: reflective, salience 1.0, decay rate
      0.1, version 1, no mean vector. */
  function RootRow(codec: Json.Codec, rootId: string, text: string, e: Extraction, metadata: seq<Json.Field>, created: int): Db.Memory
  {
    Db.Memory(rootId, RootContent(text, e.contentType), "reflective", Some(EmptyTags),
              codec.stringify(Json.Obj(RootMeta(metadata, e, created))), created, created, created, 1.0, 0.1, 1, None, None)
  }

  /** `createRootMemory`: one insert in its own transaction. A transaction
      already open makes `BEGIN` throw before anything is written. */
  method CreateRootMemory(store: Database.Store, codec: Json.Codec, rootId: string, created: int,
                          originalText: string, extraction: Extraction, metadata: seq<Json.Field>)
    returns (r: Result<string>)
    requires store.Valid()
    modifies store
    ensures store.Valid() && store.saved == old(store.saved)
    ensures old(store.saved).Some? ==> r.Err? && store.State() == old(store.State())
    ensures old(store.saved).None? ==>
      var ins := Db.InsMem(old(store.State()), RootRow(codec, rootId, originalText, extraction, metadata, created));
      && (ins.Ok? ==> r == Ok(rootId) && store.State() == ins.value)
      && (ins.Err? ==> r == Err(ins.msg) && store.State() == old(store.State()))
  {
    var begun := store.Begin();
    if begun.Err? {
      return Err(begun.msg);
    }
    var inserted := store.InsMem(RootRow(codec, rootId, originalText, extraction, metadata, created));
    if inserted.Err? {
      var rolledBack := store.Rollback();
      return Err(inserted.msg);
    }
    var committed := store.Commit();
    return Ok(rootId);
  }

  /** The root records that it is a root of the root-child strategy and when it
      was ingested; every other property comes from the extraction's metadata
      or, failing that, the caller's. */
  lemma RootMetaFacts(metadata: seq<Json.Field>, e: Extraction, created: int)
    ensures var m := RootMeta(metadata, e, created);
      && Json.Keyed(m)
      && Json.Get(m, "is_root") == Some(Json.Bool(true))
      && Json.Get(m, "ingestion_strategy") == Some(Json.Str("root-child"))
      && Json.Get(m, "ingested_at") == Some(Json.Num(created as real))
      && forall k :: k != "is_root" && k != "ingestion_strategy" && k != "ingested_at" ==>
           Json.Get(m, k) == if Json.Get(e.meta, k).Some? then Json.Get(e.meta, k) else Json.Get(metadata, k)
  {
    Json.SpreadGet([], metadata);
    Json.SpreadGet(Json.Copy(metadata), e.meta);
    Json.SpreadThree(Json.Spread(Json.Copy(metadata), e.meta), Json.Field("is_root", Json.Bool(true)),
                     Json.Field("ingestion_strategy", Json.Str("root-child")), Json.Field("ingested_at", Json.Num(created as real)));
  }

  /** The count the root announces ignores the configured section size: when
      that size is larger than the text, there is one section, yet a text over
      3000 characters is announced as at least two. */
  lemma RootCountIgnoresSectionSize(text: string, size: int)
    requires SectionSize < |text| <= size
    ensures Sections(text, size) == [text]
    ensures CeilDiv(|text|, SectionSize) >= 2
  {
  }

  // ---- the children -----------------------------------------------------------------

  /** `{ ...metadata, is_child: true, section_index, total_sections, parent_id }`. */
  function ChildMeta(metadata: seq<Json.Field>, sectionIndex: nat, totalSections: nat, rootId: string): seq<Json.Field>
  {
    Json.Spread(Json.Copy(metadata),
                [Json.Field("is_child", Json.Bool(true)), Json.Field("section_index", Json.Num(sectionIndex as real)),
                 Json.Field("total_sections", Json.Num(totalSections as real)), Json.Field("parent_id", Json.Str(rootId))])
  }

  /** A child names its parent, its place and the section count; the caller's
      other properties pass through. */
  lemma ChildMetaFacts(metadata: seq<Json.Field>, sectionIndex: nat, totalSections: nat, rootId: string)
    ensures var m := ChildMeta(metadata, sectionIndex, totalSections, rootId);
      && Json.Keyed(m)
      && Json.Get(m, "is_child") == Some(Json.Bool(true))
      && Json.Get(m, "section_index") == Some(Json.Num(sectionIndex as real))
      && Json.Get(m, "total_sections") == Some(Json.Num(totalSections as real))
      && Json.Get(m, "parent_id") == Some(Json.Str(rootId))
      && forall k :: k != "is_child" && k != "section_index" && k != "total_sections" && k != "parent_id" ==>
           Json.Get(m, k) == Json.Get(metadata, k)
  {
    Json.SpreadGet([], metadata);
    Json.SpreadFour(Json.Copy(metadata), Json.Field("is_child", Json.Bool(true)),
                    Json.Field("section_index", Json.Num(sectionIndex as real)),
                    Json.Field("total_sections", Json.Num(totalSections as real)), Json.Field("parent_id", Json.Str(rootId)));
  }

  /** `createChildMemory`: the section is added as an ordinary memory. */
  method CreateChildMemory(store: Database.Store, net: Embedding.Network, ctx: Hsg.Context, codec: Json.Codec,
                           id: string, now: int, sectionText: string, sectionIndex: nat, totalSections: nat,
                           rootId: string, metadata: seq<Json.Field>)
    returns (r: Result<string>)
    requires store.Valid() && Hsg.ValidContext(ctx, net.reply)
    modifies store, net
    ensures store.Valid()
    ensures old(store.saved).Some? ==>
      r.Err? && store.State() == old(store.State()) && store.saved == old(store.saved) && net.calls == old(net.calls)
    ensures old(store.saved).None? ==>
      var a := AddChild(ctx, codec, net.reply, old(net.calls), old(store.State()), id, now, sectionText, sectionIndex,
                        totalSections, rootId, metadata);
      && store.saved.None? && net.calls == a.calls && store.State() == a.tables
      && r == if a.result.Ok? then Ok(a.result.value.id) else Err(a.result.msg)
  {
    var childMetadata := ChildMeta(metadata, sectionIndex, totalSections, rootId);
    var result := Hsg.AddHSGMemory(store, net, ctx, id, now, sectionText, Some(EmptyTags),
                                   codec.stringify(Json.Obj(childMetadata)), Json.Sector(childMetadata));
    if result.Err? {
      return Err(result.msg);
    }
    return Ok(result.value.id);
  }

  /** The edge `linkRootToChild` writes. */
  function Link(rootId: string, childId: string, created: int): Db.Waypoint
  {
    Db.Waypoint(rootId, childId, 1.0, created, created)
  }

  /** `linkRootToChild`: one `insert or replace` of the edge root -> child with
      weight 1.0 in its own transaction. */
  method LinkRootToChild(store: Database.Store, rootId: string, childId: string, sectionIndex: nat, created: int)
    returns (r: Result<()>)
    requires store.Valid()
    modifies store
    ensures store.Valid() && store.saved == old(store.saved)
    ensures old(store.saved).Some? ==> r.Err? && store.State() == old(store.State())
    ensures old(store.saved).None? ==> r == Ok(()) && store.State() == Db.InsWaypoint(old(store.State()), Link(rootId, childId, created))
  {
    var begun := store.Begin();
    if begun.Err? {
      return Err(begun.msg);
    }
    store.InsWaypoint(Link(rootId, childId, created));
    var committed := store.Commit();
    return Ok(());
  }

  /** An insert leaves exactly one edge leaving its source: itself. */
  lemma InsWaypointOnly(t: Db.Tables, w: Db.Waypoint)
    ensures var u := Db.InsWaypoint(t, w);
      && u.memories == t.memories
      && forall x :: x in u.waypoints && x.src == w.src <==> x == w
  {
    Js.FilterContains(t.waypoints, Db.NotFrom(w.src));
  }

  // ---- the whole ingestion ----------------------------------------------------------

  datatype Strategy = Single | RootChild

  /** `IngestionResult`. */
  datatype Ingested = Ingested(rootMemoryId: string, childCount: nat, totalTokens: int, strategy: Strategy,
                               extraction: seq<Json.Field>)

  /** How an ingestion ends: its answer, the requests made, and the tables. */
  datatype IngestRun = IngestRun(result: Result<Ingested>, calls: nat, tables: Db.Tables)

  /** How the children loop ends: the child ids pushed so far, or the first error. */
  datatype ChildRun = ChildRun(result: Result<seq<string>>, calls: nat, tables: Db.Tables)

  /** `{ ...metadata, ...extraction.metadata, ingestion_strategy: 'single', ingested_at }`. */
  function SingleMeta(metadata: seq<Json.Field>, e: Extraction, created: int): seq<Json.Field>
  {
    Json.Spread(Json.Spread(Json.Copy(metadata), e.meta),
                [Json.Field("ingestion_strategy", Json.Str("single")), Json.Field("ingested_at", Json.Num(created as real))])
  }

  /** The child add of section `k` with id `id`. */
  function AddChild(ctx: Hsg.Context, codec: Json.Codec, reply: nat -> Embedding.Reply, c: nat, t: Db.Tables,
                    id: string, now: int, section: string, k: nat, n: nat, rootId: string, meta: seq<Json.Field>): Hsg.AddRun
    requires Hsg.ValidContext(ctx, reply)
  {
    var childMeta := ChildMeta(meta, k, n, rootId);
    Hsg.Add(ctx, reply, c, t, id, now, section, Some(EmptyTags), codec.stringify(Json.Obj(childMeta)), Json.Sector(childMeta))
  }

  /** The first `i` rounds of a loop that stops at its first failure: round
      `k` (counted from 0) maps the run so far to the next one. */
  ghost function Rounds(step: (ChildRun, nat) -> ChildRun, init: ChildRun, i: nat): ChildRun
  {
    if i == 0 then init
    else
      var prev := Rounds(step, init, i - 1);
      if prev.result.Err? then prev else step(prev, i - 1)
  }

  /** Once such a loop has failed, later rounds change nothing. */
  lemma {:induction false} RoundsStop(step: (ChildRun, nat) -> ChildRun, init: ChildRun, i: nat, j: nat)
    requires i <= j && Rounds(step, init, i).result.Err?
    ensures Rounds(step, init, j) == Rounds(step, init, i)
  {
    if i < j {
      RoundsStop(step, init, i, j - 1);
    }
  }

  /** After a successful run of `i` rounds, one more round is one step. */
  lemma RoundsNext(step: (ChildRun, nat) -> ChildRun, init: ChildRun, i: nat)
    requires Rounds(step, init, i).result.Ok?
    ensures Rounds(step, init, i + 1) == step(Rounds(step, init, i), i)
  {
  }

  /** A property of the run after `k` rounds that holds of `init`, that each
      successful round passes on, and that a failed run keeps as the rounds
      go by, holds after every round. */
  lemma {:induction false} RoundsInvariant(step: (ChildRun, nat) -> ChildRun, init: ChildRun, inv: (ChildRun, nat) -> bool,
                                           n: nat, i: nat)
    requires i <= n && inv(init, 0)
    requires forall r: ChildRun, k: nat :: k < n && r.result.Ok? && inv(r, k) ==> inv(step(r, k), k + 1)
    requires forall r: ChildRun, k: nat :: k < n && r.result.Err? && inv(r, k) ==> inv(r, k + 1)
    ensures inv(Rounds(step, init, i), i)
  {
    if i > 0 {
      RoundsInvariant(step, init, inv, n, i - 1);
    }
  }

  /** The round of the children loop, as a step of `Rounds`. */
  ghost function ChildStep(ctx: Hsg.Context, codec: Json.Codec, reply: nat -> Embedding.Reply, ids: nat -> string, now: int,
                           sections: seq<string>, rootId: string, meta: seq<Json.Field>): (ChildRun, nat) -> ChildRun
  {
    (prev: ChildRun, k: nat) =>
      if Hsg.ValidContext(ctx, reply) && k < |sections| && prev.result.Ok?
      then Round(ctx, codec, reply, prev, ids, now, sections, rootId, meta, k)
      else prev
  }

  /** The first `i` rounds of the children loop: section `k` is added with the
      id `ids(k + 1)` and then linked from the root; the first failure stops
      the loop with the tables as that failed add left them. */
  ghost function Children(ctx: Hsg.Context, codec: Json.Codec, reply: nat -> Embedding.Reply, c: nat, t: Db.Tables,
                          ids: nat -> string, now: int, sections: seq<string>, rootId: string, meta: seq<Json.Field>, i: nat): ChildRun
    requires Hsg.ValidContext(ctx, reply) && i <= |sections|
  {
    Rounds(ChildStep(ctx, codec, reply, ids, now, sections, rootId, meta), ChildRun(Ok([]), c, t), i)
  }

  /** Round `k` after successful rounds: section `k` is added with the id
      `ids(k + 1)` and then linked from the root. */
  function Round(ctx: Hsg.Context, codec: Json.Codec, reply: nat -> Embedding.Reply, prev: ChildRun,
                 ids: nat -> string, now: int, sections: seq<string>, rootId: string, meta: seq<Json.Field>, k: nat): ChildRun
    requires Hsg.ValidContext(ctx, reply) && k < |sections| && prev.result.Ok?
  {
    var a := AddChild(ctx, codec, reply, prev.calls, prev.tables, ids(k + 1), now, sections[k], k, |sections|, rootId, meta);
    if a.result.Err? then ChildRun(Err(a.result.msg), a.calls, a.tables)
    else ChildRun(Ok(prev.result.value + [a.result.value.id]), a.calls, Db.InsWaypoint(a.tables, Link(rootId, a.result.value.id, now)))
  }

  /** `ingestDocument` and `ingestURL` after extraction. The single strategy
      adds the whole text as one memory with `singleMeta`; the root-child
      strategy inserts the root with `splitMeta`, then adds and links one
      child per section with the same metadata. `ids(0)` is the id of the
      single or root memory and `ids(k + 1)` that of child `k`. */
  ghost function Ingest(ctx: Hsg.Context, codec: Json.Codec, reply: nat -> Embedding.Reply, c: nat, t: Db.Tables, config: Config,
                  e: Extraction, singleMeta: seq<Json.Field>, splitMeta: seq<Json.Field>, ids: nat -> string, now: int): IngestRun
    requires Hsg.ValidContext(ctx, reply)
  {
    if !UseRootChild(config, e.estimatedTokens) then SingleRun(ctx, codec, reply, c, t, e, singleMeta, ids, now)
    else SplitRun(ctx, codec, reply, c, t, config, e, splitMeta, ids, now)
  }

  /** The single strategy. */
  function SingleRun(ctx: Hsg.Context, codec: Json.Codec, reply: nat -> Embedding.Reply, c: nat, t: Db.Tables,
                     e: Extraction, singleMeta: seq<Json.Field>, ids: nat -> string, now: int): IngestRun
    requires Hsg.ValidContext(ctx, reply)
  {
    var meta := SingleMeta(singleMeta, e, now);
    var a := Hsg.Add(ctx, reply, c, t, ids(0), now, e.text, Some(EmptyTags), codec.stringify(Json.Obj(meta)), Json.Sector(meta));
    if a.result.Err? then IngestRun(Err(a.result.msg), a.calls, a.tables)
    else IngestRun(Ok(Ingested(a.result.value.id, 0, e.estimatedTokens, Single, e.meta)), a.calls, a.tables)
  }

  /** The root-child strategy. */
  ghost function SplitRun(ctx: Hsg.Context, codec: Json.Codec, reply: nat -> Embedding.Reply, c: nat, t: Db.Tables, config: Config,
                    e: Extraction, splitMeta: seq<Json.Field>, ids: nat -> string, now: int): IngestRun
    requires Hsg.ValidContext(ctx, reply)
  {
    var sections := Sections(e.text, SectionSizeOf(config));
    var ins := Db.InsMem(t, RootRow(codec, ids(0), e.text, e, splitMeta, now));
    if ins.Err? then IngestRun(Err(ins.msg), c, t)
    else
      var ch := Children(ctx, codec, reply, c, ins.value, ids, now, sections, ids(0), splitMeta, |sections|);
      if ch.result.Err? then IngestRun(Err(ch.result.msg), ch.calls, ch.tables)
      else IngestRun(Ok(Ingested(ids(0), |sections|, e.estimatedTokens, RootChild, e.meta)), ch.calls, ch.tables)
  }

  /** Once the loop has failed, later rounds change nothing. */
  lemma ChildrenStop(ctx: Hsg.Context, codec: Json.Codec, reply: nat -> Embedding.Reply, c: nat, t: Db.Tables,
                                        ids: nat -> string, now: int, sections: seq<string>, rootId: string, meta: seq<Json.Field>,
                                        i: nat, j: nat)
    requires Hsg.ValidContext(ctx, reply) && i <= j <= |sections|
    requires Children(ctx, codec, reply, c, t, ids, now, sections, rootId, meta, i).result.Err?
    ensures Children(ctx, codec, reply, c, t, ids, now, sections, rootId, meta, j)
         == Children(ctx, codec, reply, c, t, ids, now, sections, rootId, meta, i)
  {
    RoundsStop(ChildStep(ctx, codec, reply, ids, now, sections, rootId, meta), ChildRun(Ok([]), c, t), i, j);
  }

  /** One round of the children loop after successful rounds. */
  lemma ChildrenStep(ctx: Hsg.Context, codec: Json.Codec, reply: nat -> Embedding.Reply, c: nat, t: Db.Tables,
                     ids: nat -> string, now: int, sections: seq<string>, rootId: string, meta: seq<Json.Field>, i: nat)
    requires Hsg.ValidContext(ctx, reply) && i < |sections|
    requires Children(ctx, codec, reply, c, t, ids, now, sections, rootId, meta, i).result.Ok?
    ensures var prev := Children(ctx, codec, reply, c, t, ids, now, sections, rootId, meta, i);
      var a := AddChild(ctx, codec, reply, prev.calls, prev.tables, ids(i + 1), now, sections[i], i, |sections|, rootId, meta);
      Children(ctx, codec, reply, c, t, ids, now, sections, rootId, meta, i + 1)
        == if a.result.Err? then ChildRun(Err(a.result.msg), a.calls, a.tables)
           else ChildRun(Ok(prev.result.value + [a.result.value.id]), a.calls, Db.InsWaypoint(a.tables, Link(rootId, a.result.value.id, now)))
  {
    var step := ChildStep(ctx, codec, reply, ids, now, sections, rootId, meta);
    var prev := Children(ctx, codec, reply, c, t, ids, now, sections, rootId, meta, i);
    RoundsNext(step, ChildRun(Ok([]), c, t), i);
    assert step(prev, i) == Round(ctx, codec, reply, prev, ids, now, sections, rootId, meta, i);
  }

  /** One round of the loop: `createChildMemory`, then `linkRootToChild`. */
  method AddChildRound(store: Database.Store, net: Embedding.Network, ctx: Hsg.Context, codec: Json.Codec,
                       ids: nat -> string, now: int, sections: seq<string>, rootId: string, meta: seq<Json.Field>,
                       i: nat, ghost c0: nat, ghost t0: Db.Tables, ghost childIds: seq<string>)
    returns (r: Result<string>)
    requires store.Valid() && store.saved.None? && Hsg.ValidContext(ctx, net.reply) && i < |sections|
    requires Children(ctx, codec, net.reply, c0, t0, ids, now, sections, rootId, meta, i) == ChildRun(Ok(childIds), net.calls, store.State())
    modifies store, net
    ensures store.Valid() && store.saved.None?
    ensures Children(ctx, codec, net.reply, c0, t0, ids, now, sections, rootId, meta, i + 1)
         == ChildRun(if r.Ok? then Ok(childIds + [r.value]) else Err(r.msg), net.calls, store.State())
  {
    ChildrenStep(ctx, codec, net.reply, c0, t0, ids, now, sections, rootId, meta, i);
    r := CreateChildMemory(store, net, ctx, codec, ids(i + 1), now, sections[i], i, |sections|, rootId, meta);
    if r.Ok? {
      var linked := LinkRootToChild(store, rootId, r.value, i, now);
    }
  }

  /** The `for` loop of the root-child strategy: `childIds` and the store
      follow the rounds of `Children`. */
  method AddChildren(store: Database.Store, net: Embedding.Network, ctx: Hsg.Context, codec: Json.Codec,
                     ids: nat -> string, now: int, sections: seq<string>, rootId: string, meta: seq<Json.Field>)
    returns (r: Result<seq<string>>)
    requires store.Valid() && store.saved.None? && Hsg.ValidContext(ctx, net.reply)
    modifies store, net
    ensures store.Valid() && store.saved.None?
    ensures ChildRun(r, net.calls, store.State())
         == Children(ctx, codec, net.reply, old(net.calls), old(store.State()), ids, now, sections, rootId, meta, |sections|)
  {
    var childIds: seq<string> := [];
    ghost var t0 := store.State();
    ghost var c0 := net.calls;
    for i := 0 to |sections|
      invariant store.Valid() && store.saved.None?
      invariant Children(ctx, codec, net.reply, c0, t0, ids, now, sections, rootId, meta, i) == ChildRun(Ok(childIds), net.calls, store.State())
    {
      var child := AddChildRound(store, net, ctx, codec, ids, now, sections, rootId, meta, i, c0, t0, childIds);
      if child.Err? {
        ChildrenStop(ctx, codec, net.reply, c0, t0, ids, now, sections, rootId, meta, i + 1, |sections|);
        return Err(child.msg);
      }
      childIds := childIds + [child.value];
    }
    return Ok(childIds);
  }

  /** The shared body of `ingestDocument` and `ingestURL`. */
  method IngestExtraction(store: Database.Store, net: Embedding.Network, ctx: Hsg.Context, codec: Json.Codec, config: Config,
                e: Extraction, singleMeta: seq<Json.Field>, splitMeta: seq<Json.Field>, ids: nat -> string, now: int)
    returns (r: Result<Ingested>)
    requires store.Valid() && Hsg.ValidContext(ctx, net.reply)
    modifies store, net
    ensures store.Valid()
    ensures old(store.saved).Some? ==>
      r.Err? && store.State() == old(store.State()) && store.saved == old(store.saved) && net.calls == old(net.calls)
    ensures old(store.saved).None? ==>
      && store.saved.None?
      && IngestRun(r, net.calls, store.State()) == Ingest(ctx, codec, net.reply, old(net.calls), old(store.State()), config, e, singleMeta, splitMeta, ids, now)
  {
    if !UseRootChild(config, e.estimatedTokens) {
      r := IngestWhole(store, net, ctx, codec, e, singleMeta, ids, now);
    } else {
      r := IngestSplit(store, net, ctx, codec, config, e, splitMeta, ids, now);
    }
  }

  /** The single strategy: the whole text as one memory. */
  method IngestWhole(store: Database.Store, net: Embedding.Network, ctx: Hsg.Context, codec: Json.Codec,
                     e: Extraction, singleMeta: seq<Json.Field>, ids: nat -> string, now: int)
    returns (r: Result<Ingested>)
    requires store.Valid() && Hsg.ValidContext(ctx, net.reply)
    modifies store, net
    ensures store.Valid()
    ensures old(store.saved).Some? ==>
      r.Err? && store.State() == old(store.State()) && store.saved == old(store.saved) && net.calls == old(net.calls)
    ensures old(store.saved).None? ==>
      && store.saved.None?
      && IngestRun(r, net.calls, store.State()) == SingleRun(ctx, codec, net.reply, old(net.calls), old(store.State()), e, singleMeta, ids, now)
  {
    var meta := SingleMeta(singleMeta, e, now);
    var result := Hsg.AddHSGMemory(store, net, ctx, ids(0), now, e.text, Some(EmptyTags), codec.stringify(Json.Obj(meta)), Json.Sector(meta));
    if result.Err? {
      return Err(result.msg);
    }
    return Ok(Ingested(result.value.id, 0, e.estimatedTokens, Single, e.meta));
  }

  /** The root-child strategy: split, insert the root, then add and link the children. */
  method IngestSplit(store: Database.Store, net: Embedding.Network, ctx: Hsg.Context, codec: Json.Codec, config: Config,
                     e: Extraction, splitMeta: seq<Json.Field>, ids: nat -> string, now: int)
    returns (r: Result<Ingested>)
    requires store.Valid() && Hsg.ValidContext(ctx, net.reply)
    modifies store, net
    ensures store.Valid()
    ensures old(store.saved).Some? ==>
      r.Err? && store.State() == old(store.State()) && store.saved == old(store.saved) && net.calls == old(net.calls)
    ensures old(store.saved).None? ==>
      && store.saved.None?
      && IngestRun(r, net.calls, store.State()) == SplitRun(ctx, codec, net.reply, old(net.calls), old(store.State()), config, e, splitMeta, ids, now)
  {
    var root := CreateRootMemory(store, codec, ids(0), now, e.text, e, splitMeta);
    if root.Err? {
      SplitRunRootFails(ctx, codec, net.reply, old(net.calls), old(store.State()), config, e, splitMeta, ids, now);
      return Err(root.msg);
    }
    r := SplitChildren(store, net, ctx, codec, config, e, splitMeta, ids, now, old(net.calls), old(store.State()));
  }

  /** After the root row: add and link the children, and answer. */
  method SplitChildren(store: Database.Store, net: Embedding.Network, ctx: Hsg.Context, codec: Json.Codec, config: Config,
                       e: Extraction, splitMeta: seq<Json.Field>, ids: nat -> string, now: int,
                       ghost c: nat, ghost t: Db.Tables)
    returns (r: Result<Ingested>)
    requires store.Valid() && store.saved.None? && Hsg.ValidContext(ctx, net.reply) && net.calls == c
    requires var ins := Db.InsMem(t, RootRow(codec, ids(0), e.text, e, splitMeta, now));
      ins.Ok? && store.State() == ins.value
    modifies store, net
    ensures store.Valid() && store.saved.None?
    ensures IngestRun(r, net.calls, store.State()) == SplitRun(ctx, codec, net.reply, c, t, config, e, splitMeta, ids, now)
  {
    var sections := SplitIntoSections(e.text, SectionSizeOf(config));
    ghost var t1 := store.State();
    var children := AddChildren(store, net, ctx, codec, ids, now, sections, ids(0), splitMeta);
    r := if children.Err? then Err(children.msg) else Ok(Ingested(ids(0), |sections|, e.estimatedTokens, RootChild, e.meta));
    SplitRunAfterRoot(ctx, codec, net.reply, c, t, config, e, splitMeta, ids, now,
                      Children(ctx, codec, net.reply, c, t1, ids, now, sections, ids(0), splitMeta, |sections|));
  }

  /** When the root row cannot be inserted the split ingestion fails with nothing changed. */
  lemma SplitRunRootFails(ctx: Hsg.Context, codec: Json.Codec, reply: nat -> Embedding.Reply, c: nat, t: Db.Tables, config: Config,
                          e: Extraction, splitMeta: seq<Json.Field>, ids: nat -> string, now: int)
    requires Hsg.ValidContext(ctx, reply)
    ensures var ins := Db.InsMem(t, RootRow(codec, ids(0), e.text, e, splitMeta, now));
      ins.Err? ==> SplitRun(ctx, codec, reply, c, t, config, e, splitMeta, ids, now) == IngestRun(Err(ins.msg), c, t)
  {
  }

  /** Once the root row is in, the split ingestion ends as its children do. */
  lemma SplitRunAfterRoot(ctx: Hsg.Context, codec: Json.Codec, reply: nat -> Embedding.Reply, c: nat, t: Db.Tables, config: Config,
                          e: Extraction, splitMeta: seq<Json.Field>, ids: nat -> string, now: int, ch: ChildRun)
    requires Hsg.ValidContext(ctx, reply)
    requires var ins := Db.InsMem(t, RootRow(codec, ids(0), e.text, e, splitMeta, now));
      ins.Ok? && ch == Children(ctx, codec, reply, c, ins.value, ids, now, Sections(e.text, SectionSizeOf(config)), ids(0), splitMeta,
                                |Sections(e.text, SectionSizeOf(config))|)
    ensures SplitRun(ctx, codec, reply, c, t, config, e, splitMeta, ids, now)
         == IngestRun(if ch.result.Err? then Err(ch.result.msg)
                      else Ok(Ingested(ids(0), |Sections(e.text, SectionSizeOf(config))|, e.estimatedTokens, RootChild, e.meta)),
                      ch.calls, ch.tables)
  {
  }

  /** `ingestDocument`: the same metadata for every strategy. */
  method IngestDocument(store: Database.Store, net: Embedding.Network, ctx: Hsg.Context, codec: Json.Codec, config: Config,
                        e: Extraction, metadata: seq<Json.Field>, ids: nat -> string, now: int)
    returns (r: Result<Ingested>)
    requires store.Valid() && Hsg.ValidContext(ctx, net.reply)
    modifies store, net
    ensures store.Valid()
    ensures old(store.saved).Some? ==>
      r.Err? && store.State() == old(store.State()) && store.saved == old(store.saved) && net.calls == old(net.calls)
    ensures old(store.saved).None? ==>
      && store.saved.None?
      && IngestRun(r, net.calls, store.State()) == Ingest(ctx, codec, net.reply, old(net.calls), old(store.State()), config, e, metadata, metadata, ids, now)
  {
    r := IngestExtraction(store, net, ctx, codec, config, e, metadata, metadata, ids, now);
  }

  /** `{ ...metadata, source_url: url }`. */
  function UrlMeta(metadata: seq<Json.Field>, url: string): seq<Json.Field>
  {
    Json.Spread(Json.Copy(metadata), [Json.Field("source_url", Json.Str(url))])
  }

  /** `ingestURL`: the single memory gets the caller's metadata as is; the root
      and the children also record the URL. */
  method IngestUrl(store: Database.Store, net: Embedding.Network, ctx: Hsg.Context, codec: Json.Codec, config: Config,
                   url: string, e: Extraction, metadata: seq<Json.Field>, ids: nat -> string, now: int)
    returns (r: Result<Ingested>)
    requires store.Valid() && Hsg.ValidContext(ctx, net.reply)
    modifies store, net
    ensures store.Valid()
    ensures old(store.saved).Some? ==>
      r.Err? && store.State() == old(store.State()) && store.saved == old(store.saved) && net.calls == old(net.calls)
    ensures old(store.saved).None? ==>
      && store.saved.None?
      && IngestRun(r, net.calls, store.State())
         == Ingest(ctx, codec, net.reply, old(net.calls), old(store.State()), config, e, metadata, UrlMeta(metadata, url), ids, now)
  {
    r := IngestExtraction(store, net, ctx, codec, config, e, metadata, UrlMeta(metadata, url), ids, now);
  }

  // ---- what an ingestion leaves behind ----------------------------------------------

  /** The memory `id` is stored with this content and metadata column. */
  predicate Stored(t: Db.Tables, id: string, content: string, meta: string)
  {
    Db.GetMem(t, id).Some? && Db.GetMem(t, id).value.content == content && Db.GetMem(t, id).value.meta == meta
  }

  /** A successful add returns the id it was given and stores the content and
      metadata it was given. */
  lemma AddStores(ctx: Hsg.Context, reply: nat -> Embedding.Reply, c: nat, t: Db.Tables, id: string, now: int,
                  content: string, tags: Option<string>, meta: string, metaSector: Option<string>)
    requires Hsg.ValidContext(ctx, reply)
    ensures var a := Hsg.Add(ctx, reply, c, t, id, now, content, tags, meta, metaSector);
      a.result.Ok? ==> a.result.value.id == id && Stored(a.tables, id, content, meta) && !Db.HasMem(t.memories, id)
  {
    Hsg.AddRow(ctx, reply, c, t, id, now, content, tags, meta, metaSector);
    var a := Hsg.Add(ctx, reply, c, t, id, now, content, tags, meta, metaSector);
    if a.result.Ok? {
      var m := Db.GetMem(a.tables, id).value;
      assert m.content == m.(meanVec := None, meanDim := None).content;
    }
  }

  /** One child add changes no memory that was already there. */
  lemma AddChildKeeps(ctx: Hsg.Context, codec: Json.Codec, reply: nat -> Embedding.Reply, c: nat, t: Db.Tables,
                      id: string, now: int, section: string, k: nat, n: nat, rootId: string, meta: seq<Json.Field>, other: string)
    requires Hsg.ValidContext(ctx, reply) && Db.GetMem(t, other).Some?
    ensures Db.GetMem(AddChild(ctx, codec, reply, c, t, id, now, section, k, n, rootId, meta).tables, other) == Db.GetMem(t, other)
  {
    var childMeta := ChildMeta(meta, k, n, rootId);
    var tags, m, sector := Some(EmptyTags), codec.stringify(Json.Obj(childMeta)), Json.Sector(childMeta);
    AddStores(ctx, reply, c, t, id, now, section, tags, m, sector);
    if id != other {
      Hsg.AddKeepsOthers(ctx, reply, c, t, id, now, section, tags, m, sector, other);
    }
  }

  /** A successful child add stores its section under its id, which was new. */
  lemma AddChildStores(ctx: Hsg.Context, codec: Json.Codec, reply: nat -> Embedding.Reply, c: nat, t: Db.Tables,
                       id: string, now: int, section: string, k: nat, n: nat, rootId: string, meta: seq<Json.Field>)
    requires Hsg.ValidContext(ctx, reply)
    ensures var a := AddChild(ctx, codec, reply, c, t, id, now, section, k, n, rootId, meta);
      a.result.Ok? ==>
        && a.result.value.id == id && !Db.HasMem(t.memories, id)
        && Stored(a.tables, id, section, codec.stringify(Json.Obj(ChildMeta(meta, k, n, rootId))))
  {
    var childMeta := ChildMeta(meta, k, n, rootId);
    AddStores(ctx, reply, c, t, id, now, section, Some(EmptyTags), codec.stringify(Json.Obj(childMeta)), Json.Sector(childMeta));
  }

  /** Linking the root to a child leaves the memories as the child add left them. */
  lemma RoundMemories(ctx: Hsg.Context, codec: Json.Codec, reply: nat -> Embedding.Reply, prev: ChildRun,
                      ids: nat -> string, now: int, sections: seq<string>, rootId: string, meta: seq<Json.Field>, k: nat)
    requires Hsg.ValidContext(ctx, reply) && k < |sections| && prev.result.Ok?
    ensures Round(ctx, codec, reply, prev, ids, now, sections, rootId, meta, k).tables.memories
         == AddChild(ctx, codec, reply, prev.calls, prev.tables, ids(k + 1), now, sections[k], k, |sections|, rootId, meta).tables.memories
  {
  }

  /** A round keeps every memory that was there before it. */
  lemma RoundKeeps(ctx: Hsg.Context, codec: Json.Codec, reply: nat -> Embedding.Reply, prev: ChildRun,
                   ids: nat -> string, now: int, sections: seq<string>, rootId: string, meta: seq<Json.Field>, k: nat, other: string)
    requires Hsg.ValidContext(ctx, reply) && k < |sections| && prev.result.Ok? && Db.GetMem(prev.tables, other).Some?
    ensures Db.GetMem(Round(ctx, codec, reply, prev, ids, now, sections, rootId, meta, k).tables, other) == Db.GetMem(prev.tables, other)
  {
    var a := AddChild(ctx, codec, reply, prev.calls, prev.tables, ids(k + 1), now, sections[k], k, |sections|, rootId, meta);
    AddChildKeeps(ctx, codec, reply, prev.calls, prev.tables, ids(k + 1), now, sections[k], k, |sections|, rootId, meta, other);
    RoundMemories(ctx, codec, reply, prev, ids, now, sections, rootId, meta, k);
    SameMemories(Round(ctx, codec, reply, prev, ids, now, sections, rootId, meta, k).tables, a.tables, other);
  }

  /** The children loop never changes a memory that was there before it,
      whether it succeeds or fails. */
  lemma ChildrenKeep(ctx: Hsg.Context, codec: Json.Codec, reply: nat -> Embedding.Reply, c: nat, t: Db.Tables,
                     ids: nat -> string, now: int, sections: seq<string>, rootId: string, meta: seq<Json.Field>,
                     i: nat, other: string)
    requires Hsg.ValidContext(ctx, reply) && i <= |sections| && Db.GetMem(t, other).Some?
    ensures Db.GetMem(Children(ctx, codec, reply, c, t, ids, now, sections, rootId, meta, i).tables, other) == Db.GetMem(t, other)
  {
    var step := ChildStep(ctx, codec, reply, ids, now, sections, rootId, meta);
    var inv := (r: ChildRun, k: nat) => Db.GetMem(r.tables, other) == Db.GetMem(t, other);
    forall r: ChildRun, k: nat | k < |sections| && r.result.Ok? && inv(r, k)
      ensures inv(step(r, k), k + 1)
    {
      RoundKeeps(ctx, codec, reply, r, ids, now, sections, rootId, meta, k, other);
    }
    RoundsInvariant(step, ChildRun(Ok([]), c, t), inv, |sections|, i);
  }

  /** After `i` successful rounds, child `k` has the id `ids(k + 1)` and is
      stored with section `k` as its content and its child metadata. */
  ghost predicate ChildrenAt(ch: ChildRun, codec: Json.Codec, ids: nat -> string, sections: seq<string>, rootId: string,
                             meta: seq<Json.Field>, i: nat)
    requires i <= |sections|
  {
    ch.result.Ok? ==>
      && |ch.result.value| == i
      && forall k :: 0 <= k < i ==>
           && ch.result.value[k] == ids(k + 1)
           && Stored(ch.tables, ids(k + 1), sections[k], codec.stringify(Json.Obj(ChildMeta(meta, k, |sections|, rootId))))
  }

  /** A round after `k` successful ones adds child `k` and keeps the earlier ones. */
  lemma RoundStores(ctx: Hsg.Context, codec: Json.Codec, reply: nat -> Embedding.Reply, prev: ChildRun,
                    ids: nat -> string, now: int, sections: seq<string>, rootId: string, meta: seq<Json.Field>, k: nat)
    requires Hsg.ValidContext(ctx, reply) && k < |sections| && prev.result.Ok?
    requires ChildrenAt(prev, codec, ids, sections, rootId, meta, k)
    ensures ChildrenAt(Round(ctx, codec, reply, prev, ids, now, sections, rootId, meta, k), codec, ids, sections, rootId, meta, k + 1)
  {
    var a := AddChild(ctx, codec, reply, prev.calls, prev.tables, ids(k + 1), now, sections[k], k, |sections|, rootId, meta);
    if a.result.Ok? {
      AddChildStores(ctx, codec, reply, prev.calls, prev.tables, ids(k + 1), now, sections[k], k, |sections|, rootId, meta);
      forall x | Db.GetMem(prev.tables, x).Some?
        ensures Db.GetMem(a.tables, x) == Db.GetMem(prev.tables, x)
      {
        AddChildKeeps(ctx, codec, reply, prev.calls, prev.tables, ids(k + 1), now, sections[k], k, |sections|, rootId, meta, x);
      }
      StoredRound(codec, prev, a, ids, now, sections, rootId, meta, k);
    }
  }

  /** The round itself: a successful add that stored the next section under
      its id and kept every earlier memory. */
  lemma StoredRound(codec: Json.Codec, prev: ChildRun, a: Hsg.AddRun,
                    ids: nat -> string, now: int, sections: seq<string>, rootId: string, meta: seq<Json.Field>, i: nat)
    requires i < |sections| && prev.result.Ok? && a.result.Ok?
    requires ChildrenAt(prev, codec, ids, sections, rootId, meta, i)
    requires a.result.value.id == ids(i + 1)
    requires Stored(a.tables, ids(i + 1), sections[i], codec.stringify(Json.Obj(ChildMeta(meta, i, |sections|, rootId))))
    requires forall x :: Db.GetMem(prev.tables, x).Some? ==> Db.GetMem(a.tables, x) == Db.GetMem(prev.tables, x)
    ensures ChildrenAt(ChildRun(Ok(prev.result.value + [ids(i + 1)]), a.calls, Db.InsWaypoint(a.tables, Link(rootId, ids(i + 1), now))),
                       codec, ids, sections, rootId, meta, i + 1)
  {
    var u := Db.InsWaypoint(a.tables, Link(rootId, ids(i + 1), now));
    var v := prev.result.value + [ids(i + 1)];
    forall k | 0 <= k <= i
      ensures v[k] == ids(k + 1)
      ensures Stored(u, ids(k + 1), sections[k], codec.stringify(Json.Obj(ChildMeta(meta, k, |sections|, rootId))))
    {
      SameMemories(u, a.tables, ids(k + 1));
      if k < i {
        var m := codec.stringify(Json.Obj(ChildMeta(meta, k, |sections|, rootId)));
        assert v[k] == prev.result.value[k];
        assert Stored(prev.tables, ids(k + 1), sections[k], m);
        assert Db.GetMem(a.tables, ids(k + 1)) == Db.GetMem(prev.tables, ids(k + 1));
      }
    }
  }

  /** Lookups only see the memories table. */
  lemma SameMemories(t: Db.Tables, u: Db.Tables, id: string)
    requires t.memories == u.memories
    ensures Db.GetMem(t, id) == Db.GetMem(u, id)
  {
  }

  /** After `i` rounds that succeeded, child `k` is stored under `ids(k + 1)`. */
  lemma ChildrenStored(ctx: Hsg.Context, codec: Json.Codec, reply: nat -> Embedding.Reply, c: nat, t: Db.Tables,
                       ids: nat -> string, now: int, sections: seq<string>, rootId: string, meta: seq<Json.Field>, i: nat)
    requires Hsg.ValidContext(ctx, reply) && i <= |sections|
    ensures ChildrenAt(Children(ctx, codec, reply, c, t, ids, now, sections, rootId, meta, i), codec, ids, sections, rootId, meta, i)
  {
    var step := ChildStep(ctx, codec, reply, ids, now, sections, rootId, meta);
    var inv := (r: ChildRun, k: nat) => k <= |sections| && ChildrenAt(r, codec, ids, sections, rootId, meta, k);
    forall r: ChildRun, k: nat | k < |sections| && r.result.Ok? && inv(r, k)
      ensures inv(step(r, k), k + 1)
    {
      RoundStores(ctx, codec, reply, r, ids, now, sections, rootId, meta, k);
    }
    RoundsInvariant(step, ChildRun(Ok([]), c, t), inv, |sections|, i);
  }

  /** After a successful round the root has exactly one outgoing edge, to
      that round's child. */
  lemma RoundLastEdge(ctx: Hsg.Context, codec: Json.Codec, reply: nat -> Embedding.Reply, prev: ChildRun,
                      ids: nat -> string, now: int, sections: seq<string>, rootId: string, meta: seq<Json.Field>, k: nat)
    requires Hsg.ValidContext(ctx, reply) && k < |sections| && prev.result.Ok?
    ensures var ch := Round(ctx, codec, reply, prev, ids, now, sections, rootId, meta, k);
      ch.result.Ok? ==> forall x :: x in ch.tables.waypoints && x.src == rootId <==> x == Link(rootId, ids(k + 1), now)
  {
    var a := AddChild(ctx, codec, reply, prev.calls, prev.tables, ids(k + 1), now, sections[k], k, |sections|, rootId, meta);
    AddChildStores(ctx, codec, reply, prev.calls, prev.tables, ids(k + 1), now, sections[k], k, |sections|, rootId, meta);
    LastEdgeRound(a, prev.result.value, ids(k + 1), rootId, now);
  }

  /** After at least one successful round the root has exactly one outgoing
      edge, to the last child: each link replaces the one before it. */
  lemma ChildrenLastEdge(ctx: Hsg.Context, codec: Json.Codec, reply: nat -> Embedding.Reply, c: nat, t: Db.Tables,
                         ids: nat -> string, now: int, sections: seq<string>, rootId: string, meta: seq<Json.Field>, i: nat)
    requires Hsg.ValidContext(ctx, reply) && 0 < i <= |sections|
    ensures var ch := Children(ctx, codec, reply, c, t, ids, now, sections, rootId, meta, i);
      ch.result.Ok? ==> forall x :: x in ch.tables.waypoints && x.src == rootId <==> x == Link(rootId, ids(i), now)
  {
    var j: nat := i - 1;
    ChildrenAfter(ctx, codec, reply, c, t, ids, now, sections, rootId, meta, j);
    assert j + 1 == i;
  }

  /** `ChildrenLastEdge` for the round after `j`. */
  lemma ChildrenAfter(ctx: Hsg.Context, codec: Json.Codec, reply: nat -> Embedding.Reply, c: nat, t: Db.Tables,
                      ids: nat -> string, now: int, sections: seq<string>, rootId: string, meta: seq<Json.Field>, j: nat)
    requires Hsg.ValidContext(ctx, reply) && j < |sections|
    ensures var ch := Children(ctx, codec, reply, c, t, ids, now, sections, rootId, meta, j + 1);
      ch.result.Ok? ==> forall x :: x in ch.tables.waypoints && x.src == rootId <==> x == Link(rootId, ids(j + 1), now)
  {
    var step := ChildStep(ctx, codec, reply, ids, now, sections, rootId, meta);
    var init := ChildRun(Ok([]), c, t);
    var prev := Rounds(step, init, j);
    if prev.result.Ok? {
      RoundsNext(step, init, j);
      assert step(prev, j) == Round(ctx, codec, reply, prev, ids, now, sections, rootId, meta, j);
      RoundLastEdge(ctx, codec, reply, prev, ids, now, sections, rootId, meta, j);
    }
  }

  /** A successful round leaves the root with the edge to its child only. */
  lemma LastEdgeRound(a: Hsg.AddRun, childIds: seq<string>, id: string, rootId: string, now: int)
    requires a.result.Ok? ==> a.result.value.id == id
    ensures var ch := if a.result.Err? then ChildRun(Err(a.result.msg), a.calls, a.tables)
                      else ChildRun(Ok(childIds + [a.result.value.id]), a.calls, Db.InsWaypoint(a.tables, Link(rootId, a.result.value.id, now)));
      ch.result.Ok? ==> forall x :: x in ch.tables.waypoints && x.src == rootId <==> x == Link(rootId, id, now)
  {
    if a.result.Ok? {
      InsWaypointOnly(a.tables, Link(rootId, id, now));
    }
  }

  /** The single strategy answers with the new memory's id and no children,
      and stores the whole text with the single-strategy metadata; when it
      fails the tables are as they were. */
  lemma IngestSingle(ctx: Hsg.Context, codec: Json.Codec, reply: nat -> Embedding.Reply, c: nat, t: Db.Tables, config: Config,
                     e: Extraction, singleMeta: seq<Json.Field>, splitMeta: seq<Json.Field>, ids: nat -> string, now: int)
    requires Hsg.ValidContext(ctx, reply) && !UseRootChild(config, e.estimatedTokens)
    ensures var r := Ingest(ctx, codec, reply, c, t, config, e, singleMeta, splitMeta, ids, now);
      && (r.result.Ok? ==>
            && r.result.value == Ingested(ids(0), 0, e.estimatedTokens, Single, e.meta)
            && Stored(r.tables, ids(0), e.text, codec.stringify(Json.Obj(SingleMeta(singleMeta, e, now)))))
      && (r.result.Err? ==> r.tables == t)
  {
    var meta := SingleMeta(singleMeta, e, now);
    AddStores(ctx, reply, c, t, ids(0), now, e.text, Some(EmptyTags), codec.stringify(Json.Obj(meta)), Json.Sector(meta));
  }

  /** Once the root is inserted it stays, whatever happens to the children:
      ingestion is not atomic, and a failed child leaves the root and the
      children before it in place. */
  lemma IngestKeepsRoot(ctx: Hsg.Context, codec: Json.Codec, reply: nat -> Embedding.Reply, c: nat, t: Db.Tables, config: Config,
                        e: Extraction, singleMeta: seq<Json.Field>, splitMeta: seq<Json.Field>, ids: nat -> string, now: int)
    requires Hsg.ValidContext(ctx, reply) && UseRootChild(config, e.estimatedTokens) && !Db.HasMem(t.memories, ids(0))
    ensures Db.GetMem(Ingest(ctx, codec, reply, c, t, config, e, singleMeta, splitMeta, ids, now).tables, ids(0))
         == Some(RootRow(codec, ids(0), e.text, e, splitMeta, now))
  {
    var sections := Sections(e.text, SectionSizeOf(config));
    var root := RootRow(codec, ids(0), e.text, e, splitMeta, now);
    var u := t.(memories := t.memories + [root]);
    Hsg.FindAppended(t.memories, root);
    assert Db.GetMem(u, ids(0)) == Some(root);
    ChildrenKeep(ctx, codec, reply, c, u, ids, now, sections, ids(0), splitMeta, |sections|, ids(0));
  }

  /** The root-child strategy answers with the root's id and one child per
      section; the root row is stored, child `k` holds section `k` under the
      id `ids(k + 1)` with its child metadata, and of the links from the root
      only the one to the last child is left. */
  lemma IngestRootChild(ctx: Hsg.Context, codec: Json.Codec, reply: nat -> Embedding.Reply, c: nat, t: Db.Tables, config: Config,
                        e: Extraction, singleMeta: seq<Json.Field>, splitMeta: seq<Json.Field>, ids: nat -> string, now: int)
    requires Hsg.ValidContext(ctx, reply) && UseRootChild(config, e.estimatedTokens)
    ensures var r := Ingest(ctx, codec, reply, c, t, config, e, singleMeta, splitMeta, ids, now);
      var sections := Sections(e.text, SectionSizeOf(config));
      r.result.Ok? ==>
        && r.result.value == Ingested(ids(0), |sections|, e.estimatedTokens, RootChild, e.meta)
        && Db.GetMem(r.tables, ids(0)) == Some(RootRow(codec, ids(0), e.text, e, splitMeta, now))
        && (forall k :: 0 <= k < |sections| ==>
              Stored(r.tables, ids(k + 1), sections[k], codec.stringify(Json.Obj(ChildMeta(splitMeta, k, |sections|, ids(0))))))
        && (|sections| > 0 ==>
              forall x :: x in r.tables.waypoints && x.src == ids(0) <==> x == Link(ids(0), ids(|sections|), now))
  {
    var r := Ingest(ctx, codec, reply, c, t, config, e, singleMeta, splitMeta, ids, now);
    var sections := Sections(e.text, SectionSizeOf(config));
    var root := RootRow(codec, ids(0), e.text, e, splitMeta, now);
    if r.result.Ok? {
      var u := t.(memories := t.memories + [root]);
      var ch := Children(ctx, codec, reply, c, u, ids, now, sections, ids(0), splitMeta, |sections|);
      assert r.tables == ch.tables;
      IngestKeepsRoot(ctx, codec, reply, c, t, config, e, singleMeta, splitMeta, ids, now);
      ChildrenStored(ctx, codec, reply, c, u, ids, now, sections, ids(0), splitMeta, |sections|);
      if |sections| > 0 {
        ChildrenLastEdge(ctx, codec, reply, c, u, ids, now, sections, ids(0), splitMeta, |sections|);
      }
    }
  }
}
