/** `hsgQuery`: classify the query, embed it once per searched sector, rank each
    sector's vectors by cosine similarity and keep the top `k`, widen the hits
    along the waypoint graph, score every memory reached, return the `k` best
    and mark them seen. There is no `try`: an embedding or decoding error is
    thrown before anything is written. */
module Query {
  import opened Wrappers
  import opened Numeric
  import Js
  import Codec
  import Sectors
  import Vectors
  import Sorting
  import Db
  import Database
  import Embedding
  import Waypoints
  import Hsg

  // ---- the sectors searched -------------------------------------------------------

  /** `filters.sectors` counts only when it is given and non-empty. */
  predicate Allowed(filter: Option<seq<string>>, s: string)
  {
    filter.None? || |filter.value| == 0 || s in filter.value
  }

  function AllowedBy(filter: Option<seq<string>>): string -> bool
  {
    s => Allowed(filter, s)
  }

  /** The candidate sectors kept by the filter, or `['semantic']` when none is kept. */
  function SearchSectors(candidates: seq<string>, filter: Option<seq<string>>): seq<string>
  {
    var kept := Js.Filter(candidates, AllowedBy(filter));
    if kept == [] then ["semantic"] else kept
  }

  /** A sector is searched exactly when it is a candidate the filter allows, or
      it is `semantic` and the filter allows no candidate. */
  lemma SearchSectorsFacts(candidates: seq<string>, filter: Option<seq<string>>)
    ensures var r := SearchSectors(candidates, filter);
      && r != []
      && forall s :: s in r <==>
           (s in candidates && Allowed(filter, s))
           || (s == "semantic" && forall c :: c in candidates ==> !Allowed(filter, c))
  {
    Js.FilterContains(candidates, AllowedBy(filter));
    var kept := Js.Filter(candidates, AllowedBy(filter));
    if kept != [] {
      assert kept[0] in candidates && Allowed(filter, kept[0]);
    }
  }

  // ---- one query vector per sector ------------------------------------------------------

  /** `embedForSector(queryText, sector)` for each searched sector in turn; the
      first failure is thrown. */
  function QueryVectors(ctx: Hsg.Context, reply: nat -> Embedding.Reply, c: nat, text: string, sectors: seq<string>)
    : (r: Embedding.Call<seq<seq<real>>>)
    requires Embedding.ValidRuntime(ctx.rt)
    ensures r.result.Ok? ==> |r.result.value| == |sectors|
    ensures c <= r.calls
    decreases |sectors|
  {
    if sectors == [] then Embedding.Call(Ok([]), c)
    else
      var p := QueryVectors(ctx, reply, c, text, sectors[..|sectors| - 1]);
      if p.result.Err? then p
      else
        var e := Embedding.EmbedFor(ctx.env, ctx.rt, reply, p.calls, text, sectors[|sectors| - 1]);
        if e.result.Err? then Embedding.Call(Err(e.result.msg), e.calls)
        else Embedding.Call(Ok(p.result.value + [e.result.value]), e.calls)
  }

  /** With a provider of fixed dimension every query vector has `vecDim` entries,
      and an unknown sector among those searched makes the query fail. */
  lemma {:induction false} QueryVectorsFacts(ctx: Hsg.Context, reply: nat -> Embedding.Reply, c: nat, text: string, sectors: seq<string>)
    requires Hsg.ValidContext(ctx, reply)
    ensures var r := QueryVectors(ctx, reply, c, text, sectors);
      && (r.result.Ok? ==> forall i :: 0 <= i < |sectors| ==> |r.result.value[i]| == ctx.env.vecDim)
      && ((exists i :: 0 <= i < |sectors| && Sectors.Parse(sectors[i]).None?) ==> r.result.Err?)
    decreases |sectors|
  {
    if sectors != [] {
      var init := sectors[..|sectors| - 1];
      QueryVectorsFacts(ctx, reply, c, text, init);
      var r := QueryVectors(ctx, reply, c, text, sectors);
      if exists i :: 0 <= i < |sectors| && Sectors.Parse(sectors[i]).None? {
        var i :| 0 <= i < |sectors| && Sectors.Parse(sectors[i]).None?;
        if i < |init| {
          assert init[i] == sectors[i];
        }
      }
    }
  }

  method EmbedQueries(net: Embedding.Network, ctx: Hsg.Context, text: string, sectors: seq<string>)
    returns (r: Result<seq<seq<real>>>)
    requires Embedding.ValidRuntime(ctx.rt)
    modifies net
    ensures Embedding.Call(r, net.calls) == QueryVectors(ctx, net.reply, old(net.calls), text, sectors)
  {
    var queryEmbeddings: seq<seq<real>> := [];
    for i := 0 to |sectors|
      invariant QueryVectors(ctx, net.reply, old(net.calls), text, sectors[..i]) == Embedding.Call(Ok(queryEmbeddings), net.calls)
    {
      Js.PrefixSlice(sectors, i, i + 1);
      var v := Embedding.EmbedForSector(net, ctx.env, ctx.rt, text, sectors[i]);
      if v.Err? {
        QueryVectorsStop(ctx, net.reply, old(net.calls), text, sectors, i + 1);
        return Err(v.msg);
      }
      queryEmbeddings := queryEmbeddings + [v.value];
    }
    Js.WholeSlice(sectors);
    r := Ok(queryEmbeddings);
  }

  /** Once an embedding fails, the later sectors are not asked for. */
  lemma {:induction false} QueryVectorsStop(ctx: Hsg.Context, reply: nat -> Embedding.Reply, c: nat, text: string, sectors: seq<string>, i: nat)
    requires Embedding.ValidRuntime(ctx.rt)
    requires i <= |sectors| && QueryVectors(ctx, reply, c, text, sectors[..i]).result.Err?
    ensures QueryVectors(ctx, reply, c, text, sectors) == QueryVectors(ctx, reply, c, text, sectors[..i])
    decreases |sectors|
  {
    if i < |sectors| {
      Js.PrefixSlice(sectors, i, |sectors| - 1);
      QueryVectorsStop(ctx, reply, c, text, sectors[..|sectors| - 1], i);
    } else {
      Js.WholeSlice(sectors);
    }
  }

  // ---- ranking by a score ---------------------------------------------------------------

  /** `sort((a, b) => key(b) - key(a)).slice(0, k)`. */
  function Top<T>(s: seq<T>, key: T -> real, k: int): seq<T>
  {
    Js.SliceTo(Sorting.SortDesc(s, key), k)
  }

  /** The `k` kept are sorted, come from the input, number at most `k`, and no
      element left out scores above any element kept. */
  lemma TopFacts<T>(s: seq<T>, key: T -> real, k: int)
    ensures var r := Top(s, key, k);
      && Sorting.SortedDesc(r, key)
      && (k >= 0 ==> |r| == if k <= |s| then k else |s|)
      && (forall x :: x in r ==> x in s)
      && (forall x, y :: x in s && x !in r && y in r ==> key(x) <= key(y))
  {
    var sorted := Sorting.SortDesc(s, key);
    var r := Top(s, key, k);
    Sorting.SortDescSorted(s, key);
    assert r == sorted[..|r|];
    forall x | x in r ensures x in s {
      assert x in multiset(sorted);
    }
    forall x, y | x in s && x !in r && y in r ensures key(x) <= key(y) {
      TopExcludes(s, key, k, x, y);
    }
  }

  lemma TopExcludes<T>(s: seq<T>, key: T -> real, k: int, x: T, y: T)
    requires x in s && x !in Top(s, key, k) && y in Top(s, key, k)
    ensures key(x) <= key(y)
  {
    var sorted := Sorting.SortDesc(s, key);
    var r := Top(s, key, k);
    Sorting.SortDescSorted(s, key);
    assert r == sorted[..|r|];
    assert x in multiset(sorted);
    var i :| 0 <= i < |sorted| && sorted[i] == x;
    var j :| 0 <= j < |r| && r[j] == y;
    assert forall p :: 0 <= p < |r| ==> r[p] == sorted[p];
    assert sorted[j] == y;
  }

  // ---- one sector's nearest vectors ------------------------------------------------------

  /** `{ id, similarity }`. */
  datatype Hit = Hit(id: string, similarity: real)

  function Similarity(h: Hit): real
  {
    h.similarity
  }

  /** Cosine similarity to the query vector. */
  function CosineTo(m: Math, qv: seq<real>): seq<real> --> real
  {
    v requires ValidMath(m) => Vectors.Cosine(m, qv, v)
  }

  /** One hit per stored vector of the sector, in rowid order, scored by `sim`;
      a vector whose bytes do not decode throws. */
  function Similarities(sim: seq<real> --> real, f: Codec.Binary32, rows: seq<Db.VectorRow>): (r: Result<seq<Hit>>)
    requires forall v :: sim.requires(v)
    decreases |rows|
  {
    if rows == [] then Ok([])
    else
      var p := Similarities(sim, f, rows[..|rows| - 1]);
      var d := Codec.Decode(f, rows[|rows| - 1].v);
      if p.Err? then p
      else if d.Err? then Err(d.msg)
      else Ok(p.value + [Hit(rows[|rows| - 1].id, sim(d.value))])
  }

  /** The scan fails exactly when some vector does not decode; otherwise entry
      `i` is row `i`'s id with the score of its decoded vector. */
  lemma SimilaritiesFacts(sim: seq<real> --> real, f: Codec.Binary32, rows: seq<Db.VectorRow>)
    requires forall v :: sim.requires(v)
    ensures var r := Similarities(sim, f, rows);
      && (r.Err? <==> exists i :: 0 <= i < |rows| && Codec.Decode(f, rows[i].v).Err?)
      && (r.Ok? ==> |r.value| == |rows| && forall i :: 0 <= i < |rows| ==>
            && Codec.Decode(f, rows[i].v).Ok?
            && r.value[i] == Hit(rows[i].id, sim(Codec.Decode(f, rows[i].v).value)))
  {
    SimilaritiesFail(sim, f, rows);
    SimilaritiesHits(sim, f, rows);
  }

  lemma {:induction false} SimilaritiesFail(sim: seq<real> --> real, f: Codec.Binary32, rows: seq<Db.VectorRow>)
    requires forall v :: sim.requires(v)
    ensures Similarities(sim, f, rows).Err? <==> exists i :: 0 <= i < |rows| && |rows[i].v| % 4 != 0
    decreases |rows|
  {
    if rows != [] {
      var n := |rows| - 1;
      var init := rows[..n];
      SimilaritiesFail(sim, f, init);
      if Similarities(sim, f, init).Err? {
        var i :| 0 <= i < n && |init[i].v| % 4 != 0;
        assert rows[i] == init[i];
      } else if |rows[n].v| % 4 == 0 {
        forall i | 0 <= i < |rows|
          ensures |rows[i].v| % 4 == 0
        {
          if i < n {
            assert rows[i] == init[i];
          }
        }
      }
    }
  }

  lemma {:induction false} SimilaritiesHits(sim: seq<real> --> real, f: Codec.Binary32, rows: seq<Db.VectorRow>)
    requires forall v :: sim.requires(v)
    ensures var r := Similarities(sim, f, rows);
      r.Ok? ==> |r.value| == |rows| && forall i :: 0 <= i < |rows| ==>
        && Codec.Decode(f, rows[i].v).Ok?
        && r.value[i] == Hit(rows[i].id, sim(Codec.Decode(f, rows[i].v).value))
    decreases |rows|
  {
    if rows != [] {
      var n := |rows| - 1;
      var init := rows[..n];
      SimilaritiesHits(sim, f, init);
      var r := Similarities(sim, f, rows);
      var p := Similarities(sim, f, init);
      if r.Ok? {
        var d := Codec.Decode(f, rows[n].v);
        assert p.Ok? && d.Ok? && r.value == p.value + [Hit(rows[n].id, sim(d.value))];
        forall i | 0 <= i < |rows|
          ensures Codec.Decode(f, rows[i].v).Ok?
          ensures r.value[i] == Hit(rows[i].id, sim(Codec.Decode(f, rows[i].v).value))
        {
          if i < n {
            assert rows[i] == init[i] && r.value[i] == p.value[i];
            assert Codec.Decode(f, rows[i].v) == Codec.Decode(f, init[i].v);
          } else {
            assert Codec.Decode(f, rows[i].v) == d;
          }
        }
      }
    }
  }

  /** One more decoded row extends the scan by its hit. */
  lemma SimilaritiesStep(sim: seq<real> --> real, f: Codec.Binary32, rows: seq<Db.VectorRow>, i: nat, acc: seq<Hit>, v: seq<real>)
    requires forall v :: sim.requires(v)
    requires i < |rows| && Similarities(sim, f, rows[..i]).Ok? && Similarities(sim, f, rows[..i]).value == acc
    requires Codec.Decode(f, rows[i].v).Ok? && Codec.Decode(f, rows[i].v).value == v
    ensures Similarities(sim, f, rows[..i + 1]).Ok?
    ensures Similarities(sim, f, rows[..i + 1]).value == acc + [Hit(rows[i].id, sim(v))]
  {
    Js.PrefixSlice(rows, i, i + 1);
  }

  lemma {:induction false} SimilaritiesStop(sim: seq<real> --> real, f: Codec.Binary32, rows: seq<Db.VectorRow>, i: nat)
    requires forall v :: sim.requires(v)
    requires i <= |rows| && Similarities(sim, f, rows[..i]).Err?
    ensures Similarities(sim, f, rows).Err? && Similarities(sim, f, rows).msg == Similarities(sim, f, rows[..i]).msg
    decreases |rows|
  {
    if i < |rows| {
      Js.PrefixSlice(rows, i, |rows| - 1);
      SimilaritiesStop(sim, f, rows[..|rows| - 1], i);
    } else {
      Js.WholeSlice(rows);
    }
  }

  /** `similarities.sort(...).slice(0, k)` over `get_vecs_by_sector(sector)`. */
  function SectorSearch(m: Math, f: Codec.Binary32, t: Db.Tables, sector: string, qv: seq<real>, k: int): Result<seq<Hit>>
    requires ValidMath(m)
  {
    var s := Similarities(CosineTo(m, qv), f, Db.GetVecsBySector(t, sector));
    if s.Err? then Err(s.msg) else Ok(Top(s.value, Similarity, k))
  }

  /** A sector's hits are at most `k` of its stored vectors, best first, each
      scored by its cosine similarity to the query vector. */
  lemma SectorSearchHits(m: Math, f: Codec.Binary32, t: Db.Tables, sector: string, qv: seq<real>, k: int)
    requires ValidMath(m)
    ensures var r := SectorSearch(m, f, t, sector, qv, k);
      r.Ok? ==>
        && Sorting.SortedDesc(r.value, Similarity)
        && (k >= 0 ==> |r.value| <= k)
        && forall h :: h in r.value ==>
             exists v :: (v in t.vectors && v.sector == sector && v.id == h.id && Codec.Decode(f, v.v).Ok?
                          && h.similarity == Vectors.Cosine(m, qv, Codec.Decode(f, v.v).value))
  {
    var rows := Db.GetVecsBySector(t, sector);
    var s := Similarities(CosineTo(m, qv), f, rows);
    SimilaritiesFacts(CosineTo(m, qv), f, rows);
    if s.Ok? {
      TopFacts(s.value, Similarity, k);
      var r := Top(s.value, Similarity, k);
      forall h | h in r
        ensures exists v :: (v in t.vectors && v.sector == sector && v.id == h.id && Codec.Decode(f, v.v).Ok?
                             && h.similarity == Vectors.Cosine(m, qv, Codec.Decode(f, v.v).value))
      {
        var i :| 0 <= i < |s.value| && s.value[i] == h;
        assert rows[i] in rows;
      }
    }
  }

  /** Every vector of the sector decodes, and none left out of the hits is more
      similar than one kept. */
  lemma SectorSearchBest(m: Math, f: Codec.Binary32, t: Db.Tables, sector: string, qv: seq<real>, k: int)
    requires ValidMath(m)
    ensures var r := SectorSearch(m, f, t, sector, qv, k);
      r.Ok? ==>
        forall v, h :: v in t.vectors && v.sector == sector && h in r.value ==>
          && Codec.Decode(f, v.v).Ok?
          && (Hit(v.id, Vectors.Cosine(m, qv, Codec.Decode(f, v.v).value)) !in r.value ==>
                Vectors.Cosine(m, qv, Codec.Decode(f, v.v).value) <= h.similarity)
  {
    var rows := Db.GetVecsBySector(t, sector);
    var s := Similarities(CosineTo(m, qv), f, rows);
    SimilaritiesFacts(CosineTo(m, qv), f, rows);
    if s.Ok? {
      var r := Top(s.value, Similarity, k);
      forall v, h | v in t.vectors && v.sector == sector && h in r
        ensures && Codec.Decode(f, v.v).Ok?
                && (Hit(v.id, Vectors.Cosine(m, qv, Codec.Decode(f, v.v).value)) !in r ==>
                      Vectors.Cosine(m, qv, Codec.Decode(f, v.v).value) <= h.similarity)
      {
        var i :| 0 <= i < |rows| && rows[i] == v;
        var x := s.value[i];
        assert Codec.Decode(f, v.v).Ok? && x == Hit(v.id, Vectors.Cosine(m, qv, Codec.Decode(f, v.v).value));
        if x !in r {
          TopExcludes(s.value, Similarity, k, x, h);
        }
      }
    }
  }

  /** The inner loops of `hsgQuery` for one sector. */
  method SearchSector(store: Database.Store, m: Math, f: Codec.Binary32, sector: string, queryVec: seq<real>, k: int)
    returns (r: Result<seq<Hit>>)
    requires ValidMath(m)
    ensures r == SectorSearch(m, f, store.State(), sector, queryVec, k)
  {
    var vectors := Db.GetVecsBySector(store.State(), sector);
    var similarities: seq<Hit> := [];
    for i := 0 to |vectors|
      invariant Similarities(CosineTo(m, queryVec), f, vectors[..i]).Ok?
      invariant Similarities(CosineTo(m, queryVec), f, vectors[..i]).value == similarities
    {
      Js.PrefixSlice(vectors, i, i + 1);
      var memoryVec := Waypoints.Load(f, vectors[i].v);
      if memoryVec.Err? {
        SimilaritiesStop(CosineTo(m, queryVec), f, vectors, i + 1);
        return Err(memoryVec.msg);
      }
      var similarity := Vectors.CosineSimilarity(m, queryVec, memoryVec.value);
      assert CosineTo(m, queryVec)(memoryVec.value) == similarity;
      SimilaritiesStep(CosineTo(m, queryVec), f, vectors, i, similarities, memoryVec.value);
      similarities := similarities + [Hit(vectors[i].id, similarity)];
    }
    Js.WholeSlice(vectors);
    r := Ok(Top(similarities, Similarity, k));
  }

  // ---- every searched sector ---------------------------------------------------------------

  /** `sectorResults[sector]`; the sectors searched are distinct (the
      classification names each sector once), so the record is a sequence in
      insertion order. */
  datatype SectorHits = SectorHits(sector: string, hits: seq<Hit>)

  /** One sector's search over the tables `t`. */
  function Searcher(m: Math, f: Codec.Binary32, t: Db.Tables, k: int): (string, seq<real>) --> Result<seq<Hit>>
  {
    (sector, qv) requires ValidMath(m) => SectorSearch(m, f, t, sector, qv, k)
  }

  /** Each sector searched in turn with its query vector; the first failure is thrown. */
  function SearchAll(search: (string, seq<real>) --> Result<seq<Hit>>, sectors: seq<string>, qvs: seq<seq<real>>)
    : (r: Result<seq<SectorHits>>)
    requires |qvs| == |sectors| && forall s, q :: search.requires(s, q)
    ensures r.Ok? ==> |r.value| == |sectors|
    decreases |sectors|
  {
    if sectors == [] then Ok([])
    else
      var n := |sectors| - 1;
      var p := SearchAll(search, sectors[..n], qvs[..n]);
      if p.Err? then p
      else
        var h := search(sectors[n], qvs[n]);
        if h.Err? then Err(h.msg) else Ok(p.value + [SectorHits(sectors[n], h.value)])
  }

  /** Entry `i` holds the hits of the `i`-th sector searched. */
  lemma {:induction false} SearchAllHits(search: (string, seq<real>) --> Result<seq<Hit>>, sectors: seq<string>, qvs: seq<seq<real>>)
    requires |qvs| == |sectors| && (forall s, q :: search.requires(s, q)) && SearchAll(search, sectors, qvs).Ok?
    ensures var r := SearchAll(search, sectors, qvs).value;
      forall i :: 0 <= i < |sectors| ==>
        r[i].sector == sectors[i] && search(sectors[i], qvs[i]).Ok? && search(sectors[i], qvs[i]).value == r[i].hits
    decreases |sectors|
  {
    if sectors != [] {
      var n := |sectors| - 1;
      SearchAllHits(search, sectors[..n], qvs[..n]);
      var r := SearchAll(search, sectors, qvs).value;
      var p := SearchAll(search, sectors[..n], qvs[..n]).value;
      forall i | 0 <= i < n
        ensures r[i].sector == sectors[i] && search(sectors[i], qvs[i]).Ok? && search(sectors[i], qvs[i]).value == r[i].hits
      {
        assert r[i] == p[i] && sectors[..n][i] == sectors[i] && qvs[..n][i] == qvs[i];
      }
    }
  }

  lemma {:induction false} SearchAllStop(search: (string, seq<real>) --> Result<seq<Hit>>, sectors: seq<string>, qvs: seq<seq<real>>, i: nat)
    requires |qvs| == |sectors| && forall s, q :: search.requires(s, q)
    requires i <= |sectors| && SearchAll(search, sectors[..i], qvs[..i]).Err?
    ensures SearchAll(search, sectors, qvs).Err?
    ensures SearchAll(search, sectors, qvs).msg == SearchAll(search, sectors[..i], qvs[..i]).msg
    decreases |sectors|
  {
    var n := |sectors| - 1;
    if i < |sectors| {
      assert sectors[..n][..i] == sectors[..i] && qvs[..n][..i] == qvs[..i];
      SearchAllStop(search, sectors[..n], qvs[..n], i);
    } else {
      assert sectors[..i] == sectors && qvs[..i] == qvs;
    }
  }

  /** One more sector searched. */
  lemma SearchAllStep(search: (string, seq<real>) --> Result<seq<Hit>>, sectors: seq<string>, qvs: seq<seq<real>>, i: nat)
    requires |qvs| == |sectors| && (forall s, q :: search.requires(s, q)) && i < |sectors|
    ensures var p := SearchAll(search, sectors[..i], qvs[..i]);
      var h := search(sectors[i], qvs[i]);
      SearchAll(search, sectors[..i + 1], qvs[..i + 1])
        == if p.Err? then p else if h.Err? then Err(h.msg) else Ok(p.value + [SectorHits(sectors[i], h.value)])
  {
    assert sectors[..i + 1][..i] == sectors[..i] && qvs[..i + 1][..i] == qvs[..i];
  }

  method SearchSectorsIn(store: Database.Store, m: Math, f: Codec.Binary32, sectors: seq<string>, queryEmbeddings: seq<seq<real>>, k: int)
    returns (r: Result<seq<SectorHits>>)
    requires ValidMath(m) && |queryEmbeddings| == |sectors|
    ensures r == SearchAll(Searcher(m, f, store.State(), k), sectors, queryEmbeddings)
  {
    ghost var search := Searcher(m, f, store.State(), k);
    var sectorResults: seq<SectorHits> := [];
    for i := 0 to |sectors|
      invariant SearchAll(search, sectors[..i], queryEmbeddings[..i]) == Ok(sectorResults)
    {
      assert sectors[..i + 1][..i] == sectors[..i] && queryEmbeddings[..i + 1][..i] == queryEmbeddings[..i];
      var hits := SearchSector(store, m, f, sectors[i], queryEmbeddings[i], k);
      assert search(sectors[i], queryEmbeddings[i]) == hits;
      SearchAllStep(search, sectors, queryEmbeddings, i);
      if hits.Err? {
        SearchAllStop(search, sectors, queryEmbeddings, i + 1);
        return Err(hits.msg);
      }
      sectorResults := sectorResults + [SectorHits(sectors[i], hits.value)];
    }
    assert sectors[..|sectors|] == sectors && queryEmbeddings[..|sectors|] == queryEmbeddings;
    r := Ok(sectorResults);
  }

  /** The sectors searched for a query: its classification, no metadata, through the filter. */
  function QuerySectors(ctx: Hsg.Context, text: string, filter: Option<seq<string>>): seq<string>
  {
    SearchSectors(Hsg.AllSectors(Sectors.Classify(ctx.hit, text, None)), filter)
  }

  /** Everything `hsgQuery` does before the expansion: the query vectors, then
      each sector's hits. */
  function Searched(ctx: Hsg.Context, reply: nat -> Embedding.Reply, c: nat, t: Db.Tables, text: string, k: int,
                    filter: Option<seq<string>>): Embedding.Call<seq<SectorHits>>
    requires Embedding.ValidRuntime(ctx.rt)
  {
    var sectors := QuerySectors(ctx, text, filter);
    var q := QueryVectors(ctx, reply, c, text, sectors);
    if q.result.Err? then Embedding.Call(Err(q.result.msg), q.calls)
    else Embedding.Call(SearchAll(Searcher(ctx.rt.math, ctx.f, t, k), sectors, q.result.value), q.calls)
  }

  // ---- the memories reached ------------------------------------------------------------

  function HitIds(hits: seq<Hit>): (r: seq<string>)
    ensures |r| == |hits| && forall i :: 0 <= i < |hits| ==> r[i] == hits[i].id
  {
    seq(|hits|, i requires 0 <= i < |hits| => hits[i].id)
  }

  function AllHitIds(sh: seq<SectorHits>): seq<string>
    decreases |sh|
  {
    if sh == [] then [] else AllHitIds(sh[..|sh| - 1]) + HitIds(sh[|sh| - 1].hits)
  }

  /** `allMemoryIds` before the expansion: every hit's id once, in order. */
  function Seeds(sh: seq<SectorHits>): seq<string>
  {
    Js.Dedup(AllHitIds(sh))
  }

  function ItemIds(items: seq<Waypoints.Item>): (r: seq<string>)
    ensures |r| == |items| && forall i :: 0 <= i < |items| ==> r[i] == items[i].id
  {
    seq(|items|, i requires 0 <= i < |items| => items[i].id)
  }

  /** `allMemoryIds` after the expansion. */
  function Reached(sh: seq<SectorHits>, expanded: seq<Waypoints.Item>): seq<string>
  {
    Js.Dedup(Seeds(sh) + ItemIds(expanded))
  }

  // ---- scoring a memory ----------------------------------------------------------------

  /** `results.find(r => r.id === id)`. */
  function FindHit(hits: seq<Hit>, id: string): (r: Option<real>)
    ensures r.Some? ==> Hit(id, r.value) in hits
    ensures r.None? <==> forall h :: h in hits ==> h.id != id
  {
    if hits == [] then None
    else if hits[0].id == id then Some(hits[0].similarity)
    else FindHit(hits[1..], id)
  }

  /** The best similarity among the sectors that hit the memory, starting from
      0; a later sector wins only with a strictly larger value. */
  function BestSimilarity(sh: seq<SectorHits>, id: string): real
    decreases |sh|
  {
    if sh == [] then 0.0
    else
      var b := BestSimilarity(sh[..|sh| - 1], id);
      var found := FindHit(sh[|sh| - 1].hits, id);
      if found.Some? && found.value > b then found.value else b
  }

  /** `expandedResults.find(e => e.id === id)`. */
  function FindItem(items: seq<Waypoints.Item>, id: string): (r: Option<Waypoints.Item>)
    ensures r.Some? ==> r.value in items && r.value.id == id
  {
    if items == [] then None
    else if items[0].id == id then Some(items[0])
    else FindItem(items[1..], id)
  }

  /** One entry of `finalResults`. */
  datatype QueryResult = QueryResult(id: string, content: string, score: real, sectors: seq<string>,
                                     primarySector: string, path: seq<string>, salience: real, lastSeenAt: int)

  function Score(x: QueryResult): real
  {
    x.score
  }

  /** `filters?.minSalience && memory.salience < filters.minSalience`: a
      threshold of 0 or none filters nothing. */
  predicate BelowMin(minSalience: Option<real>, salience: real)
  {
    minSalience.Some? && minSalience.value != 0.0 && salience < minSalience.value
  }

  function VecSectors(rows: seq<Db.VectorRow>): (r: seq<string>)
    ensures |r| == |rows| && forall i :: 0 <= i < |rows| ==> r[i] == rows[i].sector
  {
    seq(|rows|, i requires 0 <= i < |rows| => rows[i].sector)
  }

  /** The entry for one id, or none for a missing memory or one below the threshold. */
  function Candidate(m: Math, t: Db.Tables, sh: seq<SectorHits>, expanded: seq<Waypoints.Item>, id: string,
                     minSalience: Option<real>, now: int): Option<QueryResult>
  {
    var mem := Db.GetMem(t, id);
    if mem.None? || BelowMin(minSalience, mem.value.salience) then None
    else
      var memory := mem.value;
      var item := FindItem(expanded, id);
      var waypointWeight := if item.Some? then item.value.weight else 0.0;
      var salience := Sectors.CalculateDecay(m, memory.primarySector, memory.salience, DaysBetween(memory.lastSeenAt, now));
      var score := Sectors.RetrievalScore(m, now, BestSimilarity(sh, id), salience, memory.lastSeenAt, waypointWeight);
      var path := if item.Some? then item.value.path else [id];
      Some(QueryResult(id, memory.content, score, VecSectors(Db.GetVecsById(t, id)), memory.primarySector, path, salience, memory.lastSeenAt))
  }

  /** The entries `entry` gives for `ids`, in order, skipping the ids it gives none for. */
  function Collect<T>(ids: seq<string>, entry: string -> Option<T>): seq<T>
    decreases |ids|
  {
    if ids == [] then []
    else
      var p := Collect(ids[..|ids| - 1], entry);
      var c := entry(ids[|ids| - 1]);
      if c.Some? then p + [c.value] else p
  }

  function Entry(m: Math, t: Db.Tables, sh: seq<SectorHits>, expanded: seq<Waypoints.Item>,
                 minSalience: Option<real>, now: int): string -> Option<QueryResult>
  {
    id => Candidate(m, t, sh, expanded, id, minSalience, now)
  }

  function ResultId(x: QueryResult): string
  {
    x.id
  }

  /** `finalResults`: the entries for the reached ids, in their order. */
  function Candidates(m: Math, t: Db.Tables, sh: seq<SectorHits>, expanded: seq<Waypoints.Item>, ids: seq<string>,
                      minSalience: Option<real>, now: int): seq<QueryResult>
  {
    Collect(ids, Entry(m, t, sh, expanded, minSalience, now))
  }

  /** `finalResults.sort(...).slice(0, k)`. */
  function Results(m: Math, t: Db.Tables, sh: seq<SectorHits>, expanded: seq<Waypoints.Item>, k: int,
                   minSalience: Option<real>, now: int): seq<QueryResult>
  {
    Top(Candidates(m, t, sh, expanded, Reached(sh, expanded), minSalience, now), Score, k)
  }

  // ---- the writes ------------------------------------------------------------------------

  /** The salience a returned memory is stored with: its decayed salience
      raised by `salience_boost`, capped at `max_salience`. */
  function Boosted(x: QueryResult): real
  {
    Sectors.Boosted(x.salience, Sectors.SalienceBoost)
  }

  /** Each returned memory is marked seen at `now` with its decayed salience
      raised by `salience_boost` up to `max_salience`, and a path of more than
      one id has its edges reinforced. */
  function Touch(t: Db.Tables, top: seq<QueryResult>, now: int): Db.Tables
    decreases |top|
  {
    if top == [] then t
    else
      var p := Touch(t, top[..|top| - 1], now);
      var x := top[|top| - 1];
      var u := Db.UpdSeen(p, now, Boosted(x), now, x.id);
      if |x.path| > 1 then Waypoints.Reinforce(u, x.path, now) else u
  }

  // ---- the operation ---------------------------------------------------------------------

  /** The loop over `allMemoryIds` that builds `finalResults`. */
  method BuildResults(store: Database.Store, m: Math, sectorResults: seq<SectorHits>, expandedResults: seq<Waypoints.Item>,
                      allMemoryIds: seq<string>, minSalience: Option<real>, now: int)
    returns (finalResults: seq<QueryResult>)
    ensures finalResults == Candidates(m, store.State(), sectorResults, expandedResults, allMemoryIds, minSalience, now)
  {
    finalResults := [];
    for i := 0 to |allMemoryIds|
      invariant finalResults == Candidates(m, store.State(), sectorResults, expandedResults, allMemoryIds[..i], minSalience, now)
    {
      Js.PrefixSlice(allMemoryIds, i, i + 1);
      var memoryId := allMemoryIds[i];
      var memory := Db.GetMem(store.State(), memoryId);
      if memory.None? || BelowMin(minSalience, memory.value.salience) {
        continue;
      }
      var bestSimilarity := BestSimilarity(sectorResults, memoryId);
      var expandedMatch := FindItem(expandedResults, memoryId);
      var waypointWeight := if expandedMatch.Some? then expandedMatch.value.weight else 0.0;
      var daysSinceLastSeen := DaysBetween(memory.value.lastSeenAt, now);
      var currentSalience := Sectors.CalculateDecay(m, memory.value.primarySector, memory.value.salience, daysSinceLastSeen);
      var finalScore := Sectors.RetrievalScore(m, now, bestSimilarity, currentSalience, memory.value.lastSeenAt, waypointWeight);
      var sectorList := VecSectors(Db.GetVecsById(store.State(), memoryId));
      var path := if expandedMatch.Some? then expandedMatch.value.path else [memoryId];
      finalResults := finalResults + [QueryResult(memoryId, memory.value.content, finalScore, sectorList,
                                                  memory.value.primarySector, path, currentSalience, memory.value.lastSeenAt)];
    }
    Js.WholeSlice(allMemoryIds);
  }

  /** The loop over `topResults`: `upd_seen`, then `reinforceWaypoints` for a
      path of more than one id. */
  method MarkSeen(store: Database.Store, topResults: seq<QueryResult>, now: int)
    requires store.Valid()
    modifies store
    ensures store.Valid() && store.saved == old(store.saved)
    ensures store.State() == Touch(old(store.State()), topResults, now)
  {
    ghost var t := store.State();
    for i := 0 to |topResults|
      invariant store.Valid() && store.saved == old(store.saved)
      invariant store.State() == Touch(t, topResults[..i], now)
    {
      Js.PrefixSlice(topResults, i, i + 1);
      var result := topResults[i];
      var newSalience := Sectors.Boosted(result.salience, Sectors.SalienceBoost);
      store.UpdSeen(now, newSalience, now, result.id);
      if |result.path| > 1 {
        Waypoints.ReinforceWaypoints(store, result.path, now);
      }
    }
    Js.WholeSlice(topResults);
  }

  /** `hsgQuery(queryText, k, filters)`. The expansion is the one
      `expandViaWaypoints` returns, which is specified by what it guarantees;
      given it, the answer and the writes are determined. */
  method HsgQuery(store: Database.Store, net: Embedding.Network, ctx: Hsg.Context, queryText: string, k: int,
                  filter: Option<seq<string>>, minSalience: Option<real>, now: int)
    returns (r: Result<seq<QueryResult>>, ghost expanded: seq<Waypoints.Item>)
    requires store.Valid() && Embedding.ValidRuntime(ctx.rt)
    modifies store, net
    ensures store.Valid() && store.saved == old(store.saved)
    ensures var s := Searched(ctx, net.reply, old(net.calls), old(store.State()), queryText, k, filter);
      && net.calls == s.calls
      && (s.result.Err? ==> r == Err(s.result.msg) && store.State() == old(store.State()))
      && (s.result.Ok? ==>
            var seeds := Seeds(s.result.value);
            && Waypoints.Expansion(old(store.State()), seeds, expanded)
            && (|expanded| == |seeds| || |expanded| - |seeds| <= 2 * k)
            && (|expanded| - |seeds| < 2 * k ==>
                  forall i :: 0 <= i < |expanded| ==> Waypoints.Closed(old(store.State()), expanded, expanded[i]))
            && r == Ok(Results(ctx.rt.math, old(store.State()), s.result.value, expanded, k, minSalience, now))
            && store.State() == Touch(old(store.State()), r.value, now))
  {
    var queryClassification := Sectors.Classify(ctx.hit, queryText, None);
    var searchSectors := SearchSectors(Hsg.AllSectors(queryClassification), filter);
    var queryEmbeddings := EmbedQueries(net, ctx, queryText, searchSectors);
    if queryEmbeddings.Err? {
      return Err(queryEmbeddings.msg), [];
    }
    var sectorResults := SearchSectorsIn(store, ctx.rt.math, ctx.f, searchSectors, queryEmbeddings.value, k);
    if sectorResults.Err? {
      return Err(sectorResults.msg), [];
    }
    var seeds := Seeds(sectorResults.value);
    var expandedResults := Waypoints.ExpandViaWaypoints(store, seeds, k * 2);
    expanded := expandedResults;
    var allMemoryIds := Reached(sectorResults.value, expandedResults);
    var finalResults := BuildResults(store, ctx.rt.math, sectorResults.value, expandedResults, allMemoryIds, minSalience, now);
    var topResults := Top(finalResults, Score, k);
    MarkSeen(store, topResults, now);
    r := Ok(topResults);
  }

  // ---- what the answer means --------------------------------------------------------------

  /** The best similarity is the largest similarity any sector's hits give the
      memory, and 0 when no sector hit it (or every hit was at most 0). */
  lemma {:induction false} BestSimilarityFacts(sh: seq<SectorHits>, id: string)
    ensures var b := BestSimilarity(sh, id);
      && b >= 0.0
      && (forall i :: 0 <= i < |sh| && FindHit(sh[i].hits, id).Some? ==> FindHit(sh[i].hits, id).value <= b)
      && (b == 0.0 || exists i :: 0 <= i < |sh| && FindHit(sh[i].hits, id) == Some(b))
    decreases |sh|
  {
    if sh != [] {
      var n := |sh| - 1;
      var init := sh[..n];
      BestSimilarityFacts(init, id);
      var b := BestSimilarity(sh, id);
      forall i | 0 <= i < n ensures sh[i] == init[i] { }
      if b != 0.0 && b != BestSimilarity(init, id) {
        assert FindHit(sh[n].hits, id) == Some(b);
      }
    }
  }

  /** What one entry says: it exists exactly for a stored memory not below the
      threshold, and carries that memory's id, content, sector and last-seen
      time, with its salience decayed to `now`. */
  lemma CandidateFacts(m: Math, t: Db.Tables, sh: seq<SectorHits>, expanded: seq<Waypoints.Item>, id: string,
                       minSalience: Option<real>, now: int)
    ensures var c := Candidate(m, t, sh, expanded, id, minSalience, now);
      var mem := Db.GetMem(t, id);
      && (c.Some? <==> mem.Some? && !BelowMin(minSalience, mem.value.salience))
      && (c.Some? ==>
            && c.value.id == id && c.value.content == mem.value.content
            && c.value.primarySector == mem.value.primarySector && c.value.lastSeenAt == mem.value.lastSeenAt
            && c.value.salience == Sectors.CalculateDecay(m, mem.value.primarySector, mem.value.salience,
                                                          DaysBetween(mem.value.lastSeenAt, now)))
  {
  }

  /** Every entry carries the id it was built for. */
  lemma EntryIds(m: Math, t: Db.Tables, sh: seq<SectorHits>, expanded: seq<Waypoints.Item>, minSalience: Option<real>, now: int)
    ensures var entry := Entry(m, t, sh, expanded, minSalience, now);
      forall id :: entry(id).Some? ==> ResultId(entry(id).value) == id
  {
    forall id ensures Candidate(m, t, sh, expanded, id, minSalience, now).Some? ==>
      Candidate(m, t, sh, expanded, id, minSalience, now).value.id == id
    {
      CandidateFacts(m, t, sh, expanded, id, minSalience, now);
    }
  }

  /** Every collected entry is the one given for its own key, which is one of the ids. */
  lemma {:induction false} CollectOf<T>(ids: seq<string>, entry: string -> Option<T>, key: T -> string)
    requires forall id :: entry(id).Some? ==> key(entry(id).value) == id
    ensures forall x :: x in Collect(ids, entry) ==> key(x) in ids && entry(key(x)) == Some(x)
    decreases |ids|
  {
    if ids != [] {
      CollectOf(ids[..|ids| - 1], entry, key);
    }
  }

  /** Every id given an entry contributes it. */
  lemma {:induction false} CollectHas<T>(ids: seq<string>, entry: string -> Option<T>)
    ensures forall id :: id in ids && entry(id).Some? ==> entry(id).value in Collect(ids, entry)
    decreases |ids|
  {
    if ids != [] {
      var init := ids[..|ids| - 1];
      CollectHas(init, entry);
      assert ids == init + [ids[|ids| - 1]];
    }
  }

  /** Distinct ids give entries with distinct keys. */
  lemma {:induction false} CollectDistinct<T>(ids: seq<string>, entry: string -> Option<T>, key: T -> string)
    requires forall id :: entry(id).Some? ==> key(entry(id).value) == id
    requires Js.Distinct(ids)
    ensures forall i, j :: 0 <= i < j < |Collect(ids, entry)| ==> key(Collect(ids, entry)[i]) != key(Collect(ids, entry)[j])
    decreases |ids|
  {
    if ids != [] {
      var n := |ids| - 1;
      var init := ids[..n];
      CollectDistinct(init, entry, key);
      CollectOf(init, entry, key);
      var p := Collect(init, entry);
      forall i | 0 <= i < |p| ensures key(p[i]) != ids[n] {
        assert p[i] in p;
        var q :| 0 <= q < |init| && init[q] == key(p[i]);
        assert ids[q] == init[q];
      }
      var c := Collect(ids, entry);
      assert c == if entry(ids[n]).Some? then p + [entry(ids[n]).value] else p;
      forall i, j | 0 <= i < j < |c| ensures key(c[i]) != key(c[j]) {
        assert c[i] == p[i];
        if j == |p| {
          assert c[j] == entry(ids[n]).value;
        } else {
          assert c[j] == p[j];
        }
      }
    }
  }

  /** Every entry of `finalResults` is the entry built for its own id, and that
      id was reached. */
  lemma CandidatesOf(m: Math, t: Db.Tables, sh: seq<SectorHits>, expanded: seq<Waypoints.Item>, ids: seq<string>,
                     minSalience: Option<real>, now: int)
    ensures forall x :: x in Candidates(m, t, sh, expanded, ids, minSalience, now) ==>
      x.id in ids && Candidate(m, t, sh, expanded, x.id, minSalience, now) == Some(x)
  {
    var entry := Entry(m, t, sh, expanded, minSalience, now);
    EntryIds(m, t, sh, expanded, minSalience, now);
    CollectOf(ids, entry, ResultId);
    forall x | x in Candidates(m, t, sh, expanded, ids, minSalience, now)
      ensures x.id in ids && Candidate(m, t, sh, expanded, x.id, minSalience, now) == Some(x)
    {
      assert ResultId(x) == x.id;
    }
  }

  /** `find` returns the first item with the id. */
  lemma {:induction false} FindItemFirst(items: seq<Waypoints.Item>, i: nat)
    requires i < |items| && forall j :: 0 <= j < i ==> items[j].id != items[i].id
    ensures FindItem(items, items[i].id) == Some(items[i])
  {
    if i > 0 {
      FindItemFirst(items[1..], i - 1);
    }
  }

  /** A memory hit directly is scored with waypoint weight 1 and the one-id
      path, since the seeds open the expansion. */
  lemma SeedsScoredDirect(m: Math, t: Db.Tables, sh: seq<SectorHits>, expanded: seq<Waypoints.Item>, k: int,
                          minSalience: Option<real>, now: int)
    requires Waypoints.Expansion(t, Seeds(sh), expanded)
    ensures forall x :: x in Results(m, t, sh, expanded, k, minSalience, now) && x.id in Seeds(sh) ==>
      && x.path == [x.id]
      && x.score == Sectors.RetrievalScore(m, now, BestSimilarity(sh, x.id), x.salience, x.lastSeenAt, 1.0)
  {
    var seeds := Seeds(sh);
    var cands := Candidates(m, t, sh, expanded, Reached(sh, expanded), minSalience, now);
    TopFacts(cands, Score, k);
    CandidatesOf(m, t, sh, expanded, Reached(sh, expanded), minSalience, now);
    forall x | x in Results(m, t, sh, expanded, k, minSalience, now) && x.id in seeds
      ensures x.path == [x.id]
      ensures x.score == Sectors.RetrievalScore(m, now, BestSimilarity(sh, x.id), x.salience, x.lastSeenAt, 1.0)
    {
      var i :| 0 <= i < |seeds| && seeds[i] == x.id;
      SeedCandidate(m, t, sh, expanded, i, minSalience, now);
    }
  }

  /** A seed found in the tables is scored with waypoint weight 1 and the path of itself. */
  lemma SeedCandidate(m: Math, t: Db.Tables, sh: seq<SectorHits>, expanded: seq<Waypoints.Item>, i: nat,
                      minSalience: Option<real>, now: int)
    requires Waypoints.Expansion(t, Seeds(sh), expanded) && i < |Seeds(sh)|
    ensures var id := Seeds(sh)[i];
      var c := Candidate(m, t, sh, expanded, id, minSalience, now);
      c.Some? ==> c.value.path == [id] && c.value.score == Sectors.RetrievalScore(m, now, BestSimilarity(sh, id), c.value.salience, c.value.lastSeenAt, 1.0)
  {
    var seeds := Seeds(sh);
    assert expanded[i] == Waypoints.Item(seeds[i], 1.0, [seeds[i]]);
    forall j | 0 <= j < i ensures expanded[j].id != expanded[i].id {
      assert expanded[j] == Waypoints.Item(seeds[j], 1.0, [seeds[j]]);
    }
    FindItemFirst(expanded, i);
  }

  /** A reached memory that yields an entry contributes that entry. */
  lemma CandidatesHas(m: Math, t: Db.Tables, sh: seq<SectorHits>, expanded: seq<Waypoints.Item>, ids: seq<string>,
                      minSalience: Option<real>, now: int)
    ensures forall id :: id in ids && Candidate(m, t, sh, expanded, id, minSalience, now).Some? ==>
      Candidate(m, t, sh, expanded, id, minSalience, now).value in Candidates(m, t, sh, expanded, ids, minSalience, now)
  {
    var entry := Entry(m, t, sh, expanded, minSalience, now);
    CollectHas(ids, entry);
    forall id | id in ids && Candidate(m, t, sh, expanded, id, minSalience, now).Some?
      ensures Candidate(m, t, sh, expanded, id, minSalience, now).value in Candidates(m, t, sh, expanded, ids, minSalience, now)
    {
      assert entry(id) == Candidate(m, t, sh, expanded, id, minSalience, now);
    }
  }

  /** Distinct ids give entries with distinct ids. */
  lemma CandidatesDistinct(m: Math, t: Db.Tables, sh: seq<SectorHits>, expanded: seq<Waypoints.Item>, ids: seq<string>,
                           minSalience: Option<real>, now: int)
    requires Js.Distinct(ids)
    ensures var c := Candidates(m, t, sh, expanded, ids, minSalience, now);
      forall i, j :: 0 <= i < j < |c| ==> c[i].id != c[j].id
  {
    var entry := Entry(m, t, sh, expanded, minSalience, now);
    var c := Candidates(m, t, sh, expanded, ids, minSalience, now);
    EntryIds(m, t, sh, expanded, minSalience, now);
    CollectDistinct(ids, entry, ResultId);
    forall i, j | 0 <= i < j < |c| ensures c[i].id != c[j].id {
      assert ResultId(c[i]) != ResultId(c[j]);
    }
  }

  /** What `hsgQuery` returns is ranked: at most `k` entries, best score first,
      and no entry of `finalResults` that was left out scores above one that
      was returned (`CandidatesHas` says which memories have an entry). */
  lemma ResultsRanked(m: Math, t: Db.Tables, sh: seq<SectorHits>, expanded: seq<Waypoints.Item>, k: int,
                      minSalience: Option<real>, now: int)
    ensures var r := Results(m, t, sh, expanded, k, minSalience, now);
      && Sorting.SortedDesc(r, Score)
      && (k >= 0 ==> |r| <= k)
      && (forall x, y :: x in Candidates(m, t, sh, expanded, Reached(sh, expanded), minSalience, now) && x !in r && y in r ==>
            x.score <= y.score)
  {
    TopFacts(Candidates(m, t, sh, expanded, Reached(sh, expanded), minSalience, now), Score, k);
  }

  /** Each entry `hsgQuery` returns is a stored memory that a sector hit or the
      expansion reached, not below the salience threshold, and carries its
      content, sector and last-seen time with its salience decayed to `now`. */
  lemma ResultsMembers(m: Math, t: Db.Tables, sh: seq<SectorHits>, expanded: seq<Waypoints.Item>, k: int,
                       minSalience: Option<real>, now: int)
    ensures forall x :: x in Results(m, t, sh, expanded, k, minSalience, now) ==>
      && (x.id in Seeds(sh) || x.id in ItemIds(expanded))
      && Db.GetMem(t, x.id).Some?
      && !BelowMin(minSalience, Db.GetMem(t, x.id).value.salience)
      && x.content == Db.GetMem(t, x.id).value.content
      && x.primarySector == Db.GetMem(t, x.id).value.primarySector
      && x.lastSeenAt == Db.GetMem(t, x.id).value.lastSeenAt
      && x.salience == Sectors.CalculateDecay(m, Db.GetMem(t, x.id).value.primarySector, Db.GetMem(t, x.id).value.salience,
                                              DaysBetween(Db.GetMem(t, x.id).value.lastSeenAt, now))
  {
    var reached := Reached(sh, expanded);
    var cands := Candidates(m, t, sh, expanded, reached, minSalience, now);
    TopFacts(cands, Score, k);
    CandidatesOf(m, t, sh, expanded, reached, minSalience, now);
    forall x | x in Results(m, t, sh, expanded, k, minSalience, now)
      ensures x.id in Seeds(sh) || x.id in ItemIds(expanded)
      ensures Candidate(m, t, sh, expanded, x.id, minSalience, now) == Some(x)
    {
      var i :| 0 <= i < |reached| && reached[i] == x.id;
      assert reached[i] in Seeds(sh) + ItemIds(expanded);
    }
    forall x | x in Results(m, t, sh, expanded, k, minSalience, now)
      ensures Db.GetMem(t, x.id).Some? && !BelowMin(minSalience, Db.GetMem(t, x.id).value.salience)
      ensures x.content == Db.GetMem(t, x.id).value.content
      ensures x.primarySector == Db.GetMem(t, x.id).value.primarySector
      ensures x.lastSeenAt == Db.GetMem(t, x.id).value.lastSeenAt
      ensures x.salience == Sectors.CalculateDecay(m, Db.GetMem(t, x.id).value.primarySector, Db.GetMem(t, x.id).value.salience,
                                                   DaysBetween(Db.GetMem(t, x.id).value.lastSeenAt, now))
    {
      CandidateFacts(m, t, sh, expanded, x.id, minSalience, now);
    }
  }

  /** No memory is returned twice. */
  lemma ResultIdsDistinct(m: Math, t: Db.Tables, sh: seq<SectorHits>, expanded: seq<Waypoints.Item>, k: int,
                          minSalience: Option<real>, now: int)
    ensures var r := Results(m, t, sh, expanded, k, minSalience, now);
      forall i, j :: 0 <= i < j < |r| ==> r[i].id != r[j].id
  {
    var reached := Reached(sh, expanded);
    var cands := Candidates(m, t, sh, expanded, reached, minSalience, now);
    var sorted := Sorting.SortDesc(cands, Score);
    var r := Results(m, t, sh, expanded, k, minSalience, now);
    CandidatesDistinct(m, t, sh, expanded, reached, minSalience, now);
    CandidatesOf(m, t, sh, expanded, reached, minSalience, now);
    Sorting.SortKeepsDistinct(cands, Score);
    assert r == sorted[..|r|];
    forall i, j | 0 <= i < j < |r| ensures r[i].id != r[j].id {
      assert r[i] == sorted[i] && r[j] == sorted[j];
      assert r[i] in cands && r[j] in cands;
    }
  }

  /** The memory rows after marking `top` seen, one `upd_seen` per result. */
  function SeenRows(ms: seq<Db.Memory>, top: seq<QueryResult>, now: int): seq<Db.Memory>
    decreases |top|
  {
    if top == [] then ms
    else
      var x := top[|top| - 1];
      Db.MapMem(SeenRows(ms, top[..|top| - 1], now), x.id, Db.SetSeen(now, Boosted(x), now))
  }

  /** Reinforcing paths touches no memory row, so the rows after `Touch` are
      those `SeenRows` gives. */
  lemma {:induction false} TouchRows(t: Db.Tables, top: seq<QueryResult>, now: int)
    ensures Touch(t, top, now).memories == SeenRows(t.memories, top, now)
    decreases |top|
  {
    if top != [] {
      var x := top[|top| - 1];
      TouchRows(t, top[..|top| - 1], now);
      var u := Db.UpdSeen(Touch(t, top[..|top| - 1], now), now, Boosted(x), now, x.id);
      Waypoints.ReinforceKeepsMemories(u, x.path, now);
    }
  }

  /** Marking results seen leaves every other memory row as it was. */
  lemma {:induction false} SeenRowsOthers(ms: seq<Db.Memory>, top: seq<QueryResult>, now: int)
    ensures forall id :: (forall i :: 0 <= i < |top| ==> top[i].id != id) ==> Db.FindMem(SeenRows(ms, top, now), id) == Db.FindMem(ms, id)
    decreases |top|
  {
    if top != [] {
      var n := |top| - 1;
      var init := top[..n];
      var x := top[n];
      SeenRowsOthers(ms, init, now);
      Db.MapSeenFind(SeenRows(ms, init, now), now, Boosted(x), now, x.id);
      forall i | 0 <= i < n ensures top[i] == init[i] { }
    }
  }

  /** Marking distinct results seen rewrites each of their rows. */
  lemma {:induction false} SeenRowMarked(ms: seq<Db.Memory>, top: seq<QueryResult>, now: int, i: nat)
    requires forall i, j :: 0 <= i < j < |top| ==> top[i].id != top[j].id
    requires i < |top|
    ensures Db.FindMem(SeenRows(ms, top, now), top[i].id) ==
      if Db.FindMem(ms, top[i].id).Some?
      then Some(Db.FindMem(ms, top[i].id).value.(lastSeenAt := now, salience := Boosted(top[i]), updatedAt := now))
      else None
    decreases |top|
  {
    var n := |top| - 1;
    var init := top[..n];
    if i < n {
      assert top[i] == init[i] && top[i].id != top[n].id;
      SeenRowsStepOther(ms, top, now, top[i].id);
      SeenRowMarked(ms, init, now, i);
    } else {
      SeenRowsLast(ms, top, now);
    }
  }

  /** Marking the last result seen leaves the rows of other ids as the earlier ones left them. */
  lemma SeenRowsStepOther(ms: seq<Db.Memory>, top: seq<QueryResult>, now: int, id: string)
    requires top != [] && id != top[|top| - 1].id
    ensures Db.FindMem(SeenRows(ms, top, now), id) == Db.FindMem(SeenRows(ms, top[..|top| - 1], now), id)
  {
    var x := top[|top| - 1];
    Db.MapSeenFind(SeenRows(ms, top[..|top| - 1], now), now, Boosted(x), now, x.id);
  }

  /** The last of distinct results is marked on the row it had at the start. */
  lemma SeenRowsLast(ms: seq<Db.Memory>, top: seq<QueryResult>, now: int)
    requires top != [] && forall i, j :: 0 <= i < j < |top| ==> top[i].id != top[j].id
    ensures var x := top[|top| - 1];
      Db.FindMem(SeenRows(ms, top, now), x.id) ==
        if Db.FindMem(ms, x.id).Some?
        then Some(Db.FindMem(ms, x.id).value.(lastSeenAt := now, salience := Boosted(x), updatedAt := now))
        else None
  {
    var n := |top| - 1;
    var init := top[..n];
    var x := top[n];
    var p := SeenRows(ms, init, now);
    Db.MapSeenFind(p, now, Boosted(x), now, x.id);
    SeenRowsOthers(ms, init, now);
    forall j | 0 <= j < n ensures init[j].id != x.id {
      assert init[j] == top[j];
    }
    assert Db.FindMem(p, x.id) == Db.FindMem(ms, x.id);
  }

  /** Marking distinct results seen rewrites exactly their rows: each is seen
      and updated at `now` with its boosted salience, capped at the maximum;
      every other memory is left as it was. */
  lemma TouchFacts(t: Db.Tables, top: seq<QueryResult>, now: int)
    requires forall i, j :: 0 <= i < j < |top| ==> top[i].id != top[j].id
    ensures forall i :: 0 <= i < |top| && Db.GetMem(t, top[i].id).Some? ==>
      Db.GetMem(Touch(t, top, now), top[i].id) ==
        Some(Db.GetMem(t, top[i].id).value.(lastSeenAt := now, salience := Boosted(top[i]),
                                            updatedAt := now))
    ensures forall i :: 0 <= i < |top| && Db.GetMem(t, top[i].id).None? ==> Db.GetMem(Touch(t, top, now), top[i].id).None?
    ensures forall id :: (forall i :: 0 <= i < |top| ==> top[i].id != id) ==> Db.GetMem(Touch(t, top, now), id) == Db.GetMem(t, id)
  {
    TouchRows(t, top, now);
    SeenRowsOthers(t.memories, top, now);
    forall i | 0 <= i < |top|
      ensures Db.FindMem(SeenRows(t.memories, top, now), top[i].id) ==
        if Db.FindMem(t.memories, top[i].id).Some?
        then Some(Db.FindMem(t.memories, top[i].id).value.(lastSeenAt := now, salience := Boosted(top[i]), updatedAt := now))
        else None
    {
      SeenRowMarked(t.memories, top, now, i);
    }
  }

  /** After a query every returned memory is stored as seen at `now`, with the
      decayed salience it was returned with, raised by the boost and capped. */
  lemma ResultsTouched(m: Math, t: Db.Tables, sh: seq<SectorHits>, expanded: seq<Waypoints.Item>, k: int,
                       minSalience: Option<real>, now: int)
    ensures var r := Results(m, t, sh, expanded, k, minSalience, now);
      forall x :: x in r ==>
        && Db.GetMem(Touch(t, r, now), x.id).Some?
        && Db.GetMem(Touch(t, r, now), x.id).value.lastSeenAt == now
        && Db.GetMem(Touch(t, r, now), x.id).value.salience == Boosted(x)
  {
    var r := Results(m, t, sh, expanded, k, minSalience, now);
    ResultsMembers(m, t, sh, expanded, k, minSalience, now);
    ResultIdsDistinct(m, t, sh, expanded, k, minSalience, now);
    TouchFacts(t, r, now);
    forall x | x in r ensures Db.GetMem(Touch(t, r, now), x.id).Some? {
      var i :| 0 <= i < |r| && r[i] == x;
    }
  }
}
