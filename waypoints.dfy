/** The waypoint graph: the four ways edges are created (best single match,
    inter-memory, cross-sector and contextual), the breadth-first expansion
    along edges, reinforcement of traversed edges and pruning of weak ones.
    Every write goes through the `ins_waypoint`/`upd_waypoint` statements of
    the store, whose `waypoints` table is keyed by `src_id` alone, so inserting
    an edge replaces the edge its source already had. */
module Waypoints {
  import opened Wrappers
  import opened Numeric
  import Js
  import Codec
  import Sectors
  import Vectors
  import Db
  import Database

  // ---- runs of inserts ----------------------------------------------------------------

  /** A run of `ins_waypoint` statements, in order. */
  function InsAll(t: Db.Tables, ws: seq<Db.Waypoint>): Db.Tables
  {
    if ws == [] then t else Db.InsWaypoint(InsAll(t, ws[..|ws| - 1]), ws[|ws| - 1])
  }

  /** The last edge of `ws` leaving `src`, if any. */
  function LastFrom(ws: seq<Db.Waypoint>, src: string): (r: Option<Db.Waypoint>)
    ensures r.Some? ==> r.value in ws && r.value.src == src
    ensures r.None? <==> forall w :: w in ws ==> w.src != src
  {
    if ws == [] then None
    else if ws[|ws| - 1].src == src then Some(ws[|ws| - 1])
    else
      assert ws == ws[..|ws| - 1] + [ws[|ws| - 1]];
      LastFrom(ws[..|ws| - 1], src)
  }

  /** After a run of inserts, a node that some insert left from has exactly the
      last such edge; every other node keeps the edges it had. */
  lemma {:induction false} InsAllEdges(t: Db.Tables, ws: seq<Db.Waypoint>)
    requires Db.Keyed(t)
    ensures var u := InsAll(t, ws);
      && Db.Keyed(u)
      && u.memories == t.memories && u.vectors == t.vectors && u.logs == t.logs
      && forall x :: x in u.waypoints <==>
           if LastFrom(ws, x.src).Some? then x == LastFrom(ws, x.src).value else x in t.waypoints
  {
    if ws != [] {
      InsAllEdges(t, ws[..|ws| - 1]);
      Db.InsWaypointReplaces(InsAll(t, ws[..|ws| - 1]), ws[|ws| - 1]);
    }
  }

  lemma InsAllSnoc2(t: Db.Tables, ws: seq<Db.Waypoint>, a: Db.Waypoint, b: Db.Waypoint)
    ensures InsAll(t, ws + [a, b]) == Db.InsWaypoint(Db.InsWaypoint(InsAll(t, ws), a), b)
  {
    var wa := ws + [a];
    var wb := wa + [b];
    assert wb == ws + [a, b];
    assert wb[..|wb| - 1] == wa && wb[|wb| - 1] == b;
    assert wa[..|wa| - 1] == ws && wa[|wa| - 1] == a;
    assert InsAll(t, wa) == Db.InsWaypoint(InsAll(t, ws), a);
  }

  lemma LastFromSnoc(ws: seq<Db.Waypoint>, w: Db.Waypoint, src: string)
    ensures LastFrom(ws + [w], src) == if w.src == src then Some(w) else LastFrom(ws, src)
  {
    assert (ws + [w])[..|ws|] == ws;
  }

  /** Links from `id` to each node and back, pair by pair, all of weight 0.5 (the
      weight both the cross-sector and the inter-memory links use). */
  function PairEdges(id: string, nodes: seq<string>, now: int): (r: seq<Db.Waypoint>)
    ensures |r| == 2 * |nodes|
  {
    if nodes == [] then []
    else
      var node := nodes[|nodes| - 1];
      PairEdges(id, nodes[..|nodes| - 1], now)
        + [Db.Waypoint(id, node, 0.5, now, now), Db.Waypoint(node, id, 0.5, now, now)]
  }

  lemma PairEdgesSnoc(id: string, nodes: seq<string>, now: int)
    requires nodes != []
    ensures var node := nodes[|nodes| - 1];
      PairEdges(id, nodes, now) == PairEdges(id, nodes[..|nodes| - 1], now)
        + [Db.Waypoint(id, node, 0.5, now, now)] + [Db.Waypoint(node, id, 0.5, now, now)]
  {
  }

  /** Every link leaves `id` or one of the nodes. */
  lemma {:induction false} PairEdgesSources(id: string, nodes: seq<string>, now: int)
    ensures forall w :: w in PairEdges(id, nodes, now) ==> w.src == id || w.src in nodes
  {
    if nodes != [] {
      PairEdgesSources(id, nodes[..|nodes| - 1], now);
      PairEdgesSnoc(id, nodes, now);
      assert nodes == nodes[..|nodes| - 1] + [nodes[|nodes| - 1]];
    }
  }

  /** The last link leaving `id` goes to the last node. */
  lemma PairEdgesForward(id: string, nodes: seq<string>, now: int)
    requires nodes != [] && id !in nodes
    ensures LastFrom(PairEdges(id, nodes, now), id) == Some(Db.Waypoint(id, nodes[|nodes| - 1], 0.5, now, now))
  {
    var node := nodes[|nodes| - 1];
    var e := PairEdges(id, nodes[..|nodes| - 1], now);
    PairEdgesSnoc(id, nodes, now);
    LastFromSnoc(e + [Db.Waypoint(id, node, 0.5, now, now)], Db.Waypoint(node, id, 0.5, now, now), id);
    LastFromSnoc(e, Db.Waypoint(id, node, 0.5, now, now), id);
  }

  /** The last link leaving a node goes back to `id`. */
  lemma {:induction false} PairEdgesBack(id: string, nodes: seq<string>, now: int, n: string)
    requires n in nodes && n != id
    ensures LastFrom(PairEdges(id, nodes, now), n) == Some(Db.Waypoint(n, id, 0.5, now, now))
  {
    var init := nodes[..|nodes| - 1];
    var node := nodes[|nodes| - 1];
    var e := PairEdges(id, init, now);
    var fwd := Db.Waypoint(id, node, 0.5, now, now);
    var back := Db.Waypoint(node, id, 0.5, now, now);
    PairEdgesSnoc(id, nodes, now);
    if node == n {
      LastFromSnoc(e + [fwd], back, n);
    } else {
      var k :| 0 <= k < |nodes| && nodes[k] == n;
      assert init[k] == n;
      PairEdgesBack(id, init, now, n);
      LastFromPast(e, fwd, back, n);
    }
  }

  /** Two links leaving other nodes do not change the last link leaving `src`. */
  lemma LastFromPast(ws: seq<Db.Waypoint>, a: Db.Waypoint, b: Db.Waypoint, src: string)
    requires a.src != src && b.src != src
    ensures LastFrom(ws + [a] + [b], src) == LastFrom(ws, src)
  {
    LastFromSnoc(ws + [a], b, src);
    LastFromSnoc(ws, a, src);
  }

  /** As written, `src_id` being the key: after the paired inserts `id` keeps a
      single outgoing edge, to the last node; every node links back to `id`; no
      other node's edges change. */
  lemma PairEdgesEffect(t: Db.Tables, id: string, nodes: seq<string>, now: int)
    requires Db.Keyed(t) && id !in nodes
    ensures var u := InsAll(t, PairEdges(id, nodes, now));
      && Db.Keyed(u)
      && u.memories == t.memories && u.vectors == t.vectors && u.logs == t.logs
      && (nodes == [] ==> u == t)
      && (nodes != [] ==> forall x :: x in u.waypoints && x.src == id <==>
            x == Db.Waypoint(id, nodes[|nodes| - 1], 0.5, now, now))
      && (forall n :: n in nodes ==> Db.Waypoint(n, id, 0.5, now, now) in u.waypoints)
      && (forall x: Db.Waypoint :: x.src != id && x.src !in nodes ==> (x in u.waypoints <==> x in t.waypoints))
  {
    var ws := PairEdges(id, nodes, now);
    InsAllEdges(t, ws);
    PairEdgesSources(id, nodes, now);
    if nodes != [] {
      PairEdgesForward(id, nodes, now);
    }
    forall n | n in nodes
      ensures Db.Waypoint(n, id, 0.5, now, now) in InsAll(t, ws).waypoints
    {
      PairEdgesBack(id, nodes, now, n);
    }
  }

  // ---- createCrossSectorWaypoints -----------------------------------------------------

  /** The node `${primaryId}:${sector}` standing for one sector of a memory. */
  function SectorNode(id: string, sector: string): string
  {
    id + ":" + sector
  }

  /** The sector nodes of `id`, in order. */
  function SectorNodes(id: string, sectors: seq<string>): (r: seq<string>)
    ensures |r| == |sectors| && forall i :: 0 <= i < |sectors| ==> r[i] == SectorNode(id, sectors[i])
  {
    if sectors == [] then [] else SectorNodes(id, sectors[..|sectors| - 1]) + [SectorNode(id, sectors[|sectors| - 1])]
  }

  /** A sector node is never the memory itself. */
  lemma SectorNodesExclude(id: string, sectors: seq<string>)
    ensures id !in SectorNodes(id, sectors)
  {
  }

  /** `createCrossSectorWaypoints`. */
  method CreateCrossSectorWaypoints(store: Database.Store, primaryId: string, primarySector: string,
                                    additionalSectors: seq<string>, now: int)
    requires store.Valid()
    modifies store
    ensures store.Valid() && store.saved == old(store.saved)
    ensures store.State() == InsAll(old(store.State()), PairEdges(primaryId, SectorNodes(primaryId, additionalSectors), now))
  {
    ghost var t := store.State();
    for i := 0 to |additionalSectors|
      invariant store.Valid() && store.saved == old(store.saved)
      invariant store.State() == InsAll(t, PairEdges(primaryId, SectorNodes(primaryId, additionalSectors[..i]), now))
    {
      var sector := additionalSectors[i];
      var node := SectorNode(primaryId, sector);
      CrossStep(t, primaryId, additionalSectors, i, now);
      store.InsWaypoint(Db.Waypoint(primaryId, node, 0.5, now, now));
      store.InsWaypoint(Db.Waypoint(node, primaryId, 0.5, now, now));
    }
    Js.WholeSlice(additionalSectors);
  }

  /** One more sector inserts its two edges. */
  lemma CrossStep(t: Db.Tables, id: string, sectors: seq<string>, i: nat, now: int)
    requires i < |sectors|
    ensures var node := SectorNode(id, sectors[i]);
      InsAll(t, PairEdges(id, SectorNodes(id, sectors[..i + 1]), now)) ==
        Db.InsWaypoint(Db.InsWaypoint(InsAll(t, PairEdges(id, SectorNodes(id, sectors[..i]), now)),
                                      Db.Waypoint(id, node, 0.5, now, now)), Db.Waypoint(node, id, 0.5, now, now))
  {
    var node := SectorNode(id, sectors[i]);
    Js.PrefixSlice(sectors, i, i + 1);
    var nodes := SectorNodes(id, sectors[..i + 1]);
    assert nodes[..|nodes| - 1] == SectorNodes(id, sectors[..i]);
    assert PairEdges(id, nodes, now) == PairEdges(id, SectorNodes(id, sectors[..i]), now)
      + [Db.Waypoint(id, node, 0.5, now, now), Db.Waypoint(node, id, 0.5, now, now)];
    InsAllSnoc2(t, PairEdges(id, SectorNodes(id, sectors[..i]), now), Db.Waypoint(id, node, 0.5, now, now), Db.Waypoint(node, id, 0.5, now, now));
  }

  lemma SectorNodesHas(id: string, sectors: seq<string>, s: string)
    requires s in sectors
    ensures SectorNode(id, s) in SectorNodes(id, sectors)
  {
    var i :| 0 <= i < |sectors| && sectors[i] == s;
    assert SectorNodes(id, sectors)[i] == SectorNode(id, s);
  }

  lemma SectorNodesOnly(id: string, sectors: seq<string>, n: string)
    requires forall s :: s in sectors ==> n != SectorNode(id, s)
    ensures n !in SectorNodes(id, sectors)
  {
  }

  /** After the cross-sector links the memory keeps one outgoing edge, to the
      node of the last additional sector; every sector node links back to the
      memory with weight 0.5; edges leaving any other node are unchanged. */
  lemma CrossSectorEdges(t: Db.Tables, id: string, sectors: seq<string>, now: int)
    requires Db.Keyed(t) && sectors != []
    ensures var u := InsAll(t, PairEdges(id, SectorNodes(id, sectors), now));
      && Db.Keyed(u)
      && (forall x :: x in u.waypoints && x.src == id <==>
            x == Db.Waypoint(id, SectorNode(id, sectors[|sectors| - 1]), 0.5, now, now))
      && (forall s :: s in sectors ==> Db.Waypoint(SectorNode(id, s), id, 0.5, now, now) in u.waypoints)
      && (forall x: Db.Waypoint :: x.src != id && (forall s :: s in sectors ==> x.src != SectorNode(id, s)) ==>
            (x in u.waypoints <==> x in t.waypoints))
  {
    var nodes := SectorNodes(id, sectors);
    SectorNodesExclude(id, sectors);
    PairEdgesEffect(t, id, nodes, now);
    var u := InsAll(t, PairEdges(id, nodes, now));
    assert nodes[|nodes| - 1] == SectorNode(id, sectors[|sectors| - 1]);
    forall s | s in sectors ensures Db.Waypoint(SectorNode(id, s), id, 0.5, now, now) in u.waypoints {
      SectorNodesHas(id, sectors, s);
    }
    forall x: Db.Waypoint | x.src != id && (forall s :: s in sectors ==> x.src != SectorNode(id, s))
      ensures x in u.waypoints <==> x in t.waypoints
    {
      SectorNodesOnly(id, sectors, x.src);
    }
  }

  // ---- createSingleWaypoint -----------------------------------------------------------

  /** `{ id, similarity }`. */
  datatype Match = Match(id: string, similarity: real)

  /** A row `createSingleWaypoint` compares against: another memory with a mean vector. */
  predicate Candidate(mem: Db.Memory, newId: string)
  {
    mem.id != newId && mem.meanVec.Some?
  }

  /** The similarity of a candidate's stored mean vector to `v`, when it decodes. */
  function SimilarityOf(m: Math, f: Codec.Binary32, v: seq<real>, mem: Db.Memory, newId: string): Option<real>
    requires ValidMath(m)
  {
    if !Candidate(mem, newId) then None
    else
      var w := Codec.Decode(f, mem.meanVec.value);
      if w.Err? then None else Some(Vectors.Cosine(m, v, w.value))
  }

  /** The scan of `createSingleWaypoint`: the first candidate with the highest
      similarity of at least 0.75; a stored vector that does not decode throws. */
  function BestMatch(m: Math, f: Codec.Binary32, mems: seq<Db.Memory>, newId: string, v: seq<real>): (r: Result<Option<Match>>)
    requires ValidMath(m)
  {
    if mems == [] then Ok(None)
    else
      var b := BestMatch(m, f, mems[..|mems| - 1], newId, v);
      var mem := mems[|mems| - 1];
      if b.Err? || !Candidate(mem, newId) then b
      else
        var w := Codec.Decode(f, mem.meanVec.value);
        if w.Err? then Err(w.msg)
        else
          var s := Vectors.Cosine(m, v, w.value);
          if s >= 0.75 && (b.value.None? || s > b.value.value.similarity) then Ok(Some(Match(mem.id, s))) else b
  }

  /** Every candidate's stored vector decodes. */
  ghost predicate Decodes(m: Math, f: Codec.Binary32, v: seq<real>, mems: seq<Db.Memory>, newId: string)
    requires ValidMath(m)
  {
    forall k :: 0 <= k < |mems| && Candidate(mems[k], newId) ==> SimilarityOf(m, f, v, mems[k], newId).Some?
  }

  /** Every similarity is below `x` (`strict`) or at most `x`. */
  ghost predicate Under(m: Math, f: Codec.Binary32, v: seq<real>, mems: seq<Db.Memory>, newId: string, x: real, strict: bool)
    requires ValidMath(m)
  {
    forall k :: 0 <= k < |mems| && SimilarityOf(m, f, v, mems[k], newId).Some? ==>
      if strict then SimilarityOf(m, f, v, mems[k], newId).value < x else SimilarityOf(m, f, v, mems[k], newId).value <= x
  }

  /** `mt` is the first memory of highest similarity, at least 0.75. */
  ghost predicate Best(m: Math, f: Codec.Binary32, v: seq<real>, mems: seq<Db.Memory>, newId: string, mt: Match)
    requires ValidMath(m)
  {
    && mt.similarity >= 0.75
    && exists k :: 0 <= k < |mems| && mems[k].id == mt.id
         && SimilarityOf(m, f, v, mems[k], newId) == Some(mt.similarity)
         && Under(m, f, v, mems[..k], newId, mt.similarity, true)
         && Under(m, f, v, mems[k + 1..], newId, mt.similarity, false)
  }

  lemma UnderSnoc(m: Math, f: Codec.Binary32, v: seq<real>, mems: seq<Db.Memory>, mem: Db.Memory, newId: string, x: real, strict: bool)
    requires ValidMath(m)
    ensures Under(m, f, v, mems + [mem], newId, x, strict) <==>
      Under(m, f, v, mems, newId, x, strict) && Under(m, f, v, [mem], newId, x, strict)
  {
    var s := mems + [mem];
    assert forall k :: 0 <= k < |mems| ==> s[k] == mems[k];
    assert s[|mems|] == [mem][0];
  }

  lemma UnderWeaken(m: Math, f: Codec.Binary32, v: seq<real>, mems: seq<Db.Memory>, newId: string, x: real, y: real)
    requires ValidMath(m) && Under(m, f, v, mems, newId, x, true) && x <= y
    ensures Under(m, f, v, mems, newId, y, x < y)
  {
  }

  /** Once a stored vector fails to decode the scan has thrown. */
  lemma {:induction false} BestMatchThrown(m: Math, f: Codec.Binary32, mems: seq<Db.Memory>, newId: string, v: seq<real>, i: nat)
    requires ValidMath(m) && i <= |mems| && BestMatch(m, f, mems[..i], newId, v).Err?
    ensures BestMatch(m, f, mems, newId, v) == BestMatch(m, f, mems[..i], newId, v)
  {
    if i < |mems| {
      var init := mems[..|mems| - 1];
      assert init[..i] == mems[..i];
      BestMatchThrown(m, f, init, newId, v, i);
    } else {
      Js.WholeSlice(mems);
    }
  }

  /** The scan succeeds exactly when every candidate's stored vector decodes. */
  lemma {:induction false} BestMatchDecodes(m: Math, f: Codec.Binary32, mems: seq<Db.Memory>, newId: string, v: seq<real>)
    requires ValidMath(m)
    ensures BestMatch(m, f, mems, newId, v).Ok? <==> Decodes(m, f, v, mems, newId)
  {
    if mems != [] {
      var init := mems[..|mems| - 1];
      var last := |mems| - 1;
      BestMatchDecodes(m, f, init, newId, v);
      assert forall k :: 0 <= k < |init| ==> mems[k] == init[k];
      if BestMatch(m, f, init, newId, v).Err? {
        var k :| 0 <= k < |init| && Candidate(init[k], newId) && SimilarityOf(m, f, v, init[k], newId).None?;
        assert mems[k] == init[k];
      }
    }
  }

  /** A new best: the last memory beats everything before it. */
  lemma NewBest(m: Math, f: Codec.Binary32, v: seq<real>, init: seq<Db.Memory>, mem: Db.Memory, newId: string, b: Option<Match>, x: real)
    requires ValidMath(m) && x >= 0.75 && SimilarityOf(m, f, v, mem, newId) == Some(x)
    requires b.None? ==> Under(m, f, v, init, newId, 0.75, true)
    requires b.Some? ==> Best(m, f, v, init, newId, b.value) && x > b.value.similarity
    ensures Best(m, f, v, init + [mem], newId, Match(mem.id, x))
  {
    if b.None? {
      UnderWeaken(m, f, v, init, newId, 0.75, x);
    } else {
      BeatsAll(m, f, v, init, newId, b.value, x);
    }
    NewBestAt(m, f, v, init, mem, newId, x);
  }

  /** Everything before a best is below anything that beats it. */
  lemma BeatsAll(m: Math, f: Codec.Binary32, v: seq<real>, init: seq<Db.Memory>, newId: string, b: Match, x: real)
    requires ValidMath(m) && Best(m, f, v, init, newId, b) && x > b.similarity
    ensures Under(m, f, v, init, newId, x, true)
  {
    var y := b.similarity;
    var k0 :| 0 <= k0 < |init| && init[k0].id == b.id
      && SimilarityOf(m, f, v, init[k0], newId) == Some(y)
      && Under(m, f, v, init[..k0], newId, y, true)
      && Under(m, f, v, init[k0 + 1..], newId, y, false);
    forall j | 0 <= j < |init| && SimilarityOf(m, f, v, init[j], newId).Some?
      ensures SimilarityOf(m, f, v, init[j], newId).value < x
    {
      if j < k0 { assert init[..k0][j] == init[j]; }
      else if j > k0 { assert init[k0 + 1..][j - k0 - 1] == init[j]; }
    }
  }

  /** The last memory is the best when everything before it is below it. */
  lemma NewBestAt(m: Math, f: Codec.Binary32, v: seq<real>, init: seq<Db.Memory>, mem: Db.Memory, newId: string, x: real)
    requires ValidMath(m) && x >= 0.75 && SimilarityOf(m, f, v, mem, newId) == Some(x)
    requires Under(m, f, v, init, newId, x, true)
    ensures Best(m, f, v, init + [mem], newId, Match(mem.id, x))
  {
    var mems := init + [mem];
    var k := |init|;
    assert mems[..k] == init && mems[k + 1..] == [];
    assert mems[k] == mem;
  }

  /** The best so far stays the best when the last memory does not beat it. */
  lemma KeepBest(m: Math, f: Codec.Binary32, v: seq<real>, init: seq<Db.Memory>, mem: Db.Memory, newId: string, mt: Match)
    requires ValidMath(m) && Best(m, f, v, init, newId, mt)
    requires SimilarityOf(m, f, v, mem, newId).Some? ==> SimilarityOf(m, f, v, mem, newId).value <= mt.similarity
    ensures Best(m, f, v, init + [mem], newId, mt)
  {
    var mems := init + [mem];
    var k :| 0 <= k < |init| && init[k].id == mt.id
      && SimilarityOf(m, f, v, init[k], newId) == Some(mt.similarity)
      && Under(m, f, v, init[..k], newId, mt.similarity, true)
      && Under(m, f, v, init[k + 1..], newId, mt.similarity, false);
    assert mems[..k] == init[..k] && mems[k] == init[k];
    assert mems[k + 1..] == init[k + 1..] + [mem];
    UnderSnoc(m, f, v, init[k + 1..], mem, newId, mt.similarity, false);
  }

  /** With no match every similarity is below 0.75; a match is a memory of
      similarity at least 0.75, larger than every similarity before it and no
      smaller than any after it. */
  lemma {:induction false} BestMatchFacts(m: Math, f: Codec.Binary32, mems: seq<Db.Memory>, newId: string, v: seq<real>)
    requires ValidMath(m)
    ensures var r := BestMatch(m, f, mems, newId, v);
      && (r.Ok? && r.value.None? ==> Under(m, f, v, mems, newId, 0.75, true))
      && (r.Ok? && r.value.Some? ==> Best(m, f, v, mems, newId, r.value.value))
  {
    if mems != [] {
      var init := mems[..|mems| - 1];
      var mem := mems[|mems| - 1];
      assert mems == init + [mem];
      BestMatchFacts(m, f, init, newId, v);
      var b := BestMatch(m, f, init, newId, v);
      var r := BestMatch(m, f, mems, newId, v);
      if r.Ok? {
        var so := SimilarityOf(m, f, v, mem, newId);
        if r.value.None? {
          UnderSnoc(m, f, v, init, mem, newId, 0.75, true);
        } else if r != b {
          NewBest(m, f, v, init, mem, newId, b.value, so.value);
        } else {
          KeepBest(m, f, v, init, mem, newId, r.value.value);
        }
      }
    }
  }

  /** `createSingleWaypoint` over the first 1000 memories, newest first: the
      edge to the best match, weighted by its similarity, or no change. */
  function SingleWaypoint(m: Math, f: Codec.Binary32, t: Db.Tables, newId: string, v: seq<real>, now: int): Result<Db.Tables>
    requires ValidMath(m)
  {
    var b := BestMatch(m, f, Db.AllMem(t, 1000, 0), newId, v);
    if b.Err? then Err(b.msg)
    else if b.value.None? then Ok(t)
    else Ok(Db.InsWaypoint(t, Db.Waypoint(newId, b.value.value.id, b.value.value.similarity, now, now)))
  }

  /** The scan fails exactly when a candidate's vector does not decode; with no
      match nothing changes; otherwise the new memory's one outgoing edge goes
      to the best match, weighted by its similarity, and no other node's edges
      change. */
  lemma SingleWaypointFacts(m: Math, f: Codec.Binary32, t: Db.Tables, newId: string, v: seq<real>, now: int)
    requires ValidMath(m) && Db.Keyed(t)
    ensures var mems := Db.AllMem(t, 1000, 0);
      var r := SingleWaypoint(m, f, t, newId, v, now);
      && (r.Ok? <==> Decodes(m, f, v, mems, newId))
      && (r.Ok? ==>
            && Db.Keyed(r.value)
            && r.value.memories == t.memories && r.value.vectors == t.vectors && r.value.logs == t.logs
            && (forall x: Db.Waypoint :: x.src != newId ==> (x in r.value.waypoints <==> x in t.waypoints))
            && ((r.value == t && Under(m, f, v, mems, newId, 0.75, true))
                || exists mt :: Best(m, f, v, mems, newId, mt)
                     && forall x :: x in r.value.waypoints && x.src == newId <==> x == Db.Waypoint(newId, mt.id, mt.similarity, now, now)))
  {
    var mems := Db.AllMem(t, 1000, 0);
    BestMatchDecodes(m, f, mems, newId, v);
    BestMatchFacts(m, f, mems, newId, v);
    var b := BestMatch(m, f, mems, newId, v);
    if b.Ok? && b.value.Some? {
      Db.InsWaypointReplaces(t, Db.Waypoint(newId, b.value.value.id, b.value.value.similarity, now, now));
    }
  }

  /** `bufferToVector` on a stored blob. */
  method Load(f: Codec.Binary32, bytes: Db.Bytes) returns (r: Result<seq<real>>)
    ensures r == Codec.Decode(f, bytes)
  {
    var buf := new Codec.Byte[|bytes|](i requires 0 <= i < |bytes| => bytes[i]);
    assert buf[..] == bytes;
    r := Vectors.BufferToVector(f, buf);
  }

  /** The loop of `createSingleWaypoint`: the scan for the best match. */
  method FindBestMatch(m: Math, f: Codec.Binary32, memories: seq<Db.Memory>, newId: string, newMeanVector: seq<real>)
    returns (r: Result<Option<Match>>)
    requires ValidMath(m)
    ensures r == BestMatch(m, f, memories, newId, newMeanVector)
  {
    var bestMatch: Option<Match> := None;
    for i := 0 to |memories|
      invariant BestMatch(m, f, memories[..i], newId, newMeanVector) == Ok(bestMatch)
    {
      Js.PrefixSlice(memories, i, i + 1);
      var mem := memories[i];
      if mem.id == newId || mem.meanVec.None? {
        continue;
      }
      var existingMean := Load(f, mem.meanVec.value);
      if existingMean.Err? {
        BestMatchThrown(m, f, memories, newId, newMeanVector, i + 1);
        return Err(existingMean.msg);
      }
      var similarity := Vectors.CosineSimilarity(m, newMeanVector, existingMean.value);
      if similarity >= 0.75 && (bestMatch.None? || similarity > bestMatch.value.similarity) {
        bestMatch := Some(Match(mem.id, similarity));
      }
    }
    Js.WholeSlice(memories);
    r := Ok(bestMatch);
  }

  /** `createSingleWaypoint`. */
  method CreateSingleWaypoint(store: Database.Store, m: Math, f: Codec.Binary32, newId: string, newMeanVector: seq<real>, timestamp: int)
    returns (r: Result<()>)
    requires store.Valid() && ValidMath(m)
    modifies store
    ensures store.Valid() && store.saved == old(store.saved)
    ensures Database.Outcome(SingleWaypoint(m, f, old(store.State()), newId, newMeanVector, timestamp), old(store.State()), store.State(), r)
  {
    var memories := Db.AllMem(store.State(), 1000, 0);
    var bestMatch := FindBestMatch(m, f, memories, newId, newMeanVector);
    if bestMatch.Err? {
      return Err(bestMatch.msg);
    }
    if bestMatch.value.Some? {
      var best := bestMatch.value.value;
      store.InsWaypoint(Db.Waypoint(newId, best.id, best.similarity, timestamp, timestamp));
    }
    r := Ok(());
  }

  // ---- createInterMemoryWaypoints -----------------------------------------------------

  /** A stored vector of the sector that is similar enough to be linked both ways. */
  predicate Matches(m: Math, f: Codec.Binary32, v: seq<real>, row: Db.VectorRow, newId: string)
    requires ValidMath(m)
  {
    && row.id != newId
    && Codec.Decode(f, row.v).Ok?
    && Vectors.Cosine(m, v, Codec.Decode(f, row.v).value) >= 0.75
  }

  /** How far the scan of `createInterMemoryWaypoints` got: the ids linked so
      far, and the error that stopped it, if any. */
  datatype Scan = Scan(ids: seq<string>, err: Option<string>)

  /** The scan over the sector's vectors: a vector that does not decode throws,
      leaving the links made before it in place. */
  function InterScan(m: Math, f: Codec.Binary32, rows: seq<Db.VectorRow>, newId: string, v: seq<real>): (r: Scan)
    requires ValidMath(m)
    ensures newId !in r.ids
  {
    if rows == [] then Scan([], None) else InterStep(m, f, v, newId, InterScan(m, f, rows[..|rows| - 1], newId, v), rows[|rows| - 1])
  }

  /** One row of the scan. */
  function InterStep(m: Math, f: Codec.Binary32, v: seq<real>, newId: string, p: Scan, row: Db.VectorRow): (r: Scan)
    requires ValidMath(m)
  {
    if p.err.Some? || row.id == newId then p
    else if Codec.Decode(f, row.v).Err? then Scan(p.ids, Some(Codec.Decode(f, row.v).msg))
    else if Matches(m, f, v, row, newId) then Scan(p.ids + [row.id], None)
    else p
  }

  /** The decoding and comparison of one stored vector. */
  method Compare(m: Math, f: Codec.Binary32, v: seq<real>, row: Db.VectorRow, newId: string) returns (r: Result<bool>)
    requires ValidMath(m) && row.id != newId
    ensures r.Err? <==> Codec.Decode(f, row.v).Err?
    ensures r.Err? ==> r.msg == Codec.Decode(f, row.v).msg
    ensures r.Ok? ==> (r.value <==> Matches(m, f, v, row, newId))
  {
    var existingVector := Load(f, row.v);
    if existingVector.Err? {
      return Err(existingVector.msg);
    }
    var similarity := Vectors.CosineSimilarity(m, v, existingVector.value);
    return Ok(similarity >= 0.75);
  }

  /** Once the scan has thrown, the rest of the rows change nothing. */
  lemma {:induction false} InterScanThrown(m: Math, f: Codec.Binary32, rows: seq<Db.VectorRow>, newId: string, v: seq<real>, i: nat)
    requires ValidMath(m) && i <= |rows| && InterScan(m, f, rows[..i], newId, v).err.Some?
    ensures InterScan(m, f, rows, newId, v) == InterScan(m, f, rows[..i], newId, v)
  {
    if i < |rows| {
      var init := rows[..|rows| - 1];
      assert init[..i] == rows[..i];
      InterScanThrown(m, f, init, newId, v, i);
    } else {
      Js.WholeSlice(rows);
    }
  }

  /** The scan links only matching rows, and all of them when it does not throw. */
  lemma {:induction false} InterScanMatches(m: Math, f: Codec.Binary32, rows: seq<Db.VectorRow>, newId: string, v: seq<real>)
    requires ValidMath(m)
    ensures var r := InterScan(m, f, rows, newId, v);
      && (forall id :: id in r.ids ==> exists row :: row in rows && row.id == id && Matches(m, f, v, row, newId))
      && (r.err.None? ==> forall row :: row in rows && Matches(m, f, v, row, newId) ==> row.id in r.ids)
  {
    if rows != [] {
      var init := rows[..|rows| - 1];
      var row := rows[|rows| - 1];
      assert rows == init + [row];
      InterScanMatches(m, f, init, newId, v);
      var p := InterScan(m, f, init, newId, v);
      var r := InterScan(m, f, rows, newId, v);
      forall id | id in r.ids
        ensures exists row :: row in rows && row.id == id && Matches(m, f, v, row, newId)
      {
        if id in p.ids {
          var x :| x in init && x.id == id && Matches(m, f, v, x, newId);
          assert x in rows;
        } else {
          assert r.ids == p.ids + [row.id];
          assert row in rows && row.id == id && Matches(m, f, v, row, newId);
        }
      }
    }
  }

  /** The links of `createInterMemoryWaypoints`: both ways to each match. */
  function InterMemory(m: Math, f: Codec.Binary32, t: Db.Tables, newId: string, primarySector: string, v: seq<real>, now: int): (r: Db.Tables)
    requires ValidMath(m)
  {
    InsAll(t, PairEdges(newId, InterScan(m, f, Db.GetVecsBySector(t, primarySector), newId, v).ids, now))
  }

  /** The two inserts linking `newId` and `other` both ways. */
  method LinkBothWays(store: Database.Store, newId: string, other: string, timestamp: int, ghost t: Db.Tables, ghost ids: seq<string>)
    requires store.Valid() && store.State() == InsAll(t, PairEdges(newId, ids, timestamp))
    modifies store
    ensures store.Valid() && store.saved == old(store.saved)
    ensures store.State() == InsAll(t, PairEdges(newId, ids + [other], timestamp))
  {
    var fwd := Db.Waypoint(newId, other, 0.5, timestamp, timestamp);
    var back := Db.Waypoint(other, newId, 0.5, timestamp, timestamp);
    ghost var ids' := ids + [other];
    assert ids'[..|ids'| - 1] == ids && ids'[|ids'| - 1] == other;
    assert PairEdges(newId, ids', timestamp) == PairEdges(newId, ids, timestamp) + [fwd, back];
    InsAllSnoc2(t, PairEdges(newId, ids, timestamp), fwd, back);
    store.InsWaypoint(fwd);
    store.InsWaypoint(back);
  }

  lemma InterScanSnoc(m: Math, f: Codec.Binary32, rows: seq<Db.VectorRow>, newId: string, v: seq<real>, i: nat)
    requires ValidMath(m) && i < |rows|
    ensures InterScan(m, f, rows[..i + 1], newId, v) == InterStep(m, f, v, newId, InterScan(m, f, rows[..i], newId, v), rows[i])
  {
    assert rows[..i + 1][..i] == rows[..i] && rows[..i + 1][i] == rows[i];
  }

  /** The loop of `createInterMemoryWaypoints` over the rows read. */
  method LinkMatches(store: Database.Store, m: Math, f: Codec.Binary32, newId: string, vectors: seq<Db.VectorRow>,
                     newVector: seq<real>, timestamp: int) returns (r: Result<()>)
    requires store.Valid() && ValidMath(m)
    modifies store
    ensures store.Valid() && store.saved == old(store.saved)
    ensures store.State() == InsAll(old(store.State()), PairEdges(newId, InterScan(m, f, vectors, newId, newVector).ids, timestamp))
    ensures r.Err? <==> InterScan(m, f, vectors, newId, newVector).err.Some?
  {
    ghost var t := store.State();
    for i := 0 to |vectors|
      invariant store.Valid() && store.saved == old(store.saved)
      invariant InterScan(m, f, vectors[..i], newId, newVector).err.None?
      invariant store.State() == InsAll(t, PairEdges(newId, InterScan(m, f, vectors[..i], newId, newVector).ids, timestamp))
    {
      ghost var p := InterScan(m, f, vectors[..i], newId, newVector);
      var vecRow := vectors[i];
      InterScanSnoc(m, f, vectors, newId, newVector, i);
      if vecRow.id == newId {
        assert InterStep(m, f, newVector, newId, p, vecRow) == p;
        continue;
      }
      var similar := Compare(m, f, newVector, vecRow, newId);
      if similar.Err? {
        InterScanThrown(m, f, vectors, newId, newVector, i + 1);
        return Err(similar.msg);
      }
      if similar.value {
        assert InterStep(m, f, newVector, newId, p, vecRow) == Scan(p.ids + [vecRow.id], None);
        LinkBothWays(store, newId, vecRow.id, timestamp, t, p.ids);
      } else {
        assert InterStep(m, f, newVector, newId, p, vecRow) == p;
      }
    }
    Js.WholeSlice(vectors);
    r := Ok(());
  }

  /** `createInterMemoryWaypoints`. */
  method CreateInterMemoryWaypoints(store: Database.Store, m: Math, f: Codec.Binary32, newId: string, primarySector: string,
                                    newVector: seq<real>, timestamp: int) returns (r: Result<()>)
    requires store.Valid() && ValidMath(m)
    modifies store
    ensures store.Valid() && store.saved == old(store.saved)
    ensures store.State() == InterMemory(m, f, old(store.State()), newId, primarySector, newVector, timestamp)
    ensures r.Err? <==> InterScan(m, f, Db.GetVecsBySector(old(store.State()), primarySector), newId, newVector).err.Some?
  {
    var vectors := Db.GetVecsBySector(store.State(), primarySector);
    r := LinkMatches(store, m, f, newId, vectors, newVector, timestamp);
  }

  /** When the scan completes: every matching row links back to the new memory;
      the new memory keeps one outgoing edge (the key being `src_id`), to a
      match, or nothing changes when nothing matches; edges leaving any other
      node are unchanged. */
  lemma LinkMatchesEdges(m: Math, f: Codec.Binary32, t: Db.Tables, newId: string, rows: seq<Db.VectorRow>, v: seq<real>, now: int)
    requires ValidMath(m) && Db.Keyed(t)
    requires InterScan(m, f, rows, newId, v).err.None?
    ensures var u := InsAll(t, PairEdges(newId, InterScan(m, f, rows, newId, v).ids, now));
      && Db.Keyed(u)
      && u.memories == t.memories && u.vectors == t.vectors && u.logs == t.logs
      && (forall row :: row in rows && Matches(m, f, v, row, newId) ==> Db.Waypoint(row.id, newId, 0.5, now, now) in u.waypoints)
      && ((forall row :: row in rows ==> !Matches(m, f, v, row, newId)) ==> u == t)
      && ((exists row :: row in rows && Matches(m, f, v, row, newId)) ==>
            forall x :: x in u.waypoints && x.src == newId ==>
              x.weight == 0.5 && exists row :: row in rows && row.id == x.dst && Matches(m, f, v, row, newId))
      && (forall x: Db.Waypoint :: x.src != newId && (forall row :: row in rows && Matches(m, f, v, row, newId) ==> row.id != x.src) ==>
            (x in u.waypoints <==> x in t.waypoints))
  {
    var ids := InterScan(m, f, rows, newId, v).ids;
    InterScanMatches(m, f, rows, newId, v);
    PairEdgesEffect(t, newId, ids, now);
    if ids != [] {
      assert ids[|ids| - 1] in ids;
    }
    if exists row :: row in rows && Matches(m, f, v, row, newId) {
      var row :| row in rows && Matches(m, f, v, row, newId);
      assert row.id in ids;
    }
    forall x: Db.Waypoint | x.src != newId && (forall row :: row in rows && Matches(m, f, v, row, newId) ==> row.id != x.src)
      ensures x.src !in ids
    {
    }
  }

  /** The same for the rows `createInterMemoryWaypoints` reads: the vectors of
      the primary sector. */
  lemma InterMemoryEdges(m: Math, f: Codec.Binary32, t: Db.Tables, newId: string, primarySector: string, v: seq<real>, now: int)
    requires ValidMath(m) && Db.Keyed(t)
    requires InterScan(m, f, Db.GetVecsBySector(t, primarySector), newId, v).err.None?
    ensures var u := InterMemory(m, f, t, newId, primarySector, v, now);
      && Db.Keyed(u)
      && (forall row :: row in t.vectors && row.sector == primarySector && Matches(m, f, v, row, newId) ==>
            Db.Waypoint(row.id, newId, 0.5, now, now) in u.waypoints)
      && ((exists row :: row in t.vectors && row.sector == primarySector && Matches(m, f, v, row, newId)) ==>
            forall x :: x in u.waypoints && x.src == newId ==>
              x.weight == 0.5
              && exists row :: row in t.vectors && row.sector == primarySector && row.id == x.dst && Matches(m, f, v, row, newId))
  {
    var rows := Db.GetVecsBySector(t, primarySector);
    LinkMatchesEdges(m, f, t, newId, rows, v, now);
  }

  // ---- weights kept in [0, 1] ---------------------------------------------------------

  /** No edge weighs more than the maximum waypoint weight. */
  ghost predicate Capped(t: Db.Tables)
  {
    forall i :: 0 <= i < |t.waypoints| ==> t.waypoints[i].weight <= Sectors.MaxWaypointWeight
  }

  /** Updating an edge rewrites that edge only, in place. */
  lemma UpdWaypointPointwise(t: Db.Tables, weight: real, updated: int, src: string, dst: string)
    ensures var u := Db.UpdWaypoint(t, weight, updated, src, dst);
      && |u.waypoints| == |t.waypoints|
      && forall i :: 0 <= i < |t.waypoints| ==>
           u.waypoints[i] == if t.waypoints[i].src == src && t.waypoints[i].dst == dst
                             then t.waypoints[i].(weight := weight, updatedAt := updated) else t.waypoints[i]
  {
  }

  /** Updating an edge leaves every other edge as it was. */
  lemma UpdWaypointOthers(t: Db.Tables, weight: real, updated: int, src: string, dst: string)
    ensures var u := Db.UpdWaypoint(t, weight, updated, src, dst);
      forall x: Db.Waypoint :: !(x.src == src && x.dst == dst) ==> (x in u.waypoints <==> x in t.waypoints)
  {
    var u := Db.UpdWaypoint(t, weight, updated, src, dst);
    UpdWaypointPointwise(t, weight, updated, src, dst);
    forall x: Db.Waypoint | !(x.src == src && x.dst == dst) ensures x in u.waypoints <==> x in t.waypoints {
      if x in u.waypoints {
        var i :| 0 <= i < |u.waypoints| && u.waypoints[i] == x;
        assert t.waypoints[i] == x;
      }
      if x in t.waypoints {
        var i :| 0 <= i < |t.waypoints| && t.waypoints[i] == x;
        assert u.waypoints[i] == x;
      }
    }
  }

  /** An insert or an update with a weight at most 1 keeps every weight at most 1. */
  lemma CappedKept(t: Db.Tables, w: Db.Waypoint, weight: real, updated: int, src: string, dst: string)
    requires Capped(t) && w.weight <= Sectors.MaxWaypointWeight && weight <= Sectors.MaxWaypointWeight
    ensures Capped(Db.InsWaypoint(t, w))
    ensures Capped(Db.UpdWaypoint(t, weight, updated, src, dst))
  {
    CappedIns(t, w);
    UpdWaypointPointwise(t, weight, updated, src, dst);
  }

  lemma CappedIns(t: Db.Tables, w: Db.Waypoint)
    requires Capped(t) && w.weight <= Sectors.MaxWaypointWeight
    ensures Capped(Db.InsWaypoint(t, w))
  {
    var f := Js.Filter(t.waypoints, Db.NotFrom(w.src));
    forall i | 0 <= i < |f| ensures f[i].weight <= Sectors.MaxWaypointWeight {
      assert f[i] in t.waypoints;
    }
    assert Db.InsWaypoint(t, w).waypoints == f + [w];
  }


  // ---- createContextualWaypoints ------------------------------------------------------

  /** An existing contextual edge's new weight: 0.1 more, capped at 1. */
  function ContextBoost(w: real): (r: real)
    ensures r <= 1.0 && (r == w + 0.1 || r == 1.0)
    ensures w <= 1.0 ==> w <= r
  {
    Min(1.0, w + 0.1)
  }

  /** One related id: an existing edge gains 0.1 up to 1, a missing one is
      inserted with the base weight; the memory itself is skipped. */
  function ContextStep(t: Db.Tables, memoryId: string, relatedId: string, baseWeight: real, now: int): Db.Tables
  {
    if memoryId == relatedId then t
    else match Db.GetWaypoint(t, memoryId, relatedId)
      case Some(w) => Db.UpdWaypoint(t, ContextBoost(w), now, memoryId, relatedId)
      case None => Db.InsWaypoint(t, Db.Waypoint(memoryId, relatedId, baseWeight, now, now))
  }

  /** The related ids, in order. */
  function Contextual(t: Db.Tables, memoryId: string, relatedIds: seq<string>, baseWeight: real, now: int): Db.Tables
  {
    if relatedIds == [] then t
    else ContextStep(Contextual(t, memoryId, relatedIds[..|relatedIds| - 1], baseWeight, now), memoryId, relatedIds[|relatedIds| - 1], baseWeight, now)
  }

  /** `createContextualWaypoints`. */
  method CreateContextualWaypoints(store: Database.Store, memoryId: string, relatedMemoryIds: seq<string>, baseWeight: real, now: int)
    requires store.Valid()
    modifies store
    ensures store.Valid() && store.saved == old(store.saved)
    ensures store.State() == Contextual(old(store.State()), memoryId, relatedMemoryIds, baseWeight, now)
  {
    ghost var t := store.State();
    for i := 0 to |relatedMemoryIds|
      invariant store.Valid() && store.saved == old(store.saved)
      invariant store.State() == Contextual(t, memoryId, relatedMemoryIds[..i], baseWeight, now)
    {
      var relatedId := relatedMemoryIds[i];
      Js.PrefixSlice(relatedMemoryIds, i, i + 1);
      if memoryId == relatedId {
        continue;
      }
      var existing := Db.GetWaypoint(store.State(), memoryId, relatedId);
      if existing.Some? {
        var newWeight := ContextBoost(existing.value);
        store.UpdWaypoint(newWeight, now, memoryId, relatedId);
      } else {
        store.InsWaypoint(Db.Waypoint(memoryId, relatedId, baseWeight, now, now));
      }
    }
    Js.WholeSlice(relatedMemoryIds);
  }

  /** After one related id the memory's edge to it exists: strengthened by 0.1 up
      to 1 when it existed, with the base weight otherwise; no other node's
      edges change. */
  lemma ContextStepEffect(t: Db.Tables, memoryId: string, relatedId: string, baseWeight: real, now: int)
    requires Db.Keyed(t) && memoryId != relatedId
    ensures var u := ContextStep(t, memoryId, relatedId, baseWeight, now);
      && Db.Keyed(u)
      && u.memories == t.memories && u.vectors == t.vectors && u.logs == t.logs
      && Db.GetWaypoint(u, memoryId, relatedId) ==
           Some(if Db.GetWaypoint(t, memoryId, relatedId).Some? then ContextBoost(Db.GetWaypoint(t, memoryId, relatedId).value) else baseWeight)
      && forall x: Db.Waypoint :: x.src != memoryId ==> (x in u.waypoints <==> x in t.waypoints)
  {
    var e := Db.GetWaypoint(t, memoryId, relatedId);
    if e.Some? {
      var w := ContextBoost(e.value);
      assert ContextStep(t, memoryId, relatedId, baseWeight, now) == Db.UpdWaypoint(t, w, now, memoryId, relatedId);
      ContextStrengthens(t, memoryId, relatedId, w, now);
    } else {
      var w := Db.Waypoint(memoryId, relatedId, baseWeight, now, now);
      assert ContextStep(t, memoryId, relatedId, baseWeight, now) == Db.InsWaypoint(t, w);
      ContextInserts(t, w);
    }
  }

  /** The update branch of a contextual step. */
  lemma ContextStrengthens(t: Db.Tables, memoryId: string, relatedId: string, w: real, now: int)
    requires Db.Keyed(t) && Db.GetWaypoint(t, memoryId, relatedId).Some?
    ensures var u := Db.UpdWaypoint(t, w, now, memoryId, relatedId);
      && Db.Keyed(u)
      && u.memories == t.memories && u.vectors == t.vectors && u.logs == t.logs
      && Db.GetWaypoint(u, memoryId, relatedId) == Some(w)
      && forall x: Db.Waypoint :: x.src != memoryId ==> (x in u.waypoints <==> x in t.waypoints)
  {
    Db.UpdWaypointEffect(t, w, now, memoryId, relatedId);
    UpdWaypointOthers(t, w, now, memoryId, relatedId);
  }

  /** The insert branch of a contextual step. */
  lemma ContextInserts(t: Db.Tables, w: Db.Waypoint)
    requires Db.Keyed(t) && w.src != w.dst
    ensures var u := Db.InsWaypoint(t, w);
      && Db.Keyed(u)
      && u.memories == t.memories && u.vectors == t.vectors && u.logs == t.logs
      && Db.GetWaypoint(u, w.src, w.dst) == Some(w.weight)
      && forall x: Db.Waypoint :: x.src != w.src ==> (x in u.waypoints <==> x in t.waypoints)
  {
    Db.InsWaypointReplaces(t, w);
    assert w in Db.InsWaypoint(t, w).waypoints;
  }

  /** The contextual links keep keys unique and, with a base weight at most 1,
      keep every weight at most 1. */
  lemma {:induction false} ContextualKeeps(t: Db.Tables, memoryId: string, relatedIds: seq<string>, baseWeight: real, now: int)
    requires Db.Keyed(t) && Capped(t) && baseWeight <= 1.0
    ensures var u := Contextual(t, memoryId, relatedIds, baseWeight, now);
      Db.Keyed(u) && Capped(u) && u.memories == t.memories && u.vectors == t.vectors && u.logs == t.logs
  {
    if relatedIds != [] {
      var p := Contextual(t, memoryId, relatedIds[..|relatedIds| - 1], baseWeight, now);
      var r := relatedIds[|relatedIds| - 1];
      ContextualKeeps(t, memoryId, relatedIds[..|relatedIds| - 1], baseWeight, now);
      if memoryId != r {
        ContextStepEffect(p, memoryId, r, baseWeight, now);
        var e := Db.GetWaypoint(p, memoryId, r);
        CappedKept(p, Db.Waypoint(memoryId, r, baseWeight, now, now), if e.Some? then ContextBoost(e.value) else 0.0, now, memoryId, r);
      }
    }
  }

  // ---- reinforceWaypoints -------------------------------------------------------------

  /** A traversed edge's new weight: the waypoint boost more, capped at the
      maximum weight. */
  function TraversalBoost(w: real): (r: real)
    ensures r <= Sectors.MaxWaypointWeight && (r == w + Sectors.WaypointBoost || r == Sectors.MaxWaypointWeight)
    ensures w <= Sectors.MaxWaypointWeight ==> w <= r
  {
    Min(Sectors.MaxWaypointWeight, w + Sectors.WaypointBoost)
  }

  /** One traversed hop: an existing edge gains the waypoint boost up to the
      maximum weight; a missing edge is left missing. */
  function ReinforceStep(t: Db.Tables, src: string, dst: string, now: int): Db.Tables
  {
    match Db.GetWaypoint(t, src, dst)
    case Some(w) => Db.UpdWaypoint(t, TraversalBoost(w), now, src, dst)
    case None => t
  }

  /** The first `n` hops of the path. */
  function ReinforceHops(t: Db.Tables, path: seq<string>, now: int, n: nat): Db.Tables
    requires n < |path| || n == 0
  {
    if n == 0 then t else ReinforceStep(ReinforceHops(t, path, now, n - 1), path[n - 1], path[n], now)
  }

  /** Every hop of the path. */
  function Reinforce(t: Db.Tables, path: seq<string>, now: int): Db.Tables
  {
    ReinforceHops(t, path, now, if |path| == 0 then 0 else |path| - 1)
  }

  /** `reinforceWaypoints`. */
  method ReinforceWaypoints(store: Database.Store, traversedPath: seq<string>, now: int)
    requires store.Valid()
    modifies store
    ensures store.Valid() && store.saved == old(store.saved)
    ensures store.State() == Reinforce(old(store.State()), traversedPath, now)
  {
    ghost var t := store.State();
    var i := 0;
    while i < |traversedPath| - 1
      invariant 0 <= i && (i < |traversedPath| || i == 0)
      invariant store.Valid() && store.saved == old(store.saved)
      invariant store.State() == ReinforceHops(t, traversedPath, now, i)
    {
      var srcId := traversedPath[i];
      var dstId := traversedPath[i + 1];
      var waypoint := Db.GetWaypoint(store.State(), srcId, dstId);
      if waypoint.Some? {
        var newWeight := TraversalBoost(waypoint.value);
        store.UpdWaypoint(newWeight, now, srcId, dstId);
      }
      i := i + 1;
    }
  }

  /** The same edges, in the same places, each at least as heavy as before. */
  ghost predicate Strengthened(t: Db.Tables, u: Db.Tables)
  {
    && u.memories == t.memories && u.vectors == t.vectors && u.logs == t.logs
    && |u.waypoints| == |t.waypoints|
    && forall i :: 0 <= i < |t.waypoints| ==>
         && u.waypoints[i].src == t.waypoints[i].src && u.waypoints[i].dst == t.waypoints[i].dst
         && u.waypoints[i].createdAt == t.waypoints[i].createdAt
         && t.waypoints[i].weight <= u.waypoints[i].weight
  }

  /** The weight `get_waypoint` reports is the weight of the one row with that
      source and destination. */
  lemma EdgeWeight(t: Db.Tables, src: string, dst: string)
    requires Db.Keyed(t) && Db.GetWaypoint(t, src, dst).Some?
    ensures forall i :: 0 <= i < |t.waypoints| && t.waypoints[i].src == src && t.waypoints[i].dst == dst ==>
      t.waypoints[i].weight == Db.GetWaypoint(t, src, dst).value
  {
    var x :| x in t.waypoints && x.src == src && x.dst == dst && x.weight == Db.GetWaypoint(t, src, dst).value;
    var k :| 0 <= k < |t.waypoints| && t.waypoints[k] == x;
    forall i | 0 <= i < |t.waypoints| && t.waypoints[i].src == src && t.waypoints[i].dst == dst
      ensures t.waypoints[i].weight == x.weight
    {
    }
  }

  /** One hop strengthens the edge it follows, up to the maximum, and changes
      nothing else. */
  lemma ReinforceStepEffect(t: Db.Tables, src: string, dst: string, now: int)
    requires Db.Keyed(t) && Capped(t)
    ensures var u := ReinforceStep(t, src, dst, now);
      && Db.Keyed(u) && Capped(u) && Strengthened(t, u)
      && (Db.GetWaypoint(t, src, dst).Some? ==>
            Db.GetWaypoint(u, src, dst) == Some(TraversalBoost(Db.GetWaypoint(t, src, dst).value)))
  {
    var e := Db.GetWaypoint(t, src, dst);
    if e.Some? {
      var w := TraversalBoost(e.value);
      Db.UpdWaypointEffect(t, w, now, src, dst);
      UpdWaypointPointwise(t, w, now, src, dst);
      EdgeWeight(t, src, dst);
    }
  }

  /** Reinforcing a path keeps keys unique and weights at most 1, adds and
      removes no edge, and lowers no weight. */
  lemma {:induction false} ReinforceKeeps(t: Db.Tables, path: seq<string>, now: int, n: nat)
    requires n < |path| || n == 0
    requires Db.Keyed(t) && Capped(t)
    ensures var u := ReinforceHops(t, path, now, n);
      Db.Keyed(u) && Capped(u) && Strengthened(t, u)
  {
    if n > 0 {
      var p := ReinforceHops(t, path, now, n - 1);
      ReinforceKeeps(t, path, now, n - 1);
      ReinforceStepEffect(p, path[n - 1], path[n], now);
      StrengthenedTrans(t, p, ReinforceStep(p, path[n - 1], path[n], now));
    }
  }

  lemma StrengthenedTrans(t: Db.Tables, p: Db.Tables, u: Db.Tables)
    requires Strengthened(t, p) && Strengthened(p, u)
    ensures Strengthened(t, u)
  {
    forall i | 0 <= i < |t.waypoints|
      ensures && u.waypoints[i].src == t.waypoints[i].src && u.waypoints[i].dst == t.waypoints[i].dst
              && u.waypoints[i].createdAt == t.waypoints[i].createdAt
              && t.waypoints[i].weight <= u.waypoints[i].weight
    {
      assert p.waypoints[i].weight <= u.waypoints[i].weight;
    }
  }

  /** Reinforcing a path writes only the waypoint table. */
  lemma ReinforceKeepsMemories(t: Db.Tables, path: seq<string>, now: int)
    ensures Reinforce(t, path, now).memories == t.memories
  {
    ReinforceHopsKeepMemories(t, path, now, if |path| == 0 then 0 else |path| - 1);
  }

  lemma {:induction false} ReinforceHopsKeepMemories(t: Db.Tables, path: seq<string>, now: int, n: nat)
    requires n < |path| || n == 0
    ensures ReinforceHops(t, path, now, n).memories == t.memories
  {
    if n > 0 {
      ReinforceHopsKeepMemories(t, path, now, n - 1);
    }
  }

  // ---- pruneWeakWaypoints -------------------------------------------------------------

  /** `pruneWeakWaypoints`: drops every edge lighter than the prune threshold and,
      as written, reports 0 whatever it removed. */
  method PruneWeakWaypoints(store: Database.Store) returns (pruned: int)
    requires store.Valid()
    modifies store
    ensures store.Valid() && store.saved == old(store.saved)
    ensures store.State() == Db.PruneWaypoints(old(store.State()), Sectors.PruneThreshold)
    ensures pruned == 0
  {
    store.PruneWaypoints(Sectors.PruneThreshold);
    return 0;
  }

  // ---- expandViaWaypoints -------------------------------------------------------------

  /** `{ id, weight, path }`: a memory reached, the weight it was reached with and
      the ids walked from a seed to it. */
  datatype Item = Item(id: string, weight: real, path: seq<string>)

  /** The ids of the items. */
  ghost function Ids(items: seq<Item>): set<string>
  {
    set i | 0 <= i < |items| :: items[i].id
  }

  lemma IdsSnoc(items: seq<Item>, x: Item)
    ensures Ids(items + [x]) == Ids(items) + {x.id}
  {
    var s := items + [x];
    assert forall i :: 0 <= i < |items| ==> s[i] == items[i];
    assert s[|items|] == x;
  }

  /** The weight an item reached with weight `w` passes along an edge of weight `e`. */
  function Carried(w: real, e: real): real
  {
    w * e * 0.8
  }

  /** An item reached over an edge: a new id, reached from an earlier item along
      an edge of the graph, with that item's weight times the edge's times 0.8,
      no less than 0.1, and that item's path extended by the id. */
  ghost predicate Justified(t: Db.Tables, before: seq<Item>, x: Item)
  {
    && x.id !in Ids(before)
    && x.weight >= 0.1
    && exists p, e :: 0 <= p < |before| && e in t.waypoints && JustifiedBy(before[p], e, x)
  }

  /** `x` is reached from `from` over the edge `e`. */
  ghost predicate JustifiedBy(from: Item, e: Db.Waypoint, x: Item)
  {
    e.src == from.id && e.dst == x.id && x.weight == Carried(from.weight, e.weight) && x.path == from.path + [x.id]
  }

  /** The seeds come first, each with weight 1 and a one-id path; every later item
      is justified by the items before it. */
  ghost predicate Expansion(t: Db.Tables, seeds: seq<string>, items: seq<Item>)
  {
    && |seeds| <= |items|
    && (forall i :: 0 <= i < |seeds| ==> items[i] == Item(seeds[i], 1.0, [seeds[i]]))
    && forall j :: |seeds| <= j < |items| ==> Justified(t, items[..j], items[j])
  }

  /** Every edge leaving the item leads to an id already reached, or would give a
      weight below 0.1. */
  ghost predicate Closed(t: Db.Tables, items: seq<Item>, x: Item)
  {
    forall e :: e in t.waypoints && e.src == x.id ==> e.dst in Ids(items) || Carried(x.weight, e.weight) < 0.1
  }

  lemma ExpansionSnoc(t: Db.Tables, seeds: seq<string>, items: seq<Item>, x: Item)
    requires Expansion(t, seeds, items) && Justified(t, items, x)
    ensures Expansion(t, seeds, items + [x])
  {
    var s := items + [x];
    assert s[..|items|] == items;
    forall j | |seeds| <= j < |items| ensures s[..j] == items[..j] && s[j] == items[j] {
    }
  }

  lemma ClosedGrows(t: Db.Tables, items: seq<Item>, x: Item, y: Item)
    requires Closed(t, items, x)
    ensures Closed(t, items + [y], x)
  {
    IdsSnoc(items, y);
  }

  /** Adding an item reached over an edge from the current one keeps the
      expansion justified and the items before the current one closed. */
  lemma VisitAdds(t: Db.Tables, seeds: seq<string>, head: nat, expanded: seq<Item>, e: Db.Waypoint, x: Item)
    requires Expansion(t, seeds, expanded) && head < |expanded|
    requires e in t.waypoints && x.id !in Ids(expanded) && x.weight >= 0.1 && JustifiedBy(expanded[head], e, x)
    requires forall k :: 0 <= k < head ==> Closed(t, expanded, expanded[k])
    ensures Expansion(t, seeds, expanded + [x]) && Ids(expanded + [x]) == Ids(expanded) + {x.id}
    ensures (expanded + [x])[head + 1..] == expanded[head + 1..] + [x]
    ensures forall k :: 0 <= k < head ==> Closed(t, expanded + [x], expanded[k])
  {
    assert Justified(t, expanded, x);
    ExpansionSnoc(t, seeds, expanded, x);
    forall k | 0 <= k < head ensures Closed(t, expanded + [x], expanded[k]) {
      ClosedGrows(t, expanded, expanded[k], x);
    }
    IdsSnoc(expanded, x);
  }

  /** The inner loop of `expandViaWaypoints`: each neighbour of the current item
      not yet visited and reached with weight at least 0.1 is added, marked
      visited and queued. */
  method Visit(ghost t: Db.Tables, ghost seeds: seq<string>, ghost head: nat, current: Item, neighbors: seq<Db.Waypoint>,
               expanded0: seq<Item>, visited0: set<string>, queue0: seq<Item>, count0: int)
    returns (expanded: seq<Item>, visited: set<string>, queue: seq<Item>, count: int)
    requires Expansion(t, seeds, expanded0) && visited0 == Ids(expanded0)
    requires head < |expanded0| && queue0 == expanded0[head + 1..] && current == expanded0[head]
    requires count0 == |expanded0| - |seeds|
    requires forall k :: 0 <= k < head ==> Closed(t, expanded0, expanded0[k])
    requires forall e :: e in neighbors <==> e in t.waypoints && e.src == current.id
    ensures Expansion(t, seeds, expanded) && visited == Ids(expanded)
    ensures |expanded0| <= |expanded| && queue == expanded[head + 1..]
    ensures count == |expanded| - |seeds| <= count0 + |neighbors|
    ensures forall k :: 0 <= k <= head ==> Closed(t, expanded, expanded[k])
  {
    expanded, visited, queue, count := expanded0, visited0, queue0, count0;
    for n := 0 to |neighbors|
      invariant Expansion(t, seeds, expanded) && visited == Ids(expanded)
      invariant head < |expanded0| <= |expanded| && queue == expanded[head + 1..] && current == expanded[head]
      invariant count == |expanded| - |seeds| <= count0 + n
      invariant forall k :: 0 <= k < head ==> Closed(t, expanded, expanded[k])
      invariant forall k :: 0 <= k < n ==> neighbors[k].dst in Ids(expanded) || Carried(current.weight, neighbors[k].weight) < 0.1
    {
      var neighbor := neighbors[n];
      if neighbor.dst in visited {
        continue;
      }
      var expandedWeight := Carried(current.weight, neighbor.weight);
      if expandedWeight < 0.1 {
        continue;
      }
      var expandedItem := Item(neighbor.dst, expandedWeight, current.path + [neighbor.dst]);
      VisitAdds(t, seeds, head, expanded, neighbor, expandedItem);
      expanded := expanded + [expandedItem];
      visited := visited + {neighbor.dst};
      queue := queue + [expandedItem];
      count := count + 1;
    }
    forall e | e in t.waypoints && e.src == current.id
      ensures e.dst in Ids(expanded) || Carried(current.weight, e.weight) < 0.1
    {
      var k :| 0 <= k < |neighbors| && neighbors[k] == e;
    }
  }

  /** `expandViaWaypoints`: a breadth-first walk from the seeds along outgoing
      edges that stops once `maxExpansions` items have been added. Every item
      after the seeds is justified by an edge; at most `maxExpansions` are added
      (a node has at most one outgoing edge, `src_id` being the key, so the
      inner loop cannot overshoot); and when fewer were added the walk ran out
      of queue, so no edge out of a reached item leads anywhere new with weight
      0.1 or more. */
  method ExpandViaWaypoints(store: Database.Store, initialResults: seq<string>, maxExpansions: int) returns (expanded: seq<Item>)
    requires store.Valid()
    ensures Expansion(store.State(), initialResults, expanded)
    ensures |expanded| == |initialResults| || |expanded| - |initialResults| <= maxExpansions
    ensures |expanded| - |initialResults| < maxExpansions ==>
      forall k :: 0 <= k < |expanded| ==> Closed(store.State(), expanded, expanded[k])
  {
    ghost var t := store.State();
    expanded := [];
    var visited: set<string> := {};
    for i := 0 to |initialResults|
      invariant |expanded| == i && visited == Ids(expanded)
      invariant forall k :: 0 <= k < i ==> expanded[k] == Item(initialResults[k], 1.0, [initialResults[k]])
    {
      IdsSnoc(expanded, Item(initialResults[i], 1.0, [initialResults[i]]));
      expanded := expanded + [Item(initialResults[i], 1.0, [initialResults[i]])];
      visited := visited + {initialResults[i]};
    }
    var queue := expanded;
    ghost var head := 0;
    var expansionCount := 0;
    while |queue| > 0 && expansionCount < maxExpansions
      invariant Expansion(t, initialResults, expanded)
      invariant visited == Ids(expanded)
      invariant 0 <= head <= |expanded| && queue == expanded[head..]
      invariant expansionCount == |expanded| - |initialResults|
      invariant expansionCount == 0 || expansionCount <= maxExpansions
      invariant forall k :: 0 <= k < head ==> Closed(t, expanded, expanded[k])
      decreases maxExpansions - expansionCount, |queue|
    {
      var current := queue[0];
      queue := queue[1..];
      var neighbors := Db.GetNeighbors(store.State(), current.id);
      Db.GetNeighborsFacts(t, current.id);
      expanded, visited, queue, expansionCount := Visit(t, initialResults, head, current, neighbors, expanded, visited, queue, expansionCount);
      head := head + 1;
    }
  }
}
