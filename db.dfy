/** The SQLite store: the four tables `memories`, `vectors`, `waypoints` and
    `embed_logs`, every prepared statement of `q`, and `BEGIN`/`COMMIT`/`ROLLBACK`.
    A table is the sequence of its rows in rowid order; a `select` without
    `order by` returns its rows in that order, and `order by ... desc` is the
    stable descending sort of `Sorting`. `insert or replace` deletes the row with
    the same primary key and appends the new one, as SQLite does. */
module Db {
  import opened Wrappers
  import Sorting
  import Js
  import Codec

  type Bytes = Codec.Bytes

  /** A row of `memories` (primary key `id`). */
  datatype Memory = Memory(
    id: string, content: string, primarySector: string, tags: Option<string>, meta: string,
    createdAt: int, updatedAt: int, lastSeenAt: int, salience: real, decayLambda: real,
    version: int, meanDim: Option<nat>, meanVec: Option<Bytes>)

  /** A row of `vectors` (primary key `(id, sector)`). */
  datatype VectorRow = VectorRow(id: string, sector: string, v: Bytes, dim: nat)

  /** A row of `waypoints` (primary key `src_id` alone). */
  datatype Waypoint = Waypoint(src: string, dst: string, weight: real, createdAt: int, updatedAt: int)

  /** A row of `embed_logs` (primary key `id`). */
  datatype EmbedLog = EmbedLog(id: string, model: string, status: string, ts: int, err: Option<string>)

  datatype Tables = Tables(memories: seq<Memory>, vectors: seq<VectorRow>, waypoints: seq<Waypoint>, logs: seq<EmbedLog>)

  const Empty := Tables([], [], [], [])

  /** Every table holds at most one row per primary key. */
  ghost predicate Keyed(t: Tables)
  {
    && (forall i, j :: 0 <= i < j < |t.memories| ==> t.memories[i].id != t.memories[j].id)
    && (forall i, j :: 0 <= i < j < |t.vectors| ==>
          (t.vectors[i].id, t.vectors[i].sector) != (t.vectors[j].id, t.vectors[j].sector))
    && (forall i, j :: 0 <= i < j < |t.waypoints| ==> t.waypoints[i].src != t.waypoints[j].src)
    && (forall i, j :: 0 <= i < j < |t.logs| ==> t.logs[i].id != t.logs[j].id)
  }

  // ---- memories ---------------------------------------------------------------

  predicate HasMem(ms: seq<Memory>, id: string)
  {
    exists m :: m in ms && m.id == id
  }

  /** `get_mem`: the row with that id, if any. */
  function GetMem(t: Tables, id: string): (r: Option<Memory>)
    ensures r.Some? ==> r.value in t.memories && r.value.id == id
    ensures r.None? <==> !HasMem(t.memories, id)
  {
    FindMem(t.memories, id)
  }

  function FindMem(ms: seq<Memory>, id: string): (r: Option<Memory>)
    ensures r.Some? ==> r.value in ms && r.value.id == id
    ensures r.None? <==> !HasMem(ms, id)
  {
    if ms == [] then None
    else if ms[0].id == id then Some(ms[0])
    else
      var r := FindMem(ms[1..], id);
      assert ms == [ms[0]] + ms[1..];
      r
  }

  /** `ins_mem`: a plain insert, refused when the id is taken. */
  function InsMem(t: Tables, m: Memory): (r: Result<Tables>)
    ensures r.Err? <==> HasMem(t.memories, m.id)
    ensures r.Ok? ==> r.value == t.(memories := t.memories + [m])
  {
    if HasMem(t.memories, m.id) then Err("SQLITE_CONSTRAINT: UNIQUE constraint failed: memories.id")
    else Ok(t.(memories := t.memories + [m]))
  }

  /** Replaces every row with id `id` by `f` of it. */
  function MapMem(ms: seq<Memory>, id: string, f: Memory -> Memory): (r: seq<Memory>)
    ensures |r| == |ms|
    ensures forall i :: 0 <= i < |ms| ==> r[i] == if ms[i].id == id then f(ms[i]) else ms[i]
  {
    if ms == [] then []
    else [if ms[0].id == id then f(ms[0]) else ms[0]] + MapMem(ms[1..], id, f)
  }

  function SetMean(dim: nat, vec: Bytes): Memory -> Memory
  {
    (m: Memory) => m.(meanDim := Some(dim), meanVec := Some(vec))
  }

  function SetSeen(lastSeen: int, salience: real, updated: int): Memory -> Memory
  {
    (m: Memory) => m.(lastSeenAt := lastSeen, salience := salience, updatedAt := updated)
  }

  function SetSalience(salience: real, updated: int): Memory -> Memory
  {
    (m: Memory) => m.(salience := salience, updatedAt := updated)
  }

  /** `upd_mean_vec`. */
  function UpdMeanVec(t: Tables, dim: nat, vec: Bytes, id: string): Tables
  {
    t.(memories := MapMem(t.memories, id, SetMean(dim, vec)))
  }

  /** `upd_seen`: sets `last_seen_at`, `salience` and `updated_at` of the row with that id. */
  function UpdSeen(t: Tables, lastSeen: int, salience: real, updated: int, id: string): Tables
  {
    t.(memories := MapMem(t.memories, id, SetSeen(lastSeen, salience, updated)))
  }

  /** `update memories set salience=?, updated_at=? where id=?` (the legacy decay sweep). */
  function UpdSalience(t: Tables, salience: real, updated: int, id: string): Tables
  {
    t.(memories := MapMem(t.memories, id, SetSalience(salience, updated)))
  }

  /** `upd_seen` changes exactly those three fields of that one row, and nothing else. */
  lemma UpdSeenEffect(t: Tables, lastSeen: int, salience: real, updated: int, id: string)
    requires Keyed(t)
    ensures var u := UpdSeen(t, lastSeen, salience, updated, id);
      && Keyed(u)
      && u.vectors == t.vectors && u.waypoints == t.waypoints && u.logs == t.logs
      && (GetMem(t, id).None? ==> u == t)
      && (GetMem(t, id).Some? ==>
            GetMem(u, id) == Some(GetMem(t, id).value.(lastSeenAt := lastSeen, salience := salience, updatedAt := updated)))
      && (forall other :: other != id ==> GetMem(u, other) == GetMem(t, other))
  {
    var f := SetSeen(lastSeen, salience, updated);
    MapMemKeyed(t, id, f);
    MapMemFind(t.memories, id, f);
    if GetMem(t, id).None? {
      MapMemAbsent(t.memories, id, f);
    }
  }

  /** Finding a row after an update of one id that keeps ids. */
  lemma {:induction false} MapMemFind(ms: seq<Memory>, id: string, f: Memory -> Memory)
    requires forall m :: f(m).id == m.id
    ensures forall other :: other != id ==> FindMem(MapMem(ms, id, f), other) == FindMem(ms, other)
    ensures FindMem(MapMem(ms, id, f), id) == if FindMem(ms, id).Some? then Some(f(FindMem(ms, id).value)) else None
  {
    if ms != [] {
      MapMemFind(ms[1..], id, f);
      assert MapMem(ms, id, f)[1..] == MapMem(ms[1..], id, f);
    }
  }

  /** Finding a row after `upd_seen`, on the rows alone. */
  lemma MapSeenFind(ms: seq<Memory>, lastSeen: int, salience: real, updated: int, id: string)
    ensures var u := MapMem(ms, id, SetSeen(lastSeen, salience, updated));
      && (forall other :: other != id ==> FindMem(u, other) == FindMem(ms, other))
      && FindMem(u, id) == if FindMem(ms, id).Some?
                           then Some(FindMem(ms, id).value.(lastSeenAt := lastSeen, salience := salience, updatedAt := updated))
                           else None
  {
    MapMemFind(ms, id, SetSeen(lastSeen, salience, updated));
  }

  /** Appending a row leaves every other id's row where it was found. */
  lemma {:induction false} FindAppendedOther(ms: seq<Memory>, m: Memory, other: string)
    requires other != m.id
    ensures FindMem(ms + [m], other) == FindMem(ms, other)
  {
    if ms != [] {
      assert (ms + [m])[1..] == ms[1..] + [m];
      FindAppendedOther(ms[1..], m, other);
    }
  }

  lemma {:induction false} MapMemAbsent(ms: seq<Memory>, id: string, f: Memory -> Memory)
    requires !HasMem(ms, id)
    ensures MapMem(ms, id, f) == ms
  {
    if ms != [] {
      assert ms == [ms[0]] + ms[1..];
      MapMemAbsent(ms[1..], id, f);
    }
  }

  lemma MapMemKeyed(t: Tables, id: string, f: Memory -> Memory)
    requires Keyed(t)
    requires forall m :: f(m).id == m.id
    ensures Keyed(t.(memories := MapMem(t.memories, id, f)))
  {
  }

  function IdIsNot(id: string): Memory -> bool
  {
    (m: Memory) => m.id != id
  }

  /** `del_mem`. */
  function DelMem(t: Tables, id: string): (r: Tables)
    ensures forall m :: m in r.memories <==> m in t.memories && m.id != id
  {
    t.(memories := Js.Filter(t.memories, IdIsNot(id)))
  }

  /** `order by created_at desc limit ? offset ?`; a negative limit means no limit. */
  function Page<T>(rows: seq<T>, key: T -> real, limit: int, offset: int): seq<T>
  {
    var sorted := Sorting.SortDesc(rows, key);
    var from := Js.SliceFrom(sorted, if offset < 0 then 0 else offset);
    if limit < 0 || limit >= |from| then from else from[..limit]
  }

  function CreatedAt(m: Memory): real
  {
    m.createdAt as real
  }

  /** `all_mem`. */
  function AllMem(t: Tables, limit: int, offset: int): seq<Memory>
  {
    Page(t.memories, CreatedAt, limit, offset)
  }

  function InSector(sector: string): Memory -> bool
  {
    (m: Memory) => m.primarySector == sector
  }

  /** `all_mem_by_sector`. */
  function AllMemBySector(t: Tables, sector: string, limit: int, offset: int): seq<Memory>
  {
    Page(Js.Filter(t.memories, InSector(sector)), CreatedAt, limit, offset)
  }

  /** A page holds at most `limit` rows (any number when `limit` is negative), all
      from the table, newest first. */
  lemma PageFacts<T>(rows: seq<T>, key: T -> real, limit: int, offset: int)
    ensures limit >= 0 ==> |Page(rows, key, limit, offset)| <= limit
    ensures Sorting.SortedDesc(Page(rows, key, limit, offset), key)
    ensures forall x :: x in Page(rows, key, limit, offset) ==> x in rows
    ensures offset <= 0 && (limit < 0 || |rows| <= limit) ==>
      multiset(Page(rows, key, limit, offset)) == multiset(rows)
  {
    var sorted := Sorting.SortDesc(rows, key);
    Sorting.SortDescSorted(rows, key);
    var from := Js.SliceFrom(sorted, if offset < 0 then 0 else offset);
    var p := Page(rows, key, limit, offset);
    forall x | x in p ensures x in rows {
      assert x in sorted;
      assert x in multiset(sorted);
    }
  }

  // ---- vectors ----------------------------------------------------------------

  predicate HasVec(vs: seq<VectorRow>, id: string, sector: string)
  {
    exists v :: v in vs && v.id == id && v.sector == sector
  }

  /** `ins_vec`: a plain insert, refused when `(id, sector)` is taken. */
  function InsVec(t: Tables, row: VectorRow): (r: Result<Tables>)
    ensures r.Err? <==> HasVec(t.vectors, row.id, row.sector)
    ensures r.Ok? ==> r.value == t.(vectors := t.vectors + [row])
  {
    if HasVec(t.vectors, row.id, row.sector) then Err("SQLITE_CONSTRAINT: UNIQUE constraint failed: vectors.id, vectors.sector")
    else Ok(t.(vectors := t.vectors + [row]))
  }

  function VecOf(id: string): VectorRow -> bool
  {
    (v: VectorRow) => v.id == id
  }

  function VecIn(sector: string): VectorRow -> bool
  {
    (v: VectorRow) => v.sector == sector
  }

  function VecNotOf(id: string): VectorRow -> bool
  {
    (v: VectorRow) => v.id != id
  }

  function VecNotAt(id: string, sector: string): VectorRow -> bool
  {
    (v: VectorRow) => v.id != id || v.sector != sector
  }

  /** `get_vec`: the row for `(id, sector)`, if any. */
  function GetVec(t: Tables, id: string, sector: string): (r: Option<VectorRow>)
    ensures r.Some? ==> r.value in t.vectors && r.value.id == id && r.value.sector == sector
    ensures r.None? ==> !HasVec(t.vectors, id, sector)
  {
    var f := Js.Filter(t.vectors, VecOf(id));
    var g := Js.Filter(f, VecIn(sector));
    Js.FilterContains(t.vectors, VecOf(id));
    Js.FilterContains(f, VecIn(sector));
    if g == [] then None else Some(g[0])
  }

  /** `get_vecs_by_id`. */
  function GetVecsById(t: Tables, id: string): (r: seq<VectorRow>)
    ensures forall v :: v in r <==> v in t.vectors && v.id == id
  {
    Js.Filter(t.vectors, VecOf(id))
  }

  /** `get_vecs_by_sector`. */
  function GetVecsBySector(t: Tables, sector: string): (r: seq<VectorRow>)
    ensures forall v :: v in r <==> v in t.vectors && v.sector == sector
  {
    Js.Filter(t.vectors, VecIn(sector))
  }

  /** `del_vec`. */
  function DelVec(t: Tables, id: string): (r: Tables)
    ensures forall v :: v in r.vectors <==> v in t.vectors && v.id != id
  {
    t.(vectors := Js.Filter(t.vectors, VecNotOf(id)))
  }

  /** `del_vec_sector`. */
  function DelVecSector(t: Tables, id: string, sector: string): (r: Tables)
    ensures forall v :: v in r.vectors <==> v in t.vectors && (v.id != id || v.sector != sector)
  {
    t.(vectors := Js.Filter(t.vectors, VecNotAt(id, sector)))
  }

  // ---- waypoints --------------------------------------------------------------

  function NotFrom(src: string): Waypoint -> bool
  {
    (w: Waypoint) => w.src != src
  }

  function From(src: string): Waypoint -> bool
  {
    (w: Waypoint) => w.src == src
  }

  function Touches(id: string): Waypoint -> bool
  {
    (w: Waypoint) => w.src != id && w.dst != id
  }

  function AtLeast(threshold: real): Waypoint -> bool
  {
    (w: Waypoint) => w.weight >= threshold
  }

  function Weight(w: Waypoint): real
  {
    w.weight
  }

  function Src(w: Waypoint): string
  {
    w.src
  }

  /** `ins_waypoint` (`insert or replace`): the new edge replaces any edge with the same source. */
  function InsWaypoint(t: Tables, w: Waypoint): Tables
  {
    t.(waypoints := Js.Filter(t.waypoints, NotFrom(w.src)) + [w])
  }

  /** After an insert the new edge is the only edge leaving its source; edges
      leaving other nodes are untouched; keys stay unique. */
  lemma InsWaypointReplaces(t: Tables, w: Waypoint)
    requires Keyed(t)
    ensures var u := InsWaypoint(t, w);
      && Keyed(u)
      && u.memories == t.memories && u.vectors == t.vectors && u.logs == t.logs
      && (forall x :: x in u.waypoints && x.src == w.src <==> x == w)
      && (forall x: Waypoint :: x.src != w.src ==> (x in u.waypoints <==> x in t.waypoints))
  {
    var f := Js.Filter(t.waypoints, NotFrom(w.src));
    Js.FilterContains(t.waypoints, NotFrom(w.src));
    Js.FilterUniqueKeys(t.waypoints, NotFrom(w.src), Src);
    SnocNewSource(f, w);
  }

  /** Appending an edge from a source no edge leaves keeps sources unique. */
  lemma SnocNewSource(f: seq<Waypoint>, w: Waypoint)
    requires forall i, j :: 0 <= i < j < |f| ==> Src(f[i]) != Src(f[j])
    requires forall i :: 0 <= i < |f| ==> f[i].src != w.src
    ensures forall i, j :: 0 <= i < j < |f + [w]| ==> (f + [w])[i].src != (f + [w])[j].src
  {
    var g := f + [w];
    forall i, j | 0 <= i < j < |g| ensures g[i].src != g[j].src {
      assert g[i] == f[i];
      if j < |f| {
        assert g[j] == f[j];
      }
    }
  }

  /** `get_neighbors`: the edges leaving `src`, heaviest first. */
  function GetNeighbors(t: Tables, src: string): seq<Waypoint>
  {
    Sorting.SortDesc(Js.Filter(t.waypoints, From(src)), Weight)
  }

  /** The neighbours are exactly the edges leaving `src`, sorted by descending
      weight; since `src_id` is the key there is at most one. */
  lemma GetNeighborsFacts(t: Tables, src: string)
    requires Keyed(t)
    ensures var n := GetNeighbors(t, src);
      && Sorting.SortedDesc(n, Weight)
      && (forall x :: x in n <==> x in t.waypoints && x.src == src)
      && |n| <= 1
  {
    var f := Js.Filter(t.waypoints, From(src));
    Sorting.SortDescSorted(f, Weight);
    forall x ensures x in GetNeighbors(t, src) <==> x in f {
      Sorting.SortSameElements(f, Weight, x);
    }
    Js.FilterUniqueKeys(t.waypoints, From(src), Src);
    assert |f| >= 2 ==> Src(f[0]) == Src(f[1]);
  }

  /** `get_waypoint`: the weight of the edge `src -> dst`, if there is one. */
  function GetWaypoint(t: Tables, src: string, dst: string): (r: Option<real>)
    ensures r.Some? <==> exists w :: w in t.waypoints && w.src == src && w.dst == dst
    ensures r.Some? ==> exists w :: w in t.waypoints && w.src == src && w.dst == dst && w.weight == r.value
  {
    FindEdge(t.waypoints, src, dst)
  }

  function FindEdge(ws: seq<Waypoint>, src: string, dst: string): (r: Option<real>)
    ensures r.Some? <==> exists w :: w in ws && w.src == src && w.dst == dst
    ensures r.Some? ==> exists w :: w in ws && w.src == src && w.dst == dst && w.weight == r.value
  {
    if ws == [] then None
    else if ws[0].src == src && ws[0].dst == dst then Some(ws[0].weight)
    else
      var r := FindEdge(ws[1..], src, dst);
      assert forall w :: w in ws[1..] ==> w in ws;
      assert forall w :: w in ws && w != ws[0] ==> w in ws[1..];
      r
  }

  function MapEdge(ws: seq<Waypoint>, src: string, dst: string, weight: real, updated: int): (r: seq<Waypoint>)
    ensures |r| == |ws|
    ensures forall i :: 0 <= i < |ws| ==>
      r[i] == if ws[i].src == src && ws[i].dst == dst then ws[i].(weight := weight, updatedAt := updated) else ws[i]
  {
    if ws == [] then []
    else
      [if ws[0].src == src && ws[0].dst == dst then ws[0].(weight := weight, updatedAt := updated) else ws[0]]
      + MapEdge(ws[1..], src, dst, weight, updated)
  }

  /** `upd_waypoint`. */
  function UpdWaypoint(t: Tables, weight: real, updated: int, src: string, dst: string): Tables
  {
    t.(waypoints := MapEdge(t.waypoints, src, dst, weight, updated))
  }

  /** Updating an edge sets its weight, leaves every other edge, and keeps keys unique. */
  lemma UpdWaypointEffect(t: Tables, weight: real, updated: int, src: string, dst: string)
    requires Keyed(t)
    ensures var u := UpdWaypoint(t, weight, updated, src, dst);
      && Keyed(u)
      && u.memories == t.memories && u.vectors == t.vectors && u.logs == t.logs
      && (GetWaypoint(t, src, dst).Some? ==> GetWaypoint(u, src, dst) == Some(weight))
      && (GetWaypoint(t, src, dst).None? ==> u == t)
  {
    MapEdgeFind(t.waypoints, src, dst, weight, updated);
  }

  lemma {:induction false} MapEdgeFind(ws: seq<Waypoint>, src: string, dst: string, weight: real, updated: int)
    ensures FindEdge(ws, src, dst).Some? ==> FindEdge(MapEdge(ws, src, dst, weight, updated), src, dst) == Some(weight)
    ensures FindEdge(ws, src, dst).None? ==> MapEdge(ws, src, dst, weight, updated) == ws
  {
    if ws != [] {
      MapEdgeFind(ws[1..], src, dst, weight, updated);
      assert MapEdge(ws, src, dst, weight, updated)[1..] == MapEdge(ws[1..], src, dst, weight, updated);
    }
  }

  /** `del_waypoints`. */
  function DelWaypoints(t: Tables, id: string): (r: Tables)
    ensures forall w :: w in r.waypoints <==> w in t.waypoints && w.src != id && w.dst != id
  {
    t.(waypoints := Js.Filter(t.waypoints, Touches(id)))
  }

  /** `prune_waypoints`. */
  function PruneWaypoints(t: Tables, threshold: real): (r: Tables)
    ensures forall w :: w in r.waypoints <==> w in t.waypoints && w.weight >= threshold
  {
    t.(waypoints := Js.Filter(t.waypoints, AtLeast(threshold)))
  }

  // ---- embed_logs -------------------------------------------------------------

  predicate HasLog(ls: seq<EmbedLog>, id: string)
  {
    exists l :: l in ls && l.id == id
  }

  /** `ins_log`: a plain insert, refused when the id is taken. */
  function InsLog(t: Tables, l: EmbedLog): (r: Result<Tables>)
    ensures r.Err? <==> HasLog(t.logs, l.id)
    ensures r.Ok? ==> r.value == t.(logs := t.logs + [l])
  {
    if HasLog(t.logs, l.id) then Err("SQLITE_CONSTRAINT: UNIQUE constraint failed: embed_logs.id")
    else Ok(t.(logs := t.logs + [l]))
  }

  function MapLog(ls: seq<EmbedLog>, id: string, status: string, err: Option<string>): (r: seq<EmbedLog>)
    ensures |r| == |ls|
    ensures forall i :: 0 <= i < |ls| ==> r[i] == if ls[i].id == id then ls[i].(status := status, err := err) else ls[i]
  {
    if ls == [] then []
    else [if ls[0].id == id then ls[0].(status := status, err := err) else ls[0]] + MapLog(ls[1..], id, status, err)
  }

  /** `upd_log`. */
  function UpdLog(t: Tables, status: string, err: Option<string>, id: string): Tables
  {
    t.(logs := MapLog(t.logs, id, status, err))
  }

  function StatusIs(status: string): EmbedLog -> bool
  {
    (l: EmbedLog) => l.status == status
  }

  function Ts(l: EmbedLog): real
  {
    l.ts as real
  }

  /** `get_pending_logs`. */
  function GetPendingLogs(t: Tables): (r: seq<EmbedLog>)
    ensures forall l :: l in r <==> l in t.logs && l.status == "pending"
  {
    Js.Filter(t.logs, StatusIs("pending"))
  }

  /** `get_failed_logs`: the 100 most recent failures. */
  function GetFailedLogs(t: Tables): seq<EmbedLog>
  {
    Page(Js.Filter(t.logs, StatusIs("failed")), Ts, 100, 0)
  }

  /** Finishing a log entry takes it out of the pending set and leaves the others. */
  lemma UpdLogLeavesPending(t: Tables, status: string, err: Option<string>, id: string)
    requires Keyed(t) && status != "pending"
    ensures forall l :: l in GetPendingLogs(UpdLog(t, status, err, id)) <==>
      l in GetPendingLogs(t) && l.id != id
  {
    var ls := MapLog(t.logs, id, status, err);
    forall l ensures l in ls && l.status == "pending" <==> l in t.logs && l.status == "pending" && l.id != id {
      if l in ls && l.status == "pending" {
        var i :| 0 <= i < |ls| && ls[i] == l;
        assert t.logs[i] == l;
      }
      if l in t.logs && l.status == "pending" && l.id != id {
        var i :| 0 <= i < |t.logs| && t.logs[i] == l;
        assert ls[i] == l;
      }
    }
  }

  /** Every statement keeps each primary key unique. */
  lemma StatementsKeyed(t: Tables)
    requires Keyed(t)
    ensures forall m :: InsMem(t, m).Ok? ==> Keyed(InsMem(t, m).value)
    ensures forall v :: InsVec(t, v).Ok? ==> Keyed(InsVec(t, v).value)
    ensures forall l :: InsLog(t, l).Ok? ==> Keyed(InsLog(t, l).value)
    ensures forall id, status, err :: Keyed(UpdLog(t, status, err, id))
  {
    forall m | InsMem(t, m).Ok? ensures Keyed(InsMem(t, m).value) {
      var u := InsMem(t, m).value;
      forall i, j | 0 <= i < j < |u.memories| ensures u.memories[i].id != u.memories[j].id {
        if j == |t.memories| {
          assert u.memories[i] == t.memories[i];
        }
      }
    }
    forall v | InsVec(t, v).Ok? ensures Keyed(InsVec(t, v).value) {
      var u := InsVec(t, v).value;
      forall i, j | 0 <= i < j < |u.vectors|
        ensures (u.vectors[i].id, u.vectors[i].sector) != (u.vectors[j].id, u.vectors[j].sector)
      {
        if j == |t.vectors| {
          assert u.vectors[i] == t.vectors[i];
        }
      }
    }
    forall l | InsLog(t, l).Ok? ensures Keyed(InsLog(t, l).value) {
      var u := InsLog(t, l).value;
      forall i, j | 0 <= i < j < |u.logs| ensures u.logs[i].id != u.logs[j].id {
        if j == |t.logs| {
          assert u.logs[i] == t.logs[i];
        }
      }
    }
  }

  function MemId(m: Memory): string
  {
    m.id
  }

  function VecKey(v: VectorRow): (string, string)
  {
    (v.id, v.sector)
  }

  /** The deleting statements keep each primary key unique. */
  lemma DeletesKeyed(t: Tables, id: string, sector: string, threshold: real)
    requires Keyed(t)
    ensures Keyed(DelMem(t, id)) && Keyed(DelVec(t, id)) && Keyed(DelVecSector(t, id, sector))
    ensures Keyed(DelWaypoints(t, id)) && Keyed(PruneWaypoints(t, threshold))
  {
    Js.FilterUniqueKeys(t.memories, IdIsNot(id), MemId);
    Js.FilterUniqueKeys(t.vectors, VecNotOf(id), VecKey);
    Js.FilterUniqueKeys(t.vectors, VecNotAt(id, sector), VecKey);
    Js.FilterUniqueKeys(t.waypoints, Touches(id), Src);
    Js.FilterUniqueKeys(t.waypoints, AtLeast(threshold), Src);
  }
}
