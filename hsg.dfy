/** The HSG orchestrator: the operations that compose classification, embedding,
    the store and the waypoint graph into `reinforceMemory`, `runDecayProcess`,
    `addHSGMemory` and `hsgQuery`. `Date.now()` is one `now` parameter per
    operation and `crypto.randomUUID()` is the `id` parameter of the add. */
module Hsg {
  import opened Wrappers
  import opened Numeric
  import Js
  import Codec
  import Sectors
  import Vectors
  import Chunking
  import Db
  import Database
  import Embedding
  import Waypoints
  import Sorting

  // ---- reinforceMemory ------------------------------------------------------------

  /** The message `reinforceMemory` throws for a missing id. */
  function NotFound(id: string): string
  {
    "Memory " + id + " not found"
  }

  /** `reinforceMemory(id, boost)`: an error for a missing id; otherwise the row
      is marked seen at `now` with its salience raised by `boost`, capped at
      `max_salience`. */
  function ReinforceMem(t: Db.Tables, id: string, boost: real, now: int): (r: Result<Db.Tables>)
    ensures r.Err? <==> Db.GetMem(t, id).None?
  {
    var found := Db.GetMem(t, id);
    if found.None? then Err(NotFound(id))
    else Ok(Db.UpdSeen(t, now, Sectors.Boosted(found.value.salience, boost), now, id))
  }

  /** Reinforcing a stored memory marks it seen at `now` with its boosted
      salience, which stays at most 1 and does not drop for a non-negative boost. */
  lemma ReinforceMemEffect(t: Db.Tables, id: string, boost: real, now: int)
    requires Db.GetMem(t, id).Some?
    ensures var mem := Db.GetMem(t, id).value;
      Db.GetMem(ReinforceMem(t, id, boost, now).value, id) ==
        Some(mem.(lastSeenAt := now, salience := Sectors.Boosted(mem.salience, boost), updatedAt := now))
  {
    var mem := Db.GetMem(t, id).value;
    var s := Sectors.Boosted(mem.salience, boost);
    ReinforceMemOk(t, id, boost, now);
    SeenFind(t, id, s, now);
  }

  /** The row found is updated through `upd_seen`. */
  lemma ReinforceMemOk(t: Db.Tables, id: string, boost: real, now: int)
    requires Db.GetMem(t, id).Some?
    ensures ReinforceMem(t, id, boost, now) == Ok(Db.UpdSeen(t, now, Sectors.Boosted(Db.GetMem(t, id).value.salience, boost), now, id))
  {}

  /** Finding the row `upd_seen` touched. */
  lemma SeenFind(t: Db.Tables, id: string, s: real, now: int)
    ensures Db.GetMem(t, id).Some? ==>
      Db.GetMem(Db.UpdSeen(t, now, s, now, id), id) == Some(Db.GetMem(t, id).value.(lastSeenAt := now, salience := s, updatedAt := now))
  {
    Db.MapMemFind(t.memories, id, Db.SetSeen(now, s, now));
  }

  /** Reinforcing changes no other row and no other table. */
  lemma ReinforceMemOthers(t: Db.Tables, id: string, boost: real, now: int)
    requires Db.GetMem(t, id).Some?
    ensures var u := ReinforceMem(t, id, boost, now).value;
      && u.vectors == t.vectors && u.waypoints == t.waypoints && u.logs == t.logs
      && (forall other :: other != id ==> Db.GetMem(u, other) == Db.GetMem(t, other))
  {
    var mem := Db.GetMem(t, id).value;
    var s := Sectors.Boosted(mem.salience, boost);
    ReinforceMemOk(t, id, boost, now);
    Db.MapMemFind(t.memories, id, Db.SetSeen(now, s, now));
  }

  method ReinforceMemory(store: Database.Store, id: string, boost: real, now: int) returns (r: Result<()>)
    requires store.Valid()
    modifies store
    ensures store.Valid() && store.saved == old(store.saved)
    ensures Database.Outcome(ReinforceMem(old(store.State()), id, boost, now), old(store.State()), store.State(), r)
  {
    ghost var t := store.State();
    var mem := Db.GetMem(store.State(), id);
    if mem.None? {
      assert ReinforceMem(t, id, boost, now).msg == NotFound(id);
      return Err(NotFound(id));
    }
    var salience := Sectors.Boosted(mem.value.salience, boost);
    ReinforceMemOk(t, id, boost, now);
    store.UpdSeen(now, salience, now, id);
    r := Ok(());
  }

  // ---- runDecayProcess ------------------------------------------------------------

  /** The timestamp the sweep measures elapsed days from: `last_seen_at`, as the
      sweep is written, or `updated_at`, the time salience was last written. */
  datatype Clock = SinceLastSeen | SinceUpdate

  function Since(clock: Clock, mem: Db.Memory): int
  {
    match clock
    case SinceLastSeen => mem.lastSeenAt
    case SinceUpdate => mem.updatedAt
  }

  /** The salience the sweep computes for one row at `now`. */
  function Decayed(m: Math, mem: Db.Memory, now: int, clock: Clock): real
  {
    Sectors.CalculateDecay(m, mem.primarySector, mem.salience, DaysBetween(Since(clock, mem), now))
  }

  /** A row the sweep leaves alone: its decayed salience is its salience. */
  predicate Stable(m: Math, mem: Db.Memory, now: int, clock: Clock)
  {
    Decayed(m, mem, now, clock) == mem.salience
  }

  /** A row after the sweep: `upd_seen(last_seen_at, newSalience, now, id)` when
      the salience changed, else untouched. */
  function Swept(m: Math, mem: Db.Memory, now: int, clock: Clock): Db.Memory
  {
    if Stable(m, mem, now, clock) then mem
    else Db.SetSeen(mem.lastSeenAt, Decayed(m, mem, now, clock), now)(mem)
  }

  /** The tables and the `{processed, decayed}` counters after a sweep. */
  datatype Sweep = Sweep(tables: Db.Tables, processed: nat, decayed: nat)

  /** One iteration of the sweep's loop. */
  function SweepStep(m: Math, prev: Sweep, row: Db.Memory, now: int, clock: Clock): Sweep
  {
    if Stable(m, row, now, clock) then Sweep(prev.tables, prev.processed + 1, prev.decayed)
    else Sweep(Db.UpdSeen(prev.tables, row.lastSeenAt, Decayed(m, row, now, clock), now, row.id),
               prev.processed + 1, prev.decayed + 1)
  }

  /** The sweep over `rows`, the rows fetched before it starts, in order. */
  function DecaySweep(m: Math, t: Db.Tables, rows: seq<Db.Memory>, now: int, clock: Clock): (r: Sweep)
    ensures r.processed == |rows| && r.decayed <= r.processed
    decreases |rows|
  {
    if rows == [] then Sweep(t, 0, 0)
    else SweepStep(m, DecaySweep(m, t, rows[..|rows| - 1], now, clock), rows[|rows| - 1], now, clock)
  }

  /** The sweep reports `decayed == 0` exactly when every row is stable, and then
      leaves the tables as they were. */
  lemma {:induction false} SweepCounts(m: Math, t: Db.Tables, rows: seq<Db.Memory>, now: int, clock: Clock)
    ensures DecaySweep(m, t, rows, now, clock).decayed == 0 <==> forall k :: 0 <= k < |rows| ==> Stable(m, rows[k], now, clock)
    ensures DecaySweep(m, t, rows, now, clock).decayed == 0 ==> DecaySweep(m, t, rows, now, clock).tables == t
    decreases |rows|
  {
    if rows != [] {
      var init := rows[..|rows| - 1];
      SweepCounts(m, t, init, now, clock);
      assert forall k :: 0 <= k < |init| ==> init[k] == rows[k];
    }
  }

  /** `runDecayProcess`: the sweep over `all_mem(10000, 0)`. */
  function RunDecay(m: Math, t: Db.Tables, now: int, clock: Clock): Sweep
  {
    DecaySweep(m, t, Db.AllMem(t, 10000, 0), now, clock)
  }

  method RunDecayProcess(store: Database.Store, m: Math, now: int, clock: Clock) returns (processed: nat, decayed: nat)
    requires store.Valid()
    modifies store
    ensures store.Valid() && store.saved == old(store.saved)
    ensures Sweep(store.State(), processed, decayed) == RunDecay(m, old(store.State()), now, clock)
  {
    var memories := Db.AllMem(store.State(), 10000, 0);
    processed, decayed := SweepRows(store, m, memories, now, clock);
  }

  /** The loop of `runDecayProcess` over the fetched rows. */
  method SweepRows(store: Database.Store, m: Math, rows: seq<Db.Memory>, now: int, clock: Clock)
    returns (processed: nat, decayed: nat)
    requires store.Valid()
    modifies store
    ensures store.Valid() && store.saved == old(store.saved)
    ensures Sweep(store.State(), processed, decayed) == DecaySweep(m, old(store.State()), rows, now, clock)
  {
    ghost var t := store.State();
    processed, decayed := 0, 0;
    var i := 0;
    while i < |rows|
      invariant 0 <= i <= |rows|
      invariant store.Valid() && store.saved == old(store.saved)
      invariant Sweep(store.State(), processed, decayed) == DecaySweep(m, t, rows[..i], now, clock)
    {
      SweepPrefix(m, t, rows, i, now, clock);
      processed, decayed := SweepOne(store, m, rows[i], now, clock, processed, decayed);
      i := i + 1;
    }
    Js.WholeSlice(rows);
  }

  /** One pass of the loop: decay `memory` and count it. */
  method SweepOne(store: Database.Store, m: Math, memory: Db.Memory, now: int, clock: Clock, processed: nat, decayed: nat)
    returns (processed': nat, decayed': nat)
    requires store.Valid()
    modifies store
    ensures store.Valid() && store.saved == old(store.saved)
    ensures Sweep(store.State(), processed', decayed') == SweepStep(m, Sweep(old(store.State()), processed, decayed), memory, now, clock)
  {
    var days := DaysBetween(Since(clock, memory), now);
    var newSalience := Sectors.CalculateDecay(m, memory.primarySector, memory.salience, days);
    assert newSalience == Decayed(m, memory, now, clock);
    decayed' := decayed;
    if newSalience != memory.salience {
      store.UpdSeen(memory.lastSeenAt, newSalience, now, memory.id);
      decayed' := decayed + 1;
    }
    processed' := processed + 1;
  }

  lemma SweepPrefix(m: Math, t: Db.Tables, rows: seq<Db.Memory>, i: nat, now: int, clock: Clock)
    requires i < |rows|
    ensures DecaySweep(m, t, rows[..i + 1], now, clock) == SweepStep(m, DecaySweep(m, t, rows[..i], now, clock), rows[i], now, clock)
  {
    Js.PrefixSlice(rows, i, i + 1);
  }

  /** `u` is `t` with each row that is in `rows` replaced by its swept form. */
  ghost predicate SweptFrom(m: Math, t: Db.Tables, u: Db.Tables, rows: seq<Db.Memory>, now: int, clock: Clock)
  {
    && u.vectors == t.vectors && u.waypoints == t.waypoints && u.logs == t.logs
    && |u.memories| == |t.memories|
    && forall i :: 0 <= i < |t.memories| ==>
         u.memories[i] == if t.memories[i] in rows then Swept(m, t.memories[i], now, clock) else t.memories[i]
  }

  /** A sweep over rows of the table replaces each row it visits by its swept
      form and leaves every other row, and the other tables, as they were. */
  lemma {:induction false} SweepEffect(m: Math, t: Db.Tables, rows: seq<Db.Memory>, now: int, clock: Clock)
    requires Db.Keyed(t)
    requires forall k :: 0 <= k < |rows| ==> rows[k] in t.memories
    ensures SweptFrom(m, t, DecaySweep(m, t, rows, now, clock).tables, rows, now, clock)
    decreases |rows|
  {
    if rows != [] {
      var init := rows[..|rows| - 1];
      var row := rows[|rows| - 1];
      assert rows == init + [row];
      SweepEffect(m, t, init, now, clock);
      StepEffect(m, t, DecaySweep(m, t, init, now, clock), init, row, now, clock);
    }
  }

  /** One iteration keeps `SweptFrom`, one row further. */
  lemma StepEffect(m: Math, t: Db.Tables, prev: Sweep, rows: seq<Db.Memory>, row: Db.Memory, now: int, clock: Clock)
    requires Db.Keyed(t) && row in t.memories
    requires SweptFrom(m, t, prev.tables, rows, now, clock)
    ensures SweptFrom(m, t, SweepStep(m, prev, row, now, clock).tables, rows + [row], now, clock)
  {
    var u := SweepStep(m, prev, row, now, clock).tables;
    if !Stable(m, row, now, clock) {
      var f := Db.SetSeen(row.lastSeenAt, Decayed(m, row, now, clock), now);
      forall i | 0 <= i < |t.memories|
        ensures u.memories[i] == if t.memories[i] in rows + [row] then Swept(m, t.memories[i], now, clock) else t.memories[i]
      {
        if t.memories[i].id == row.id {
          var j :| 0 <= j < |t.memories| && t.memories[j] == row;
          assert i == j;
        }
      }
    }
  }

  /** A table swept from a keyed table is keyed: the sweep keeps every id. */
  lemma SweptKeyed(m: Math, t: Db.Tables, u: Db.Tables, rows: seq<Db.Memory>, now: int, clock: Clock)
    requires Db.Keyed(t) && SweptFrom(m, t, u, rows, now, clock)
    ensures Db.Keyed(u)
  {
    assert forall i :: 0 <= i < |u.memories| ==> u.memories[i].id == t.memories[i].id;
  }

  /** Measured from `updated_at`, a swept row is stable: the sweep sets
      `updated_at` to `now`, so a second sweep at the same instant sees no
      elapsed time. */
  lemma SweptStable(m: Math, mem: Db.Memory, now: int)
    requires ValidMath(m)
    ensures Stable(m, Swept(m, mem, now, SinceUpdate), now, SinceUpdate)
  {
    if !Stable(m, mem, now, SinceUpdate) {
      var d := Decayed(m, mem, now, SinceUpdate);
      assert Sectors.Parse(mem.primarySector).Some?;
      assert DaysBetween(now, now) == 0.0;
      Sectors.DecayZeroDays(m, mem.primarySector, d);
    }
  }

  /** Measured from `last_seen_at`, which the sweep leaves as it is, a positive
      salience in a known sector that was last seen before `now` decays again on
      each sweep at the same instant. */
  lemma SweptCompounds(m: Math, mem: Db.Memory, now: int)
    requires ValidMath(m)
    requires mem.salience > 0.0 && Sectors.Parse(mem.primarySector).Some? && mem.lastSeenAt < now
    ensures var once := Swept(m, mem, now, SinceLastSeen);
      && !Stable(m, mem, now, SinceLastSeen) && !Stable(m, once, now, SinceLastSeen)
      && Swept(m, once, now, SinceLastSeen).salience < once.salience < mem.salience
  {
    var sector := mem.primarySector;
    var days := DaysBetween(mem.lastSeenAt, now);
    assert days > 0.0;
    Sectors.DecayStrict(m, sector, mem.salience, days);
    var once := Swept(m, mem, now, SinceLastSeen);
    assert once.salience == Sectors.CalculateDecay(m, sector, mem.salience, days);
    assert once.primarySector == sector && once.lastSeenAt == mem.lastSeenAt;
    Sectors.DecayStrict(m, sector, once.salience, days);
  }


  /** Every row of a table of at most 10000 rows is in the sweep's page. */
  lemma PageCoversAll(t: Db.Tables)
    requires |t.memories| <= 10000
    ensures forall i :: 0 <= i < |t.memories| ==> t.memories[i] in Db.AllMem(t, 10000, 0)
    ensures forall x :: x in Db.AllMem(t, 10000, 0) ==> x in t.memories
  {
    Db.PageFacts(t.memories, Db.CreatedAt, 10000, 0);
    forall i | 0 <= i < |t.memories| ensures t.memories[i] in Db.AllMem(t, 10000, 0) {
      assert t.memories[i] in multiset(t.memories);
    }
  }

  /** `u` is `t` with every row swept. */
  ghost predicate AllSwept(m: Math, t: Db.Tables, u: Db.Tables, now: int, clock: Clock)
  {
    && u.vectors == t.vectors && u.waypoints == t.waypoints && u.logs == t.logs
    && |u.memories| == |t.memories|
    && forall i :: 0 <= i < |t.memories| ==> u.memories[i] == Swept(m, t.memories[i], now, clock)
  }

  /** On a keyed table of at most 10000 rows, `runDecayProcess` sweeps every row
      once, and the result is keyed. */
  lemma SweepAll(m: Math, t: Db.Tables, now: int, clock: Clock)
    requires Db.Keyed(t) && |t.memories| <= 10000
    ensures AllSwept(m, t, RunDecay(m, t, now, clock).tables, now, clock)
    ensures Db.Keyed(RunDecay(m, t, now, clock).tables)
  {
    var page := Db.AllMem(t, 10000, 0);
    PageCoversAll(t);
    SweepEffect(m, t, page, now, clock);
    SweptKeyed(m, t, RunDecay(m, t, now, clock).tables, page, now, clock);
  }

  /** A sweep finds nothing to decay in a table whose rows are all stable, and
      leaves it as it was. */
  lemma QuietWhenStable(m: Math, u: Db.Tables, now: int, clock: Clock)
    requires |u.memories| <= 10000
    requires forall i :: 0 <= i < |u.memories| ==> Stable(m, u.memories[i], now, clock)
    ensures RunDecay(m, u, now, clock).decayed == 0 && RunDecay(m, u, now, clock).tables == u
  {
    PageCoversAll(u);
    var page := Db.AllMem(u, 10000, 0);
    forall k | 0 <= k < |page| ensures Stable(m, page[k], now, clock) {
      assert page[k] in u.memories;
      var i :| 0 <= i < |u.memories| && u.memories[i] == page[k];
    }
    SweepCounts(m, u, page, now, clock);
  }

  /** A sweep decays something in a table holding an unstable row. */
  lemma BusyWhenUnstable(m: Math, u: Db.Tables, now: int, clock: Clock, i: int)
    requires |u.memories| <= 10000 && 0 <= i < |u.memories|
    requires !Stable(m, u.memories[i], now, clock)
    ensures RunDecay(m, u, now, clock).decayed > 0
  {
    PageCoversAll(u);
    var page := Db.AllMem(u, 10000, 0);
    var k :| 0 <= k < |page| && page[k] == u.memories[i];
    SweepCounts(m, u, page, now, clock);
  }

  /** Measured from `updated_at`, the sweep is idempotent at a fixed instant: a
      second run right after the first decays nothing and changes nothing. */
  lemma SecondSweepQuiet(m: Math, t: Db.Tables, now: int)
    requires ValidMath(m) && Db.Keyed(t) && |t.memories| <= 10000
    ensures var first := RunDecay(m, t, now, SinceUpdate);
      var second := RunDecay(m, first.tables, now, SinceUpdate);
      second.decayed == 0 && second.tables == first.tables
  {
    SweepAll(m, t, now, SinceUpdate);
    var u := RunDecay(m, t, now, SinceUpdate).tables;
    forall i | 0 <= i < |u.memories| ensures Stable(m, u.memories[i], now, SinceUpdate) {
      SweptStable(m, t.memories[i], now);
    }
    QuietWhenStable(m, u, now, SinceUpdate);
  }

  /** As written, measured from `last_seen_at`: a second run at the same instant
      decays the same row again, so it reports `decayed > 0` and lowers that
      row's salience a second time. */
  lemma SecondSweepDecays(m: Math, t: Db.Tables, now: int, mem: Db.Memory)
    requires ValidMath(m) && Db.Keyed(t) && |t.memories| <= 10000
    requires mem in t.memories
    requires mem.salience > 0.0 && Sectors.Parse(mem.primarySector).Some? && mem.lastSeenAt < now
    ensures var first := RunDecay(m, t, now, SinceLastSeen);
      var second := RunDecay(m, first.tables, now, SinceLastSeen);
      && first.decayed > 0 && second.decayed > 0
      && Db.GetMem(second.tables, mem.id).Some? && Db.GetMem(first.tables, mem.id).Some?
      && Db.GetMem(second.tables, mem.id).value.salience < Db.GetMem(first.tables, mem.id).value.salience
  {
    SweptCompounds(m, mem, now);
    var i :| 0 <= i < |t.memories| && t.memories[i] == mem;
    SweepAll(m, t, now, SinceLastSeen);
    var u := RunDecay(m, t, now, SinceLastSeen).tables;
    SweepAll(m, u, now, SinceLastSeen);
    var w := RunDecay(m, u, now, SinceLastSeen).tables;
    BusyWhenUnstable(m, t, now, SinceLastSeen, i);
    BusyWhenUnstable(m, u, now, SinceLastSeen, i);
    KeyedFind(u, i);
    KeyedFind(w, i);
  }

  /** In a keyed table, looking a row's id up finds that row. */
  lemma KeyedFind(t: Db.Tables, i: int)
    requires Db.Keyed(t) && 0 <= i < |t.memories|
    ensures Db.GetMem(t, t.memories[i].id) == Some(t.memories[i])
  {
    assert Db.HasMem(t.memories, t.memories[i].id);
  }

  // ---- addHSGMemory ---------------------------------------------------------------

  /** What `addHSGMemory` relies on besides the store and the network: the
      pattern oracle, the text splitter, binary32 rounding and the embedding
      configuration. `reset` selects the retry loop of `embedMultiSector`:
      false is the loop as written, whose results survive a failed attempt,
      true the corrected loop that starts each attempt afresh. */
  datatype Context = Context(hit: Sectors.Matcher, sp: Chunking.Splitter, f: Codec.Binary32,
                             env: Embedding.Env, rt: Embedding.Runtime, reset: bool)

  ghost predicate ValidContext(ctx: Context, reply: nat -> Embedding.Reply)
  {
    Embedding.ValidRuntime(ctx.rt) && Embedding.Uniform(reply, ctx.env.vecDim)
  }

  /** The answer of `addHSGMemory`. */
  datatype Added = Added(id: string, primarySector: string, sectors: seq<string>, chunks: nat)

  /** How an add ends: its answer, the requests made, and the tables. */
  datatype AddRun = AddRun(result: Result<Added>, calls: nat, tables: Db.Tables)

  /** `chunkText`'s defaults. */
  const TargetTokens: int := 768
  const OverlapRatio: real := 0.1

  const NoVector := "Cannot read properties of undefined (reading 'vector')"

  function Names(ss: seq<Sectors.Sector>): (r: seq<string>)
    ensures |r| == |ss| && forall i :: 0 <= i < |ss| ==> r[i] == Sectors.Name(ss[i])
  {
    seq(|ss|, i requires 0 <= i < |ss| => Sectors.Name(ss[i]))
  }

  /** `[classification.primary, ...classification.additional]`. */
  function AllSectors(cls: Sectors.Classification): seq<string>
  {
    [Sectors.Name(cls.primary)] + Names(cls.additional)
  }

  /** `max(0, min(1, 0.4 + 0.1 * additional.length))`. */
  function InitialSalience(cls: Sectors.Classification): real
  {
    Max(0.0, Min(1.0, 0.4 + 0.1 * |cls.additional| as real))
  }

  /** `tags || null`: an empty string is stored as null. */
  function TagsColumn(tags: Option<string>): Option<string>
  {
    if tags.Some? && tags.value != "" then tags else None
  }

  /** The row `ins_mem` stores: version 1, no mean vector yet. */
  function NewRow(id: string, content: string, cls: Sectors.Classification, tags: Option<string>, meta: string, now: int): Db.Memory
  {
    Db.Memory(id, content, Sectors.Name(cls.primary), TagsColumn(tags), meta, now, now, now,
              InitialSalience(cls), Sectors.Lambda(cls.primary), 1, None, None)
  }

  /** `useChunking ? chunks : undefined`. */
  function ChunkArg(chunks: seq<Chunking.Chunk>): seq<string>
  {
    if |chunks| > 1 then Chunking.Texts(chunks) else []
  }

  /** The row `ins_vec` stores for one result. */
  function VecRow(f: Codec.Binary32, id: string, r: Vectors.EmbeddingResult): Db.VectorRow
  {
    Db.VectorRow(id, r.sector, Codec.Encode(f, r.vector), r.dim)
  }

  /** The `ins_vec` loop: the first refused insert throws. */
  function InsVecs(t: Db.Tables, f: Codec.Binary32, id: string, rs: seq<Vectors.EmbeddingResult>): (r: Result<Db.Tables>)
    ensures r.Ok? ==> r.value.memories == t.memories && r.value.waypoints == t.waypoints && r.value.logs == t.logs
    decreases |rs|
  {
    if rs == [] then Ok(t)
    else
      var prev := InsVecs(t, f, id, rs[..|rs| - 1]);
      if prev.Err? then prev else Db.InsVec(prev.value, VecRow(f, id, rs[|rs| - 1]))
  }

  /** A completed loop keeps the old vectors and holds one row per result. */
  lemma {:induction false} InsVecsRows(t: Db.Tables, f: Codec.Binary32, id: string, rs: seq<Vectors.EmbeddingResult>)
    requires InsVecs(t, f, id, rs).Ok?
    ensures var u := InsVecs(t, f, id, rs).value;
      && (forall k :: 0 <= k < |rs| ==> VecRow(f, id, rs[k]) in u.vectors)
      && (forall x :: x in t.vectors ==> x in u.vectors)
    decreases |rs|
  {
    if rs != [] {
      var init := rs[..|rs| - 1];
      InsVecsRows(t, f, id, init);
      var u := InsVecs(t, f, id, rs).value;
      var p := InsVecs(t, f, id, init).value;
      assert u.vectors == p.vectors + [VecRow(f, id, rs[|rs| - 1])];
      forall k | 0 <= k < |rs|
        ensures VecRow(f, id, rs[k]) in u.vectors
      {
        if k < |rs| - 1 {
          assert rs[k] == init[k];
        }
      }
    }
  }

  /** After the vectors: the mean vector is stored on the row, then the new
      memory is linked to its closest neighbour. */
  function Link(ctx: Context, t: Db.Tables, id: string, rs: seq<Vectors.EmbeddingResult>, now: int): Result<Db.Tables>
    requires Embedding.ValidRuntime(ctx.rt)
    requires |rs| > 0 && Vectors.ResultsAtLeast(rs, |rs[0].vector|)
  {
    var mean := Vectors.WeightedMean(rs);
    Waypoints.SingleWaypoint(ctx.rt.math, ctx.f, Db.UpdMeanVec(t, |mean|, Codec.Encode(ctx.f, mean), id), id, mean, now)
  }

  /** `addHSGMemory` as a whole: the steps inside the transaction, and on any
      error the tables as they were at `BEGIN`. */
  function Add(ctx: Context, reply: nat -> Embedding.Reply, c: nat, t: Db.Tables, id: string, now: int,
               content: string, tags: Option<string>, meta: string, metaSector: Option<string>): (r: AddRun)
    requires ValidContext(ctx, reply)
    ensures r.result.Err? ==> r.tables == t
  {
    var chunks := Chunking.Chunks(ctx.sp, content, TargetTokens, OverlapRatio);
    var cls := Sectors.Classify(ctx.hit, content, metaSector);
    var sectors := AllSectors(cls);
    var ins := Db.InsMem(t, NewRow(id, content, cls, tags, meta, now));
    if ins.Err? then AddRun(Err(ins.msg), c, t)
    else
      var run := Embedding.MultiSector(ctx.env, ctx.rt, reply, c, ins.value, id, content, sectors, ChunkArg(chunks), now, ctx.reset);
      if run.result.Err? then AddRun(Err(run.result.msg), run.calls, t)
      else
        Embedding.MultiSectorDims(ctx.env, ctx.rt, reply, c, ins.value, id, content, sectors, ChunkArg(chunks), now, ctx.reset);
        var done := Persist(ctx, run.tables, id, run.result.value, now);
        if done.Err? then AddRun(Err(done.msg), run.calls, t)
        else AddRun(Ok(Added(id, Sectors.Name(cls.primary), sectors, |chunks|)), run.calls, done.value)
  }

  /** What follows `embedMultiSector`: one vector row per result, then the
      mean vector and the waypoint. An empty result list fails when the mean
      is taken. */
  function Persist(ctx: Context, t: Db.Tables, id: string, rs: seq<Vectors.EmbeddingResult>, now: int): Result<Db.Tables>
    requires Embedding.ValidRuntime(ctx.rt)
    requires Embedding.Dims(rs, ctx.env.vecDim)
  {
    var vecs := InsVecs(t, ctx.f, id, rs);
    if vecs.Err? then Err(vecs.msg)
    else if rs == [] then Err(NoVector)
    else Link(ctx, vecs.value, id, rs, now)
  }

  method AddHSGMemory(store: Database.Store, net: Embedding.Network, ctx: Context, id: string, now: int,
                      content: string, tags: Option<string>, meta: string, metaSector: Option<string>)
    returns (r: Result<Added>)
    requires store.Valid() && ValidContext(ctx, net.reply)
    modifies store, net
    ensures store.Valid()
    ensures old(store.saved).Some? ==>
      r.Err? && store.State() == old(store.State()) && store.saved == old(store.saved) && net.calls == old(net.calls)
    ensures old(store.saved).None? ==>
      && store.saved.None?
      && AddRun(r, net.calls, store.State()) == Add(ctx, net.reply, old(net.calls), old(store.State()), id, now, content, tags, meta, metaSector)
  {
    var chunks := Chunking.ChunkText(ctx.sp, content, TargetTokens, OverlapRatio);
    var begun := store.Begin();
    if begun.Err? {
      return Err(begun.msg);
    }
    r := Write(store, net, ctx, id, now, content, tags, meta, metaSector, chunks);
    if r.Err? {
      var rolledBack := store.Rollback();
    } else {
      var committed := store.Commit();
    }
  }

  /** The body of the `try` block of `addHSGMemory`. */
  method Write(store: Database.Store, net: Embedding.Network, ctx: Context, id: string, now: int,
               content: string, tags: Option<string>, meta: string, metaSector: Option<string>, chunks: seq<Chunking.Chunk>)
    returns (r: Result<Added>)
    requires store.Valid() && ValidContext(ctx, net.reply)
    requires chunks == Chunking.Chunks(ctx.sp, content, TargetTokens, OverlapRatio)
    modifies store, net
    ensures store.Valid() && store.saved == old(store.saved)
    ensures var goal := Add(ctx, net.reply, old(net.calls), old(store.State()), id, now, content, tags, meta, metaSector);
      && r == goal.result && net.calls == goal.calls
      && (r.Ok? ==> store.State() == goal.tables)
  {
    var classification := Sectors.Classify(ctx.hit, content, metaSector);
    var allSectors := AllSectors(classification);
    ghost var t0 := store.State();
    var s := store.InsMem(NewRow(id, content, classification, tags, meta, now));
    if s.Err? {
      assert Add(ctx, net.reply, net.calls, t0, id, now, content, tags, meta, metaSector) == AddRun(Err(s.msg), net.calls, t0);
      return Err(s.msg);
    }
    AddAfterInsert(ctx, net.reply, net.calls, t0, id, now, content, tags, meta, metaSector, store.State());
    r := EmbedAndPersist(store, net, ctx, id, now, content, allSectors, ChunkArg(chunks),
                         Added(id, Sectors.Name(classification.primary), allSectors, |chunks|));
  }

  /** The steps after `ins_mem`: `embedMultiSector`, then the vector rows,
      the mean vector and the waypoint. */
  method EmbedAndPersist(store: Database.Store, net: Embedding.Network, ctx: Context, id: string, now: int,
                         content: string, sectors: seq<string>, chunks: seq<string>, added: Added)
    returns (r: Result<Added>)
    requires store.Valid() && ValidContext(ctx, net.reply)
    modifies store, net
    ensures store.Valid() && store.saved == old(store.saved)
    ensures var run := Embedding.MultiSector(ctx.env, ctx.rt, net.reply, old(net.calls), old(store.State()), id, content, sectors, chunks, now, ctx.reset);
      && net.calls == run.calls
      && (run.result.Err? ==> r == Err(run.result.msg))
      && (run.result.Ok? ==>
            && Embedding.Dims(run.result.value, ctx.env.vecDim)
            && var done := Persist(ctx, run.tables, id, run.result.value, now);
               && (r.Err? <==> done.Err?)
               && (r.Err? ==> r.msg == done.msg)
               && (r.Ok? ==> r.value == added && store.State() == done.value))
  {
    Embedding.MultiSectorDims(ctx.env, ctx.rt, net.reply, net.calls, store.State(), id, content, sectors, chunks, now, ctx.reset);
    var embeddingResults := Embedding.EmbedMultiSector(store, net, ctx.env, ctx.rt, id, content, sectors, chunks, now, ctx.reset);
    if embeddingResults.Err? {
      return Err(embeddingResults.msg);
    }
    r := PersistVectors(store, ctx, id, now, embeddingResults.value, added);
  }

  /** Once the row is inserted, an add is the run and `persist`. */
  lemma AddAfterInsert(ctx: Context, reply: nat -> Embedding.Reply, c: nat, t: Db.Tables, id: string, now: int,
                       content: string, tags: Option<string>, meta: string, metaSector: Option<string>, t1: Db.Tables)
    requires ValidContext(ctx, reply)
    requires Db.InsMem(t, NewRow(id, content, Sectors.Classify(ctx.hit, content, metaSector), tags, meta, now)) == Ok(t1)
    ensures var cls := Sectors.Classify(ctx.hit, content, metaSector);
      var chunks := Chunking.Chunks(ctx.sp, content, TargetTokens, OverlapRatio);
      var run := Embedding.MultiSector(ctx.env, ctx.rt, reply, c, t1, id, content, AllSectors(cls), ChunkArg(chunks), now, ctx.reset);
      var r := Add(ctx, reply, c, t, id, now, content, tags, meta, metaSector);
      && (run.result.Err? ==> r == AddRun(Err(run.result.msg), run.calls, t))
      && (run.result.Ok? ==>
            && Embedding.Dims(run.result.value, ctx.env.vecDim)
            && var done := Persist(ctx, run.tables, id, run.result.value, now);
               r == if done.Err? then AddRun(Err(done.msg), run.calls, t)
                    else AddRun(Ok(Added(id, Sectors.Name(cls.primary), AllSectors(cls), |chunks|)), run.calls, done.value))
  {
    var cls := Sectors.Classify(ctx.hit, content, metaSector);
    var chunks := Chunking.Chunks(ctx.sp, content, TargetTokens, OverlapRatio);
    Embedding.MultiSectorDims(ctx.env, ctx.rt, reply, c, t1, id, content, AllSectors(cls), ChunkArg(chunks), now, ctx.reset);
  }

  method PersistVectors(store: Database.Store, ctx: Context, id: string, now: int, rs: seq<Vectors.EmbeddingResult>, added: Added)
    returns (r: Result<Added>)
    requires store.Valid() && Embedding.ValidRuntime(ctx.rt) && Embedding.Dims(rs, ctx.env.vecDim)
    modifies store
    ensures store.Valid() && store.saved == old(store.saved)
    ensures var goal := Persist(ctx, old(store.State()), id, rs, now);
      && (r.Err? <==> goal.Err?)
      && (r.Err? ==> r.msg == goal.msg)
      && (r.Ok? ==> r.value == added && store.State() == goal.value)
  {
    var s := InsertVectors(store, ctx.f, id, rs);
    if s.Err? {
      return Err(s.msg);
    }
    r := Finish(store, ctx, id, now, rs, added);
  }

  /** The `ins_vec` loop over the embedding results. */
  method InsertVectors(store: Database.Store, f: Codec.Binary32, id: string, rs: seq<Vectors.EmbeddingResult>)
    returns (s: Result<()>)
    requires store.Valid()
    modifies store
    ensures store.Valid() && store.saved == old(store.saved)
    ensures var goal := InsVecs(old(store.State()), f, id, rs);
      && (s.Err? <==> goal.Err?)
      && (s.Err? ==> s.msg == goal.msg)
      && (s.Ok? ==> store.State() == goal.value)
  {
    ghost var t := store.State();
    var i := 0;
    while i < |rs|
      invariant 0 <= i <= |rs|
      invariant store.Valid() && store.saved == old(store.saved)
      invariant InsVecs(t, f, id, rs[..i]).Ok? && InsVecs(t, f, id, rs[..i]).value == store.State()
    {
      Js.PrefixSlice(rs, i, i + 1);
      var vectorBuffer := Vectors.VectorToBuffer(f, rs[i].vector);
      s := store.InsVec(Db.VectorRow(id, rs[i].sector, vectorBuffer[..], rs[i].dim));
      if s.Err? {
        assert InsVecs(t, f, id, rs[..i + 1]).msg == s.msg;
        InsVecsStopsAtError(t, f, id, rs, i + 1);
        return;
      }
      i := i + 1;
    }
    Js.WholeSlice(rs);
    s := Ok(());
  }

  /** Once an insert is refused, the later results are not inserted and the
      error is the one that stopped the loop. */
  lemma {:induction false} InsVecsStopsAtError(t: Db.Tables, f: Codec.Binary32, id: string, rs: seq<Vectors.EmbeddingResult>, i: nat)
    requires i <= |rs| && InsVecs(t, f, id, rs[..i]).Err?
    ensures InsVecs(t, f, id, rs).Err? && InsVecs(t, f, id, rs).msg == InsVecs(t, f, id, rs[..i]).msg
    decreases |rs|
  {
    if i < |rs| {
      var init := rs[..|rs| - 1];
      Js.PrefixSlice(rs, i, |rs| - 1);
      assert init[..i] == rs[..i];
      InsVecsStopsAtError(t, f, id, init, i);
      InsVecsErrStep(t, f, id, rs);
      assert InsVecs(t, f, id, rs).msg == InsVecs(t, f, id, init).msg == InsVecs(t, f, id, rs[..i]).msg;
    } else {
      Js.WholeSlice(rs);
      assert rs[..i] == rs;
    }
  }

  /** A refused prefix makes the whole loop fail with the same error. */
  lemma InsVecsErrStep(t: Db.Tables, f: Codec.Binary32, id: string, rs: seq<Vectors.EmbeddingResult>)
    requires |rs| > 0 && InsVecs(t, f, id, rs[..|rs| - 1]).Err?
    ensures InsVecs(t, f, id, rs) == InsVecs(t, f, id, rs[..|rs| - 1])
  {
  }

  /** From `calculateMeanVector` to `createSingleWaypoint`. */
  method Finish(store: Database.Store, ctx: Context, id: string, now: int, rs: seq<Vectors.EmbeddingResult>, added: Added)
    returns (r: Result<Added>)
    requires store.Valid() && Embedding.ValidRuntime(ctx.rt)
    requires |rs| > 0 ==> Vectors.ResultsAtLeast(rs, |rs[0].vector|)
    modifies store
    ensures store.Valid() && store.saved == old(store.saved)
    ensures |rs| == 0 ==> r == Err(NoVector)
    ensures |rs| > 0 ==> var linked := Link(ctx, old(store.State()), id, rs, now);
      && (r.Err? <==> linked.Err?)
      && (r.Err? ==> r.msg == linked.msg)
      && (r.Ok? ==> r.value == added && store.State() == linked.value)
  {
    var meanVector := Vectors.CalculateMeanVector(rs);
    if meanVector.Err? {
      return Err(meanVector.msg);
    }
    var meanVectorBuffer := Vectors.VectorToBuffer(ctx.f, meanVector.value);
    store.UpdMeanVec(|meanVector.value|, meanVectorBuffer[..], id);
    var s := Waypoints.CreateSingleWaypoint(store, ctx.rt.math, ctx.f, id, meanVector.value, now);
    if s.Err? {
      return Err(s.msg);
    }
    r := Ok(added);
  }

  // ---- what an added memory leaves behind --------------------------------------------

  /** A row appended under a fresh id is found under that id. */
  lemma {:induction false} FindAppended(ms: seq<Db.Memory>, m: Db.Memory)
    requires !Db.HasMem(ms, m.id)
    ensures Db.FindMem(ms + [m], m.id) == Some(m)
  {
    if ms != [] {
      assert ms[0] in ms;
      assert (ms + [m])[1..] == ms[1..] + [m];
      assert !Db.HasMem(ms[1..], m.id) by {
        forall x | x in ms[1..] ensures x.id != m.id {
          assert x in ms;
        }
      }
      FindAppended(ms[1..], m);
    }
  }

  /** After `persist`, the memory carries the weighted mean of its sector
      vectors, as `vecDim` binary32 values, and nothing else of the row changes. */
  lemma PersistRow(ctx: Context, t: Db.Tables, id: string, rs: seq<Vectors.EmbeddingResult>, now: int)
    requires Embedding.ValidRuntime(ctx.rt) && Embedding.Dims(rs, ctx.env.vecDim)
    requires Persist(ctx, t, id, rs, now).Ok? && Db.GetMem(t, id).Some?
    ensures rs != [] && Vectors.ResultsAtLeast(rs, |rs[0].vector|)
    ensures Db.GetMem(Persist(ctx, t, id, rs, now).value, id)
      == Some(Db.GetMem(t, id).value.(meanDim := Some(ctx.env.vecDim), meanVec := Some(Codec.Encode(ctx.f, Vectors.WeightedMean(rs)))))
  {
    var vecs := InsVecs(t, ctx.f, id, rs);
    var mean := Vectors.WeightedMean(rs);
    var withMean := Db.UpdMeanVec(vecs.value, |mean|, Codec.Encode(ctx.f, mean), id);
    Db.MapMemFind(vecs.value.memories, id, Db.SetMean(|mean|, Codec.Encode(ctx.f, mean)));
    assert Db.GetMem(withMean, id) == Some(Db.GetMem(t, id).value.(meanDim := Some(ctx.env.vecDim), meanVec := Some(Codec.Encode(ctx.f, mean))));
    var linked := Waypoints.SingleWaypoint(ctx.rt.math, ctx.f, withMean, id, mean, now);
    assert Persist(ctx, t, id, rs, now) == linked;
    assert linked.value.memories == withMean.memories;
  }

  /** After `persist`, every result has its vector row and the old rows remain. */
  lemma PersistStoresVectors(ctx: Context, t: Db.Tables, id: string, rs: seq<Vectors.EmbeddingResult>, now: int)
    requires Embedding.ValidRuntime(ctx.rt) && Embedding.Dims(rs, ctx.env.vecDim)
    requires Persist(ctx, t, id, rs, now).Ok?
    ensures var u := Persist(ctx, t, id, rs, now).value;
      && (forall k :: 0 <= k < |rs| ==> VecRow(ctx.f, id, rs[k]) in u.vectors)
      && (forall x :: x in t.vectors ==> x in u.vectors)
  {
    InsVecsRows(t, ctx.f, id, rs);
  }

  /** A successful add used a fresh id and stored the classified row: the
      primary sector's name and decay rate, salience 0.4 raised by 0.1 per
      additional sector and capped at 1, version 1, and the mean of its
      sector vectors as `vecDim` binary32 values. */
  lemma AddRow(ctx: Context, reply: nat -> Embedding.Reply, c: nat, t: Db.Tables, id: string, now: int,
               content: string, tags: Option<string>, meta: string, metaSector: Option<string>)
    requires ValidContext(ctx, reply)
    ensures var r := Add(ctx, reply, c, t, id, now, content, tags, meta, metaSector);
      var cls := Sectors.Classify(ctx.hit, content, metaSector);
      r.result.Ok? ==>
        && r.result.value.id == id
        && !Db.HasMem(t.memories, id)
        && Db.GetMem(r.tables, id).Some?
        && var m := Db.GetMem(r.tables, id).value;
        && m.(meanVec := None, meanDim := None) == NewRow(id, content, cls, tags, meta, now)
        && m.meanDim == Some(ctx.env.vecDim)
        && m.meanVec.Some? && |m.meanVec.value| == 4 * ctx.env.vecDim
  {
    var r := Add(ctx, reply, c, t, id, now, content, tags, meta, metaSector);
    var chunks := Chunking.Chunks(ctx.sp, content, TargetTokens, OverlapRatio);
    var cls := Sectors.Classify(ctx.hit, content, metaSector);
    var row := NewRow(id, content, cls, tags, meta, now);
    var ins := Db.InsMem(t, row);
    if r.result.Ok? {
      FindAppended(t.memories, row);
      Embedding.MultiSectorLog(ctx.env, ctx.rt, reply, c, ins.value, id, content, AllSectors(cls), ChunkArg(chunks), now, ctx.reset);
      Embedding.MultiSectorDims(ctx.env, ctx.rt, reply, c, ins.value, id, content, AllSectors(cls), ChunkArg(chunks), now, ctx.reset);
      var run := Embedding.MultiSector(ctx.env, ctx.rt, reply, c, ins.value, id, content, AllSectors(cls), ChunkArg(chunks), now, ctx.reset);
      assert Db.GetMem(run.tables, id) == Some(row);
      PersistRow(ctx, run.tables, id, run.result.value, now);
    }
  }

  /** A successful add stored a vector row for every sector it reports. */
  lemma AddVectors(ctx: Context, reply: nat -> Embedding.Reply, c: nat, t: Db.Tables, id: string, now: int,
                   content: string, tags: Option<string>, meta: string, metaSector: Option<string>)
    requires ValidContext(ctx, reply)
    ensures var r := Add(ctx, reply, c, t, id, now, content, tags, meta, metaSector);
      r.result.Ok? ==>
        && r.result.value.sectors == AllSectors(Sectors.Classify(ctx.hit, content, metaSector))
        && forall i :: 0 <= i < |r.result.value.sectors| ==> Db.HasVec(r.tables.vectors, id, r.result.value.sectors[i])
  {
    var r := Add(ctx, reply, c, t, id, now, content, tags, meta, metaSector);
    var chunks := Chunking.Chunks(ctx.sp, content, TargetTokens, OverlapRatio);
    var sectors := AllSectors(Sectors.Classify(ctx.hit, content, metaSector));
    var ins := Db.InsMem(t, NewRow(id, content, Sectors.Classify(ctx.hit, content, metaSector), tags, meta, now));
    if r.result.Ok? {
      Embedding.MultiSectorCovers(ctx.env, ctx.rt, reply, c, ins.value, id, content, sectors, ChunkArg(chunks), now, ctx.reset);
      Embedding.MultiSectorDims(ctx.env, ctx.rt, reply, c, ins.value, id, content, sectors, ChunkArg(chunks), now, ctx.reset);
      var run := Embedding.MultiSector(ctx.env, ctx.rt, reply, c, ins.value, id, content, sectors, ChunkArg(chunks), now, ctx.reset);
      var rs := run.result.value;
      assert r.tables == Persist(ctx, run.tables, id, rs, now).value;
      PersistCovers(ctx, run.tables, id, rs, now, sectors);
    }
  }

  /** Every sector some result was embedded for gets a stored vector. */
  lemma PersistCovers(ctx: Context, t: Db.Tables, id: string, rs: seq<Vectors.EmbeddingResult>, now: int, sectors: seq<string>)
    requires Embedding.ValidRuntime(ctx.rt) && Embedding.Dims(rs, ctx.env.vecDim)
    requires Persist(ctx, t, id, rs, now).Ok?
    requires forall i :: 0 <= i < |sectors| ==> sectors[i] in Embedding.ResultSectors(rs)
    ensures forall i :: 0 <= i < |sectors| ==> Db.HasVec(Persist(ctx, t, id, rs, now).value.vectors, id, sectors[i])
  {
    var u := Persist(ctx, t, id, rs, now).value;
    PersistStoresVectors(ctx, t, id, rs, now);
    forall i | 0 <= i < |sectors|
      ensures Db.HasVec(u.vectors, id, sectors[i])
    {
      var k :| 0 <= k < |rs| && Embedding.ResultSectors(rs)[k] == sectors[i];
      assert VecRow(ctx.f, id, rs[k]) in u.vectors;
    }
  }

  /** An add changes no other memory's row. */
  lemma AddKeepsOthers(ctx: Context, reply: nat -> Embedding.Reply, c: nat, t: Db.Tables, id: string, now: int,
                       content: string, tags: Option<string>, meta: string, metaSector: Option<string>, other: string)
    requires ValidContext(ctx, reply) && other != id
    ensures Db.GetMem(Add(ctx, reply, c, t, id, now, content, tags, meta, metaSector).tables, other) == Db.GetMem(t, other)
  {
    var r := Add(ctx, reply, c, t, id, now, content, tags, meta, metaSector);
    var chunks := Chunking.Chunks(ctx.sp, content, TargetTokens, OverlapRatio);
    var cls := Sectors.Classify(ctx.hit, content, metaSector);
    var row := NewRow(id, content, cls, tags, meta, now);
    var ins := Db.InsMem(t, row);
    if r.result.Ok? {
      Db.FindAppendedOther(t.memories, row, other);
      Embedding.MultiSectorLog(ctx.env, ctx.rt, reply, c, ins.value, id, content, AllSectors(cls), ChunkArg(chunks), now, ctx.reset);
      Embedding.MultiSectorDims(ctx.env, ctx.rt, reply, c, ins.value, id, content, AllSectors(cls), ChunkArg(chunks), now, ctx.reset);
      var run := Embedding.MultiSector(ctx.env, ctx.rt, reply, c, ins.value, id, content, AllSectors(cls), ChunkArg(chunks), now, ctx.reset);
      assert Db.GetMem(run.tables, other) == Db.GetMem(t, other);
      PersistKeepsOthers(ctx, run.tables, id, run.result.value, now, other);
    }
  }

  /** `persist` changes no other memory's row. */
  lemma PersistKeepsOthers(ctx: Context, t: Db.Tables, id: string, rs: seq<Vectors.EmbeddingResult>, now: int, other: string)
    requires Embedding.ValidRuntime(ctx.rt) && Embedding.Dims(rs, ctx.env.vecDim) && other != id
    requires Persist(ctx, t, id, rs, now).Ok?
    ensures Db.GetMem(Persist(ctx, t, id, rs, now).value, other) == Db.GetMem(t, other)
  {
    var vecs := InsVecs(t, ctx.f, id, rs);
    var mean := Vectors.WeightedMean(rs);
    var withMean := Db.UpdMeanVec(vecs.value, |mean|, Codec.Encode(ctx.f, mean), id);
    Db.MapMemFind(vecs.value.memories, id, Db.SetMean(|mean|, Codec.Encode(ctx.f, mean)));
    assert Db.GetMem(withMean, other) == Db.GetMem(t, other);
  }

  // ---- a repeated sector rolls the add back -------------------------------------------

  /** Two results for the same sector cannot both be stored: the second
      `ins_vec` for the same (id, sector) key is refused, so the loop fails. */
  lemma InsVecsRepeat(t: Db.Tables, f: Codec.Binary32, id: string, rs: seq<Vectors.EmbeddingResult>, i: nat, j: nat)
    requires i < j < |rs| && rs[i].sector == rs[j].sector
    ensures InsVecs(t, f, id, rs).Err?
  {
    var p := InsVecs(t, f, id, rs[..j]);
    if p.Ok? {
      InsVecsRows(t, f, id, rs[..j]);
      assert VecRow(f, id, rs[..j][i]) in p.value.vectors;
      Js.PrefixSlice(rs, j, j + 1);
      assert Db.HasVec(p.value.vectors, id, rs[j].sector);
      assert InsVecs(t, f, id, rs[..j + 1]).Err?;
      InsVecsStopsAtError(t, f, id, rs, j + 1);
    } else {
      InsVecsStopsAtError(t, f, id, rs, j);
    }
  }

  /** Results for distinct sectors of an id that has no vector rows yet are all
      stored, and the only rows of that id are theirs. */
  lemma {:induction false} InsVecsDistinct(t: Db.Tables, f: Codec.Binary32, id: string, rs: seq<Vectors.EmbeddingResult>)
    requires Js.Distinct(Embedding.ResultSectors(rs))
    requires forall x :: x in t.vectors ==> x.id != id
    ensures InsVecs(t, f, id, rs).Ok?
    ensures forall x :: x in InsVecs(t, f, id, rs).value.vectors && x.id == id ==> x.sector in Embedding.ResultSectors(rs)
    decreases |rs|
  {
    if rs != [] {
      var init := rs[..|rs| - 1];
      var last := rs[|rs| - 1];
      assert Js.Distinct(Embedding.ResultSectors(init)) by {
        forall a, b | 0 <= a < b < |init| ensures Embedding.ResultSectors(init)[a] != Embedding.ResultSectors(init)[b] {
          assert Embedding.ResultSectors(rs)[a] != Embedding.ResultSectors(rs)[b];
        }
      }
      InsVecsDistinct(t, f, id, init);
      var p := InsVecs(t, f, id, init).value;
      assert !Db.HasVec(p.vectors, id, last.sector) by {
        forall x | x in p.vectors && x.id == id ensures x.sector != last.sector {
          var k :| 0 <= k < |init| && Embedding.ResultSectors(init)[k] == x.sector;
          assert Embedding.ResultSectors(rs)[k] != Embedding.ResultSectors(rs)[|rs| - 1];
        }
      }
      var u := InsVecs(t, f, id, rs).value;
      assert u.vectors == p.vectors + [VecRow(f, id, last)];
      forall x | x in u.vectors && x.id == id ensures x.sector in Embedding.ResultSectors(rs) {
        if x in p.vectors {
          var k :| 0 <= k < |init| && Embedding.ResultSectors(init)[k] == x.sector;
          assert Embedding.ResultSectors(rs)[k] == x.sector;
        } else {
          assert Embedding.ResultSectors(rs)[|rs| - 1] == x.sector;
        }
      }
    }
  }

  /** A pattern oracle under which only the first pattern of 'semantic' and the
      first of 'emotional' match. */
  const FlakyHit: Sectors.Matcher := (text: string, s: Sectors.Sector, j: nat) => j == 0 && (s == Sectors.Semantic || s == Sectors.Emotional)

  lemma FlakyScores(content: string, s: Sectors.Sector)
    ensures Sectors.Score(FlakyHit, content, s) == TwoScores(s)
  {
    var n := |Sectors.PatternGroups(s)|;
    assert Sectors.PatternGroups(s)[0] == 1;
    var first := Sectors.PatternSum(FlakyHit, content, s, 1);
    assert first == Sectors.PatternSum(FlakyHit, content, s, 0) + (if FlakyHit(content, s, 0) then 2.0 * Sectors.Weight(s) else 0.0);
    assert Sectors.PatternSum(FlakyHit, content, s, 2) == first;
    assert Sectors.PatternSum(FlakyHit, content, s, 3) == first;
    assert Sectors.PatternSum(FlakyHit, content, s, 4) == first;
    if n == 5 {
      assert Sectors.PatternSum(FlakyHit, content, s, 5) == first;
    }
  }

  /** The scores under the flaky oracle: 2.6 for 'emotional', 2.0 for 'semantic'. */
  function TwoScores(s: Sectors.Sector): real
  {
    if s == Sectors.Emotional then 2.6 else if s == Sectors.Semantic then 2.0 else 0.0
  }

  /** Content on which 'emotional' scores 2.6, 'semantic' 2.0 and the others
      nothing is filed under 'emotional' with 'semantic' additional. */
  lemma TwoSectorClassify(hit: Sectors.Matcher, content: string)
    requires forall s :: Sectors.Score(hit, content, s) == TwoScores(s)
    ensures AllSectors(Sectors.Classify(hit, content, None)) == Embedding.FlakySectors
  {
    Sectors.RegistryWellFormed();
    var key := Sectors.ScoreKey(hit, content);
    assert Sectors.Classify(hit, content, None) == Sectors.Rank(Sectors.Registry, key);
    TwoSectorRank(key);
  }

  lemma TwoSectorRank(key: Sectors.Sector -> real)
    requires forall s :: key(s) == TwoScores(s)
    ensures Sectors.WellFormed(Sectors.Registry) && Sectors.NonNegative(key)
    ensures AllSectors(Sectors.Rank(Sectors.Registry, key)) == Embedding.FlakySectors
  {
    Sectors.RegistryWellFormed();
    TwoSectorPrimary(key);
    TwoSectorAdditional(key);
    TwoSectorNames(Sectors.Rank(Sectors.Registry, key));
  }

  lemma TwoSectorNames(c: Sectors.Classification)
    requires c.primary == Sectors.Emotional && c.additional == [Sectors.Semantic]
    ensures AllSectors(c) == Embedding.FlakySectors
  {
    assert Names(c.additional) == ["semantic"];
  }

  lemma TwoSectorPrimary(key: Sectors.Sector -> real)
    requires forall s :: key(s) == TwoScores(s)
    ensures Sectors.NonNegative(key)
    ensures Sectors.Rank(Sectors.Registry, key).primary == Sectors.Emotional
  {
    Sectors.RegistryWellFormed();
    Sectors.RankPrimary(Sectors.Registry, key);
    var top := Sectors.Registry[Sorting.FirstMax(Sectors.Registry, key)];
    assert key(top) >= key(Sectors.Emotional);
  }

  lemma TwoSectorAdditional(key: Sectors.Sector -> real)
    requires forall s :: key(s) == TwoScores(s)
    ensures Sectors.NonNegative(key)
    ensures Sectors.Rank(Sectors.Registry, key).additional == [Sectors.Semantic]
  {
    Sectors.RegistryWellFormed();
    TwoSectorPrimary(key);
    var add := Sectors.Rank(Sectors.Registry, key).additional;
    forall a | 0 <= a < |add| ensures add[a] == Sectors.Semantic {
      Sectors.RankAdditional(Sectors.Registry, key, add[a]);
    }
    Sectors.RankAdditional(Sectors.Registry, key, Sectors.Semantic);
    Sorting.OnlyElement(add, Sectors.Semantic);
  }

  /** An add whose content is a single chunk, under a fresh id: the row is
      inserted, the run embeds the classified sectors, and what follows depends
      on the run and on `persist` alone. */
  lemma AddOneChunk(ctx: Context, reply: nat -> Embedding.Reply, c: nat, t: Db.Tables, id: string, now: int,
                    content: string, tags: Option<string>, meta: string, metaSector: Option<string>)
    requires ValidContext(ctx, reply)
    requires |Chunking.Chunks(ctx.sp, content, TargetTokens, OverlapRatio)| == 1 && !Db.HasMem(t.memories, id)
    ensures var cls := Sectors.Classify(ctx.hit, content, metaSector);
      var t1 := t.(memories := t.memories + [NewRow(id, content, cls, tags, meta, now)]);
      var run := Embedding.MultiSector(ctx.env, ctx.rt, reply, c, t1, id, content, AllSectors(cls), [], now, ctx.reset);
      run.result.Ok? ==>
        && Embedding.Dims(run.result.value, ctx.env.vecDim)
        && Add(ctx, reply, c, t, id, now, content, tags, meta, metaSector) ==
             var done := Persist(ctx, run.tables, id, run.result.value, now);
             if done.Err? then AddRun(Err(done.msg), run.calls, t)
             else AddRun(Ok(Added(id, Sectors.Name(cls.primary), AllSectors(cls), 1)), run.calls, done.value)
  {
    var cls := Sectors.Classify(ctx.hit, content, metaSector);
    var t1 := t.(memories := t.memories + [NewRow(id, content, cls, tags, meta, now)]);
    Embedding.MultiSectorDims(ctx.env, ctx.rt, reply, c, t1, id, content, AllSectors(cls), [], now, ctx.reset);
  }

  /** `persist` succeeds for results of distinct sectors under an id that has
      no vector rows, in a store whose only memory is that id's. */
  lemma PersistAlone(ctx: Context, t: Db.Tables, id: string, rs: seq<Vectors.EmbeddingResult>, now: int)
    requires Embedding.ValidRuntime(ctx.rt) && Embedding.Dims(rs, ctx.env.vecDim)
    requires rs != [] && Js.Distinct(Embedding.ResultSectors(rs))
    requires forall x :: x in t.vectors ==> x.id != id
    requires forall x :: x in t.memories ==> x.id == id
    ensures Persist(ctx, t, id, rs, now).Ok?
  {
    InsVecsDistinct(t, ctx.f, id, rs);
    var vecs := InsVecs(t, ctx.f, id, rs).value;
    var mean := Vectors.WeightedMean(rs);
    var withMean := Db.UpdMeanVec(vecs, |mean|, Codec.Encode(ctx.f, mean), id);
    assert forall x :: x in withMean.memories ==> x.id == id;
    Db.PageFacts(withMean.memories, Db.CreatedAt, 1000, 0);
    BestMatchNone(ctx.rt.math, ctx.f, Db.AllMem(withMean, 1000, 0), id, mean);
  }

  /** The row the flaky add inserts. */
  function FlakyRow(id: string, content: string, tags: Option<string>, meta: string, now: int): Db.Memory
  {
    NewRow(id, content, Sectors.Classify(FlakyHit, content, None), tags, meta, now)
  }

  /** The steps both flaky adds share: one chunk, the two sectors 'emotional'
      and 'semantic', then the run against the flaky provider. */
  lemma FlakyAddSteps(ctx: Context, t: Db.Tables, id: string, now: int, content: string, tags: Option<string>, meta: string)
    requires ctx.hit == FlakyHit && ctx.env == Embedding.FlakyEnv && Embedding.ValidRuntime(ctx.rt)
    requires |content| <= 4 * TargetTokens && !Db.HasMem(t.memories, id)
    ensures ValidContext(ctx, Embedding.FlakyReply)
    ensures var t1 := t.(memories := t.memories + [FlakyRow(id, content, tags, meta, now)]);
      var run := Embedding.MultiSector(ctx.env, ctx.rt, Embedding.FlakyReply, 0, t1, id, content, Embedding.FlakySectors, [], now, ctx.reset);
      run.result.Ok? ==>
        && Embedding.Dims(run.result.value, ctx.env.vecDim)
        && Add(ctx, Embedding.FlakyReply, 0, t, id, now, content, tags, meta, None) ==
             var done := Persist(ctx, run.tables, id, run.result.value, now);
             if done.Err? then AddRun(Err(done.msg), run.calls, t)
             else AddRun(Ok(Added(id, "emotional", Embedding.FlakySectors, 1)), run.calls, done.value)
  {
    Embedding.FlakyUniform();
    forall s ensures Sectors.Score(FlakyHit, content, s) == TwoScores(s) {
      FlakyScores(content, s);
    }
    TwoSectorClassify(FlakyHit, content);
    var cls := Sectors.Classify(FlakyHit, content, None);
    assert Sectors.Name(cls.primary) == AllSectors(cls)[0] == "emotional";
    assert |Chunking.Chunks(ctx.sp, content, TargetTokens, OverlapRatio)| == 1;
    AddOneChunk(ctx, Embedding.FlakyReply, 0, t, id, now, content, tags, meta, None);
  }

  /** As written, an add against the flaky provider fails: the 'emotional'
      result kept from the failed first attempt is stored twice, the second
      insert is refused, and the transaction is rolled back. */
  lemma RepeatedSectorRollsBack(ctx: Context, t: Db.Tables, id: string, now: int, content: string, tags: Option<string>, meta: string)
    requires ctx.hit == FlakyHit && ctx.env == Embedding.FlakyEnv && Embedding.ValidRuntime(ctx.rt) && !ctx.reset
    requires |content| <= 4 * TargetTokens && !Db.HasMem(t.memories, id) && !Db.HasLog(t.logs, id)
    ensures ValidContext(ctx, Embedding.FlakyReply)
    ensures var r := Add(ctx, Embedding.FlakyReply, 0, t, id, now, content, tags, meta, None);
      r.result.Err? && r.tables == t
  {
    var t1 := t.(memories := t.memories + [FlakyRow(id, content, tags, meta, now)]);
    Embedding.PartialResultsPersist(ctx.rt, t1, id, content, now);
    FlakyAddSteps(ctx, t, id, now, content, tags, meta);
    var run := Embedding.MultiSector(ctx.env, ctx.rt, Embedding.FlakyReply, 0, t1, id, content, Embedding.FlakySectors, [], now, false);
    InsVecsRepeat(run.tables, ctx.f, id, run.result.value, 0, 1);
  }

  /** With each attempt starting afresh, the same add into a store holding
      nothing under that id succeeds with both sectors. */
  lemma FreshAddSucceeds(ctx: Context, t: Db.Tables, id: string, now: int, content: string, tags: Option<string>, meta: string)
    requires ctx.hit == FlakyHit && ctx.env == Embedding.FlakyEnv && Embedding.ValidRuntime(ctx.rt) && ctx.reset
    requires |content| <= 4 * TargetTokens && t.memories == [] && !Db.HasLog(t.logs, id)
    requires forall x :: x in t.vectors ==> x.id != id
    ensures ValidContext(ctx, Embedding.FlakyReply)
    ensures Add(ctx, Embedding.FlakyReply, 0, t, id, now, content, tags, meta, None).result
         == Ok(Added(id, "emotional", Embedding.FlakySectors, 1))
  {
    FlakyAddSteps(ctx, t, id, now, content, tags, meta);
    FreshRunPersists(ctx, t, id, now, FlakyRow(id, content, tags, meta, now), content);
  }

  /** The fresh run against the flaky provider returns both sectors once, and
      persisting them into a store holding only the new row succeeds. */
  lemma FreshRunPersists(ctx: Context, t: Db.Tables, id: string, now: int, row: Db.Memory, content: string)
    requires ctx.env == Embedding.FlakyEnv && Embedding.ValidRuntime(ctx.rt)
    requires row.id == id && t.memories == [] && !Db.HasLog(t.logs, id)
    requires forall x :: x in t.vectors ==> x.id != id
    ensures Embedding.Uniform(Embedding.FlakyReply, ctx.env.vecDim)
    ensures var run := Embedding.MultiSector(ctx.env, ctx.rt, Embedding.FlakyReply, 0, t.(memories := t.memories + [row]), id, content,
                                             Embedding.FlakySectors, [], now, true);
      && run.result.Ok?
      && Embedding.Dims(run.result.value, ctx.env.vecDim)
      && Persist(ctx, run.tables, id, run.result.value, now).Ok?
  {
    var t1 := t.(memories := t.memories + [row]);
    Embedding.FreshResultsPerAttempt(ctx.rt, t1, id, content, now);
    Embedding.MultiSectorLog(ctx.env, ctx.rt, Embedding.FlakyReply, 0, t1, id, content, Embedding.FlakySectors, [], now, true);
    Embedding.MultiSectorDims(ctx.env, ctx.rt, Embedding.FlakyReply, 0, t1, id, content, Embedding.FlakySectors, [], now, true);
    var run := Embedding.MultiSector(ctx.env, ctx.rt, Embedding.FlakyReply, 0, t1, id, content, Embedding.FlakySectors, [], now, true);
    Embedding.FlakySectorsDistinct();
    assert Embedding.ResultSectors(run.result.value) == Embedding.FlakySectors;
    assert t1.memories == [row];
    PersistAlone(ctx, run.tables, id, run.result.value, now);
  }

  /** With no candidate besides the new memory itself, there is no match. */
  lemma {:induction false} BestMatchNone(m: Math, f: Codec.Binary32, mems: seq<Db.Memory>, newId: string, v: seq<real>)
    requires ValidMath(m) && forall x :: x in mems ==> x.id == newId
    ensures Waypoints.BestMatch(m, f, mems, newId, v) == Ok(None)
  {
    if mems != [] {
      assert mems[|mems| - 1] in mems;
      BestMatchNone(m, f, mems[..|mems| - 1], newId, v);
    }
  }
}
