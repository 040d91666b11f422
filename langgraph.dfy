/** The LangGraph memory layer: graph nodes ('observe', 'plan', 'reflect',
    'act', 'emotion') store and recall memories through the HSG core. A node
    names the sector its memories go to; every memory carries `lgm:*` tags and an
    `lgm` metadata object that ties it to a namespace and, optionally, a graph. */
module LangGraph {
  import opened Wrappers
  import Js
  import Json
  import Sectors
  import Sorting
  import Db
  import Database
  import Embedding
  import Waypoints
  import Hsg
  import Query

  /** `env.lg_namespace`, `env.lg_max_context` and `env.lg_reflective`. */
  datatype Config = Config(namespace: string, maxContext: int, reflective: bool)

  const Required := "node and content are required"
  const NodeRequired := "node is required"
  const NotDerived := "reflection content could not be derived"

  /** `SUMMARY_LINE_LIMIT`, and the default and reflection truncation lengths. */
  const SummaryLineLimit: nat := 160
  const DefaultMax: nat := 320
  const ReflectionMax: nat := 480

  /** A string option that JavaScript treats as true: present and not empty. */
  predicate Present(s: Option<string>)
  {
    s.Some? && s.value != ""
  }

  function IntMax(a: int, b: int): int
  {
    if a >= b then a else b
  }

  // ---- truncate ---------------------------------------------------------------------------

  /** `truncate(text, max)`: short text is kept, longer text is cut to `max`
      characters, its trailing white space dropped, and "..." appended. */
  function Truncate(text: string, max: nat): (r: string)
    ensures |text| <= max ==> r == text
    ensures |text| > max ==>
      && 3 <= |r| <= max + 3 && r[|r| - 3..] == "..."
      && var head := r[..|r| - 3];
         && head == text[..|head|]
         && (head == [] || !Js.IsSpace(head[|head| - 1]))
         && forall i :: |head| <= i < max ==> Js.IsSpace(text[i])
  {
    if |text| <= max then text
    else
      var head := Js.TrimEnd(text[..max]);
      assert (head + "...")[..|head|] == head;
      head + "..."
  }

  // ---- sectors of the graph nodes -----------------------------------------------------------

  /** The keys of `NODE_SECTOR_MAP`, in insertion order. */
  const Nodes: seq<string> := ["observe", "plan", "reflect", "act", "emotion"]

  /** `NODE_SECTOR_MAP`'s own properties. */
  function NodeSector(key: string): (r: Option<Sectors.Sector>)
    ensures r.Some? <==> key in Nodes
  {
    if key == "observe" then Some(Sectors.Episodic)
    else if key == "plan" then Some(Sectors.Semantic)
    else if key == "reflect" then Some(Sectors.Reflective)
    else if key == "act" then Some(Sectors.Procedural)
    else if key == "emotion" then Some(Sectors.Emotional)
    else None
  }

  /** `resolveSector(node)`: the map's sector for the lowercased node, and
      'semantic' for every other node. */
  function ResolveSector(node: string): (r: Sectors.Sector)
    ensures Js.ToLower(node) in Nodes ==> Some(r) == NodeSector(Js.ToLower(node))
    ensures Js.ToLower(node) !in Nodes ==> r == Sectors.Semantic
  {
    var s := NodeSector(Js.ToLower(node));
    if s.Some? then s.value else Sectors.Semantic
  }

  /** The five graph nodes name five different sectors, so every sector has
      exactly one node. */
  lemma NodesCoverSectors(s: Sectors.Sector)
    ensures exists i :: 0 <= i < |Nodes| && NodeSector(Nodes[i]) == Some(s)
    ensures forall i, j :: 0 <= i < j < |Nodes| ==> NodeSector(Nodes[i]) != NodeSector(Nodes[j])
  {
    match s
    case Episodic => assert NodeSector(Nodes[0]) == Some(s);
    case Semantic => assert NodeSector(Nodes[1]) == Some(s);
    case Reflective => assert NodeSector(Nodes[2]) == Some(s);
    case Procedural => assert NodeSector(Nodes[3]) == Some(s);
    case Emotional => assert NodeSector(Nodes[4]) == Some(s);
  }

  /** What `NODE_SECTOR_MAP[key]` reads on a plain object literal: an own
      property, a property inherited from `Object.prototype`, or nothing. */
  datatype Lookup = Own(sector: Sectors.Sector) | Inherited(name: string) | Missing

  /** The properties of `Object.prototype` whose names have no upper-case
      letter, the only ones a lowercased node can reach. */
  const PrototypeKeys: seq<string> := ["constructor", "__proto__"]

  function LookupAsWritten(key: string): Lookup
  {
    var s := NodeSector(key);
    if s.Some? then Own(s.value) else if key in PrototypeKeys then Inherited(key) else Missing
  }

  /** `resolveSector` as written: `??` only replaces a missing property. */
  function ResolveSectorAsWritten(node: string): Lookup
  {
    var l := LookupAsWritten(Js.ToLower(node));
    if l.Missing? then Own(Sectors.Semantic) else l
  }

  /** The node "Constructor" resolves to the `Object` constructor rather than to
      a sector, whereas the default was meant for every unmapped node. */
  lemma ConstructorIsNotASector()
    ensures ResolveSectorAsWritten("Constructor") == Inherited("constructor")
    ensures ResolveSector("Constructor") == Sectors.Semantic
  {
    assert Js.ToLower("Constructor") == "constructor";
  }

  /** Where the map has no own property, the intended resolution and the
      written one agree. */
  lemma ResolveSectorAgrees(node: string)
    requires Js.ToLower(node) !in PrototypeKeys
    ensures ResolveSectorAsWritten(node) == Own(ResolveSector(node))
  {
  }

  // ---- namespaces, tags and metadata ---------------------------------------------------------

  /** `namespace || env.lg_namespace`. */
  function ResolveNamespace(namespace: Option<string>, cfg: Config): (r: string)
    ensures Present(namespace) ==> r == namespace.value
    ensures !Present(namespace) ==> r == cfg.namespace
  {
    if Present(namespace) then namespace.value else cfg.namespace
  }

  function NodeTag(node: string): string
  {
    "lgm:node:" + Js.ToLower(node)
  }

  function NamespaceTag(namespace: string): string
  {
    "lgm:namespace:" + namespace
  }

  function GraphTags(graphId: Option<string>): seq<string>
  {
    if Present(graphId) then ["lgm:graph:" + graphId.value] else []
  }

  /** The tags in the order they are added to the set. */
  function TagInput(tags: Option<seq<string>>, node: string, namespace: string, graphId: Option<string>): seq<string>
  {
    (if tags.Some? then tags.value else []) + [NodeTag(node), NamespaceTag(namespace)] + GraphTags(graphId)
  }

  /** `buildTags`: the caller's tags, the node tag, the namespace tag and the
      graph tag, through an insertion-ordered `Set`. */
  function BuildTags(tags: Option<seq<string>>, node: string, namespace: string, graphId: Option<string>): seq<string>
  {
    Js.Dedup(TagInput(tags, node, namespace, graphId))
  }

  /** The tags hold no repeats, hold exactly the caller's tags and the `lgm:`
      tags (a graph tag only for a non-empty graph id), and keep the order in
      which each first appears. */
  lemma BuildTagsFacts(tags: Option<seq<string>>, node: string, namespace: string, graphId: Option<string>)
    ensures var r := BuildTags(tags, node, namespace, graphId);
      && Js.Distinct(r)
      && (forall x :: x in r <==>
            (tags.Some? && x in tags.value) || x == NodeTag(node) || x == NamespaceTag(namespace)
            || (Present(graphId) && x == "lgm:graph:" + graphId.value))
      && forall i, j :: 0 <= i < j < |r| ==>
           Js.IndexOf(TagInput(tags, node, namespace, graphId), r[i]) < Js.IndexOf(TagInput(tags, node, namespace, graphId), r[j])
  {
    var input := TagInput(tags, node, namespace, graphId);
    var r := BuildTags(tags, node, namespace, graphId);
    forall x ensures x in r <==> x in input {
      if x in input {
        var k :| 0 <= k < |input| && input[k] == x;
      }
    }
    forall i, j | 0 <= i < j < |r| ensures Js.IndexOf(input, r[i]) < Js.IndexOf(input, r[j]) {
      Js.DedupKeepsFirstOccurrenceOrder(input, i, j);
    }
  }

  /** The keys `buildMetadata` sets on `lgm`. */
  const LgmKeys: seq<string> := ["node", "sector", "namespace", "graph_id", "stored_at", "mode"]

  /** `{ node, sector, namespace, graph_id: graph_id ?? null, stored_at, mode: 'langgraph' }`. */
  function LgmFields(node: string, sector: Sectors.Sector, namespace: string, graphId: Option<string>, storedAt: int): seq<Json.Field>
  {
    [Json.Field("node", Json.Str(node)), Json.Field("sector", Json.Str(Sectors.Name(sector))),
     Json.Field("namespace", Json.Str(namespace)),
     Json.Field("graph_id", if graphId.Some? then Json.Str(graphId.value) else Json.Null),
     Json.Field("stored_at", Json.Num(storedAt as real)), Json.Field("mode", Json.Str("langgraph"))]
  }

  /** The own enumerable properties `{ ...v }` copies: an object's fields, an
      array's elements under their indices, and nothing for any other value. */
  function SpreadOf(v: Option<Json.Value>): seq<Json.Field>
  {
    if v.Some? && v.value.Obj? then v.value.fields
    else if v.Some? && v.value.Arr? then
      seq(|v.value.items|, i requires 0 <= i < |v.value.items| => Json.Field(Js.NatToString(i), v.value.items[i]))
    else []
  }

  /** The `lgm` object `buildMetadata` sets: the existing one spread, then its own keys. */
  function LgmOf(base: seq<Json.Field>, node: string, sector: Sectors.Sector, namespace: string, graphId: Option<string>, storedAt: int): seq<Json.Field>
  {
    Json.Spread(Json.Copy(SpreadOf(Json.Get(base, "lgm"))), LgmFields(node, sector, namespace, graphId, storedAt))
  }

  /** `buildMetadata(payload, sector, namespace)`: a copy of the caller's
      metadata whose `lgm` property is replaced. */
  function BuildMetadata(metadata: Option<seq<Json.Field>>, node: string, sector: Sectors.Sector, namespace: string,
                         graphId: Option<string>, storedAt: int): seq<Json.Field>
  {
    var base := Json.Copy(if metadata.Some? then metadata.value else []);
    Json.Put(base, "lgm", Json.Obj(LgmOf(base, Js.ToLower(node), sector, namespace, graphId, storedAt)))
  }

  /** Every property of the caller's metadata but `lgm` is kept; `lgm` keeps
      what it held under other keys and gets the node, sector, namespace,
      graph id (or null), time and mode. */
  lemma BuildMetadataFacts(metadata: Option<seq<Json.Field>>, node: string, sector: Sectors.Sector, namespace: string,
                           graphId: Option<string>, storedAt: int)
    ensures var m := BuildMetadata(metadata, node, sector, namespace, graphId, storedAt);
      var given := if metadata.Some? then metadata.value else [];
      && Json.Keyed(m)
      && (forall k :: k != "lgm" ==> Json.Get(m, k) == Json.Get(given, k))
      && Json.Get(m, "lgm").Some? && Json.Get(m, "lgm").value.Obj?
      && var l := Json.Get(m, "lgm").value.fields;
      && Json.Get(l, "node") == Some(Json.Str(Js.ToLower(node)))
      && Json.Get(l, "sector") == Some(Json.Str(Sectors.Name(sector)))
      && Json.Get(l, "namespace") == Some(Json.Str(namespace))
      && Json.Get(l, "graph_id") == Some(if graphId.Some? then Json.Str(graphId.value) else Json.Null)
      && Json.Get(l, "stored_at") == Some(Json.Num(storedAt as real))
      && Json.Get(l, "mode") == Some(Json.Str("langgraph"))
      && forall k :: k !in LgmKeys ==> Json.Get(l, k) == Json.Get(SpreadOf(Json.Get(Json.Copy(given), "lgm")), k)
  {
    var given := if metadata.Some? then metadata.value else [];
    var base := Json.Copy(given);
    Json.SpreadGet([], given);
    var prior := SpreadOf(Json.Get(base, "lgm"));
    Json.SpreadGet([], prior);
    var fields := LgmFields(Js.ToLower(node), sector, namespace, graphId, storedAt);
    Json.SpreadGet(Json.Copy(prior), fields);
    LgmFieldsGet(Js.ToLower(node), sector, namespace, graphId, storedAt);
    Json.PutGet(base, "lgm", Json.Obj(LgmOf(base, Js.ToLower(node), sector, namespace, graphId, storedAt)));
  }

  /** Reading the six `lgm` fields back. */
  lemma LgmFieldsGet(node: string, sector: Sectors.Sector, namespace: string, graphId: Option<string>, storedAt: int)
    ensures var f := LgmFields(node, sector, namespace, graphId, storedAt);
      && Json.Get(f, "node") == Some(Json.Str(node))
      && Json.Get(f, "sector") == Some(Json.Str(Sectors.Name(sector)))
      && Json.Get(f, "namespace") == Some(Json.Str(namespace))
      && Json.Get(f, "graph_id") == Some(if graphId.Some? then Json.Str(graphId.value) else Json.Null)
      && Json.Get(f, "stored_at") == Some(Json.Num(storedAt as real))
      && Json.Get(f, "mode") == Some(Json.Str("langgraph"))
      && forall k :: k !in LgmKeys ==> Json.Get(f, k).None?
  {
    var f := LgmFields(node, sector, namespace, graphId, storedAt);
    assert Json.Keys(f) == LgmKeys;
    assert Json.Keyed(f);
    forall v, k | Json.Field(k, v) in f && k in LgmKeys ensures Json.Get(f, k) == Some(v) {
      Json.GetKeyed(f, k);
    }
    assert f[0] == Json.Field("node", Json.Str(node));
    assert f[1] == Json.Field("sector", Json.Str(Sectors.Name(sector)));
    assert f[2] == Json.Field("namespace", Json.Str(namespace));
    assert f[3] == Json.Field("graph_id", if graphId.Some? then Json.Str(graphId.value) else Json.Null);
    assert f[4] == Json.Field("stored_at", Json.Num(storedAt as real));
    assert f[5] == Json.Field("mode", Json.Str("langgraph"));
  }

  /** `obj?.[key]` for a value read from JSON: only an object has properties here. */
  function Prop(v: Option<Json.Value>, key: string): Option<Json.Value>
  {
    if v.Some? && v.value.Obj? then Json.Get(v.value.fields, key) else None
  }

  /** `matchesNamespace(metadata, namespace, graphId)`. */
  predicate MatchesNamespace(metadata: Json.Value, namespace: string, graphId: Option<string>)
  {
    var lgm := Prop(Some(metadata), "lgm");
    if lgm.None? || !Json.Truthy(lgm.value) then false
    else if Prop(lgm, "namespace") != Some(Json.Str(namespace)) then false
    else if Present(graphId) && Prop(lgm, "graph_id") != Some(Json.Str(graphId.value)) then false
    else true
  }

  /** What `buildMetadata` writes for a namespace and graph is found again under
      that namespace, with or without naming the graph; under any other
      namespace, or with another graph named, it is not. */
  lemma MetadataMatches(metadata: Option<seq<Json.Field>>, node: string, sector: Sectors.Sector, namespace: string,
                        graphId: Option<string>, storedAt: int, other: string, otherGraph: Option<string>)
    ensures var m := Json.Obj(BuildMetadata(metadata, node, sector, namespace, graphId, storedAt));
      && MatchesNamespace(m, namespace, graphId)
      && MatchesNamespace(m, namespace, None)
      && (other != namespace ==> !MatchesNamespace(m, other, otherGraph))
      && (Present(otherGraph) && graphId != otherGraph ==> !MatchesNamespace(m, namespace, otherGraph))
  {
    BuildMetadataFacts(metadata, node, sector, namespace, graphId, storedAt);
    var m := BuildMetadata(metadata, node, sector, namespace, graphId, storedAt);
    var l := Json.Get(m, "lgm").value.fields;
    MatchesLgm(m, l, namespace, graphId, other, otherGraph);
  }

  lemma MatchesLgm(m: seq<Json.Field>, l: seq<Json.Field>, namespace: string, graphId: Option<string>,
                   other: string, otherGraph: Option<string>)
    requires Json.Get(m, "lgm") == Some(Json.Obj(l))
    requires Json.Get(l, "namespace") == Some(Json.Str(namespace))
    requires Json.Get(l, "graph_id") == Some(if graphId.Some? then Json.Str(graphId.value) else Json.Null)
    ensures MatchesNamespace(Json.Obj(m), namespace, graphId)
    ensures MatchesNamespace(Json.Obj(m), namespace, None)
    ensures other != namespace ==> !MatchesNamespace(Json.Obj(m), other, otherGraph)
    ensures Present(otherGraph) && graphId != otherGraph ==> !MatchesNamespace(Json.Obj(m), namespace, otherGraph)
  {
  }

  /** `safeParse(value, fallback)`: an empty or unparsable text gives the fallback. */
  function SafeParse(codec: Json.Codec, value: Option<string>, fallback: Json.Value): Json.Value
  {
    if value.None? || value.value == "" then fallback
    else
      var parsed := codec.parse(value.value);
      if parsed.Some? then parsed.value else fallback
  }

  /** Whether a stored metadata text belongs to the namespace (and graph). */
  predicate StoredIn(codec: Json.Codec, meta: string, namespace: string, graphId: Option<string>)
  {
    MatchesNamespace(SafeParse(codec, Some(meta), Json.Obj([])), namespace, graphId)
  }

  /** The metadata `storeNodeMemory` writes for the request, and that of the
      reflection it may store beside it, are read back as written. */
  predicate StoredMetaRoundTrips(codec: Json.Codec, cfg: Config, id: string, now: int, p: StoreRequest)
  {
    Present(p.node) ==>
      var namespace := ResolveNamespace(p.namespace, cfg);
      && Json.RoundTrips(codec, Json.Obj(BuildMetadata(p.metadata, p.node.value, ResolveSector(Js.ToLower(p.node.value)), namespace, p.graphId, now)))
      && Json.RoundTrips(codec, Json.Obj(ReflectionMeta(id, p.node.value, namespace, p.graphId, now)))
  }

  // ---- storeNodeMemory ----------------------------------------------------------------------

  /** `lgm_store_req`. */
  datatype StoreRequest = StoreRequest(node: Option<string>, content: Option<string>, namespace: Option<string>,
                                       graphId: Option<string>, tags: Option<seq<string>>,
                                       metadata: Option<seq<Json.Field>>, reflective: Option<bool>)

  /** What `storeNodeMemory` reports for each memory it adds. */
  datatype Stored = Stored(id: string, node: string, primarySector: string, sectors: seq<string>, namespace: string,
                           graphId: Option<string>, tags: seq<string>, chunks: nat, metadata: seq<Json.Field>)

  datatype StoreResult = StoreResult(memory: Stored, reflection: Option<Stored>)

  /** How a store ends: its answer, the embedding requests made, and the tables. */
  datatype StoreRun = StoreRun(result: Result<StoreResult>, calls: nat, tables: Db.Tables)

  /** `JSON.stringify` of a list of tags. */
  function TagsText(codec: Json.Codec, tags: seq<string>): string
  {
    codec.stringify(Json.Arr(seq(|tags|, i requires 0 <= i < |tags| => Json.Str(tags[i]))))
  }

  /** `addHSGMemory(content, j(tags), metadata)`. */
  function AddWith(ctx: Hsg.Context, codec: Json.Codec, reply: nat -> Embedding.Reply, c: nat, t: Db.Tables,
                   id: string, now: int, content: string, tags: seq<string>, metadata: seq<Json.Field>): Hsg.AddRun
    requires Hsg.ValidContext(ctx, reply)
  {
    Hsg.Add(ctx, reply, c, t, id, now, content, Some(TagsText(codec, tags)), codec.stringify(Json.Obj(metadata)),
            Json.Sector(metadata))
  }

  /** `payload.reflective ?? env.lg_reflective`, and never for a 'reflect' node. */
  predicate Reflects(p: StoreRequest, cfg: Config)
    requires p.node.Some?
  {
    (if p.reflective.Some? then p.reflective.value else cfg.reflective) && Js.ToLower(p.node.value) != "reflect"
  }

  /** `buildReflectionContent`. */
  function ReflectionContent(node: string, content: string, namespace: string, graphId: Option<string>): string
  {
    var parts := ["LangGraph reflection for node \"" + node + "\"", "namespace=" + namespace]
                 + (if Present(graphId) then ["graph=" + graphId.value] else []);
    Js.Join(parts, " | ") + "\n\n" + Truncate(content, ReflectionMax)
  }

  /** The metadata of an automatic reflection on the memory `sourceId`. */
  function ReflectionMeta(sourceId: string, node: string, namespace: string, graphId: Option<string>, storedAt: int): seq<Json.Field>
  {
    [Json.Field("lgm", Json.Obj(LgmFields("reflect", Sectors.Reflective, namespace, graphId, storedAt)
                                 + [Json.Field("source_memory", Json.Str(sourceId)),
                                    Json.Field("source_node", Json.Str(Js.ToLower(node)))]))]
  }

  function ReflectionTags(sourceId: string, namespace: string, graphId: Option<string>): seq<string>
  {
    BuildTags(Some(["lgm:auto:reflection", "lgm:source:" + sourceId]), "reflect", namespace, graphId)
  }

  /** `createAutoReflection(payload, stored)` as an add of its own. */
  function AutoReflection(ctx: Hsg.Context, codec: Json.Codec, reply: nat -> Embedding.Reply, c: nat, t: Db.Tables,
                          id: string, now: int, node: string, content: string, stored: Stored): (Hsg.AddRun, Stored)
    requires Hsg.ValidContext(ctx, reply)
  {
    var tags := ReflectionTags(stored.id, stored.namespace, stored.graphId);
    var meta := ReflectionMeta(stored.id, node, stored.namespace, stored.graphId, now);
    var a := AddWith(ctx, codec, reply, c, t, id, now, ReflectionContent(node, content, stored.namespace, stored.graphId), tags, meta);
    (a, if a.result.Ok? then Stored(a.result.value.id, "reflect", a.result.value.primarySector, a.result.value.sectors,
                                     stored.namespace, stored.graphId, tags, a.result.value.chunks, meta)
        else stored)
  }

  /** `storeNodeMemory(payload)`: the memory is added under the node's sector
      with its tags and metadata; then, when reflection is on, a reflection on
      it is added as a second memory. `id` and `reflectionId` are the ids the
      two adds draw. */
  function Store(ctx: Hsg.Context, codec: Json.Codec, cfg: Config, reply: nat -> Embedding.Reply, c: nat, t: Db.Tables,
                 id: string, reflectionId: string, now: int, p: StoreRequest): StoreRun
    requires Hsg.ValidContext(ctx, reply)
  {
    if !Present(p.node) || !Present(p.content) then StoreRun(Err(Required), c, t)
    else
      var namespace := ResolveNamespace(p.namespace, cfg);
      var node := Js.ToLower(p.node.value);
      var sector := ResolveSector(node);
      var tags := BuildTags(p.tags, node, namespace, p.graphId);
      var metadata := BuildMetadata(p.metadata, p.node.value, sector, namespace, p.graphId, now);
      var a := AddWith(ctx, codec, reply, c, t, id, now, p.content.value, tags, metadata);
      if a.result.Err? then StoreRun(Err(a.result.msg), a.calls, a.tables)
      else
        var memory := Stored(a.result.value.id, node, a.result.value.primarySector, a.result.value.sectors, namespace,
                             p.graphId, tags, a.result.value.chunks, metadata);
        if !Reflects(p, cfg) then StoreRun(Ok(StoreResult(memory, None)), a.calls, a.tables)
        else
          var (b, reflection) := AutoReflection(ctx, codec, reply, a.calls, a.tables, reflectionId, now,
                                                p.node.value, p.content.value, memory);
          if b.result.Err? then StoreRun(Err(b.result.msg), b.calls, b.tables)
          else StoreRun(Ok(StoreResult(memory, Some(reflection))), b.calls, b.tables)
  }

  /** `createAutoReflection(payload, stored)`. */
  method CreateAutoReflection(store: Database.Store, net: Embedding.Network, ctx: Hsg.Context, codec: Json.Codec,
                              id: string, now: int, node: string, content: string, stored: Stored)
    returns (r: Result<Stored>)
    requires store.Valid() && Hsg.ValidContext(ctx, net.reply)
    modifies store, net
    ensures store.Valid()
    ensures old(store.saved).Some? ==>
      r.Err? && store.State() == old(store.State()) && store.saved == old(store.saved) && net.calls == old(net.calls)
    ensures old(store.saved).None? ==>
      var (a, reflection) := AutoReflection(ctx, codec, net.reply, old(net.calls), old(store.State()), id, now, node, content, stored);
      && store.saved.None? && net.calls == a.calls && store.State() == a.tables
      && r == if a.result.Ok? then Ok(reflection) else Err(a.result.msg)
  {
    var tags := ReflectionTags(stored.id, stored.namespace, stored.graphId);
    var meta := ReflectionMeta(stored.id, node, stored.namespace, stored.graphId, now);
    var result := Hsg.AddHSGMemory(store, net, ctx, id, now, ReflectionContent(node, content, stored.namespace, stored.graphId),
                                   Some(TagsText(codec, tags)), codec.stringify(Json.Obj(meta)), Json.Sector(meta));
    if result.Err? {
      return Err(result.msg);
    }
    return Ok(Stored(result.value.id, "reflect", result.value.primarySector, result.value.sectors,
                     stored.namespace, stored.graphId, tags, result.value.chunks, meta));
  }

  /** `storeNodeMemory(payload)`. */
  method StoreNodeMemory(store: Database.Store, net: Embedding.Network, ctx: Hsg.Context, codec: Json.Codec, cfg: Config,
                         id: string, reflectionId: string, now: int, p: StoreRequest)
    returns (r: Result<StoreResult>)
    requires store.Valid() && Hsg.ValidContext(ctx, net.reply)
    modifies store, net
    ensures store.Valid()
    ensures old(store.saved).Some? ==>
      r.Err? && store.State() == old(store.State()) && store.saved == old(store.saved) && net.calls == old(net.calls)
    ensures old(store.saved).None? ==>
      && store.saved.None?
      && StoreRun(r, net.calls, store.State()) == Store(ctx, codec, cfg, net.reply, old(net.calls), old(store.State()), id, reflectionId, now, p)
  {
    if !Present(p.node) || !Present(p.content) {
      return Err(Required);
    }
    var namespace := ResolveNamespace(p.namespace, cfg);
    var node := Js.ToLower(p.node.value);
    var sector := ResolveSector(node);
    var tags := BuildTags(p.tags, node, namespace, p.graphId);
    var metadata := BuildMetadata(p.metadata, p.node.value, sector, namespace, p.graphId, now);
    var result := Hsg.AddHSGMemory(store, net, ctx, id, now, p.content.value, Some(TagsText(codec, tags)),
                                   codec.stringify(Json.Obj(metadata)), Json.Sector(metadata));
    if result.Err? {
      return Err(result.msg);
    }
    var memory := Stored(result.value.id, node, result.value.primarySector, result.value.sectors, namespace,
                         p.graphId, tags, result.value.chunks, metadata);
    if !Reflects(p, cfg) {
      return Ok(StoreResult(memory, None));
    }
    var reflection := CreateAutoReflection(store, net, ctx, codec, reflectionId, now, p.node.value, p.content.value, memory);
    if reflection.Err? {
      return Err(reflection.msg);
    }
    return Ok(StoreResult(memory, Some(reflection.value)));
  }

  /** An add that succeeds stores its row with the metadata text it was given
      and answers with its id; any other row is left as it was. */
  lemma AddWithRow(ctx: Hsg.Context, codec: Json.Codec, reply: nat -> Embedding.Reply, c: nat, t: Db.Tables,
                   id: string, now: int, content: string, tags: seq<string>, metadata: seq<Json.Field>, other: string)
    requires Hsg.ValidContext(ctx, reply)
    ensures var a := AddWith(ctx, codec, reply, c, t, id, now, content, tags, metadata);
      && (a.result.Err? ==> a.tables == t)
      && (a.result.Ok? ==>
            && a.result.value.id == id && !Db.HasMem(t.memories, id)
            && Db.GetMem(a.tables, id).Some? && Db.GetMem(a.tables, id).value.meta == codec.stringify(Json.Obj(metadata)))
      && (other != id ==> Db.GetMem(a.tables, other) == Db.GetMem(t, other))
  {
    var tagsText, meta := Some(TagsText(codec, tags)), codec.stringify(Json.Obj(metadata));
    Hsg.AddRow(ctx, reply, c, t, id, now, content, tagsText, meta, Json.Sector(metadata));
    if other != id {
      Hsg.AddKeepsOthers(ctx, reply, c, t, id, now, content, tagsText, meta, Json.Sector(metadata), other);
    }
  }

  /** A store without a node or a content fails with "node and content are
      required" and changes nothing. A store that succeeds reports the
      lowercased node, the resolved namespace, the built tags and metadata, and
      a reflection exactly when reflection is on and the node is not 'reflect';
      its memory row holds that metadata. */
  lemma StoreFacts(ctx: Hsg.Context, codec: Json.Codec, cfg: Config, reply: nat -> Embedding.Reply, c: nat, t: Db.Tables,
                   id: string, reflectionId: string, now: int, p: StoreRequest)
    requires Hsg.ValidContext(ctx, reply)
    ensures var s := Store(ctx, codec, cfg, reply, c, t, id, reflectionId, now, p);
      && (!Present(p.node) || !Present(p.content) ==> s == StoreRun(Err(Required), c, t))
      && (s.result.Ok? ==>
            var m := s.result.value.memory;
            && Present(p.node) && Present(p.content)
            && m.id == id && m.node == Js.ToLower(p.node.value) && m.namespace == ResolveNamespace(p.namespace, cfg)
            && m.graphId == p.graphId && m.tags == BuildTags(p.tags, m.node, m.namespace, p.graphId)
            && m.metadata == BuildMetadata(p.metadata, p.node.value, ResolveSector(m.node), m.namespace, p.graphId, now)
            && (s.result.value.reflection.Some? <==> Reflects(p, cfg))
            && Db.GetMem(s.tables, id).Some? && Db.GetMem(s.tables, id).value.meta == codec.stringify(Json.Obj(m.metadata))
            && (s.result.value.reflection.Some? ==>
                  var r := s.result.value.reflection.value;
                  && r.id == reflectionId && reflectionId != id && r.node == "reflect"
                  && r.metadata == ReflectionMeta(id, p.node.value, m.namespace, p.graphId, now)
                  && Db.GetMem(s.tables, reflectionId).Some?
                  && Db.GetMem(s.tables, reflectionId).value.meta == codec.stringify(Json.Obj(r.metadata))))
      && (s.result.Err? ==>
            || s.tables == t
            || (&& Present(p.node) && Present(p.content) && Reflects(p, cfg)
                && !Db.HasMem(t.memories, id) && Db.GetMem(s.tables, id).Some?))
  {
    var s := Store(ctx, codec, cfg, reply, c, t, id, reflectionId, now, p);
    if Present(p.node) && Present(p.content) {
      var namespace := ResolveNamespace(p.namespace, cfg);
      var node := Js.ToLower(p.node.value);
      var tags := BuildTags(p.tags, node, namespace, p.graphId);
      var metadata := BuildMetadata(p.metadata, p.node.value, ResolveSector(node), namespace, p.graphId, now);
      var a := AddWith(ctx, codec, reply, c, t, id, now, p.content.value, tags, metadata);
      AddWithRow(ctx, codec, reply, c, t, id, now, p.content.value, tags, metadata, id);
      if a.result.Ok? && Reflects(p, cfg) {
        var memory := Stored(id, node, a.result.value.primarySector, a.result.value.sectors, namespace,
                             p.graphId, tags, a.result.value.chunks, metadata);
        AutoReflectionRow(ctx, codec, reply, a.calls, a.tables, reflectionId, now, p.node.value, p.content.value, memory);
      }
    }
  }

  /** The automatic reflection is stored under its own id, next to the memory
      it reflects on, in that memory's namespace and graph. */
  lemma AutoReflectionRow(ctx: Hsg.Context, codec: Json.Codec, reply: nat -> Embedding.Reply, c: nat, t: Db.Tables,
                          id: string, now: int, node: string, content: string, stored: Stored)
    requires Hsg.ValidContext(ctx, reply)
    requires Db.GetMem(t, stored.id).Some?
    ensures var (a, r) := AutoReflection(ctx, codec, reply, c, t, id, now, node, content, stored);
      && (a.result.Err? ==> a.tables == t)
      && Db.GetMem(a.tables, stored.id) == Db.GetMem(t, stored.id)
      && (a.result.Ok? ==>
            && r.id == id && id != stored.id && r.node == "reflect" && r.namespace == stored.namespace
            && Db.GetMem(a.tables, id).Some? && Db.GetMem(a.tables, id).value.meta == codec.stringify(Json.Obj(r.metadata))
            && Json.Get(Json.Get(r.metadata, "lgm").value.fields, "source_memory") == Some(Json.Str(stored.id)))
  {
    var tags := ReflectionTags(stored.id, stored.namespace, stored.graphId);
    var meta := ReflectionMeta(stored.id, node, stored.namespace, stored.graphId, now);
    var text := ReflectionContent(node, content, stored.namespace, stored.graphId);
    AddWithRow(ctx, codec, reply, c, t, id, now, text, tags, meta, stored.id);
    ReflectionMetaFacts(stored.id, node, stored.namespace, stored.graphId, now);
  }

  /** The reflection's `lgm` names the 'reflect' node, the namespace and graph
      of its source, and the source memory and node. */
  lemma ReflectionMetaFacts(sourceId: string, node: string, namespace: string, graphId: Option<string>, storedAt: int)
    ensures var m := ReflectionMeta(sourceId, node, namespace, graphId, storedAt);
      && Json.Get(m, "lgm").Some? && Json.Get(m, "lgm").value.Obj?
      && var l := Json.Get(m, "lgm").value.fields;
      && Json.Get(l, "node") == Some(Json.Str("reflect"))
      && Json.Get(l, "namespace") == Some(Json.Str(namespace))
      && Json.Get(l, "graph_id") == Some(if graphId.Some? then Json.Str(graphId.value) else Json.Null)
      && Json.Get(l, "source_memory") == Some(Json.Str(sourceId))
      && Json.Get(l, "source_node") == Some(Json.Str(Js.ToLower(node)))
  {
    var f := LgmFields("reflect", Sectors.Reflective, namespace, graphId, storedAt);
    var extra := [Json.Field("source_memory", Json.Str(sourceId)), Json.Field("source_node", Json.Str(Js.ToLower(node)))];
    LgmFieldsGet("reflect", Sectors.Reflective, namespace, graphId, storedAt);
    GetAppend(f, extra, "node");
    GetAppend(f, extra, "namespace");
    GetAppend(f, extra, "graph_id");
    GetAppend(f, extra, "source_memory");
    GetAppend(f, extra, "source_node");
  }

  /** Reading a property of two field lists laid end to end: the later list wins. */
  lemma {:induction false} GetAppend(a: seq<Json.Field>, b: seq<Json.Field>, k: string)
    ensures Json.Get(a + b, k) == if Json.Get(b, k).Some? then Json.Get(b, k) else Json.Get(a, k)
  {
    if b == [] {
      assert a + b == a;
    } else {
      assert (a + b)[..|a + b| - 1] == a + b[..|b| - 1];
      GetAppend(a, b[..|b| - 1], k);
    }
  }

  /** A memory that was stored is found again by the namespace filter of
      retrieval, under its namespace with its graph or with none, and never
      under another namespace; so is the reflection stored with it. */
  lemma StoredIsFound(ctx: Hsg.Context, codec: Json.Codec, cfg: Config, reply: nat -> Embedding.Reply, c: nat, t: Db.Tables,
                      id: string, reflectionId: string, now: int, p: StoreRequest, other: string, otherGraph: Option<string>)
    requires Hsg.ValidContext(ctx, reply) && StoredMetaRoundTrips(codec, cfg, id, now, p)
    ensures var s := Store(ctx, codec, cfg, reply, c, t, id, reflectionId, now, p);
      s.result.Ok? ==>
        var namespace := s.result.value.memory.namespace;
        && Db.GetMem(s.tables, id).Some?
        && var meta := Db.GetMem(s.tables, id).value.meta;
        && StoredIn(codec, meta, namespace, p.graphId)
        && StoredIn(codec, meta, namespace, None)
        && (other != namespace ==> !StoredIn(codec, meta, other, otherGraph))
        && (s.result.value.reflection.Some? ==>
              && Db.GetMem(s.tables, reflectionId).Some?
              && StoredIn(codec, Db.GetMem(s.tables, reflectionId).value.meta, namespace, p.graphId)
              && (other != namespace ==> !StoredIn(codec, Db.GetMem(s.tables, reflectionId).value.meta, other, otherGraph)))
  {
    var s := Store(ctx, codec, cfg, reply, c, t, id, reflectionId, now, p);
    StoreFacts(ctx, codec, cfg, reply, c, t, id, reflectionId, now, p);
    if s.result.Ok? {
      var m := s.result.value.memory;
      assert Json.RoundTrips(codec, Json.Obj(m.metadata));
      assert Json.RoundTrips(codec, Json.Obj(ReflectionMeta(id, p.node.value, m.namespace, p.graphId, now)));
      BuildMetadataFacts(p.metadata, p.node.value, ResolveSector(m.node), m.namespace, p.graphId, now);
      MetaFound(codec, m.metadata, m.namespace, p.graphId, other, otherGraph);
      if s.result.value.reflection.Some? {
        ReflectionMetaFacts(id, p.node.value, m.namespace, p.graphId, now);
        MetaFound(codec, ReflectionMeta(id, p.node.value, m.namespace, p.graphId, now), m.namespace, p.graphId, other, otherGraph);
      }
    }
  }

  /** Metadata whose `lgm` names a namespace and graph, written as JSON text,
      is found under that namespace and no other. */
  lemma MetaFound(codec: Json.Codec, metadata: seq<Json.Field>, namespace: string, graphId: Option<string>,
                  other: string, otherGraph: Option<string>)
    requires Json.RoundTrips(codec, Json.Obj(metadata))
    requires Json.Get(metadata, "lgm").Some? && Json.Get(metadata, "lgm").value.Obj?
    requires Json.Get(Json.Get(metadata, "lgm").value.fields, "namespace") == Some(Json.Str(namespace))
    requires Json.Get(Json.Get(metadata, "lgm").value.fields, "graph_id") ==
             Some(if graphId.Some? then Json.Str(graphId.value) else Json.Null)
    ensures var meta := codec.stringify(Json.Obj(metadata));
      && StoredIn(codec, meta, namespace, graphId)
      && StoredIn(codec, meta, namespace, None)
      && (other != namespace ==> !StoredIn(codec, meta, other, otherGraph))
  {
    Reparse(codec, metadata);
    MatchesLgm(metadata, Json.Get(metadata, "lgm").value.fields, namespace, graphId, other, otherGraph);
  }

  /** Metadata written as JSON text is read back as it was. */
  lemma Reparse(codec: Json.Codec, metadata: seq<Json.Field>)
    requires Json.RoundTrips(codec, Json.Obj(metadata))
    ensures SafeParse(codec, Some(codec.stringify(Json.Obj(metadata))), Json.Obj([])) == Json.Obj(metadata)
  {
  }

  // ---- retrieveNodeMemories ------------------------------------------------------------------

  /** `lgm_retrieve_req`. */
  datatype RetrieveRequest = RetrieveRequest(node: Option<string>, namespace: Option<string>, graphId: Option<string>,
                                             limit: Option<int>, includeMetadata: Option<bool>, query: Option<string>)

  /** A row the loop looks at, with the score and path of the match it came
      from (none when rows are browsed). A match whose row is gone has no row. */
  datatype Candidate = Candidate(row: Option<Db.Memory>, score: Option<real>, path: Option<seq<string>>)

  /** `HydratedMemory`. */
  datatype Hydrated = Hydrated(id: string, node: Json.Value, content: string, primarySector: string, sectors: seq<string>,
                               tags: Json.Value, createdAt: int, updatedAt: int, lastSeenAt: int, salience: real,
                               decayLambda: real, version: int, score: Option<real>, path: Option<seq<string>>,
                               metadata: Option<Json.Value>)

  /** What `retrieveNodeMemories` answers. */
  datatype Retrieved = Retrieved(node: string, sector: Sectors.Sector, namespace: string, graphId: Option<string>,
                                 query: Option<string>, count: nat, items: seq<Hydrated>)

  /** `payload.limit || env.lg_max_context`. */
  function LimitOf(limit: Option<int>, cfg: Config): int
  {
    if limit.Some? && limit.value != 0 then limit.value else cfg.maxContext
  }

  /** Whether the loop keeps a candidate: its row exists and its metadata is in the namespace. */
  predicate Keeps(codec: Json.Codec, namespace: string, graphId: Option<string>, c: Candidate)
  {
    c.row.Some? && StoredIn(codec, c.row.value.meta, namespace, graphId)
  }

  function SectorOf(v: Db.VectorRow): string
  {
    v.sector
  }

  /** `hydrateMemoryRow(row, metadata, includeMetadata, score, path)`. */
  function Hydrate(codec: Json.Codec, t: Db.Tables, includeMetadata: bool, c: Candidate): Hydrated
    requires c.row.Some?
  {
    var row := c.row.value;
    var metadata := SafeParse(codec, Some(row.meta), Json.Obj([]));
    var lgmNode := Prop(Prop(Some(metadata), "lgm"), "node");
    var vectors := Db.GetVecsById(t, row.id);
    Hydrated(row.id, if lgmNode.Some? && Json.Truthy(lgmNode.value) then lgmNode.value else Json.Str(row.primarySector),
             row.content, row.primarySector, seq(|vectors|, i requires 0 <= i < |vectors| => vectors[i].sector),
             SafeParse(codec, row.tags, Json.Arr([])), row.createdAt, row.updatedAt, row.lastSeenAt, row.salience,
             row.decayLambda, row.version, c.score, c.path, if includeMetadata then Some(metadata) else None)
  }

  function HydrateAll(codec: Json.Codec, t: Db.Tables, includeMetadata: bool, cs: seq<Candidate>): (r: seq<Hydrated>)
    requires forall i :: 0 <= i < |cs| ==> cs[i].row.Some?
    ensures |r| == |cs|
  {
    if cs == [] then []
    else HydrateAll(codec, t, includeMetadata, cs[..|cs| - 1]) + [Hydrate(codec, t, includeMetadata, cs[|cs| - 1])]
  }

  /** Each item is its candidate's hydrated row. */
  lemma {:induction false} HydrateAllAt(codec: Json.Codec, t: Db.Tables, includeMetadata: bool, cs: seq<Candidate>, i: nat)
    requires forall k :: 0 <= k < |cs| ==> cs[k].row.Some?
    requires i < |cs|
    ensures HydrateAll(codec, t, includeMetadata, cs)[i] == Hydrate(codec, t, includeMetadata, cs[i])
  {
    if i < |cs| - 1 {
      HydrateAllAt(codec, t, includeMetadata, cs[..|cs| - 1], i);
    }
  }

  /** At least one item is always taken: `items.length >= limit` is checked only after a push. */
  function Cap(limit: int): nat
  {
    if limit >= 1 then limit else 1
  }

  /** The items of the loop, defined without it: the first `Cap(limit)` kept
      candidates, in order, hydrated. */
  function Gathered(codec: Json.Codec, t: Db.Tables, namespace: string, graphId: Option<string>, includeMetadata: bool,
                    cs: seq<Candidate>, limit: int): seq<Hydrated>
  {
    HydrateAll(codec, t, includeMetadata, Taken(codec, namespace, graphId, cs, limit))
  }

  /** The first `Cap(limit)` candidates the loop keeps. */
  function Taken(codec: Json.Codec, namespace: string, graphId: Option<string>, cs: seq<Candidate>, limit: int): (r: seq<Candidate>)
    ensures forall i :: 0 <= i < |r| ==> r[i].row.Some?
    ensures |r| <= Cap(limit)
  {
    var kept := Kept(codec, namespace, graphId, cs);
    if |kept| <= Cap(limit) then kept else kept[..Cap(limit)]
  }

  /** The candidates the loop keeps, in order. */
  function Kept(codec: Json.Codec, namespace: string, graphId: Option<string>, cs: seq<Candidate>): (r: seq<Candidate>)
    ensures |r| <= |cs|
    ensures forall i :: 0 <= i < |r| ==> r[i].row.Some?
  {
    if cs == [] then []
    else
      var last := cs[|cs| - 1];
      Kept(codec, namespace, graphId, cs[..|cs| - 1]) + (if Keeps(codec, namespace, graphId, last) then [last] else [])
  }

  /** Every kept candidate is one of the candidates and is kept, and every
      candidate that is kept is among them. */
  lemma {:induction false} KeptMembers(codec: Json.Codec, namespace: string, graphId: Option<string>, cs: seq<Candidate>)
    ensures forall c :: c in Kept(codec, namespace, graphId, cs) ==> c in cs && Keeps(codec, namespace, graphId, c)
    ensures forall j :: 0 <= j < |cs| && Keeps(codec, namespace, graphId, cs[j]) ==> cs[j] in Kept(codec, namespace, graphId, cs)
  {
    if cs != [] {
      var init := cs[..|cs| - 1];
      var last := cs[|cs| - 1];
      KeptMembers(codec, namespace, graphId, init);
      assert cs == init + [last];
      var front := Kept(codec, namespace, graphId, init);
      var r := Kept(codec, namespace, graphId, cs);
      assert r == front + (if Keeps(codec, namespace, graphId, last) then [last] else []);
      forall c | c in r
        ensures c in cs && Keeps(codec, namespace, graphId, c)
      {
        if c in front {
          assert c in init;
        }
      }
    }
  }

  /** Keeping from a prefix gives a prefix of what is kept from the whole. */
  lemma {:induction false} KeptPrefix(codec: Json.Codec, namespace: string, graphId: Option<string>, cs: seq<Candidate>, j: nat)
    requires j <= |cs|
    ensures Kept(codec, namespace, graphId, cs[..j]) <= Kept(codec, namespace, graphId, cs)
  {
    if j == |cs| {
      assert cs[..j] == cs;
    } else {
      var init := cs[..|cs| - 1];
      KeptPrefix(codec, namespace, graphId, init, j);
      assert init[..j] == cs[..j];
    }
  }

  /** One more candidate adds it to what is kept exactly when it is kept. */
  lemma KeptNext(codec: Json.Codec, namespace: string, graphId: Option<string>, cs: seq<Candidate>, i: nat)
    requires i < |cs|
    ensures Kept(codec, namespace, graphId, cs[..i + 1])
         == Kept(codec, namespace, graphId, cs[..i]) + (if Keeps(codec, namespace, graphId, cs[i]) then [cs[i]] else [])
  {
    assert cs[..i + 1][..i] == cs[..i];
  }

  /** The loop of `retrieveNodeMemories` over its candidates: a missing row or
      another namespace is skipped, and the loop stops once `limit` items are in. */
  method Collect(store: Database.Store, codec: Json.Codec, namespace: string, graphId: Option<string>, includeMetadata: bool,
                 cs: seq<Candidate>, limit: int)
    returns (items: seq<Hydrated>)
    ensures items == Gathered(codec, store.State(), namespace, graphId, includeMetadata, cs, limit)
  {
    var t := store.State();
    items := [];
    var i := 0;
    while i < |cs|
      invariant 0 <= i <= |cs|
      invariant items == Gathered(codec, t, namespace, graphId, includeMetadata, cs[..i], limit)
      invariant |items| < Cap(limit)
    {
      var c := cs[i];
      GatherNext(codec, t, namespace, graphId, includeMetadata, cs, i, limit);
      if c.row.None? || !StoredIn(codec, c.row.value.meta, namespace, graphId) {
        i := i + 1;
        continue;
      }
      items := items + [Hydrate(codec, t, includeMetadata, c)];
      i := i + 1;
      if |items| >= limit {
        GatherFull(codec, t, namespace, graphId, includeMetadata, cs, i, limit);
        return;
      }
    }
    GatherWhole(codec, t, namespace, graphId, includeMetadata, cs, limit);
  }

  /** The whole of the candidates is their full prefix. */
  lemma GatherWhole(codec: Json.Codec, t: Db.Tables, namespace: string, graphId: Option<string>, includeMetadata: bool,
                    cs: seq<Candidate>, limit: int)
    ensures Gathered(codec, t, namespace, graphId, includeMetadata, cs[..|cs|], limit)
         == Gathered(codec, t, namespace, graphId, includeMetadata, cs, limit)
  {
    assert cs[..|cs|] == cs;
  }

  /** While fewer than `Cap(limit)` items are in, one more candidate adds its
      hydrated row exactly when it is kept. */
  lemma GatherNext(codec: Json.Codec, t: Db.Tables, namespace: string, graphId: Option<string>, includeMetadata: bool,
                   cs: seq<Candidate>, i: nat, limit: int)
    requires i < |cs| && |Gathered(codec, t, namespace, graphId, includeMetadata, cs[..i], limit)| < Cap(limit)
    ensures var c := cs[i];
      Gathered(codec, t, namespace, graphId, includeMetadata, cs[..i + 1], limit)
        == Gathered(codec, t, namespace, graphId, includeMetadata, cs[..i], limit)
           + (if Keeps(codec, namespace, graphId, c) then [Hydrate(codec, t, includeMetadata, c)] else [])
  {
    var kept := Kept(codec, namespace, graphId, cs[..i]);
    KeptNext(codec, namespace, graphId, cs, i);
    assert Taken(codec, namespace, graphId, cs[..i], limit) == kept;
    if Keeps(codec, namespace, graphId, cs[i]) {
      assert Taken(codec, namespace, graphId, cs[..i + 1], limit) == kept + [cs[i]];
      HydrateSnoc(codec, t, includeMetadata, kept, cs[i]);
    } else {
      assert Taken(codec, namespace, graphId, cs[..i + 1], limit) == kept;
    }
  }

  /** Once a prefix yields `Cap(limit)` items, the rest is not looked at. */
  lemma GatherFull(codec: Json.Codec, t: Db.Tables, namespace: string, graphId: Option<string>, includeMetadata: bool,
                   cs: seq<Candidate>, j: nat, limit: int)
    requires j <= |cs|
    requires var n := |Gathered(codec, t, namespace, graphId, includeMetadata, cs[..j], limit)|; n >= limit && n > 0
    ensures Gathered(codec, t, namespace, graphId, includeMetadata, cs[..j], limit)
         == Gathered(codec, t, namespace, graphId, includeMetadata, cs, limit)
  {
    KeptPrefix(codec, namespace, graphId, cs, j);
    var front := Kept(codec, namespace, graphId, cs[..j]);
    var whole := Kept(codec, namespace, graphId, cs);
    assert |front| >= Cap(limit);
    assert front[..Cap(limit)] == whole[..Cap(limit)];
    assert Taken(codec, namespace, graphId, cs[..j], limit) == Taken(codec, namespace, graphId, cs, limit);
  }

  /** Hydrating one more candidate appends its hydrated row. */
  lemma HydrateSnoc(codec: Json.Codec, t: Db.Tables, includeMetadata: bool, cs: seq<Candidate>, c: Candidate)
    requires forall i :: 0 <= i < |cs| ==> cs[i].row.Some?
    requires c.row.Some?
    ensures HydrateAll(codec, t, includeMetadata, cs + [c]) == HydrateAll(codec, t, includeMetadata, cs) + [Hydrate(codec, t, includeMetadata, c)]
  {
    assert (cs + [c])[..|cs|] == cs;
  }

  /** `include_metadata ?? false`. */
  predicate IncludeMetadata(p: RetrieveRequest)
  {
    p.includeMetadata.Some? && p.includeMetadata.value
  }

  /** The answer built around the items. */
  function Answer(p: RetrieveRequest, cfg: Config, items: seq<Hydrated>): Retrieved
    requires p.node.Some?
  {
    var node := Js.ToLower(p.node.value);
    Retrieved(node, ResolveSector(node), ResolveNamespace(p.namespace, cfg), p.graphId,
              if Present(p.query) then p.query else None, |items|, items)
  }

  function LastSeen(h: Hydrated): real
  {
    h.lastSeenAt as real
  }

  function RowCandidates(rows: seq<Db.Memory>): seq<Candidate>
  {
    seq(|rows|, i requires 0 <= i < |rows| => Candidate(Some(rows[i]), None, None))
  }

  /** Each match of the query, with its row as it is after the query touched it. */
  function MatchCandidates(t: Db.Tables, matches: seq<Query.QueryResult>): seq<Candidate>
  {
    seq(|matches|, i requires 0 <= i < |matches| => Candidate(Db.GetMem(t, matches[i].id), Some(matches[i].score), Some(matches[i].path)))
  }

  /** `Math.max(limit * 2, limit)`. */
  function QueryK(limit: int): int
  {
    IntMax(limit * 2, limit)
  }

  /** The items of the branch without a query: up to `limit * 4` rows of the
      node's sector, newest first, filtered by namespace, then sorted by
      `last_seen_at`, latest first. */
  function Browse(codec: Json.Codec, cfg: Config, t: Db.Tables, p: RetrieveRequest): seq<Hydrated>
    requires p.node.Some?
  {
    var node := Js.ToLower(p.node.value);
    var limit := LimitOf(p.limit, cfg);
    var rows := Db.AllMemBySector(t, Sectors.Name(ResolveSector(node)), limit * 4, 0);
    Sorting.SortDesc(Gathered(codec, t, ResolveNamespace(p.namespace, cfg), p.graphId, IncludeMetadata(p), RowCandidates(rows), limit), LastSeen)
  }

  /** `retrieveNodeMemories(payload)`: with a query, the HSG query over the
      node's sector with `Math.max(limit * 2, limit)` results; without one, a
      browse of the sector. Either way only memories of the namespace (and
      graph) are kept, at most `limit` of them. */
  method RetrieveNodeMemories(store: Database.Store, net: Embedding.Network, ctx: Hsg.Context, codec: Json.Codec,
                              cfg: Config, now: int, p: RetrieveRequest)
    returns (r: Result<Retrieved>, ghost expanded: seq<Waypoints.Item>)
    requires store.Valid() && Embedding.ValidRuntime(ctx.rt)
    modifies store, net
    ensures store.Valid() && store.saved == old(store.saved)
    ensures !Present(p.node) ==>
      r == Err(NodeRequired) && store.State() == old(store.State()) && net.calls == old(net.calls)
    ensures Present(p.node) && !Present(p.query) ==>
      && r == Ok(Answer(p, cfg, Browse(codec, cfg, old(store.State()), p)))
      && store.State() == old(store.State()) && net.calls == old(net.calls)
    ensures Present(p.node) && Present(p.query) ==>
      var limit := LimitOf(p.limit, cfg);
      var sector := ResolveSector(Js.ToLower(p.node.value));
      var s := Query.Searched(ctx, net.reply, old(net.calls), old(store.State()), p.query.value, QueryK(limit),
                              Some([Sectors.Name(sector)]));
      && net.calls == s.calls
      && (s.result.Err? ==> r == Err(s.result.msg) && store.State() == old(store.State()))
      && (s.result.Ok? ==>
            var matches := Query.Results(ctx.rt.math, old(store.State()), s.result.value, expanded, QueryK(limit), None, now);
            && Waypoints.Expansion(old(store.State()), Query.Seeds(s.result.value), expanded)
            && store.State() == Query.Touch(old(store.State()), matches, now)
            && r == Ok(Answer(p, cfg, Gathered(codec, store.State(), ResolveNamespace(p.namespace, cfg), p.graphId,
                                               IncludeMetadata(p), MatchCandidates(store.State(), matches), limit))))
  {
    expanded := [];
    if !Present(p.node) {
      return Err(NodeRequired), expanded;
    }
    var namespace := ResolveNamespace(p.namespace, cfg);
    var node := Js.ToLower(p.node.value);
    var sector := ResolveSector(node);
    var limit := LimitOf(p.limit, cfg);
    var items: seq<Hydrated>;
    if Present(p.query) {
      var matches;
      matches, expanded := Query.HsgQuery(store, net, ctx, p.query.value, QueryK(limit), Some([Sectors.Name(sector)]), None, now);
      if matches.Err? {
        return Err(matches.msg), expanded;
      }
      items := Collect(store, codec, namespace, p.graphId, IncludeMetadata(p), MatchCandidates(store.State(), matches.value), limit);
    } else {
      var rows := Db.AllMemBySector(store.State(), Sectors.Name(sector), limit * 4, 0);
      items := Collect(store, codec, namespace, p.graphId, IncludeMetadata(p), RowCandidates(rows), limit);
      items := Sorting.SortDesc(items, LastSeen);
    }
    return Ok(Answer(p, cfg, items)), expanded;
  }

  /** The items are at most `Cap(limit)`; each is a hydrated candidate of the
      namespace (and graph) whose metadata, when it is included, matches it;
      and no candidate of the namespace is left out unless the limit was reached. */
  lemma GatheredFacts(codec: Json.Codec, t: Db.Tables, namespace: string, graphId: Option<string>, includeMetadata: bool,
                      cs: seq<Candidate>, limit: int)
    ensures var g := Gathered(codec, t, namespace, graphId, includeMetadata, cs, limit);
      && |g| <= Cap(limit)
      && (forall i :: 0 <= i < |g| ==>
            exists j :: 0 <= j < |cs| && Keeps(codec, namespace, graphId, cs[j]) && g[i] == Hydrate(codec, t, includeMetadata, cs[j]))
      && (includeMetadata ==> forall i :: 0 <= i < |g| ==> g[i].metadata.Some? && MatchesNamespace(g[i].metadata.value, namespace, graphId))
      && (|g| < Cap(limit) ==>
            forall j :: 0 <= j < |cs| && Keeps(codec, namespace, graphId, cs[j]) ==> Hydrate(codec, t, includeMetadata, cs[j]) in g)
  {
    var kept := Kept(codec, namespace, graphId, cs);
    KeptMembers(codec, namespace, graphId, cs);
    var taken := if |kept| <= Cap(limit) then kept else kept[..Cap(limit)];
    var g := Gathered(codec, t, namespace, graphId, includeMetadata, cs, limit);
    forall i | 0 <= i < |g|
      ensures exists j :: 0 <= j < |cs| && Keeps(codec, namespace, graphId, cs[j]) && g[i] == Hydrate(codec, t, includeMetadata, cs[j])
      ensures includeMetadata ==> g[i].metadata.Some? && MatchesNamespace(g[i].metadata.value, namespace, graphId)
    {
      assert taken[i] == kept[i] && kept[i] in cs;
      HydrateAllAt(codec, t, includeMetadata, taken, i);
      var j :| 0 <= j < |cs| && cs[j] == kept[i];
      assert Keeps(codec, namespace, graphId, cs[j]) && g[i] == Hydrate(codec, t, includeMetadata, cs[j]);
      assert includeMetadata ==> g[i].metadata.Some? && MatchesNamespace(g[i].metadata.value, namespace, graphId);
    }
    assert forall i :: 0 <= i < |g| ==>
            exists j :: 0 <= j < |cs| && Keeps(codec, namespace, graphId, cs[j]) && g[i] == Hydrate(codec, t, includeMetadata, cs[j]);
    if |g| < Cap(limit) {
      forall j | 0 <= j < |cs| && Keeps(codec, namespace, graphId, cs[j]) ensures Hydrate(codec, t, includeMetadata, cs[j]) in g {
        var k :| 0 <= k < |kept| && kept[k] == cs[j];
        HydrateAllAt(codec, t, includeMetadata, taken, k);
        assert g[k] == Hydrate(codec, t, includeMetadata, cs[j]);
      }
    }
  }

  /** Browsing answers the gathered rows sorted by `last_seen_at`, latest first. */
  lemma BrowseSorted(codec: Json.Codec, cfg: Config, t: Db.Tables, p: RetrieveRequest)
    requires p.node.Some?
    ensures var node := Js.ToLower(p.node.value);
      var limit := LimitOf(p.limit, cfg);
      var rows := Db.AllMemBySector(t, Sectors.Name(ResolveSector(node)), limit * 4, 0);
      var g := Gathered(codec, t, ResolveNamespace(p.namespace, cfg), p.graphId, IncludeMetadata(p), RowCandidates(rows), limit);
      && Sorting.SortedDesc(Browse(codec, cfg, t, p), LastSeen)
      && multiset(Browse(codec, cfg, t, p)) == multiset(g)
      && |Browse(codec, cfg, t, p)| <= Cap(limit)
  {
    var node := Js.ToLower(p.node.value);
    var limit := LimitOf(p.limit, cfg);
    var rows := Db.AllMemBySector(t, Sectors.Name(ResolveSector(node)), limit * 4, 0);
    var namespace := ResolveNamespace(p.namespace, cfg);
    var g := Gathered(codec, t, namespace, p.graphId, IncludeMetadata(p), RowCandidates(rows), limit);
    Sorting.SortDescSorted(g, LastSeen);
    GatheredFacts(codec, t, namespace, p.graphId, IncludeMetadata(p), RowCandidates(rows), limit);
  }

  // ---- getGraphContext ---------------------------------------------------------------------

  /** `lgm_context_req`. */
  datatype ContextRequest = ContextRequest(namespace: Option<string>, graphId: Option<string>, limit: Option<int>)

  datatype NodeContext = NodeContext(node: string, sector: Sectors.Sector, items: seq<Hydrated>)

  /** What `getGraphContext` answers. */
  datatype GraphContext = GraphContext(namespace: string, graphId: Option<string>, limit: int, nodes: seq<NodeContext>,
                                       summary: string)

  /** A line of the flattened context: a node and a truncated content. */
  datatype Line = Line(node: string, content: string)

  /** `Math.max(1, Math.floor(limit / nodes.length) || 1)`; for a positive
      divisor Dafny's `/` rounds down as `Math.floor` does. */
  function PerNodeLimit(limit: int): (r: int)
    ensures r >= 1
    ensures limit >= |Nodes| ==> r * |Nodes| <= limit
  {
    var q := limit / |Nodes|;
    IntMax(1, if q != 0 then q else 1)
  }

  /** The request each node is retrieved with. */
  function NodeRequest(node: string, namespace: string, graphId: Option<string>, limit: int): RetrieveRequest
  {
    RetrieveRequest(Some(node), Some(namespace), graphId, Some(limit), Some(true), None)
  }

  function NodeContextOf(codec: Json.Codec, cfg: Config, t: Db.Tables, namespace: string, graphId: Option<string>,
                         limit: int, node: string): NodeContext
  {
    NodeContext(node, ResolveSector(Js.ToLower(node)), Browse(codec, cfg, t, NodeRequest(node, namespace, graphId, limit)))
  }

  /** `node => NodeContextOf(...)` for fixed tables and request parameters. */
  function NodeContextFn(codec: Json.Codec, cfg: Config, t: Db.Tables, namespace: string, graphId: Option<string>,
                         limit: int): string -> NodeContext
  {
    node => NodeContextOf(codec, cfg, t, namespace, graphId, limit, node)
  }

  /** `nodes.map(f)`, built from the back. */
  function MapNodes(f: string -> NodeContext, nodes: seq<string>): (r: seq<NodeContext>)
    ensures |r| == |nodes|
  {
    if nodes == [] then [] else MapNodes(f, nodes[..|nodes| - 1]) + [f(nodes[|nodes| - 1])]
  }

  function Contexts(codec: Json.Codec, cfg: Config, t: Db.Tables, namespace: string, graphId: Option<string>,
                    limit: int, nodes: seq<string>): (r: seq<NodeContext>)
    ensures |r| == |nodes|
  {
    MapNodes(NodeContextFn(codec, cfg, t, namespace, graphId, limit), nodes)
  }

  function ItemLines(nc: NodeContext): (r: seq<Line>)
    ensures |r| == |nc.items|
  {
    seq(|nc.items|, i requires 0 <= i < |nc.items| => Line(nc.node, Truncate(nc.items[i].content, SummaryLineLimit)))
  }

  /** `nodeContexts.flatMap(entry => entry.items.map(...))`. */
  function Lines(ncs: seq<NodeContext>): seq<Line>
  {
    if ncs == [] then [] else ItemLines(ncs[0]) + Lines(ncs[1..])
  }

  function Bullet(l: Line): string
  {
    "- [" + l.node + "] " + l.content
  }

  function Bullets(ls: seq<Line>): (r: seq<string>)
    ensures |r| == |ls|
  {
    seq(|ls|, i requires 0 <= i < |ls| => Bullet(ls[i]))
  }

  /** The summary: the first `limit` lines as bullets, one per line. */
  function Summary(lines: seq<Line>, limit: int): string
  {
    if |lines| > 0 then Js.Join(Bullets(Js.SliceTo(lines, limit)), "\n") else ""
  }

  /** `getGraphContext(payload)` on the tables `t`. */
  function GraphContextOf(codec: Json.Codec, cfg: Config, t: Db.Tables, p: ContextRequest): GraphContext
  {
    GraphContextOver(codec, cfg, t, p, Nodes)
  }

  /** The graph context over the given node names. */
  function GraphContextOver(codec: Json.Codec, cfg: Config, t: Db.Tables, p: ContextRequest, names: seq<string>): GraphContext
  {
    var namespace := ResolveNamespace(p.namespace, cfg);
    var limit := LimitOf(p.limit, cfg);
    var nodes := Contexts(codec, cfg, t, namespace, p.graphId, PerNodeLimit(limit), names);
    GraphContext(namespace, p.graphId, limit, nodes, Summary(Lines(nodes), limit))
  }

  /** `getGraphContext(payload)`: each node of the map in turn is retrieved
      without a query, so nothing is changed and nothing is requested. */
  method GetGraphContext(store: Database.Store, net: Embedding.Network, ctx: Hsg.Context, codec: Json.Codec, cfg: Config,
                         now: int, p: ContextRequest)
    returns (r: GraphContext)
    requires store.Valid() && Embedding.ValidRuntime(ctx.rt)
    modifies store, net
    ensures store.Valid() && store.saved == old(store.saved)
    ensures store.State() == old(store.State()) && net.calls == old(net.calls)
    ensures r == GraphContextOf(codec, cfg, old(store.State()), p)
  {
    var namespace := ResolveNamespace(p.namespace, cfg);
    var limit := LimitOf(p.limit, cfg);
    var perNodeLimit := PerNodeLimit(limit);
    var contexts := RetrieveContexts(store, net, ctx, codec, cfg, now, namespace, p.graphId, perNodeLimit, Nodes);
    var lines := Lines(contexts);
    return GraphContext(namespace, p.graphId, limit, contexts, Summary(lines, limit));
  }

  /** One iteration of `getGraphContext`'s loop: the node retrieved without a query. */
  method RetrieveNodeContext(store: Database.Store, net: Embedding.Network, ctx: Hsg.Context, codec: Json.Codec, cfg: Config,
                             now: int, namespace: string, graphId: Option<string>, limit: int, node: string)
    returns (r: NodeContext)
    requires store.Valid() && Embedding.ValidRuntime(ctx.rt) && node != ""
    modifies store, net
    ensures store.Valid() && store.saved == old(store.saved)
    ensures store.State() == old(store.State()) && net.calls == old(net.calls)
    ensures r == NodeContextOf(codec, cfg, old(store.State()), namespace, graphId, limit, node)
  {
    var result, _ := RetrieveNodeMemories(store, net, ctx, codec, cfg, now, NodeRequest(node, namespace, graphId, limit));
    r := NodeContext(node, if result.Ok? then result.value.sector else Sectors.Semantic, if result.Ok? then result.value.items else []);
  }

  /** The loop of `getGraphContext` over the nodes. */
  method RetrieveContexts(store: Database.Store, net: Embedding.Network, ctx: Hsg.Context, codec: Json.Codec, cfg: Config,
                          now: int, namespace: string, graphId: Option<string>, limit: int, nodes: seq<string>)
    returns (contexts: seq<NodeContext>)
    requires store.Valid() && Embedding.ValidRuntime(ctx.rt)
    requires forall j :: 0 <= j < |nodes| ==> nodes[j] != ""
    modifies store, net
    ensures store.Valid() && store.saved == old(store.saved)
    ensures store.State() == old(store.State()) && net.calls == old(net.calls)
    ensures contexts == Contexts(codec, cfg, old(store.State()), namespace, graphId, limit, nodes)
  {
    ghost var t := store.State();
    contexts := [];
    var i := 0;
    while i < |nodes|
      invariant 0 <= i <= |nodes| && |contexts| == i
      invariant store.Valid() && store.saved == old(store.saved)
      invariant store.State() == t && net.calls == old(net.calls)
      invariant forall j :: 0 <= j < i ==> contexts[j] == NodeContextFn(codec, cfg, t, namespace, graphId, limit)(nodes[j])
    {
      var entry := RetrieveNodeContext(store, net, ctx, codec, cfg, now, namespace, graphId, limit, nodes[i]);
      MapNodesSnoc(NodeContextFn(codec, cfg, t, namespace, graphId, limit), nodes, i, contexts, entry);
      contexts := contexts + [entry];
      i := i + 1;
    }
    MapNodesPointwise(NodeContextFn(codec, cfg, t, namespace, graphId, limit), nodes, contexts);
  }

  /** A sequence that agrees with `f` at every node is `MapNodes(f, nodes)`. */
  lemma {:induction false} MapNodesPointwise(f: string -> NodeContext, nodes: seq<string>, ncs: seq<NodeContext>)
    requires |ncs| == |nodes|
    requires forall j :: 0 <= j < |nodes| ==> ncs[j] == f(nodes[j])
    ensures ncs == MapNodes(f, nodes)
  {
    if nodes != [] {
      var n := |nodes| - 1;
      MapNodesPointwise(f, nodes[..n], ncs[..n]);
      assert ncs == ncs[..n] + [ncs[n]];
    }
  }

  /** One more node that agrees with `f` extends a sequence that agrees with `f`. */
  lemma MapNodesSnoc(f: string -> NodeContext, nodes: seq<string>, i: nat, ncs: seq<NodeContext>, nc: NodeContext)
    requires i < |nodes| && |ncs| == i && nc == f(nodes[i])
    requires forall j :: 0 <= j < i ==> ncs[j] == f(nodes[j])
    ensures forall j :: 0 <= j < i + 1 ==> (ncs + [nc])[j] == f(nodes[j])
  {
  }

  lemma {:induction false} MapNodesAt(f: string -> NodeContext, nodes: seq<string>, i: nat)
    requires i < |nodes|
    ensures MapNodes(f, nodes)[i] == f(nodes[i])
  {
    if i < |nodes| - 1 {
      MapNodesAt(f, nodes[..|nodes| - 1], i);
    }
  }

  /** Contexts of at most `m` items each flatten to at most `m` lines per node. */
  lemma {:induction false} LinesBound(ncs: seq<NodeContext>, m: nat)
    requires forall i :: 0 <= i < |ncs| ==> |ncs[i].items| <= m
    ensures |Lines(ncs)| <= |ncs| * m
  {
    if ncs != [] {
      var rest := ncs[1..];
      LinesBound(rest, m);
      assert |Lines(ncs)| == |ncs[0].items| + |Lines(rest)|;
      assert |rest| * m + m == |ncs| * m by {
        assert |ncs| == |rest| + 1;
      }
    }
  }

  /** A node retrieved for the context holds at most `perNodeLimit` items. */
  lemma NodeContextBound(codec: Json.Codec, cfg: Config, t: Db.Tables, namespace: string, graphId: Option<string>,
                         limit: int, node: string)
    requires limit >= 1
    ensures |NodeContextOf(codec, cfg, t, namespace, graphId, limit, node).items| <= limit
  {
    BrowseSorted(codec, cfg, t, NodeRequest(node, namespace, graphId, limit));
  }

  /** The contexts of nodes of the map: one per node, in order, each naming
      the map's sector for its node and holding at most `limit` items. */
  lemma ContextsFacts(codec: Json.Codec, cfg: Config, t: Db.Tables, namespace: string, graphId: Option<string>,
                      limit: int, nodes: seq<string>)
    requires limit >= 1
    requires forall j :: 0 <= j < |nodes| ==> nodes[j] in Nodes
    ensures var ncs := Contexts(codec, cfg, t, namespace, graphId, limit, nodes);
      && (forall i :: 0 <= i < |nodes| ==>
            && ncs[i].node == nodes[i] && NodeSector(nodes[i]) == Some(ncs[i].sector)
            && |ncs[i].items| <= limit)
      && |Lines(ncs)| <= |nodes| * limit
  {
    var ncs := Contexts(codec, cfg, t, namespace, graphId, limit, nodes);
    forall i | 0 <= i < |nodes|
      ensures ncs[i].node == nodes[i] && NodeSector(nodes[i]) == Some(ncs[i].sector) && |ncs[i].items| <= limit
    {
      MapNodesAt(NodeContextFn(codec, cfg, t, namespace, graphId, limit), nodes, i);
      NodeContextBound(codec, cfg, t, namespace, graphId, limit, nodes[i]);
      LowerNode(nodes[i]);
    }
    LinesBound(ncs, limit);
  }

  /** The context has one entry per node of the map, in the map's order, each
      with at most `PerNodeLimit(limit)` items. A summary keeps at most `limit`
      lines when `limit` is not negative, and once `limit` is at least the
      number of nodes no line is cut from it at all. */
  lemma GraphContextBounds(codec: Json.Codec, cfg: Config, t: Db.Tables, p: ContextRequest)
    ensures var g := GraphContextOf(codec, cfg, t, p);
      var lines := Lines(g.nodes);
      && |g.nodes| == |Nodes|
      && (forall i :: 0 <= i < |Nodes| ==>
            && g.nodes[i].node == Nodes[i] && NodeSector(Nodes[i]) == Some(g.nodes[i].sector)
            && |g.nodes[i].items| <= PerNodeLimit(g.limit))
      && |lines| <= |Nodes| * PerNodeLimit(g.limit)
      && (g.limit >= 0 ==> |Js.SliceTo(lines, g.limit)| <= g.limit)
      && (g.limit >= |Nodes| ==> Js.SliceTo(lines, g.limit) == lines)
  {
    GraphContextOverBounds(codec, cfg, t, p, Nodes);
  }

  lemma GraphContextOverBounds(codec: Json.Codec, cfg: Config, t: Db.Tables, p: ContextRequest, names: seq<string>)
    requires names == Nodes
    ensures var g := GraphContextOver(codec, cfg, t, p, names);
      var lines := Lines(g.nodes);
      && |g.nodes| == |names|
      && (forall i :: 0 <= i < |names| ==>
            && g.nodes[i].node == names[i] && NodeSector(names[i]) == Some(g.nodes[i].sector)
            && |g.nodes[i].items| <= PerNodeLimit(g.limit))
      && |lines| <= |names| * PerNodeLimit(g.limit)
      && (g.limit >= 0 ==> |Js.SliceTo(lines, g.limit)| <= g.limit)
      && (g.limit >= |names| ==> Js.SliceTo(lines, g.limit) == lines)
  {
    var g := GraphContextOver(codec, cfg, t, p, names);
    ContextsFacts(codec, cfg, t, g.namespace, p.graphId, PerNodeLimit(g.limit), names);
    SummaryCut(Lines(g.nodes), g.limit);
  }

  /** The lines kept for a summary of `limit` lines, when there are at most
      `PerNodeLimit(limit)` lines per node of the map. */
  lemma SummaryCut(lines: seq<Line>, limit: int)
    requires |lines| <= |Nodes| * PerNodeLimit(limit)
    ensures limit >= 0 ==> |Js.SliceTo(lines, limit)| <= limit
    ensures limit >= |Nodes| ==> Js.SliceTo(lines, limit) == lines
  {
  }

  /** The node names are already lower case. */
  lemma LowerNode(node: string)
    requires node in Nodes
    ensures Js.ToLower(node) == node
  {
  }

  // ---- createReflection ----------------------------------------------------------------------

  /** `lgm_reflection_req`. */
  datatype ReflectionRequest = ReflectionRequest(node: Option<string>, content: Option<string>, namespace: Option<string>,
                                                 graphId: Option<string>, contextIds: Option<seq<string>>)

  function ReflectionHeader(namespace: string, graphId: Option<string>): string
  {
    "Reflection synthesized from LangGraph context (namespace=" + namespace
    + (if Present(graphId) then ", graph=" + graphId.value else "") + ")"
  }

  /** `${idx + 1}. [${line.node}] ${line.content}` for each line. */
  function Numbered(ls: seq<Line>): (r: seq<string>)
    ensures |r| == |ls|
  {
    seq(|ls|, i requires 0 <= i < |ls| => Js.NatToString(i + 1) + ". [" + ls[i].node + "] " + ls[i].content)
  }

  /** `buildContextReflection(namespace, graphId)` on the tables `t`: nothing
      when the context has no line, else a header and the first
      `lg_max_context` lines, numbered. */
  function ContextReflection(codec: Json.Codec, cfg: Config, t: Db.Tables, namespace: string, graphId: Option<string>): Option<string>
  {
    var context := GraphContextOf(codec, cfg, t, ContextRequest(Some(namespace), graphId, Some(cfg.maxContext)));
    var lines := Lines(context.nodes);
    if |lines| == 0 then None
    else Some(ReflectionHeader(namespace, graphId) + "\n\n" + Js.Join(Numbered(Js.SliceTo(lines, cfg.maxContext)), "\n"))
  }

  /** `buildContextReflection(namespace, graphId)`. */
  method BuildContextReflection(store: Database.Store, net: Embedding.Network, ctx: Hsg.Context, codec: Json.Codec,
                                cfg: Config, now: int, namespace: string, graphId: Option<string>)
    returns (r: Option<string>)
    requires store.Valid() && Embedding.ValidRuntime(ctx.rt)
    modifies store, net
    ensures store.Valid() && store.saved == old(store.saved)
    ensures store.State() == old(store.State()) && net.calls == old(net.calls)
    ensures r == ContextReflection(codec, cfg, old(store.State()), namespace, graphId)
  {
    var context := GetGraphContext(store, net, ctx, codec, cfg, now, ContextRequest(Some(namespace), graphId, Some(cfg.maxContext)));
    var lines := Lines(context.nodes);
    if |lines| == 0 {
      return None;
    }
    return Some(ReflectionHeader(namespace, graphId) + "\n\n" + Js.Join(Numbered(Js.SliceTo(lines, cfg.maxContext)), "\n"));
  }

  /** `['lgm:manual:reflection', ...context_ids.map(id => 'lgm:context:' + id)]`. */
  function ManualTags(contextIds: Option<seq<string>>): seq<string>
  {
    var ids := if contextIds.Some? then contextIds.value else [];
    ["lgm:manual:reflection"] + seq(|ids|, i requires 0 <= i < |ids| => "lgm:context:" + ids[i])
  }

  /** `{ lgm_context_ids: context_ids || [] }`. */
  function ManualMeta(contextIds: Option<seq<string>>): seq<Json.Field>
  {
    var ids := if contextIds.Some? then contextIds.value else [];
    [Json.Field("lgm_context_ids", Json.Arr(seq(|ids|, i requires 0 <= i < |ids| => Json.Str(ids[i]))))]
  }

  /** The store request `createReflection` makes for the content `content`. */
  function ReflectionStore(p: ReflectionRequest, cfg: Config, content: string): StoreRequest
  {
    StoreRequest(Some(Js.ToLower(if Present(p.node) then p.node.value else "reflect")), Some(content),
                 Some(ResolveNamespace(p.namespace, cfg)), p.graphId, Some(ManualTags(p.contextIds)),
                 Some(ManualMeta(p.contextIds)), Some(false))
  }

  /** `createReflection(payload)` on the tables `t`: the given content, or else
      the reflection derived from the graph context, stored as a memory of the
      node ('reflect' by default) without an automatic reflection. */
  function Reflect(ctx: Hsg.Context, codec: Json.Codec, cfg: Config, reply: nat -> Embedding.Reply, c: nat, t: Db.Tables,
                   id: string, reflectionId: string, now: int, p: ReflectionRequest): StoreRun
    requires Hsg.ValidContext(ctx, reply)
  {
    var namespace := ResolveNamespace(p.namespace, cfg);
    var content := if Present(p.content) then p.content else ContextReflection(codec, cfg, t, namespace, p.graphId);
    if content.None? then StoreRun(Err(NotDerived), c, t)
    else Store(ctx, codec, cfg, reply, c, t, id, reflectionId, now, ReflectionStore(p, cfg, content.value))
  }

  /** `createReflection(payload)`. */
  method CreateReflection(store: Database.Store, net: Embedding.Network, ctx: Hsg.Context, codec: Json.Codec, cfg: Config,
                          id: string, reflectionId: string, now: int, p: ReflectionRequest)
    returns (r: Result<StoreResult>)
    requires store.Valid() && Hsg.ValidContext(ctx, net.reply)
    modifies store, net
    ensures store.Valid()
    ensures old(store.saved).Some? ==>
      r.Err? && store.State() == old(store.State()) && store.saved == old(store.saved) && net.calls == old(net.calls)
    ensures old(store.saved).None? ==>
      && store.saved.None?
      && StoreRun(r, net.calls, store.State()) == Reflect(ctx, codec, cfg, net.reply, old(net.calls), old(store.State()), id, reflectionId, now, p)
  {
    var namespace := ResolveNamespace(p.namespace, cfg);
    var content: Option<string>;
    if Present(p.content) {
      content := p.content;
    } else {
      content := BuildContextReflection(store, net, ctx, codec, cfg, now, namespace, p.graphId);
    }
    if content.None? {
      return Err(NotDerived);
    }
    r := StoreNodeMemory(store, net, ctx, codec, cfg, id, reflectionId, now, ReflectionStore(p, cfg, content.value));
  }

  /** A reflection fails with "reflection content could not be derived", and
      changes nothing, exactly when no content is given and the context has no
      line. Otherwise it is an ordinary store that never asks for an automatic
      reflection; when it succeeds the memory is in the requested namespace and
      carries the manual-reflection tag and one tag per context id. */
  lemma ReflectFacts(ctx: Hsg.Context, codec: Json.Codec, cfg: Config, reply: nat -> Embedding.Reply, c: nat, t: Db.Tables,
                     id: string, reflectionId: string, now: int, p: ReflectionRequest)
    requires Hsg.ValidContext(ctx, reply)
    ensures var s := Reflect(ctx, codec, cfg, reply, c, t, id, reflectionId, now, p);
      var derived := ContextReflection(codec, cfg, t, ResolveNamespace(p.namespace, cfg), p.graphId);
      && (!Present(p.content) && derived.None? ==> s == StoreRun(Err(NotDerived), c, t))
      && (Present(p.content) || derived.Some? ==>
            var q := ReflectionStore(p, cfg, if Present(p.content) then p.content.value else derived.value);
            && Present(q.node) && Present(q.content) && !Reflects(q, cfg)
            && s == Store(ctx, codec, cfg, reply, c, t, id, reflectionId, now, q))
      && (s.result.Ok? ==>
            var m := s.result.value.memory;
            && s.result.value.reflection.None?
            && m.namespace == ResolveNamespace(p.namespace, cfg)
            && "lgm:manual:reflection" in m.tags
            && (p.contextIds.Some? ==> forall i :: 0 <= i < |p.contextIds.value| ==> "lgm:context:" + p.contextIds.value[i] in m.tags))
  {
    var namespace := ResolveNamespace(p.namespace, cfg);
    var derived := ContextReflection(codec, cfg, t, namespace, p.graphId);
    if Present(p.content) || derived.Some? {
      var content := if Present(p.content) then p.content.value else derived.value;
      ReflectStored(ctx, codec, cfg, reply, c, t, id, reflectionId, now, p, content);
    }
  }

  /** Storing a reflection's content: the request has a node and a content and
      turns automatic reflection off; a success is in the requested namespace
      and carries the manual-reflection tag and the context tags. */
  lemma ReflectStored(ctx: Hsg.Context, codec: Json.Codec, cfg: Config, reply: nat -> Embedding.Reply, c: nat, t: Db.Tables,
                      id: string, reflectionId: string, now: int, p: ReflectionRequest, content: string)
    requires Hsg.ValidContext(ctx, reply) && content != ""
    ensures var q := ReflectionStore(p, cfg, content);
      var s := Store(ctx, codec, cfg, reply, c, t, id, reflectionId, now, q);
      && Present(q.node) && Present(q.content) && !Reflects(q, cfg)
      && (s.result.Ok? ==>
            var m := s.result.value.memory;
            && s.result.value.reflection.None?
            && m.namespace == ResolveNamespace(p.namespace, cfg)
            && "lgm:manual:reflection" in m.tags
            && (p.contextIds.Some? ==> forall i :: 0 <= i < |p.contextIds.value| ==> "lgm:context:" + p.contextIds.value[i] in m.tags))
  {
    var q := ReflectionStore(p, cfg, content);
    var node := if Present(p.node) then p.node.value else "reflect";
    assert |Js.ToLower(node)| == |node| > 0;
    StoreFacts(ctx, codec, cfg, reply, c, t, id, reflectionId, now, q);
    var s := Store(ctx, codec, cfg, reply, c, t, id, reflectionId, now, q);
    if s.result.Ok? {
      var m := s.result.value.memory;
      ManualTagsKept(p.contextIds, m.node, m.namespace, p.graphId);
    }
  }

  /** The tags of a manual reflection keep its own tag and the context tags. */
  lemma ManualTagsKept(contextIds: Option<seq<string>>, node: string, namespace: string, graphId: Option<string>)
    ensures var r := BuildTags(Some(ManualTags(contextIds)), node, namespace, graphId);
      && "lgm:manual:reflection" in r
      && (contextIds.Some? ==> forall i :: 0 <= i < |contextIds.value| ==> "lgm:context:" + contextIds.value[i] in r)
  {
    var tags := ManualTags(contextIds);
    BuildTagsFacts(Some(tags), node, namespace, graphId);
    assert tags[0] == "lgm:manual:reflection";
    if contextIds.Some? {
      forall i | 0 <= i < |contextIds.value| ensures "lgm:context:" + contextIds.value[i] in tags {
        assert tags[i + 1] == "lgm:context:" + contextIds.value[i];
      }
    }
  }
}
