# OpenMemory core in Dafny

This project models the memory engine of OpenMemory, a long-term memory store for language-model agents, and proves properties of that model. A memory is a piece of text. It is classified into one or more of five cognitive sectors (episodic, semantic, procedural, emotional, reflective). Each sector gets an embedding vector. The memory's salience decays over time and rises again when the memory is recalled. Memories are linked by weighted waypoint edges. A query ranks memories by cosine similarity, widens the hits along the waypoints, and fuses similarity, salience, recency and waypoint weight into one score. The model covers:

- **Storage.** The SQLite store: its four tables and every prepared statement, with `BEGIN`/`COMMIT`/`ROLLBACK`.
- **Embeddings.** The embedding layer with its providers and the multi-sector retry loop that writes the embed log.
- **Graph and ranking.** Classification and decay, the waypoint graph, and the HSG operations (`addHSGMemory`, `hsgQuery`, `reinforceMemory`, `runDecayProcess`).
- **Text and ingestion.** The text chunker, document ingestion with its root-and-children strategy, and the legacy decay sweep.
- **LangGraph.** The layer that stores and recalls memories per graph node and namespace.

How the pieces are represented:

- **Tables.** `Db` holds the tables as values. Each table is the sequence of its rows in rowid order, and each statement is a function on the tables. A `select` without `order by` returns rows in rowid order. `order by … desc` is the stable descending sort of `Sorting`.
- **Primary keys.** A plain insert of a duplicate key fails. `insert or replace` deletes the row with the same key and appends the new one. The `waypoints` table is keyed by `src_id` alone, as its schema declares (`backend/src/database/index.ts`), so a node keeps only its most recently inserted outgoing edge. The model keeps that keying and proves its consequences (`Waypoints.PairEdgesForward`, `Ingestion.IngestRootChild`).
- **The connection.** `Database.Store` is a class whose fields hold the tables. Each statement is a method that updates those fields as the `Db` function prescribes. `saved` is the snapshot taken at `BEGIN` and restored at `ROLLBACK`.
- **Step-by-step code.** Code that works in steps is a method with loops and invariants. Examples are the chunker, the retry loop, the sweeps, the waypoint walks, the query loops and the ingestion loop. Each such method is proved equal to a specification function, and lemmas state what that function promises.
- **JavaScript semantics.** Numbers are mathematical reals.
  - `Math.exp`, `Math.sqrt` and `Math.sin` are function values in `Numeric.Math`. The predicate `ValidMath` gives them only the facts the proofs use. `ExactSqrt` is an extra hypothesis, used only where a norm must be exact.
  - Rounding to binary32 is a pair of functions in `Codec.Binary32`.
  - Regular-expression matching is an oracle: `Sectors.Matcher` for the sector patterns and `Chunking.Splitter` for sentence splitting. Paragraph splitting (`/\n\n+/`) is modelled by `Js.Paragraphs`, shared by the chunker and ingestion.
  - String and array built-ins are written out in `Js`: `slice` with negative indices, `trim`, `join`, the insertion-ordered `Set`. Object spread and property assignment are written out in `Json`.
- **Outside inputs.**
  - The network is an oracle. `Embedding.Network` answers the n-th HTTP request with `reply(n)` and counts requests in `calls`.
  - `Date.now()` is one `now` parameter per operation.
  - `crypto.randomUUID()` is the id parameter of an add.
  - The LangGraph and ingestion configuration are parameters.
- **Retry loop variants.** `Hsg.Context.reset` selects the retry loop of `embedMultiSector`. False is the loop as written, whose `results` array survives a failed attempt; true is the corrected loop. `Hsg.Clock` selects what `runDecayProcess` measures elapsed time from: `SinceLastSeen` is the code as written, `SinceUpdate` the correction (see "## Findings").

Where the code and the repository's design notes disagree, the model follows the code:

- The design describes waypoints keyed by (source, destination); the code keys them by source only.
- The design describes `hsgQuery` as skipping candidates that fail; the code has no `try`, so an embedding or decoding error ends the query before anything is written.

## Model

| member | source | states |
|---|---|---|
| Codec.RoundIdempotent | backend/src/embedding/index.ts:406-419 | storing a number that already came back from a binary32 slot gives the same number |
| Codec.RoundAll | backend/src/embedding/index.ts:413-419 | the rounded vector has one element per input, each the binary32 rounding of its input |
| Codec.WordBytes | backend/src/embedding/index.ts:409 | `writeFloatLE` writes exactly four bytes per element |
| Codec.WordRoundTrip | backend/src/embedding/index.ts:409-416 | reading back the four little-endian bytes of a word gives the word |
| Codec.BytesRoundTrip | backend/src/embedding/index.ts:409-416 | writing the word read from four bytes gives back those bytes |
| Codec.Encode | backend/src/embedding/index.ts:406-412 | `vectorToBuffer` (and `to_buf`) yields 4·n bytes for n elements |
| Codec.Words | backend/src/embedding/index.ts:413-419 | a buffer of 4·n bytes holds n numbers |
| Codec.Decode | backend/src/embedding/index.ts:413-419 | `bufferToVector` fails exactly when the length is not a multiple of four, with Node's range error for the last `readFloatLE` offset (or the bounds error below four bytes), and otherwise returns length/4 numbers |
| Codec.View | backend/src/utils/index.ts:12 | `from_buf` views floor(byteLength/4) numbers |
| Codec.DecodeEncode | backend/src/embedding/index.ts:406-419 | decoding (or viewing) an encoded vector gives back every element rounded to binary32, and never fails |
| Codec.WordsEncode | backend/src/utils/index.ts:9-12 | the numbers held by `to_buf(v)` are v rounded to binary32 |
| Codec.EncodeDecode | backend/src/embedding/index.ts:406-419 | re-encoding the numbers of a canonical buffer gives back the buffer byte for byte |
| Db.GetMem | backend/src/database/index.ts:106-108 | `get_mem` returns a row only if it is in the table with that id, and returns none exactly when no row has that id |
| Db.InsMem | backend/src/database/index.ts:94-96 | the plain insert fails exactly when the id is already taken (primary key) and otherwise appends the row and changes nothing else |
| Db.UpdSeenEffect | backend/src/database/index.ts:100-102 | `upd_seen` sets last_seen_at, salience and updated_at of the one row with that id and nothing else: other rows and the other tables are unchanged, a missing id changes nothing, and keys stay unique |
| Db.DelMem | backend/src/database/index.ts:103-105 | `del_mem` keeps exactly the rows whose id differs |
| Db.PageFacts | backend/src/database/index.ts:109-114 | `all_mem` / `all_mem_by_sector` return at most limit rows, ordered by created_at descending, all from the table, and with no limit or offset a permutation of the rows |
| Db.InsVec | backend/src/database/index.ts:115-117 | the plain insert fails exactly when (id, sector) is already taken and otherwise appends the row |
| Db.GetVec | backend/src/database/index.ts:118-120 | `get_vec` returns a row of the table for that (id, sector), and none only when there is no such row |
| Db.GetVecsById | backend/src/database/index.ts:121-123 | exactly the vector rows with that id |
| Db.GetVecsBySector | backend/src/database/index.ts:124-126 | exactly the vector rows of that sector |
| Db.DelVec | backend/src/database/index.ts:127-129 | keeps exactly the vector rows whose id differs |
| Db.DelVecSector | backend/src/database/index.ts:130-132 | keeps exactly the vector rows that differ in id or in sector |
| Db.InsWaypointReplaces | backend/src/database/index.ts:133-135 | `insert or replace` keyed by src_id alone: afterwards the new edge is the only edge from its source, edges from other sources are untouched, the other tables are unchanged and keys stay unique |
| Db.GetNeighborsFacts | backend/src/database/index.ts:136-138 | `get_neighbors` returns exactly the edges leaving src, sorted by weight descending, and (src_id being the key) at most one |
| Db.GetWaypoint | backend/src/database/index.ts:139-141 | a weight is returned exactly when an edge src→dst exists, and it is that edge's weight |
| Db.UpdWaypointEffect | backend/src/database/index.ts:142-144 | `upd_waypoint` gives the existing edge src→dst the new weight, changes nothing when there is no such edge, leaves the other tables and keeps keys unique |
| Db.DelWaypoints | backend/src/database/index.ts:145-147 | keeps exactly the edges whose source and destination both differ from the id |
| Db.PruneWaypoints | backend/src/database/index.ts:148-150 | keeps exactly the edges with weight ≥ threshold (deletes those < threshold) |
| Db.InsLog | backend/src/database/index.ts:151-153 | the plain insert fails exactly when the log id is taken and otherwise appends the row |
| Db.MapLog | backend/src/database/index.ts:154-156 | `upd_log` sets status and err of the rows with that id and leaves every other row as it was |
| Db.GetPendingLogs | backend/src/database/index.ts:157-159 | exactly the log rows whose status is 'pending' |
| Db.UpdLogLeavesPending | backend/src/database/index.ts:154-159 | after setting a non-pending status on a log, the pending set is the old pending set without that log |
| Db.StatementsKeyed | backend/src/database/index.ts:94-156 | every successful insert and every log update keeps each table's primary key unique |
| Db.DeletesKeyed | backend/src/database/index.ts:103-150 | every deleting statement keeps each table's primary key unique |
| Database.Store.constructor | backend/src/database/index.ts:8-56 | a fresh database has four empty tables and no open transaction |
| Database.Store.Begin | backend/src/database/index.ts:87-88 | `BEGIN` saves the current tables; it is refused (error, nothing changes) inside an open transaction |
| Database.Store.Commit | backend/src/database/index.ts:87-89 | `COMMIT` keeps the tables and closes the transaction; it fails when none is open |
| Database.Store.Rollback | backend/src/database/index.ts:87-90 | `ROLLBACK` restores exactly the tables saved at BEGIN; without an open transaction it fails and changes nothing |
| Database.Store.InsMem | backend/src/database/index.ts:94-96 | the store applies Db.InsMem: on success the new tables, on a taken key an error and unchanged tables |
| Database.Store.InsVec | backend/src/database/index.ts:115-117 | the store applies Db.InsVec, failing with unchanged tables on a taken (id, sector) |
| Database.Store.InsLog | backend/src/database/index.ts:151-153 | the store applies Db.InsLog, failing with unchanged tables on a taken id |
| Database.Store.UpdLog | backend/src/database/index.ts:154-156 | the new tables are Db.UpdLog of the old ones |
| Database.Store.UpdMeanVec | backend/src/database/index.ts:97-99 | the new tables are Db.UpdMeanVec of the old ones (mean_dim and mean_vec of that id) |
| Database.Store.UpdSeen | backend/src/database/index.ts:100-102 | the new tables are Db.UpdSeen of the old ones |
| Database.Store.UpdSalience | backend/src/decay/index.ts:14 | the new tables have salience and updated_at of that id set, as the legacy sweep's statement does |
| Database.Store.InsWaypoint | backend/src/database/index.ts:133-135 | the new tables are Db.InsWaypoint of the old ones |
| Database.Store.UpdWaypoint | backend/src/database/index.ts:142-144 | the new tables are Db.UpdWaypoint of the old ones |
| Database.Store.DelMem | backend/src/database/index.ts:103-105 | the new tables are Db.DelMem of the old ones |
| Database.Store.DelVec | backend/src/database/index.ts:127-129 | the new tables are Db.DelVec of the old ones |
| Database.Store.DelVecSector | backend/src/database/index.ts:130-132 | the new tables are Db.DelVecSector of the old ones |
| Database.Store.DelWaypoints | backend/src/database/index.ts:145-147 | the new tables are Db.DelWaypoints of the old ones |
| Database.Store.PruneWaypoints | backend/src/database/index.ts:148-150 | the new tables are Db.PruneWaypoints of the old ones |
| Decay.Updates | backend/src/decay/index.ts:7-12 | one update per fetched row, in order, carrying the row's id and its new salience |
| Decay.ApplyDecay | backend/src/decay/index.ts:4-17 | the store afterwards is the old store with every update applied at the one timestamp n, and no transaction is opened or closed |
| Decay.AppliedPrefix | backend/src/decay/index.ts:13-15 | after the first j updates exactly the first j rows are decayed; the other rows and the vector, waypoint and log tables are unchanged |
| Decay.ApplyDecayEffect | backend/src/decay/index.ts:5-15 | every row gets salience = max(0, s·exp(−λ·dt)) and updated_at = n and nothing else changes (last_seen_at untouched); the other tables are unchanged |
| Decay.NewSalienceFacts | backend/src/decay/index.ts:8-10 | the new salience is ≥ 0, never above a non-negative old salience when λ ≥ 0, equal to it when no time has elapsed (dt clamped to 0), and strictly below it when s > 0, λ > 0 and time has elapsed |
| Sectors.Parse | backend/src/hsg/index.ts:44-104 | `SECTOR_CONFIGS[name]` yields a sector only under its own name, and nothing for any other name (names inherited from `Object.prototype` included, see "## Left out") |
| Sectors.ParseName | backend/src/hsg/index.ts:44-104 | every registered sector is found under its name |
| Sectors.PatternSum | backend/src/hsg/index.ts:129-134 | a sector's score, summing (1 + capture groups) × weight over matching patterns, is never negative |
| Sectors.RegistryWellFormed | backend/src/hsg/index.ts:104 | `SECTORS` lists each of the five sectors exactly once |
| Sectors.RegistryComplete | backend/src/hsg/index.ts:104 | every sector is in `SECTORS` |
| Sectors.ScoresNonNegative | backend/src/hsg/index.ts:126-136 | every sector's score is ≥ 0 |
| Sectors.Confidence | backend/src/hsg/index.ts:145-147 | the confidence lies in (0, 1], and is 0.2 when the top score is not positive |
| Sectors.Threshold | backend/src/hsg/index.ts:140 | the threshold is max(1, 0.3·top): at least both, and equal to one of them |
| Sectors.ClassifyExplicit | backend/src/hsg/index.ts:119-125 | a registered `metadata.sector` classifies as (that sector, [], 1.0) whatever the content |
| Sectors.SortedRegistry | backend/src/hsg/index.ts:137 | the stable descending sort of the registry is a duplicate-free arrangement of all sectors, headed by the first sector (in registry order) with the highest score |
| Sectors.RankNoMatch | backend/src/hsg/index.ts:137-152 | with every score 0 the ranking is ('semantic', [], 0.2) |
| Sectors.ClassifyNoMatch | backend/src/hsg/index.ts:118-152 | content that matches no pattern (and no registered metadata sector) classifies as ('semantic', [], 0.2) |
| Sectors.RankPrimary | backend/src/hsg/index.ts:137-149 | the primary is the first highest-scoring sector in registry order when its score is positive, else 'semantic', and no sector scores above it |
| Sectors.ClassifyPrimary | backend/src/hsg/index.ts:137-149 | the same for `classifyContent`: ties go to registry order and a zero top score gives 'semantic' |
| Sectors.RankAdditional | backend/src/hsg/index.ts:140-144 | a sector is additional iff it is not the primary, scores > 0 and ≥ max(1, 0.3·primary score); the list has no repeats and is in descending score order |
| Sectors.AdditionalFacts | backend/src/hsg/index.ts:141-144 | the same membership, distinctness and ordering facts over any descending duplicate-free ranking |
| Sectors.AdditionalMember | backend/src/hsg/index.ts:141-144 | a runner-up is kept by the filter exactly when it qualifies, and the head is never kept |
| Sectors.ClassifyAdditional | backend/src/hsg/index.ts:140-144 | for `classifyContent`: additional never contains the primary, and holds exactly the sectors scoring > 0 and ≥ max(1, 0.3·primary), in descending order without repeats |
| Sectors.ClassifyConfidence | backend/src/hsg/index.ts:145-147 | the classification's confidence is always in (0, 1] |
| Sectors.CalculateDecay | backend/src/hsg/index.ts:154-159 | a name that is not a sector returns the input salience unchanged (inherited property names aside, see "## Left out"); a sector returns a value ≥ 0 |
| Sectors.DecayMonotone | backend/src/hsg/index.ts:154-159 | with exp monotone, more elapsed days never give more salience |
| Sectors.DecayBounded | backend/src/hsg/index.ts:154-159 | over a non-negative span a non-negative salience stays within [0, s0] |
| Sectors.DecayZeroDays | backend/src/hsg/index.ts:154-159 | zero elapsed days leave a non-negative salience unchanged |
| Sectors.DecayStrict | backend/src/hsg/index.ts:154-159 | for a known sector, positive salience and positive days, the result is strictly between 0 and s0 |
| Sectors.Boosted | backend/src/hsg/index.ts:410-411 | the raised salience min(max_salience, s + boost) never exceeds 1.0, is s + boost or the cap, and does not fall below min(1, s) for a non-negative boost |
| Sectors.RetrievalScoreBounds | backend/src/hsg/index.ts:160-178 | with similarity, salience and waypoint weight in [0, 1] and last_seen_at not in the future, the fused score 0.6·sim + 0.2·sal + 0.1·recency + 0.1·waypoint lies in [0, 1] |
| Sectors.RetrievalScoreMonotone | backend/src/hsg/index.ts:165-178 | the fused score never decreases when similarity, salience or waypoint weight grows |
| Vectors.Resized | backend/src/embedding/index.ts:261-273 | the result always has targetDim entries: a prefix of the input when truncating, the input followed by zeros when padding, the input itself at equal length |
| Vectors.ResizeVector | backend/src/embedding/index.ts:261-273 | the method's copy-and-push loop computes exactly Resized |
| Vectors.Mean | backend/src/embedding/index.ts:378-391 | the element-wise mean has the first vector's dimension |
| Vectors.MeanPool | backend/src/embedding/index.ts:374-392 | `aggregateChunkVectors` (and `aggregateVectors` in utils/chunking.ts:92-110): the error 'No vectors to aggregate' on no vectors, a single vector passed through unchanged, otherwise the element-wise mean |
| Vectors.AddInto | backend/src/embedding/index.ts:382-386 | one accumulation pass adds the vector to every accumulator entry |
| Vectors.AddScaled | backend/src/hsg/index.ts:202-204 | one weighted pass adds vector × weight to every entry |
| Vectors.DivideAll | backend/src/embedding/index.ts:388-390 | the final pass divides every entry by the count |
| Vectors.ColumnSumBounds | backend/src/embedding/index.ts:382-386 | a column sum of n values within [lo, hi] lies within [n·lo, n·hi] |
| Vectors.MeanBounds | backend/src/embedding/index.ts:374-392 | each entry of the mean lies between the smallest and the largest input entry at that position |
| Vectors.MeanOfCopies | backend/src/embedding/index.ts:374-392 | the mean of copies of one vector is that vector |
| Vectors.SectorWeight | backend/src/hsg/index.ts:199 | `SECTOR_CONFIGS[sector]?.weight \|\| 1.0` is always positive |
| Vectors.TotalWeightPositive | backend/src/hsg/index.ts:196-201 | the total weight of a non-empty result list is positive, so the division never divides by zero |
| Vectors.WeightedMean | backend/src/hsg/index.ts:193-212 | the weighted mean has the first result's dimension |
| Vectors.CalculateMeanVector | backend/src/hsg/index.ts:193-212 | an empty result list fails as reading `vector` of undefined does; otherwise the result is the sector-weighted mean of the vectors |
| Vectors.Accumulate | backend/src/hsg/index.ts:196-205 | after the loop over results, total is the summed sector weight and each entry the weighted column sum |
| Vectors.AddResult | backend/src/hsg/index.ts:199-204 | one iteration adds one result's weighted vector |
| Vectors.WeightedSumOfCopies | backend/src/hsg/index.ts:196-205 | the weighted sum of equal entries is that entry times the total weight |
| Vectors.WeightedMeanOfCopies | backend/src/hsg/index.ts:193-212 | whatever the sector weights, the weighted mean of equal vectors is that vector |
| Vectors.DotSelfNonNegative | backend/src/embedding/index.ts:399-400 | a squared norm is never negative |
| Vectors.DotSymmetric | backend/src/embedding/index.ts:398-400 | the dot product does not depend on the order of its arguments |
| Vectors.CosineSimilarity | backend/src/embedding/index.ts:393-405 | the loop computes Cosine: 0 when the lengths differ or either norm is 0, else dot/(√na·√nb) |
| Vectors.CosineSymmetric | backend/src/embedding/index.ts:393-405 | `cosineSimilarity(a, b) == cosineSimilarity(b, a)` |
| Vectors.CosineSelf | backend/src/embedding/index.ts:393-405 | with exact square roots a non-zero vector has similarity 1 with itself |
| Vectors.Cos | backend/src/utils/index.ts:3-6 | `cos` iterates over a's indices only, with no length check, and returns 0 when the norm product is 0 |
| Vectors.CosAgreesWithCosine | backend/src/utils/index.ts:3-6 | on vectors of equal length `cos` and `cosineSimilarity` agree |
| Vectors.VectorToBuffer | backend/src/embedding/index.ts:406-412 | the buffer written element by element equals Codec.Encode (four little-endian bytes at offset 4i) |
| Vectors.BufferToVector | backend/src/embedding/index.ts:413-419 | reading four bytes at a time equals Codec.Decode, including the failure on a length that is not a multiple of four |
| Chunking.EstimateTokens | backend/src/utils/chunking.ts:18-20 | the estimate is the least n with 4·n ≥ length (ceil(len/4)) |
| Chunking.Step | backend/src/utils/chunking.ts:55-72 | a flush happens exactly when the buffer is non-empty and buffer + space + sentence exceeds targetChars; it pushes the buffer as a chunk, reseeds the buffer with slice(-overlapChars) + ' ' + sentence and advances the start by the sentence's length; otherwise no chunk is pushed and the start stays |
| Chunking.RunAppend | backend/src/utils/chunking.ts:51-74 | the sentence loop over two runs is the loop over the first followed by the loop over the second (paragraph by paragraph processing equals one flat run) |
| Chunking.ChunkText | backend/src/utils/chunking.ts:26-86 | the method's loops compute exactly the chunk list of the specification function Chunks |
| Chunking.Feed | backend/src/utils/chunking.ts:55-73 | the inner sentence loop leaves (chunks, currentChunk, chunkStart) equal to running Step over the paragraph's sentences |
| Chunking.RunGood | backend/src/utils/chunking.ts:55-73 | the loop keeps its invariant: every pushed chunk is measured and non-empty, consecutive chunks overlap by the last overlapChars characters, and starts never decrease |
| Chunking.ChunksFacts | backend/src/utils/chunking.ts:33-83 | every chunk has end = start + length and tokens = ceil(length/4); a text within the target is one chunk (text, 0); otherwise every chunk is non-empty, each next chunk starts with the overlap of the previous one plus a space, and starts are non-decreasing |
| Chunking.FinishGood | backend/src/utils/chunking.ts:76-83 | the trailing buffer is pushed only when non-empty, and the final list keeps the measured, overlap and ordering facts |
| Chunking.Texts | backend/src/utils/chunking.ts:116 | the mapped list has one text per chunk, in order |
| Chunking.CombineChunksFacts | backend/src/utils/chunking.ts:115-117 | joining with single spaces gives back the text for a single-chunk result, and the joined length is the sum of the texts plus one separator between each pair |
| Embedding.Network.Fetch | backend/src/embedding/index.ts:48-59 | each `fetch` consumes the next reply of the provider oracle and counts one request |
| Embedding.Frac | backend/src/embedding/index.ts:244 | JavaScript's `% 1`: a value in (−1, 1) with the sign of x whose difference from x is a whole number |
| Embedding.Synthetic | backend/src/embedding/index.ts:231-248 | `generateSyntheticEmbedding` returns exactly vec_dim entries, each strictly between −1 and 1 |
| Embedding.GenerateSyntheticEmbedding | backend/src/embedding/index.ts:231-248 | the loop computes exactly Synthetic, sin(i·0.7 + len·seed + sectorLen·0.11) % 1 with the 0.17 fallback seed |
| Embedding.LocalValues | backend/src/embedding/index.ts:215-220 | one value (b1·256 + b2)/65535·2 − 1 per dimension |
| Embedding.Normalized | backend/src/embedding/index.ts:223 | dividing by the norm keeps the length |
| Embedding.LocalEmbedding | backend/src/embedding/index.ts:204-229 | `embedWithLocal` returns vec_dim entries; without a model path it is the synthetic embedding; with one (and exact square roots) a unit vector |
| Embedding.LocalValuesAwayFromZero | backend/src/embedding/index.ts:218 | no hash-derived value is zero (each is at least 1/65535 away), so the norm is never 0 |
| Embedding.DotPositive | backend/src/embedding/index.ts:222 | a vector of values away from zero has a positive squared norm |
| Embedding.DotScaled | backend/src/embedding/index.ts:223 | scaling every entry by 1/n scales the squared norm by 1/n² |
| Embedding.UnitNorm | backend/src/embedding/index.ts:222-223 | the norm of the hash values is positive, and with an exact square root the normalised vector has unit length |
| Embedding.EmbedWithLocal | backend/src/embedding/index.ts:204-229 | the method computes exactly LocalEmbedding |
| Embedding.DigestValues | backend/src/embedding/index.ts:215-220 | the push loop yields LocalValues |
| Embedding.SumOfSquares | backend/src/embedding/index.ts:222 | the reduce yields the squared norm |
| Embedding.Divide | backend/src/embedding/index.ts:223 | the map yields the normalised vector |
| Embedding.OpenAIEmbed | backend/src/embedding/index.ts:35-67 | without a key: the error 'OpenAI API key not configured' and no request; with one: exactly one request, succeeding iff the reply is ok and holds a vector |
| Embedding.EmbedWithOpenAI | backend/src/embedding/index.ts:35-67 | the method performs exactly OpenAIEmbed against the provider |
| Embedding.OpenAIBatch | backend/src/embedding/index.ts:69-101 | no key: the key error and no request; otherwise one request, succeeding iff the reply is ok and holds a vector for each of the n keys, which are the first n vectors in order |
| Embedding.EmbedBatchOpenAI | backend/src/embedding/index.ts:69-101 | the method performs exactly OpenAIBatch |
| Embedding.OllamaEmbed | backend/src/embedding/index.ts:172-202 | exactly one request; success iff the reply is ok and holds a vector, which is resized to vec_dim |
| Embedding.EmbedWithOllama | backend/src/embedding/index.ts:172-202 | the method performs exactly OllamaEmbed |
| Embedding.TextBySector | backend/src/embedding/index.ts:291-294 | every sector key maps to the same text, in first-occurrence order |
| Embedding.ResizedAll | backend/src/embedding/index.ts:139-141 | each of the first n reply vectors resized to vec_dim |
| Embedding.Fallback | backend/src/embedding/index.ts:149-153 | one synthetic vector per sector key, each made from that key's text and sector |
| Embedding.Gemini | backend/src/embedding/index.ts:103-170 | without a key the 'Gemini API key not configured' error and no request; with one it always succeeds after 1 to 3 requests, with one vec_dim vector per key |
| Embedding.GeminiRunFacts | backend/src/embedding/index.ts:110-165 | from any attempt the retry loop succeeds, uses between one and 3 − attempt requests, and yields |texts| vectors of vec_dim entries |
| Embedding.GeminiFallsBack | backend/src/embedding/index.ts:146-165 | after three failed or 429 replies the result is the synthetic fallback, not an error, after exactly three requests |
| Embedding.GeminiAnswers | backend/src/embedding/index.ts:110-145 | the first usable reply within three attempts is taken, each vector resized to vec_dim |
| Embedding.SyntheticFallback | backend/src/embedding/index.ts:149-153 | the fallback loop yields Fallback |
| Embedding.ResizeAll | backend/src/embedding/index.ts:139-141 | the resize loop yields ResizedAll |
| Embedding.EmbedWithGemini | backend/src/embedding/index.ts:103-170 | the method performs exactly Gemini, one request per attempt |
| Embedding.EmbedFor | backend/src/embedding/index.ts:15-33 | a name that is not a sector (inherited property names aside, see "## Left out") fails with 'Unknown sector: …' before any request; every dispatch uses at most three requests; under a provider answering vec_dim vectors the result has vec_dim entries |
| Embedding.EmbedForSector | backend/src/embedding/index.ts:15-33 | the method performs exactly EmbedFor |
| Embedding.ChunkVectors | backend/src/embedding/index.ts:333-338 | one vector per chunk, in order, stopping at the first failure; each vec_dim long under a uniform provider |
| Embedding.SectorVector | backend/src/embedding/index.ts:331-342 | a sector's vector (the pooled chunk vectors, or the text's vector) has vec_dim entries |
| Embedding.SectorsRun | backend/src/embedding/index.ts:330-349 | a completed sequential pass pushes one result per sector, in the sectors' order |
| Embedding.ParallelRun | backend/src/embedding/index.ts:311-328 | every sector is requested even after one fails; a rejection leaves nothing pushed, and a completed run pushes one result per sector in the sectors' order |
| Embedding.ParallelAgrees | backend/src/embedding/index.ts:311-349 | the parallel attempt throws exactly the error the sequential one throws, yields the same results and requests when neither throws, and never makes fewer requests |
| Embedding.ParallelRequestsAll | backend/src/embedding/index.ts:311-328 | concretely, a first sector that fails does not stop the second sector's request: two requests in parallel where the sequential pass makes one, with the same error and nothing pushed |
| Embedding.RunParallel | backend/src/embedding/index.ts:311-328 | the loop that requests every sector, keeps the first error and pushes only when none failed performs exactly ParallelRun |
| Embedding.BatchResults | backend/src/embedding/index.ts:303-305 | one result per batch key, with that key's vector |
| Embedding.AttemptOnce | backend/src/embedding/index.ts:286-351 | a successful attempt pushes one result per distinct sector in simple batch mode, and one per listed sector otherwise; the three modes are the batch request, the parallel run and the sequential pass |
| Embedding.ResultSectors | backend/src/embedding/index.ts:303-344 | the sector of each result, in order |
| Embedding.EmbedChunks | backend/src/embedding/index.ts:333-338 | the chunk loop performs exactly ChunkVectors |
| Embedding.EmbedSector | backend/src/embedding/index.ts:331-344 | one sector's body performs exactly SectorVector |
| Embedding.RunAttempt | backend/src/embedding/index.ts:285-352 | the body of one attempt performs exactly AttemptOnce (what it pushes, its error, its requests), in each of the three modes |
| Embedding.RunBatch | backend/src/embedding/index.ts:288-305 | simple mode: one batch request for the distinct sectors, one result per sector in insertion order, or the request's error with nothing pushed; exactly AttemptOnce |
| Embedding.EmbedMultiSector | backend/src/embedding/index.ts:274-369 | the method's result, requests and final tables are exactly those of MultiSector (insert the pending log, retry up to three times, update the log) |
| Embedding.RetryStep | backend/src/embedding/index.ts:284-366 | one turn: success sets the log to 'completed' and returns the kept results; a failure on the third attempt sets 'failed' with the message and rethrows; any other failure retries keeping (as written) or dropping the partial results |
| Embedding.RetryFacts | backend/src/embedding/index.ts:284-366 | the retry loop ends with the log row set to 'completed' or 'failed' with its message, after at most three attempts, and an error only after the third |
| Embedding.MultiSectorLog | backend/src/embedding/index.ts:280-366 | a taken log id fails at once with no request and no change; otherwise one log row is added, 1–3 attempts run, an error only after three, and the row ends 'completed' or 'failed' |
| Embedding.RetryResetResults | backend/src/embedding/index.ts:284-366 | with each attempt starting afresh, the results' sectors are exactly the sectors (deduplicated in batch mode) |
| Embedding.SectorsRunDims | backend/src/embedding/index.ts:330-349 | every pushed vector has vec_dim entries under a uniform provider |
| Embedding.AttemptDims | backend/src/embedding/index.ts:286-351 | whatever one attempt pushes has vec_dim entries |
| Embedding.RetryDims | backend/src/embedding/index.ts:284-366 | the kept results keep vec_dim entries across retries |
| Embedding.MultiSectorDims | backend/src/embedding/index.ts:274-369 | every returned vector has vec_dim entries |
| Embedding.MultiSectorResultsDistinct | backend/src/embedding/index.ts:274-369 | (corrected) with results reset per attempt and distinct sectors, the returned sectors are distinct and no more than the sectors |
| Embedding.MultiSectorCovers | backend/src/embedding/index.ts:274-369 | every requested sector has a result on success |
| Embedding.RetryCovers | backend/src/embedding/index.ts:284-366 | a successful turn covers every sector |
| Embedding.DedupNoLonger | backend/src/embedding/index.ts:291-294 | keying by sector never adds entries |
| Embedding.FlakyEmbed | backend/src/embedding/index.ts:15-33 | the concrete provider that fails only its second request answers [1, 2] otherwise, in sequential and parallel mode alike |
| Embedding.FlakyAttempts | backend/src/embedding/index.ts:330-349 | under that provider the first attempt pushes 'emotional' and then fails, and the second pushes both sectors |
| Embedding.PartialResultsPersist | backend/src/embedding/index.ts:280-354 | (as written) `results` outlives a failed attempt: the run returns ['emotional', 'emotional', 'semantic'] for two sectors |
| Embedding.FreshResultsPerAttempt | backend/src/embedding/index.ts:280-354 | (corrected) with `results` cleared per attempt the same run returns exactly the two sectors |
| Embedding.GetEmbeddingInfo | backend/src/embedding/index.ts:426-474 | batch_support iff simple mode with gemini or openai; batch_api present iff openai or gemini; configured is false exactly for openai/gemini without a key and local without a path; provider and dimensions come from the settings |
| Embedding.UnconfiguredProvider | backend/src/embedding/index.ts:15-33 | for openai and gemini, the info reports unconfigured exactly when embedding fails without any request |
| Embedding.UnconfiguredLocal | backend/src/embedding/index.ts:204-229 | an unconfigured local provider embeds synthetically with no request; a configured one (exact square root, vec_dim > 0) gives a unit vector |
| Waypoints.LastFrom | backend/src/database/index.ts:134 | the edge a run of inserts leaves from src is one of them with that source, and there is none exactly when no insert leaves src |
| Waypoints.InsAllEdges | backend/src/database/index.ts:133-135 | after a run of `insert or replace` statements, an edge is present iff it is the last inserted edge from its source, or no inserted edge leaves its source and it was present before; keys stay unique and other tables are unchanged |
| Waypoints.PairEdgesSources | backend/src/hsg/index.ts:187-258 | every inserted link leaves the memory or one of the linked nodes |
| Waypoints.PairEdgesForward | backend/src/hsg/index.ts:188-257 | only the last forward link from the memory survives: the one to the last node |
| Waypoints.PairEdgesBack | backend/src/hsg/index.ts:189-258 | every linked node keeps its link back to the memory, weight 0.5 |
| Waypoints.PairEdgesEffect | backend/src/hsg/index.ts:187-260 | linking both ways: no nodes change nothing; otherwise the memory's only outgoing edge goes to the last node, every node has an edge back, and edges from anywhere else are untouched |
| Waypoints.SectorNodes | backend/src/hsg/index.ts:188 | one `${primaryId}:${sector}` node per additional sector, in order |
| Waypoints.SectorNodesExclude | backend/src/hsg/index.ts:188 | a sector node is never the memory itself |
| Waypoints.CreateCrossSectorWaypoints | backend/src/hsg/index.ts:180-191 | the store afterwards is the old one with the two 0.5 edges per sector inserted in order |
| Waypoints.CrossStep | backend/src/hsg/index.ts:187-190 | one more sector inserts its forward and its backward edge |
| Waypoints.CrossSectorEdges | backend/src/hsg/index.ts:180-191 | (as written, src_id being the key) the memory keeps only its edge to the last sector's node, each sector node gets an edge back, other sources are untouched |
| Waypoints.BestMatchThrown | backend/src/hsg/index.ts:224-233 | once a stored mean vector fails to decode, the scan has thrown and the remaining rows change nothing |
| Waypoints.BestMatchDecodes | backend/src/hsg/index.ts:224-233 | the scan succeeds exactly when every candidate's stored mean vector decodes |
| Waypoints.NewBest | backend/src/hsg/index.ts:230-231 | a similarity ≥ 0.75 strictly above the best so far (or the first one) becomes the best |
| Waypoints.KeepBest | backend/src/hsg/index.ts:230 | a similarity not above the best so far leaves the best unchanged, so ties keep the earlier memory |
| Waypoints.BestMatchFacts | backend/src/hsg/index.ts:219-233 | no match means every candidate is below 0.75; a match is the first candidate with the strictly highest similarity, at least 0.75 |
| Waypoints.SingleWaypointFacts | backend/src/hsg/index.ts:214-238 | over the first 1000 memories (skipping newId and rows without a mean vector): success iff every candidate decodes; then either nothing changes and all are below 0.75, or newId's only edge is newId→best with weight = similarity; edges from other sources, and other tables, are untouched |
| Waypoints.Load | backend/src/hsg/index.ts:227 | reading a stored blob is Codec.Decode |
| Waypoints.FindBestMatch | backend/src/hsg/index.ts:222-233 | the loop computes exactly BestMatch |
| Waypoints.CreateSingleWaypoint | backend/src/hsg/index.ts:214-238 | the store applies SingleWaypoint: a decoding failure throws with the tables unchanged |
| Waypoints.InterScan | backend/src/hsg/index.ts:250-260 | the scan never links the new memory to itself |
| Waypoints.Compare | backend/src/hsg/index.ts:251-256 | comparing a row fails exactly when its blob does not decode (with that error) and otherwise says whether the similarity reaches 0.75 |
| Waypoints.InterScanThrown | backend/src/hsg/index.ts:250-260 | once a row fails to decode, the rest of the rows change nothing |
| Waypoints.InterScanMatches | backend/src/hsg/index.ts:250-260 | only matching rows are linked, and all of them when the scan does not throw |
| Waypoints.LinkBothWays | backend/src/hsg/index.ts:257-258 | the two inserts extend the run of link pairs by one |
| Waypoints.LinkMatches | backend/src/hsg/index.ts:250-260 | the loop inserts the link pairs of exactly the scanned matches, and fails iff the scan throws |
| Waypoints.CreateInterMemoryWaypoints | backend/src/hsg/index.ts:240-261 | the store afterwards is InterMemory of the old one (the rows of the primary sector scanned), failing iff a stored vector does not decode |
| Waypoints.LinkMatchesEdges | backend/src/hsg/index.ts:250-260 | every match gets an edge back to the new memory; no match leaves the tables unchanged; otherwise the new memory's only outgoing edge (the last one inserted) has weight 0.5 and leads to a match; other sources untouched |
| Waypoints.InterMemoryEdges | backend/src/hsg/index.ts:240-261 | the same over the primary sector's vector rows |
| Waypoints.UpdWaypointOthers | backend/src/database/index.ts:143 | an update leaves every other edge as it was |
| Waypoints.CappedKept | backend/src/hsg/index.ts:272-320 | inserting or updating with a weight ≤ 1 keeps every weight ≤ max_waypoint_weight |
| Waypoints.ContextBoost | backend/src/hsg/index.ts:272 | the new weight is min(1, w + 0.1): at most 1, no lower than w when w ≤ 1 |
| Waypoints.CreateContextualWaypoints | backend/src/hsg/index.ts:262-278 | the store afterwards is Contextual of the old one, one related id at a time |
| Waypoints.ContextStepEffect | backend/src/hsg/index.ts:268-277 | for a related id other than the memory, the edge memory→related afterwards weighs min(1, w + 0.1) if it existed and baseWeight otherwise; edges from other sources and the other tables are untouched |
| Waypoints.ContextStrengthens | backend/src/hsg/index.ts:271-273 | the update branch sets the existing edge's weight |
| Waypoints.ContextInserts | backend/src/hsg/index.ts:274-275 | the insert branch creates the edge with the base weight |
| Waypoints.ContextualKeeps | backend/src/hsg/index.ts:262-278 | with a base weight ≤ 1, contextual linking keeps keys unique, every weight ≤ 1 and the other tables unchanged |
| Waypoints.TraversalBoost | backend/src/hsg/index.ts:318-319 | min(max_waypoint_weight, w + waypoint_boost): at most 1, no lower than w |
| Waypoints.ReinforceWaypoints | backend/src/hsg/index.ts:311-323 | the store afterwards is Reinforce of the old one over the consecutive pairs of the path |
| Waypoints.ReinforceStepEffect | backend/src/hsg/index.ts:316-321 | an existing edge gets min(1, w + 0.05); a missing edge changes nothing; every edge keeps its place and does not lose weight; weights stay ≤ 1 |
| Waypoints.ReinforceKeeps | backend/src/hsg/index.ts:313-322 | reinforcing any prefix of the hops keeps keys unique and weights ≤ 1, and never weakens an edge |
| Waypoints.StrengthenedTrans | backend/src/hsg/index.ts:313-322 | strengthening composes over hops |
| Waypoints.ReinforceKeepsMemories | backend/src/hsg/index.ts:311-323 | reinforcing a path writes only the waypoint table |
| Waypoints.PruneWeakWaypoints | backend/src/hsg/index.ts:324-327 | the store afterwards keeps exactly the edges of weight ≥ 0.05, and the function returns 0 whatever it deleted |
| Waypoints.IdsSnoc | backend/src/hsg/index.ts:303-304 | adding an item adds its id to the visited set |
| Waypoints.ExpansionSnoc | backend/src/hsg/index.ts:294-307 | appending a justified item keeps the expansion well formed |
| Waypoints.VisitAdds | backend/src/hsg/index.ts:298-306 | one discovered neighbour extends the expansion, the visited set and the queue |
| Waypoints.Visit | backend/src/hsg/index.ts:293-307 | visiting a dequeued item adds only justified new items (new id, weight = parent·edge·0.8 ≥ 0.1, path = parent's + id), counts each, adds at most one per neighbour, and leaves the item closed |
| Waypoints.ExpandViaWaypoints | backend/src/hsg/index.ts:279-310 | the seeds come first with weight 1.0 and path [seed]; every later item is justified by an earlier one and has a new id; the expansion count stays within maxExpansions (the one neighbour per source cannot overshoot it); and when the budget is not used up every item is closed (its neighbours are reached or below 0.1) |
| Hsg.ReinforceMem | backend/src/hsg/index.ts:496-501 | `reinforceMemory` fails ('Memory … not found') exactly when no row has the id |
| Hsg.ReinforceMemEffect | backend/src/hsg/index.ts:499-500 | the row afterwards has last_seen_at = updated_at = now and salience min(1, s + boost) |
| Hsg.ReinforceMemOk | backend/src/hsg/index.ts:497-500 | a found row is updated through `upd_seen` with the boosted salience |
| Hsg.ReinforceMemOthers | backend/src/hsg/index.ts:496-501 | reinforcing changes no other row and no other table |
| Hsg.ReinforceMemory | backend/src/hsg/index.ts:496-501 | the store applies ReinforceMem: on a missing id the error and unchanged tables |
| Hsg.DecaySweep | backend/src/hsg/index.ts:421-432 | processed counts every fetched row and decayed never exceeds it |
| Hsg.SweepCounts | backend/src/hsg/index.ts:426-429 | decayed is 0 exactly when every row's decayed salience equals its salience, and then the tables are unchanged |
| Hsg.RunDecayProcess | backend/src/hsg/index.ts:419-433 | the store and the counters afterwards are RunDecay of the old store (the sweep over `all_mem(10000, 0)`) |
| Hsg.SweepRows | backend/src/hsg/index.ts:423-431 | the loop over the fetched rows computes exactly DecaySweep |
| Hsg.SweepOne | backend/src/hsg/index.ts:424-430 | one pass updates the row through `upd_seen` (keeping last_seen_at, setting updated_at = now) only when its salience changes, and counts it |
| Hsg.SweepPrefix | backend/src/hsg/index.ts:423-431 | the sweep over one more row is one more step |
| Hsg.SweepEffect | backend/src/hsg/index.ts:423-431 | the tables after a sweep are the old tables with each swept row replaced by its decayed form |
| Hsg.StepEffect | backend/src/hsg/index.ts:424-430 | one step keeps that relation one row further |
| Hsg.SweptKeyed | backend/src/hsg/index.ts:427 | the sweep keeps every id, so keys stay unique |
| Hsg.SweptStable | backend/src/hsg/index.ts:427 | (corrected) measured from updated_at, a swept row is stable at the same instant |
| Hsg.SweptCompounds | backend/src/hsg/index.ts:424-427 | (as written) measured from last_seen_at, which the sweep keeps, a swept row with positive salience, a known sector and elapsed time decays again at the same instant |
| Hsg.PageCoversAll | backend/src/hsg/index.ts:420 | with at most 10000 rows the sweep's page holds exactly the table's rows |
| Hsg.SweepAll | backend/src/hsg/index.ts:419-433 | every row of a table of at most 10000 rows is swept, and keys stay unique |
| Hsg.QuietWhenStable | backend/src/hsg/index.ts:426-431 | a sweep over stable rows decays nothing and changes nothing |
| Hsg.BusyWhenUnstable | backend/src/hsg/index.ts:426-429 | a sweep over a table with an unstable row decays something |
| Hsg.SecondSweepQuiet | backend/src/hsg/index.ts:419-433 | (corrected) a second sweep at the same instant decays nothing and changes nothing |
| Hsg.SecondSweepDecays | backend/src/hsg/index.ts:424-427 | (as written) a second sweep at the same instant decays the same row again, to a strictly lower salience |
| Hsg.Names | backend/src/hsg/index.ts:446 | the names of the sectors, in order |
| Hsg.InsVecs | backend/src/hsg/index.ts:471-474 | the `ins_vec` loop changes only the vector table |
| Hsg.InsVecsRows | backend/src/hsg/index.ts:471-474 | a completed loop keeps the old vector rows and holds one row per result |
| Hsg.Add | backend/src/hsg/index.ts:434-495 | a failed add leaves the tables exactly as they were (rollback); the embedding run is `embedMultiSector` as written when `ctx.reset` is false |
| Hsg.AddHSGMemory | backend/src/hsg/index.ts:434-495 | inside an open transaction BEGIN fails and nothing changes; otherwise the transaction is closed afterwards and the answer, requests and tables are exactly Add's |
| Hsg.Write | backend/src/hsg/index.ts:450-489 | the `try` block performs Add: same answer, same requests, and on success the tables Add describes |
| Hsg.EmbedAndPersist | backend/src/hsg/index.ts:470-480 | the embedding run's requests and errors pass through; on success the results have vec_dim entries and the store is the result of persisting them |
| Hsg.AddAfterInsert | backend/src/hsg/index.ts:454-489 | once the row is inserted, an add is the embedding run followed by persisting: an embedding or persisting error rolls everything back; success answers (id, primary, all sectors, chunk count) |
| Hsg.PersistVectors | backend/src/hsg/index.ts:471-480 | the method performs exactly Persist (vectors, mean vector, waypoint) |
| Hsg.InsertVectors | backend/src/hsg/index.ts:471-474 | the loop performs exactly InsVecs, throwing at the first refused insert |
| Hsg.InsVecsStopsAtError | backend/src/hsg/index.ts:471-474 | once an insert is refused, the loop's error is that insert's error |
| Hsg.Finish | backend/src/hsg/index.ts:476-480 | an empty result list fails as reading `vector` of undefined does; otherwise the store is the mean vector stored and the single waypoint created |
| Hsg.PersistRow | backend/src/hsg/index.ts:476-478 | after persisting, the memory row has mean_dim = vec_dim and mean_vec = the encoded weighted mean of the results |
| Hsg.PersistStoresVectors | backend/src/hsg/index.ts:471-474 | after persisting, every result has its vector row and the old rows remain |
| Hsg.AddRow | backend/src/hsg/index.ts:453-478 | a successful add answers its id, the id was free, and the stored row is (content, primary, tags \|\| null, metadata JSON, now ×3, salience clamp(0.4 + 0.1·additional, 0, 1), the primary's λ, version 1) with a mean vector of 4·vec_dim bytes |
| Hsg.AddVectors | backend/src/hsg/index.ts:446-487 | a successful add reports [primary, ...additional] and stored a vector row for every one of them |
| Hsg.PersistCovers | backend/src/hsg/index.ts:471-474 | every sector some result was embedded for gets a stored vector |
| Hsg.AddKeepsOthers | backend/src/hsg/index.ts:434-495 | an add changes no other memory's row |
| Hsg.PersistKeepsOthers | backend/src/hsg/index.ts:471-480 | persisting changes no other memory's row |
| Hsg.InsVecsRepeat | backend/src/hsg/index.ts:471-474 | two results for the same sector make the loop fail on the (id, sector) key |
| Hsg.InsVecsDistinct | backend/src/hsg/index.ts:471-474 | results with distinct sectors and no earlier rows for the id always insert, and store only those sectors |
| Hsg.TwoSectorClassify | backend/src/hsg/index.ts:118-152 | content scoring 2.6 for 'emotional' and 2.0 for 'semantic' classifies as emotional with semantic additional |
| Hsg.AddOneChunk | backend/src/hsg/index.ts:442-489 | for content that is one chunk, an add is the embedding run over the text followed by persisting, answering chunks = 1 |
| Hsg.PersistAlone | backend/src/hsg/index.ts:471-480 | results with distinct sectors, into a store without other rows for the id or other memories, persist without error |
| Hsg.FlakyAddSteps | backend/src/hsg/index.ts:434-495 | under the provider that fails its second request, an add of a two-sector content is that run followed by persisting |
| Hsg.RepeatedSectorRollsBack | backend/src/hsg/index.ts:470-494 | (as written) the partial results kept by the retry make `ins_vec` meet the same (id, sector) twice, so the add throws and rolls back everything |
| Hsg.FreshAddSucceeds | backend/src/hsg/index.ts:434-495 | (corrected) with results reset per attempt the same add succeeds, answering (id, 'emotional', both sectors, 1) |
| Hsg.FreshRunPersists | backend/src/hsg/index.ts:470-480 | the corrected run succeeds and its results persist |
| Hsg.BestMatchNone | backend/src/hsg/index.ts:224-225 | with no memory besides the new one, createSingleWaypoint finds no match |
| Query.SearchSectorsFacts | backend/src/hsg/index.ts:336-342 | a sector is searched exactly when it is a candidate that a given non-empty `filters.sectors` includes, or it is 'semantic' and no candidate passes the filter; the list is never empty |
| Query.QueryVectors | backend/src/hsg/index.ts:343-346 | the query embeddings come one per searched sector, and embedding only ever adds provider calls |
| Query.QueryVectorsFacts | backend/src/hsg/index.ts:343-346 | every query embedding has the configured dimension, and an unknown sector anywhere makes the query throw |
| Query.EmbedQueries | backend/src/hsg/index.ts:343-346 | the loop calling `embedForSector` for each sector gives the result and the provider calls of the specification |
| Query.QueryVectorsStop | backend/src/hsg/index.ts:343-346 | once one sector's embedding throws, no later sector is embedded and the error is the one thrown |
| Query.TopFacts | backend/src/hsg/index.ts:357-358 | sorting by descending key and slicing to k keeps min(k, n) elements of the input, in descending order, and every element left out scores no higher than every one kept |
| Query.TopExcludes | backend/src/hsg/index.ts:357-358 | an element left out of the top k never outranks one kept |
| Query.SimilaritiesFacts | backend/src/hsg/index.ts:350-356 | the scan of `get_vecs_by_sector` rows throws exactly when some row's blob does not decode, and otherwise gives one (id, cosine similarity) hit per row in row order |
| Query.SimilaritiesStep | backend/src/hsg/index.ts:352-356 | one more decoded row appends its hit to the similarities |
| Query.SimilaritiesStop | backend/src/hsg/index.ts:352-356 | a blob that fails to decode ends the scan with its error |
| Query.SectorSearchHits | backend/src/hsg/index.ts:347-359 | one sector's hits are sorted by descending similarity, at most k, and each is the cosine similarity of a stored vector of that sector |
| Query.SectorSearchBest | backend/src/hsg/index.ts:347-359 | a stored vector of the sector left out of the hits is no more similar than any hit kept |
| Query.SearchSector | backend/src/hsg/index.ts:349-358 | the inner loop over the sector's vector rows computes the specified hits |
| Query.SearchAll | backend/src/hsg/index.ts:347-359 | a successful search gives one hit list per searched sector |
| Query.SearchAllHits | backend/src/hsg/index.ts:347-359 | entry i holds the sector searched i-th and exactly the hits searching it with its query vector gives |
| Query.SearchAllStop | backend/src/hsg/index.ts:347-359 | the first failing sector's error ends the search |
| Query.SearchAllStep | backend/src/hsg/index.ts:347-359 | one more sector either fails the search or appends its hits |
| Query.SearchSectorsIn | backend/src/hsg/index.ts:347-359 | the loop over the searched sectors computes the specified per-sector hits |
| Query.FindHit | backend/src/hsg/index.ts:378 | `results.find` gives a similarity only for a hit with the id, and none exactly when no hit has it |
| Query.FindItem | backend/src/hsg/index.ts:384 | `expandedResults.find` gives an item with the id, drawn from the expansion |
| Query.FindItemFirst | backend/src/hsg/index.ts:384 | `find` gives the first item carrying the id |
| Query.BestSimilarityFacts | backend/src/hsg/index.ts:375-383 | the best similarity is at least 0, at least every sector's match for the memory, and either 0 or the similarity of some sector's match |
| Query.CandidateFacts | backend/src/hsg/index.ts:371-405 | a reached id yields an entry exactly when its memory exists and is not below a non-zero `minSalience`; the entry carries the memory's content, sector and last-seen time and the salience decayed to now |
| Query.EntryIds | backend/src/hsg/index.ts:396-405 | every entry built for an id carries that id |
| Query.CollectOf | backend/src/hsg/index.ts:370-406 | every entry of `finalResults` is the entry built for one of the reached ids |
| Query.CollectHas | backend/src/hsg/index.ts:370-406 | every reached id that yields an entry contributes it to `finalResults` |
| Query.CollectDistinct | backend/src/hsg/index.ts:370-406 | distinct reached ids give entries with distinct keys |
| Query.CandidatesOf | backend/src/hsg/index.ts:370-406 | every entry of `finalResults` belongs to a reached id and is the entry built for it |
| Query.CandidatesHas | backend/src/hsg/index.ts:370-406 | each reached memory that passes the checks appears in `finalResults` |
| Query.CandidatesDistinct | backend/src/hsg/index.ts:360-406 | since `allMemoryIds` is a Set, no memory has two entries |
| Query.BuildResults | backend/src/hsg/index.ts:370-406 | the loop over `allMemoryIds` builds the specified `finalResults` |
| Query.SeedCandidate | backend/src/hsg/index.ts:384-401 | a directly hit memory scores with waypoint weight 1 and the path of itself, since the expansion lists every seed first |
| Query.SeedsScoredDirect | backend/src/hsg/index.ts:384-401 | every returned memory that a sector hit directly has path [id] and the retrieval score of its best similarity with waypoint weight 1 |
| Query.ResultsRanked | backend/src/hsg/index.ts:407-408 | the answer is sorted by descending score, holds at most k entries, and no entry left out scores higher than one returned |
| Query.ResultsMembers | backend/src/hsg/index.ts:360-406 | every returned memory was hit or reached by the expansion, exists, passes the salience threshold, and carries its row's content, sector, last-seen time and decayed salience |
| Query.ResultIdsDistinct | backend/src/hsg/index.ts:360-408 | no memory is returned twice |
| Query.TouchRows | backend/src/hsg/index.ts:409-416 | the memory rows after the writes are the rows with each result's `upd_seen` applied in turn |
| Query.SeenRowsOthers | backend/src/hsg/index.ts:409-413 | marking the results seen leaves every other memory row unchanged |
| Query.SeenRowMarked | backend/src/hsg/index.ts:410-412 | each of distinct results has its row rewritten with last_seen_at = updated_at = now and salience min(1, decayed + 0.1) |
| Query.SeenRowsStepOther | backend/src/hsg/index.ts:410-412 | marking one result seen leaves the rows of other ids as they were |
| Query.SeenRowsLast | backend/src/hsg/index.ts:410-412 | the last result is marked on the row it had before the loop |
| Query.TouchFacts | backend/src/hsg/index.ts:409-416 | after the loop each returned memory's row holds now and its boosted salience, a missing one stays missing, and every other memory row is unchanged |
| Query.ResultsTouched | backend/src/hsg/index.ts:407-416 | every returned memory ends up seen at now with its boosted salience |
| Query.MarkSeen | backend/src/hsg/index.ts:409-416 | the loop over `topResults` runs `upd_seen` and, for a path of more than one id, `reinforceWaypoints`, giving the specified tables |
| Query.HsgQuery | backend/src/hsg/index.ts:330-418 | `hsgQuery`: an embedding or decoding error is thrown and writes nothing; otherwise the expansion is one `expandViaWaypoints` may return (at most 2k beyond the seeds, closed when under the limit), the answer is the top k of the scored reached memories, and the writes are exactly the `upd_seen`s and waypoint reinforcements of the answer |
| Js.DropNewlines | backend/src/ingestion/index.ts:30 | the text after the separator is a suffix of the input that does not start with a line feed, and only line feeds were dropped |
| Js.Paragraphs | backend/src/ingestion/index.ts:30 | `split(/\n\n+/)` gives at least one piece; the first is a prefix of the text, no piece contains two consecutive line feeds, and no piece borders a separator with a line feed |
| Js.JoinParagraphs | backend/src/ingestion/index.ts:30 | on text without a run of three line feeds, joining the paragraphs with a blank line gives the text back |
| Ingestion.AddPara | backend/src/ingestion/index.ts:39 | `cur += (cur ? '\n\n' : '') + para` grows the buffer by the paragraph plus a separator only when the buffer was non-empty |
| Ingestion.PackStep | backend/src/ingestion/index.ts:34-41 | one paragraph either flushes the non-empty buffer that would outgrow the section size and restarts it with the paragraph, or is appended to it |
| Ingestion.SplitIntoSections | backend/src/ingestion/index.ts:24-48 | the method with its paragraph loop returns the specified sections |
| Ingestion.PackParagraphs | backend/src/ingestion/index.ts:32-41 | the loop gives the trimmed flushed sections and the final buffer of the specification |
| Ingestion.PackCovers | backend/src/ingestion/index.ts:34-41 | the flushed groups and the final buffer hold every paragraph exactly once, in order, and the buffer is non-empty after any paragraph |
| Ingestion.PushCovers | backend/src/ingestion/index.ts:35-40 | one step keeps every paragraph in order and leaves a non-empty buffer |
| Ingestion.PackGroups | backend/src/ingestion/index.ts:35-37 | no flushed group is empty and none glues to the empty string |
| Ingestion.PackFlushRule | backend/src/ingestion/index.ts:35-37 | a group was flushed only because its buffer was non-empty and adding the next paragraph would have passed the section size |
| Ingestion.PackFitRule | backend/src/ingestion/index.ts:35-40 | every group, flushed or final, grew past its first paragraph only while its buffer plus the paragraph fitted the section size |
| Ingestion.GlueJoin | backend/src/ingestion/index.ts:39 | a buffer starting with a non-empty paragraph is the paragraphs joined with blank lines |
| Ingestion.SectionsTrimmed | backend/src/ingestion/index.ts:25-47 | a text no longer than the section size is one section as is; otherwise every section is trimmed and there is one per flushed group plus one for a non-blank final buffer |
| Ingestion.FinishTrimmed | backend/src/ingestion/index.ts:43-47 | the sections after the loop are trimmed, one per flushed group plus one for a non-blank buffer |
| Ingestion.GlueBound | backend/src/ingestion/index.ts:35-39 | a buffer that obeyed the fit rule is at most the section size plus a separator long, or is its last paragraph alone |
| Ingestion.SectionsBound | backend/src/ingestion/index.ts:24-48 | every section is at most the section size plus 2 characters long unless it is one oversized paragraph, trimmed |
| Ingestion.FinishBound | backend/src/ingestion/index.ts:34-47 | the size bound for the sections built from any list of paragraphs |
| Ingestion.FinishBoundOf | backend/src/ingestion/index.ts:34-47 | the size bound for every packing that covers the paragraphs and obeys the fit rule |
| Ingestion.FinishOne | backend/src/ingestion/index.ts:36-44 | the size bound for one trimmed section |
| Ingestion.FinishAt | backend/src/ingestion/index.ts:43-47 | section i is the trimmed glue of group i, a non-empty group obeying the fit rule |
| Ingestion.SectionBound | backend/src/ingestion/index.ts:35-44 | a non-empty buffer obeying the fit rule trims to at most the size plus 2, or to its last paragraph trimmed |
| Ingestion.OrElse | backend/src/ingestion/index.ts:143-144 | `value \|\| fallback` keeps a given non-zero value and falls back on a missing or zero one |
| Ingestion.UseRootChildFacts | backend/src/ingestion/index.ts:143-149 | the root-child strategy is used when forced, and otherwise exactly when the estimated tokens exceed the configured non-zero threshold or 8000; more tokens never switch it off |
| Ingestion.Summary | backend/src/ingestion/index.ts:55-57 | the summary is the text itself up to 500 characters, and otherwise its first 500 characters followed by '...' |
| Ingestion.RootCountIgnoresSectionSize | backend/src/ingestion/index.ts:25-59 | the root's section count divides by the fixed 3000 even when a configured section size keeps the text in one section |
| Ingestion.RootMetaFacts | backend/src/ingestion/index.ts:71-77 | the root metadata has one entry per key: is_root true, ingestion_strategy 'root-child', ingested_at the creation time, and every other key from the extraction metadata before the caller's |
| Ingestion.CreateRootMemory | backend/src/ingestion/index.ts:50-95 | `createRootMemory` inserts the reflective root row (salience 1.0, decay 0.1, version 1) in its own transaction and returns its id; a failed insert rolls back and throws, and so does a transaction already open |
| Ingestion.ChildMetaFacts | backend/src/ingestion/index.ts:104-110 | the child metadata is the caller's with is_child, section_index, total_sections and parent_id set |
| Ingestion.CreateChildMemory | backend/src/ingestion/index.ts:97-114 | `createChildMemory` is `addHSGMemory` of the section with empty tags and the child metadata, returning the new id |
| Ingestion.LinkRootToChild | backend/src/ingestion/index.ts:116-135 | `linkRootToChild` inserts the edge root to child with weight 1.0 in its own transaction; an open transaction makes it throw with nothing changed |
| Ingestion.InsWaypointOnly | backend/src/ingestion/index.ts:121-127 | since waypoints are keyed by their source, the insert leaves exactly one edge leaving the root and changes no memory |
| Ingestion.RoundsStop | backend/src/ingestion/index.ts:180-198 | once a round of the children loop has thrown, later rounds change nothing |
| Ingestion.RoundsNext | backend/src/ingestion/index.ts:180-198 | after successful rounds, one more round is one step |
| Ingestion.RoundsInvariant | backend/src/ingestion/index.ts:180-198 | a property kept by every round holds after any number of rounds |
| Ingestion.ChildrenStop | backend/src/ingestion/index.ts:180-198 | a child that fails stops the loop with its error |
| Ingestion.ChildrenStep | backend/src/ingestion/index.ts:181-191 | one round adds the child and, when that succeeds, records its id and links it from the root |
| Ingestion.AddChildRound | backend/src/ingestion/index.ts:181-191 | the method round gives the specified state and child ids |
| Ingestion.AddChildren | backend/src/ingestion/index.ts:180-198 | the loop over the sections gives the specified child ids, provider calls and tables |
| Ingestion.IngestExtraction | backend/src/ingestion/index.ts:143-212 | the shared body of both entry points performs exactly the specified ingestion, and throws with nothing changed inside an open transaction |
| Ingestion.IngestWhole | backend/src/ingestion/index.ts:151-166 | the single strategy is one `addHSGMemory` of the whole text |
| Ingestion.IngestSplit | backend/src/ingestion/index.ts:168-212 | the root-child strategy splits the text, inserts the root, then adds and links the children |
| Ingestion.SplitChildren | backend/src/ingestion/index.ts:176-212 | after the root row, the children are added and linked and the answer counts the sections |
| Ingestion.SplitRunRootFails | backend/src/ingestion/index.ts:176-211 | when the root row cannot be inserted the ingestion throws with nothing changed |
| Ingestion.SplitRunAfterRoot | backend/src/ingestion/index.ts:176-212 | once the root row is in, the ingestion throws as the children loop does, or answers root-child with the section count |
| Ingestion.IngestDocument | backend/src/ingestion/index.ts:137-213 | `ingestDocument` uses the caller's metadata for both strategies |
| Ingestion.IngestUrl | backend/src/ingestion/index.ts:215-293 | `ingestURL` is the same ingestion with source_url added to the root and child metadata but not to the single memory's |
| Ingestion.AddStores | backend/src/ingestion/index.ts:112 | a successful `addHSGMemory` stores the content and metadata under the new id, which was not present before |
| Ingestion.AddChildKeeps | backend/src/ingestion/index.ts:182-188 | adding a child changes no memory that was already there |
| Ingestion.AddChildStores | backend/src/ingestion/index.ts:182-188 | a successful child add stores its section and child metadata under a new id |
| Ingestion.RoundMemories | backend/src/ingestion/index.ts:189-191 | linking the root to a child leaves the memories as the child add left them |
| Ingestion.RoundKeeps | backend/src/ingestion/index.ts:181-191 | a round keeps every memory present before it |
| Ingestion.ChildrenKeep | backend/src/ingestion/index.ts:180-198 | the children loop keeps every memory present before it, the root included |
| Ingestion.RoundStores | backend/src/ingestion/index.ts:181-191 | a round after k successful ones stores child k and keeps the earlier children |
| Ingestion.StoredRound | backend/src/ingestion/index.ts:181-191 | a stored child and its link extend the children stored so far |
| Ingestion.ChildrenStored | backend/src/ingestion/index.ts:180-198 | after i rounds, child k is stored under its id with section k and its child metadata |
| Ingestion.RoundLastEdge | backend/src/ingestion/index.ts:191 | after a successful round the root's only outgoing edge is the one to that round's child |
| Ingestion.ChildrenLastEdge | backend/src/ingestion/index.ts:180-198 | after i successful rounds the root's only outgoing edge leads to the i-th child |
| Ingestion.ChildrenAfter | backend/src/ingestion/index.ts:180-198 | the same for the round after j |
| Ingestion.LastEdgeRound | backend/src/ingestion/index.ts:189-191 | a successful round leaves the root with the edge to its child only |
| Ingestion.IngestSingle | backend/src/ingestion/index.ts:151-166 | below the threshold, success stores the whole text with the single-strategy metadata and answers 0 children; failure leaves the tables unchanged |
| Ingestion.IngestKeepsRoot | backend/src/ingestion/index.ts:176-177 | with the root-child strategy, the root row stays as inserted whatever happens to the children |
| Ingestion.IngestRootChild | backend/src/ingestion/index.ts:168-208 | a successful root-child ingestion stores the root and every section as a child under its id, answers the section count, and leaves the root with only the edge to the last child |
| LangGraph.Truncate | backend/src/langgraph/index.ts:56-58 | text within the limit is kept; longer text becomes its first max characters with trailing white space removed, followed by '...' |
| LangGraph.NodeSector | backend/src/langgraph/index.ts:45-51 | `NODE_SECTOR_MAP` has an entry exactly for the five node names |
| LangGraph.NodesCoverSectors | backend/src/langgraph/index.ts:45-51 | every sector is the sector of exactly one node, so the map is a bijection between the nodes and the five sectors |
| LangGraph.ResolveSector | backend/src/langgraph/index.ts:69-70 | (corrected) a node whose lower-cased name is in the map resolves to its sector, and any other node to 'semantic' |
| LangGraph.ConstructorIsNotASector | backend/src/langgraph/index.ts:69-70 | (as written) the node 'Constructor' finds the inherited `Object.prototype.constructor` through the map, which `??` does not replace, while the corrected lookup gives 'semantic' |
| LangGraph.ResolveSectorAgrees | backend/src/langgraph/index.ts:69-70 | for every node whose lower-cased name is not an inherited property the lookup as written and the corrected one agree |
| LangGraph.ResolveNamespace | backend/src/langgraph/index.ts:72 | a given non-empty namespace is kept, and otherwise the configured default is used |
| LangGraph.BuildTagsFacts | backend/src/langgraph/index.ts:74-80 | the tags are distinct, are exactly the caller's tags plus the node, namespace and (when given) graph tags, and keep the order of first insertion into the Set |
| LangGraph.BuildMetadataFacts | backend/src/langgraph/index.ts:82-103 | the metadata keeps every caller key but 'lgm', whose object carries the lower-cased node, the sector name, the namespace, the graph id or null, the store time and mode 'langgraph', over any keys of an existing `lgm` object |
| LangGraph.LgmFieldsGet | backend/src/langgraph/index.ts:92-101 | the six `lgm` fields read back as written, and no other key is set |
| LangGraph.MetadataMatches | backend/src/langgraph/index.ts:105-115 | built metadata matches its own namespace with or without its graph id, never another namespace, and never a different given graph id |
| LangGraph.MatchesLgm | backend/src/langgraph/index.ts:105-115 | the same for any metadata whose `lgm` object carries that namespace and graph id |
| LangGraph.Reparse | backend/src/langgraph/index.ts:60-67 | `safeParseJson` reads back metadata whose JSON text round-trips as that metadata, not the `{}` fallback |
| LangGraph.MetaFound | backend/src/langgraph/index.ts:105-115 | stored metadata text with an `lgm` namespace and graph id, whose JSON round-trips, is found in that namespace and graph, and never in another namespace |
| LangGraph.AddWithRow | backend/src/langgraph/index.ts:213 | a successful `addHSGMemory` stores the metadata text under a new id and a failed one changes nothing; no other memory row changes |
| LangGraph.StoreFacts | backend/src/langgraph/index.ts:203-236 | `storeNodeMemory` throws 'node and content are required' with nothing changed when node or content is missing; on success it answers the lower-cased node, resolved namespace, built tags and metadata, stores them, and adds an automatic reflection exactly when `reflective ?? lg_reflective` holds and the node is not 'reflect' |
| LangGraph.StoreNodeMemory | backend/src/langgraph/index.ts:203-236 | the method performs exactly the specified store, and inside an open transaction throws with nothing changed |
| LangGraph.ReflectionMetaFacts | backend/src/langgraph/index.ts:173-184 | the reflection's `lgm` object names node 'reflect', the namespace, the graph id or null, the source memory and the lower-cased source node |
| LangGraph.AutoReflectionRow | backend/src/langgraph/index.ts:159-201 | an automatic reflection keeps the source row, stores its own metadata under a different id, and names the source memory; a failed one changes nothing |
| LangGraph.CreateAutoReflection | backend/src/langgraph/index.ts:159-201 | the method adds the specified reflection memory |
| LangGraph.StoredIsFound | backend/src/langgraph/index.ts:203-236 | a stored memory (and its reflection) is found by `matchesNamespace` in its namespace and graph, and not in another namespace, when the two metadata values it writes round-trip through JSON |
| LangGraph.HydrateAll | backend/src/langgraph/index.ts:117-145 | one hydrated item per row kept |
| LangGraph.HydrateAllAt | backend/src/langgraph/index.ts:117-145 | item i is candidate i's hydrated row |
| LangGraph.HydrateSnoc | backend/src/langgraph/index.ts:117-145 | hydrating one more row appends its item |
| LangGraph.Kept | backend/src/langgraph/index.ts:255-259 | the candidates kept are at most all of them and each has a row |
| LangGraph.KeptMembers | backend/src/langgraph/index.ts:255-259 | a candidate is kept exactly when its row exists and its metadata matches the namespace (and graph) |
| LangGraph.KeptPrefix | backend/src/langgraph/index.ts:255-259 | keeping from a prefix gives a prefix of what is kept from the whole |
| LangGraph.KeptNext | backend/src/langgraph/index.ts:255-259 | one more candidate is appended exactly when it is kept |
| LangGraph.Taken | backend/src/langgraph/index.ts:255-262 | the loop takes at most max(limit, 1) candidates, each with a row |
| LangGraph.GatherNext | backend/src/langgraph/index.ts:255-262 | below the cap, one more candidate appends its hydrated row exactly when it is kept |
| LangGraph.GatherFull | backend/src/langgraph/index.ts:262 | once the items reach the limit the loop stops and the rest is not looked at |
| LangGraph.GatherWhole | backend/src/langgraph/index.ts:255-262 | the whole of the candidates is their full prefix |
| LangGraph.Collect | backend/src/langgraph/index.ts:255-272 | the loop with its `break` collects the specified items |
| LangGraph.GatheredFacts | backend/src/langgraph/index.ts:255-272 | at most max(limit, 1) items, each the hydrated row of a kept candidate, carrying matching metadata when asked for; when fewer than the cap, every kept candidate is there |
| LangGraph.BrowseSorted | backend/src/langgraph/index.ts:265-273 | without a query the answer is a permutation of the gathered rows of `all_mem_by_sector(sector, limit * 4, 0)`, sorted by `last_seen_at` latest first, and at most the cap |
| LangGraph.RetrieveNodeMemories | backend/src/langgraph/index.ts:238-285 | `retrieveNodeMemories` throws 'node is required' without a node; without a query it browses the sector and writes nothing; with one it runs `hsgQuery` on the node's sector for max(2·limit, limit) and keeps the matches in the namespace |
| LangGraph.PerNodeLimit | backend/src/langgraph/index.ts:292 | each node gets at least one item, and the five shares fit in a limit of at least five |
| LangGraph.Contexts | backend/src/langgraph/index.ts:294-308 | one context per node |
| LangGraph.ItemLines | backend/src/langgraph/index.ts:310-315 | one line per item of a node |
| LangGraph.Bullets | backend/src/langgraph/index.ts:318 | one bullet per line |
| LangGraph.MapNodesPointwise | backend/src/langgraph/index.ts:294-308 | a list that agrees with the per-node retrieval at every node is the node contexts |
| LangGraph.MapNodesSnoc | backend/src/langgraph/index.ts:303-307 | one more node retrieved extends the agreeing prefix |
| LangGraph.MapNodesAt | backend/src/langgraph/index.ts:294-308 | context i is node i's retrieval |
| LangGraph.LinesBound | backend/src/langgraph/index.ts:310-315 | contexts of at most m items each flatten to at most m lines per node |
| LangGraph.NodeContextBound | backend/src/langgraph/index.ts:296-302 | a node retrieved for the context holds at most the per-node limit of items |
| LangGraph.ContextsFacts | backend/src/langgraph/index.ts:294-315 | context i names node i and its sector and holds at most the per-node limit of items, so the lines number at most nodes × limit |
| LangGraph.GraphContextBounds | backend/src/langgraph/index.ts:287-328 | `getGraphContext` answers one context per node of the map, in order, each with its sector and at most `perNodeLimit` items; the summary takes at most `limit` lines and, for a limit of at least five, all of them |
| LangGraph.GraphContextOverBounds | backend/src/langgraph/index.ts:287-328 | the same over the node list itself |
| LangGraph.SummaryCut | backend/src/langgraph/index.ts:317-319 | the summary's slice holds at most `limit` lines and all of them once the limit covers the per-node shares |
| LangGraph.LowerNode | backend/src/langgraph/index.ts:291-297 | the node names are already lower case |
| LangGraph.RetrieveNodeContext | backend/src/langgraph/index.ts:296-307 | one iteration retrieves the node without a query and writes nothing |
| LangGraph.RetrieveContexts | backend/src/langgraph/index.ts:294-308 | the loop over the nodes gives the specified contexts and writes nothing |
| LangGraph.GetGraphContext | backend/src/langgraph/index.ts:287-328 | the method gives the specified graph context and leaves the store and provider untouched |
| LangGraph.Numbered | backend/src/langgraph/index.ts:346 | one numbered line per context line |
| LangGraph.BuildContextReflection | backend/src/langgraph/index.ts:330-349 | `buildContextReflection` gives none for an empty context and otherwise the header and numbered lines, writing nothing |
| LangGraph.ReflectFacts | backend/src/langgraph/index.ts:351-375 | `createReflection` throws 'reflection content could not be derived' with nothing changed when neither content nor a context reflection exists; otherwise it stores the content under the node (default 'reflect') without an automatic reflection, tagged 'lgm:manual:reflection' and 'lgm:context:' for each context id |
| LangGraph.ReflectStored | backend/src/langgraph/index.ts:359-372 | the store request of a manual reflection is valid, never reflects, and its stored tags keep the manual and context tags |
| LangGraph.ManualTagsKept | backend/src/langgraph/index.ts:74-80 | building the tags of a manual reflection keeps its own tag and every context tag |
| LangGraph.CreateReflection | backend/src/langgraph/index.ts:351-375 | the method performs exactly the specified reflection |
| Js.SliceFrom | backend/src/utils/chunking.ts:67 | `slice(start)` with a negative start takes that many elements from the end, clamped to the whole; the result is always a suffix |
| Js.SliceTo | backend/src/hsg/index.ts:358 | `slice(0, end)` keeps the first min(end, n) elements, a negative end counting from the back; the result is always a prefix |
| Js.TrimEnd | backend/src/langgraph/index.ts:58 | `trimEnd` removes exactly the trailing white space: a prefix that does not end in white space, followed in the input only by white space |
| Js.Trim | backend/src/ingestion/index.ts:36 | `trim` gives a contiguous piece of the input with no white space at either end, and everything cut off before and after it is white space |
| Js.TrimPadded | backend/src/ingestion/index.ts:36 | the piece `trim` keeps starts where `trimStart` stops dropping leading white space, and only white space surrounds it |
| Js.TrimIdempotent | backend/src/ingestion/index.ts:36-44 | trimming twice is trimming once |
| Js.Dedup | backend/src/embedding/index.ts:74 | the keys of a record built from a list hold every element once and nothing else |
| Js.DedupKeepsFirstOccurrenceOrder | backend/src/langgraph/index.ts:75-79 | `Array.from(new Set(xs))` keeps the order of first occurrences |
| Js.FilterContains | backend/src/hsg/index.ts:338 | `filter` keeps an element exactly when it occurs in the input and passes |
| Json.PutGet | backend/src/langgraph/index.ts:92 | assigning a property sets it and leaves every other property as it was |
| Json.SpreadGet | backend/src/ingestion/index.ts:71-77 | in `{ ...a, ...b }` a property of b wins over one of a, and the names stay unique |
| Sorting.SortDescSorted | backend/src/hsg/index.ts:137 | sorting by a descending comparator gives a permutation of the input in descending key order |
| Sorting.SortHeadIsFirstMax | backend/src/hsg/index.ts:137-139 | the sort is stable: its head is the first element with the largest key |
| Sorting.SortFacts | backend/src/hsg/index.ts:407 | sorting a list without repeats gives the same elements, sorted, without repeats |
| Numeric.CeilDiv | backend/src/ingestion/index.ts:59 | `Math.ceil(n / d)` is the least r with n <= r·d |

## Left out

- Hsg.Add: requires `Hsg.ValidContext`, which includes `Embedding.Uniform`: every provider reply has `vec_dim` entries. For OpenAI with `vec_dim` above 1536, `embedWithOpenAI` and `embedBatchOpenAI` (`backend/src/embedding/index.ts:57`, `:84`) send no `dimensions` and never resize. Their replies of 1536 or 3072 entries, and the mixed-length vectors that follow, are outside the model.
- Hsg.AddRow: the stated mean-vector size of 4·`vec_dim` bytes rests on the `Uniform` hypothesis of `Hsg.Add`.
- Hsg.AddHSGMemory: the same `Uniform` hypothesis as `Hsg.Add`.
- Hsg.Write: the same `Uniform` hypothesis as `Hsg.Add`.
- Embedding.MultiSector: the same `Uniform` hypothesis, for the reason given under `Hsg.Add`.
- Embedding.Retry: the same `Uniform` hypothesis as `Embedding.MultiSector`.
- Embedding.AttemptOnce: the same `Uniform` hypothesis as `Embedding.MultiSector`.
- Embedding.SectorsRun: the same `Uniform` hypothesis as `Embedding.MultiSector`.
- Embedding.ParallelRun: the same `Uniform` hypothesis as `Embedding.MultiSector`.
- Embedding.ParallelAgrees: the same `Uniform` hypothesis as `Embedding.MultiSector`.
- Embedding.SectorVector: the same `Uniform` hypothesis as `Embedding.MultiSector`.
- Embedding.EmbedMultiSector: the same `Uniform` hypothesis as `Embedding.MultiSector`.
- Embedding.RunAttempt: the same `Uniform` hypothesis as `Embedding.MultiSector`.
- Embedding.RunBatch: the same `Uniform` hypothesis as `Embedding.MultiSector`.
- Embedding.RunParallel: the same `Uniform` hypothesis as `Embedding.MultiSector`.
- Embedding.EmbedSector: the same `Uniform` hypothesis as `Embedding.MultiSector`.
- Embedding.MultiSectorDims: the dimension it states holds only under the `Uniform` hypothesis.
- Ingestion.IngestDocument: inherits the `Uniform` hypothesis through `Hsg.ValidContext`.
- Ingestion.IngestUrl: inherits the `Uniform` hypothesis through `Hsg.ValidContext`.
- Ingestion.CreateChildMemory: inherits the `Uniform` hypothesis through `Hsg.ValidContext`.
- LangGraph.StoreNodeMemory: inherits the `Uniform` hypothesis through `Hsg.ValidContext`.
- LangGraph.CreateReflection: inherits the `Uniform` hypothesis through `Hsg.ValidContext`.
- Query.QueryVectorsFacts: inherits the `Uniform` hypothesis through `Hsg.ValidContext`.
- Vectors.CalculateMeanVector: requires `ResultsAtLeast`, so no later vector may be shorter than the first. With a shorter one, the source reads past its end, adds `undefined` and produces `NaN` entries, which reals cannot represent.
- Vectors.MeanPool: requires `AllAtLeast` for the same reason. This covers `aggregateChunkVectors` and `aggregateVectors`, whose mixed-length input gives `NaN` entries.
- Sectors.Parse: `SECTOR_CONFIGS[name]` (`backend/src/hsg/index.ts:155`, `backend/src/embedding/index.ts:16`) is a plain object lookup. A name inherited from `Object.prototype`, such as `toString` or `constructor`, therefore finds a function and passes the `!config` test. The model treats such names as unknown. No core caller can pass one: `addHSGMemory`, `hsgQuery` and `embedMultiSector` use only classified sectors (`Sectors.Classify` yields registered sectors), and the decay sweep reads a `primary_sector` written from a classification.
- Sectors.CalculateDecay: for an inherited name the source takes the known-sector branch with an undefined `decay_lambda` and returns `NaN`, while the model returns the salience unchanged. As explained under `Sectors.Parse`, no core caller reaches this case.
- Embedding.EmbedFor: for an inherited name the source does not throw. In synthetic mode its seed lookup (`backend/src/embedding/index.ts:235-241`) finds a function, so every entry is `NaN`; local mode returns a hash vector. The model fails with `Unknown sector`. As explained under `Sectors.Parse`, no core caller reaches this case.
- Embedding.EmbedForSector: performs `Embedding.EmbedFor`, so for an inherited sector name it fails with `Unknown sector` where the source does not throw.
- Embedding.Synthetic: the seed `{…}[sector] || 0.17` is taken for the five sectors and 0.17 for every other name. An inherited name, which would give `NaN`, is outside the model (see `Sectors.Parse`).
- Codec.OffsetError: Node prints an offset above 2^32 with `_` digit separators. The model prints plain digits; such buffers are far beyond any stored vector.
- Numeric.Math: JavaScript numbers are IEEE 754 doubles. The model uses exact reals: no rounding, overflow, infinities or `NaN`. Binary32 rounding of stored vectors is kept, as `Codec.Binary32`.
- Numeric.ExactSqrt: `Math.sqrt` is exact only under this hypothesis. Lemmas about norms (`Embedding.UnitNorm`) assume it; all other members do not.
- Hsg.ReinforceMemory: one `now` stands for every `Date.now()` call inside one operation. This covers `upd_seen` at `backend/src/hsg/index.ts:412`, `:427` and `:500`, and every timestamp of `Query.HsgQuery`, `Hsg.AddHSGMemory` and the ingestion and LangGraph operations. In the source, two calls in one operation can read different instants.
- Chunking.EstimateTokens: string length is a count of Dafny characters, not of UTF-16 code units. Text outside the Basic Multilingual Plane therefore gets different token estimates, chunk sizes and section sizes than in the source.
- Js.ToLower: lower-cases ASCII letters only. Full Unicode case mapping is not modelled.
- Js.ToUpper: upper-cases ASCII letters only, for the same reason.
- Embedding.Gemini: the `geminiQueue` chaining, the `retry-after` back-off delays and the 1500 ms cool-down (`backend/src/embedding/index.ts:103-168`) only wait, so they are left out. The three attempts, the 429 retry and the synthetic fallback are kept, in order.
- Embedding.SectorsRun: the `embed_delay_ms` pause between sectors (`backend/src/embedding/index.ts:346-347`) is left out, since it only waits.
- Embedding.ParallelRun: the parallel advanced mode (`Promise.all`, `backend/src/embedding/index.ts:311-328`) issues every sector's requests, as the source does, but one after another. The interleaving of requests across sectors is not modelled, and neither are requests still running when the next retry attempt starts. The error thrown is the first in sector order; `Promise.all` throws the first to settle in time, which depends on the provider's timing. `Embedding.RunParallel` inherits both.
- Waypoints.CreateContextualWaypoints: the default `baseWeight = 0.3` is a parameter that every caller supplies.
- Db.AllMemBySector: SQLite leaves the order of rows with equal sort keys unspecified. The model takes the stable order, which is rowid order. The same holds for every `order by` statement.
- Console logging (`console.log`, `warn`, `error`) is dropped everywhere.
- Text extraction (`backend/src/ingestion/extractors.ts`: PDF, DOCX, HTML, URL fetching) is not part of this model. An extraction is a parameter of `Ingestion.IngestDocument` and `Ingestion.IngestUrl`.
- Provider request bodies are not modelled. This covers `getSectorTaskType`, the model names and the headers. A request is only counted and answered by the reply oracle. `getEmbeddingProvider`, `embed` and `emb_dim` are one-line delegations and are left out too.
- `JSON.stringify`/`JSON.parse` are the pair of functions `Json.Codec`, left unspecified. Where a proof needs a text to be read back, it assumes so only for the values actually written (`Json.RoundTrips`): the stored metadata and the reflection's metadata (`LangGraph.StoredMetaRoundTrips`). Numbers are reals here, so no codec could round-trip every value; `JSON.stringify` rounding a number to a double is not modelled.
- `crypto.randomUUID()` is the id parameter of every add. Uniqueness of ids comes only from the insert's primary-key check.
- `generateSyntheticEmbedding` uses `Math.sin`, an abstract function, and `embedWithLocal` uses SHA-256, another abstract function supplied in `Embedding.Runtime`. Only their lengths and the normalisation are stated.
- LangGraph.RetrieveNodeContext: requires a non-empty node. Every caller passes one of the five fixed node names.
- LangGraph.BuildMetadata: the `extras` argument is left out, because no caller passes it.
- LangGraph.GetGraphContext: the summary text is specified by `LangGraph.Summary`. Its bounds are proved on the lines (`LangGraph.GraphContextBounds`), not on characters.
- The HTTP endpoints (`registerLangGraphEndpoints`), `getLangGraphConfig`, the server, the scheduler, configuration loading and the client SDKs are wiring or I/O, so they are not modelled.
- Db.GetFailedLogs: the statement `get_failed_logs` is modelled without a contract of its own, because no core operation reads it.

## Findings

| source | as written | input that shows it | evidently intended | confidence | as-written member | corrected member |
|---|---|---|---|---|---|---|
| backend/src/embedding/index.ts:280 | `results` is declared once, before the retry loop. The sectors an attempt embedded before it failed stay in `results`, and the next attempt pushes them again. | The provider answers the second request with status 500 and every other request with a two-entry vector. Ollama, advanced mode, `vec_dim` 2, sectors `emotional` and `semantic`. The run succeeds with sectors `emotional`, `emotional`, `semantic`. | Each attempt starts from an empty `results`, so the run returns one result per sector. | not executed | Embedding.PartialResultsPersist | Embedding.FreshResultsPerAttempt |
| backend/src/hsg/index.ts:470-474 | Every result returned by `embedMultiSector` is inserted with `ins_vec`. A repeated sector gives a second insert with the same `(id, sector)` key, which throws and rolls back the whole add. | The same flaky provider, with content that classifies as `emotional` with `semantic` as its additional sector. `addHSGMemory` fails and the store is left unchanged. | The add stores one vector per sector and succeeds. | not executed | Hsg.RepeatedSectorRollsBack | Hsg.FreshAddSucceeds |
| backend/src/hsg/index.ts:427 | The decay sweep measures elapsed days from `last_seen_at`, and `upd_seen` writes `last_seen_at` back unchanged. A second sweep at the same instant decays the same row again. | A row with positive salience, a known sector and `last_seen_at` before `now`. Two sweeps at `now` both report `decayed > 0`, and the second lowers the salience again. | Decay is measured from the last update, so a second sweep at the same instant changes nothing. | not executed | Hsg.SecondSweepDecays | Hsg.SecondSweepQuiet |
| backend/src/langgraph/index.ts:69-70 | `NODE_SECTOR_MAP[node.toLowerCase()]` is a plain object lookup. For `constructor` it finds `Object.prototype.constructor`, which `??` does not replace by the default sector. | The node name `Constructor`. | Every node without its own entry in the map resolves to `semantic`. | not executed | LangGraph.ConstructorIsNotASector | LangGraph.ResolveSector |
