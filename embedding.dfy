/** The embedding layer: the per-sector dispatch to the configured provider,
    the Gemini batch path with its three attempts and synthetic fallback, the
    OpenAI and Ollama calls, the local and synthetic generators, the
    multi-sector retry loop that writes the embed log, and the configuration
    report. Every HTTP request is answered by an oracle: the n-th request the
    process makes gets `reply(n)`. */
module Embedding {
  import opened Wrappers
  import opened Numeric
  import Js
  import Codec
  import Sectors
  import Vectors
  import Db
  import Database

  /** The embedding settings of `env`; an unset key or path is the empty string. */
  datatype Env = Env(
    kind: string, mode: string, vecDim: nat, openaiKey: string, geminiKey: string,
    ollamaUrl: string, localPath: string, advParallel: bool, embedDelayMs: int)

  /** The library functions the generators call: `Math` and the SHA-256 digest of `crypto`. */
  datatype Runtime = Runtime(math: Math, sha256: string -> seq<Codec.Byte>)

  ghost predicate ValidRuntime(rt: Runtime)
  {
    ValidMath(rt.math) && forall s :: |rt.sha256(s)| == 32
  }

  /** An embedding endpoint's answer: the HTTP status and the vectors of the
      body, in order (a body without them has none). */
  datatype Reply = Reply(status: nat, statusText: string, embeddings: seq<seq<real>>)

  /** `response.ok`. */
  predicate IsOk(r: Reply)
  {
    200 <= r.status <= 299
  }

  /** The providers answer with vectors of `dim` entries, the dimension every
      request asks for. */
  ghost predicate Uniform(reply: nat -> Reply, dim: nat)
  {
    forall n, k :: 0 <= k < |reply(n).embeddings| ==> |reply(n).embeddings[k]| == dim
  }

  /** The network as the embedding layer sees it: each `fetch` takes the next answer. */
  class Network {
    const reply: nat -> Reply
    var calls: nat

    constructor(reply: nat -> Reply)
      ensures this.reply == reply && calls == 0
    {
      this.reply := reply;
      calls := 0;
    }

    method Fetch() returns (r: Reply)
      modifies this
      ensures calls == old(calls) + 1 && r == reply(old(calls))
    {
      r := reply(calls);
      calls := calls + 1;
    }
  }

  /** What a provider call gives back, and how many requests have been made after it. */
  datatype Call<T> = Call(result: Result<T>, calls: nat)

  function ApiError(provider: string, r: Reply): string
  {
    provider + " API error: " + Js.NatToString(r.status) + " " + r.statusText
  }

  /** The `TypeError` of reading a property of `undefined`. */
  function Undefined(property: string): string
  {
    "Cannot read properties of undefined (reading '" + property + "')"
  }

  // ---- generateSyntheticEmbedding -------------------------------------------------

  /** The per-sector seed; the `|| 0.17` fallback covers unknown sectors. */
  function SectorSeed(sector: string): real
  {
    match Sectors.Parse(sector)
    case Some(Episodic) => 0.13
    case Some(Semantic) => 0.17
    case Some(Procedural) => 0.19
    case Some(Emotional) => 0.23
    case Some(Reflective) => 0.29
    case None => 0.17
  }

  /** `x % 1` on a JavaScript number: what is left after dropping the integer
      part, with the sign of `x`. */
  function Frac(x: real): (r: real)
    ensures -1.0 < r < 1.0
    ensures x >= 0.0 ==> 0.0 <= r && (x - r).Floor as real == x - r
    ensures x < 0.0 ==> r <= 0.0
    ensures x < 0.0 ==> (x - r).Floor as real == x - r
  {
    if x >= 0.0 then x - x.Floor as real
    else
      var k := (-x).Floor;
      assert x - (x + k as real) == (-k) as real;
      assert ((-k) as real).Floor == -k;
      x + k as real
  }

  function SyntheticEntry(m: Math, text: string, sector: string, i: nat): real
  {
    Frac(m.sin(i as real * 0.7 + |text| as real * SectorSeed(sector) + |sector| as real * 0.11))
  }

  /** The synthetic embedding: `vec_dim` entries, each strictly between -1 and 1. */
  function Synthetic(env: Env, m: Math, text: string, sector: string): (v: seq<real>)
    ensures |v| == env.vecDim
    ensures forall i :: 0 <= i < |v| ==> -1.0 < v[i] < 1.0
  {
    seq(env.vecDim, i requires 0 <= i < env.vecDim => SyntheticEntry(m, text, sector, i))
  }

  /** `generateSyntheticEmbedding`. */
  method GenerateSyntheticEmbedding(env: Env, m: Math, text: string, sector: string) returns (v: seq<real>)
    ensures v == Synthetic(env, m, text, sector)
  {
    var a := new real[env.vecDim];
    for i := 0 to env.vecDim
      invariant forall j :: 0 <= j < i ==> a[j] == SyntheticEntry(m, text, sector, j)
    {
      a[i] := Frac(m.sin(i as real * 0.7 + |text| as real * SectorSeed(sector) + |sector| as real * 0.11));
    }
    v := a[..];
  }

  // ---- embedWithLocal ---------------------------------------------------------------

  /** Entry `i` before normalisation: two digest bytes read as a 16-bit number,
      mapped onto [-1, 1]. */
  function LocalRaw(h: seq<Codec.Byte>, i: nat): real
    requires |h| > 0
  {
    (h[i % |h|] as int * 256 + h[(i + 1) % |h|] as int) as real / 65535.0 * 2.0 - 1.0
  }

  function LocalValues(h: seq<Codec.Byte>, d: nat): (r: seq<real>)
    requires |h| > 0
    ensures |r| == d
  {
    seq(d, i requires 0 <= i < d => LocalRaw(h, i))
  }

  /** `v.map(val => val / norm)`. */
  function Normalized(a: seq<real>, n: real): (r: seq<real>)
    requires n != 0.0
    ensures |r| == |a|
  {
    seq(|a|, i requires 0 <= i < |a| => a[i] / n)
  }

  /** What `embedWithLocal` returns: the synthetic embedding when no model path
      is set, otherwise the digest-derived vector divided by its norm, which is
      a unit vector. */
  function LocalEmbedding(env: Env, rt: Runtime, text: string, sector: string): (v: seq<real>)
    requires ValidRuntime(rt)
    ensures |v| == env.vecDim
    ensures env.localPath == "" ==> v == Synthetic(env, rt.math, text, sector)
    ensures env.localPath != "" && env.vecDim > 0 && ExactSqrt(rt.math) ==> Vectors.Dot(v, v) == 1.0
  {
    if env.localPath == "" then Synthetic(env, rt.math, text, sector)
    else if env.vecDim == 0 then []
    else
      var h := rt.sha256(text + sector);
      var raw := LocalValues(h, env.vecDim);
      LocalValuesAwayFromZero(h, env.vecDim);
      UnitNorm(rt.math, raw);
      Normalized(raw, rt.math.sqrt(Vectors.Dot(raw, raw)))
  }

  /** The smallest magnitude an entry of the digest-derived vector can have. */
  const Eps: real := 1.0 / 65535.0

  /** No entry of the digest-derived vector is near zero: it is an odd
      multiple of 1/65535, since `2·x = 65535` has no integer solution. */
  lemma RawAwayFromZero(h: seq<Codec.Byte>, i: nat)
    requires |h| > 0
    ensures LocalRaw(h, i) >= Eps || LocalRaw(h, i) <= -Eps
  {
    var x := h[i % |h|] as int * 256 + h[(i + 1) % |h|] as int;
    assert 2 * x != 65535;
    assert LocalRaw(h, i) == (2 * x - 65535) as real / 65535.0;
  }

  lemma LocalValuesAwayFromZero(h: seq<Codec.Byte>, d: nat)
    requires |h| > 0
    ensures forall i :: 0 <= i < d ==> LocalValues(h, d)[i] >= Eps || LocalValues(h, d)[i] <= -Eps
  {
    forall i | 0 <= i < d ensures LocalValues(h, d)[i] >= Eps || LocalValues(h, d)[i] <= -Eps {
      RawAwayFromZero(h, i);
    }
  }

  /** Appending an entry at least `Eps` away from zero makes the squared norm grow. */
  lemma DotGrows(a: seq<real>)
    requires |a| > 0 && (a[|a| - 1] >= Eps || a[|a| - 1] <= -Eps)
    ensures Vectors.Dot(a, a) > Vectors.Dot(a[..|a| - 1], a[..|a| - 1])
  {
    var x := a[|a| - 1];
    if x >= Eps {
      assert (x - Eps) * (x - Eps) >= 0.0;
    } else {
      assert (x + Eps) * (x + Eps) >= 0.0;
    }
  }

  lemma {:induction false} DotPositive(a: seq<real>)
    requires |a| > 0 && forall i :: 0 <= i < |a| ==> a[i] >= Eps || a[i] <= -Eps
    ensures Vectors.Dot(a, a) > 0.0
  {
    Vectors.DotSelfNonNegative(a[..|a| - 1]);
    DotGrows(a);
  }

  lemma ScaledSquare(x: real, n: real)
    requires n != 0.0
    ensures (x / n) * (x / n) * (n * n) == x * x
  {
    var q := x / n;
    assert q * n == x;
  }

  /** Scaling every entry by `1/n` scales the squared norm by `1/n²`. */
  lemma {:induction false} DotScaled(a: seq<real>, n: real)
    requires n != 0.0
    ensures Vectors.Dot(Normalized(a, n), Normalized(a, n)) * (n * n) == Vectors.Dot(a, a)
  {
    if a != [] {
      var init := a[..|a| - 1];
      var x := a[|a| - 1];
      var v := Normalized(a, n);
      assert v[..|v| - 1] == Normalized(init, n);
      DotScaled(init, n);
      ScaledSquare(x, n);
    }
  }

  lemma Cancel(d: real, n: real, s: real)
    requires s > 0.0 && n * n == s && d * (n * n) == s
    ensures d == 1.0
  {
    assert n * n != 0.0;
    assert d == (d * (n * n)) / (n * n);
    assert (d * (n * n)) / (n * n) == s / (n * n);
    assert s / (n * n) == 1.0;
  }

  /** A vector with no entry near zero has a positive norm, and dividing by it
      gives a unit vector. */
  lemma UnitNorm(m: Math, raw: seq<real>)
    requires ValidMath(m) && |raw| > 0
    requires forall i :: 0 <= i < |raw| ==> raw[i] >= Eps || raw[i] <= -Eps
    ensures m.sqrt(Vectors.Dot(raw, raw)) > 0.0
    ensures ExactSqrt(m) ==> Vectors.Dot(Normalized(raw, m.sqrt(Vectors.Dot(raw, raw))),
                                         Normalized(raw, m.sqrt(Vectors.Dot(raw, raw)))) == 1.0
  {
    var s := Vectors.Dot(raw, raw);
    DotPositive(raw);
    Vectors.SqrtPositive(m, s);
    if ExactSqrt(m) {
      ExactUnit(m, raw);
    }
  }

  /** With an exact `Math.sqrt`, dividing by the norm gives a unit vector. */
  lemma ExactUnit(m: Math, raw: seq<real>)
    requires ExactSqrt(m) && Vectors.Dot(raw, raw) > 0.0
    ensures Vectors.Dot(Normalized(raw, m.sqrt(Vectors.Dot(raw, raw))),
                        Normalized(raw, m.sqrt(Vectors.Dot(raw, raw)))) == 1.0
  {
    var s := Vectors.Dot(raw, raw);
    var n := m.sqrt(s);
    assert n * n == s;
    UnitByNorm(raw, n);
  }

  lemma UnitByNorm(a: seq<real>, n: real)
    requires n != 0.0 && n * n == Vectors.Dot(a, a) && Vectors.Dot(a, a) > 0.0
    ensures Vectors.Dot(Normalized(a, n), Normalized(a, n)) == 1.0
  {
    DotScaled(a, n);
    Cancel(Vectors.Dot(Normalized(a, n), Normalized(a, n)), n, Vectors.Dot(a, a));
  }

  /** `embedWithLocal`. */
  method EmbedWithLocal(env: Env, rt: Runtime, text: string, sector: string) returns (v: seq<real>)
    requires ValidRuntime(rt)
    ensures v == LocalEmbedding(env, rt, text, sector)
  {
    if env.localPath == "" {
      v := GenerateSyntheticEmbedding(env, rt.math, text, sector);
      return;
    }
    if env.vecDim == 0 {
      return [];
    }
    var hash := rt.sha256(text + sector);
    var embedding := DigestValues(hash, env.vecDim);
    var sum := SumOfSquares(embedding);
    LocalValuesAwayFromZero(hash, env.vecDim);
    UnitNorm(rt.math, embedding);
    v := Divide(embedding, rt.math.sqrt(sum));
  }

  /** The loop pushing one value per dimension. */
  method DigestValues(h: seq<Codec.Byte>, d: nat) returns (e: seq<real>)
    requires |h| > 0
    ensures e == LocalValues(h, d)
  {
    e := [];
    for i := 0 to d
      invariant |e| == i && forall j :: 0 <= j < i ==> e[j] == LocalRaw(h, j)
    {
      e := e + [LocalRaw(h, i)];
    }
  }

  /** `embedding.reduce((sum, val) => sum + val * val, 0)`. */
  method SumOfSquares(e: seq<real>) returns (sum: real)
    ensures sum == Vectors.Dot(e, e)
  {
    sum := 0.0;
    for i := 0 to |e|
      invariant sum == Vectors.Dot(e[..i], e[..i])
    {
      Js.PrefixSlice(e, i, i + 1);
      sum := sum + e[i] * e[i];
    }
    Js.WholeSlice(e);
  }

  method Divide(e: seq<real>, norm: real) returns (v: seq<real>)
    requires norm != 0.0
    ensures v == Normalized(e, norm)
  {
    v := [];
    for i := 0 to |e|
      invariant |v| == i && forall j :: 0 <= j < i ==> v[j] == e[j] / norm
    {
      v := v + [e[i] / norm];
    }
  }

  // ---- OpenAI and Ollama --------------------------------------------------------------

  /** `embedWithOpenAI`: the provider's vector as it comes, not resized. */
  function OpenAIEmbed(env: Env, reply: nat -> Reply, c: nat, text: string): (r: Call<seq<real>>)
    ensures env.openaiKey == "" <==> r.calls == c
    ensures env.openaiKey == "" ==> r.result == Err("OpenAI API key not configured")
    ensures env.openaiKey != "" ==> r.calls == c + 1 && (r.result.Ok? <==> IsOk(reply(c)) && reply(c).embeddings != [])
  {
    if env.openaiKey == "" then Call(Err("OpenAI API key not configured"), c)
    else if !IsOk(reply(c)) then Call(Err(ApiError("OpenAI", reply(c))), c + 1)
    else if reply(c).embeddings == [] then Call(Err(Undefined("embedding")), c + 1)
    else Call(Ok(reply(c).embeddings[0]), c + 1)
  }

  method EmbedWithOpenAI(net: Network, env: Env, text: string) returns (r: Result<seq<real>>)
    modifies net
    ensures Call(r, net.calls) == OpenAIEmbed(env, net.reply, old(net.calls), text)
  {
    if env.openaiKey == "" {
      return Err("OpenAI API key not configured");
    }
    var reply := net.Fetch();
    if !IsOk(reply) {
      return Err(ApiError("OpenAI", reply));
    }
    if reply.embeddings == [] {
      return Err(Undefined("embedding"));
    }
    return Ok(reply.embeddings[0]);
  }

  /** `embedBatchOpenAI` for `n` sector keys: the first `n` vectors of one reply. */
  function OpenAIBatch(env: Env, reply: nat -> Reply, c: nat, n: nat): (r: Call<seq<seq<real>>>)
    ensures env.openaiKey == "" ==> r == Call(Err("OpenAI API key not configured"), c)
    ensures env.openaiKey != "" ==> r.calls == c + 1
    ensures r.result.Ok? <==> env.openaiKey != "" && IsOk(reply(c)) && n <= |reply(c).embeddings|
    ensures r.result.Ok? ==> r.result.value == reply(c).embeddings[..n]
  {
    if env.openaiKey == "" then Call(Err("OpenAI API key not configured"), c)
    else if !IsOk(reply(c)) then Call(Err(ApiError("OpenAI batch", reply(c))), c + 1)
    else if |reply(c).embeddings| < n then Call(Err(Undefined("embedding")), c + 1)
    else Call(Ok(reply(c).embeddings[..n]), c + 1)
  }

  method EmbedBatchOpenAI(net: Network, env: Env, n: nat) returns (r: Result<seq<seq<real>>>)
    modifies net
    ensures Call(r, net.calls) == OpenAIBatch(env, net.reply, old(net.calls), n)
  {
    if env.openaiKey == "" {
      return Err("OpenAI API key not configured");
    }
    var reply := net.Fetch();
    if !IsOk(reply) {
      return Err(ApiError("OpenAI batch", reply));
    }
    var out: seq<seq<real>> := [];
    for i := 0 to n
      invariant i <= |reply.embeddings| && out == reply.embeddings[..i]
    {
      if i >= |reply.embeddings| {
        return Err(Undefined("embedding"));
      }
      out := out + [reply.embeddings[i]];
    }
    return Ok(out);
  }

  /** `embedWithOllama`: the provider's vector resized to `vec_dim`. */
  function OllamaEmbed(env: Env, reply: nat -> Reply, c: nat, text: string): (r: Call<seq<real>>)
    ensures r.calls == c + 1
    ensures r.result.Ok? <==> IsOk(reply(c)) && reply(c).embeddings != []
    ensures r.result.Ok? ==> r.result.value == Vectors.Resized(reply(c).embeddings[0], env.vecDim)
  {
    if !IsOk(reply(c)) then Call(Err(ApiError("Ollama", reply(c))), c + 1)
    else if reply(c).embeddings == [] then Call(Err(Undefined("length")), c + 1)
    else Call(Ok(Vectors.Resized(reply(c).embeddings[0], env.vecDim)), c + 1)
  }

  method EmbedWithOllama(net: Network, env: Env, text: string) returns (r: Result<seq<real>>)
    modifies net
    ensures Call(r, net.calls) == OllamaEmbed(env, net.reply, old(net.calls), text)
  {
    var reply := net.Fetch();
    if !IsOk(reply) {
      return Err(ApiError("Ollama", reply));
    }
    if reply.embeddings == [] {
      return Err(Undefined("length"));
    }
    var v := Vectors.ResizeVector(reply.embeddings[0], env.vecDim);
    return Ok(v);
  }

  // ---- embedWithGemini ----------------------------------------------------------------

  /** A `Record<string, string>` of texts by sector, in key order. */
  type Texts = seq<(string, string)>

  /** `textBySector`: the same text under every distinct sector, in first-occurrence order. */
  function TextBySector(keys: seq<string>, text: string): (r: Texts)
    ensures |r| == |keys| && forall i :: 0 <= i < |keys| ==> r[i] == (keys[i], text)
  {
    seq(|keys|, i requires 0 <= i < |keys| => (keys[i], text))
  }

  /** A reply that holds a vector for each of `n` keys. */
  predicate Answers(r: Reply, n: nat)
  {
    IsOk(r) && n <= |r.embeddings|
  }

  function ResizedAll(vs: seq<seq<real>>, n: nat, dim: nat): (r: seq<seq<real>>)
    requires n <= |vs|
    ensures |r| == n && forall i :: 0 <= i < n ==> r[i] == Vectors.Resized(vs[i], dim)
  {
    seq(n, i requires 0 <= i < n => Vectors.Resized(vs[i], dim))
  }

  /** The synthetic vector of every text, under its own sector. */
  function Fallback(env: Env, m: Math, texts: Texts): (r: seq<seq<real>>)
    ensures |r| == |texts| && forall i :: 0 <= i < |texts| ==> r[i] == Synthetic(env, m, texts[i].1, texts[i].0)
  {
    seq(|texts|, i requires 0 <= i < |texts| => Synthetic(env, m, texts[i].1, texts[i].0))
  }

  /** The attempts from `attempt` on: a reply without a vector for every key, a
      rate limit and any other error all lead to the next attempt, and after the
      third the synthetic fallback is returned. */
  function GeminiRun(env: Env, m: Math, reply: nat -> Reply, c: nat, texts: Texts, attempt: nat): (r: Call<seq<seq<real>>>)
    decreases 3 - attempt
  {
    if attempt >= 3 then Call(Ok(Fallback(env, m, texts)), c)
    else if Answers(reply(c), |texts|) then Call(Ok(ResizedAll(reply(c).embeddings, |texts|, env.vecDim)), c + 1)
    else GeminiRun(env, m, reply, c + 1, texts, attempt + 1)
  }

  /** `embedWithGemini`: refused without a key; otherwise it always answers,
      with one vector of `vec_dim` entries per key. */
  function Gemini(env: Env, m: Math, reply: nat -> Reply, c: nat, texts: Texts): (r: Call<seq<seq<real>>>)
    ensures env.geminiKey == "" ==> r == Call(Err("Gemini API key not configured"), c)
    ensures env.geminiKey != "" ==> r.result.Ok? && c < r.calls <= c + 3
    ensures r.result.Ok? ==> |r.result.value| == |texts|
    ensures r.result.Ok? ==> forall i :: 0 <= i < |texts| ==> |r.result.value[i]| == env.vecDim
  {
    if env.geminiKey == "" then Call(Err("Gemini API key not configured"), c)
    else
      GeminiRunFacts(env, m, reply, c, texts, 0);
      GeminiRun(env, m, reply, c, texts, 0)
  }

  lemma {:induction false} GeminiRunFacts(env: Env, m: Math, reply: nat -> Reply, c: nat, texts: Texts, attempt: nat)
    requires attempt <= 3
    ensures GeminiRun(env, m, reply, c, texts, attempt).result.Ok?
    ensures c + (if attempt < 3 then 1 else 0) <= GeminiRun(env, m, reply, c, texts, attempt).calls <= c + 3 - attempt
    ensures |GeminiRun(env, m, reply, c, texts, attempt).result.value| == |texts|
    ensures forall i :: 0 <= i < |texts| ==> |GeminiRun(env, m, reply, c, texts, attempt).result.value[i]| == env.vecDim
    decreases 3 - attempt
  {
    if attempt < 3 && !Answers(reply(c), |texts|) {
      GeminiRunFacts(env, m, reply, c + 1, texts, attempt + 1);
    }
  }

  /** After three attempts without a usable reply, rate limits included, the
      answer is one synthetic vector per key, and three requests were made. */
  lemma GeminiFallsBack(env: Env, m: Math, reply: nat -> Reply, c: nat, texts: Texts)
    requires env.geminiKey != ""
    requires !Answers(reply(c), |texts|) && !Answers(reply(c + 1), |texts|) && !Answers(reply(c + 2), |texts|)
    ensures Gemini(env, m, reply, c, texts) == Call(Ok(Fallback(env, m, texts)), c + 3)
  {
    assert GeminiRun(env, m, reply, c + 1, texts, 1) == GeminiRun(env, m, reply, c + 2, texts, 2);
  }

  /** The first usable reply is taken, each vector resized to `vec_dim`. */
  lemma GeminiAnswers(env: Env, m: Math, reply: nat -> Reply, c: nat, texts: Texts, a: nat)
    requires env.geminiKey != "" && a < 3
    requires forall j :: c <= j < c + a ==> !Answers(reply(j), |texts|)
    requires Answers(reply(c + a), |texts|)
    ensures Gemini(env, m, reply, c, texts) == Call(Ok(ResizedAll(reply(c + a).embeddings, |texts|, env.vecDim)), c + a + 1)
  {
    if a >= 1 {
      assert !Answers(reply(c), |texts|);
    }
    if a == 2 {
      assert !Answers(reply(c + 1), |texts|);
    }
  }

  method SyntheticFallback(env: Env, m: Math, texts: Texts) returns (out: seq<seq<real>>)
    ensures out == Fallback(env, m, texts)
  {
    out := [];
    for i := 0 to |texts|
      invariant |out| == i && forall j :: 0 <= j < i ==> out[j] == Synthetic(env, m, texts[j].1, texts[j].0)
    {
      var v := GenerateSyntheticEmbedding(env, m, texts[i].1, texts[i].0);
      out := out + [v];
    }
  }

  /** `data.embeddings.map(e => resizeVector(e.values, env.vec_dim))` over the first `n`. */
  method ResizeAll(vs: seq<seq<real>>, n: nat, dim: nat) returns (out: seq<seq<real>>)
    requires n <= |vs|
    ensures out == ResizedAll(vs, n, dim)
  {
    out := [];
    for i := 0 to n
      invariant |out| == i && forall j :: 0 <= j < i ==> out[j] == Vectors.Resized(vs[j], dim)
    {
      var v := Vectors.ResizeVector(vs[i], dim);
      out := out + [v];
    }
  }

  /** `embedWithGemini`, one request per attempt. */
  method EmbedWithGemini(net: Network, env: Env, m: Math, texts: Texts) returns (r: Result<seq<seq<real>>>)
    modifies net
    ensures Call(r, net.calls) == Gemini(env, m, net.reply, old(net.calls), texts)
  {
    if env.geminiKey == "" {
      return Err("Gemini API key not configured");
    }
    var attempt := 0;
    while attempt < 3
      invariant 0 <= attempt <= 3
      invariant GeminiRun(env, m, net.reply, net.calls, texts, attempt) == Gemini(env, m, net.reply, old(net.calls), texts)
    {
      ghost var c := net.calls;
      var reply := net.Fetch();
      if !IsOk(reply) && reply.status == 429 {
        // rate limited: wait and try again
        attempt := attempt + 1;
        continue;
      }
      if Answers(reply, |texts|) {
        var out := ResizeAll(reply.embeddings, |texts|, env.vecDim);
        return Ok(out);
      }
      // an error status, or a body without a vector for every key, throws and is caught here
      if attempt == 2 {
        var fallback := SyntheticFallback(env, m, texts);
        return Ok(fallback);
      }
      attempt := attempt + 1;
    }
    var fallback := SyntheticFallback(env, m, texts);
    r := Ok(fallback);
  }

  // ---- embedForSector -----------------------------------------------------------------

  /** `embedForSector`: an unknown sector is refused before any provider is
      consulted; otherwise the configured provider answers, and every vector it
      returns has `vec_dim` entries. */
  function EmbedFor(env: Env, rt: Runtime, reply: nat -> Reply, c: nat, text: string, sector: string): (r: Call<seq<real>>)
    requires ValidRuntime(rt)
    ensures Sectors.Parse(sector).None? ==> r == Call(Err("Unknown sector: " + sector), c)
    ensures c <= r.calls <= c + 3
    ensures Uniform(reply, env.vecDim) && r.result.Ok? ==> |r.result.value| == env.vecDim
  {
    if Sectors.Parse(sector).None? then Call(Err("Unknown sector: " + sector), c)
    else if env.kind == "openai" then OpenAIEmbed(env, reply, c, text)
    else if env.kind == "gemini" then
      var b := Gemini(env, rt.math, reply, c, [(sector, text)]);
      Call(if b.result.Ok? then Ok(b.result.value[0]) else Err(b.result.msg), b.calls)
    else if env.kind == "ollama" then OllamaEmbed(env, reply, c, text)
    else if env.kind == "local" then Call(Ok(LocalEmbedding(env, rt, text, sector)), c)
    else Call(Ok(Synthetic(env, rt.math, text, sector)), c)
  }

  method EmbedForSector(net: Network, env: Env, rt: Runtime, text: string, sector: string) returns (r: Result<seq<real>>)
    requires ValidRuntime(rt)
    modifies net
    ensures Call(r, net.calls) == EmbedFor(env, rt, net.reply, old(net.calls), text, sector)
  {
    if Sectors.Parse(sector).None? {
      return Err("Unknown sector: " + sector);
    }
    if env.kind == "openai" {
      r := EmbedWithOpenAI(net, env, text);
    } else if env.kind == "gemini" {
      var batch := EmbedWithGemini(net, env, rt.math, [(sector, text)]);
      r := if batch.Ok? then Ok(batch.value[0]) else Err(batch.msg);
    } else if env.kind == "ollama" {
      r := EmbedWithOllama(net, env, text);
    } else if env.kind == "local" {
      var v := EmbedWithLocal(env, rt, text, sector);
      r := Ok(v);
    } else {
      var v := GenerateSyntheticEmbedding(env, rt.math, text, sector);
      r := Ok(v);
    }
  }

  // ---- embedMultiSector -----------------------------------------------------------------

  /** The vector of every chunk for one sector, in order; the first failure stops. */
  function ChunkVectors(env: Env, rt: Runtime, reply: nat -> Reply, c: nat, chunks: seq<string>, sector: string): (r: Call<seq<seq<real>>>)
    requires ValidRuntime(rt)
    ensures c <= r.calls
    ensures r.result.Ok? ==> |r.result.value| == |chunks|
    ensures Uniform(reply, env.vecDim) && r.result.Ok? ==>
      forall k :: 0 <= k < |r.result.value| ==> |r.result.value[k]| == env.vecDim
    decreases |chunks|
  {
    if chunks == [] then Call(Ok([]), c)
    else
      var first := EmbedFor(env, rt, reply, c, chunks[0], sector);
      if first.result.Err? then Call(Err(first.result.msg), first.calls)
      else Prepend([first.result.value], ChunkVectors(env, rt, reply, first.calls, chunks[1..], sector))
  }

  function Prepend(vs: seq<seq<real>>, r: Call<seq<seq<real>>>): Call<seq<seq<real>>>
  {
    if r.result.Err? then r else Call(Ok(vs + r.result.value), r.calls)
  }

  /** The vector of one sector: the mean of its chunks' vectors when there is
      more than one chunk, else the vector of the whole text. */
  function SectorVector(env: Env, rt: Runtime, reply: nat -> Reply, c: nat, text: string, sector: string, chunks: seq<string>): (r: Call<seq<real>>)
    requires ValidRuntime(rt) && Uniform(reply, env.vecDim)
    ensures c <= r.calls
    ensures r.result.Ok? ==> |r.result.value| == env.vecDim
  {
    if |chunks| > 1 then
      var vs := ChunkVectors(env, rt, reply, c, chunks, sector);
      if vs.result.Err? then Call(Err(vs.result.msg), vs.calls)
      else Call(Vectors.Pooled(vs.result.value), vs.calls)
    else EmbedFor(env, rt, reply, c, text, sector)
  }

  /** What one attempt leaves behind: the results it pushed and the error it threw, if any. */
  datatype Attempt = Attempt(pushed: seq<Vectors.EmbeddingResult>, err: Option<string>, calls: nat)

  function Result1(sector: string, v: seq<real>): Vectors.EmbeddingResult
  {
    Vectors.EmbeddingResult(sector, v, |v|)
  }

  /** The sectors one after the other; a failure stops the attempt with the
      results of the sectors before it already pushed. */
  function SectorsRun(env: Env, rt: Runtime, reply: nat -> Reply, c: nat, text: string, sectors: seq<string>, chunks: seq<string>): (a: Attempt)
    requires ValidRuntime(rt) && Uniform(reply, env.vecDim)
    ensures c <= a.calls
    ensures a.err.None? ==> |a.pushed| == |sectors| && forall i :: 0 <= i < |sectors| ==> a.pushed[i].sector == sectors[i]
    decreases |sectors|
  {
    if sectors == [] then Attempt([], None, c)
    else
      var v := SectorVector(env, rt, reply, c, text, sectors[0], chunks);
      if v.result.Err? then Attempt([], Some(v.result.msg), v.calls)
      else Extend([Result1(sectors[0], v.result.value)], SectorsRun(env, rt, reply, v.calls, text, sectors[1..], chunks))
  }

  function Extend(pushed: seq<Vectors.EmbeddingResult>, a: Attempt): Attempt
  {
    Attempt(pushed + a.pushed, a.err, a.calls)
  }

  /** Advanced mode in parallel: `sectors.map` starts every sector's requests
      and each sector runs to its own end whatever the others do, so every
      sector is requested. `Promise.all` then throws the first sector's error,
      pushing nothing, or yields every result. The requests are issued here one
      sector after another. */
  function ParallelRun(env: Env, rt: Runtime, reply: nat -> Reply, c: nat, text: string, sectors: seq<string>, chunks: seq<string>): (a: Attempt)
    requires ValidRuntime(rt) && Uniform(reply, env.vecDim)
    ensures c <= a.calls
    ensures a.err.Some? ==> a.pushed == []
    ensures a.err.None? ==> |a.pushed| == |sectors| && forall i :: 0 <= i < |sectors| ==> a.pushed[i].sector == sectors[i]
    decreases |sectors|
  {
    if sectors == [] then Attempt([], None, c)
    else
      var v := SectorVector(env, rt, reply, c, text, sectors[0], chunks);
      var rest := ParallelRun(env, rt, reply, v.calls, text, sectors[1..], chunks);
      Join([], if v.result.Err? then Some(v.result.msg) else None,
           if v.result.Err? then rest else Extend([Result1(sectors[0], v.result.value)], rest))
  }

  /** `Promise.all` over what is already settled (`pushed`, or the first error
      `err`) followed by the attempt `a` of the remaining sectors. */
  function Join(pushed: seq<Vectors.EmbeddingResult>, err: Option<string>, a: Attempt): Attempt
  {
    if err.Some? then Attempt([], err, a.calls)
    else if a.err.Some? then Attempt([], a.err, a.calls)
    else Attempt(pushed + a.pushed, None, a.calls)
  }

  /** The parallel attempt throws the error the sequential one throws, and
      yields the same results when neither throws; it never makes fewer
      requests, since the sectors after a failing one are still requested. */
  lemma {:induction false} ParallelAgrees(env: Env, rt: Runtime, reply: nat -> Reply, c: nat, text: string, sectors: seq<string>, chunks: seq<string>)
    requires ValidRuntime(rt) && Uniform(reply, env.vecDim)
    ensures var a := ParallelRun(env, rt, reply, c, text, sectors, chunks);
      var s := SectorsRun(env, rt, reply, c, text, sectors, chunks);
      && a.err == s.err
      && (a.err.None? ==> a.pushed == s.pushed && a.calls == s.calls)
      && s.calls <= a.calls
    decreases |sectors|
  {
    if sectors != [] {
      var v := SectorVector(env, rt, reply, c, text, sectors[0], chunks);
      ParallelAgrees(env, rt, reply, v.calls, text, sectors[1..], chunks);
    }
  }

  /** Simple mode with a batch provider. */
  predicate UsesBatch(env: Env)
  {
    env.mode == "simple" && (env.kind == "gemini" || env.kind == "openai")
  }

  /** Advanced mode in parallel: `Promise.all` pushes all the sectors' results or none. */
  predicate UsesParallel(env: Env)
  {
    env.advParallel && env.kind != "gemini"
  }

  function BatchResults(keys: seq<string>, vs: seq<seq<real>>): (r: seq<Vectors.EmbeddingResult>)
    requires |keys| <= |vs|
    ensures |r| == |keys| && forall i :: 0 <= i < |keys| ==> r[i] == Result1(keys[i], vs[i])
  {
    seq(|keys|, i requires 0 <= i < |keys| => Result1(keys[i], vs[i]))
  }

  /** One batch request for all the distinct sectors. */
  function BatchAttempt(env: Env, rt: Runtime, reply: nat -> Reply, c: nat, text: string, sectors: seq<string>): (a: Attempt)
    requires UsesBatch(env)
  {
    var keys := Js.Dedup(sectors);
    var b := if env.kind == "gemini" then Gemini(env, rt.math, reply, c, TextBySector(keys, text))
             else OpenAIBatch(env, reply, c, |keys|);
    if b.result.Err? then Attempt([], Some(b.result.msg), b.calls)
    else Attempt(BatchResults(keys, b.result.value), None, b.calls)
  }

  /** One attempt of the retry loop. */
  function AttemptOnce(env: Env, rt: Runtime, reply: nat -> Reply, c: nat, text: string, sectors: seq<string>, chunks: seq<string>): (a: Attempt)
    requires ValidRuntime(rt) && Uniform(reply, env.vecDim)
    ensures a.err.None? ==> ResultSectors(a.pushed) == if UsesBatch(env) then Js.Dedup(sectors) else sectors
  {
    if UsesBatch(env) then BatchAttempt(env, rt, reply, c, text, sectors)
    else if UsesParallel(env) then ParallelRun(env, rt, reply, c, text, sectors, chunks)
    else SectorsRun(env, rt, reply, c, text, sectors, chunks)
  }

  /** The sectors of a list of results, in order. */
  function ResultSectors(rs: seq<Vectors.EmbeddingResult>): (r: seq<string>)
    ensures |r| == |rs| && forall i :: 0 <= i < |rs| ==> r[i] == rs[i].sector
  {
    seq(|rs|, i requires 0 <= i < |rs| => rs[i].sector)
  }

  /** How `embedMultiSector` ends: its answer, the requests made, the tables and
      the number of attempts. */
  datatype Run = Run(result: Result<seq<Vectors.EmbeddingResult>>, calls: nat, tables: Db.Tables, attempts: nat)

  /** The retry loop from `attempt` on, `results` holding what earlier attempts
      pushed. With `reset` false, as written, `results` lives outside the loop
      and keeps what a failed attempt pushed; with `reset` true each attempt
      starts from an empty list. Success marks the log 'completed'; the third
      failure marks it 'failed' and rethrows. */
  function Retry(env: Env, rt: Runtime, reply: nat -> Reply, c: nat, t: Db.Tables, id: string, text: string,
                 sectors: seq<string>, chunks: seq<string>, results: seq<Vectors.EmbeddingResult>,
                 attempt: nat, reset: bool): (r: Run)
    requires ValidRuntime(rt) && Uniform(reply, env.vecDim)
    decreases 3 - attempt
  {
    if attempt >= 3 then Run(Err("Embedding failed after retries"), c, t, attempt)
    else
      var a := AttemptOnce(env, rt, reply, c, text, sectors, chunks);
      var kept := (if reset then [] else results) + a.pushed;
      if a.err.None? then Run(Ok(kept), a.calls, Db.UpdLog(t, "completed", None, id), attempt + 1)
      else if attempt == 2 then Run(Err(a.err.value), a.calls, Db.UpdLog(t, "failed", a.err, id), attempt + 1)
      else Retry(env, rt, reply, a.calls, t, id, text, sectors, chunks, kept, attempt + 1, reset)
  }

  function PendingLog(id: string, now: int): Db.EmbedLog
  {
    Db.EmbedLog(id, "multi-sector", "pending", now, None)
  }

  /** `embedMultiSector`: the 'pending' log row first (a taken id throws before
      any attempt), then the retry loop. */
  function MultiSector(env: Env, rt: Runtime, reply: nat -> Reply, c: nat, t: Db.Tables, id: string, text: string,
                       sectors: seq<string>, chunks: seq<string>, now: int, reset: bool): Run
    requires ValidRuntime(rt) && Uniform(reply, env.vecDim)
  {
    var ins := Db.InsLog(t, PendingLog(id, now));
    if ins.Err? then Run(Err(ins.msg), c, t, 0)
    else Retry(env, rt, reply, c, ins.value, id, text, sectors, chunks, [], 0, reset)
  }

  method EmbedChunks(net: Network, env: Env, rt: Runtime, chunks: seq<string>, sector: string) returns (r: Result<seq<seq<real>>>)
    requires ValidRuntime(rt)
    modifies net
    ensures Call(r, net.calls) == ChunkVectors(env, rt, net.reply, old(net.calls), chunks, sector)
  {
    var vs: seq<seq<real>> := [];
    var i := 0;
    assert chunks[0..] == chunks;
    PrependNil(ChunkVectors(env, rt, net.reply, net.calls, chunks, sector));
    while i < |chunks|
      invariant 0 <= i <= |chunks|
      invariant ChunkVectors(env, rt, net.reply, old(net.calls), chunks, sector)
        == Prepend(vs, ChunkVectors(env, rt, net.reply, net.calls, chunks[i..], sector))
    {
      ghost var c := net.calls;
      var v := EmbedForSector(net, env, rt, chunks[i], sector);
      if v.Err? {
        assert ChunkVectors(env, rt, net.reply, c, chunks[i..], sector) == Call(Err(v.msg), net.calls);
        return Err(v.msg);
      }
      assert chunks[i..][1..] == chunks[i + 1..];
      ghost var rest := ChunkVectors(env, rt, net.reply, net.calls, chunks[i + 1..], sector);
      assert ChunkVectors(env, rt, net.reply, c, chunks[i..], sector) == Prepend([v.value], rest);
      PrependAssoc(vs, [v.value], rest);
      vs := vs + [v.value];
      i := i + 1;
    }
    assert chunks[i..] == [];
    assert vs + [] == vs;
    return Ok(vs);
  }

  lemma PrependNil(r: Call<seq<seq<real>>>)
    ensures Prepend([], r) == r
  {
    if r.result.Ok? {
      assert [] + r.result.value == r.result.value;
    }
  }

  lemma PrependAssoc(a: seq<seq<real>>, b: seq<seq<real>>, r: Call<seq<seq<real>>>)
    ensures Prepend(a, Prepend(b, r)) == Prepend(a + b, r)
  {
    if r.result.Ok? {
      assert a + (b + r.result.value) == (a + b) + r.result.value;
    }
  }

  lemma ExtendNil(a: Attempt)
    ensures Extend([], a) == a
  {
    assert [] + a.pushed == a.pushed;
  }

  lemma ExtendAssoc(p: seq<Vectors.EmbeddingResult>, q: seq<Vectors.EmbeddingResult>, a: Attempt)
    ensures Extend(p, Extend(q, a)) == Extend(p + q, a)
  {
    assert p + (q + a.pushed) == (p + q) + a.pushed;
  }

  /** The body of the loop over the sectors, for one sector. */
  method EmbedSector(net: Network, env: Env, rt: Runtime, text: string, sector: string, chunks: seq<string>) returns (r: Result<seq<real>>)
    requires ValidRuntime(rt) && Uniform(net.reply, env.vecDim)
    modifies net
    ensures Call(r, net.calls) == SectorVector(env, rt, net.reply, old(net.calls), text, sector, chunks)
  {
    if |chunks| > 1 {
      var vs := EmbedChunks(net, env, rt, chunks, sector);
      if vs.Err? {
        return Err(vs.msg);
      }
      r := Vectors.MeanPool(vs.value);
    } else {
      r := EmbedForSector(net, env, rt, text, sector);
    }
  }

  /** One attempt in batch mode: a single request for all the sectors. */
  method RunBatch(net: Network, env: Env, rt: Runtime, text: string, sectors: seq<string>, chunks: seq<string>)
    returns (pushed: seq<Vectors.EmbeddingResult>, err: Option<string>)
    requires ValidRuntime(rt) && Uniform(net.reply, env.vecDim) && UsesBatch(env)
    modifies net
    ensures Attempt(pushed, err, net.calls) == AttemptOnce(env, rt, net.reply, old(net.calls), text, sectors, chunks)
  {
    var keys := Js.Dedup(sectors);
    var batch: Result<seq<seq<real>>>;
    if env.kind == "gemini" {
      batch := EmbedWithGemini(net, env, rt.math, TextBySector(keys, text));
    } else {
      batch := EmbedBatchOpenAI(net, env, |keys|);
    }
    if batch.Err? {
      return [], Some(batch.msg);
    }
    pushed := [];
    for i := 0 to |keys|
      invariant |pushed| == i && forall j :: 0 <= j < i ==> pushed[j] == Result1(keys[j], batch.value[j])
    {
      pushed := pushed + [Result1(keys[i], batch.value[i])];
    }
    assert pushed == BatchResults(keys, batch.value);
    return pushed, None;
  }

  /** One attempt in parallel advanced mode: every sector is requested; the
      first error is kept and then nothing is pushed. */
  method RunParallel(net: Network, env: Env, rt: Runtime, text: string, sectors: seq<string>, chunks: seq<string>)
    returns (pushed: seq<Vectors.EmbeddingResult>, err: Option<string>)
    requires ValidRuntime(rt) && Uniform(net.reply, env.vecDim)
    modifies net
    ensures Attempt(pushed, err, net.calls) == ParallelRun(env, rt, net.reply, old(net.calls), text, sectors, chunks)
  {
    pushed, err := [], None;
    var i := 0;
    assert sectors[0..] == sectors;
    JoinNil(ParallelRun(env, rt, net.reply, net.calls, text, sectors, chunks));
    while i < |sectors|
      invariant 0 <= i <= |sectors|
      invariant ParallelRun(env, rt, net.reply, old(net.calls), text, sectors, chunks)
        == Join(pushed, err, ParallelRun(env, rt, net.reply, net.calls, text, sectors[i..], chunks))
    {
      ghost var c := net.calls;
      var v := EmbedSector(net, env, rt, text, sectors[i], chunks);
      assert sectors[i..][1..] == sectors[i + 1..];
      ghost var rest := ParallelRun(env, rt, net.reply, net.calls, text, sectors[i + 1..], chunks);
      JoinStep(pushed, err, v, sectors[i], rest);
      if v.Err? && err.None? {
        err := Some(v.msg);
      } else if v.Ok? {
        pushed := pushed + [Result1(sectors[i], v.value)];
      }
      i := i + 1;
    }
    assert sectors[i..] == [];
    if err.Some? {
      pushed := [];
    }
    assert pushed + [] == pushed;
  }

  lemma JoinNil(a: Attempt)
    ensures Join([], None, a) == if a.err.Some? then Attempt([], a.err, a.calls) else a
  {
    assert [] + a.pushed == a.pushed;
  }

  /** One more settled sector, `v`, moves from the remaining run into the
      settled part; a later error never replaces an earlier one. */
  lemma JoinStep(pushed: seq<Vectors.EmbeddingResult>, err: Option<string>, v: Result<seq<real>>, sector: string, rest: Attempt)
    ensures Join(pushed, err, Join([], if v.Err? then Some(v.msg) else None,
                                   if v.Err? then rest else Extend([Result1(sector, v.value)], rest)))
         == Join(if err.None? && v.Ok? then pushed + [Result1(sector, v.value)] else pushed,
                 if err.None? && v.Err? then Some(v.msg) else err, rest)
  {
    if err.None? && v.Ok? && rest.err.None? {
      assert pushed + ([] + ([Result1(sector, v.value)] + rest.pushed)) == (pushed + [Result1(sector, v.value)]) + rest.pushed;
    }
  }

  /** The body of the retry loop: one attempt. */
  method RunAttempt(net: Network, env: Env, rt: Runtime, text: string, sectors: seq<string>, chunks: seq<string>)
    returns (pushed: seq<Vectors.EmbeddingResult>, err: Option<string>)
    requires ValidRuntime(rt) && Uniform(net.reply, env.vecDim)
    modifies net
    ensures Attempt(pushed, err, net.calls) == AttemptOnce(env, rt, net.reply, old(net.calls), text, sectors, chunks)
  {
    if UsesBatch(env) {
      pushed, err := RunBatch(net, env, rt, text, sectors, chunks);
      return;
    }
    if UsesParallel(env) {
      pushed, err := RunParallel(net, env, rt, text, sectors, chunks);
      return;
    }
    pushed := [];
    var i := 0;
    assert sectors[0..] == sectors;
    ExtendNil(SectorsRun(env, rt, net.reply, net.calls, text, sectors, chunks));
    while i < |sectors|
      invariant 0 <= i <= |sectors|
      invariant SectorsRun(env, rt, net.reply, old(net.calls), text, sectors, chunks)
        == Extend(pushed, SectorsRun(env, rt, net.reply, net.calls, text, sectors[i..], chunks))
    {
      ghost var c := net.calls;
      var v := EmbedSector(net, env, rt, text, sectors[i], chunks);
      if v.Err? {
        assert SectorsRun(env, rt, net.reply, c, text, sectors[i..], chunks) == Attempt([], Some(v.msg), net.calls);
        assert pushed + [] == pushed;
        return pushed, Some(v.msg);
      }
      assert sectors[i..][1..] == sectors[i + 1..];
      ghost var rest := SectorsRun(env, rt, net.reply, net.calls, text, sectors[i + 1..], chunks);
      assert SectorsRun(env, rt, net.reply, c, text, sectors[i..], chunks) == Extend([Result1(sectors[i], v.value)], rest);
      ExtendAssoc(pushed, [Result1(sectors[i], v.value)], rest);
      pushed := pushed + [Result1(sectors[i], v.value)];
      i := i + 1;
    }
    assert sectors[i..] == [];
    assert pushed + [] == pushed;
    err := None;
  }

  /** `embedMultiSector`, with the retry loop's `results` kept across attempts
      (`reset` false, as written) or started afresh by each attempt (`reset` true). */
  method EmbedMultiSector(store: Database.Store, net: Network, env: Env, rt: Runtime, id: string, text: string,
                          sectors: seq<string>, chunks: seq<string>, now: int, reset: bool)
    returns (r: Result<seq<Vectors.EmbeddingResult>>)
    requires store.Valid() && ValidRuntime(rt) && Uniform(net.reply, env.vecDim)
    modifies store, net
    ensures store.Valid() && store.saved == old(store.saved)
    ensures (r, net.calls, store.State()) == MultiSectorOutcome(MultiSector(env, rt, net.reply, old(net.calls),
              old(store.State()), id, text, sectors, chunks, now, reset))
  {
    ghost var goal := MultiSector(env, rt, net.reply, net.calls, store.State(), id, text, sectors, chunks, now, reset);
    var results: seq<Vectors.EmbeddingResult> := [];
    var s := store.InsLog(PendingLog(id, now));
    if s.Err? {
      return Err(s.msg);
    }
    var attempt := 0;
    while attempt < 3
      invariant 0 <= attempt <= 3
      invariant store.Valid() && store.saved == old(store.saved)
      invariant Retry(env, rt, net.reply, net.calls, store.State(), id, text, sectors, chunks, results, attempt, reset) == goal
    {
      ghost var c := net.calls;
      ghost var before := results;
      if reset {
        results := [];
      }
      var pushed, err := RunAttempt(net, env, rt, text, sectors, chunks);
      RetryStep(env, rt, net.reply, c, store.State(), id, text, sectors, chunks, before, attempt, reset);
      results := results + pushed;
      if err.None? {
        store.UpdLog("completed", None, id);
        return Ok(results);
      }
      if attempt == 2 {
        store.UpdLog("failed", err, id);
        return Err(err.value);
      }
      attempt := attempt + 1;
    }
    return Err("Embedding failed after retries");
  }

  /** One turn of the retry loop. */
  lemma RetryStep(env: Env, rt: Runtime, reply: nat -> Reply, c: nat, t: Db.Tables, id: string, text: string,
                  sectors: seq<string>, chunks: seq<string>, results: seq<Vectors.EmbeddingResult>,
                  attempt: nat, reset: bool)
    requires ValidRuntime(rt) && Uniform(reply, env.vecDim) && attempt < 3
    ensures var a := AttemptOnce(env, rt, reply, c, text, sectors, chunks);
      var kept := (if reset then [] else results) + a.pushed;
      Retry(env, rt, reply, c, t, id, text, sectors, chunks, results, attempt, reset) ==
        if a.err.None? then Run(Ok(kept), a.calls, Db.UpdLog(t, "completed", None, id), attempt + 1)
        else if attempt == 2 then Run(Err(a.err.value), a.calls, Db.UpdLog(t, "failed", a.err, id), attempt + 1)
        else Retry(env, rt, reply, a.calls, t, id, text, sectors, chunks, kept, attempt + 1, reset)
  {
  }

  function MultiSectorOutcome(run: Run): (Result<seq<Vectors.EmbeddingResult>>, nat, Db.Tables)
  {
    (run.result, run.calls, run.tables)
  }

  // ---- what a run leaves behind -------------------------------------------------------

  /** The status the log row of a run ends with. */
  function FinalStatus(r: Result<seq<Vectors.EmbeddingResult>>): string
  {
    if r.Ok? then "completed" else "failed"
  }

  function FinalError(r: Result<seq<Vectors.EmbeddingResult>>): Option<string>
  {
    if r.Ok? then None else Some(r.msg)
  }

  /** The retry loop marks the log row exactly once, makes at most three
      attempts, and fails only on its third. */
  lemma {:induction false} RetryFacts(env: Env, rt: Runtime, reply: nat -> Reply, c: nat, t: Db.Tables, id: string, text: string,
                                      sectors: seq<string>, chunks: seq<string>, results: seq<Vectors.EmbeddingResult>,
                                      attempt: nat, reset: bool)
    requires ValidRuntime(rt) && Uniform(reply, env.vecDim) && attempt < 3
    ensures var run := Retry(env, rt, reply, c, t, id, text, sectors, chunks, results, attempt, reset);
      && run.tables == Db.UpdLog(t, FinalStatus(run.result), FinalError(run.result), id)
      && attempt < run.attempts <= 3
      && (run.result.Err? ==> run.attempts == 3)
    decreases 3 - attempt
  {
    var a := AttemptOnce(env, rt, reply, c, text, sectors, chunks);
    var kept := (if reset then [] else results) + a.pushed;
    if a.err.Some? && attempt < 2 {
      RetryFacts(env, rt, reply, a.calls, t, id, text, sectors, chunks, kept, attempt + 1, reset);
    }
  }

  /** `embedMultiSector` refuses a taken id before any attempt. Otherwise it
      adds exactly one log row, 'completed' on success and 'failed' with the
      error after the third failed attempt, and changes nothing else. */
  lemma MultiSectorLog(env: Env, rt: Runtime, reply: nat -> Reply, c: nat, t: Db.Tables, id: string, text: string,
                       sectors: seq<string>, chunks: seq<string>, now: int, reset: bool)
    requires ValidRuntime(rt) && Uniform(reply, env.vecDim)
    ensures var run := MultiSector(env, rt, reply, c, t, id, text, sectors, chunks, now, reset);
      && (run.attempts == 0 <==> Db.HasLog(t.logs, id))
      && (Db.HasLog(t.logs, id) ==> run.result.Err? && run.tables == t && run.calls == c)
      && (!Db.HasLog(t.logs, id) ==>
            && 1 <= run.attempts <= 3
            && (run.result.Err? ==> run.attempts == 3)
            && run.tables == t.(logs := t.logs + [Db.EmbedLog(id, "multi-sector", FinalStatus(run.result), now, FinalError(run.result))]))
  {
    if !Db.HasLog(t.logs, id) {
      var t1 := t.(logs := t.logs + [PendingLog(id, now)]);
      RetryFacts(env, rt, reply, c, t1, id, text, sectors, chunks, [], 0, reset);
      var run := Retry(env, rt, reply, c, t1, id, text, sectors, chunks, [], 0, reset);
      var ls := Db.MapLog(t1.logs, id, FinalStatus(run.result), FinalError(run.result));
      forall i | 0 <= i < |t.logs|
        ensures ls[i] == t.logs[i]
      {
        assert t.logs[i] in t.logs;
      }
      assert ls == t.logs + [Db.EmbedLog(id, "multi-sector", FinalStatus(run.result), now, FinalError(run.result))];
    }
  }

  /** With each attempt starting from an empty list, a successful run returns
      one result per sector asked for, in order (each distinct sector once in
      batch mode). */
  lemma {:induction false} RetryResetResults(env: Env, rt: Runtime, reply: nat -> Reply, c: nat, t: Db.Tables, id: string, text: string,
                                             sectors: seq<string>, chunks: seq<string>, results: seq<Vectors.EmbeddingResult>,
                                             attempt: nat)
    requires ValidRuntime(rt) && Uniform(reply, env.vecDim)
    ensures var run := Retry(env, rt, reply, c, t, id, text, sectors, chunks, results, attempt, true);
      run.result.Ok? ==> ResultSectors(run.result.value) == if UsesBatch(env) then Js.Dedup(sectors) else sectors
    decreases 3 - attempt
  {
    if attempt < 3 {
      var a := AttemptOnce(env, rt, reply, c, text, sectors, chunks);
      assert [] + a.pushed == a.pushed;
      if a.err.Some? && attempt < 2 {
        RetryResetResults(env, rt, reply, a.calls, t, id, text, sectors, chunks, a.pushed, attempt + 1);
      }
    }
  }

  /** Every result's vector has `dim` entries. */
  ghost predicate Dims(rs: seq<Vectors.EmbeddingResult>, dim: nat)
  {
    forall k :: 0 <= k < |rs| ==> |rs[k].vector| == dim
  }

  lemma {:induction false} SectorsRunDims(env: Env, rt: Runtime, reply: nat -> Reply, c: nat, text: string,
                                          sectors: seq<string>, chunks: seq<string>)
    requires ValidRuntime(rt) && Uniform(reply, env.vecDim)
    ensures Dims(SectorsRun(env, rt, reply, c, text, sectors, chunks).pushed, env.vecDim)
    decreases |sectors|
  {
    if sectors != [] {
      var v := SectorVector(env, rt, reply, c, text, sectors[0], chunks);
      if v.result.Ok? {
        SectorsRunDims(env, rt, reply, v.calls, text, sectors[1..], chunks);
      }
    }
  }

  /** Whatever one attempt pushes has the configured dimension. */
  lemma AttemptDims(env: Env, rt: Runtime, reply: nat -> Reply, c: nat, text: string, sectors: seq<string>, chunks: seq<string>)
    requires ValidRuntime(rt) && Uniform(reply, env.vecDim)
    ensures Dims(AttemptOnce(env, rt, reply, c, text, sectors, chunks).pushed, env.vecDim)
  {
    if !UsesBatch(env) {
      SectorsRunDims(env, rt, reply, c, text, sectors, chunks);
      ParallelAgrees(env, rt, reply, c, text, sectors, chunks);
    }
  }

  lemma {:induction false} RetryDims(env: Env, rt: Runtime, reply: nat -> Reply, c: nat, t: Db.Tables, id: string, text: string,
                                     sectors: seq<string>, chunks: seq<string>, results: seq<Vectors.EmbeddingResult>,
                                     attempt: nat, reset: bool)
    requires ValidRuntime(rt) && Uniform(reply, env.vecDim) && Dims(results, env.vecDim)
    ensures var run := Retry(env, rt, reply, c, t, id, text, sectors, chunks, results, attempt, reset);
      run.result.Ok? ==> Dims(run.result.value, env.vecDim)
    decreases 3 - attempt
  {
    if attempt < 3 {
      var a := AttemptOnce(env, rt, reply, c, text, sectors, chunks);
      AttemptDims(env, rt, reply, c, text, sectors, chunks);
      var kept := (if reset then [] else results) + a.pushed;
      assert Dims(kept, env.vecDim);
      if a.err.Some? && attempt < 2 {
        RetryDims(env, rt, reply, a.calls, t, id, text, sectors, chunks, kept, attempt + 1, reset);
      }
    }
  }

  /** Every vector `embedMultiSector` returns has the configured dimension,
      so their weighted mean is well defined. */
  lemma MultiSectorDims(env: Env, rt: Runtime, reply: nat -> Reply, c: nat, t: Db.Tables, id: string, text: string,
                        sectors: seq<string>, chunks: seq<string>, now: int, reset: bool)
    requires ValidRuntime(rt) && Uniform(reply, env.vecDim)
    ensures var run := MultiSector(env, rt, reply, c, t, id, text, sectors, chunks, now, reset);
      run.result.Ok? ==> Dims(run.result.value, env.vecDim)
  {
    var ins := Db.InsLog(t, PendingLog(id, now));
    if ins.Ok? {
      RetryDims(env, rt, reply, c, ins.value, id, text, sectors, chunks, [], 0, reset);
    }
  }

  /** The corrected `embedMultiSector`: every sector it succeeds for appears
      once among the results, so storing them one row per (id, sector) cannot
      collide when the sectors asked for are distinct. */
  lemma MultiSectorResultsDistinct(env: Env, rt: Runtime, reply: nat -> Reply, c: nat, t: Db.Tables, id: string, text: string,
                                   sectors: seq<string>, chunks: seq<string>, now: int)
    requires ValidRuntime(rt) && Uniform(reply, env.vecDim) && Js.Distinct(sectors)
    ensures var run := MultiSector(env, rt, reply, c, t, id, text, sectors, chunks, now, true);
      run.result.Ok? ==> Js.Distinct(ResultSectors(run.result.value)) && |run.result.value| <= |sectors|
  {
    var ins := Db.InsLog(t, PendingLog(id, now));
    if ins.Ok? {
      RetryResetResults(env, rt, reply, c, ins.value, id, text, sectors, chunks, [], 0);
      DedupNoLonger(sectors);
    }
  }

  /** A successful run has a result for every sector asked for, whether or not
      the attempts start afresh: the attempt that succeeds pushes them all. */
  lemma MultiSectorCovers(env: Env, rt: Runtime, reply: nat -> Reply, c: nat, t: Db.Tables, id: string, text: string,
                          sectors: seq<string>, chunks: seq<string>, now: int, reset: bool)
    requires ValidRuntime(rt) && Uniform(reply, env.vecDim)
    ensures var run := MultiSector(env, rt, reply, c, t, id, text, sectors, chunks, now, reset);
      run.result.Ok? ==> forall i :: 0 <= i < |sectors| ==> sectors[i] in ResultSectors(run.result.value)
  {
    var ins := Db.InsLog(t, PendingLog(id, now));
    if ins.Ok? {
      RetryCovers(env, rt, reply, c, ins.value, id, text, sectors, chunks, [], 0, reset);
    }
  }

  lemma {:induction false} RetryCovers(env: Env, rt: Runtime, reply: nat -> Reply, c: nat, t: Db.Tables, id: string, text: string,
                                       sectors: seq<string>, chunks: seq<string>, results: seq<Vectors.EmbeddingResult>,
                                       attempt: nat, reset: bool)
    requires ValidRuntime(rt) && Uniform(reply, env.vecDim)
    ensures var run := Retry(env, rt, reply, c, t, id, text, sectors, chunks, results, attempt, reset);
      run.result.Ok? ==> forall i :: 0 <= i < |sectors| ==> sectors[i] in ResultSectors(run.result.value)
    decreases 3 - attempt
  {
    if attempt < 3 {
      var a := AttemptOnce(env, rt, reply, c, text, sectors, chunks);
      var kept := (if reset then [] else results) + a.pushed;
      if a.err.None? {
        AttemptCovers(env, rt, reply, c, text, sectors, chunks);
        KeptCovers(if reset then [] else results, a.pushed, sectors);
      } else if attempt < 2 {
        RetryCovers(env, rt, reply, a.calls, t, id, text, sectors, chunks, kept, attempt + 1, reset);
      }
    }
  }

  /** A successful attempt pushes a result for every sector. */
  lemma AttemptCovers(env: Env, rt: Runtime, reply: nat -> Reply, c: nat, text: string, sectors: seq<string>, chunks: seq<string>)
    requires ValidRuntime(rt) && Uniform(reply, env.vecDim)
    ensures var a := AttemptOnce(env, rt, reply, c, text, sectors, chunks);
      a.err.None? ==> forall i :: 0 <= i < |sectors| ==> sectors[i] in ResultSectors(a.pushed)
  {
    var a := AttemptOnce(env, rt, reply, c, text, sectors, chunks);
    if a.err.None? {
      var r := ResultSectors(a.pushed);
      assert r == if UsesBatch(env) then Js.Dedup(sectors) else sectors;
      forall i | 0 <= i < |sectors|
        ensures sectors[i] in r
      {
        if !UsesBatch(env) {
          assert r[i] == sectors[i];
        }
      }
    }
  }

  /** Results pushed after earlier ones still cover the sectors they covered. */
  lemma KeptCovers(prior: seq<Vectors.EmbeddingResult>, pushed: seq<Vectors.EmbeddingResult>, sectors: seq<string>)
    requires forall i :: 0 <= i < |sectors| ==> sectors[i] in ResultSectors(pushed)
    ensures forall i :: 0 <= i < |sectors| ==> sectors[i] in ResultSectors(prior + pushed)
  {
    var kept := prior + pushed;
    forall i | 0 <= i < |sectors|
      ensures sectors[i] in ResultSectors(kept)
    {
      var k :| 0 <= k < |pushed| && ResultSectors(pushed)[k] == sectors[i];
      assert kept[|prior| + k] == pushed[k];
      assert ResultSectors(kept)[|prior| + k] == sectors[i];
    }
  }

  lemma {:induction false} DedupNoLonger(s: seq<string>)
    ensures |Js.Dedup(s)| <= |s|
  {
    if s != [] {
      DedupNoLonger(s[..|s| - 1]);
    }
  }

  /** A provider that fails the second request and answers every other one. */
  function FlakyReply(n: nat): Reply
  {
    if n == 1 then Reply(500, "Internal Server Error", []) else Reply(200, "OK", [[1.0, 2.0]])
  }

  /** Ollama in advanced mode, one sector after the other, two dimensions. */
  const FlakyEnv: Env := Env("ollama", "advanced", 2, "", "", "http://localhost:11434", "", false, 0)

  lemma FlakyUniform()
    ensures Uniform(FlakyReply, FlakyEnv.vecDim)
  {
    forall n: nat, k | 0 <= k < |FlakyReply(n).embeddings|
      ensures |FlakyReply(n).embeddings[k]| == 2
    {
    }
  }

  lemma FlakySectorsDistinct()
    ensures Js.Distinct(FlakySectors)
  {
    assert FlakySectors[0][0] == 'e' && FlakySectors[1][0] == 's';
  }

  /** The same provider with the sectors embedded in parallel. */
  const ParallelEnv: Env := FlakyEnv.(advParallel := true)

  /** Every request to the flaky provider but the second gives `[1, 2]`. */
  lemma FlakyEmbed(env: Env, rt: Runtime, n: nat, text: string, sector: string)
    requires env == FlakyEnv || env == ParallelEnv
    requires ValidRuntime(rt) && (sector == "semantic" || sector == "emotional")
    ensures Uniform(FlakyReply, env.vecDim)
    ensures n != 1 ==> SectorVector(env, rt, FlakyReply, n, text, sector, []) == Call(Ok([1.0, 2.0]), n + 1)
    ensures n == 1 ==> SectorVector(env, rt, FlakyReply, n, text, sector, []).result.Err?
    ensures SectorVector(env, rt, FlakyReply, n, text, sector, []).calls == n + 1
  {
    FlakyUniform();
    assert Sectors.Parse(sector).Some?;
    assert [1.0, 2.0][..2] == [1.0, 2.0];
  }

  /** The sectors of the flaky run, in the order they are embedded. */
  const FlakySectors: seq<string> := ["emotional", "semantic"]

  /** The two attempts of the flaky run: the first embeds 'emotional' and fails
      on 'semantic', the second embeds both. */
  lemma FlakyAttempts(rt: Runtime, text: string)
    requires ValidRuntime(rt)
    ensures Uniform(FlakyReply, FlakyEnv.vecDim)
    ensures var first := AttemptOnce(FlakyEnv, rt, FlakyReply, 0, text, FlakySectors, []);
      first.pushed == [Result1("emotional", [1.0, 2.0])] && first.err.Some? && first.calls == 2
    ensures var second := AttemptOnce(FlakyEnv, rt, FlakyReply, 2, text, FlakySectors, []);
      second.pushed == [Result1("emotional", [1.0, 2.0]), Result1("semantic", [1.0, 2.0])] && second.err.None?
  {
    FlakyUniform();
    var sectors := FlakySectors;
    assert sectors[1..] == ["semantic"];
    assert sectors[1..][1..] == [];
    FlakyEmbed(FlakyEnv, rt, 0, text, "emotional");
    FlakyEmbed(FlakyEnv, rt, 1, text, "semantic");
    FlakyEmbed(FlakyEnv, rt, 2, text, "emotional");
    FlakyEmbed(FlakyEnv, rt, 3, text, "semantic");
  }

  /** In parallel mode a failing sector does not stop the others: started one
      request after the flaky provider's first, 'emotional' fails and
      'semantic' is still requested, so the attempt makes two requests where
      the sequential one makes one, and throws the same error. */
  lemma ParallelRequestsAll(rt: Runtime, text: string)
    requires ValidRuntime(rt)
    ensures Uniform(FlakyReply, ParallelEnv.vecDim)
    ensures var a := AttemptOnce(ParallelEnv, rt, FlakyReply, 1, text, FlakySectors, []);
      var s := SectorsRun(ParallelEnv, rt, FlakyReply, 1, text, FlakySectors, []);
      a.err.Some? && a.err == s.err && a.pushed == [] && a.calls == 3 && s.calls == 2
  {
    FlakyEmbed(ParallelEnv, rt, 1, text, "emotional");
    FlakyEmbed(ParallelEnv, rt, 2, text, "semantic");
    var sectors := FlakySectors;
    assert sectors[1..] == ["semantic"];
    assert sectors[1..][1..] == [];
  }

  /** As written, the first attempt's 'emotional' result survives its failure
      on 'semantic', and the second attempt pushes 'emotional' again: the run
      succeeds with three results for two sectors. */
  lemma PartialResultsPersist(rt: Runtime, t: Db.Tables, id: string, text: string, now: int)
    requires ValidRuntime(rt) && !Db.HasLog(t.logs, id)
    ensures Uniform(FlakyReply, FlakyEnv.vecDim)
    ensures var run := MultiSector(FlakyEnv, rt, FlakyReply, 0, t, id, text, FlakySectors, [], now, false);
      run.result.Ok? && ResultSectors(run.result.value) == ["emotional", "emotional", "semantic"]
  {
    FlakyAttempts(rt, text);
  }

  /** The same run with each attempt starting afresh returns one result per sector. */
  lemma FreshResultsPerAttempt(rt: Runtime, t: Db.Tables, id: string, text: string, now: int)
    requires ValidRuntime(rt) && !Db.HasLog(t.logs, id)
    ensures Uniform(FlakyReply, FlakyEnv.vecDim)
    ensures var run := MultiSector(FlakyEnv, rt, FlakyReply, 0, t, id, text, FlakySectors, [], now, true);
      run.result.Ok? && ResultSectors(run.result.value) == FlakySectors
  {
    FlakyAttempts(rt, text);
    var second := AttemptOnce(FlakyEnv, rt, FlakyReply, 2, text, FlakySectors, []);
    assert [] + second.pushed == second.pushed;
  }

  // ---- getEmbeddingInfo ---------------------------------------------------------------

  /** The configuration report. `batchApi` is reported by the two batch
      providers only; `details` holds the provider's own entries (models, url,
      path or type) as name and value. */
  datatype Info = Info(
    provider: string, dimensions: nat, mode: string, batchSupport: bool,
    advancedParallel: bool, embedDelayMs: int, configured: bool,
    batchApi: Option<bool>, details: seq<(string, string)>)

  function OpenAIModels(): seq<(string, string)>
  {
    [("episodic", "text-embedding-3-small"), ("semantic", "text-embedding-3-small"),
     ("procedural", "text-embedding-3-small"), ("emotional", "text-embedding-3-small"),
     ("reflective", "text-embedding-3-large")]
  }

  function OllamaModels(): seq<(string, string)>
  {
    [("episodic", "nomic-embed-text"), ("semantic", "nomic-embed-text"),
     ("procedural", "bge-small"), ("emotional", "nomic-embed-text"),
     ("reflective", "bge-large")]
  }

  /** `getEmbeddingInfo`: batch support is reported exactly when the
      multi-sector path sends one batch request, and a provider is reported
      unconfigured exactly when its key or model path is missing. */
  function GetEmbeddingInfo(env: Env): (r: Info)
    ensures r.batchSupport <==> UsesBatch(env)
    ensures r.batchApi.Some? <==> env.kind == "openai" || env.kind == "gemini"
    ensures !r.configured <==>
      (env.kind == "openai" && env.openaiKey == "") || (env.kind == "gemini" && env.geminiKey == "")
      || (env.kind == "local" && env.localPath == "")
    ensures r.provider == env.kind && r.dimensions == env.vecDim
  {
    var info := Info(env.kind, env.vecDim, env.mode,
                     env.mode == "simple" && (env.kind == "gemini" || env.kind == "openai"),
                     env.advParallel, env.embedDelayMs, true, None, []);
    if env.kind == "openai" then
      info.(configured := env.openaiKey != "", batchApi := Some(env.mode == "simple"), details := OpenAIModels())
    else if env.kind == "gemini" then
      info.(configured := env.geminiKey != "", batchApi := Some(env.mode == "simple"), details := [("model", "embedding-001")])
    else if env.kind == "ollama" then info.(details := [("url", env.ollamaUrl)] + OllamaModels())
    else if env.kind == "local" then info.(configured := env.localPath != "", details := [("path", env.localPath)])
    else info.(details := [("type", "synthetic")])
  }

  /** What "unconfigured" means for a known sector: a batch provider without its
      key refuses before making any request, and the local provider without a
      model path falls back to the synthetic vector; a configured provider is
      asked at least once or answers from the digest. */
  lemma UnconfiguredProvider(env: Env, rt: Runtime, reply: nat -> Reply, c: nat, text: string, sector: string)
    requires ValidRuntime(rt) && Sectors.Parse(sector).Some?
    requires env.kind == "openai" || env.kind == "gemini"
    ensures var r := EmbedFor(env, rt, reply, c, text, sector);
      !GetEmbeddingInfo(env).configured <==> r.result.Err? && r.calls == c
  {
    if env.kind == "gemini" && env.geminiKey != "" {
      assert Gemini(env, rt.math, reply, c, [(sector, text)]).calls > c;
    }
  }

  lemma UnconfiguredLocal(env: Env, rt: Runtime, reply: nat -> Reply, c: nat, text: string, sector: string)
    requires ValidRuntime(rt) && Sectors.Parse(sector).Some? && env.kind == "local"
    ensures !GetEmbeddingInfo(env).configured ==>
      EmbedFor(env, rt, reply, c, text, sector) == Call(Ok(Synthetic(env, rt.math, text, sector)), c)
    ensures GetEmbeddingInfo(env).configured && env.vecDim > 0 && ExactSqrt(rt.math) ==>
      var v := EmbedFor(env, rt, reply, c, text, sector).result.value;
      Vectors.Dot(v, v) == 1.0
  {
  }
}
