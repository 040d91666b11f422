/** The vector helpers of the embedding layer, the chunker and the memory engine:
    `resizeVector`, mean pooling (`aggregateChunkVectors` and `aggregateVectors`,
    which are the same code), the sector-weighted mean of `calculateMeanVector`,
    the two cosine similarities (`cosineSimilarity` and `cos`), and the buffer
    conversions `vectorToBuffer` and `bufferToVector`. A JavaScript `number[]`
    is a `seq<real>`; a `Buffer` is an array of bytes. */
module Vectors {
  import opened Wrappers
  import opened Numeric
  import Js
  import Codec
  import Sectors

  /** What the embedding layer returns for one sector. */
  datatype EmbeddingResult = EmbeddingResult(sector: string, vector: seq<real>, dim: nat)

  // ---- resizeVector -------------------------------------------------------------

  /** A vector brought to `dim` entries: truncated, or padded with zeros. */
  function Resized(v: seq<real>, dim: nat): (r: seq<real>)
    ensures |r| == dim
    ensures |v| >= dim ==> r == v[..dim]
    ensures |v| <= dim ==> r[..|v|] == v && forall i :: |v| <= i < dim ==> r[i] == 0.0
  {
    if |v| >= dim then v[..dim] else v + seq(dim - |v|, _ => 0.0)
  }

  /** `resizeVector`: the identity on a vector of the right length, a prefix of a
      longer one, and a shorter one followed by zeros. */
  method ResizeVector(v: seq<real>, dim: nat) returns (r: seq<real>)
    ensures r == Resized(v, dim)
  {
    if |v| == dim {
      return v;
    }
    if |v| > dim {
      return v[..dim];
    }
    r := v;
    while |r| < dim
      invariant |v| <= |r| <= dim
      invariant r[..|v|] == v && forall i :: |v| <= i < |r| ==> r[i] == 0.0
      decreases dim - |r|
    {
      r := r + [0.0];
    }
  }

  // ---- mean pooling -----------------------------------------------------------------

  /** Every vector has at least `dim` entries. */
  ghost predicate AllAtLeast(vs: seq<seq<real>>, dim: nat)
  {
    forall k :: 0 <= k < |vs| ==> dim <= |vs[k]|
  }

  /** The sum of entry `i` over the vectors. */
  function ColumnSum(vs: seq<seq<real>>, i: nat): real
    requires forall k :: 0 <= k < |vs| ==> i < |vs[k]|
  {
    if vs == [] then 0.0 else ColumnSum(vs[..|vs| - 1], i) + vs[|vs| - 1][i]
  }

  /** The element-wise mean, as long as the first vector. */
  function Mean(vs: seq<seq<real>>): (r: seq<real>)
    requires |vs| > 0 && AllAtLeast(vs, |vs[0]|)
    ensures |r| == |vs[0]|
  {
    seq(|vs[0]|, i requires 0 <= i < |vs[0]| => ColumnSum(vs, i) / |vs| as real)
  }

  /** `aggregateChunkVectors` and `aggregateVectors`: an error on no vectors, the
      single vector itself, or the element-wise mean. */
  method MeanPool(vs: seq<seq<real>>) returns (r: Result<seq<real>>)
    requires |vs| > 0 ==> AllAtLeast(vs, |vs[0]|)
    ensures |vs| == 0 ==> r == Err("No vectors to aggregate")
    ensures |vs| == 1 ==> r == Ok(vs[0])
    ensures |vs| >= 2 ==> r == Ok(Mean(vs))
  {
    if |vs| == 0 {
      return Err("No vectors to aggregate");
    }
    if |vs| == 1 {
      return Ok(vs[0]);
    }
    var dim := |vs[0]|;
    var result := new real[dim](_ => 0.0);
    var k := 0;
    while k < |vs|
      invariant 0 <= k <= |vs|
      invariant forall j :: 0 <= j < dim ==> result[j] == ColumnSum(vs[..k], j)
    {
      Js.PrefixSlice(vs, k, k + 1);
      AddInto(result, vs[k]);
      k := k + 1;
    }
    Js.WholeSlice(vs);
    DivideAll(result, |vs| as real);
    assert forall j :: 0 <= j < dim ==> result[..][j] == Mean(vs)[j];
    assert result[..] == Mean(vs);
    return Ok(result[..]);
  }

  /** What `MeanPool` returns, as a value. */
  function Pooled(vs: seq<seq<real>>): Result<seq<real>>
    requires |vs| > 0 ==> AllAtLeast(vs, |vs[0]|)
  {
    if |vs| == 0 then Err("No vectors to aggregate")
    else if |vs| == 1 then Ok(vs[0])
    else Ok(Mean(vs))
  }

  /** `for (let i = 0; i < dim; i++) acc[i] += v[i]`. */
  method AddInto(acc: array<real>, v: seq<real>)
    requires acc.Length <= |v|
    modifies acc
    ensures forall j :: 0 <= j < acc.Length ==> acc[j] == old(acc[j]) + v[j]
  {
    var i := 0;
    while i < acc.Length
      invariant 0 <= i <= acc.Length
      invariant forall j :: 0 <= j < i ==> acc[j] == old(acc[j]) + v[j]
      invariant forall j :: i <= j < acc.Length ==> acc[j] == old(acc[j])
    {
      acc[i] := acc[i] + v[i];
      i := i + 1;
    }
  }

  /** `for (let i = 0; i < dim; i++) acc[i] += v[i] * w`. */
  method AddScaled(acc: array<real>, v: seq<real>, w: real)
    requires acc.Length <= |v|
    modifies acc
    ensures forall j :: 0 <= j < acc.Length ==> acc[j] == old(acc[j]) + v[j] * w
  {
    var i := 0;
    while i < acc.Length
      invariant 0 <= i <= acc.Length
      invariant forall j :: 0 <= j < i ==> acc[j] == old(acc[j]) + v[j] * w
      invariant forall j :: i <= j < acc.Length ==> acc[j] == old(acc[j])
    {
      acc[i] := acc[i] + v[i] * w;
      i := i + 1;
    }
  }

  /** `for (let i = 0; i < dim; i++) acc[i] /= d`. */
  method DivideAll(acc: array<real>, d: real)
    requires d != 0.0
    modifies acc
    ensures forall j :: 0 <= j < acc.Length ==> acc[j] == old(acc[j]) / d
  {
    var i := 0;
    while i < acc.Length
      invariant 0 <= i <= acc.Length
      invariant forall j :: 0 <= j < i ==> acc[j] == old(acc[j]) / d
      invariant forall j :: i <= j < acc.Length ==> acc[j] == old(acc[j])
    {
      acc[i] := acc[i] / d;
      i := i + 1;
    }
  }

  /** Entry `i` summed over `n` copies of the same value is `n` times it. */
  lemma {:induction false} ColumnSumBounds(vs: seq<seq<real>>, i: nat, lo: real, hi: real)
    requires forall k :: 0 <= k < |vs| ==> i < |vs[k]| && lo <= vs[k][i] <= hi
    ensures |vs| as real * lo <= ColumnSum(vs, i) <= |vs| as real * hi
  {
    if vs != [] {
      ColumnSumBounds(vs[..|vs| - 1], i, lo, hi);
    }
  }

  /** Every entry of the mean lies between the smallest and largest value of
      that entry among the vectors; in particular the mean of copies of one
      vector is that vector, so the singleton shortcut agrees with the mean. */
  lemma MeanBounds(vs: seq<seq<real>>, i: nat, lo: real, hi: real)
    requires |vs| > 0 && AllAtLeast(vs, |vs[0]|) && i < |vs[0]|
    requires forall k :: 0 <= k < |vs| ==> lo <= vs[k][i] <= hi
    ensures lo <= Mean(vs)[i] <= hi
  {
    ColumnSumBounds(vs, i, lo, hi);
    var n := |vs| as real;
    assert n * lo <= ColumnSum(vs, i) <= n * hi;
    DivBounds(ColumnSum(vs, i), n, lo, hi);
  }

  lemma DivBounds(s: real, n: real, lo: real, hi: real)
    requires n > 0.0 && n * lo <= s <= n * hi
    ensures lo <= s / n <= hi
  {
  }

  /** The mean of copies of one vector is that vector. */
  lemma MeanOfCopies(vs: seq<seq<real>>, v: seq<real>)
    requires |vs| > 0 && forall k :: 0 <= k < |vs| ==> vs[k] == v
    ensures Mean(vs) == v
  {
    forall i | 0 <= i < |v| ensures Mean(vs)[i] == v[i] {
      MeanBounds(vs, i, v[i], v[i]);
    }
  }

  // ---- calculateMeanVector --------------------------------------------------------

  /** `SECTOR_CONFIGS[sector]?.weight || 1.0`: no configured weight is zero, so an
      unknown sector weighs 1.0 and a known one its configured weight. */
  function SectorWeight(sector: string): (w: real)
    ensures w > 0.0
  {
    match Sectors.Parse(sector)
    case Some(s) => Sectors.Weight(s)
    case None => 1.0
  }

  /** The sum of the weights `wt` gives the results' sectors. */
  function TotalWeight(rs: seq<EmbeddingResult>, wt: string -> real): real
  {
    if rs == [] then 0.0 else TotalWeight(rs[..|rs| - 1], wt) + wt(rs[|rs| - 1].sector)
  }

  lemma {:induction false} TotalWeightPositive(rs: seq<EmbeddingResult>, wt: string -> real)
    requires rs != [] && forall s :: wt(s) > 0.0
    ensures TotalWeight(rs, wt) > 0.0
  {
    if |rs| > 1 {
      TotalWeightPositive(rs[..|rs| - 1], wt);
    }
  }

  ghost predicate ResultsAtLeast(rs: seq<EmbeddingResult>, dim: nat)
  {
    forall k :: 0 <= k < |rs| ==> dim <= |rs[k].vector|
  }

  /** The weighted sum of entry `i`. */
  function WeightedSum(rs: seq<EmbeddingResult>, i: nat, wt: string -> real): real
    requires forall k :: 0 <= k < |rs| ==> i < |rs[k].vector|
  {
    if rs == [] then 0.0
    else WeightedSum(rs[..|rs| - 1], i, wt) + rs[|rs| - 1].vector[i] * wt(rs[|rs| - 1].sector)
  }

  /** The mean of the vectors weighted by their sectors' weights. */
  function WeightedMean(rs: seq<EmbeddingResult>): (r: seq<real>)
    requires |rs| > 0 && ResultsAtLeast(rs, |rs[0].vector|)
    ensures |r| == |rs[0].vector|
  {
    TotalWeightPositive(rs, SectorWeight);
    seq(|rs[0].vector|, i requires 0 <= i < |rs[0].vector| =>
      WeightedSum(rs, i, SectorWeight) / TotalWeight(rs, SectorWeight))
  }

  /** `calculateMeanVector`: the sector-weighted mean of the vectors, as long as
      the first; with no results the read of the first one throws. */
  method CalculateMeanVector(rs: seq<EmbeddingResult>) returns (r: Result<seq<real>>)
    requires |rs| > 0 ==> ResultsAtLeast(rs, |rs[0].vector|)
    ensures |rs| == 0 ==> r == Err("Cannot read properties of undefined (reading 'vector')")
    ensures |rs| > 0 ==> r == Ok(WeightedMean(rs))
  {
    if |rs| == 0 {
      return Err("Cannot read properties of undefined (reading 'vector')");
    }
    var dim := |rs[0].vector|;
    var mean := new real[dim](_ => 0.0);
    var total := Accumulate(rs, mean);
    TotalWeightPositive(rs, SectorWeight);
    DivideAll(mean, total);
    assert forall j :: 0 <= j < dim ==> mean[..][j] == WeightedMean(rs)[j];
    assert mean[..] == WeightedMean(rs);
    return Ok(mean[..]);
  }

  /** The loop of `calculateMeanVector` over the results: each vector is
      added to `mean` scaled by its sector's weight, and the weights are summed. */
  method Accumulate(rs: seq<EmbeddingResult>, mean: array<real>) returns (total: real)
    requires ResultsAtLeast(rs, mean.Length)
    requires forall j :: 0 <= j < mean.Length ==> mean[j] == 0.0
    modifies mean
    ensures total == TotalWeight(rs, SectorWeight)
    ensures forall j :: 0 <= j < mean.Length ==> mean[j] == WeightedSum(rs, j, SectorWeight)
  {
    total := 0.0;
    var k := 0;
    while k < |rs|
      invariant 0 <= k <= |rs|
      invariant total == TotalWeight(rs[..k], SectorWeight)
      invariant forall j :: 0 <= j < mean.Length ==> mean[j] == WeightedSum(rs[..k], j, SectorWeight)
    {
      var w := SectorWeight(rs[k].sector);
      TotalWeightStep(rs, k, SectorWeight);
      total := total + w;
      AddResult(rs, k, mean);
      k := k + 1;
    }
    Js.WholeSlice(rs);
  }

  /** One turn of the loop: the `k`-th vector, scaled by its sector's weight,
      is added to `mean`. */
  method AddResult(rs: seq<EmbeddingResult>, k: nat, mean: array<real>)
    requires k < |rs| && ResultsAtLeast(rs, mean.Length)
    requires forall j :: 0 <= j < mean.Length ==> mean[j] == WeightedSum(rs[..k], j, SectorWeight)
    modifies mean
    ensures forall j :: 0 <= j < mean.Length ==> mean[j] == WeightedSum(rs[..k + 1], j, SectorWeight)
  {
    ghost var before := mean[..];
    var w := SectorWeight(rs[k].sector);
    AddScaled(mean, rs[k].vector, w);
    forall j | 0 <= j < mean.Length
      ensures mean[j] == WeightedSum(rs[..k + 1], j, SectorWeight)
    {
      assert mean[j] == before[j] + rs[k].vector[j] * w;
      WeightedSumStep(rs, k, j, SectorWeight);
    }
  }

  lemma TotalWeightStep(rs: seq<EmbeddingResult>, k: nat, wt: string -> real)
    requires k < |rs|
    ensures TotalWeight(rs[..k + 1], wt) == TotalWeight(rs[..k], wt) + wt(rs[k].sector)
  {
    Js.PrefixSlice(rs, k, k + 1);
  }

  lemma WeightedSumStep(rs: seq<EmbeddingResult>, k: nat, j: nat, wt: string -> real)
    requires k < |rs| && forall i :: 0 <= i < |rs| ==> j < |rs[i].vector|
    ensures WeightedSum(rs[..k + 1], j, wt) == WeightedSum(rs[..k], j, wt) + rs[k].vector[j] * wt(rs[k].sector)
  {
    Js.PrefixSlice(rs, k, k + 1);
  }

  lemma {:induction false} WeightedSumOfCopies(rs: seq<EmbeddingResult>, i: nat, x: real, wt: string -> real)
    requires forall k :: 0 <= k < |rs| ==> i < |rs[k].vector| && rs[k].vector[i] == x
    ensures WeightedSum(rs, i, wt) == x * TotalWeight(rs, wt)
  {
    if rs != [] {
      var init := rs[..|rs| - 1];
      WeightedSumOfCopies(init, i, x, wt);
      Distribute(x, TotalWeight(init, wt), wt(rs[|rs| - 1].sector));
    }
  }

  lemma Distribute(x: real, a: real, b: real)
    ensures x * a + x * b == x * (a + b)
  {
  }

  /** Whatever the sectors' weights, the weighted mean of equal vectors is that vector. */
  lemma WeightedMeanOfCopies(rs: seq<EmbeddingResult>, v: seq<real>)
    requires |rs| > 0 && forall k :: 0 <= k < |rs| ==> rs[k].vector == v
    ensures WeightedMean(rs) == v
  {
    forall i | 0 <= i < |v| ensures WeightedMean(rs)[i] == v[i] {
      WeightedSumOfCopies(rs, i, v[i], SectorWeight);
      TotalWeightPositive(rs, SectorWeight);
    }
  }

  // ---- cosine similarity ----------------------------------------------------------

  function Dot(a: seq<real>, b: seq<real>): real
    requires |a| == |b|
  {
    if a == [] then 0.0 else Dot(a[..|a| - 1], b[..|b| - 1]) + a[|a| - 1] * b[|b| - 1]
  }

  lemma {:induction false} DotSelfNonNegative(a: seq<real>)
    ensures Dot(a, a) >= 0.0
  {
    if a != [] {
      DotSelfNonNegative(a[..|a| - 1]);
    }
  }

  lemma {:induction false} DotSymmetric(a: seq<real>, b: seq<real>)
    requires |a| == |b|
    ensures Dot(a, b) == Dot(b, a)
  {
    if a != [] {
      DotSymmetric(a[..|a| - 1], b[..|b| - 1]);
    }
  }

  /** The square root of a positive number is positive. */
  lemma SqrtPositive(m: Math, x: real)
    requires ValidMath(m) && x > 0.0
    ensures m.sqrt(x) > 0.0
  {
  }

  /** Cosine similarity of two vectors of equal length with non-zero norms,
      and 0 otherwise. */
  function Cosine(m: Math, a: seq<real>, b: seq<real>): real
    requires ValidMath(m)
  {
    if |a| != |b| then 0.0
    else
      var na, nb := Dot(a, a), Dot(b, b);
      if na == 0.0 || nb == 0.0 then 0.0
      else
        DotSelfNonNegative(a);
        DotSelfNonNegative(b);
        SqrtPositive(m, na);
        SqrtPositive(m, nb);
        Dot(a, b) / (m.sqrt(na) * m.sqrt(nb))
  }

  /** Extending both prefixes by one element adds that element's product. */
  lemma DotStep(a: seq<real>, b: seq<real>, i: int)
    requires |a| == |b| && 0 <= i < |a|
    ensures Dot(a[..i + 1], b[..i + 1]) == Dot(a[..i], b[..i]) + a[i] * b[i]
  {
    Js.PrefixSlice(a, i, i + 1);
    Js.PrefixSlice(b, i, i + 1);
  }

  /** `cosineSimilarity`: 0 for vectors of different lengths or with a zero norm,
      the cosine of the angle between them otherwise. */
  method CosineSimilarity(m: Math, a: seq<real>, b: seq<real>) returns (r: real)
    requires ValidMath(m)
    ensures r == Cosine(m, a, b)
  {
    if |a| != |b| {
      return 0.0;
    }
    var dot, na, nb := 0.0, 0.0, 0.0;
    var i := 0;
    while i < |a|
      invariant 0 <= i <= |a|
      invariant dot == Dot(a[..i], b[..i]) && na == Dot(a[..i], a[..i]) && nb == Dot(b[..i], b[..i])
    {
      DotStep(a, b, i);
      DotStep(a, a, i);
      DotStep(b, b, i);
      dot := dot + a[i] * b[i];
      na := na + a[i] * a[i];
      nb := nb + b[i] * b[i];
      i := i + 1;
    }
    Js.WholeSlice(a);
    Js.WholeSlice(b);
    assert dot == Dot(a, b) && na == Dot(a, a) && nb == Dot(b, b);
    if na == 0.0 || nb == 0.0 {
      return 0.0;
    }
    DotSelfNonNegative(a);
    DotSelfNonNegative(b);
    SqrtPositive(m, na);
    SqrtPositive(m, nb);
    assert Cosine(m, a, b) == dot / (m.sqrt(na) * m.sqrt(nb));
    return dot / (m.sqrt(na) * m.sqrt(nb));
  }

  /** Cosine similarity does not depend on the order of its arguments. */
  lemma CosineSymmetric(m: Math, a: seq<real>, b: seq<real>)
    requires ValidMath(m)
    ensures Cosine(m, a, b) == Cosine(m, b, a)
  {
    if |a| == |b| {
      DotSymmetric(a, b);
    }
  }

  /** A vector with a non-zero norm has similarity 1 with itself. */
  lemma CosineSelf(m: Math, a: seq<real>)
    requires ValidMath(m) && ExactSqrt(m) && Dot(a, a) != 0.0
    ensures Cosine(m, a, a) == 1.0
  {
    DotSelfNonNegative(a);
    var n := Dot(a, a);
    var root := m.sqrt(n);
    assert root * root == n;
    assert Cosine(m, a, a) == n / (root * root);
    DivSelf(n);
  }

  lemma DivSelf(x: real)
    requires x != 0.0
    ensures x / x == 1.0
  {
  }

  /** `cos` from the utilities: it runs over `a` only. Past the end of `b` the
      entries are `undefined`, the sums become `NaN` and `d ? s / d : 0` gives 0;
      otherwise only the first `|a|` entries of `b` take part. */
  function CosPrefix(m: Math, a: seq<real>, b: seq<real>): real
  {
    if |a| > |b| then 0.0
    else
      var b' := b[..|a|];
      var d := m.sqrt(Dot(a, a)) * m.sqrt(Dot(b', b'));
      if d == 0.0 then 0.0 else Dot(a, b') / d
  }

  /** `cos`: three accumulators over the indices of `a`. */
  method Cos(m: Math, a: seq<real>, b: seq<real>) returns (r: real)
    ensures r == CosPrefix(m, a, b)
  {
    var s, na, nb := 0.0, 0.0, 0.0;
    var nan := false;
    var i := 0;
    while i < |a|
      invariant 0 <= i <= |a|
      invariant nan <==> i > |b|
      invariant !nan ==> s == Dot(a[..i], b[..i]) && na == Dot(a[..i], a[..i]) && nb == Dot(b[..i], b[..i])
    {
      if i < |b| {
        assert a[..i + 1][..i] == a[..i] && b[..i + 1][..i] == b[..i];
        s := s + a[i] * b[i];
        na := na + a[i] * a[i];
        nb := nb + b[i] * b[i];
      } else {
        nan := true;
      }
      i := i + 1;
    }
    if nan {
      return 0.0;
    }
    assert a[..i] == a && b[..i] == b[..|a|];
    var d := m.sqrt(na) * m.sqrt(nb);
    r := if d == 0.0 then 0.0 else s / d;
  }

  /** On vectors of equal length the utility `cos` and `cosineSimilarity` agree. */
  lemma CosAgreesWithCosine(m: Math, a: seq<real>, b: seq<real>)
    requires ValidMath(m) && |a| == |b|
    ensures CosPrefix(m, a, b) == Cosine(m, a, b)
  {
    assert b[..|a|] == b;
    DotSelfNonNegative(a);
    DotSelfNonNegative(b);
    var na, nb := Dot(a, a), Dot(b, b);
    if na == 0.0 {
      assert m.sqrt(na) == 0.0;
    } else if nb == 0.0 {
      assert m.sqrt(nb) == 0.0;
    } else {
      SqrtPositive(m, na);
      SqrtPositive(m, nb);
    }
  }

  // ---- buffers ------------------------------------------------------------------------

  /** `vectorToBuffer`: writes each number as four little-endian bytes at offset 4i. */
  method VectorToBuffer(f: Codec.Binary32, v: seq<real>) returns (buf: array<Codec.Byte>)
    ensures buf[..] == Codec.Encode(f, v)
  {
    buf := new Codec.Byte[4 * |v|];
    var i := 0;
    while i < |v|
      invariant 0 <= i <= |v|
      invariant buf[..4 * i] == Codec.Encode(f, v[..i])
    {
      Js.PrefixSlice(v, i, i + 1);
      var w := Codec.WordBytes(f.encode(v[i]));
      ghost var before := buf[..4 * i];
      buf[4 * i] := w[0];
      buf[4 * i + 1] := w[1];
      buf[4 * i + 2] := w[2];
      buf[4 * i + 3] := w[3];
      assert buf[..4 * i + 4] == before + w;
      i := i + 1;
    }
    assert buf[..] == buf[..4 * i];
    Js.WholeSlice(v);
  }

  /** `bufferToVector`: reads four bytes at a time; a trailing partial group makes
      the last read run past the end and throw. */
  method BufferToVector(f: Codec.Binary32, buf: array<Codec.Byte>) returns (r: Result<seq<real>>)
    ensures r == Codec.Decode(f, buf[..])
  {
    var vector := [];
    var i := 0;
    while i < buf.Length
      invariant 0 <= i <= buf.Length && i % 4 == 0
      invariant vector == Codec.Words(f, buf[..i])
    {
      if i + 4 > buf.Length {
        assert |buf[..]| == buf.Length && buf.Length % 4 != 0;
        return Err(Codec.OffsetError(buf.Length));
      }
      assert buf[..i + 4][..i] == buf[..i] && buf[..i + 4][i..] == buf[i..i + 4];
      vector := vector + [f.decode(Codec.BytesWord(buf[i..i + 4]))];
      i := i + 4;
    }
    assert buf[..i] == buf[..];
    return Ok(vector);
  }
}
