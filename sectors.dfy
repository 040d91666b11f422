/** The sector model of the memory engine: the fixed registry of five sectors
    with their decay rates, weights and pattern lists, rule-based classification
    of content, exponential salience decay, and the fused retrieval score. */
module Sectors {
  import opened Wrappers
  import opened Numeric
  import Js
  import Sorting

  datatype Sector = Episodic | Semantic | Procedural | Emotional | Reflective

  /** The keys of `SECTOR_CONFIGS`, in declaration order. */
  const Registry: seq<Sector> := [Episodic, Semantic, Procedural, Emotional, Reflective]

  function Name(s: Sector): string
  {
    match s
    case Episodic => "episodic"
    case Semantic => "semantic"
    case Procedural => "procedural"
    case Emotional => "emotional"
    case Reflective => "reflective"
  }

  /** `SECTOR_CONFIGS[name]`: the registered sector with that name, if any. */
  function Parse(name: string): (r: Option<Sector>)
    ensures r.Some? ==> Name(r.value) == name
    ensures r.None? ==> forall s :: Name(s) != name
  {
    if name == "episodic" then Some(Episodic)
    else if name == "semantic" then Some(Semantic)
    else if name == "procedural" then Some(Procedural)
    else if name == "emotional" then Some(Emotional)
    else if name == "reflective" then Some(Reflective)
    else None
  }

  lemma ParseName(s: Sector)
    ensures Parse(Name(s)) == Some(s)
  {
  }

  /** `decay_lambda` of each sector. */
  function Lambda(s: Sector): real
  {
    match s
    case Episodic => 0.015
    case Semantic => 0.005
    case Procedural => 0.008
    case Emotional => 0.020
    case Reflective => 0.001
  }

  /** `weight` of each sector. */
  function Weight(s: Sector): real
  {
    match s
    case Episodic => 1.2
    case Semantic => 1.0
    case Procedural => 1.1
    case Emotional => 1.3
    case Reflective => 0.8
  }

  /** `model` label of each sector. */
  function ModelLabel(s: Sector): string
  {
    Name(s) + "-optimized"
  }

  /** The number of capture groups of each of the sector's patterns, in order.
      A non-global `content.match(pattern)` that succeeds returns an array of
      `1 + groups` elements whatever the number of occurrences. */
  function PatternGroups(s: Sector): seq<nat>
  {
    match s
    case Episodic => [1, 2, 1, 1]
    case Semantic => [1, 1, 1, 1]
    case Procedural => [1, 1, 1, 1, 1]
    case Emotional => [1, 1, 1, 1, 0]
    case Reflective => [1, 1, 1, 1, 1]
  }

  /** Regular-expression matching, left abstract: whether pattern number `j` of
      sector `s` matches `text` (case-insensitively where the pattern says so). */
  type Matcher = (string, Sector, nat) -> bool

  /** The score contributed by the first `n` patterns of `s`. */
  function PatternSum(hit: Matcher, text: string, s: Sector, n: nat): (r: real)
    requires n <= |PatternGroups(s)|
    ensures r >= 0.0
  {
    if n == 0 then 0.0
    else
      PatternSum(hit, text, s, n - 1)
      + (if hit(text, s, n - 1) then (1 + PatternGroups(s)[n - 1]) as real * Weight(s) else 0.0)
  }

  /** `scores[sector]`: the sum over matching patterns of `matches.length * weight`. */
  function Score(hit: Matcher, text: string, s: Sector): real
  {
    PatternSum(hit, text, s, |PatternGroups(s)|)
  }

  function ScoreKey(hit: Matcher, text: string): Sector -> real
  {
    s => Score(hit, text, s)
  }

  datatype Classification = Classification(primary: Sector, additional: seq<Sector>, confidence: real)

  /** `classifyContent(content, metadata)`; `metaSector` is `metadata.sector` when it is a string. */
  function Classify(hit: Matcher, content: string, metaSector: Option<string>): Classification
  {
    if metaSector.Some? && Parse(metaSector.value).Some? then
      Classification(Parse(metaSector.value).value, [], 1.0)
    else
      RegistryWellFormed();
      Rank(Registry, ScoreKey(hit, content))
  }

  /** Every sector is registered exactly once. */
  ghost predicate WellFormed(reg: seq<Sector>)
  {
    |reg| >= 2 && Js.Distinct(reg) && forall s :: s in reg
  }

  lemma RegistryWellFormed()
    ensures WellFormed(Registry)
  {
    forall s ensures s in Registry {
      RegistryComplete(s);
    }
  }

  lemma RegistryComplete(s: Sector)
    ensures s in Registry
  {
  }

  ghost predicate NonNegative(key: Sector -> real)
  {
    forall s :: key(s) >= 0.0
  }

  lemma ScoresNonNegative(hit: Matcher, content: string)
    ensures NonNegative(ScoreKey(hit, content))
  {
  }

  /** The scoring half of `classifyContent` over the registry `reg`: sort by score
      (stably, so ties keep registry order), take the top as primary, keep the
      others that reach the threshold, and derive the confidence. */
  function Rank(reg: seq<Sector>, key: Sector -> real): Classification
    requires |reg| >= 2 && NonNegative(key)
  {
    var sorted := Sorting.SortDesc(reg, key);
    var p := key(sorted[0]);
    Classification(if p > 0.0 then sorted[0] else Semantic, Additional(sorted, key), Confidence(p, key(sorted[1])))
  }

  /** `min(1, top / (top + second + 1))` for a positive top score, and 0.2 when
      nothing scored: with non-negative scores it lies in (0, 1]. */
  function Confidence(top: real, second: real): (r: real)
    requires second >= 0.0
    ensures 0.0 < r <= 1.0
    ensures top <= 0.0 ==> r == 0.2
  {
    if top > 0.0 then Min(1.0, top / (top + second + 1.0)) else 0.2
  }

  /** `max(1, 0.3 * top)`: the score a runner-up needs to be listed as additional. */
  function Threshold(top: real): (r: real)
    ensures r >= 1.0 && r >= 0.3 * top
    ensures r == 1.0 || r == 0.3 * top
  {
    Max(1.0, top * 0.3)
  }

  /** The runner-up sectors that score above 0 and reach `max(1, 0.3 * top)`. */
  function Additional(sorted: seq<Sector>, key: Sector -> real): seq<Sector>
    requires |sorted| >= 1
  {
    Js.Filter(sorted[1..], Qualifies(key, Threshold(key(sorted[0]))))
  }

  /** Whether a runner-up sector scores enough to be listed as additional. */
  function Qualifies(key: Sector -> real, threshold: real): Sector -> bool
  {
    s => key(s) > 0.0 && key(s) >= threshold
  }

  /** A registered `metadata.sector` short-circuits scoring. */
  lemma ClassifyExplicit(hit: Matcher, content: string, s: Sector)
    ensures Classify(hit, content, Some(Name(s))) == Classification(s, [], 1.0)
  {
    ParseName(s);
  }

  ghost predicate NotExplicit(metaSector: Option<string>)
  {
    metaSector.None? || Parse(metaSector.value).None?
  }

  /** Facts about the sorted registry that the ranking lemmas share. */
  lemma SortedRegistry(reg: seq<Sector>, key: Sector -> real)
    requires WellFormed(reg)
    ensures var sorted := Sorting.SortDesc(reg, key);
      && |sorted| == |reg|
      && Sorting.SortedDesc(sorted, key)
      && Js.Distinct(sorted)
      && (forall s :: s in sorted)
      && sorted[0] == reg[Sorting.FirstMax(reg, key)]
      && (forall s :: key(s) <= key(sorted[0]))
  {
    var sorted := Sorting.SortDesc(reg, key);
    Sorting.SortFacts(reg, key);
    Sorting.SortHeadIsFirstMax(reg, key);
    forall s ensures key(s) <= key(sorted[0]) {
      assert s in sorted;
      var k :| 0 <= k < |sorted| && sorted[k] == s;
    }
  }

  /** With nothing matched, the content defaults to `semantic` with confidence 0.2. */
  lemma RankNoMatch(reg: seq<Sector>, key: Sector -> real)
    requires |reg| >= 2
    requires forall s :: key(s) == 0.0
    ensures Rank(reg, key) == Classification(Semantic, [], 0.2)
  {
    var sorted := Sorting.SortDesc(reg, key);
    Js.FilterNone(sorted[1..], Qualifies(key, Threshold(key(sorted[0]))));
  }

  lemma ClassifyNoMatch(hit: Matcher, content: string, metaSector: Option<string>)
    requires NotExplicit(metaSector)
    requires forall s :: Score(hit, content, s) == 0.0
    ensures Classify(hit, content, metaSector) == Classification(Semantic, [], 0.2)
  {
    RankNoMatch(Registry, ScoreKey(hit, content));
  }

  /** The primary sector has the highest score, and among equal highest scores it
      is the one registered first; it is `semantic` when no score is positive. */
  lemma RankPrimary(reg: seq<Sector>, key: Sector -> real)
    requires WellFormed(reg) && NonNegative(key)
    ensures var c := Rank(reg, key);
      var top := reg[Sorting.FirstMax(reg, key)];
      && (key(top) > 0.0 ==> c.primary == top)
      && (key(top) == 0.0 ==> c.primary == Semantic)
      && (forall s :: key(s) <= key(top))
  {
    SortedRegistry(reg, key);
  }

  lemma ClassifyPrimary(hit: Matcher, content: string, metaSector: Option<string>)
    requires NotExplicit(metaSector)
    ensures var c := Classify(hit, content, metaSector);
      var key := ScoreKey(hit, content);
      var top := Registry[Sorting.FirstMax(Registry, key)];
      && (key(top) > 0.0 ==> c.primary == top)
      && (key(top) == 0.0 ==> c.primary == Semantic)
      && (forall s :: key(s) <= key(top))
  {
    var key := ScoreKey(hit, content);
    RegistryWellFormed();
    assert Classify(hit, content, metaSector) == Rank(Registry, key);
    RankPrimary(Registry, key);
  }

  /** A sector is additional exactly when it is not the primary, scores above 0
      and reaches the threshold of the top score; the additional sectors are distinct
      and listed by descending score. */
  lemma RankAdditional(reg: seq<Sector>, key: Sector -> real, s: Sector)
    requires WellFormed(reg) && NonNegative(key)
    ensures var c := Rank(reg, key);
      && (s in c.additional <==> s != c.primary && key(s) > 0.0 && key(s) >= Threshold(key(c.primary)))
      && Js.Distinct(c.additional)
      && Sorting.SortedDesc(c.additional, key)
  {
    SortedRegistry(reg, key);
    var sorted := Sorting.SortDesc(reg, key);
    var c := Rank(reg, key);
    assert c.additional == Additional(sorted, key);
    assert c.primary == if key(sorted[0]) > 0.0 then sorted[0] else Semantic;
    AdditionalFacts(sorted, key, s);
  }

  /** The same facts over any descending ranking of all sectors without repetitions. */
  lemma AdditionalFacts(sorted: seq<Sector>, key: Sector -> real, s: Sector)
    requires |sorted| > 0 && Js.Distinct(sorted) && Sorting.SortedDesc(sorted, key) && s in sorted
    requires key(s) <= key(sorted[0]) && key(Semantic) >= 0.0
    ensures var primary := if key(sorted[0]) > 0.0 then sorted[0] else Semantic;
      s in Additional(sorted, key) <==> s != primary && key(s) > 0.0 && key(s) >= Threshold(key(primary))
    ensures Js.Distinct(Additional(sorted, key))
    ensures Sorting.SortedDesc(Additional(sorted, key), key)
  {
    AdditionalMember(sorted, key, s);
    assert Js.Distinct(sorted[1..]);
    Sorting.FilterKeepsOrder(sorted[1..], Qualifies(key, Threshold(key(sorted[0]))), key);
  }

  /** A runner-up is listed exactly when it qualifies, and the head never is. */
  lemma AdditionalMember(sorted: seq<Sector>, key: Sector -> real, s: Sector)
    requires |sorted| > 0 && Js.Distinct(sorted) && s in sorted
    requires key(s) <= key(sorted[0]) && key(Semantic) >= 0.0
    ensures var primary := if key(sorted[0]) > 0.0 then sorted[0] else Semantic;
      s in Additional(sorted, key) <==> s != primary && key(s) > 0.0 && key(s) >= Threshold(key(primary))
  {
    var rest := sorted[1..];
    var add := Js.Filter(rest, Qualifies(key, Threshold(key(sorted[0]))));
    if s in add {
      var m :| 0 <= m < |rest| && rest[m] == s;
      assert sorted[m + 1] == s;
    }
  }

  lemma ClassifyAdditional(hit: Matcher, content: string, metaSector: Option<string>, s: Sector)
    requires NotExplicit(metaSector)
    ensures var c := Classify(hit, content, metaSector);
      var key := ScoreKey(hit, content);
      && (s in c.additional <==> s != c.primary && key(s) > 0.0 && key(s) >= Threshold(key(c.primary)))
      && Js.Distinct(c.additional)
      && Sorting.SortedDesc(c.additional, key)
  {
    var key := ScoreKey(hit, content);
    RegistryWellFormed();
    assert Classify(hit, content, metaSector) == Rank(Registry, key);
    RankAdditional(Registry, key, s);
  }

  /** With non-negative scores the confidence lies in (0, 1]. */
  lemma ClassifyConfidence(hit: Matcher, content: string, metaSector: Option<string>)
    ensures 0.0 < Classify(hit, content, metaSector).confidence <= 1.0
  {
    if NotExplicit(metaSector) {
      assert Classify(hit, content, metaSector) == Rank(Registry, ScoreKey(hit, content));
    }
  }

  // ---- decay and scoring ------------------------------------------------------

  /** `calculateDecay(sector, s0, days)`: an unknown sector leaves salience as it is;
      otherwise `max(0, s0 * exp(-lambda * days))`. */
  function CalculateDecay(m: Math, sector: string, s0: real, days: real): (r: real)
    ensures Parse(sector).None? ==> r == s0
    ensures Parse(sector).Some? ==> r >= 0.0
  {
    match Parse(sector)
    case None => s0
    case Some(sec) => Max(0.0, s0 * m.exp(-Lambda(sec) * days))
  }

  /** More elapsed days never yield more salience. */
  lemma DecayMonotone(m: Math, sector: string, s0: real, d1: real, d2: real)
    requires ValidMath(m)
    requires 0.0 <= d1 <= d2
    ensures CalculateDecay(m, sector, s0, d2) <= CalculateDecay(m, sector, s0, d1)
  {
    if Parse(sector).Some? {
      var l := Lambda(Parse(sector).value);
      assert -l * d2 <= -l * d1;
      var e1, e2 := m.exp(-l * d1), m.exp(-l * d2);
      assert e2 <= e1;
      if s0 >= 0.0 {
        assert s0 * e2 <= s0 * e1;
      } else {
        assert s0 * e2 <= 0.0 && s0 * e1 <= 0.0;
      }
    }
  }

  /** Decay over a non-negative span keeps salience within `[0, s0]`. */
  lemma DecayBounded(m: Math, sector: string, s0: real, days: real)
    requires ValidMath(m) && s0 >= 0.0 && days >= 0.0
    ensures 0.0 <= CalculateDecay(m, sector, s0, days) <= s0
  {
    if Parse(sector).Some? {
      var l := Lambda(Parse(sector).value);
      assert l > 0.0;
      var e := m.exp(-l * days);
      assert -l * days <= 0.0;
      assert e <= m.exp(0.0);
      assert CalculateDecay(m, sector, s0, days) == Max(0.0, s0 * e);
      ScaleAtMost(s0, e);
      MulNonNegative(s0, e);
    }
  }

  /** Zero elapsed days leave a non-negative salience unchanged. */
  lemma DecayZeroDays(m: Math, sector: string, s0: real)
    requires ValidMath(m) && s0 >= 0.0
    ensures CalculateDecay(m, sector, s0, 0.0) == s0
  {
  }

  /** A positive salience strictly decays over a positive span in a known
      sector, and stays positive. */
  lemma DecayStrict(m: Math, sector: string, s0: real, days: real)
    requires ValidMath(m) && s0 > 0.0 && days > 0.0 && Parse(sector).Some?
    ensures 0.0 < CalculateDecay(m, sector, s0, days) < s0
  {
    var l := Lambda(Parse(sector).value);
    assert l > 0.0;
    assert -l * days < 0.0;
    var e := m.exp(-l * days);
    assert 0.0 < e < 1.0;
    ScaleBelow(s0, e);
    MulPositive(s0, e);
    assert Max(0.0, s0 * e) == s0 * e;
    assert CalculateDecay(m, sector, s0, days) == s0 * e;
  }

  /** `SCORING_WEIGHTS`. */
  const SimilarityWeight: real := 0.6
  const SalienceWeight: real := 0.2
  const RecencyWeight: real := 0.1
  const WaypointWeight: real := 0.1

  /** `REINFORCEMENT`. */
  const SalienceBoost: real := 0.1
  const WaypointBoost: real := 0.05
  const MaxSalience: real := 1.0
  const MaxWaypointWeight: real := 1.0
  const PruneThreshold: real := 0.05

  /** The raised salience: `boost` added, capped at `max_salience`. */
  function Boosted(salience: real, boost: real): (r: real)
    ensures r <= MaxSalience
    ensures r == salience + boost || r == MaxSalience
    ensures boost >= 0.0 ==> Min(MaxSalience, salience) <= r
  {
    Min(MaxSalience, salience + boost)
  }

  /** `calculateRecencyScore(lastSeenAt)` at instant `now`: `exp(-days / 30)`. */
  function RecencyScore(m: Math, now: int, lastSeenAt: int): real
  {
    m.exp(-(DaysBetween(lastSeenAt, now) / 30.0))
  }

  /** `computeRetrievalScore(similarity, salience, lastSeenAt, waypointWeight)`. */
  function RetrievalScore(m: Math, now: int, similarity: real, salience: real, lastSeenAt: int, waypointWeight: real): real
  {
    SimilarityWeight * similarity + SalienceWeight * salience
    + RecencyWeight * RecencyScore(m, now, lastSeenAt) + WaypointWeight * waypointWeight
  }

  /** With every input in `[0, 1]` and `lastSeenAt` not in the future, the fused
      score lies in `[0, 1]`. */
  lemma RetrievalScoreBounds(m: Math, now: int, sim: real, sal: real, lastSeenAt: int, ww: real)
    requires ValidMath(m) && lastSeenAt <= now
    requires 0.0 <= sim <= 1.0 && 0.0 <= sal <= 1.0 && 0.0 <= ww <= 1.0
    ensures 0.0 <= RetrievalScore(m, now, sim, sal, lastSeenAt, ww) <= 1.0
  {
    var x := -(DaysBetween(lastSeenAt, now) / 30.0);
    assert x <= 0.0;
    assert m.exp(x) <= m.exp(0.0);
  }

  /** The fused score rises with similarity, salience and waypoint weight. */
  lemma RetrievalScoreMonotone(m: Math, now: int, lastSeenAt: int,
                               sim1: real, sal1: real, ww1: real, sim2: real, sal2: real, ww2: real)
    requires sim1 <= sim2 && sal1 <= sal2 && ww1 <= ww2
    ensures RetrievalScore(m, now, sim1, sal1, lastSeenAt, ww1) <= RetrievalScore(m, now, sim2, sal2, lastSeenAt, ww2)
  {
  }
}
