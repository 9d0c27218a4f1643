/**
  The grid statistics and map helpers of grid_visualizer.py: how many cells
  have each quality (in first-seen order, as a dict keeps them), their
  percentages, the weighted quality score and its verdict band, the closed
  rectangle ring drawn for a cell, and the colour looked up for a quality.
*/
module GridVisualizer {
  import opened Tally
  import opened RoadGrid
  import Corridor

  /** The quality of every cell, in the order of the cell list. */
  function Qualities(cells: seq<Cell>): (qs: seq<string>)
    ensures |qs| == |cells|
    ensures forall i :: 0 <= i < |cells| ==> qs[i] == cells[i].quality
  {
    seq(|cells|, i requires 0 <= i < |cells| => cells[i].quality)
  }

  /** Counting one more element adds one to its own count and leaves the others. */
  lemma CountSnocAll(s: seq<string>, z: string)
    ensures forall q :: Count(s + [z], q) == Count(s, q) + (if z == q then 1 else 0)
  {
    forall q
      ensures Count(s + [z], q) == Count(s, q) + (if z == q then 1 else 0)
    {
      CountSnoc(s, z, q);
    }
  }

  /** The counts dict as the loop builds it, one quality at a time. */
  function QualityCounts(qs: seq<string>): map<string, nat>
  {
    if qs == [] then map[]
    else
      var prev := QualityCounts(qs[..|qs| - 1]);
      prev[qs[|qs| - 1] := Get(prev, qs[|qs| - 1]) + 1]
  }

  /** The counted qualities are exactly those that occur, each with its number of cells. */
  lemma {:induction false} QualityCountsMeaning(qs: seq<string>)
    ensures forall q :: q in QualityCounts(qs) <==> q in qs
    ensures forall q :: q in QualityCounts(qs) ==> QualityCounts(qs)[q] == Count(qs, q) && QualityCounts(qs)[q] > 0
  {
    if qs != [] {
      var init, z := qs[..|qs| - 1], qs[|qs| - 1];
      QualityCountsMeaning(init);
      CountSnocAll(init, z);
      assert qs == init + [z];
    }
  }

  /** `counts.get(q, 0)`. */
  function Get(counts: map<string, nat>, q: string): nat
  {
    if q in counts then counts[q] else 0
  }

  /** Counting one more quality adds one to its count, inserting it with count 1 when new. */
  lemma QualityCountsSnoc(s: seq<string>, z: string)
    ensures QualityCounts(s + [z]) == QualityCounts(s)[z := Get(QualityCounts(s), z) + 1]
  {
    assert (s + [z])[..|s|] == s;
  }

  /** A quality seen for the first time becomes the last key. */
  lemma FirstSeenSnoc(s: seq<string>, z: string)
    ensures FirstSeen(s + [z]) == if z in s then FirstSeen(s) else FirstSeen(s) + [z]
  {
    assert (s + [z])[..|s|] == s;
    var prev := FirstSeen(s);
    FirstSeenMembers(s);
    assert z in prev <==> z in s by {
      if z in s {
        var i :| 0 <= i < |s| && s[i] == z;
      }
    }
  }

  /** One step of the counting loop: the order and counts of `seen` become those of `seen + [quality]`. */
  lemma CountStep(seen: seq<string>, quality: string, order: seq<string>, counts: map<string, nat>)
    requires order == FirstSeen(seen) && counts == QualityCounts(seen)
    ensures (if quality in counts then order else order + [quality]) == FirstSeen(seen + [quality])
    ensures counts[quality := Get(counts, quality) + 1] == QualityCounts(seen + [quality])
  {
    QualityCountsSnoc(seen, quality);
    QualityCountsMeaning(seen);
    FirstSeenSnoc(seen, quality);
    assert quality in counts <==> quality in seen;
  }

  /**
    The counting loop of analyze_grid_statistics: the dict of counts, and its
    keys in insertion order.
  */
  method CountQualities(cells: seq<Cell>) returns (order: seq<string>, counts: map<string, nat>)
    ensures order == FirstSeen(Qualities(cells))
    ensures counts == QualityCounts(Qualities(cells))
  {
    var qs := Qualities(cells);
    order, counts := [], map[];
    ghost var seen: seq<string> := [];
    var i := 0;
    while i < |qs|
      invariant 0 <= i <= |qs| && seen == qs[..i]
      invariant order == FirstSeen(seen) && counts == QualityCounts(seen)
    {
      var quality := qs[i];
      CountStep(seen, quality, order, counts);
      order := if quality in counts then order else order + [quality];
      counts := counts[quality := Get(counts, quality) + 1];
      seen := seen + [quality];
      i := i + 1;
    }
    assert qs[..i] == qs;
  }

  // ----- the counts add up -----

  /** `sum(counts.get(q, 0) for q in keys)`. */
  function SumOf(keys: seq<string>, counts: map<string, nat>): nat
  {
    if keys == [] then 0 else SumOf(keys[..|keys| - 1], counts) + Get(counts, keys[|keys| - 1])
  }

  lemma {:induction false} SumOfIsSumCounts(keys: seq<string>, qs: seq<string>)
    ensures SumOf(keys, QualityCounts(qs)) == SumCounts(keys, qs)
  {
    if keys != [] {
      SumOfIsSumCounts(keys[..|keys| - 1], qs);
      var k := keys[|keys| - 1];
      QualityCountsMeaning(qs);
      assert Get(QualityCounts(qs), k) == Count(qs, k);
    }
  }

  /** The counts of the distinct qualities add up to the number of cells. */
  lemma CountsSumToTotal(cells: seq<Cell>)
    ensures SumOf(FirstSeen(Qualities(cells)), QualityCounts(Qualities(cells))) == |cells|
  {
    var qs := Qualities(cells);
    SumOfIsSumCounts(FirstSeen(qs), qs);
    FirstSeenCountsSum(qs);
  }

  // ----- percentages -----

  /** `(count / total_cells) * 100`. */
  function Percentage(count: nat, total: nat): (p: real)
    requires total > 0
    ensures count <= total ==> 0.0 <= p <= 100.0
  {
    var f := count as real / total as real;
    assert f * total as real == count as real;
    Corridor.LessAfterScaling(1.0, f, total as real);
    Corridor.LessAfterScaling(f, 0.0, total as real);
    f * 100.0
  }

  /** The percentages of `keys` added up. */
  function PercentSum(keys: seq<string>, counts: map<string, nat>, total: nat): real
    requires total > 0
  {
    if keys == [] then 0.0
    else PercentSum(keys[..|keys| - 1], counts, total) + Percentage(Get(counts, keys[|keys| - 1]), total)
  }

  lemma AddFractions(a: real, b: real, t: real)
    requires t > 0.0
    ensures a / t + b / t == (a + b) / t
  {
    assert (a / t) * t == a && (b / t) * t == b;
    assert (a / t + b / t) * t == a + b;
  }

  lemma {:induction false} PercentSumIsShare(keys: seq<string>, counts: map<string, nat>, total: nat)
    requires total > 0
    ensures PercentSum(keys, counts, total) == SumOf(keys, counts) as real / total as real * 100.0
  {
    if keys != [] {
      var init, c := keys[..|keys| - 1], Get(counts, keys[|keys| - 1]);
      PercentSumIsShare(init, counts, total);
      AddFractions(SumOf(init, counts) as real, c as real, total as real);
    }
  }

  /** The exact percentages of all qualities, before the one-decimal print, add up to 100. */
  lemma PercentagesSumTo100(cells: seq<Cell>)
    requires |cells| > 0
    ensures PercentSum(FirstSeen(Qualities(cells)), QualityCounts(Qualities(cells)), |cells|) == 100.0
  {
    var qs := Qualities(cells);
    PercentSumIsShare(FirstSeen(qs), QualityCounts(qs), |cells|);
    CountsSumToTotal(cells);
    WholeShare(|cells|);
  }

  lemma WholeShare(n: nat)
    requires n > 0
    ensures n as real / n as real * 100.0 == 100.0
  {
  }

  // ----- the weighted quality score -----

  /** `quality_weights`, in its key order. */
  const QUALITY_WEIGHTS: seq<(string, int)> :=
    [("Good", 100), ("Satisfactory", 70), ("Poor", 40), ("Very Poor", 10), ("Unknown", 50)]

  predicate DistinctKeys(ws: seq<(string, int)>)
  {
    forall i, j :: 0 <= i < j < |ws| ==> ws[i].0 != ws[j].0
  }

  /** No quality is weighted twice. */
  lemma WeightKeysDistinct()
    ensures DistinctKeys(QUALITY_WEIGHTS)
  {
    var ws := QUALITY_WEIGHTS;
    assert ws[0].0 == "Good" && ws[1].0 == "Satisfactory" && ws[2].0 == "Poor";
    assert ws[3].0 == "Very Poor" && ws[4].0 == "Unknown";
  }

  /** `quality_weights.get(q, 0)`: the weight of a quality, 0 when it has none. */
  function WeightOf(ws: seq<(string, int)>, q: string): (w: int)
    ensures (forall i :: 0 <= i < |ws| ==> ws[i].0 != q) ==> w == 0
    ensures DistinctKeys(ws) ==> forall i :: 0 <= i < |ws| && ws[i].0 == q ==> w == ws[i].1
  {
    if ws == [] then 0
    else if ws[|ws| - 1].0 == q then ws[|ws| - 1].1
    else WeightOf(ws[..|ws| - 1], q)
  }

  /** `total_score`: the sum over the weighted qualities of count times weight. */
  function TotalScore(ws: seq<(string, int)>, counts: map<string, nat>): int
  {
    if ws == [] then 0
    else TotalScore(ws[..|ws| - 1], counts) + Get(counts, ws[|ws| - 1].0) * ws[|ws| - 1].1
  }

  /** The reference score: each cell adds the weight of its quality, 0 for an unweighted one. */
  function CellScoreSum(ws: seq<(string, int)>, qs: seq<string>): int
  {
    if qs == [] then 0 else CellScoreSum(ws, qs[..|qs| - 1]) + WeightOf(ws, qs[|qs| - 1])
  }

  /** The score of the counts of `qs`, written with Count. */
  function WeightedCounts(ws: seq<(string, int)>, qs: seq<string>): int
  {
    if ws == [] then 0
    else WeightedCounts(ws[..|ws| - 1], qs) + Count(qs, ws[|ws| - 1].0) * ws[|ws| - 1].1
  }

  lemma {:induction false} TotalScoreOfCounts(ws: seq<(string, int)>, qs: seq<string>)
    ensures TotalScore(ws, QualityCounts(qs)) == WeightedCounts(ws, qs)
  {
    if ws != [] {
      TotalScoreOfCounts(ws[..|ws| - 1], qs);
      var k := ws[|ws| - 1].0;
      QualityCountsMeaning(qs);
      assert Get(QualityCounts(qs), k) == Count(qs, k);
    }
  }

  lemma MulSnoc(c: int, w: int, b: bool)
    ensures (c + (if b then 1 else 0)) * w == c * w + (if b then w else 0)
  {
  }

  lemma {:induction false} WeightedCountsSnoc(ws: seq<(string, int)>, qs: seq<string>, z: string)
    requires DistinctKeys(ws)
    ensures WeightedCounts(ws, qs + [z]) == WeightedCounts(ws, qs) + WeightOf(ws, z)
  {
    if ws != [] {
      var init, k, w := ws[..|ws| - 1], ws[|ws| - 1].0, ws[|ws| - 1].1;
      assert DistinctKeys(init);
      WeightedCountsSnoc(init, qs, z);
      CountSnoc(qs, z, k);
      MulSnoc(Count(qs, k), w, z == k);
      if z == k {
        forall i | 0 <= i < |init|
          ensures init[i].0 != z
        {
          assert init[i] == ws[i];
        }
      }
    }
  }

  lemma {:induction false} WeightedCountsIsCellSum(ws: seq<(string, int)>, qs: seq<string>)
    requires DistinctKeys(ws)
    ensures WeightedCounts(ws, qs) == CellScoreSum(ws, qs)
  {
    if qs == [] {
      WeightedCountsOfEmpty(ws, qs);
    } else {
      var init := qs[..|qs| - 1];
      assert qs == init + [qs[|qs| - 1]];
      WeightedCountsIsCellSum(ws, init);
      WeightedCountsSnoc(ws, init, qs[|qs| - 1]);
    }
  }

  lemma {:induction false} WeightedCountsOfEmpty(ws: seq<(string, int)>, qs: seq<string>)
    requires qs == []
    ensures WeightedCounts(ws, qs) == 0
  {
    if ws != [] {
      WeightedCountsOfEmpty(ws[..|ws| - 1], qs);
    }
  }

  /**
    The visualizer's total score, summed over the weight table, equals the sum of
    each cell's own weight: qualities outside the table add nothing.
  */
  lemma TotalScoreIsPerCellSum(cells: seq<Cell>)
    ensures TotalScore(QUALITY_WEIGHTS, QualityCounts(Qualities(cells)))
         == CellScoreSum(QUALITY_WEIGHTS, Qualities(cells))
  {
    var qs := Qualities(cells);
    WeightKeysDistinct();
    TotalScoreOfCounts(QUALITY_WEIGHTS, qs);
    WeightedCountsIsCellSum(QUALITY_WEIGHTS, qs);
  }

  /** `average_score = total_score / total_cells`; an empty cell list divides by zero. */
  function AverageScore(cells: seq<Cell>): real
    requires |cells| > 0
  {
    TotalScore(QUALITY_WEIGHTS, QualityCounts(Qualities(cells))) as real / |cells| as real
  }

  /** Each of the five quality names weighs between 10 and 100. */
  lemma WeightBounds(q: string)
    requires q in QUALITY_NAMES
    ensures 10 <= WeightOf(QUALITY_WEIGHTS, q) <= 100
  {
    var ws := QUALITY_WEIGHTS;
    WeightKeysDistinct();
    var i :| 0 <= i < |QUALITY_NAMES| && QUALITY_NAMES[i] == q;
    assert ws[i].0 == q;
  }

  /** Each weighted cell adds between 10 and 100. */
  lemma {:induction false} CellScoreBounds(qs: seq<string>)
    requires forall i :: 0 <= i < |qs| ==> qs[i] in QUALITY_NAMES
    ensures 10 * |qs| <= CellScoreSum(QUALITY_WEIGHTS, qs) <= 100 * |qs|
  {
    if qs != [] {
      var init := qs[..|qs| - 1];
      assert forall i :: 0 <= i < |init| ==> init[i] == qs[i];
      CellScoreBounds(init);
      WeightBounds(qs[|qs| - 1]);
    }
  }

  /** When every quality is one of the five weighted names, the average lies in [10, 100]. */
  lemma AverageScoreBounds(cells: seq<Cell>)
    requires |cells| > 0
    requires forall i :: 0 <= i < |cells| ==> cells[i].quality in QUALITY_NAMES
    ensures 10.0 <= AverageScore(cells) <= 100.0
  {
    var qs := Qualities(cells);
    TotalScoreIsPerCellSum(cells);
    CellScoreBounds(qs);
    var sum := CellScoreSum(QUALITY_WEIGHTS, qs);
    DivisionBounds(sum, |cells|, 10, 100);
  }

  /** A sum between lo * n and hi * n, divided by n, lies between lo and hi. */
  lemma DivisionBounds(sum: int, n: nat, lo: int, hi: int)
    requires n > 0 && lo * n <= sum <= hi * n
    ensures lo as real <= sum as real / n as real <= hi as real
  {
    var avg := sum as real / n as real;
    assert avg * n as real == sum as real;
    assert (lo * n) as real == lo as real * n as real;
    assert (hi * n) as real == hi as real * n as real;
    Corridor.LessAfterScaling(avg, lo as real, n as real);
    Corridor.LessAfterScaling(hi as real, avg, n as real);
  }

  // ----- verdict bands -----

  datatype Verdict = Excellent | GoodNetwork | Moderate | NeedsImprovement

  /** The verdict printed for an average score: bands with inclusive lower bounds 80, 60 and 40. */
  function VerdictFor(score: real): Verdict
  {
    if score >= 80.0 then Excellent
    else if score >= 60.0 then GoodNetwork
    else if score >= 40.0 then Moderate
    else NeedsImprovement
  }

  /** How good a verdict is: 3 for Excellent down to 0. */
  function Rank(v: Verdict): (r: int)
    ensures 0 <= r <= 3
  {
    match v
    case Excellent => 3
    case GoodNetwork => 2
    case Moderate => 1
    case NeedsImprovement => 0
  }

  /** The rank of the verdict is the number of thresholds the score reaches. */
  lemma VerdictCountsThresholds(score: real)
    ensures Rank(VerdictFor(score)) ==
      (if score >= 80.0 then 1 else 0) + (if score >= 60.0 then 1 else 0) + (if score >= 40.0 then 1 else 0)
  {
  }

  /** A higher score never gets a worse verdict. */
  lemma VerdictMonotone(s1: real, s2: real)
    requires s1 <= s2
    ensures Rank(VerdictFor(s1)) <= Rank(VerdictFor(s2))
  {
  }

  /** One line of the printed distribution: quality, count and percentage. */
  datatype Share = Share(quality: string, count: nat, percentage: real)

  datatype Report = Report(totalCells: nat, distribution: seq<Share>, averageScore: real, verdict: Verdict)

  /** The loop that lists each quality, in dict order, with its count and percentage. */
  method Distribution(order: seq<string>, counts: map<string, nat>, totalCells: nat) returns (distribution: seq<Share>)
    requires totalCells > 0
    requires forall i :: 0 <= i < |order| ==> order[i] in counts
    ensures |distribution| == |order|
    ensures forall i :: 0 <= i < |order| ==>
      distribution[i] == Share(order[i], counts[order[i]], Percentage(counts[order[i]], totalCells))
  {
    distribution := [];
    var k := 0;
    while k < |order|
      invariant 0 <= k <= |order|
      invariant |distribution| == k
      invariant forall i :: 0 <= i < k ==>
        distribution[i] == Share(order[i], counts[order[i]], Percentage(counts[order[i]], totalCells))
    {
      var quality := order[k];
      var count := counts[quality];
      distribution := distribution + [Share(quality, count, Percentage(count, totalCells))];
      k := k + 1;
    }
  }

  /** Every key of the dict order has its count in the counts dict. */
  lemma OrderHasCounts(qs: seq<string>)
    ensures forall i :: 0 <= i < |FirstSeen(qs)| ==>
      FirstSeen(qs)[i] in QualityCounts(qs) && QualityCounts(qs)[FirstSeen(qs)[i]] == Count(qs, FirstSeen(qs)[i])
  {
    var order, counts := FirstSeen(qs), QualityCounts(qs);
    FirstSeenMembers(qs);
    QualityCountsMeaning(qs);
    forall i | 0 <= i < |order|
      ensures order[i] in counts && counts[order[i]] == Count(qs, order[i])
    {
      assert order[i] in qs;
    }
  }

  /**
    analyze_grid_statistics: the number of cells, each quality's count and
    percentage in first-seen order, the average weighted score and its
    verdict. analyze_grid_statistics divides by the number of cells, so there must be one.
  */
  method AnalyzeGridStatistics(cells: seq<Cell>) returns (report: Report)
    requires |cells| > 0
    ensures report.totalCells == |cells|
    ensures |report.distribution| == |FirstSeen(Qualities(cells))|
    ensures forall i :: 0 <= i < |report.distribution| ==>
      var share := report.distribution[i];
      share.quality == FirstSeen(Qualities(cells))[i] &&
      share.count == Count(Qualities(cells), share.quality) &&
      share.percentage == Percentage(share.count, |cells|)
    ensures report.averageScore == AverageScore(cells)
    ensures report.averageScore == CellScoreSum(QUALITY_WEIGHTS, Qualities(cells)) as real / |cells| as real
    ensures report.verdict == VerdictFor(report.averageScore)
  {
    var order, counts := CountQualities(cells);
    OrderHasCounts(Qualities(cells));
    var totalCells := |cells|;
    var distribution := Distribution(order, counts, totalCells);
    var totalScore := TotalScore(QUALITY_WEIGHTS, counts);
    TotalScoreIsPerCellSum(cells);
    var averageScore := totalScore as real / totalCells as real;
    report := Report(totalCells, distribution, averageScore, VerdictFor(averageScore));
  }

  // ----- map helpers -----

  /** `rect_coords`: the polygon of a cell, corner by corner and closed. */
  function RectRing(latBounds: (real, real), lngBounds: (real, real)): seq<(real, real)>
  {
    [(latBounds.0, lngBounds.0), (latBounds.0, lngBounds.1), (latBounds.1, lngBounds.1),
     (latBounds.1, lngBounds.0), (latBounds.0, lngBounds.0)]
  }

  /**
    The ring has five points and is closed; each edge keeps one coordinate
    (so it runs along a cell side); every point is a corner of the bounds; and
    for a cell of positive size the four corners are distinct.
  */
  lemma RectRingIsClosedRectangle(latBounds: (real, real), lngBounds: (real, real))
    ensures var ring := RectRing(latBounds, lngBounds);
      && |ring| == 5 && ring[0] == ring[4]
      && ring[0] == (latBounds.0, lngBounds.0) && ring[1] == (latBounds.0, lngBounds.1)
      && ring[2] == (latBounds.1, lngBounds.1) && ring[3] == (latBounds.1, lngBounds.0)
      && (forall i :: 0 <= i < 4 ==> ring[i].0 == ring[i + 1].0 || ring[i].1 == ring[i + 1].1)
      && (forall i :: 0 <= i < 5 ==>
            (ring[i].0 == latBounds.0 || ring[i].0 == latBounds.1) &&
            (ring[i].1 == lngBounds.0 || ring[i].1 == lngBounds.1))
      && (latBounds.0 < latBounds.1 && lngBounds.0 < lngBounds.1 ==>
            forall i, j :: 0 <= i < j < 4 ==> ring[i] != ring[j])
  {
  }

  /** `color_map`, the same in both drawing functions. */
  const COLOR_MAP: map<string, string> := map[
    "Good" := "#22c55e",
    "Satisfactory" := "#f97316",
    "Poor" := "#ef4444",
    "Very Poor" := "#8b4513",
    "Unknown" := "#6b7280"]

  /** `color_map.get(quality, '#6b7280')`. */
  function ColorFor(quality: string): (color: string)
    ensures quality !in COLOR_MAP ==> color == UNKNOWN_COLOR
    ensures quality in COLOR_MAP ==> color == COLOR_MAP[quality]
  {
    if quality in COLOR_MAP then COLOR_MAP[quality] else UNKNOWN_COLOR
  }

  /**
    The visualizer paints each quality in the colour the server stores for it:
    its colour table is the server's, and every server cell's colour is the
    one the visualizer looks up for the cell's quality.
  */
  lemma VisualizerColorsMatchServer(modelColors: Optional.Option<map<string, string>>,
                                    draw: (int, int) -> string, row: int, col: int)
    ensures COLOR_MAP == QUALITY_COLORS
    ensures forall q :: ColorFor(q) == QualityColor(q)
    ensures ColorFor(MakeCell(modelColors, draw, row, col).quality) == MakeCell(modelColors, draw, row, col).color
  {
    CellColorMatchesQuality(modelColors, draw, row, col);
  }
}
