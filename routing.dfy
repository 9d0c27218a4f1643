/**
  Route decisions of the route server (api_server.py): whether the direct
  OSRM route is good enough, the strategic waypoints of a guided route, the
  request validation of POST /route, and the per-sample quality summary of
  the response. OSRM replies, `random.random()` and the square root of the
  distance penalty are parameters.
*/
module Routing {
  import opened Optional
  import opened Tally
  import opened RoadGrid
  import Corridor

  /** A (latitude, longitude) pair. */
  type Point = (real, real)

  /** `s[::n]`: every n-th element, starting with the first. */
  function EveryNth<T>(s: seq<T>, n: nat): seq<T>
    requires n > 0
    decreases |s|
  {
    if s == [] then [] else [s[0]] + EveryNth(s[if n <= |s| then n else |s|..], n)
  }

  lemma MulAtLeast(k: int, n: int)
    requires k >= 1 && n > 0
    ensures k * n >= n
  {
    assert k * n - n == (k - 1) * n;
  }

  lemma DivStep(x: nat, n: nat)
    requires n > 0
    ensures (x + n) / n == x / n + 1
  {
    var q, r := x / n, x % n;
    var q2, r2 := (x + n) / n, (x + n) % n;
    var k := q2 - q - 1;
    assert k * n == r - r2 by {
      assert k * n == q2 * n - q * n - n;
    }
    if k >= 1 {
      MulAtLeast(k, n);
    } else if k <= -1 {
      MulAtLeast(-k, n);
    }
  }

  /** `s[::n]` has one element per started n-block of `s`. */
  lemma {:induction false} EveryNthLength<T>(s: seq<T>, n: nat)
    requires n > 0
    ensures |EveryNth(s, n)| == (|s| + n - 1) / n
    decreases |s|
  {
    if s != [] {
      if n <= |s| {
        EveryNthLength(s[n..], n);
        DivStep(|s| - n + n - 1, n);
      } else {
        assert EveryNth(s, n) == [s[0]] + EveryNth(s[|s|..], n);
        assert s[|s|..] == [];
        assert (|s| + n - 1) / n == 1 by {
          assert n <= |s| + n - 1 < 2 * n;
        }
      }
    }
  }

  lemma BlockShift(i: int, n: int)
    ensures (i - 1) * n + n == i * n
  {
  }

  /** The i-th element of `s[::n]` is the first of the i-th n-block. */
  lemma {:induction false} EveryNthElements<T>(s: seq<T>, n: nat)
    requires n > 0
    ensures forall i :: 0 <= i < |EveryNth(s, n)| ==> i * n < |s| && EveryNth(s, n)[i] == s[i * n]
    decreases |s|
  {
    if s != [] {
      var k := if n <= |s| then n else |s|;
      var r, rest := EveryNth(s, n), EveryNth(s[k..], n);
      EveryNthElements(s[k..], n);
      forall i | 0 < i < |r|
        ensures i * n < |s| && r[i] == s[i * n]
      {
        assert r[i] == rest[i - 1];
        assert (i - 1) * n < |s[k..]|;
        BlockShift(i, n);
      }
    }
  }

  /** `s[::n]` has one element per n-block of `s`, the first of each block. */
  lemma EveryNthShape<T>(s: seq<T>, n: nat)
    requires n > 0
    ensures |EveryNth(s, n)| == (|s| + n - 1) / n
    ensures forall i :: 0 <= i < |EveryNth(s, n)| ==> i * n < |s| && EveryNth(s, n)[i] == s[i * n]
  {
    EveryNthLength(s, n);
    EveryNthElements(s, n);
  }

  /** OSRM's [lng, lat] coordinates turned into [lat, lng] points. */
  function LatLng(coords: seq<(real, real)>): (route: seq<Point>)
    ensures |route| == |coords|
    ensures forall i :: 0 <= i < |coords| ==> route[i] == (coords[i].1, coords[i].0)
  {
    seq(|coords|, i requires 0 <= i < |coords| => (coords[i].1, coords[i].0))
  }

  /** `grid.get(f'{row},{col}')` for the cell a point is looked up in. */
  function CellAt(grid: map<string, Cell>, p: Point): Option<Cell>
  {
    var key := GridKey(RowIndex(p.0), ColIndex(p.1));
    if key in grid then Some(grid[key]) else None
  }

  /** `cell and cell['quality'] in ['Poor', 'Very Poor']`. */
  predicate IsPoorSample(grid: map<string, Cell>, p: Point)
  {
    var cell := CellAt(grid, p);
    cell.Some? && (cell.value.quality == "Poor" || cell.value.quality == "Very Poor")
  }

  /** Number of samples that fall in Poor or Very Poor cells. */
  function PoorCount(grid: map<string, Cell>, samples: seq<Point>): (n: nat)
    ensures n <= |samples|
  {
    if samples == [] then 0
    else PoorCount(grid, samples[..|samples| - 1]) + (if IsPoorSample(grid, samples[|samples| - 1]) then 1 else 0)
  }

  datatype RouteStatus = Direct | NeedsGuidance | Fallback

  /** The route is direct unless at least 30% of the samples are poor. */
  function GuidanceDecision(poor: nat, total: nat): RouteStatus
  {
    if total == 0 || 10 * poor < 3 * total then Direct else NeedsGuidance
  }

  /** The integer test is the server's ratio test `poor / total < 0.3` in exact arithmetic. */
  lemma DecisionMatchesRatio(poor: nat, total: nat)
    requires total > 0
    ensures GuidanceDecision(poor, total) == Direct <==> (poor as real / total as real) < 0.3
    ensures GuidanceDecision(poor, total) != Fallback
  {
    var ratio := poor as real / total as real;
    assert ratio * total as real == poor as real;
    Corridor.LessAfterScaling(ratio, 0.3, total as real);
  }

  /** More poor samples out of the same total never turn a guided route back into a direct one. */
  lemma DecisionMonotone(poor1: nat, poor2: nat, total: nat)
    requires poor1 <= poor2
    ensures GuidanceDecision(poor2, total) == Direct ==> GuidanceDecision(poor1, total) == Direct
  {
  }

  /**
    The direct OSRM route and its status: the straight line [start, end] with
    Fallback when the request fails or finds no route, otherwise the route
    and the decision over its every-10th-point samples.
  */
  method DirectRouteWithAvoidance(grid: map<string, Cell>, start: Point, end: Point,
                                  reply: Option<seq<(real, real)>>)
    returns (route: seq<Point>, status: RouteStatus)
    ensures reply.None? ==> route == [start, end] && status == Fallback
    ensures reply.Some? ==> (route == LatLng(reply.value) &&
      status == GuidanceDecision(PoorCount(grid, EveryNth(route, 10)), |EveryNth(route, 10)|))
  {
    if reply.None? {
      return [start, end], Fallback;
    }
    route := LatLng(reply.value);
    var samples := EveryNth(route, 10);
    var poor, total := 0, 0;
    var i := 0;
    while i < |samples|
      invariant 0 <= i <= |samples|
      invariant total == i && poor == PoorCount(grid, samples[..i])
    {
      assert samples[..i + 1][..i] == samples[..i];
      if IsPoorSample(grid, samples[i]) {
        poor := poor + 1;
      }
      total := total + 1;
      i := i + 1;
    }
    assert samples[..i] == samples;
    status := GuidanceDecision(poor, total);
  }

  // ----- strategic waypoints (get_guided_route_with_waypoints) -----

  const FRACTIONS: seq<real> := [0.4, 0.7]

  /** The offsets (dr, dc) checked around a target both range over -2..2. */
  predicate InSearchSquare(dr: int, dc: int)
  {
    -2 <= dr <= 2 && -2 <= dc <= 2
  }

  /** Position of offset (dr, dc) in the row-by-row scan of the 5 x 5 search square. */
  function ScanPosition(dr: int, dc: int): int
  {
    (dr + 2) * 5 + (dc + 2)
  }

  /** The offset (dr, dc) is one of the first `n` offsets the scan checks. */
  predicate ScannedBefore(dr: int, dc: int, n: int)
  {
    InSearchSquare(dr, dc) && ScanPosition(dr, dc) < n
  }

  /** A checked cell is a candidate when it is on the grid and in the corridor. */
  predicate IsCandidate(qualityCells: set<(int, int)>, r: int, c: int)
  {
    InGrid(r, c) && (r, c) in qualityCells
  }

  /** `quality_score - distance_penalty * 0.1` for the cell checked at offset (dr, dc). */
  function CombinedScore(grid: map<string, Cell>, dist: (int, int) -> real, r: int, c: int, dr: int, dc: int): real
    requires GridKey(r, c) in grid
  {
    Corridor.Priority(grid[GridKey(r, c)].quality) as real - dist(dr, dc) * 0.1
  }

  /** The cell checked at offset (dr, dc) from a target: `int(target + d)` on both axes. */
  function Checked(targetRow: real, targetCol: real, dr: int, dc: int): (int, int)
  {
    (Trunc(targetRow + dr as real), Trunc(targetCol + dc as real))
  }

  /** The best candidate so far scores `score` at one of the first `n` offsets. */
  ghost predicate Achieved(grid: map<string, Cell>, qualityCells: set<(int, int)>, dist: (int, int) -> real,
                           targetRow: real, targetCol: real, best: (int, int), score: real, n: int)
    requires HasAllCells(grid)
  {
    exists dr, dc :: ScannedBefore(dr, dc, n) && Checked(targetRow, targetCol, dr, dc) == best &&
      IsCandidate(qualityCells, best.0, best.1) && CombinedScore(grid, dist, best.0, best.1, dr, dc) == score
  }

  /** No candidate at the first `n` offsets scores above `score`. */
  ghost predicate Dominates(grid: map<string, Cell>, qualityCells: set<(int, int)>, dist: (int, int) -> real,
                            targetRow: real, targetCol: real, score: real, n: int)
    requires HasAllCells(grid)
  {
    forall dr, dc :: ScannedBefore(dr, dc, n) ==>
      var rc := Checked(targetRow, targetCol, dr, dc);
      IsCandidate(qualityCells, rc.0, rc.1) ==> CombinedScore(grid, dist, rc.0, rc.1, dr, dc) <= score
  }

  /** Scanning one more offset keeps the earlier bound and adds the new candidate's score. */
  lemma DominatesStep(grid: map<string, Cell>, qualityCells: set<(int, int)>, dist: (int, int) -> real,
                      targetRow: real, targetCol: real, score: real, newScore: real, dr: int, dc: int)
    requires HasAllCells(grid) && InSearchSquare(dr, dc)
    requires Dominates(grid, qualityCells, dist, targetRow, targetCol, score, ScanPosition(dr, dc))
    requires score <= newScore
    requires var rc := Checked(targetRow, targetCol, dr, dc);
      IsCandidate(qualityCells, rc.0, rc.1) ==> CombinedScore(grid, dist, rc.0, rc.1, dr, dc) <= newScore
    ensures Dominates(grid, qualityCells, dist, targetRow, targetCol, newScore, ScanPosition(dr, dc) + 1)
  {
    forall d, e | ScannedBefore(d, e, ScanPosition(dr, dc) + 1)
      ensures var rc := Checked(targetRow, targetCol, d, e);
        IsCandidate(qualityCells, rc.0, rc.1) ==> CombinedScore(grid, dist, rc.0, rc.1, d, e) <= newScore
    {
      if !ScannedBefore(d, e, ScanPosition(dr, dc)) {
        assert d == dr && e == dc;
      }
    }
  }

  /** A best candidate found at an earlier offset stays found as the scan goes on. */
  lemma AchievedLater(grid: map<string, Cell>, qualityCells: set<(int, int)>, dist: (int, int) -> real,
                      targetRow: real, targetCol: real, best: (int, int), score: real, n: int, m: int)
    requires HasAllCells(grid) && n <= m
    requires Achieved(grid, qualityCells, dist, targetRow, targetCol, best, score, n)
    ensures Achieved(grid, qualityCells, dist, targetRow, targetCol, best, score, m)
  {
    var d, e :| ScannedBefore(d, e, n) && Checked(targetRow, targetCol, d, e) == best &&
      IsCandidate(qualityCells, best.0, best.1) && CombinedScore(grid, dist, best.0, best.1, d, e) == score;
    assert ScannedBefore(d, e, m);
  }

  const SCAN_LENGTH: int := 25

  /**
    The best cell near a target position: over the 25 offsets of the search
    square, the candidate with the highest combined score above the initial
    -1, or none; a later candidate replaces the best only with a strictly
    higher score.
  */
  method BestCellNear(grid: map<string, Cell>, qualityCells: set<(int, int)>, dist: (int, int) -> real,
                      targetRow: real, targetCol: real)
    returns (best: Option<(int, int)>, bestScore: real)
    requires HasAllCells(grid)
    ensures bestScore >= -1.0
    ensures best.None? ==> bestScore == -1.0
    ensures best.Some? ==> Achieved(grid, qualityCells, dist, targetRow, targetCol, best.value, bestScore, SCAN_LENGTH)
    ensures Dominates(grid, qualityCells, dist, targetRow, targetCol, bestScore, SCAN_LENGTH)
  {
    best, bestScore := None, -1.0;
    var dr := -2;
    while dr <= 2
      invariant -2 <= dr <= 3
      invariant bestScore >= -1.0 && (best.None? ==> bestScore == -1.0)
      invariant best.Some? ==> Achieved(grid, qualityCells, dist, targetRow, targetCol, best.value, bestScore, (dr + 2) * 5)
      invariant Dominates(grid, qualityCells, dist, targetRow, targetCol, bestScore, (dr + 2) * 5)
    {
      var dc := -2;
      while dc <= 2
        invariant -2 <= dc <= 3
        invariant bestScore >= -1.0 && (best.None? ==> bestScore == -1.0)
        invariant best.Some? ==> Achieved(grid, qualityCells, dist, targetRow, targetCol, best.value, bestScore, ScanPosition(dr, dc))
        invariant Dominates(grid, qualityCells, dist, targetRow, targetCol, bestScore, ScanPosition(dr, dc))
      {
        var rc := Checked(targetRow, targetCol, dr, dc);
        ghost var oldScore := bestScore;
        if IsCandidate(qualityCells, rc.0, rc.1) {
          var combined := CombinedScore(grid, dist, rc.0, rc.1, dr, dc);
          if combined > bestScore {
            best, bestScore := Some(rc), combined;
            assert ScannedBefore(dr, dc, ScanPosition(dr, dc) + 1);
          } else if best.Some? {
            AchievedLater(grid, qualityCells, dist, targetRow, targetCol, best.value, bestScore,
                          ScanPosition(dr, dc), ScanPosition(dr, dc) + 1);
          }
        } else if best.Some? {
          AchievedLater(grid, qualityCells, dist, targetRow, targetCol, best.value, bestScore,
                        ScanPosition(dr, dc), ScanPosition(dr, dc) + 1);
        }
        DominatesStep(grid, qualityCells, dist, targetRow, targetCol, oldScore, bestScore, dr, dc);
        dc := dc + 1;
      }
      dr := dr + 1;
    }
  }

  /**
    Some corridor candidate checked around the target scores at least 2, so
    that the best one found passes `best_quality_score >= 2`.
  */
  ghost predicate GoodNear(grid: map<string, Cell>, qualityCells: set<(int, int)>, dist: (int, int) -> real,
                           targetRow: real, targetCol: real)
    requires HasAllCells(grid)
  {
    exists dr, dc :: ScannedBefore(dr, dc, SCAN_LENGTH) &&
      var rc := Checked(targetRow, targetCol, dr, dc);
      IsCandidate(qualityCells, rc.0, rc.1) && CombinedScore(grid, dist, rc.0, rc.1, dr, dc) >= 2.0
  }

  /** The scan adds a waypoint exactly when some candidate near the target scores at least 2. */
  lemma FoundIffGoodNear(grid: map<string, Cell>, qualityCells: set<(int, int)>, dist: (int, int) -> real,
                         targetRow: real, targetCol: real, best: Option<(int, int)>, bestScore: real)
    requires HasAllCells(grid)
    requires best.None? ==> bestScore == -1.0
    requires best.Some? ==> Achieved(grid, qualityCells, dist, targetRow, targetCol, best.value, bestScore, SCAN_LENGTH)
    requires Dominates(grid, qualityCells, dist, targetRow, targetCol, bestScore, SCAN_LENGTH)
    ensures best.Some? && bestScore >= 2.0 <==> GoodNear(grid, qualityCells, dist, targetRow, targetCol)
  {
    if best.Some? && bestScore >= 2.0 {
      var dr, dc :| ScannedBefore(dr, dc, SCAN_LENGTH) && Checked(targetRow, targetCol, dr, dc) == best.value &&
        IsCandidate(qualityCells, best.value.0, best.value.1) &&
        CombinedScore(grid, dist, best.value.0, best.value.1, dr, dc) == bestScore;
      assert ScannedBefore(dr, dc, SCAN_LENGTH);
    }
    if GoodNear(grid, qualityCells, dist, targetRow, targetCol) {
      var dr, dc :| ScannedBefore(dr, dc, SCAN_LENGTH) &&
        var rc := Checked(targetRow, targetCol, dr, dc);
        IsCandidate(qualityCells, rc.0, rc.1) && CombinedScore(grid, dist, rc.0, rc.1, dr, dc) >= 2.0;
      var rc := Checked(targetRow, targetCol, dr, dc);
      assert CombinedScore(grid, dist, rc.0, rc.1, dr, dc) <= bestScore;
    }
  }

  /** `max(lo, min(hi, x))`. */
  function ClampInto(lo: real, hi: real, x: real): (r: real)
    ensures lo <= hi ==> lo <= r <= hi
    ensures lo <= x <= hi ==> r == x
  {
    var m := if hi <= x then hi else x;
    if lo >= m then lo else m
  }

  /** A waypoint inside the bounds of a corridor cell of priority at least 2. */
  ghost predicate InGoodCell(grid: map<string, Cell>, qualityCells: set<(int, int)>, p: Point)
    requires ValidGrid(grid)
  {
    exists r, c :: IsCandidate(qualityCells, r, c) &&
      var cell := grid[GridKey(r, c)];
      Corridor.Priority(cell.quality) >= 2 &&
      cell.latBounds.0 <= p.0 <= cell.latBounds.1 && cell.lngBounds.0 <= p.1 <= cell.lngBounds.1
  }

  /** The scan target `fraction` of the way from the start cell to the end cell. */
  function TargetAt(start: Point, end: Point, fraction: real): (real, real)
  {
    var startRow, startCol := RowIndex(start.0), ColIndex(start.1);
    (startRow as real + (RowIndex(end.0) - startRow) as real * fraction,
     startCol as real + (ColIndex(end.1) - startCol) as real * fraction)
  }

  /** How many of the first `k` fractions have a candidate scoring at least 2 near their target. */
  ghost function GoodTargets(grid: map<string, Cell>, qualityCells: set<(int, int)>, dist: (int, int) -> real,
                             start: Point, end: Point, k: nat): nat
    requires HasAllCells(grid) && k <= |FRACTIONS|
  {
    if k == 0 then 0
    else
      var target := TargetAt(start, end, FRACTIONS[k - 1]);
      GoodTargets(grid, qualityCells, dist, start, end, k - 1) +
      (if GoodNear(grid, qualityCells, dist, target.0, target.1) then 1 else 0)
  }

  /** Squared distance in cells between the start and end cells. */
  function JourneyCells2(start: Point, end: Point): int
  {
    var dr, dc := RowIndex(end.0) - RowIndex(start.0), ColIndex(end.1) - ColIndex(start.1);
    dr * dr + dc * dc
  }

  /**
    `p` lies inside the cell checked at some offset around the target, a
    corridor candidate scoring at least 2 that no other candidate of the
    scan outscores.
  */
  ghost predicate InBestCellNear(grid: map<string, Cell>, qualityCells: set<(int, int)>, dist: (int, int) -> real,
                                 target: (real, real), p: Point)
    requires ValidGrid(grid)
  {
    exists dr, dc :: ScannedBefore(dr, dc, SCAN_LENGTH) &&
      var rc := Checked(target.0, target.1, dr, dc);
      IsCandidate(qualityCells, rc.0, rc.1) &&
      var score := CombinedScore(grid, dist, rc.0, rc.1, dr, dc);
      score >= 2.0 && Dominates(grid, qualityCells, dist, target.0, target.1, score, SCAN_LENGTH) &&
      var cell := grid[GridKey(rc.0, rc.1)];
      cell.latBounds.0 <= p.0 <= cell.latBounds.1 && cell.lngBounds.0 <= p.1 <= cell.lngBounds.1
  }

  /**
    The waypoint placed near one target: the centre of the best nearby
    corridor cell shifted by `(latDraw - 0.5) * 0.3` and `(lngDraw - 0.5) * 0.3`
    of a cell and clamped into the cell's bounds, or none when the best cell
    scores below 2 or there is no candidate.
  */
  method WaypointNear(grid: map<string, Cell>, qualityCells: set<(int, int)>, dist: (int, int) -> real,
                      target: (real, real), latDraw: real, lngDraw: real)
    returns (waypoint: Option<Point>)
    requires ValidGrid(grid)
    requires forall dr, dc :: dist(dr, dc) >= 0.0
    ensures waypoint.Some? <==> GoodNear(grid, qualityCells, dist, target.0, target.1)
    ensures waypoint.Some? ==> InGoodCell(grid, qualityCells, waypoint.value)
    ensures waypoint.Some? ==> InBestCellNear(grid, qualityCells, dist, target, waypoint.value)
  {
    var (targetRow, targetCol) := target;
    var best, bestScore := BestCellNear(grid, qualityCells, dist, targetRow, targetCol);
    FoundIffGoodNear(grid, qualityCells, dist, targetRow, targetCol, best, bestScore);
    if best.Some? && bestScore >= 2.0 {
      var cell := grid[GridKey(best.value.0, best.value.1)];
      ghost var d, e :| ScannedBefore(d, e, SCAN_LENGTH)
        && Checked(targetRow, targetCol, d, e) == best.value
        && IsCandidate(qualityCells, best.value.0, best.value.1)
        && CombinedScore(grid, dist, best.value.0, best.value.1, d, e) == bestScore;
      assert Corridor.Priority(cell.quality) >= 2 by {
        assert Corridor.Priority(cell.quality) as real >= bestScore;
      }
      var latOffset := (latDraw - 0.5) * 0.3;
      var lngOffset := (lngDraw - 0.5) * 0.3;
      var lat := ClampInto(cell.latBounds.0, cell.latBounds.1, cell.centerLat + latOffset * LAT_STEP);
      var lng := ClampInto(cell.lngBounds.0, cell.lngBounds.1, cell.centerLng + lngOffset * LNG_STEP);
      assert InGoodCell(grid, qualityCells, (lat, lng));
      assert ScannedBefore(d, e, SCAN_LENGTH);
      waypoint := Some((lat, lng));
    } else {
      waypoint := None;
    }
  }

  /** One round of the fraction loop: the waypoint near the k-th target, if any, is appended. */
  method NextWaypoint(grid: map<string, Cell>, start: Point, end: Point, qualityCells: set<(int, int)>,
                      dist: (int, int) -> real, rand: nat -> real, k: nat, intermediate: seq<Point>, draws: nat)
    returns (intermediate': seq<Point>, draws': nat)
    requires ValidGrid(grid)
    requires forall dr, dc :: dist(dr, dc) >= 0.0
    requires k < |FRACTIONS| && |intermediate| == GoodTargets(grid, qualityCells, dist, start, end, k)
    requires forall i :: 0 <= i < |intermediate| ==> InGoodCell(grid, qualityCells, intermediate[i])
    ensures |intermediate'| == GoodTargets(grid, qualityCells, dist, start, end, k + 1)
    ensures forall i :: 0 <= i < |intermediate'| ==> InGoodCell(grid, qualityCells, intermediate'[i])
  {
    var target := TargetAt(start, end, FRACTIONS[k]);
    var waypoint := WaypointNear(grid, qualityCells, dist, target, rand(draws), rand(draws + 1));
    if waypoint.Some? {
      intermediate', draws' := intermediate + [waypoint.value], draws + 2;
    } else {
      intermediate', draws' := intermediate, draws;
    }
  }

  /**
    The waypoint list of a guided route: start first and end last, and for a
    journey longer than 3 cells (`sqrt(dr^2 + dc^2) > 3`, i.e. `dr^2 + dc^2 > 9`)
    up to two intermediate points near 40% and 70% of the way, one per
    target near which a corridor cell scores at least 2. `rand(k)` is the
    k-th value `random.random()` returns; each placed waypoint takes two.
  */
  method GuidedWaypoints(grid: map<string, Cell>, start: Point, end: Point, qualityCells: set<(int, int)>,
                         dist: (int, int) -> real, rand: nat -> real)
    returns (waypoints: seq<Point>)
    requires ValidGrid(grid)
    requires forall dr, dc :: dist(dr, dc) >= 0.0
    ensures 2 <= |waypoints| <= 4
    ensures waypoints[0] == start && waypoints[|waypoints| - 1] == end
    ensures |waypoints| == 2 + (if JourneyCells2(start, end) > 9
                                then GoodTargets(grid, qualityCells, dist, start, end, |FRACTIONS|) else 0)
    ensures forall i :: 0 < i < |waypoints| - 1 ==> InGoodCell(grid, qualityCells, waypoints[i])
  {
    var intermediate: seq<Point> := [];
    if JourneyCells2(start, end) > 9 {
      var draws: nat := 0;
      var k := 0;
      while k < |FRACTIONS|
        invariant 0 <= k <= |FRACTIONS|
        invariant |intermediate| == GoodTargets(grid, qualityCells, dist, start, end, k) <= k
        invariant forall i :: 0 <= i < |intermediate| ==> InGoodCell(grid, qualityCells, intermediate[i])
      {
        intermediate, draws := NextWaypoint(grid, start, end, qualityCells, dist, rand, k, intermediate, draws);
        k := k + 1;
      }
    }
    waypoints := [start] + intermediate + [end];
  }

  /**
    The route through the waypoints: OSRM's route when the request succeeds,
    otherwise the waypoints joined by straight lines.
  */
  function RouteThroughWaypoints(waypoints: seq<Point>, reply: Option<seq<(real, real)>>): (route: seq<Point>)
    ensures |waypoints| >= 2 && reply.Some? ==>
      |route| == |reply.value| && forall i :: 0 <= i < |route| ==> route[i] == (reply.value[i].1, reply.value[i].0)
    ensures reply.None? || |waypoints| < 2 ==>
      |route| == |waypoints| && forall i :: 0 <= i < |route| ==> route[i] == waypoints[i]
    ensures reply.None? && |waypoints| > 0 ==> route[0] == waypoints[0] && route[|route| - 1] == waypoints[|waypoints| - 1]
  {
    if |waypoints| < 2 then waypoints
    else match reply
      case Some(coords) => LatLng(coords)
      case None => waypoints
  }

  // ----- POST /route -----

  /** The four coordinates of a request body; None where a field is absent. */
  datatype RouteRequest = RouteRequest(startLat: Option<real>, startLng: Option<real>,
                                       endLat: Option<real>, endLng: Option<real>)

  /** Python truthiness of a JSON number: present and not zero. */
  predicate Truthy(v: Option<real>)
  {
    v.Some? && v.value != 0.0
  }

  const MISSING_COORDINATES: string := "Missing coordinates"

  /** `not all([start_lat, start_lng, end_lat, end_lng])` rejects the request. */
  function ValidateRequest(req: RouteRequest): (r: Result<(Point, Point)>)
    ensures r.Ok? <==> Truthy(req.startLat) && Truthy(req.startLng) && Truthy(req.endLat) && Truthy(req.endLng)
    ensures r.Ok? ==> r.value == ((req.startLat.value, req.startLng.value), (req.endLat.value, req.endLng.value))
    ensures r.Err? ==> r.error == MISSING_COORDINATES
  {
    if Truthy(req.startLat) && Truthy(req.startLng) && Truthy(req.endLat) && Truthy(req.endLng) then
      Ok(((req.startLat.value, req.startLng.value), (req.endLat.value, req.endLng.value)))
    else
      Err(MISSING_COORDINATES)
  }

  /** A coordinate equal to zero is rejected as if it were missing. */
  lemma ZeroCoordinateCountsAsMissing(req: RouteRequest)
    requires req.startLat == Some(0.0) || req.startLng == Some(0.0) || req.endLat == Some(0.0) || req.endLng == Some(0.0)
    ensures ValidateRequest(req) == Err(MISSING_COORDINATES)
  {
  }

  /** `cell['quality'] if cell else 'Unknown'` for the cell a sample is looked up in. */
  function SampleQuality(grid: map<string, Cell>, p: Point): (q: string)
    ensures HasAllCells(grid) ==> q == grid[GridKey(RowIndex(p.0), ColIndex(p.1))].quality
  {
    match CellAt(grid, p)
    case Some(cell) => cell.quality
    case None => "Unknown"
  }

  const EMPTY_SUMMARY: map<string, nat> := map[
    "Good" := 0, "Satisfactory" := 0, "Poor" := 0, "Very Poor" := 0, "Unknown" := 0]

  /** The five summary counts added up. */
  function SummaryTotal(summary: map<string, nat>): int
  {
    (if "Good" in summary then summary["Good"] else 0) +
    (if "Satisfactory" in summary then summary["Satisfactory"] else 0) +
    (if "Poor" in summary then summary["Poor"] else 0) +
    (if "Very Poor" in summary then summary["Very Poor"] else 0) +
    (if "Unknown" in summary then summary["Unknown"] else 0)
  }

  /** On a valid grid every sample has one of the five quality names. */
  lemma SampleQualityNamed(grid: map<string, Cell>, p: Point)
    requires ValidGrid(grid)
    ensures SampleQuality(grid, p) in QUALITY_NAMES
  {
    assert InGrid(RowIndex(p.0), ColIndex(p.1));
  }

  /** The counts kept in `summary` are those of `qualities`, under the five summary keys. */
  ghost predicate CountsOf(summary: map<string, nat>, qualities: seq<string>)
  {
    summary.Keys == EMPTY_SUMMARY.Keys && forall q :: q in summary ==> summary[q] == Count(qualities, q)
  }

  /** Adding one sample of a summary key adds one to its count. */
  lemma CountsOfStep(summary: map<string, nat>, qualities: seq<string>, quality: string)
    requires CountsOf(summary, qualities) && quality in summary
    ensures CountsOf(summary[quality := summary[quality] + 1], qualities + [quality])
  {
    var next := summary[quality := summary[quality] + 1];
    assert next.Keys == summary.Keys;
    forall q | q in next
      ensures next[q] == Count(qualities + [quality], q)
    {
      CountSnoc(qualities, quality, q);
      if q != quality {
        assert next[q] == summary[q];
      }
    }
  }

  /** The five summary counts add up to the number of samples that have one of the five names. */
  lemma SummaryTotalOfCounts(summary: map<string, nat>, qualities: seq<string>)
    requires CountsOf(summary, qualities)
    ensures SummaryTotal(summary) == SumCounts(QUALITY_NAMES, qualities)
  {
    var n5 := QUALITY_NAMES;
    var n4, n3, n2, n1 := n5[..4], n5[..3], n5[..2], n5[..1];
    assert n4 == n5[..|n5| - 1] && n3 == n4[..|n4| - 1] && n2 == n3[..|n3| - 1] && n1 == n2[..|n2| - 1];
    assert n1[..0] == [];
    assert SumCounts(n1, qualities) == Count(qualities, "Good");
    assert SumCounts(n2, qualities) == SumCounts(n1, qualities) + Count(qualities, "Satisfactory");
    assert SumCounts(n3, qualities) == SumCounts(n2, qualities) + Count(qualities, "Poor");
    assert SumCounts(n4, qualities) == SumCounts(n3, qualities) + Count(qualities, "Very Poor");
    assert SumCounts(n5, qualities) == SumCounts(n4, qualities) + Count(qualities, "Unknown");
    assert forall q :: q in QUALITY_NAMES ==> q in EMPTY_SUMMARY;
  }

  /** The first |qualities| samples are summarised: their qualities in order, and their counts. */
  ghost predicate Summarized(grid: map<string, Cell>, samples: seq<Point>, qualities: seq<string>,
                             summary: map<string, nat>)
  {
    && |qualities| <= |samples|
    && (forall j :: 0 <= j < |qualities| ==> qualities[j] == SampleQuality(grid, samples[j]))
    && (forall j :: 0 <= j < |qualities| ==> qualities[j] in QUALITY_NAMES)
    && CountsOf(summary, qualities)
  }

  /** Appending the next sample's quality keeps every recorded quality that of its sample. */
  lemma SampledStep(grid: map<string, Cell>, samples: seq<Point>, qualities: seq<string>, quality: string)
    requires |qualities| < |samples|
    requires forall j :: 0 <= j < |qualities| ==> qualities[j] == SampleQuality(grid, samples[j])
    requires quality == SampleQuality(grid, samples[|qualities|])
    ensures forall j :: 0 <= j < |qualities| + 1 ==> (qualities + [quality])[j] == SampleQuality(grid, samples[j])
  {
    forall j | 0 <= j < |qualities| + 1
      ensures (qualities + [quality])[j] == SampleQuality(grid, samples[j])
    {
      if j < |qualities| {
        assert (qualities + [quality])[j] == qualities[j];
      }
    }
  }

  /** Appending a named quality keeps every recorded quality named. */
  lemma NamedStep(qualities: seq<string>, quality: string)
    requires forall j :: 0 <= j < |qualities| ==> qualities[j] in QUALITY_NAMES
    requires quality in QUALITY_NAMES
    ensures forall j :: 0 <= j < |qualities| + 1 ==> (qualities + [quality])[j] in QUALITY_NAMES
  {
    forall j | 0 <= j < |qualities| + 1
      ensures (qualities + [quality])[j] in QUALITY_NAMES
    {
      if j < |qualities| {
        assert (qualities + [quality])[j] == qualities[j];
      }
    }
  }

  /** Summarising the next sample, whose quality is one of the five names, keeps the summary in step. */
  lemma SummaryStep(grid: map<string, Cell>, samples: seq<Point>, qualities: seq<string>,
                    summary: map<string, nat>, quality: string)
    requires Summarized(grid, samples, qualities, summary) && |qualities| < |samples|
    requires quality == SampleQuality(grid, samples[|qualities|]) && quality in QUALITY_NAMES
    ensures quality in summary
    ensures Summarized(grid, samples, qualities + [quality], summary[quality := summary[quality] + 1])
  {
    assert quality in EMPTY_SUMMARY;
    CountsOfStep(summary, qualities, quality);
    SampledStep(grid, samples, qualities, quality);
    NamedStep(qualities, quality);
  }

  /** A summary of all samples adds up to the number of samples. */
  lemma SummaryComplete(grid: map<string, Cell>, samples: seq<Point>, qualities: seq<string>,
                        summary: map<string, nat>)
    requires Summarized(grid, samples, qualities, summary)
    ensures SummaryTotal(summary) == |qualities|
  {
    SumCountsCovering(QUALITY_NAMES, qualities);
    SummaryTotalOfCounts(summary, qualities);
  }

  /**
    `route_qualities` and `quality_summary`: the quality of the cell of every
    5th route point, and how many samples have each quality.
  */
  method SummarizeRoute(grid: map<string, Cell>, route: seq<Point>)
    returns (qualities: seq<string>, summary: map<string, nat>)
    requires ValidGrid(grid)
    ensures |qualities| == |EveryNth(route, 5)| == (|route| + 4) / 5
    ensures forall i :: 0 <= i < |qualities| ==> qualities[i] == SampleQuality(grid, route[i * 5])
    ensures summary.Keys == EMPTY_SUMMARY.Keys
    ensures forall q :: q in summary ==> summary[q] == Count(qualities, q)
    ensures SummaryTotal(summary) == |qualities|
  {
    var samples := EveryNth(route, 5);
    EveryNthShape(route, 5);
    qualities, summary := [], EMPTY_SUMMARY;
    while |qualities| < |samples|
      invariant Summarized(grid, samples, qualities, summary)
      decreases |samples| - |qualities|
    {
      var quality := SampleQuality(grid, samples[|qualities|]);
      SampleQualityNamed(grid, samples[|qualities|]);
      SummaryStep(grid, samples, qualities, summary, quality);
      qualities := qualities + [quality];
      summary := summary[quality := summary[quality] + 1];
    }
    SummaryComplete(grid, samples, qualities, summary);
  }

  datatype CellInfo = CellInfo(row: int, col: int, quality: string)

  datatype RouteResponse =
    | MissingCoordinates(message: string)
    | RouteFound(routeCoordinates: seq<Point>, routeQualities: seq<string>,
                 qualitySummary: map<string, nat>, routingMethod: string,
                 startCell: CellInfo, endCell: CellInfo)

  /** The cell a point is looked up in, as reported in `start_cell` and `end_cell`. */
  function CellInfoAt(grid: map<string, Cell>, p: Point): (info: CellInfo)
    requires HasAllCells(grid)
    ensures InGrid(info.row, info.col)
    ensures info.quality == SampleQuality(grid, p)
  {
    var row, col := RowIndex(p.0), ColIndex(p.1);
    CellInfo(row, col, grid[GridKey(row, col)].quality)
  }

  /** The status the direct OSRM reply leads to. */
  function DirectStatus(grid: map<string, Cell>, reply: Option<seq<(real, real)>>): RouteStatus
  {
    match reply
    case None => Fallback
    case Some(coords) =>
      var samples := EveryNth(LatLng(coords), 10);
      GuidanceDecision(PoorCount(grid, samples), |samples|)
  }

  /** `cells` is the corridor between the cells of `start` and `end`. */
  ghost predicate IsCorridor(grid: map<string, Cell>, start: Point, end: Point, cells: set<(int, int)>)
    requires HasAllCells(grid)
  {
    forall r, c :: (r, c) in cells <==>
      Corridor.Selected(grid, RowIndex(start.0), ColIndex(start.1), RowIndex(end.0), ColIndex(end.1), r, c)
  }

  /** Waypoints as GuidedWaypoints chooses them, for the corridor between start and end. */
  ghost predicate GuidedWaypointsFor(grid: map<string, Cell>, start: Point, end: Point, dist: (int, int) -> real,
                                     waypoints: seq<Point>)
    requires ValidGrid(grid)
  {
    2 <= |waypoints| <= 4 && waypoints[0] == start && waypoints[|waypoints| - 1] == end &&
    exists cells :: IsCorridor(grid, start, end, cells) &&
      |waypoints| == 2 + (if JourneyCells2(start, end) > 9
                          then GoodTargets(grid, cells, dist, start, end, |FRACTIONS|) else 0) &&
      forall i :: 0 < i < |waypoints| - 1 ==> InGoodCell(grid, cells, waypoints[i])
  }

  /**
    A long journey is guided straight from start to end only when no
    corridor cell near either target scores at least 2.
  */
  lemma NoWaypointMeansNoGoodCell(grid: map<string, Cell>, start: Point, end: Point, dist: (int, int) -> real,
                                  cells: set<(int, int)>)
    requires ValidGrid(grid) && IsCorridor(grid, start, end, cells) && JourneyCells2(start, end) > 9
    requires GuidedWaypointsFor(grid, start, end, dist, [start, end])
    ensures forall k :: 0 <= k < |FRACTIONS| ==>
      var target := TargetAt(start, end, FRACTIONS[k]);
      !GoodNear(grid, cells, dist, target.0, target.1)
  {
    var other :| IsCorridor(grid, start, end, other) &&
      2 == 2 + GoodTargets(grid, other, dist, start, end, |FRACTIONS|);
    forall rc | rc in cells || rc in other
      ensures rc in cells <==> rc in other
    {
      var sel := Corridor.Selected(grid, RowIndex(start.0), ColIndex(start.1), RowIndex(end.0), ColIndex(end.1), rc.0, rc.1);
      assert (rc.0, rc.1) in cells <==> sel;
      assert (rc.0, rc.1) in other <==> sel;
    }
    assert cells == other;
    assert GoodTargets(grid, cells, dist, start, end, 1) == 0;
  }

  /**
    The route POST /route answers with: the direct OSRM route when it is good
    enough, otherwise a guided route through waypoints of the quality
    corridor between the start and end cells. `directReply` is OSRM's reply
    to the direct request and `osrm(points)` its reply to the later request
    through `points`; either is None when its request fails or finds no route.
  */
  method PlanRoute(grid: map<string, Cell>, start: Point, end: Point,
                   directReply: Option<seq<(real, real)>>, osrm: seq<Point> -> Option<seq<(real, real)>>,
                   dist: (int, int) -> real, rand: nat -> real)
    returns (route: seq<Point>, routingMethod: string)
    requires ValidGrid(grid)
    requires forall dr, dc :: dist(dr, dc) >= 0.0
    ensures routingMethod == "direct" <==> DirectStatus(grid, directReply) == Direct
    ensures routingMethod == "direct" ==> route == LatLng(directReply.value)
    ensures routingMethod != "direct" ==>
      && routingMethod == "guided"
      && exists waypoints :: GuidedWaypointsFor(grid, start, end, dist, waypoints) &&
           route == RouteThroughWaypoints(waypoints, osrm(waypoints)) &&
           (osrm(waypoints).None? ==> |route| >= 2 && route[0] == start && route[|route| - 1] == end)
  {
    var directRoute, status := DirectRouteWithAvoidance(grid, start, end, directReply);
    if status == Direct {
      route, routingMethod := directRoute, "direct";
    } else {
      var startRow, startCol := RowIndex(start.0), ColIndex(start.1);
      var endRow, endCol := RowIndex(end.0), ColIndex(end.1);
      var qualityCells := Corridor.FindQualityConstrainedCells(grid, startRow, startCol, endRow, endCol);
      var waypoints := GuidedWaypoints(grid, start, end, qualityCells, dist, rand);
      assert IsCorridor(grid, start, end, qualityCells);
      assert GuidedWaypointsFor(grid, start, end, dist, waypoints);
      route, routingMethod := RouteThroughWaypoints(waypoints, osrm(waypoints)), "guided";
    }
  }

  /**
    POST /route: validate the coordinates, try the direct route, fall back to
    a guided route through the quality corridor when the direct one is not
    good enough (or failed), and report the route with its quality samples.
    `directReply` and `osrm` are OSRM's replies as for PlanRoute.
  */
  method HandleRouteRequest(grid: map<string, Cell>, req: RouteRequest,
                            directReply: Option<seq<(real, real)>>, osrm: seq<Point> -> Option<seq<(real, real)>>,
                            dist: (int, int) -> real, rand: nat -> real)
    returns (resp: RouteResponse)
    requires ValidGrid(grid)
    requires forall dr, dc :: dist(dr, dc) >= 0.0
    ensures resp.MissingCoordinates? <==> ValidateRequest(req).Err?
    ensures resp.MissingCoordinates? ==> resp.message == MISSING_COORDINATES
    ensures resp.RouteFound? ==>
      var (start, end) := ValidateRequest(req).value;
      && (resp.routingMethod == "direct" <==> DirectStatus(grid, directReply) == Direct)
      && (resp.routingMethod == "direct" ==> resp.routeCoordinates == LatLng(directReply.value))
      && (resp.routingMethod != "direct" ==>
            && resp.routingMethod == "guided"
            && exists waypoints :: GuidedWaypointsFor(grid, start, end, dist, waypoints) &&
                 resp.routeCoordinates == RouteThroughWaypoints(waypoints, osrm(waypoints)))
      && |resp.routeQualities| == (|resp.routeCoordinates| + 4) / 5
      && (forall i :: 0 <= i < |resp.routeQualities| ==>
            resp.routeQualities[i] == SampleQuality(grid, resp.routeCoordinates[i * 5]))
      && resp.qualitySummary.Keys == EMPTY_SUMMARY.Keys
      && (forall q :: q in resp.qualitySummary ==> resp.qualitySummary[q] == Count(resp.routeQualities, q))
      && SummaryTotal(resp.qualitySummary) == |resp.routeQualities|
      && resp.startCell == CellInfoAt(grid, start) && resp.endCell == CellInfoAt(grid, end)
  {
    var valid := ValidateRequest(req);
    if valid.Err? {
      return MissingCoordinates(valid.error);
    }
    var (start, end) := valid.value;
    var fullRoute, routingMethod := PlanRoute(grid, start, end, directReply, osrm, dist, rand);
    var qualities, summary := SummarizeRoute(grid, fullRoute);
    resp := RouteFound(fullRoute, qualities, summary, routingMethod,
                       CellInfoAt(grid, start), CellInfoAt(grid, end));
  }
}
