/**
  Corridor selection of the route server (find_quality_constrained_cells in
  api_server.py): the cells of the start/end bounding box, widened by two and
  clamped to the grid, whose quality is decent or, for Very Poor cells, whose
  direction from the start lies within a cone around the start-to-end vector;
  the start and end cells are always part of the corridor.
*/
module Corridor {
  import opened RoadGrid

  const QUALITY_PRIORITY: map<string, int> := map[
    "Good" := 4, "Satisfactory" := 3, "Poor" := 2, "Very Poor" := 1, "Unknown" := 0]

  /** `quality_priority.get(quality, 0)`. */
  function Priority(quality: string): (p: int)
    ensures 0 <= p <= 4
    ensures p >= 2 <==> quality == "Good" || quality == "Satisfactory" || quality == "Poor"
    ensures p == 1 <==> quality == "Very Poor"
  {
    if quality in QUALITY_PRIORITY then QUALITY_PRIORITY[quality] else 0
  }

  function Min(a: int, b: int): int { if a <= b then a else b }

  function Max(a: int, b: int): int { if a >= b then a else b }

  /** Lower edge of the box along one axis: `max(0, min(a, b) - 2)`. */
  function BoxLow(a: int, b: int): int { Max(0, Min(a, b) - 2) }

  /** Upper edge of the box along one axis: `min(grid_size - 1, max(a, b) + 2)`. */
  function BoxHigh(a: int, b: int): int { Min(GRID_SIZE - 1, Max(a, b) + 2) }

  predicate InBox(sr: int, sc: int, er: int, ec: int, r: int, c: int)
  {
    BoxLow(sr, er) <= r <= BoxHigh(sr, er) && BoxLow(sc, ec) <= c <= BoxHigh(sc, ec)
  }

  /**
    `direction_score > 0.7`, where the score is 1.0 when start and end
    coincide or the cell is the start, and otherwise
    max(0, cos of the angle between start->cell and start->end). The cosine
    test is stated over integers (see ConeTestMatchesScore).
  */
  predicate WellAligned(sr: int, sc: int, er: int, ec: int, r: int, c: int)
  {
    if sr == er && sc == ec then true
    else
      var vr, vc := r - sr, c - sc;
      var wr, wc := er - sr, ec - sc;
      if vr == 0 && vc == 0 then true
      else
        var dot := vr * wr + vc * wc;
        dot > 0 && 100 * dot * dot > 49 * (wr * wr + wc * wc) * (vr * vr + vc * vc)
  }

  /** `max(0, dot / (magnitude_end * magnitude_cell))`. */
  function DirectionScore(dot: int, magEnd: real, magCell: real): (score: real)
    requires magEnd > 0.0 && magCell > 0.0
    ensures score >= 0.0
  {
    var q := dot as real / (magEnd * magCell);
    if q > 0.0 then q else 0.0
  }

  lemma MulPositive(x: real, y: real)
    requires x > 0.0 && y > 0.0
    ensures x * y > 0.0
  {
  }

  lemma MulNonNegative(x: real, y: real)
    requires x >= 0.0 && y >= 0.0
    ensures x * y >= 0.0
  {
  }

  /** Scaling both sides by a positive factor keeps a strict comparison. */
  lemma LessAfterScaling(a: real, b: real, t: real)
    requires t > 0.0
    ensures a < b <==> a * t < b * t
  {
    if a < b {
      MulPositive(b - a, t);
      assert b * t - a * t == (b - a) * t;
    } else {
      MulNonNegative(a - b, t);
      assert a * t - b * t == (a - b) * t;
    }
  }

  /** For a positive bound `b`, `d > b` exactly when `d` is positive and `d * d > b * b`. */
  lemma CompareBySquares(d: real, b: real)
    requires b > 0.0
    ensures d > b <==> (d > 0.0 && d * d > b * b)
  {
    assert d * d - b * b == (d - b) * (d + b);
    if d > b {
      MulPositive(d - b, d + b);
    } else if d > 0.0 {
      MulNonNegative(b - d, b + d);
      assert b * b - d * d == (b - d) * (b + d);
    }
  }

  /** The score exceeds 0.7 exactly when `dot` exceeds 0.7 times the product of the magnitudes. */
  lemma ScoreAboveThreshold(dot: int, magEnd: real, magCell: real)
    requires magEnd > 0.0 && magCell > 0.0
    ensures DirectionScore(dot, magEnd, magCell) > 0.7 <==> dot as real > 0.7 * (magEnd * magCell)
  {
    var p := magEnd * magCell;
    MulPositive(magEnd, magCell);
    var q := dot as real / p;
    assert dot as real == q * p;
    assert q > 0.7 <==> q * p > 0.7 * p;
  }

  /**
    For magnitudes that are the square roots of the squared lengths, the
    server's cosine score exceeds 0.7 exactly when the integer test of WellAligned
    holds.
  */
  lemma ConeTestMatchesScore(dot: int, magEnd: real, magCell: real, lenEnd2: int, lenCell2: int)
    requires magEnd > 0.0 && magCell > 0.0
    requires magEnd * magEnd == lenEnd2 as real && magCell * magCell == lenCell2 as real
    ensures DirectionScore(dot, magEnd, magCell) > 0.7
        <==> (dot > 0 && 100 * dot * dot > 49 * lenEnd2 * lenCell2)
  {
    var p := magEnd * magCell;
    var d := dot as real;
    MulPositive(magEnd, magCell);
    ScoreAboveThreshold(dot, magEnd, magCell);
    CompareBySquares(d, 0.7 * p);
    assert p * p == (magEnd * magEnd) * (magCell * magCell);
    assert (0.7 * p) * (0.7 * p) == 0.49 * (lenEnd2 as real * lenCell2 as real);
    assert (100 * dot * dot) as real == 100.0 * (d * d);
    assert (49 * lenEnd2 * lenCell2) as real == 49.0 * (lenEnd2 as real * lenCell2 as real);
  }

  /** `cell_quality >= 2 or (cell_quality >= 1 and direction_score > 0.7)`. */
  predicate Admits(priority: int, aligned: bool)
  {
    priority >= 2 || (priority >= 1 && aligned)
  }

  /** A box cell that the scan over the bounding box adds to the corridor. */
  ghost predicate AdmittedInBox(grid: map<string, Cell>, sr: int, sc: int, er: int, ec: int, r: int, c: int)
    requires HasAllCells(grid)
  {
    InBox(sr, sc, er, ec, r, c) &&
    Admits(Priority(grid[GridKey(r, c)].quality), WellAligned(sr, sc, er, ec, r, c))
  }

  /** Membership in the corridor: an endpoint, or an admitted box cell. */
  ghost predicate Selected(grid: map<string, Cell>, sr: int, sc: int, er: int, ec: int, r: int, c: int)
    requires HasAllCells(grid)
  {
    (r == sr && c == sc) || (r == er && c == ec) || AdmittedInBox(grid, sr, sc, er, ec, r, c)
  }

  /** The corridor of cells between the start cell and the end cell. */
  method FindQualityConstrainedCells(grid: map<string, Cell>, sr: int, sc: int, er: int, ec: int)
    returns (cells: set<(int, int)>)
    requires HasAllCells(grid)
    ensures forall r, c :: (r, c) in cells <==> Selected(grid, sr, sc, er, ec, r, c)
  {
    var minRow, maxRow := BoxLow(sr, er), BoxHigh(sr, er);
    var minCol, maxCol := BoxLow(sc, ec), BoxHigh(sc, ec);
    cells := {};
    var row := minRow;
    while row <= maxRow
      invariant minRow <= row <= Max(minRow, maxRow + 1)
      invariant forall r, c :: (r, c) in cells <==>
        r < row && AdmittedInBox(grid, sr, sc, er, ec, r, c)
    {
      var col := minCol;
      while col <= maxCol
        invariant minCol <= col <= Max(minCol, maxCol + 1)
        invariant forall r, c :: (r, c) in cells <==>
          (r < row || (r == row && c < col)) && AdmittedInBox(grid, sr, sc, er, ec, r, c)
      {
        var cellQuality := Priority(grid[GridKey(row, col)].quality);
        var aligned := WellAligned(sr, sc, er, ec, row, col);
        if Admits(cellQuality, aligned) {
          cells := cells + {(row, col)};
        }
        col := col + 1;
      }
      row := row + 1;
    }
    cells := cells + {(sr, sc), (er, ec)};
  }

  /**
    The corridor rules: both endpoints belong; for endpoints on the grid every
    member lies in the clamped box; box cells of priority 2 or more belong;
    Unknown cells belong only as endpoints; Very Poor box cells belong exactly
    when well aligned; and when start and end coincide every cell is aligned.
  */
  lemma CorridorRules(grid: map<string, Cell>, sr: int, sc: int, er: int, ec: int, r: int, c: int)
    requires HasAllCells(grid)
    ensures Selected(grid, sr, sc, er, ec, sr, sc) && Selected(grid, sr, sc, er, ec, er, ec)
    ensures InGrid(sr, sc) && InGrid(er, ec) && Selected(grid, sr, sc, er, ec, r, c)
      ==> InBox(sr, sc, er, ec, r, c) && InGrid(r, c)
    ensures InBox(sr, sc, er, ec, r, c) && Priority(grid[GridKey(r, c)].quality) >= 2
      ==> Selected(grid, sr, sc, er, ec, r, c)
    ensures InGrid(r, c) && Priority(grid[GridKey(r, c)].quality) == 0
      && !(r == sr && c == sc) && !(r == er && c == ec)
      ==> !Selected(grid, sr, sc, er, ec, r, c)
    ensures InBox(sr, sc, er, ec, r, c) && grid[GridKey(r, c)].quality == "Very Poor"
      && !(r == sr && c == sc) && !(r == er && c == ec)
      ==> (Selected(grid, sr, sc, er, ec, r, c) <==> WellAligned(sr, sc, er, ec, r, c))
    ensures sr == er && sc == ec ==> WellAligned(sr, sc, er, ec, r, c)
  {
  }
}
