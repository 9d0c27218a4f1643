/**
  The road-quality grid of the route server (api_server.py): the Delhi NCR
  bounding box cut into 20 x 20 cells, the lookup from a coordinate to its
  cell by truncate-then-clamp indexing, the geometry and the quality and
  colour of each cell, and the loop that fills the grid dictionary keyed
  "row,col" at start-up.
*/
module RoadGrid {
  import opened Optional
  import opened Text

  const GRID_SIZE: int := 20

  const LAT_MIN: real := 28.25
  const LAT_MAX: real := 29.05
  const LNG_MIN: real := 76.65
  const LNG_MAX: real := 77.75
  const LAT_STEP: real := (LAT_MAX - LAT_MIN) / 20.0
  const LNG_STEP: real := (LNG_MAX - LNG_MIN) / 20.0

  /** The qualities a cell without a model label is drawn from. */
  const QUALITIES: seq<string> := ["Good", "Satisfactory", "Poor", "Very Poor"]

  /** Every quality a grid cell can have; also the keys of the route summary. */
  const QUALITY_NAMES: seq<string> := ["Good", "Satisfactory", "Poor", "Very Poor", "Unknown"]

  const UNKNOWN_COLOR: string := "#6b7280"

  const QUALITY_COLORS: map<string, string> := map[
    "Good" := "#22c55e",
    "Satisfactory" := "#f97316",
    "Poor" := "#ef4444",
    "Very Poor" := "#8b4513",
    "Unknown" := "#6b7280"]

  /** Model label -> (display quality, colour). */
  const LABEL_MAP: map<string, (string, string)> := map[
    "good" := ("Good", "#22c55e"),
    "satisfactory" := ("Satisfactory", "#f97316"),
    "poor" := ("Poor", "#ef4444"),
    "very_poor" := ("Very Poor", "#8b4513")]

  predicate InGrid(row: int, col: int)
  {
    0 <= row < GRID_SIZE && 0 <= col < GRID_SIZE
  }

  /** Python's `int()` on a float: truncation toward zero. */
  function Trunc(x: real): (i: int)
    ensures x >= 0.0 ==> i >= 0 && i as real <= x < i as real + 1.0
    ensures x < 0.0 ==> i <= 0 && i as real - 1.0 < x <= i as real
  {
    if x >= 0.0 then x.Floor else -((-x).Floor)
  }

  /** `max(0, min(i, grid_size - 1))`. */
  function Clamp(i: int): (r: int)
    ensures 0 <= r < GRID_SIZE
    ensures 0 <= i < GRID_SIZE ==> r == i
    ensures i < 0 ==> r == 0
    ensures i >= GRID_SIZE ==> r == GRID_SIZE - 1
  {
    if i < 0 then 0 else if i > GRID_SIZE - 1 then GRID_SIZE - 1 else i
  }

  /** Once clamped, truncation toward zero and rounding down give the same index. */
  lemma TruncClampIsFloorClamp(x: real)
    ensures Clamp(Trunc(x)) == Clamp(x.Floor)
  {
  }

  /** The grid row of a latitude, as the server computes it in five places. */
  function RowIndex(lat: real): (row: int)
    ensures 0 <= row < GRID_SIZE
    ensures LAT_MIN <= lat < LAT_MAX ==> row == ((lat - LAT_MIN) / LAT_STEP).Floor
    ensures lat < LAT_MIN ==> row == 0
    ensures lat >= LAT_MAX ==> row == GRID_SIZE - 1
  {
    Clamp(Trunc((lat - LAT_MIN) / LAT_STEP))
  }

  /** The grid column of a longitude. */
  function ColIndex(lng: real): (col: int)
    ensures 0 <= col < GRID_SIZE
    ensures LNG_MIN <= lng < LNG_MAX ==> col == ((lng - LNG_MIN) / LNG_STEP).Floor
    ensures lng < LNG_MIN ==> col == 0
    ensures lng >= LNG_MAX ==> col == GRID_SIZE - 1
  {
    Clamp(Trunc((lng - LNG_MIN) / LNG_STEP))
  }

  function CellLatMin(row: int): real { LAT_MIN + row as real * LAT_STEP }

  function CellLngMin(col: int): real { LNG_MIN + col as real * LNG_STEP }

  /** A point inside the bounding box lies within the bounds of the cell it is looked up in. */
  lemma PointLiesInItsCell(lat: real, lng: real)
    requires LAT_MIN <= lat < LAT_MAX && LNG_MIN <= lng < LNG_MAX
    ensures CellLatMin(RowIndex(lat)) <= lat < CellLatMin(RowIndex(lat)) + LAT_STEP
    ensures CellLngMin(ColIndex(lng)) <= lng < CellLngMin(ColIndex(lng)) + LNG_STEP
  {
    var x, y := (lat - LAT_MIN) / LAT_STEP, (lng - LNG_MIN) / LNG_STEP;
    assert lat == LAT_MIN + x * LAT_STEP;
    assert lng == LNG_MIN + y * LNG_STEP;
  }

  /** A cell's key in the grid dictionary: f'{row},{col}'. */
  function GridKey(row: int, col: int): string
  {
    IntToString(row) + "," + IntToString(col)
  }

  /** The key under which the labelling script stores a cell: f'({row}, {col})'. */
  function ModelColorKey(row: int, col: int): string
  {
    "(" + IntToString(row) + ", " + IntToString(col) + ")"
  }

  lemma NoSeparatorInNumber(i: int, sep: char)
    requires sep == ',' || sep == ')'
    ensures sep !in IntToString(i)
  {
    var s := IntToString(i);
    assert forall k :: 0 <= k < |s| ==> s[k] != sep;
  }

  /** Distinct cells have distinct grid keys. */
  lemma GridKeyInjective(r1: int, c1: int, r2: int, c2: int)
    ensures GridKey(r1, c1) == GridKey(r2, c2) ==> r1 == r2 && c1 == c2
  {
    if GridKey(r1, c1) == GridKey(r2, c2) {
      NoSeparatorInNumber(r1, ',');
      NoSeparatorInNumber(r2, ',');
      SplitAtFirst(IntToString(r1), IntToString(c1), IntToString(r2), IntToString(c2), ',');
      IntToStringInjective(r1, r2);
      IntToStringInjective(c1, c2);
    }
  }

  /** Distinct cells have distinct model-label keys. */
  lemma ModelColorKeyInjective(r1: int, c1: int, r2: int, c2: int)
    ensures ModelColorKey(r1, c1) == ModelColorKey(r2, c2) ==> r1 == r2 && c1 == c2
  {
    if ModelColorKey(r1, c1) == ModelColorKey(r2, c2) {
      var a1, b1 := IntToString(r1), IntToString(c1);
      var a2, b2 := IntToString(r2), IntToString(c2);
      assert ModelColorKey(r1, c1)[1..] == a1 + [','] + (" " + b1 + ")");
      assert ModelColorKey(r2, c2)[1..] == a2 + [','] + (" " + b2 + ")");
      NoSeparatorInNumber(r1, ',');
      NoSeparatorInNumber(r2, ',');
      SplitAtFirst(a1, " " + b1 + ")", a2, " " + b2 + ")", ',');
      assert b1 == (" " + b1 + ")")[1..|b1| + 1];
      assert b2 == (" " + b2 + ")")[1..|b2| + 1];
      IntToStringInjective(r1, r2);
      IntToStringInjective(c1, c2);
    }
  }

  /** `quality_colors.get(quality, '#6b7280')`. */
  function QualityColor(quality: string): (color: string)
    ensures quality in QUALITY_COLORS ==> color == QUALITY_COLORS[quality]
    ensures quality !in QUALITY_COLORS ==> color == UNKNOWN_COLOR
  {
    if quality in QUALITY_COLORS then QUALITY_COLORS[quality] else UNKNOWN_COLOR
  }

  /**
    The (quality, colour) of cell (row, col): from the model label stored for
    the cell when there is one, mapped through LABEL_MAP with Unknown for a
    label it does not know; otherwise from the random draw for the cell.
  */
  function CellLook(modelColors: Option<map<string, string>>, draw: (int, int) -> string,
                    row: int, col: int): (look: (string, string))
    ensures look.1 == QualityColor(look.0)
  {
    var key := ModelColorKey(row, col);
    if modelColors.Some? && key in modelColors.value then
      var modelLabel := modelColors.value[key];
      if modelLabel in LABEL_MAP then
        assert modelLabel == "good" || modelLabel == "satisfactory" || modelLabel == "poor" || modelLabel == "very_poor";
        LABEL_MAP[modelLabel]
      else ("Unknown", UNKNOWN_COLOR)
    else
      var quality := draw(row, col);
      (quality, QualityColor(quality))
  }

  datatype Cell = Cell(
    row: int, col: int,
    centerLat: real, centerLng: real,
    quality: string,
    latBounds: (real, real), lngBounds: (real, real),
    color: string)

  /** The grid entry built for cell (row, col). */
  function MakeCell(modelColors: Option<map<string, string>>, draw: (int, int) -> string,
                    row: int, col: int): (cell: Cell)
    ensures cell.row == row && cell.col == col
    ensures cell.latBounds == (CellLatMin(row), CellLatMin(row) + LAT_STEP)
    ensures cell.lngBounds == (CellLngMin(col), CellLngMin(col) + LNG_STEP)
    ensures cell.latBounds.0 < cell.centerLat < cell.latBounds.1
    ensures cell.centerLat - cell.latBounds.0 == cell.latBounds.1 - cell.centerLat
    ensures cell.lngBounds.0 < cell.centerLng < cell.lngBounds.1
    ensures cell.centerLng - cell.lngBounds.0 == cell.lngBounds.1 - cell.centerLng
  {
    var latMin := CellLatMin(row);
    var latMax := latMin + LAT_STEP;
    var lngMin := CellLngMin(col);
    var lngMax := lngMin + LNG_STEP;
    var look := CellLook(modelColors, draw, row, col);
    Cell(row, col, (latMin + latMax) / 2.0, (lngMin + lngMax) / 2.0, look.0,
         (latMin, latMax), (lngMin, lngMax), look.1)
  }

  /** Every cell's colour is the colour the server's colour table gives its quality. */
  lemma CellColorMatchesQuality(modelColors: Option<map<string, string>>, draw: (int, int) -> string,
                                row: int, col: int)
    ensures MakeCell(modelColors, draw, row, col).color
         == QualityColor(MakeCell(modelColors, draw, row, col).quality)
  {
  }

  /**
    A model label known to LABEL_MAP gives its display quality; any other
    modelLabel gives Unknown; a cell without a modelLabel gets the drawn quality.
  */
  lemma CellQualitySource(modelColors: Option<map<string, string>>, draw: (int, int) -> string,
                          row: int, col: int)
    ensures var key, q := ModelColorKey(row, col), MakeCell(modelColors, draw, row, col).quality;
      if modelColors.Some? && key in modelColors.value then
        (modelColors.value[key] in LABEL_MAP ==> q == LABEL_MAP[modelColors.value[key]].0) &&
        (modelColors.value[key] !in LABEL_MAP ==> q == "Unknown")
      else q == draw(row, col)
  {
  }

  /** When every draw is one of QUALITIES, every cell quality is one of QUALITY_NAMES. */
  lemma CellQualityIsNamed(modelColors: Option<map<string, string>>, draw: (int, int) -> string,
                           row: int, col: int)
    requires draw(row, col) in QUALITIES
    ensures MakeCell(modelColors, draw, row, col).quality in QUALITY_NAMES
  {
    var key := ModelColorKey(row, col);
    if modelColors.Some? && key in modelColors.value {
      var modelLabel := modelColors.value[key];
      if modelLabel in LABEL_MAP {
        assert modelLabel == "good" || modelLabel == "satisfactory" || modelLabel == "poor" || modelLabel == "very_poor";
      }
    }
  }

  /** Neighbouring cells share their common edge. */
  lemma AdjacentCellsShareBounds(modelColors: Option<map<string, string>>, draw: (int, int) -> string,
                                 row: int, col: int)
    ensures MakeCell(modelColors, draw, row, col).latBounds.1
         == MakeCell(modelColors, draw, row + 1, col).latBounds.0
    ensures MakeCell(modelColors, draw, row, col).lngBounds.1
         == MakeCell(modelColors, draw, row, col + 1).lngBounds.0
  {
  }

  /** Looking up the centre of a cell finds that cell again. */
  lemma CenterLooksUpItsCell(modelColors: Option<map<string, string>>, draw: (int, int) -> string,
                             row: int, col: int)
    requires InGrid(row, col)
    ensures RowIndex(MakeCell(modelColors, draw, row, col).centerLat) == row
    ensures ColIndex(MakeCell(modelColors, draw, row, col).centerLng) == col
  {
    var cell := MakeCell(modelColors, draw, row, col);
    assert (cell.centerLat - LAT_MIN) / LAT_STEP == row as real + 0.5;
    assert (cell.centerLng - LNG_MIN) / LNG_STEP == col as real + 0.5;
  }

  /** The grid holds an entry for every cell. */
  ghost predicate HasAllCells(grid: map<string, Cell>)
  {
    forall row, col :: InGrid(row, col) ==> GridKey(row, col) in grid
  }

  /** The shape every entry of the server's grid has: its own indices, ordered bounds, a named quality. */
  predicate WellShaped(cell: Cell, row: int, col: int)
  {
    cell.row == row && cell.col == col &&
    cell.latBounds.0 < cell.latBounds.1 && cell.lngBounds.0 < cell.lngBounds.1 &&
    cell.quality in QUALITY_NAMES
  }

  /** A grid with a well-shaped entry for every cell, as BuildGrid produces. */
  ghost predicate ValidGrid(grid: map<string, Cell>)
  {
    forall row, col :: InGrid(row, col) ==>
      GridKey(row, col) in grid && WellShaped(grid[GridKey(row, col)], row, col)
  }

  /** Cells are filled in row-major order; `n` counts the cells filled so far. */
  function Ordinal(row: int, col: int): int { row * 20 + col }

  /** Within the 20 columns, the ordinal determines the cell. */
  lemma OrdinalInjective(r1: int, c1: int, r2: int, c2: int)
    requires 0 <= c1 < 20 && 0 <= c2 < 20 && Ordinal(r1, c1) == Ordinal(r2, c2)
    ensures r1 == r2 && c1 == c2
  {
  }

  /** Every cell before ordinal `n` holds its entry. */
  ghost predicate FilledBefore(grid: map<string, Cell>, modelColors: Option<map<string, string>>,
                               draw: (int, int) -> string, n: int)
  {
    forall r, c :: InGrid(r, c) && Ordinal(r, c) < n ==>
      GridKey(r, c) in grid && grid[GridKey(r, c)] == MakeCell(modelColors, draw, r, c)
  }

  /** Every entry is stored under its own cell's key, and that cell comes before ordinal `n`. */
  ghost predicate KeyedBefore(grid: map<string, Cell>, n: int)
  {
    forall k :: k in grid ==>
      InGrid(grid[k].row, grid[k].col) && Ordinal(grid[k].row, grid[k].col) < n &&
      k == GridKey(grid[k].row, grid[k].col)
  }

  /** Adding the entry for the next cell adds a new key and keeps both invariants. */
  lemma FillStep(grid: map<string, Cell>, modelColors: Option<map<string, string>>,
                 draw: (int, int) -> string, row: int, col: int)
    requires InGrid(row, col)
    requires FilledBefore(grid, modelColors, draw, Ordinal(row, col))
    requires KeyedBefore(grid, Ordinal(row, col))
    ensures GridKey(row, col) !in grid
    ensures var grid' := grid[GridKey(row, col) := MakeCell(modelColors, draw, row, col)];
      FilledBefore(grid', modelColors, draw, Ordinal(row, col) + 1) &&
      KeyedBefore(grid', Ordinal(row, col) + 1)
  {
    var key := GridKey(row, col);
    forall k | k in grid
      ensures k != key
    {
      GridKeyInjective(grid[k].row, grid[k].col, row, col);
    }
    var grid' := grid[key := MakeCell(modelColors, draw, row, col)];
    forall r, c | InGrid(r, c) && Ordinal(r, c) < Ordinal(row, col) + 1
      ensures GridKey(r, c) in grid' && grid'[GridKey(r, c)] == MakeCell(modelColors, draw, r, c)
    {
      if Ordinal(r, c) == Ordinal(row, col) {
        OrdinalInjective(r, c, row, col);
      }
    }
  }

  /** The grid dictionary the server builds at start-up (the nested loop over rows and columns). */
  method BuildGrid(modelColors: Option<map<string, string>>, draw: (int, int) -> string)
    returns (grid: map<string, Cell>)
    ensures |grid| == GRID_SIZE * GRID_SIZE
    ensures forall row, col :: InGrid(row, col) ==>
      GridKey(row, col) in grid && grid[GridKey(row, col)] == MakeCell(modelColors, draw, row, col)
    ensures forall k :: k in grid ==>
      InGrid(grid[k].row, grid[k].col) && k == GridKey(grid[k].row, grid[k].col)
    ensures HasAllCells(grid)
    ensures (forall row, col :: draw(row, col) in QUALITIES) ==> ValidGrid(grid)
  {
    grid := map[];
    var row := 0;
    while row < GRID_SIZE
      invariant 0 <= row <= GRID_SIZE
      invariant |grid| == Ordinal(row, 0)
      invariant FilledBefore(grid, modelColors, draw, Ordinal(row, 0))
      invariant KeyedBefore(grid, Ordinal(row, 0))
    {
      var col := 0;
      while col < GRID_SIZE
        invariant 0 <= col <= GRID_SIZE
        invariant |grid| == Ordinal(row, col)
        invariant FilledBefore(grid, modelColors, draw, Ordinal(row, col))
        invariant KeyedBefore(grid, Ordinal(row, col))
      {
        FillStep(grid, modelColors, draw, row, col);
        grid := grid[GridKey(row, col) := MakeCell(modelColors, draw, row, col)];
        col := col + 1;
      }
      row := row + 1;
    }
    if forall row, col :: draw(row, col) in QUALITIES {
      forall row, col | InGrid(row, col)
        ensures WellShaped(grid[GridKey(row, col)], row, col)
      {
        CellQualityIsNamed(modelColors, draw, row, col);
      }
    }
  }
}
