/**
  The hand-off between the offline labelling and the route server: the
  labels written to grid_colors.json are found by the server under the keys
  it looks up, and with the default class names every labelled cell gets a
  display quality and colour from the label table rather than Unknown.
*/
module Handoff {
  import opened Optional
  import opened Tally
  import opened RoadGrid
  import opened GridLabelling

  /** A classifier that only answers with the default class names labels every cell with one of them. */
  lemma CellLabelIsClassName(pool: seq<string>, pick: (int, int, int) -> nat, predict: string -> string,
                             row: int, col: int)
    requires |pool| > 0
    requires forall path :: predict(path) in CLASS_NAMES
    ensures CellLabel(pool, pick, predict, row, col) in CLASS_NAMES
  {
    var preds := CellPredictions(pool, pick, predict, row, col);
    MostCommonIsMajority(preds);
    var i :| 0 <= i < |preds| && preds[i] == MostCommon(preds);
    assert preds[i] == predict(CellImages(pool, pick, row, col)[i]);
  }

  /** Each default class name is a key of the server's label table, for a named quality and its colour. */
  lemma ClassNamesAreLabels(modelLabel: string)
    requires modelLabel in CLASS_NAMES
    ensures modelLabel in LABEL_MAP
    ensures LABEL_MAP[modelLabel].0 in QUALITIES && LABEL_MAP[modelLabel].0 != "Unknown"
    ensures LABEL_MAP[modelLabel].1 == QualityColor(LABEL_MAP[modelLabel].0)
  {
    assert modelLabel == "good" || modelLabel == "poor" || modelLabel == "satisfactory" || modelLabel == "very_poor";
  }

  /**
    A cell labelled with a default class name gets that label's display
    quality and colour in the server's grid, never the Unknown fallback.
  */
  lemma ModelLabelReachesServer(results: map<(int, int), string>, draw: (int, int) -> string, row: int, col: int)
    requires (row, col) in results && results[(row, col)] in CLASS_NAMES
    ensures var cell := MakeCell(Some(SerializeResults(results)), draw, row, col);
      && cell.quality == LABEL_MAP[results[(row, col)]].0
      && cell.color == LABEL_MAP[results[(row, col)]].1
      && cell.quality in QUALITIES
      && cell.quality != "Unknown"
  {
    var json := SerializeResults(results);
    ServerFindsEveryLabel(results, row, col);
    ClassNamesAreLabels(results[(row, col)]);
    CellQualitySource(Some(json), draw, row, col);
    CellColorMatchesQuality(Some(json), draw, row, col);
  }

  /** The server's entry for a cell labelled by the labelling run. */
  lemma LabelledCellShape(pool: seq<string>, pick: (int, int, int) -> nat, predict: string -> string,
                          results: map<(int, int), string>, draw: (int, int) -> string, row: int, col: int)
    requires |pool| > 0 && InGrid(row, col)
    requires forall path :: predict(path) in CLASS_NAMES
    requires (row, col) in results && results[(row, col)] == CellLabel(pool, pick, predict, row, col)
    ensures var cell := MakeCell(Some(SerializeResults(results)), draw, row, col);
      WellShaped(cell, row, col) && CellLabel(pool, pick, predict, row, col) in LABEL_MAP &&
      cell.quality == LABEL_MAP[CellLabel(pool, pick, predict, row, col)].0
  {
    CellLabelIsClassName(pool, pick, predict, row, col);
    ModelLabelReachesServer(results, draw, row, col);
  }

  /** A grid built from the labelling's output is valid, with every quality coming from a label. */
  lemma LabelledGridValid(pool: seq<string>, pick: (int, int, int) -> nat, predict: string -> string,
                          results: map<(int, int), string>, draw: (int, int) -> string, grid: map<string, Cell>)
    requires |pool| > 0
    requires forall path :: predict(path) in CLASS_NAMES
    requires forall r, c :: (r, c) in results <==> InLabelGrid(r, c)
    requires forall r, c :: InLabelGrid(r, c) ==> results[(r, c)] == CellLabel(pool, pick, predict, r, c)
    requires forall row, col :: InGrid(row, col) ==>
      GridKey(row, col) in grid && grid[GridKey(row, col)] == MakeCell(Some(SerializeResults(results)), draw, row, col)
    ensures ValidGrid(grid)
    ensures forall row, col :: InGrid(row, col) ==>
      CellLabel(pool, pick, predict, row, col) in LABEL_MAP &&
      grid[GridKey(row, col)].quality == LABEL_MAP[CellLabel(pool, pick, predict, row, col)].0
  {
    forall row, col | InGrid(row, col)
      ensures WellShaped(grid[GridKey(row, col)], row, col)
      ensures CellLabel(pool, pick, predict, row, col) in LABEL_MAP
      ensures grid[GridKey(row, col)].quality == LABEL_MAP[CellLabel(pool, pick, predict, row, col)].0
    {
      assert InLabelGrid(row, col);
      LabelledCellShape(pool, pick, predict, results, draw, row, col);
    }
  }

  /**
    Labelling the grid and starting the server on its output: every cell of
    the server's grid takes its quality from the labelling (the random draw
    is never used) and the grid is valid whatever the draw.
  */
  method LabelThenServe(pool: seq<string>, pick: (int, int, int) -> nat, predict: string -> string,
                        draw: (int, int) -> string)
    returns (grid: map<string, Cell>)
    requires |pool| > 0
    requires forall path :: predict(path) in CLASS_NAMES
    ensures ValidGrid(grid)
    ensures forall row, col :: InGrid(row, col) ==>
      CellLabel(pool, pick, predict, row, col) in LABEL_MAP &&
      grid[GridKey(row, col)].quality == LABEL_MAP[CellLabel(pool, pick, predict, row, col)].0
  {
    var results, detailed := LabelGrid(pool, pick, predict);
    grid := BuildGrid(Some(SerializeResults(results)), draw);
    LabelledGridValid(pool, pick, predict, results, draw, grid);
  }
}
