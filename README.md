# Road-quality grid of SmartRoute, in Dafny

This project models the road-quality grid behind the SmartRoute route server, and proves properties of that model.

The grid covers the Delhi NCR bounding box (latitude 28.25–29.05, longitude 76.65–77.75), cut into 20 × 20 cells. The model covers three Python programs:

- **api_server.py** builds the grid at start-up.
  - Each cell gets bounds, a centre, a quality and a colour.
  - The quality comes from the offline model labels, or else from a random draw.
  - Every position maps to a cell by truncating and clamping, keyed `"row,col"`.
- **api_server.py** also answers `POST /route`:
  1. It rejects requests with a missing (or zero) coordinate.
  2. It asks OSRM for the direct route and samples every 10th point. The route is accepted when fewer than 30% of the samples lie in Poor or Very Poor cells.
  3. Otherwise it builds a corridor of acceptable cells between start and end, using a quality priority and a direction cone.
  4. It places up to two waypoints in good corridor cells near 40% and 70% of the way, and routes through them.
  5. It reports the quality of every 5th point of the final route, with a per-quality summary.
- **grid_visualizer.py** computes grid statistics and map helpers:
  - the quality counts in first-seen order and their percentages;
  - the weighted score (Good 100, Satisfactory 70, Poor 40, Very Poor 10, Unknown 50) and its verdict band (80 / 60 / 40);
  - the closed rectangle drawn for a cell;
  - the colour looked up for a quality.
- **RoadHealth/generate_grid_colors.py** is the offline labelling:
  - it collects the dataset's image files class by class, with a case-insensitive extension filter;
  - it gives every cell five sampled images and labels the cell by majority vote of the classifier. The vote follows `Counter.most_common`, so ties go to the label predicted first;
  - it writes the labels under keys `"(row, col)"`. These are exactly the keys the server looks up.

Modules, one per file:

- `Optional`: the Option and Result types.
- `Text`: `str(int)`, splitting at a separator, ASCII lower-casing and `endswith`.
- `Tally`: counting, and dict first-seen order.
- `RoadGrid`: grid geometry, keys, cell construction and the grid build loop.
- `Corridor`: corridor selection.
- `Routing`: the route decisions and the `/route` handler.
- `GridVisualizer`: statistics and map helpers.
- `GridLabelling`: the offline labelling.
- `Handoff`: the link from the labelling output to the server grid.

How the Python is modelled:

- Coordinates are exact `real`s.
- Python's `int()` truncates toward zero. It is modelled by `RoadGrid.Trunc`.
- Keys are real strings, and `str(int)` is proved injective. So the 400 grid keys and the 400 serialised labels are distinct by proof.
- Things outside the program become parameters:
  - OSRM replies: `directReply` (or `reply`) for the direct request and `osrm(points)` for the request through waypoints, each None when that request fails or finds no route;
  - `random.choices` and `random.random()` results: `draw`, `pick`, `rand`;
  - the classifier: `predict`;
  - the directory listing: `listing`;
  - the square-root distance penalty: `dist`.
- The browser client's route, RL-route and feedback coordination is not part of this model. No code for it exists in the repository's Python sources.

## Model

| member | source | states |
|---|---|---|
| Text.IntToStringInjective | api_server.py:55 | two integers with the same `str()` are equal, so `f'{row},{col}'` keys of distinct cells differ |
| RoadGrid.Trunc | api_server.py:142 | `int(x)` truncates toward zero: floor for non-negative x, ceiling for negative x |
| RoadGrid.Clamp | api_server.py:142-143 | `max(0, min(i, grid_size - 1))` lies in [0, 19], keeps in-range indices, maps below to 0 and above to 19 |
| RoadGrid.TruncClampIsFloorClamp | api_server.py:142-143 | truncation followed by the clamp equals floor followed by the clamp |
| RoadGrid.RowIndex | api_server.py:142 | the row of any latitude lies in [0, 19]; inside the box it is floor((lat - lat_min) / lat_step); below the box 0, above 19 |
| RoadGrid.ColIndex | api_server.py:143 | the same for the column of a longitude |
| RoadGrid.PointLiesInItsCell | api_server.py:42-45 | a point inside the box lies within the lower/upper bounds of the cell it is mapped to |
| RoadGrid.GridKeyInjective | api_server.py:55 | distinct (row, col) give distinct `"row,col"` keys |
| RoadGrid.ModelColorKeyInjective | api_server.py:47 | distinct (row, col) give distinct `"(row, col)"` keys |
| RoadGrid.QualityColor | api_server.py:54 | `quality_colors.get(quality, '#6b7280')`: a quality in the table gets its own colour, any other the grey fallback |
| RoadGrid.CellLook | api_server.py:46-54 | whichever way a cell's quality is chosen (model label, unknown label, or draw), its colour is the colour table's entry for that quality |
| RoadGrid.MakeCell | api_server.py:42-63 | a cell's row/col are its own, its bounds are [min + i*step, + step], its centre is strictly inside and at the midpoint |
| RoadGrid.CellColorMatchesQuality | api_server.py:48-54 | every cell's colour equals `quality_colors` of its quality, whether it came from the model label or the draw |
| RoadGrid.CellQualitySource | api_server.py:46-53 | a known model label gives its display quality, an unknown label gives Unknown, a cell without a label gets the drawn quality |
| RoadGrid.CellQualityIsNamed | api_server.py:46-53 | when the draw is one of the four qualities, every cell quality is one of the five names |
| RoadGrid.AdjacentCellsShareBounds | api_server.py:42-45 | the upper bound of a cell is the lower bound of the next row / column |
| RoadGrid.CenterLooksUpItsCell | api_server.py:56-57 | the centre of cell (row, col) maps back to (row, col) |
| RoadGrid.BuildGrid | api_server.py:41-63 | the grid has exactly 400 entries, each in-grid cell is under its own key with its built entry, every key is that of its entry, and with named draws the grid is valid |
| Corridor.Priority | api_server.py:72 | priority in [0, 4]; at least 2 exactly for Good/Satisfactory/Poor; 1 exactly for Very Poor |
| Corridor.DirectionScore | api_server.py:108 | `max(0, dot / (|e| |c|))` is never negative |
| Corridor.ScoreAboveThreshold | api_server.py:108-111 | the score exceeds 0.7 exactly when dot exceeds 0.7 times the product of the magnitudes |
| Corridor.ConeTestMatchesScore | api_server.py:101-111 | with magnitudes the square roots of the squared lengths, score > 0.7 iff `dot > 0 && 100 dot^2 > 49 |e|^2 |c|^2` |
| Corridor.WellAligned | api_server.py:93-108 | the integer form of `direction_score > 0.7`; ConeTestMatchesScore proves it equal to the cosine test |
| Corridor.Admits | api_server.py:111 | `cell_quality >= 2 or (cell_quality >= 1 and direction_score > 0.7)`; CorridorRules states its consequences for the corridor |
| Corridor.FindQualityConstrainedCells | api_server.py:67-118 | the returned set is exactly the start cell, the end cell and the box cells admitted by priority or alignment |
| Corridor.CorridorRules | api_server.py:75-116 | endpoints always belong; members lie in the clamped box; priority >= 2 box cells belong; Unknown cells only as endpoints; Very Poor box cells iff aligned; equal endpoints align every cell |
| Routing.EveryNthShape | api_server.py:141 | `s[::n]` has ceil(\|s\| / n) elements and its i-th is `s[i*n]` |
| Routing.EveryNth | api_server.py:141 | `s[::n]`; its length and elements are stated by EveryNthShape |
| Routing.PoorCount | api_server.py:138-147 | the number of samples in Poor or Very Poor cells, at most the number of samples |
| Routing.LatLng | api_server.py:135 | OSRM's [lng, lat] pairs become [lat, lng], one per coordinate |
| Routing.DecisionMatchesRatio | api_server.py:150-153 | the integer test `10 poor < 3 total` is exactly `poor / total < 0.3`, and the outcome is direct or needs guidance |
| Routing.DecisionMonotone | api_server.py:150-153 | more poor samples never turn a guided decision into a direct one |
| Routing.GuidanceDecision | api_server.py:150-153 | direct when there are no samples or `10 poor < 3 total`; DecisionMatchesRatio proves this is the 0.3 ratio test |
| Routing.DirectRouteWithAvoidance | api_server.py:120-158 | a failed request gives [start, end] with fallback; otherwise the route and the ratio decision over its every-10th samples |
| Routing.BestCellNear | api_server.py:185-207 | the chosen cell is a grid corridor cell at one of the 25 offsets, it reaches the returned score, and no candidate scores higher; without a candidate the score stays -1 |
| Routing.ClampInto | api_server.py:219-220 | `max(lo, min(hi, x))` lies in [lo, hi] and keeps values already inside |
| Routing.FoundIffGoodNear | api_server.py:185-209 | the scan's best cell passes `best_quality_score >= 2` exactly when some corridor candidate among the 25 offsets scores at least 2 |
| Routing.WaypointNear | api_server.py:185-222 | a waypoint is placed near a target exactly when some corridor cell there scores at least 2, and it lies inside the bounds of the cell scanned at one of the 25 offsets around the target that is a corridor candidate scoring at least 2 and outscored by no other candidate |
| Routing.NextWaypoint | api_server.py:180-222 | one round of the fraction loop: the intermediate list grows by one exactly when a corridor cell near that target scores at least 2, and every entry stays inside a good corridor cell |
| Routing.GuidedWaypoints | api_server.py:160-226 | start first, end last; no intermediates unless dr^2 + dc^2 > 9, and then one for each of the 40% and 70% targets near which some corridor cell scores at least 2, each inside the bounds of a corridor cell of priority >= 2 |
| Routing.RouteThroughWaypoints | api_server.py:236-257 | on a reply, OSRM's coordinates each swapped to [lat, lng]; on failure the straight-line fallback visits every waypoint in order, starting at the first and ending at the last |
| Routing.ValidateRequest | api_server.py:299-310 | accepted iff all four coordinates are present and non-zero; otherwise "Missing coordinates" |
| Routing.ZeroCoordinateCountsAsMissing | api_server.py:304 | a coordinate equal to 0 is rejected like a missing one |
| Routing.SampleQuality | api_server.py:336-339 | on a grid with every cell present, the sampled quality is that of the clamped cell, never the Unknown fallback |
| Routing.CellInfoAt | api_server.py:361-362 | the reported cell is on the grid, and its quality is the one sampled at that point |
| Routing.SampleQualityNamed | api_server.py:336-339 | on a valid grid every sampled quality is one of the five summary keys |
| Routing.SummarizeRoute | api_server.py:332-341 | one quality per every-5th point, read from its cell; the summary counts each quality and adds up to the number of samples |
| Routing.PlanRoute | api_server.py:318-329 | direct iff the decision over the direct reply says so, taking that route; otherwise guided, through waypoints of the quality corridor placed as GuidedWaypoints states, and when the waypoint request fails the route still runs from start to end |
| Routing.NoWaypointMeansNoGoodCell | api_server.py:176-224 | a long journey is guided straight from start to end only when no corridor cell near either target scores at least 2 |
| Routing.HandleRouteRequest | api_server.py:292-363 | missing coordinates give the 400 message; otherwise direct iff the direct decision says so, else a guided route through waypoints of the corridor, with the sampled qualities, summary and endpoint cells |
| GridVisualizer.QualityCountsMeaning | grid_visualizer.py:215-218 | the counted qualities are exactly those occurring, each with its (positive) number of cells |
| GridVisualizer.QualityCounts | grid_visualizer.py:215-218 | the dict built by `quality_counts.get(quality, 0) + 1`; its keys and values are stated by QualityCountsMeaning |
| Tally.FirstSeenMembers | grid_visualizer.py:215-218 | the first-seen key order holds every value that occurs, nothing else, and no value twice |
| GridVisualizer.CountQualities | grid_visualizer.py:215-218 | the loop's dict equals the counts, its key order is first-seen order |
| GridVisualizer.CountsSumToTotal | grid_visualizer.py:215-220 | the counts add up to the number of cells |
| GridVisualizer.Percentage | grid_visualizer.py:228 | a count out of a total is a percentage in [0, 100] |
| GridVisualizer.PercentagesSumTo100 | grid_visualizer.py:227-229 | the exact percentages (before the one-decimal print) add up to 100 |
| GridVisualizer.WeightOf | grid_visualizer.py:232-238 | the weight of a quality in the table, 0 for a quality outside it |
| GridVisualizer.TotalScore | grid_visualizer.py:240 | `sum(quality_counts.get(q, 0) * quality_weights[q] for q in quality_weights)`; TotalScoreIsPerCellSum proves it the per-cell weight sum |
| GridVisualizer.AverageScore | grid_visualizer.py:241 | the total score over the number of cells; AverageScoreBounds bounds it to [10, 100] |
| GridVisualizer.TotalScoreIsPerCellSum | grid_visualizer.py:240 | summing count * weight over the table equals summing each cell's weight; qualities outside the table add 0 |
| GridVisualizer.AverageScoreBounds | grid_visualizer.py:232-241 | with every quality one of the five names, the average lies in [10, 100] |
| GridVisualizer.VerdictFor | grid_visualizer.py:245-252 | the verdict band; VerdictCountsThresholds and VerdictMonotone state its thresholds and order |
| GridVisualizer.VerdictCountsThresholds | grid_visualizer.py:245-252 | the verdict is the number of thresholds 80, 60, 40 the score reaches, lower bounds inclusive |
| GridVisualizer.VerdictMonotone | grid_visualizer.py:245-252 | a higher score never gets a worse verdict |
| GridVisualizer.Distribution | grid_visualizer.py:227-229 | one share per quality, in dict order, with that quality's count and its percentage of all cells |
| GridVisualizer.WeightBounds | grid_visualizer.py:232-238 | every display quality has a weight between 10 and 100 |
| GridVisualizer.AnalyzeGridStatistics | grid_visualizer.py:210-252 | total, each quality's count and percentage in first-seen order, average equal to the per-cell weight sum over the cell count, and its verdict |
| GridVisualizer.RectRingIsClosedRectangle | grid_visualizer.py:107-113 | five points, closed, corners in rect_coords' order ((lat min, lng min), (lat min, lng max), (lat max, lng max), (lat max, lng min), then the first again), edges along cell sides, distinct corners for a cell of positive size |
| GridVisualizer.RectRing | grid_visualizer.py:107-113 | `rect_coords` of a cell; its shape is stated by RectRingIsClosedRectangle |
| GridVisualizer.ColorFor | grid_visualizer.py:121 | `color_map.get(quality, '#6b7280')` |
| GridVisualizer.VisualizerColorsMatchServer | grid_visualizer.py:92-98 | the visualizer's colour table is the server's, and it paints each server cell in the cell's own colour |
| GridLabelling.ImageNameIgnoresCase | RoadHealth/generate_grid_colors.py:39 | the filter gives the same answer for a name and its lower-cased form |
| GridLabelling.ImageNameExtensions | RoadHealth/generate_grid_colors.py:39 | a name is kept iff its lower-cased form ends with .jpg, .jpeg, .png or .bmp |
| GridLabelling.IsImageName | RoadHealth/generate_grid_colors.py:39 | the extension filter; ImageNameExtensions and ImageNameIgnoresCase state what it accepts |
| GridLabelling.PathJoin | RoadHealth/generate_grid_colors.py:35 | `os.path.join`: an absolute second part wins; otherwise the result starts with the first part and ends with the second |
| GridLabelling.ImagesIn | RoadHealth/generate_grid_colors.py:38-40 | the image paths of one listing, at most one per listed file; ImagesInMembership states which |
| GridLabelling.ImagesInMembership | RoadHealth/generate_grid_colors.py:38-40 | every listed image name is collected, joined to its directory, and nothing else is |
| GridLabelling.Collected | RoadHealth/generate_grid_colors.py:32-41 | the class-by-class collection; CollectedClassByClass and MissingClassSkipped state its shape |
| GridLabelling.CollectedClassByClass | RoadHealth/generate_grid_colors.py:34-40 | the images of class k come after those of the earlier classes and before those of the later ones |
| GridLabelling.MissingClassSkipped | RoadHealth/generate_grid_colors.py:36-37 | a class whose directory is missing adds nothing |
| GridLabelling.AppendImages | RoadHealth/generate_grid_colors.py:38-40 | the inner loop appends exactly the image files of one class directory, in listing order |
| GridLabelling.CollectImagePaths | RoadHealth/generate_grid_colors.py:32-41 | the nested loop returns exactly the class-by-class collection |
| GridLabelling.BestIndex | RoadHealth/generate_grid_colors.py:105 | the chosen key has the greatest count, and every earlier key a strictly smaller one |
| GridLabelling.MostCommon | RoadHealth/generate_grid_colors.py:105 | `Counter(preds).most_common(1)[0][0]` is one of the predictions; MostCommonIsMajority states the majority and the tie-break |
| GridLabelling.MostCommonIsMajority | RoadHealth/generate_grid_colors.py:105 | the label occurs in the predictions, no label occurs more often, and among equally frequent labels it is the one predicted first |
| GridLabelling.CellImages | RoadHealth/generate_grid_colors.py:48-50 | five images per cell, each from the pool |
| GridLabelling.CellPredictions | RoadHealth/generate_grid_colors.py:100-102 | five predictions per cell, the k-th that of the k-th image |
| GridLabelling.PredictCell | RoadHealth/generate_grid_colors.py:98-102 | the loop over the images yields the cell's predictions in order |
| GridLabelling.CellLabel | RoadHealth/generate_grid_colors.py:96-106 | the majority label of a cell's five predictions; Handoff.CellLabelIsClassName shows it is a class name |
| GridLabelling.LabelGrid | RoadHealth/generate_grid_colors.py:90-107 | results has exactly the 400 grid cells, each with its majority label; each cell keeps its five predictions |
| GridLabelling.TupleReprInjective | RoadHealth/generate_grid_colors.py:113 | distinct cells give distinct `str((row, col))` keys |
| GridLabelling.SerializeResults | RoadHealth/generate_grid_colors.py:112-113 | every label is written under `"(row, col)"`, and the written keys are exactly those of the labelled cells |
| GridLabelling.SerializedSize | RoadHealth/generate_grid_colors.py:113 | the JSON object has one entry per labelled cell: no two cells collide |
| GridLabelling.ServerFindsEveryLabel | api_server.py:47-49 | the server finds each written label under the key it looks up for the cell |
| GridLabelling.GetColorMap | RoadHealth/generate_grid_colors.py:122-128 | the colour map has exactly the label table's keys, which include every class name |
| Handoff.CellLabelIsClassName | RoadHealth/generate_grid_colors.py:80-87 | a classifier that answers with class names labels every cell with a class name |
| Handoff.ClassNamesAreLabels | api_server.py:19-24 | each default class name is in the label table, with a named quality (not Unknown) and that quality's colour |
| Handoff.ModelLabelReachesServer | api_server.py:46-50 | a cell labelled with a class name gets the label's display quality and colour in the server's grid |
| Handoff.LabelledGridValid | api_server.py:41-63 | a grid built from the labelling output is valid and every quality comes from the cell's label |
| Handoff.LabelThenServe | api_server.py:41-63 | labelling then building the grid yields a valid grid whose qualities all come from the labels, whatever the random draw |

## Left out

- HTTP plumbing is not modelled: status lines, CORS headers, JSON decoding and encoding, `GET /grid`, `GET /health`, and the 404 and 500 responses (api_server.py:260-395). A body with a non-numeric coordinate fails in Python with a 500; the model types coordinates as optional reals.
- OSRM calls are parameters. `directReply` is the reply to the direct request and `osrm(points)` the reply to the request through `points`; None stands for a failed request or an empty `routes` list. The two are separate, so the direct request can fail while the guided one succeeds for the same two points. The 10-second and 15-second timeouts are not modelled.
- Randomness is a parameter:
  - `draw` for the weighted fallback quality, whose 0.4/0.3/0.2/0.1 weights are not modelled;
  - `rand` for the waypoint offsets;
  - `pick` for `random.choices` of images. `random.seed(42)` is not modelled.
- Floating point is modelled as exact reals. Rounding of the bounds, the 0.3 ratio and the 0.7 cone threshold is not modelled.
- The distance penalty `(dr^2 + dc^2)^0.5` is the parameter `dist`, which is only required to be non-negative.
- The route distance (×111) and duration estimate of the response are left out. They are approximate float geometry.
- Routing.BestCellNear: states that no candidate scores higher than the chosen one, not that among equal scores the earliest offset wins.
- Routing.GuidedWaypoints: states that each intermediate waypoint lies inside a corridor cell of priority at least 2. It does not state which fraction's target each intermediate waypoint belongs to; WaypointNear states its placement in the best cell near one target. The exact jittered position is not stated.
- Routing.PlanRoute: the guided branch fixes how many intermediate waypoints there are and that each lies in a good corridor cell, not which cell each one is in or its jittered position (as for GuidedWaypoints).
- Routing.HandleRouteRequest: the guided branch states only the waypoint properties and the OSRM-or-waypoints choice. The distance and duration fields are not part of the response model.
- The summary and the corridor assume a grid with every cell present and every quality among the five names. Otherwise Python's `quality_summary[quality] += 1` and `grid[...]` raise. BuildGrid establishes this when the draws are the four qualities, and Handoff.LabelThenServe establishes it for model labels.
- `analyze_grid_statistics` divides by the number of cells, so the model requires a non-empty cell list. The `smartroute_grid` module that produces its input is not part of this model. Cells are taken as the server's cell records.
- Rendering is not modelled: matplotlib and folium drawing, legends, the `quality[:3]` labels, and file saves. `demo_pathfinding` and `__main__` are not part of this model either: they depend on the absent `smartroute_grid` module.
- GridLabelling.CellImages and GridLabelling.LabelGrid require a non-empty image pool. With no images `random.choices` raises IndexError (generate_grid_colors.py:50), and that crash is not modelled.
- PyTorch model loading, image transforms and inference are reduced to the parameter `predict`. Reassigning `CLASS_NAMES` from the checkpoint (generate_grid_colors.py:59, 72) is covered only for the default names.
- The printed votes, the detailed confidences and probabilities, and the JSON files on disk are not modelled. `CATEGORY_MAP` is never used by the script.
- The warning printed when there are fewer than 2000 images is not modelled.
- `str.lower()` is modelled for ASCII letters only. `os.listdir` order is whatever the listing gives.
- The browser client's orchestration of route requests, RL routes, feedback and statistics polling has no code in the repository's Python sources, so it is not modelled.
