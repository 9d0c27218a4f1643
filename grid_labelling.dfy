/**
  The offline labelling of RoadHealth/generate_grid_colors.py: collect the
  road images of the dataset class by class, give every cell of the 20 x 20
  grid five sampled images, label the cell with the classifier's majority
  vote (ties going to the label predicted first, as `Counter.most_common`
  does), and write the labels under keys `"(row, col)"`. The file system
  listing, the random sampling and the classifier are parameters.
*/
module GridLabelling {
  import opened Text
  import opened Tally
  import opened RoadGrid

  const GRID_ROWS: int := 20
  const GRID_COLS: int := 20
  const IMAGES_PER_CELL: int := 5

  /** The class names the script starts with, and the classifier's default. */
  const CLASS_NAMES: seq<string> := ["good", "poor", "satisfactory", "very_poor"]

  const IMAGE_EXTENSIONS: seq<string> := [".jpg", ".jpeg", ".png", ".bmp"]

  // ----- collect_image_paths -----

  /** `fname.lower().endswith(('.jpg', '.jpeg', '.png', '.bmp'))`. */
  predicate IsImageName(fname: string)
  {
    exists i :: 0 <= i < |IMAGE_EXTENSIONS| && EndsWith(Lower(fname), IMAGE_EXTENSIONS[i])
  }

  /** The filter ignores case: a name and its lower-cased form are kept or dropped together. */
  lemma ImageNameIgnoresCase(fname: string)
    ensures IsImageName(Lower(fname)) <==> IsImageName(fname)
  {
    LowerIdempotent(fname);
  }

  /** Which of the four extensions a kept name has; names without one are dropped. */
  lemma ImageNameExtensions(fname: string)
    ensures IsImageName(fname) <==>
      EndsWith(Lower(fname), ".jpg") || EndsWith(Lower(fname), ".jpeg") ||
      EndsWith(Lower(fname), ".png") || EndsWith(Lower(fname), ".bmp")
  {
    if EndsWith(Lower(fname), ".jpg") {
      assert EndsWith(Lower(fname), IMAGE_EXTENSIONS[0]);
    } else if EndsWith(Lower(fname), ".jpeg") {
      assert EndsWith(Lower(fname), IMAGE_EXTENSIONS[1]);
    } else if EndsWith(Lower(fname), ".png") {
      assert EndsWith(Lower(fname), IMAGE_EXTENSIONS[2]);
    } else if EndsWith(Lower(fname), ".bmp") {
      assert EndsWith(Lower(fname), IMAGE_EXTENSIONS[3]);
    }
  }

  /** `os.path.join(a, b)` on POSIX paths. */
  function PathJoin(a: string, b: string): (p: string)
    ensures |b| > 0 && b[0] == '/' ==> p == b
    ensures !(|b| > 0 && b[0] == '/') ==> EndsWith(p, b) && |a| <= |p| && p[..|a|] == a
  {
    if |b| > 0 && b[0] == '/' then b
    else if a == [] || a[|a| - 1] == '/' then a + b
    else a + "/" + b
  }

  /** The image paths of one directory's listing, in listing order. */
  function ImagesIn(dir: string, files: seq<string>): (paths: seq<string>)
    ensures |paths| <= |files|
  {
    if files == [] then []
    else
      var f := files[|files| - 1];
      ImagesIn(dir, files[..|files| - 1]) + (if IsImageName(f) then [PathJoin(dir, f)] else [])
  }

  /** ImagesIn, unfolded at the last listed name. */
  lemma ImagesInSnoc(dir: string, files: seq<string>)
    requires files != []
    ensures ImagesIn(dir, files) == ImagesIn(dir, files[..|files| - 1])
      + (if IsImageName(files[|files| - 1]) then [PathJoin(dir, files[|files| - 1])] else [])
  {
  }

  /** Exactly the image names of the listing are collected, each joined to its directory. */
  lemma {:induction false} ImagesInMembership(dir: string, files: seq<string>)
    ensures forall j :: 0 <= j < |files| && IsImageName(files[j]) ==> PathJoin(dir, files[j]) in ImagesIn(dir, files)
    ensures forall i :: 0 <= i < |ImagesIn(dir, files)| ==>
      exists j :: 0 <= j < |files| && IsImageName(files[j]) && ImagesIn(dir, files)[i] == PathJoin(dir, files[j])
  {
    if files != [] {
      var init, f := files[..|files| - 1], files[|files| - 1];
      ImagesInMembership(dir, init);
      var prev, paths := ImagesIn(dir, init), ImagesIn(dir, files);
      assert paths == prev + (if IsImageName(f) then [PathJoin(dir, f)] else []);
      assert forall j :: 0 <= j < |init| ==> init[j] == files[j];
      forall i | 0 <= i < |paths|
        ensures exists j :: 0 <= j < |files| && IsImageName(files[j]) && paths[i] == PathJoin(dir, files[j])
      {
        if i < |prev| {
          assert paths[i] == prev[i];
          var j :| 0 <= j < |init| && IsImageName(init[j]) && prev[i] == PathJoin(dir, init[j]);
          assert files[j] == init[j] && IsImageName(files[j]) && paths[i] == PathJoin(dir, files[j]);
        } else {
          var j := |files| - 1;
          assert IsImageName(files[j]) && paths[i] == PathJoin(dir, files[j]);
        }
      }
    } else {
      assert ImagesIn(dir, files) == [];
    }
  }

  /** The images of one class: none when its directory does not exist. */
  function ClassImages(datasetDir: string, className: string, listing: map<string, seq<string>>): seq<string>
  {
    var dir := PathJoin(datasetDir, className);
    if dir in listing then ImagesIn(dir, listing[dir]) else []
  }

  /** The paths collected from the classes in `classNames`, class by class. */
  function Collected(datasetDir: string, classNames: seq<string>, listing: map<string, seq<string>>): seq<string>
  {
    if classNames == [] then []
    else Collected(datasetDir, classNames[..|classNames| - 1], listing)
         + ClassImages(datasetDir, classNames[|classNames| - 1], listing)
  }

  /** Collected, unfolded at its last class. */
  lemma CollectedSnoc(datasetDir: string, classNames: seq<string>, listing: map<string, seq<string>>)
    requires classNames != []
    ensures Collected(datasetDir, classNames, listing)
         == Collected(datasetDir, classNames[..|classNames| - 1], listing)
          + ClassImages(datasetDir, classNames[|classNames| - 1], listing)
  {
  }

  /** Collecting two lists of classes one after the other is collecting their concatenation. */
  lemma {:induction false} CollectedAppend(datasetDir: string, cs1: seq<string>, cs2: seq<string>,
                                          listing: map<string, seq<string>>)
    ensures Collected(datasetDir, cs1 + cs2, listing)
         == Collected(datasetDir, cs1, listing) + Collected(datasetDir, cs2, listing)
  {
    if cs2 == [] {
      assert cs1 + cs2 == cs1;
    } else {
      var whole, init, c := cs1 + cs2, cs2[..|cs2| - 1], cs2[|cs2| - 1];
      assert whole[..|whole| - 1] == cs1 + init;
      assert whole[|whole| - 1] == c;
      CollectedSnoc(datasetDir, whole, listing);
      CollectedSnoc(datasetDir, cs2, listing);
      CollectedAppend(datasetDir, cs1, init, listing);
    }
  }

  /**
    The paths come class by class in the order of `classNames`: the images of
    class k sit between those of the classes before and after it.
  */
  lemma CollectedClassByClass(datasetDir: string, classNames: seq<string>, listing: map<string, seq<string>>, k: int)
    requires 0 <= k < |classNames|
    ensures Collected(datasetDir, classNames, listing)
         == Collected(datasetDir, classNames[..k], listing)
          + ClassImages(datasetDir, classNames[k], listing)
          + Collected(datasetDir, classNames[k + 1..], listing)
  {
    assert classNames == classNames[..k] + [classNames[k]] + classNames[k + 1..];
    CollectedAppend(datasetDir, classNames[..k] + [classNames[k]], classNames[k + 1..], listing);
    CollectedAppend(datasetDir, classNames[..k], [classNames[k]], listing);
    assert [classNames[k]][..0] == [];
  }

  /** A class whose directory is missing is skipped: it adds no path and causes no error. */
  lemma MissingClassSkipped(datasetDir: string, cs1: seq<string>, c: string, cs2: seq<string>,
                            listing: map<string, seq<string>>)
    requires PathJoin(datasetDir, c) !in listing
    ensures Collected(datasetDir, cs1 + [c] + cs2, listing) == Collected(datasetDir, cs1 + cs2, listing)
  {
    CollectedAppend(datasetDir, cs1 + [c], cs2, listing);
    CollectedAppend(datasetDir, cs1, cs2, listing);
    assert (cs1 + [c])[..|cs1|] == cs1;
  }

  /** The inner loop of collect_image_paths: append the joined path of every image name of one listing. */
  method AppendImages(imagePaths: seq<string>, classDir: string, files: seq<string>)
    returns (extended: seq<string>)
    ensures extended == imagePaths + ImagesIn(classDir, files)
  {
    extended := imagePaths;
    var j := 0;
    while j < |files|
      invariant 0 <= j <= |files|
      invariant extended == imagePaths + ImagesIn(classDir, files[..j])
    {
      assert files[..j + 1][..j] == files[..j];
      ImagesInSnoc(classDir, files[..j + 1]);
      if IsImageName(files[j]) {
        extended := extended + [PathJoin(classDir, files[j])];
      }
      j := j + 1;
    }
    assert files[..j] == files;
  }

  /**
    collect_image_paths: for each class in order, when its directory exists,
    the joined path of every listed image name. `listing` maps each existing
    directory to `os.listdir` of it.
  */
  method CollectImagePaths(datasetDir: string, classNames: seq<string>, listing: map<string, seq<string>>)
    returns (imagePaths: seq<string>)
    ensures imagePaths == Collected(datasetDir, classNames, listing)
  {
    imagePaths := [];
    var k := 0;
    while k < |classNames|
      invariant 0 <= k <= |classNames|
      invariant imagePaths == Collected(datasetDir, classNames[..k], listing)
    {
      assert classNames[..k + 1][..k] == classNames[..k];
      CollectedSnoc(datasetDir, classNames[..k + 1], listing);
      var classDir := PathJoin(datasetDir, classNames[k]);
      if classDir in listing {
        imagePaths := AppendImages(imagePaths, classDir, listing[classDir]);
      }
      k := k + 1;
    }
    assert classNames[..k] == classNames;
  }

  // ----- the majority vote -----

  /**
    Index of the label `max` picks from `keys` by count in `s`: the first
    key of greatest count (a later key replaces it only with a strictly
    greater count).
  */
  function BestIndex(keys: seq<string>, s: seq<string>): (k: nat)
    requires |keys| > 0
    ensures k < |keys|
    ensures forall i :: 0 <= i < |keys| ==> Count(s, keys[i]) <= Count(s, keys[k])
    ensures forall i :: 0 <= i < k ==> Count(s, keys[i]) < Count(s, keys[k])
  {
    if |keys| == 1 then 0
    else
      var init := keys[..|keys| - 1];
      var b := BestIndex(init, s);
      assert forall i :: 0 <= i < |init| ==> init[i] == keys[i];
      if Count(s, keys[|keys| - 1]) > Count(s, keys[b]) then |keys| - 1 else b
  }

  /** `Counter(preds).most_common(1)[0][0]`: the counter's keys are the labels in first-seen order. */
  function MostCommon(preds: seq<string>): (winner: string)
    requires |preds| > 0
    ensures winner in preds
  {
    var keys := FirstSeen(preds);
    FirstSeenMembers(preds);
    keys[BestIndex(keys, preds)]
  }

  /** Order of first occurrence is the same in a sequence and in its first-seen keys. */
  lemma FirstSeenOrder(s: seq<string>, x: string, y: string)
    requires x in s && y in s
    ensures x in FirstSeen(s) && y in FirstSeen(s)
    ensures FirstIndex(s, x) < FirstIndex(s, y) <==> FirstIndex(FirstSeen(s), x) < FirstIndex(FirstSeen(s), y)
  {
    var i, j := FirstIndex(s, x), FirstIndex(s, y);
    FirstSeenMembers(s);
    if i < j {
      FirstSeenKeepsOrder(s, x, y);
    } else if j < i {
      FirstSeenKeepsOrder(s, y, x);
    }
  }

  /** In a list of distinct keys, the key at index k is first found at k. */
  lemma FirstIndexOfDistinct(keys: seq<string>, k: int)
    requires Distinct(keys) && 0 <= k < |keys|
    ensures FirstIndex(keys, keys[k]) == k
  {
  }

  /**
    The majority vote: the label occurs among the predictions, no label
    occurs more often, and among equally frequent labels it is the one
    predicted first.
  */
  lemma MostCommonIsMajority(preds: seq<string>)
    requires |preds| > 0
    ensures MostCommon(preds) in preds
    ensures forall x :: Count(preds, x) <= Count(preds, MostCommon(preds))
    ensures forall x :: (x in preds && Count(preds, x) == Count(preds, MostCommon(preds))
      ==> FirstIndex(preds, MostCommon(preds)) <= FirstIndex(preds, x))
  {
    var keys := FirstSeen(preds);
    FirstSeenMembers(preds);
    var kw := BestIndex(keys, preds);
    var w := keys[kw];
    forall x
      ensures Count(preds, x) <= Count(preds, w)
    {
      if x in preds {
        var j :| 0 <= j < |preds| && preds[j] == x;
        assert preds[j] in keys;
        var kx :| 0 <= kx < |keys| && keys[kx] == x;
      }
    }
    forall x | x in preds && Count(preds, x) == Count(preds, w)
      ensures FirstIndex(preds, w) <= FirstIndex(preds, x)
    {
      FirstSeenOrder(preds, x, w);
      var kx := FirstIndex(keys, x);
      FirstIndexOfDistinct(keys, kw);
      assert kw <= kx;
    }
  }

  // ----- labelling the grid -----

  /** `random.choices(pool, k=5)` for a cell: `pick(row, col, k)` chooses the k-th image. */
  function CellImages(pool: seq<string>, pick: (int, int, int) -> nat, row: int, col: int): (images: seq<string>)
    requires |pool| > 0
    ensures |images| == IMAGES_PER_CELL
    ensures forall k :: 0 <= k < |images| ==> images[k] in pool
  {
    seq(IMAGES_PER_CELL, k requires 0 <= k < IMAGES_PER_CELL => pool[pick(row, col, k) % |pool|])
  }

  /** The classifier's label for each of a cell's images. */
  function CellPredictions(pool: seq<string>, pick: (int, int, int) -> nat, predict: string -> string,
                           row: int, col: int): (preds: seq<string>)
    requires |pool| > 0
    ensures |preds| == IMAGES_PER_CELL
    ensures forall k :: 0 <= k < |preds| ==> preds[k] == predict(CellImages(pool, pick, row, col)[k])
  {
    var images := CellImages(pool, pick, row, col);
    seq(|images|, k requires 0 <= k < |images| => predict(images[k]))
  }

  /** The label written for a cell. */
  function CellLabel(pool: seq<string>, pick: (int, int, int) -> nat, predict: string -> string,
                     row: int, col: int): string
    requires |pool| > 0
  {
    MostCommon(CellPredictions(pool, pick, predict, row, col))
  }

  predicate InLabelGrid(row: int, col: int)
  {
    0 <= row < GRID_ROWS && 0 <= col < GRID_COLS
  }

  /** `keys` are the grid cells before ordinal `n` in row-major order. */
  ghost predicate KeysBefore(keys: set<(int, int)>, n: int)
  {
    forall k :: k in keys <==> InLabelGrid(k.0, k.1) && Ordinal(k.0, k.1) < n
  }

  /** The next cell in row-major order is new, and adding it moves the bound by one. */
  lemma KeysStep(keys: set<(int, int)>, row: int, col: int)
    requires InLabelGrid(row, col) && KeysBefore(keys, Ordinal(row, col))
    ensures (row, col) !in keys
    ensures KeysBefore(keys + {(row, col)}, Ordinal(row, col) + 1)
  {
    forall k: (int, int) | InLabelGrid(k.0, k.1) && Ordinal(k.0, k.1) < Ordinal(row, col) + 1
      ensures k in keys + {(row, col)}
    {
      if Ordinal(k.0, k.1) == Ordinal(row, col) {
        OrdinalInjective(k.0, k.1, row, col);
      }
    }
  }

  /** The cells before ordinal `n` (in row-major order) are labelled, and no others. */
  ghost predicate LabelledBefore(results: map<(int, int), string>, detailed: map<(int, int), seq<string>>,
                                 pool: seq<string>, pick: (int, int, int) -> nat, predict: string -> string, n: int)
    requires |pool| > 0
  {
    KeysBefore(results.Keys, n) &&
    detailed.Keys == results.Keys &&
    forall k :: k in results ==>
      results[k] == CellLabel(pool, pick, predict, k.0, k.1) &&
      detailed[k] == CellPredictions(pool, pick, predict, k.0, k.1)
  }

  /** Labelling the next cell adds a new key and keeps the invariant. */
  lemma LabelStep(results: map<(int, int), string>, detailed: map<(int, int), seq<string>>,
                  pool: seq<string>, pick: (int, int, int) -> nat, predict: string -> string, row: int, col: int)
    requires |pool| > 0 && InLabelGrid(row, col)
    requires LabelledBefore(results, detailed, pool, pick, predict, Ordinal(row, col))
    ensures (row, col) !in results
    ensures LabelledBefore(results[(row, col) := CellLabel(pool, pick, predict, row, col)],
                           detailed[(row, col) := CellPredictions(pool, pick, predict, row, col)],
                           pool, pick, predict, Ordinal(row, col) + 1)
  {
    var results' := results[(row, col) := CellLabel(pool, pick, predict, row, col)];
    var detailed' := detailed[(row, col) := CellPredictions(pool, pick, predict, row, col)];
    KeysStep(results.Keys, row, col);
    assert results'.Keys == results.Keys + {(row, col)};
    assert detailed'.Keys == results'.Keys;
    forall k | k in results'
      ensures results'[k] == CellLabel(pool, pick, predict, k.0, k.1)
      ensures detailed'[k] == CellPredictions(pool, pick, predict, k.0, k.1)
    {
    }
  }

  /** Once every ordinal of the grid is passed, each grid cell is labelled. */
  lemma LabelledAll(results: map<(int, int), string>, detailed: map<(int, int), seq<string>>,
                    pool: seq<string>, pick: (int, int, int) -> nat, predict: string -> string)
    requires |pool| > 0
    requires LabelledBefore(results, detailed, pool, pick, predict, Ordinal(GRID_ROWS, 0))
    ensures forall r, c :: (r, c) in results <==> InLabelGrid(r, c)
    ensures forall r, c :: InLabelGrid(r, c) ==> results[(r, c)] == CellLabel(pool, pick, predict, r, c)
    ensures detailed.Keys == results.Keys
    ensures forall r, c :: InLabelGrid(r, c) ==>
      |detailed[(r, c)]| == IMAGES_PER_CELL && detailed[(r, c)] == CellPredictions(pool, pick, predict, r, c)
  {
    forall r, c | InLabelGrid(r, c)
      ensures (r, c) in results
    {
      assert Ordinal(r, c) < Ordinal(GRID_ROWS, 0);
    }
  }

  /** The inner loop for one cell: the prediction for each of its sampled images, in order. */
  method PredictCell(pool: seq<string>, pick: (int, int, int) -> nat, predict: string -> string, row: int, col: int)
    returns (preds: seq<string>)
    requires |pool| > 0
    ensures preds == CellPredictions(pool, pick, predict, row, col)
  {
    var images := CellImages(pool, pick, row, col);
    preds := [];
    var k := 0;
    while k < |images|
      invariant 0 <= k <= |images|
      invariant preds == CellPredictions(pool, pick, predict, row, col)[..k]
    {
      preds := preds + [predict(images[k])];
      k := k + 1;
    }
  }

  /**
    The main loop: for each cell in row-major order, predict five sampled
    images and store the majority label. `random.choices` on an empty pool
    raises, so the pool must not be empty. Returns `results` and the
    predictions kept in `detailed_results`.
  */
  method LabelGrid(pool: seq<string>, pick: (int, int, int) -> nat, predict: string -> string)
    returns (results: map<(int, int), string>, detailed: map<(int, int), seq<string>>)
    requires |pool| > 0
    ensures forall r, c :: (r, c) in results <==> InLabelGrid(r, c)
    ensures |results| == GRID_ROWS * GRID_COLS
    ensures forall r, c :: InLabelGrid(r, c) ==> results[(r, c)] == CellLabel(pool, pick, predict, r, c)
    ensures detailed.Keys == results.Keys
    ensures forall r, c :: InLabelGrid(r, c) ==>
      |detailed[(r, c)]| == IMAGES_PER_CELL && detailed[(r, c)] == CellPredictions(pool, pick, predict, r, c)
  {
    results, detailed := map[], map[];
    var row := 0;
    while row < GRID_ROWS
      invariant 0 <= row <= GRID_ROWS
      invariant |results| == Ordinal(row, 0)
      invariant LabelledBefore(results, detailed, pool, pick, predict, Ordinal(row, 0))
    {
      var col := 0;
      while col < GRID_COLS
        invariant 0 <= col <= GRID_COLS
        invariant |results| == Ordinal(row, col)
        invariant LabelledBefore(results, detailed, pool, pick, predict, Ordinal(row, col))
      {
        var preds := PredictCell(pool, pick, predict, row, col);
        var mostCommon := MostCommon(preds);
        LabelStep(results, detailed, pool, pick, predict, row, col);
        results := results[(row, col) := mostCommon];
        detailed := detailed[(row, col) := preds];
        col := col + 1;
      }
      row := row + 1;
    }
    LabelledAll(results, detailed, pool, pick, predict);
  }

  // ----- grid_colors.json -----

  /** `str((row, col))`. */
  function TupleRepr(cell: (int, int)): string
  {
    ModelColorKey(cell.0, cell.1)
  }

  lemma TupleReprInjective()
    ensures forall a: (int, int), b: (int, int) :: TupleRepr(a) == TupleRepr(b) ==> a == b
  {
    forall a: (int, int), b: (int, int) | TupleRepr(a) == TupleRepr(b)
      ensures a == b
    {
      ModelColorKeyInjective(a.0, a.1, b.0, b.1);
    }
  }

  /** `{str(k): v for k, v in results.items()}`. */
  function SerializeResults(results: map<(int, int), string>): (json: map<string, string>)
    ensures forall k :: k in results ==> TupleRepr(k) in json && json[TupleRepr(k)] == results[k]
    ensures json.Keys == set k | k in results :: TupleRepr(k)
  {
    TupleReprInjective();
    map k | k in results :: TupleRepr(k) := results[k]
  }

  /** No two cells collide: the file has one entry per labelled cell. */
  lemma SerializedSize(results: map<(int, int), string>)
    ensures |SerializeResults(results)| == |results|
  {
    SetImageSize(results.Keys);
  }

  /** An injective image of a set has the set's size. */
  lemma {:induction false} SetImageSize(keys: set<(int, int)>)
    ensures |set k | k in keys :: TupleRepr(k)| == |keys|
    decreases |keys|
  {
    TupleReprInjective();
    if keys != {} {
      var k0 :| k0 in keys;
      var rest := keys - {k0};
      SetImageSize(rest);
      assert (set k | k in keys :: TupleRepr(k)) == (set k | k in rest :: TupleRepr(k)) + {TupleRepr(k0)};
      assert TupleRepr(k0) !in (set k | k in rest :: TupleRepr(k));
    }
  }

  /**
    The server finds each cell's label under its own key: it looks cell
    (row, col) up as `"(row, col)"`, exactly the key written for it.
  */
  lemma ServerFindsEveryLabel(results: map<(int, int), string>, row: int, col: int)
    requires (row, col) in results
    ensures ModelColorKey(row, col) in SerializeResults(results)
    ensures SerializeResults(results)[ModelColorKey(row, col)] == results[(row, col)]
  {
  }

  /** `get_color_map()`. */
  function GetColorMap(): (colors: map<string, string>)
    ensures colors.Keys == LABEL_MAP.Keys
    ensures forall i :: 0 <= i < |CLASS_NAMES| ==> CLASS_NAMES[i] in colors
  {
    map["good" := "green", "satisfactory" := "orange", "poor" := "red", "very_poor" := "brown"]
  }
}
