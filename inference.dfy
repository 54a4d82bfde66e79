/** The `test` entry point and the `preprocess` mode built on it: load the
    epoch-25 milestone, classify each image, and write or merge the result
    record `{"sleeve_type": [class], "product_type": "top"}` into the JSON
    file `<output_dir>/<image name>.json`. */
module Inference {
  import opened Wrappers
  import opened Paths
  import opened Storage
  import opened Checkpoint
  import opened Validation

  /** A JSON value (numbers restricted to integers). */
  datatype Value = Null | Bool(b: bool) | Number(n: int) | Str(s: string) | Array(items: seq<Value>) | Object(fields: map<string, Value>)

  /** A JSON object as `json.load` returns it: a dict. */
  type Record = map<string, Value>

  /** One image of the inference set and the name it is stored under. */
  datatype Item<I> = Item(image: I, name: string)

  /** `test` raises when the milestone it needs is missing, and when its image
      folder is empty: the shuffling loader refuses a dataset of length 0. */
  datatype InferError = MissingMilestone(path: string) | EmptyImageFolder

  /** The milestone epoch `test` always loads. */
  const InferenceEpoch: nat := 25

  /** `info_format` for one prediction. */
  function ResultRecord(prediction: ClassIndex): (r: Record)
    ensures r.Keys == {"sleeve_type", "product_type"}
    ensures r["sleeve_type"] == Array([Number(prediction)])
    ensures r["product_type"] == Str("top")
  {
    map["sleeve_type" := Array([Number(prediction)]), "product_type" := Str("top")]
  }

  /** The record written for a prediction: `existing.update(info)` when the
      file is there, `info` alone otherwise. */
  function Merge(existing: Option<Record>, info: Record): (r: Record)
    ensures existing.None? ==> r == info
    ensures existing.Some? ==> r.Keys == existing.value.Keys + info.Keys
    ensures forall key :: key in info ==> key in r && r[key] == info[key]
    ensures existing.Some? ==> forall key :: key in existing.value && key !in info ==> key in r && r[key] == existing.value[key]
  {
    match existing
    case None => info
    case Some(prior) => prior + info
  }

  /** `os.path.join(output_dir, '{}.json'.format(name))`. */
  function ResultPath(outputDir: string, name: string): string
  {
    Join(outputDir, name + ".json")
  }

  /** The result file of an item lies inside the output directory: the
      directory, then `<name>.json`, with a '/' just before it (in a
      sub-directory when the name itself holds a '/'), unless the name is an
      absolute path. */
  lemma ResultPathInOutputDir(outputDir: string, name: string)
    requires outputDir != [] && (name == [] || name[0] != '/')
    ensures var r := ResultPath(outputDir, name);
            && outputDir <= r
            && r[|r| - |name| - 5..] == name + ".json"
            && r[|r| - |name| - 6] == '/'
  {
    JoinRelativeIsInside(outputDir, name + ".json");
  }

  /** The record store after writing the result of `prediction` for `name`. */
  function WriteResult(dir: map<string, Record>, outputDir: string, name: string, prediction: ClassIndex): map<string, Record>
  {
    var path := ResultPath(outputDir, name);
    dir[path := Merge(if path in dir then Some(dir[path]) else None, ResultRecord(prediction))]
  }

  /** One write touches exactly its own file. */
  lemma WriteResultFiles(dir: map<string, Record>, outputDir: string, name: string, prediction: ClassIndex)
    ensures var r := WriteResult(dir, outputDir, name, prediction);
            && r.Keys == dir.Keys + {ResultPath(outputDir, name)}
            && forall path :: path in dir && path != ResultPath(outputDir, name) ==> r[path] == dir[path]
  {
  }

  /** The record store after the items, in order, are classified with `w`. */
  function ResultsAfter<W, I>(dir: map<string, Record>, outputDir: string, items: seq<Item<I>>, w: W, predict: (W, I) -> ClassIndex): map<string, Record>
  {
    if items == [] then dir
    else
      var last := items[|items| - 1];
      WriteResult(ResultsAfter(dir, outputDir, items[..|items| - 1], w, predict), outputDir, last.name, predict(w, last.image))
  }

  /** The result files of the items. */
  function ResultPaths<I>(outputDir: string, items: seq<Item<I>>): set<string>
  {
    if items == [] then {}
    else ResultPaths(outputDir, items[..|items| - 1]) + {ResultPath(outputDir, items[|items| - 1].name)}
  }

  /** The result files are those of the items, one per item. */
  lemma {:induction false} ResultPathsMembers<I>(outputDir: string, items: seq<Item<I>>, path: string)
    ensures path in ResultPaths(outputDir, items) <==> exists i :: 0 <= i < |items| && path == ResultPath(outputDir, items[i].name)
  {
    if items != [] {
      var init := items[..|items| - 1];
      var n := |items| - 1;
      ResultPathsMembers(outputDir, init, path);
      if path in ResultPaths(outputDir, items) {
        if path in ResultPaths(outputDir, init) {
          var i :| 0 <= i < |init| && path == ResultPath(outputDir, init[i].name);
          assert init[i] == items[i];
        } else {
          assert path == ResultPath(outputDir, items[n].name);
        }
      }
      if exists i :: 0 <= i < |items| && path == ResultPath(outputDir, items[i].name) {
        var i :| 0 <= i < |items| && path == ResultPath(outputDir, items[i].name);
        if i < n {
          assert init[i] == items[i];
        }
      }
    }
  }

  /** `sleeve_type` as written: a one-element list holding 0 or 1. */
  predicate IsSleeveType(v: Value) {
    v.Array? && |v.items| == 1 && v.items[0].Number? && 0 <= v.items[0].n < 2
  }

  /** What `test` ends in. */
  function TestOutcome<W, O, S, I>(dir: map<string, Record>, checkpoints: map<string, Bundle<W, O, S>>, weightsPath: string, outputDir: string, items: seq<Item<I>>, predict: (W, I) -> ClassIndex): Result<map<string, Record>, InferError>
  {
    var milestone := MilestoneName(weightsPath, InferenceEpoch);
    if milestone !in checkpoints then Failure(MissingMilestone(milestone))
    else if items == [] then Failure(EmptyImageFolder)
    else Success(ResultsAfter(dir, outputDir, items, checkpoints[milestone].stateDict, predict))
  }

  // ---------------------------------------------------------------------
  // What a run of `test` promises about the result files.
  // ---------------------------------------------------------------------

  /** A run adds exactly the items' result files and leaves every other file
      as it was. */
  lemma {:induction false} ResultsAfterFiles<W, I>(dir: map<string, Record>, outputDir: string, items: seq<Item<I>>, w: W, predict: (W, I) -> ClassIndex)
    ensures ResultsAfter(dir, outputDir, items, w, predict).Keys == dir.Keys + ResultPaths(outputDir, items)
    ensures forall path :: path in dir && path !in ResultPaths(outputDir, items) ==>
              ResultsAfter(dir, outputDir, items, w, predict)[path] == dir[path]
  {
    if items != [] {
      var init := items[..|items| - 1];
      var last := items[|items| - 1];
      ResultsAfterFiles(dir, outputDir, init, w, predict);
      WriteResultFiles(ResultsAfter(dir, outputDir, init, w, predict), outputDir, last.name, predict(w, last.image));
    }
  }

  /** What a result file holds after a run, given what it held before
      (`None` when it did not exist): `product_type: "top"`, a one-element
      `sleeve_type` of 0 or 1, and otherwise exactly the keys it had before,
      with their values. */
  predicate WellFormedResult(before: Option<Record>, after: Record) {
    && "product_type" in after && after["product_type"] == Str("top")
    && "sleeve_type" in after && IsSleeveType(after["sleeve_type"])
    && (before.None? ==> after.Keys == {"sleeve_type", "product_type"})
    && (before.Some? ==> after.Keys == before.value.Keys + {"sleeve_type", "product_type"})
    && (before.Some? ==> forall key :: key in before.value && key != "sleeve_type" && key != "product_type" ==> after[key] == before.value[key])
  }

  /** One write leaves its file well formed, and writing again over a well
      formed file keeps it so. */
  lemma MergeWellFormed(before: Option<Record>, current: Option<Record>, prediction: ClassIndex)
    requires current.None? ==> before.None?
    requires current.Some? ==> before == current || WellFormedResult(before, current.value)
    ensures WellFormedResult(before, Merge(current, ResultRecord(prediction)))
  {
  }

  /** Every result file holds `product_type: "top"` and a one-element
      `sleeve_type` of 0 or 1; keeps every other key the file had before the
      run; and holds only those two keys when the file was new. */
  lemma {:induction false} ResultRecordsWellFormed<W, I>(dir: map<string, Record>, outputDir: string, items: seq<Item<I>>, w: W, predict: (W, I) -> ClassIndex, path: string)
    requires path in ResultPaths(outputDir, items)
    ensures var r := ResultsAfter(dir, outputDir, items, w, predict);
            path in r && WellFormedResult(if path in dir then Some(dir[path]) else None, r[path])
  {
    var init := items[..|items| - 1];
    var last := items[|items| - 1];
    var mid := ResultsAfter(dir, outputDir, init, w, predict);
    var before := if path in dir then Some(dir[path]) else None;
    ResultsAfterFiles(dir, outputDir, init, w, predict);
    WriteResultFiles(mid, outputDir, last.name, predict(w, last.image));
    if path in ResultPaths(outputDir, init) {
      ResultRecordsWellFormed(dir, outputDir, init, w, predict, path);
      if path == ResultPath(outputDir, last.name) {
        MergeWellFormed(before, Some(mid[path]), predict(w, last.image));
      }
    } else {
      MergeWellFormed(before, if path in mid then Some(mid[path]) else None, predict(w, last.image));
    }
  }

  /** The last item written to a file decides its `sleeve_type`. */
  lemma {:induction false} LastWriteWins<W, I>(dir: map<string, Record>, outputDir: string, items: seq<Item<I>>, w: W, predict: (W, I) -> ClassIndex, i: nat)
    requires i < |items|
    requires forall j :: i < j < |items| ==> ResultPath(outputDir, items[j].name) != ResultPath(outputDir, items[i].name)
    ensures var path := ResultPath(outputDir, items[i].name);
            var r := ResultsAfter(dir, outputDir, items, w, predict);
            path in r && "sleeve_type" in r[path] && r[path]["sleeve_type"] == Array([Number(predict(w, items[i].image))])
  {
    var init := items[..|items| - 1];
    if i < |items| - 1 {
      assert forall j :: 0 <= j < |init| ==> init[j] == items[j];
      LastWriteWins(dir, outputDir, init, w, predict, i);
    }
  }

  /** Merging into the file `{"foo": 1}` keeps `foo` beside the two new keys. */
  lemma MergeIntoExistingFile(prediction: ClassIndex)
    ensures Merge(Some(map["foo" := Number(1)]), ResultRecord(prediction))
            == map["foo" := Number(1), "sleeve_type" := Array([Number(prediction)]), "product_type" := Str("top")]
  {
  }

  // ---------------------------------------------------------------------
  // The loops as the source runs them.
  // ---------------------------------------------------------------------

  /** The JSON files of the output directory, by path. */
  type RecordStore = FileStore<Record>

  /** `test`: load the epoch-25 milestone or fail, then write or merge one
      result record per item, in order. */
  method Test<W, O, S, I>(records: RecordStore, checkpoints: CheckpointStore<W, O, S>, weightsPath: string, outputDir: string, items: seq<Item<I>>, predict: (W, I) -> ClassIndex)
    returns (outcome: Outcome<InferError>)
    modifies records
    ensures var expected := TestOutcome(old(records.files), checkpoints.files, weightsPath, outputDir, items, predict);
            && (expected.Failure? ==> outcome == Fail(expected.error) && records.files == old(records.files))
            && (expected.Success? ==> outcome == Pass && records.files == expected.value)
  {
    var checkpoint := checkpoints.Load(MilestoneName(weightsPath, InferenceEpoch));
    if checkpoint.Failure? {
      return Fail(MissingMilestone(MilestoneName(weightsPath, InferenceEpoch)));
    }
    if items == [] {
      return Fail(EmptyImageFolder);
    }
    var w := checkpoint.value.stateDict;
    for batchIdx := 0 to |items|
      invariant records.files == ResultsAfter(old(records.files), outputDir, items[..batchIdx], w, predict)
    {
      assert items[..batchIdx + 1][..batchIdx] == items[..batchIdx];
      var prediction := predict(w, items[batchIdx].image);
      var info := ResultRecord(prediction);
      var path := ResultPath(outputDir, items[batchIdx].name);
      var present := records.IsFile(path);
      if present {
        var productInfo := records.Load(path);
        records.Save(path, productInfo.value + info);
      } else {
        records.Save(path, info);
      }
    }
    assert items[..|items|] == items;
    outcome := Pass;
  }

  // ---------------------------------------------------------------------
  // `preprocess`: `test` once per category of a brand.
  // ---------------------------------------------------------------------

  /** The categories to process: the `--cat` option when it is given and not
      empty (an empty string is false in Python), the listed sub-folders of
      the brand folder otherwise. */
  function Categories(cat: Option<string>, listing: seq<string>): seq<string>
  {
    if cat.Some? && cat.value != "" then [cat.value] else listing
  }

  /** An empty `--cat` is false in Python, so it selects the listing just as
      an absent one does; a non-empty one selects that category alone. */
  lemma CategoriesSelect(cat: string, listing: seq<string>)
    ensures Categories(Some(""), listing) == Categories(None, listing) == listing
    ensures cat != "" ==> Categories(Some(cat), listing) == [cat]
  {
  }

  /** The input and output directories of a category:
      `<data_folder>/<cat>/product` and `<data_folder>/<cat>/product_info`. */
  function CategoryDirs(dataFolder: string, cat: string): (string, string)
  {
    var catFolder := Join(dataFolder, cat);
    (Join(catFolder, "product"), Join(catFolder, "product_info"))
  }

  /** A category's input and output directories are distinct siblings of its
      folder: the results never land among the images. */
  lemma CategoryDirsSiblings(dataFolder: string, cat: string)
    ensures var catFolder := Join(dataFolder, cat);
            var (input, output) := CategoryDirs(dataFolder, cat);
            && catFolder <= input && catFolder <= output
            && input[|input| - 7..] == "product"
            && output[|output| - 12..] == "product_info"
            && input != output
  {
    var catFolder := Join(dataFolder, cat);
    var (input, output) := CategoryDirs(dataFolder, cat);
    assert |output| == |input| + 5;
  }

  /** Where `preprocess` ends: the result files, and the error of the
      category whose `test` raised, if one did. */
  datatype PreprocessRun = PreprocessRun(files: map<string, Record>, failure: Option<InferError>)

  /** `preprocess` over `cats`, in order: each category's `test` writes its
      results, and the first one that raises stops the run with what the
      earlier categories wrote still on disk. */
  function PreprocessResult<W, O, S, I>(dir: map<string, Record>, checkpoints: map<string, Bundle<W, O, S>>, weightsPath: string, dataFolder: string, cats: seq<string>, itemsIn: string -> seq<Item<I>>, predict: (W, I) -> ClassIndex): PreprocessRun
    decreases |cats|
  {
    if cats == [] then PreprocessRun(dir, None)
    else
      var (input, output) := CategoryDirs(dataFolder, cats[0]);
      match TestOutcome(dir, checkpoints, weightsPath, output, itemsIn(input), predict)
      case Failure(e) => PreprocessRun(dir, Some(e))
      case Success(next) => PreprocessResult(next, checkpoints, weightsPath, dataFolder, cats[1..], itemsIn, predict)
  }

  /** Without the milestone, `preprocess` fails on its first category and
      writes nothing; with no category at all it does nothing and succeeds. */
  lemma PreprocessWithoutMilestone<W, O, S, I>(dir: map<string, Record>, checkpoints: map<string, Bundle<W, O, S>>, weightsPath: string, dataFolder: string, cats: seq<string>, itemsIn: string -> seq<Item<I>>, predict: (W, I) -> ClassIndex)
    requires MilestoneName(weightsPath, InferenceEpoch) !in checkpoints
    ensures cats == [] ==> PreprocessResult(dir, checkpoints, weightsPath, dataFolder, cats, itemsIn, predict) == PreprocessRun(dir, None)
    ensures cats != [] ==> PreprocessResult(dir, checkpoints, weightsPath, dataFolder, cats, itemsIn, predict)
                           == PreprocessRun(dir, Some(MissingMilestone(MilestoneName(weightsPath, InferenceEpoch))))
  {
  }

  /** With the milestone present and an image in every category's `product`
      folder, `preprocess` processes every category without failing. */
  lemma {:induction false} PreprocessWithMilestone<W, O, S, I>(dir: map<string, Record>, checkpoints: map<string, Bundle<W, O, S>>, weightsPath: string, dataFolder: string, cats: seq<string>, itemsIn: string -> seq<Item<I>>, predict: (W, I) -> ClassIndex)
    requires MilestoneName(weightsPath, InferenceEpoch) in checkpoints
    requires forall i :: 0 <= i < |cats| ==> itemsIn(CategoryDirs(dataFolder, cats[i]).0) != []
    ensures PreprocessResult(dir, checkpoints, weightsPath, dataFolder, cats, itemsIn, predict).failure.None?
    decreases |cats|
  {
    if cats != [] {
      var (input, output) := CategoryDirs(dataFolder, cats[0]);
      var next := TestOutcome(dir, checkpoints, weightsPath, output, itemsIn(input), predict);
      assert forall i :: 0 <= i < |cats| - 1 ==> cats[1..][i] == cats[i + 1];
      PreprocessWithMilestone(next.value, checkpoints, weightsPath, dataFolder, cats[1..], itemsIn, predict);
    }
  }

  /** With the milestone present, the first category whose `product` folder
      is empty stops `preprocess` with `EmptyImageFolder`, and the result
      files of every category before it stay as those categories wrote them. */
  lemma {:induction false} PreprocessStopsAtEmptyCategory<W, O, S, I>(dir: map<string, Record>, checkpoints: map<string, Bundle<W, O, S>>, weightsPath: string, dataFolder: string, cats: seq<string>, itemsIn: string -> seq<Item<I>>, predict: (W, I) -> ClassIndex, j: nat)
    requires MilestoneName(weightsPath, InferenceEpoch) in checkpoints
    requires j < |cats|
    requires forall i :: 0 <= i < j ==> itemsIn(CategoryDirs(dataFolder, cats[i]).0) != []
    requires itemsIn(CategoryDirs(dataFolder, cats[j]).0) == []
    ensures PreprocessResult(dir, checkpoints, weightsPath, dataFolder, cats[..j], itemsIn, predict).failure.None?
    ensures PreprocessResult(dir, checkpoints, weightsPath, dataFolder, cats, itemsIn, predict)
            == PreprocessRun(PreprocessResult(dir, checkpoints, weightsPath, dataFolder, cats[..j], itemsIn, predict).files, Some(EmptyImageFolder))
    decreases j
  {
    if j > 0 {
      var (input, output) := CategoryDirs(dataFolder, cats[0]);
      var next := TestOutcome(dir, checkpoints, weightsPath, output, itemsIn(input), predict);
      assert cats[..j][0] == cats[0];
      assert cats[..j][1..] == cats[1..][..j - 1];
      assert forall i :: 0 <= i < j - 1 ==> cats[1..][i] == cats[i + 1];
      PreprocessStopsAtEmptyCategory(next.value, checkpoints, weightsPath, dataFolder, cats[1..], itemsIn, predict, j - 1);
    }
  }

  /** One category of `preprocess`: `test` on its directories, then the
      remaining categories, unless `test` failed. */
  lemma PreprocessStep<W, O, S, I>(dir: map<string, Record>, checkpoints: map<string, Bundle<W, O, S>>, weightsPath: string, dataFolder: string, cats: seq<string>, itemsIn: string -> seq<Item<I>>, predict: (W, I) -> ClassIndex)
    requires cats != []
    ensures var (input, output) := CategoryDirs(dataFolder, cats[0]);
            var r := TestOutcome(dir, checkpoints, weightsPath, output, itemsIn(input), predict);
            && (r.Failure? ==> PreprocessResult(dir, checkpoints, weightsPath, dataFolder, cats, itemsIn, predict) == PreprocessRun(dir, Some(r.error)))
            && (r.Success? ==> PreprocessResult(dir, checkpoints, weightsPath, dataFolder, cats, itemsIn, predict)
                               == PreprocessResult(r.value, checkpoints, weightsPath, dataFolder, cats[1..], itemsIn, predict))
  {
  }

  /** `preprocess`: the category folders under `dataFolder` (the brand's
      folder), each run through `test` with its own input and output
      directory. `itemsIn` gives the images found in an input directory. */
  method Preprocess<W, O, S, I>(records: RecordStore, checkpoints: CheckpointStore<W, O, S>, weightsPath: string, dataFolder: string, cat: Option<string>, listing: seq<string>, itemsIn: string -> seq<Item<I>>, predict: (W, I) -> ClassIndex)
    returns (outcome: Outcome<InferError>)
    modifies records
    ensures var expected := PreprocessResult(old(records.files), checkpoints.files, weightsPath, dataFolder, Categories(cat, listing), itemsIn, predict);
            && records.files == expected.files
            && (expected.failure.None? ==> outcome == Pass)
            && (expected.failure.Some? ==> outcome == Fail(expected.failure.value))
  {
    var cats := Categories(cat, listing);
    var i := 0;
    while i < |cats|
      invariant i <= |cats|
      invariant PreprocessResult(old(records.files), checkpoints.files, weightsPath, dataFolder, cats, itemsIn, predict)
                == PreprocessResult(records.files, checkpoints.files, weightsPath, dataFolder, cats[i..], itemsIn, predict)
    {
      var (input, output) := CategoryDirs(dataFolder, cats[i]);
      PreprocessStep(records.files, checkpoints.files, weightsPath, dataFolder, cats[i..], itemsIn, predict);
      var result := Test(records, checkpoints, weightsPath, output, itemsIn(input), predict);
      if result.Fail? {
        return result;
      }
      assert cats[i..][1..] == cats[i + 1..];
      i := i + 1;
    }
    outcome := Pass;
  }
}
