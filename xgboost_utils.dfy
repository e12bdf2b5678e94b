/**
 * The bookkeeping that vScreenML's training and scoring scripts do around the
 * classifier: the column manifest written after training and read back before
 * scoring, the choice between bundled presets and user-supplied files, the
 * check that the feature table has every manifest column, and the two output
 * columns added to the table. The classifier itself is a parameter.
 */
module XgboostUtils {
  import opened Wrappers
  import opened PyStr

  /** A table cell as read from CSV; `Missing` is the NaN pandas fills in where a column has no value. */
  datatype Cell = Number(value: real) | Text(text: string) | Missing

  /** A named column of a feature table; `numeric` is the dtype pandas inferred for it. */
  datatype Column = Column(name: string, numeric: bool, cells: seq<Cell>)

  function Names(cols: seq<Column>): (names: seq<string>)
    ensures |names| == |cols| && forall k :: 0 <= k < |cols| ==> names[k] == cols[k].name
  {
    if |cols| == 0 then [] else Names(cols[..|cols| - 1]) + [cols[|cols| - 1].name]
  }

  // ---------------------------------------------------------------------------
  // train_model: the column manifest
  // ---------------------------------------------------------------------------

  /** The reserved label column. */
  const ClassColumn := "Class"

  /** A column that `select_dtypes(['number']).drop("Class", axis=1)` keeps. */
  predicate IsFeature(c: Column)
  {
    c.numeric && c.name != ClassColumn
  }

  /** The names of the numeric columns other than `Class`, in table order. */
  function FeatureColumns(data: seq<Column>): (names: seq<string>)
    ensures |names| <= |data|
    ensures forall name :: name in names <==> exists k :: 0 <= k < |data| && IsFeature(data[k]) && data[k].name == name
  {
    if |data| == 0 then []
    else
      var front := FeatureColumns(data[..|data| - 1]);
      var last := data[|data| - 1];
      assert forall k :: 0 <= k < |data| - 1 ==> data[..|data| - 1][k] == data[k];
      if IsFeature(last) then front + [last.name] else front
  }

  /** The features of a prefix of the table are a prefix of the table's features. */
  lemma {:induction false} FeatureColumnsPrefix(data: seq<Column>, p: nat)
    requires p <= |data|
    ensures FeatureColumns(data[..p]) <= FeatureColumns(data)
    decreases |data| - p
  {
    if p < |data| {
      FeatureColumnsPrefix(data, p + 1);
      assert data[..p + 1][..p] == data[..p];
    } else {
      assert data[..p] == data;
    }
  }

  /**
   * Order is preserved: the feature at table position `p` is listed right after
   * the features of the columns before it.
   */
  lemma FeatureColumnAt(data: seq<Column>, p: nat)
    requires p < |data| && IsFeature(data[p])
    ensures |FeatureColumns(data[..p])| < |FeatureColumns(data)|
    ensures FeatureColumns(data)[|FeatureColumns(data[..p])|] == data[p].name
  {
    FeatureColumnsPrefix(data, p + 1);
    assert data[..p + 1][..p] == data[..p];
  }

  predicate HasNumericClass(data: seq<Column>)
  {
    exists k :: 0 <= k < |data| && data[k].numeric && data[k].name == ClassColumn
  }

  /**
   * The text `train_model` writes to `<prefix>_columns.csv`: the feature names
   * joined by commas. `drop("Class")` raises KeyError when no numeric column
   * is called `Class`.
   */
  function ManifestText(data: seq<Column>): (r: Result<string>)
    ensures r.Ok? <==> HasNumericClass(data)
  {
    if HasNumericClass(data) then Ok(Join(FeatureColumns(data), ','))
    else Err("KeyError: \"['Class'] not found in axis\"")
  }

  /** Reading the manifest back with `split(",")` yields exactly the written columns. */
  lemma ManifestRoundTrip(data: seq<Column>)
    requires HasNumericClass(data)
    requires |FeatureColumns(data)| >= 1
    requires forall k :: 0 <= k < |data| && IsFeature(data[k]) ==> ',' !in data[k].name
    ensures Split(ManifestText(data).value, ',') == FeatureColumns(data)
  {
    var names := FeatureColumns(data);
    forall i | 0 <= i < |names| ensures ',' !in names[i] {
      assert names[i] in names;
    }
    SplitJoin(names, ',');
  }

  /** A table with no feature column writes an empty manifest, which reads back as one empty name. */
  lemma EmptyManifestReadsBackOneEmptyName(data: seq<Column>)
    requires HasNumericClass(data)
    requires forall k :: 0 <= k < |data| ==> !IsFeature(data[k])
    ensures ManifestText(data) == Ok("")
    ensures Split(ManifestText(data).value, ',') == [""]
  {
    NoFeatureNoNames(data);
  }

  lemma {:induction false} NoFeatureNoNames(data: seq<Column>)
    requires forall k :: 0 <= k < |data| ==> !IsFeature(data[k])
    ensures FeatureColumns(data) == []
  {
    if |data| > 0 {
      NoFeatureNoNames(data[..|data| - 1]);
    }
  }

  // ---------------------------------------------------------------------------
  // predict_vscreenml_score: where the model and the manifest come from
  // ---------------------------------------------------------------------------

  function CountChar(s: string, c: char): nat
  {
    if |s| == 0 then 0 else CountChar(s[..|s| - 1], c) + (if s[|s| - 1] == c then 1 else 0)
  }

  /** The directory the bundled `models/` folder sits in: `s[:s.rfind("/")]` applied twice to the script path. */
  function PackageRoot(file: string): string
  {
    var once := SliceTo(file, RFind(file, '/'));
    SliceTo(once, RFind(once, '/'))
  }

  /** `root = __file__` followed by the two trimming reassignments. */
  method TrimRoot(file: string) returns (root: string)
    ensures root == PackageRoot(file)
  {
    root := file;
    root := SliceTo(root, RFind(root, '/'));
    root := SliceTo(root, RFind(root, '/'));
  }

  lemma {:induction false} CountCharSplit(s: string, c: char, k: nat)
    requires k <= |s|
    ensures CountChar(s, c) == CountChar(s[..k], c) + CountChar(s[k..], c)
    decreases |s| - k
  {
    if k < |s| {
      CountCharSplit(s, c, k + 1);
      assert s[..k + 1][..k] == s[..k];
      assert s[k..][1..] == s[k + 1..];
      CountCharFront(s[k..], c);
    } else {
      assert s[..k] == s;
    }
  }

  lemma {:induction false} CountCharFront(s: string, c: char)
    requires |s| > 0
    ensures CountChar(s, c) == (if s[0] == c then 1 else 0) + CountChar(s[1..], c)
  {
    if |s| > 1 {
      CountCharFront(s[..|s| - 1], c);
      assert s[..|s| - 1][1..] == s[1..][..|s[1..]| - 1];
    }
  }

  lemma {:induction false} NoCharCountsZero(s: string, c: char)
    requires c !in s
    ensures CountChar(s, c) == 0
  {
    if |s| > 0 {
      NoCharCountsZero(s[..|s| - 1], c);
    }
  }

  /**
   * With at least two slashes the root is the path with its last two
   * components (and the slashes before them) dropped.
   */
  lemma RootDropsTwoComponents(file: string)
    requires CountChar(file, '/') >= 2
    ensures var root := PackageRoot(file);
      |root| < |file| && root == file[..|root|] && file[|root|] == '/' && CountChar(file[|root|..], '/') == 2
  {
    var j := RFind(file, '/');
    if j < 0 {
      NoCharCountsZero(file, '/');
    }
    var once := file[..j];
    CountCharSplit(file, '/', j);
    CountCharFront(file[j..], '/');
    NoCharCountsZero(file[j + 1..], '/');
    assert file[j..][1..] == file[j + 1..];
    assert CountChar(once, '/') >= 1;
    var i := RFind(once, '/');
    if i < 0 {
      NoCharCountsZero(once, '/');
    }
    var root := once[..i];
    assert root == PackageRoot(file);
    CountCharSplit(file, '/', i);
    CountCharSplit(file[i..], '/', j - i);
    assert file[i..][..j - i] == once[i..];
    assert file[i..][j - i..] == file[j..];
    CountCharFront(once[i..], '/');
    assert once[i..][1..] == once[i + 1..];
    NoCharCountsZero(once[i + 1..], '/');
  }

  /** The quirk of `rfind` returning -1: with no slash each step drops the last character. */
  lemma RootWithoutSlashDropsTwoCharacters(file: string)
    requires '/' !in file
    ensures PackageRoot(file) == if |file| < 2 then "" else file[..|file| - 2]
  {
  }

  /** With exactly one slash the root is what precedes it, less one more character. */
  lemma RootWithOneSlash(file: string, i: nat)
    requires i < |file| && file[i] == '/' && '/' !in file[..i] && '/' !in file[i + 1..]
    ensures PackageRoot(file) == if i == 0 then "" else file[..i - 1]
  {
    assert RFind(file, '/') == i;
  }

  /** The two names the `-model` option accepts besides a path. */
  const OpenEyePreset := "DUDE_openeye"
  const OpenBabelPreset := "DUDE_openbabel"

  /** The model file and the manifest file a prediction reads; the manifest is `None` when `-columns` was not given. */
  datatype Artifacts = Artifacts(modelPath: string, columnsPath: Option<string>)

  /**
   * Preset dispatch: a preset name picks its bundled pair under
   * `<root>/models/`; any other `-model` value is a model path used with the
   * `-columns` path, if any. A missing `-model` reaches `load_model` as
   * `None`, which raises.
   */
  function ChooseArtifacts(model: Option<string>, columns: Option<string>, file: string): (r: Result<Artifacts>)
    ensures model == Some(OpenEyePreset) ==> r == Ok(Artifacts(
      PackageRoot(file) + "/models/model_dude_openeye_model.json",
      Some(PackageRoot(file) + "/models/model_dude_openeye_columns.csv")))
    ensures model == Some(OpenBabelPreset) ==> r == Ok(Artifacts(
      PackageRoot(file) + "/models/model_dude_openbabel_model.json",
      Some(PackageRoot(file) + "/models/model_dude_openbabel_columns.csv")))
    ensures model.Some? && model.value !in {OpenEyePreset, OpenBabelPreset} ==> r == Ok(Artifacts(model.value, columns))
    ensures r.Err? <==> model.None?
  {
    match model
    case None => Err("TypeError: model file name is None")
    case Some(name) =>
      if name == OpenEyePreset then
        var root := PackageRoot(file);
        Ok(Artifacts(root + "/models/model_dude_openeye_model.json", Some(root + "/models/model_dude_openeye_columns.csv")))
      else if name == OpenBabelPreset then
        var root := PackageRoot(file);
        Ok(Artifacts(root + "/models/model_dude_openbabel_model.json", Some(root + "/models/model_dude_openbabel_columns.csv")))
      else Ok(Artifacts(name, columns))
  }

  // ---------------------------------------------------------------------------
  // predict_vscreenml_score: validation
  // ---------------------------------------------------------------------------

  /**
   * The validation loop: the first manifest column that the table lacks, or
   * `None` when the table has them all.
   */
  method FirstMissingColumn(columns: seq<string>, header: seq<string>) returns (missing: Option<string>)
    ensures missing.None? <==> forall k :: 0 <= k < |columns| ==> columns[k] in header
    ensures missing.Some? ==>
      exists k :: 0 <= k < |columns| && columns[k] == missing.value && missing.value !in header
        && forall j :: 0 <= j < k ==> columns[j] in header
  {
    var n := 0;
    while n < |columns|
      invariant 0 <= n <= |columns|
      invariant forall j :: 0 <= j < n ==> columns[j] in header
    {
      if columns[n] !in header {
        return Some(columns[n]);
      }
      n := n + 1;
    }
    return None;
  }

  /** The exception message for a missing column. */
  function MissingColumnMessage(column: string, featuresFile: string): string
  {
    "Feature " + column + " is not presented in the " + featuresFile + " file"
  }

  // ---------------------------------------------------------------------------
  // predict_vscreenml_score: the output columns
  // ---------------------------------------------------------------------------

  const PredictedClassColumn := "Predicted_Class"
  const ScoreColumn := "VScreenML_Score"

  predicate DistinctNames(cols: seq<Column>)
  {
    forall i, j :: 0 <= i < j < |cols| ==> cols[i].name != cols[j].name
  }

  /** The position of the column called `name`, if any. */
  function IndexOfName(cols: seq<Column>, name: string): (r: Option<nat>)
    ensures r.None? <==> forall k :: 0 <= k < |cols| ==> cols[k].name != name
    ensures r.Some? ==> r.value < |cols| && cols[r.value].name == name
  {
    if |cols| == 0 then None
    else if cols[|cols| - 1].name == name then Some(|cols| - 1)
    else IndexOfName(cols[..|cols| - 1], name)
  }

  /** `df[name] = values` on the column list: replaces the column of that name in place, or appends one. */
  function Assigned(cols: seq<Column>, col: Column): seq<Column>
  {
    match IndexOfName(cols, col.name)
    case Some(k) => cols[k := col]
    case None => cols + [col]
  }

  /**
   * Assignment keeps every other column where it was, unchanged; the new
   * column is at the end when the name was new and in place of the old one
   * otherwise, and the names stay distinct.
   */
  lemma AssignedKeepsOtherColumns(cols: seq<Column>, col: Column)
    requires DistinctNames(cols)
    ensures var out := Assigned(cols, col);
      && DistinctNames(out)
      && (forall k :: 0 <= k < |cols| && cols[k].name != col.name ==> out[k] == cols[k])
      && (col.name in Names(cols) ==> |out| == |cols| && exists k :: 0 <= k < |cols| && cols[k].name == col.name && out[k] == col)
      && (col.name !in Names(cols) ==> out == cols + [col])
  {
    if col.name in Names(cols) {
      var k :| 0 <= k < |cols| && Names(cols)[k] == col.name;
      assert IndexOfName(cols, col.name).Some?;
    }
  }

  /** After `df[name] = values` the table has a column called `name`. */
  lemma AssignedHasName(cols: seq<Column>, col: Column)
    ensures col.name in Names(Assigned(cols, col))
  {
    var out := Assigned(cols, col);
    match IndexOfName(cols, col.name)
    case Some(k) => assert Names(out)[k] == col.name;
    case None => assert Names(out)[|cols|] == col.name;
  }

  /** Assignment keeps every column name the table had. */
  lemma AssignedKeepsName(cols: seq<Column>, col: Column, name: string)
    requires name in Names(cols)
    ensures name in Names(Assigned(cols, col))
  {
    var out := Assigned(cols, col);
    var i :| 0 <= i < |cols| && Names(cols)[i] == name;
    if cols[i].name == col.name {
      AssignedHasName(cols, col);
    } else {
      match IndexOfName(cols, col.name)
      case Some(k) => assert Names(out)[i] == name;
      case None => assert Names(out)[i] == name;
    }
  }

  /** Assignment adds no name other than the assigned one. */
  lemma AssignedAddsOnlyItsName(cols: seq<Column>, col: Column, name: string)
    requires name !in Names(cols) && name != col.name
    ensures name !in Names(Assigned(cols, col))
  {
    var out := Assigned(cols, col);
    forall k | 0 <= k < |cols| ensures cols[k].name != name {
      assert Names(cols)[k] == cols[k].name;
    }
    match IndexOfName(cols, col.name)
    case Some(i) =>
      assert out == cols[i := col];
      assert forall k :: 0 <= k < |out| ==> Names(out)[k] == out[k].name;
    case None =>
      assert out == cols + [col];
      assert forall k :: 0 <= k < |out| ==> Names(out)[k] == out[k].name;
  }

  /**
   * The two output assignments of a prediction: every input column other than
   * the two output names stays where it was, unchanged; both output columns
   * are present; on a table without them they are the last two columns.
   */
  lemma OutputColumns(before: seq<Column>, labels: seq<Cell>, scores: seq<Cell>)
    requires DistinctNames(before)
    ensures var out := Assigned(Assigned(before, Column(PredictedClassColumn, true, labels)), Column(ScoreColumn, true, scores));
      && DistinctNames(out)
      && (forall k :: 0 <= k < |before| && before[k].name != PredictedClassColumn && before[k].name != ScoreColumn
                      ==> out[k] == before[k])
      && PredictedClassColumn in Names(out) && ScoreColumn in Names(out)
      && (PredictedClassColumn !in Names(before) && ScoreColumn !in Names(before) ==>
            out == before + [Column(PredictedClassColumn, true, labels), Column(ScoreColumn, true, scores)])
  {
    var classCol := Column(PredictedClassColumn, true, labels);
    var scoreCol := Column(ScoreColumn, true, scores);
    var mid := Assigned(before, classCol);
    var out := Assigned(mid, scoreCol);
    assert PredictedClassColumn != ScoreColumn by {
      assert PredictedClassColumn[0] != ScoreColumn[0];
    }
    AssignedKeepsOtherColumns(before, classCol);
    AssignedKeepsOtherColumns(mid, scoreCol);
    AssignedHasName(before, classCol);
    AssignedKeepsName(mid, scoreCol, PredictedClassColumn);
    AssignedHasName(mid, scoreCol);
    if PredictedClassColumn !in Names(before) && ScoreColumn !in Names(before) {
      AssignedAddsOnlyItsName(before, classCol, ScoreColumn);
      AssignedNewName(mid, scoreCol);
      AppendTwo(before, classCol, scoreCol);
    }
  }

  lemma AppendTwo<T>(s: seq<T>, a: T, b: T)
    ensures (s + [a]) + [b] == s + [a, b]
  {
  }

  /** Assigning a name the table lacks appends the column. */
  lemma AssignedNewName(cols: seq<Column>, col: Column)
    requires col.name !in Names(cols)
    ensures Assigned(cols, col) == cols + [col]
  {
    forall k | 0 <= k < |cols| ensures cols[k].name != col.name {
      assert Names(cols)[k] == cols[k].name;
    }
  }

  /**
   * The table after `df[col.name] = col.cells` on a table of `rows` rows, or
   * `None` where pandas raises for a length mismatch. A table with no rows
   * takes any non-empty list: it grows to that many rows, NaN in every
   * column it already had.
   */
  function AssignedFrame(cols: seq<Column>, rows: nat, col: Column): Option<(seq<Column>, nat)>
  {
    if |col.cells| == rows then Some((Assigned(cols, col), rows))
    else if rows == 0 then Some((Assigned(Grown(cols, |col.cells|), col), |col.cells|))
    else None
  }

  /** `n` NaN cells. */
  function Missings(n: nat): (cells: seq<Cell>)
    ensures |cells| == n && forall k :: 0 <= k < n ==> cells[k] == Missing
  {
    if n == 0 then [] else Missings(n - 1) + [Missing]
  }

  /** Every column of a table with no rows, reindexed to `n` rows of NaN. */
  function Grown(cols: seq<Column>, n: nat): (out: seq<Column>)
    ensures |out| == |cols|
    ensures forall k :: 0 <= k < |cols| ==>
      out[k].name == cols[k].name && out[k].numeric == cols[k].numeric && out[k].cells == Missings(n)
  {
    if |cols| == 0 then []
    else
      var last := cols[|cols| - 1];
      Grown(cols[..|cols| - 1], n) + [Column(last.name, last.numeric, Missings(n))]
  }

  /** Reindexing keeps the names, and every column then has `n` cells. */
  lemma GrownUniform(cols: seq<Column>, n: nat)
    requires DistinctNames(cols)
    ensures var out := Grown(cols, n);
      Names(out) == Names(cols) && DistinctNames(out) && forall k :: 0 <= k < |out| ==> |out[k].cells| == n
  {
    var out := Grown(cols, n);
    assert forall k :: 0 <= k < |cols| ==> Names(out)[k] == Names(cols)[k];
  }

  /** Assigning a column as long as the others keeps the table rectangular with distinct names. */
  lemma AssignedUniform(cols: seq<Column>, col: Column)
    requires DistinctNames(cols) && forall k :: 0 <= k < |cols| ==> |cols[k].cells| == |col.cells|
    ensures var out := Assigned(cols, col);
      DistinctNames(out) && forall k :: 0 <= k < |out| ==> |out[k].cells| == |col.cells|
  {
    AssignedKeepsOtherColumns(cols, col);
  }

  /**
   * An assignment succeeds iff the lengths agree or the table has no rows; the
   * row count changes only on a table with no rows; the result is again a
   * table of distinct names whose columns all have the new row count, and
   * every name the table had is still there.
   */
  lemma AssignedFrameShape(cols: seq<Column>, rows: nat, col: Column, names: seq<string>)
    requires DistinctNames(cols) && forall k :: 0 <= k < |cols| ==> |cols[k].cells| == rows
    requires forall k :: 0 <= k < |names| ==> names[k] in Names(cols)
    ensures var r := AssignedFrame(cols, rows, col);
      && (r.Some? <==> |col.cells| == rows || rows == 0)
      && (r.Some? ==>
            && r.value.1 == |col.cells|
            && (rows != 0 ==> r.value.0 == Assigned(cols, col))
            && DistinctNames(r.value.0)
            && (forall k :: 0 <= k < |r.value.0| ==> |r.value.0[k].cells| == r.value.1)
            && col.name in Names(r.value.0)
            && (forall k :: 0 <= k < |names| ==> names[k] in Names(r.value.0)))
  {
    if |col.cells| == rows {
      AssignedUniform(cols, col);
      AssignedHasName(cols, col);
      AssignedKeepsManifest(cols, col, names);
    } else if rows == 0 {
      var grown := Grown(cols, |col.cells|);
      GrownUniform(cols, |col.cells|);
      AssignedUniform(grown, col);
      AssignedHasName(grown, col);
      AssignedKeepsManifest(grown, col, names);
    }
  }

  /** A feature table: its columns (names distinct, as pandas makes them) all of one length. */
  class Table {
    var columns: seq<Column>
    var rows: nat

    ghost predicate Valid()
      reads this
    {
      DistinctNames(columns) && forall k :: 0 <= k < |columns| ==> |columns[k].cells| == rows
    }

    constructor (cols: seq<Column>, n: nat)
      requires DistinctNames(cols) && forall k :: 0 <= k < |cols| ==> |cols[k].cells| == n
      ensures Valid() && columns == cols && rows == n
    {
      columns, rows := cols, n;
    }

    /**
     * `features[name] = values`: pandas raises when the number of values is
     * not the number of rows, unless the table has no rows; otherwise the
     * column is replaced or appended.
     */
    method Assign(name: string, values: seq<Cell>, numeric: bool) returns (ok: bool)
      requires Valid()
      modifies this
      ensures Valid()
      ensures ok <==> AssignedFrame(old(columns), old(rows), Column(name, numeric, values)).Some?
      ensures ok ==> (columns, rows) == AssignedFrame(old(columns), old(rows), Column(name, numeric, values)).value
      ensures !ok ==> columns == old(columns) && rows == old(rows)
    {
      var col := Column(name, numeric, values);
      AssignedFrameShape(columns, rows, col, []);
      var r := AssignedFrame(columns, rows, col);
      ok := r.Some?;
      if ok {
        columns, rows := r.value.0, r.value.1;
      }
    }
  }

  /** `features[columns]`: the named columns, in the manifest's order. */
  function Select(cols: seq<Column>, names: seq<string>): (sel: seq<Column>)
    requires forall k :: 0 <= k < |names| ==> names[k] in Names(cols)
    ensures |sel| == |names| && forall k :: 0 <= k < |names| ==> sel[k].name == names[k] && sel[k] in cols
  {
    if |names| == 0 then []
    else
      assert names[0] in Names(cols);
      var k := IndexOfName(cols, names[0]);
      assert k.Some?;
      [cols[k.value]] + Select(cols, names[1..])
  }

  /** The trained classifier, seen from outside: class labels and positive-class probabilities for the selected columns. */
  datatype Classifier = Classifier(predict: seq<Column> -> seq<Cell>, predictProba: seq<Column> -> seq<Cell>)

  /**
   * The manifest a prediction uses: the chosen model file is loaded first,
   * then the chosen columns file is read and split on commas. `files` stands
   * for the file system.
   */
  function LoadManifest(model: Option<string>, columns: Option<string>, file: string, files: map<string, string>)
    : (r: Result<seq<string>>)
    ensures r.Ok? <==> ChooseArtifacts(model, columns, file).Ok?
                       && ChooseArtifacts(model, columns, file).value.modelPath in files
                       && ChooseArtifacts(model, columns, file).value.columnsPath.Some?
                       && ChooseArtifacts(model, columns, file).value.columnsPath.value in files
    ensures r.Ok? ==> r.value == Split(files[ChooseArtifacts(model, columns, file).value.columnsPath.value], ',')
    ensures ChooseArtifacts(model, columns, file).Ok? && ChooseArtifacts(model, columns, file).value.modelPath !in files ==>
      r == Err("XGBoostError: cannot open " + ChooseArtifacts(model, columns, file).value.modelPath)
  {
    match ChooseArtifacts(model, columns, file)
    case Err(e) => Err(e)
    case Ok(arts) =>
      if arts.modelPath !in files then Err("XGBoostError: cannot open " + arts.modelPath)
      else if arts.columnsPath.None? then Err("TypeError: columns file name is None")
      else if arts.columnsPath.value !in files then Err("FileNotFoundError: " + arts.columnsPath.value)
      else Ok(Split(files[arts.columnsPath.value], ','))
  }

  /** The preset dispatch of `predict_vscreenml_score` and the reading of the model and manifest files. */
  method ReadManifest(model: Option<string>, columns: Option<string>, file: string, files: map<string, string>)
    returns (r: Result<seq<string>>)
    ensures r == LoadManifest(model, columns, file, files)
  {
    var modelPath: string;
    var columnsPath: Option<string>;
    if model == Some(OpenEyePreset) {
      var root := TrimRoot(file);
      modelPath := root + "/models/model_dude_openeye_model.json";
      columnsPath := Some(root + "/models/model_dude_openeye_columns.csv");
    } else if model == Some(OpenBabelPreset) {
      var root := TrimRoot(file);
      modelPath := root + "/models/model_dude_openbabel_model.json";
      columnsPath := Some(root + "/models/model_dude_openbabel_columns.csv");
    } else if model.None? {
      return Err("TypeError: model file name is None");
    } else {
      modelPath, columnsPath := model.value, columns;
    }
    if modelPath !in files {
      return Err("XGBoostError: cannot open " + modelPath);
    }
    if columnsPath.None? {
      return Err("TypeError: columns file name is None");
    }
    if columnsPath.value !in files {
      return Err("FileNotFoundError: " + columnsPath.value);
    }
    return Ok(Split(files[columnsPath.value], ','));
  }

  /** The two files `train_model` writes for `-output-prefix prefix`. */
  function TrainingArtifacts(prefix: string): (arts: Artifacts)
    ensures arts.modelPath != OpenEyePreset && arts.modelPath != OpenBabelPreset && arts.columnsPath.Some?
  {
    var arts := Artifacts(prefix + "_model.json", Some(prefix + "_columns.csv"));
    assert arts.modelPath[|arts.modelPath| - 1] == 'n';
    arts
  }

  /**
   * Training then prediction: when prediction is pointed at the two files
   * training wrote, it reads back exactly the feature columns training used,
   * and the training table itself passes the column check.
   */
  lemma TrainThenPredictManifest(data: seq<Column>, prefix: string, file: string, files: map<string, string>)
    requires HasNumericClass(data)
    requires |FeatureColumns(data)| >= 1
    requires forall k :: 0 <= k < |data| && IsFeature(data[k]) ==> ',' !in data[k].name
    requires TrainingArtifacts(prefix).modelPath in files
    requires TrainingArtifacts(prefix).columnsPath.value in files
    requires files[TrainingArtifacts(prefix).columnsPath.value] == ManifestText(data).value
    ensures var arts := TrainingArtifacts(prefix);
      LoadManifest(Some(arts.modelPath), arts.columnsPath, file, files) == Ok(FeatureColumns(data))
    ensures forall name :: name in FeatureColumns(data) ==> name in Names(data)
  {
    var arts := TrainingArtifacts(prefix);
    assert ChooseArtifacts(Some(arts.modelPath), arts.columnsPath, file) == Ok(arts);
    ManifestRoundTrip(data);
    forall name | name in FeatureColumns(data) ensures name in Names(data) {
      var k :| 0 <= k < |data| && IsFeature(data[k]) && data[k].name == name;
      assert Names(data)[k] == name;
    }
  }

  const LengthMismatch := "ValueError: Length of values does not match length of index"

  /**
   * The table after the two output assignments, or `None` where pandas
   * raises. The class labels are written first; the probabilities come from
   * the manifest columns of the table that already holds them.
   */
  function Predicted(before: seq<Column>, rows: nat, manifest: seq<string>, loaded: Classifier)
    : Option<(seq<Column>, nat)>
    requires DistinctNames(before) && forall k :: 0 <= k < |before| ==> |before[k].cells| == rows
    requires forall k :: 0 <= k < |manifest| ==> manifest[k] in Names(before)
  {
    var classCol := Column(PredictedClassColumn, true, loaded.predict(Select(before, manifest)));
    AssignedFrameShape(before, rows, classCol, manifest);
    match AssignedFrame(before, rows, classCol)
    case None => None
    case Some((mid, midRows)) =>
      AssignedFrame(mid, midRows, Column(ScoreColumn, true, loaded.predictProba(Select(mid, manifest))))
  }

  /**
   * On a table with rows, prediction succeeds iff the classifier returns one
   * label and one probability per row, the probabilities being computed from
   * the table after `Predicted_Class` was written; the result is the two
   * assignments in order, with the row count unchanged.
   */
  lemma PredictedOnRows(before: seq<Column>, rows: nat, manifest: seq<string>, loaded: Classifier)
    requires DistinctNames(before) && forall k :: 0 <= k < |before| ==> |before[k].cells| == rows
    requires forall k :: 0 <= k < |manifest| ==> manifest[k] in Names(before)
    requires rows > 0
    ensures forall k :: 0 <= k < |manifest| ==>
      manifest[k] in Names(Assigned(before, Column(PredictedClassColumn, true, loaded.predict(Select(before, manifest)))))
    ensures var labels := loaded.predict(Select(before, manifest));
      var mid := Assigned(before, Column(PredictedClassColumn, true, labels));
      var scores := loaded.predictProba(Select(mid, manifest));
      var p := Predicted(before, rows, manifest, loaded);
      && (p.Some? <==> |labels| == rows && |scores| == rows)
      && (p.Some? ==> p.value == (Assigned(mid, Column(ScoreColumn, true, scores)), rows))
  {
    var labels := loaded.predict(Select(before, manifest));
    var classCol := Column(PredictedClassColumn, true, labels);
    AssignedKeepsManifest(before, classCol, manifest);
    AssignedFrameShape(before, rows, classCol, manifest);
    if |labels| == rows {
      var mid := Assigned(before, classCol);
      AssignedFrameShape(mid, rows, Column(ScoreColumn, true, loaded.predictProba(Select(mid, manifest))), []);
    }
  }

  /** Every manifest name survives an assignment. */
  lemma AssignedKeepsManifest(cols: seq<Column>, col: Column, manifest: seq<string>)
    requires forall k :: 0 <= k < |manifest| ==> manifest[k] in Names(cols)
    ensures forall k :: 0 <= k < |manifest| ==> manifest[k] in Names(Assigned(cols, col))
  {
    forall k | 0 <= k < |manifest| ensures manifest[k] in Names(Assigned(cols, col)) {
      AssignedKeepsName(cols, col, manifest[k]);
    }
  }

  /**
   * A prediction on a valid table leaves a valid table holding both output
   * columns, with the row count unchanged unless the table had no rows.
   */
  lemma PredictedShape(before: seq<Column>, rows: nat, manifest: seq<string>, loaded: Classifier)
    requires DistinctNames(before) && forall k :: 0 <= k < |before| ==> |before[k].cells| == rows
    requires forall k :: 0 <= k < |manifest| ==> manifest[k] in Names(before)
    ensures var p := Predicted(before, rows, manifest, loaded);
      p.Some? ==>
        && DistinctNames(p.value.0)
        && (forall k :: 0 <= k < |p.value.0| ==> |p.value.0[k].cells| == p.value.1)
        && PredictedClassColumn in Names(p.value.0) && ScoreColumn in Names(p.value.0)
        && (rows > 0 ==> p.value.1 == rows)
  {
    var classCol := Column(PredictedClassColumn, true, loaded.predict(Select(before, manifest)));
    AssignedFrameShape(before, rows, classCol, manifest);
    var r := AssignedFrame(before, rows, classCol);
    if r.Some? {
      var mid := r.value.0;
      var scoreCol := Column(ScoreColumn, true, loaded.predictProba(Select(mid, manifest)));
      assert Predicted(before, rows, manifest, loaded) == AssignedFrame(mid, r.value.1, scoreCol);
      var kept := [PredictedClassColumn];
      assert kept[0] == PredictedClassColumn;
      AssignedFrameShape(mid, r.value.1, scoreCol, kept);
      var q := AssignedFrame(mid, r.value.1, scoreCol);
      if q.Some? {
        assert kept[0] in Names(q.value.0);
      }
    }
  }

  /**
   * `predict_vscreenml_score` after the feature CSV is read: chooses the model
   * and manifest, checks every manifest column is in the table and adds the two
   * output columns. `loaded` stands for the model that `load_model` builds.
   */
  method PredictVScreenMLScore(features: Table, featuresFile: string, model: Option<string>, columns: Option<string>,
                               file: string, files: map<string, string>, loaded: Classifier)
    returns (outcome: Result<()>)
    requires features.Valid()
    modifies features
    ensures features.Valid()
    ensures LoadManifest(model, columns, file, files).Err? ==>
      && outcome == Err(LoadManifest(model, columns, file, files).error)
      && features.columns == old(features.columns) && features.rows == old(features.rows)
    ensures LoadManifest(model, columns, file, files).Ok? ==>
      var manifest := LoadManifest(model, columns, file, files).value;
      var before := old(features.columns);
      if exists k :: 0 <= k < |manifest| && manifest[k] !in Names(before) then
        && features.columns == before && features.rows == old(features.rows)
        && exists k :: 0 <= k < |manifest| && manifest[k] !in Names(before)
             && (forall j :: 0 <= j < k ==> manifest[j] in Names(before))
             && outcome == Err(MissingColumnMessage(manifest[k], featuresFile))
      else
        var p := Predicted(before, old(features.rows), manifest, loaded);
        && (outcome.Ok? <==> p.Some?)
        && (outcome.Ok? ==> (features.columns, features.rows) == p.value)
        && (outcome.Err? ==> outcome == Err(LengthMismatch))
  {
    var loadedManifest := ReadManifest(model, columns, file, files);
    if loadedManifest.Err? {
      return Err(loadedManifest.error);
    }
    var manifest := loadedManifest.value;

    var missing := FirstMissingColumn(manifest, Names(features.columns));
    if missing.Some? {
      return Err(MissingColumnMessage(missing.value, featuresFile));
    }

    var labels := loaded.predict(Select(features.columns, manifest));
    AssignedFrameShape(features.columns, features.rows, Column(PredictedClassColumn, true, labels), manifest);
    var ok := features.Assign(PredictedClassColumn, labels, true);
    if !ok {
      return Err(LengthMismatch);
    }
    var scores := loaded.predictProba(Select(features.columns, manifest));
    ok := features.Assign(ScoreColumn, scores, true);
    if !ok {
      return Err(LengthMismatch);
    }
    return Ok(());
  }
}
