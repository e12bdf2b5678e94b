# vScreenML core logic in Dafny

vScreenML prepares protein–ligand complexes with a molecular-modelling engine
and scores them with a gradient-boosted classifier. Almost all the heavy work
happens inside those two libraries. This project models the logic the
repository decides for itself, and proves what that logic promises:

- **Structure helpers** (`pyrosetta_utils.dfy`, module `PyrosettaUtils`):
  - the neighbour-residue finder `get_around_residues`, over per-atom `"chain number"` keys;
  - the first-match search `get_residue_index`;
  - `decompose_pose`, which splits a complex into a one-residue ligand and the receptor by deleting residue ranges from two clones;
  - the move map that `minimize_complex` builds from a list of `"chain number"` strings.

  A pose is a class whose `residues` field the range deletion updates in place.
- **Scoring scripts** (`xgboost_utils.dfy`, module `XgboostUtils`):
  - the column manifest that `train_model` writes (numeric columns except `Class`, joined by commas);
  - the preset dispatch of `predict_vscreenml_score` and its root-path trimming;
  - reading the manifest back with `split(",")`;
  - the required-column check, which stops at the first missing column;
  - the two output columns `Predicted_Class` and `VScreenML_Score`, written into the feature table in place.
- **Python string builtins** (`pystr.dfy`, module `PyStr`): `str.split` with an explicit separator, `str.join`, `str(int)`, `int(str)`, `str.rfind` and `s[:k]`, with their round trips.
- `wrappers.dfy`: `Option` (Python's `None` or a value) and `Result` (a value or a raised exception).

The bundled preset files are located from the script's own path: the code
applies `s[:s.rfind("/")]` to it twice. That has a quirk when `rfind` returns -1,
which is stated and proved below rather than smoothed over.

## Model

| member | source | states |
|---|---|---|
| `PyrosettaUtils.Pose.Clone` | vScreenML/utils/pyrosetta_utils.py:90-91 | the copy is a fresh object with the same residues, so editing it leaves the original alone |
| `PyrosettaUtils.Pose.DeleteRegion` | vScreenML/utils/pyrosetta_utils.py:97-109 | `delete_region(p, a, b)` removes positions `a..b` (1-based, inclusive), keeps the rest in order, and changes only this pose |
| `PyrosettaUtils.DecomposePose` | vScreenML/utils/pyrosetta_utils.py:88-114 | in all three branches (first, last, interior) the ligand is exactly `[bound[residue_id]]`; the receptor is `bound` without that position; `bound` is unchanged; both results are fresh and distinct |
| `PyrosettaUtils.WithoutPosition` | vScreenML/utils/pyrosetta_utils.py:109 | the receptor has length `|bound| - 1`; residues before the ligand keep their index and those after move down by one |
| `PyrosettaUtils.DecompositionPartitions` | vScreenML/utils/pyrosetta_utils.py:96-109 | ligand and receptor together hold every residue of `bound` exactly as often as `bound` does; splicing the ligand back in at its position rebuilds `bound` |
| `PyrosettaUtils.CollectAtoms` | vScreenML/utils/pyrosetta_utils.py:31-38 | the nested loops produce exactly one key per atom, residue by residue, and the atom positions in the same order |
| `PyrosettaUtils.AtomKeysAreResidueKeys` | vScreenML/utils/pyrosetta_utils.py:31-37 | a key occurs in the per-atom list iff some residue that has atoms carries it |
| `PyrosettaUtils.GetAroundResidues` | vScreenML/utils/pyrosetta_utils.py:24-54 | the result is the set of keys of atoms within `radii` of some atom keyed `"lig_chain lig_num"`, and every result is a key of the pose's atoms |
| `PyrosettaUtils.AroundWithoutLigandIsEmpty` | vScreenML/utils/pyrosetta_utils.py:44-54 | when no residue with atoms has the ligand's key, the result is the empty set |
| `PyrosettaUtils.AroundAreResidueKeys` | vScreenML/utils/pyrosetta_utils.py:44-52 | every returned key is the `"chain number"` key of a residue of the pose that has atoms |
| `PyrosettaUtils.AroundMonotone` | vScreenML/utils/pyrosetta_utils.py:48-52 | a larger radius never removes a key |
| `PyrosettaUtils.AroundContainsLigand` | vScreenML/utils/pyrosetta_utils.py:44-52 | with `radii >= 0` and a ligand residue that has an atom, the ligand's own key is in the result |
| `PyrosettaUtils.WithinSelf` | vScreenML/utils/pyrosetta_utils.py:48-51 | an atom is at distance 0 from itself, so it lies within any non-negative radius of itself |
| `PyrosettaUtils.WithinMonotone` | vScreenML/utils/pyrosetta_utils.py:51 | `distance <= r1` and `r1 <= r2` imply `distance <= r2` |
| `PyrosettaUtils.GetResidueIndex` | vScreenML/utils/pyrosetta_utils.py:81-85 | returns the smallest 1-based `i` whose residue has the name; `None` iff no residue has it |
| `PyrosettaUtils.ResidueKeyRoundTrip` | vScreenML/utils/pyrosetta_utils.py:151-152 | splitting `f"{c} {n}"` on spaces and taking `(fields[0], int(fields[-1]))` gives back `(c, n)` for every chain `c` without a space |
| `PyrosettaUtils.MoveMap.constructor` | vScreenML/utils/pyrosetta_utils.py:136 | a new move map lets nothing move |
| `PyrosettaUtils.MoveMap.SetJump` | vScreenML/utils/pyrosetta_utils.py:138 | sets the jump flag and nothing else |
| `PyrosettaUtils.MoveMap.SetChiAll` | vScreenML/utils/pyrosetta_utils.py:142 | sets the side-chain default for all residues and nothing else |
| `PyrosettaUtils.MoveMap.SetBbAll` | vScreenML/utils/pyrosetta_utils.py:144 | sets the backbone default for all residues and nothing else |
| `PyrosettaUtils.MoveMap.SetChi` | vScreenML/utils/pyrosetta_utils.py:156 | overrides the side-chain flag of one residue and nothing else |
| `PyrosettaUtils.MoveMap.SetBb` | vScreenML/utils/pyrosetta_utils.py:157 | overrides the backbone flag of one residue and nothing else |
| `PyrosettaUtils.MinimizeMoveMap` | vScreenML/utils/pyrosetta_utils.py:138-157 | the jump is always free; an empty list frees every backbone and side chain; otherwise a residue is free (backbone and side chain alike) iff it is the `pdb2pose` image of a listed string; the first string whose number is not an integer is reported as the ValueError |
| `PyStr.Split` | vScreenML/utils/xgboost_utils.py:108 | `str.split(sep)` always returns at least one field |
| `PyStr.SplitFieldsHaveNoSeparator` | vScreenML/utils/pyrosetta_utils.py:151 | no field that `split` returns contains the separator |
| `PyStr.JoinSplit` | vScreenML/utils/xgboost_utils.py:108 | joining the fields of `s.split(sep)` with `sep` gives back `s`, for every string |
| `PyStr.SplitJoin` | vScreenML/utils/xgboost_utils.py:62 | `sep.join(parts).split(sep) == parts` for every non-empty list whose parts do not contain `sep` |
| `PyStr.EmptyJoinSplitsToOneEmptyField` | vScreenML/utils/xgboost_utils.py:62 | the empty list joins to `""`, which splits to `[""]`, not `[]` |
| `PyStr.NatToString` | vScreenML/utils/pyrosetta_utils.py:37 | `str(n)` is a non-empty string of decimal digits |
| `PyStr.IntStringRoundTrip` | vScreenML/utils/pyrosetta_utils.py:152 | `int(str(i)) == i` for every integer, and `str(i)` has no space |
| `PyStr.RFind` | vScreenML/utils/xgboost_utils.py:90 | `rfind` returns -1 iff the character is absent; otherwise it returns the index of its last occurrence |
| `XgboostUtils.FeatureColumns` | vScreenML/utils/xgboost_utils.py:61 | a name is listed iff some numeric column other than `Class` has it |
| `XgboostUtils.FeatureColumnAt` | vScreenML/utils/xgboost_utils.py:61 | order is kept: the feature at table position `p` comes right after the features of the columns before `p` |
| `XgboostUtils.ManifestText` | vScreenML/utils/xgboost_utils.py:23-25 | `drop("Class")` raises iff the numeric columns include none called `Class`; otherwise the manifest is the feature names joined by commas (the other ways training can fail are under "Left out") |
| `XgboostUtils.ManifestRoundTrip` | vScreenML/utils/xgboost_utils.py:62 | reading the written manifest back with `split(",")` gives exactly the feature columns, when there is at least one and no feature name contains a comma |
| `XgboostUtils.EmptyManifestReadsBackOneEmptyName` | vScreenML/utils/xgboost_utils.py:62 | a table without feature columns writes `""`, which reads back as `[""]` |
| `XgboostUtils.TrimRoot` | vScreenML/utils/xgboost_utils.py:89-91 | the two reassignments of `root` compute `PackageRoot` of the script path (its meaning is in the next three rows) |
| `XgboostUtils.RootDropsTwoComponents` | vScreenML/utils/xgboost_utils.py:89-91 | with at least two `/` the root is a proper prefix ending just before a `/`, and what it drops holds exactly two `/` |
| `XgboostUtils.RootWithoutSlashDropsTwoCharacters` | vScreenML/utils/xgboost_utils.py:98-100 | with no `/`, `rfind` gives -1 and each step drops one character, so two characters go |
| `XgboostUtils.RootWithOneSlash` | vScreenML/utils/xgboost_utils.py:98-100 | with one `/` at index `i`, the root is `s[:i-1]`: the first step cuts at the slash, the second drops one more character |
| `XgboostUtils.ChooseArtifacts` | vScreenML/utils/xgboost_utils.py:87-108 | `DUDE_openeye` and `DUDE_openbabel` select their fixed model and columns files under `<root>/models/`; any other `-model` is the model path, paired with the `-columns` option as given; the dispatch fails iff `-model` is missing |
| `XgboostUtils.LoadManifest` | vScreenML/utils/xgboost_utils.py:87-108 | reading fails when `-model` is missing, the chosen model file is absent, no columns file was given, or the chosen columns file is absent, and succeeds otherwise; an absent model file is reported before anything about the columns file, since the model is loaded first; the result is the columns file split on commas |
| `XgboostUtils.ReadManifest` | vScreenML/utils/xgboost_utils.py:87-108 | the dispatch statements, including the `TrimRoot` calls, compute `LoadManifest` |
| `XgboostUtils.TrainingArtifacts` | vScreenML/utils/xgboost_utils.py:60-65 | the model file training writes is never mistaken for a preset name |
| `XgboostUtils.TrainThenPredictManifest` | vScreenML/utils/xgboost_utils.py:105-108 | pointing prediction at the files training wrote yields exactly the training feature columns, all of which are columns of the training table |
| `XgboostUtils.FirstMissingColumn` | vScreenML/utils/xgboost_utils.py:110-112 | returns `None` iff every manifest column is in the header; otherwise it returns the first missing column in manifest order |
| `XgboostUtils.Select` | vScreenML/utils/xgboost_utils.py:114 | `features[columns]` yields one column per manifest name, in manifest order, each taken from the table |
| `XgboostUtils.Table.Assign` | vScreenML/utils/xgboost_utils.py:114-115 | a column assignment gives the table `AssignedFrame` describes and keeps the table valid; a failed one changes nothing |
| `XgboostUtils.AssignedFrameShape` | vScreenML/utils/xgboost_utils.py:114-115 | an assignment succeeds iff there is one value per row or the table has no rows; a table with no rows grows to the length of the list; otherwise the row count stays and the column is replaced or appended; names stay distinct, every column has the new row count, and no name is lost |
| `XgboostUtils.GrownUniform` | vScreenML/utils/xgboost_utils.py:114 | a table with no rows, grown to `n` rows, keeps its column names and has `n` cells in every column |
| `XgboostUtils.AssignedUniform` | vScreenML/utils/xgboost_utils.py:114 | assigning a column as long as the others keeps the table rectangular with distinct names |
| `XgboostUtils.AssignedKeepsManifest` | vScreenML/utils/xgboost_utils.py:114-115 | every manifest column present before the first assignment is still present for the second `features[columns]` |
| `XgboostUtils.AssignedKeepsOtherColumns` | vScreenML/utils/xgboost_utils.py:114-115 | every other column keeps its position and contents; an existing name is overwritten in place; a new name is appended at the end |
| `XgboostUtils.AssignedHasName` | vScreenML/utils/xgboost_utils.py:114 | after an assignment the table has a column of that name |
| `XgboostUtils.AssignedKeepsName` | vScreenML/utils/xgboost_utils.py:114 | no existing column name is lost |
| `XgboostUtils.AssignedAddsOnlyItsName` | vScreenML/utils/xgboost_utils.py:114 | no name other than the assigned one appears |
| `XgboostUtils.AssignedNewName` | vScreenML/utils/xgboost_utils.py:114 | assigning a name the table lacks appends exactly that column |
| `XgboostUtils.OutputColumns` | vScreenML/utils/xgboost_utils.py:114-115 | after both assignments every input column other than the two output names is unchanged at its position, both output columns exist, and on a table without them they are the last two columns in that order |
| `XgboostUtils.PredictedOnRows` | vScreenML/utils/xgboost_utils.py:114-115 | on a table with rows, prediction succeeds iff the classifier gives one label and one probability per row, the probabilities being computed from the manifest columns of the table that already holds `Predicted_Class`; the result is the two assignments in order, with the row count unchanged |
| `XgboostUtils.PredictedShape` | vScreenML/utils/xgboost_utils.py:114-115 | a successful prediction leaves a rectangular table with distinct names holding both output columns, with the row count unchanged unless the table had no rows |
| `XgboostUtils.PredictVScreenMLScore` | vScreenML/utils/xgboost_utils.py:83-117 | a dispatch or file error leaves the table untouched; a missing column raises with the source's message for the first missing one, before anything is written; otherwise the outcome and the new table are those of `Predicted`: `Predicted_Class` from the manifest columns, then `VScreenML_Score` from the manifest columns of the updated table, a length mismatch raising |

## Left out

- `init_pyrosetta`, `load_pdbstring`, `export_pdbstring`: engine start-up and PDB reading and writing are foreign native calls.
- `unbound_pose`: the rigid-body translation and the fold-tree jump lookup happen entirely inside the engine.
- The energy evaluations `get_score_function()(pose)`, and the `MinMover` minimisation in `minimize_complex`: foreign calls. Only the move map handed to the minimiser is modelled.
- GetAroundResidues: atom coordinates and the radius are integers, and the test `sqrt(d²) <= radii` is taken as `radii >= 0 && d² <= radii²`. This is exact for integer inputs. vScreenML's floating-point coordinates and radius are not modelled.
- DecomposePose: requires `|bound| >= 2` and `1 <= residue_id <= |bound|`. Outside that range `decompose_pose` asks `delete_region` for ranges such as `(2, 1)`, whose effect depends on engine code that is not part of this model.
- MinimizeMoveMap: `pdb2pose` is a function parameter that returns some pose index. The engine's behaviour when a PDB residue cannot be resolved is engine code that is not part of this model.
- `PyrosettaUtils.MoveMap` models only what `minimize_complex` uses of the engine's MoveMap: a jump flag, backbone and side-chain defaults, and per-residue overrides.
- `PyStr.ParseInt` accepts an optional sign followed by ASCII digits. Python's `int()` also strips surrounding whitespace and accepts underscores and non-ASCII digits; those are not modelled.
- `train_model`: the row shuffle, the XGBoost fitting, `StratifiedKFold`, the metrics with their `round(proba, 0)` thresholding, the printed report and the saved model file are not modelled. They are randomness, floating point, foreign library code and I/O. Only the manifest's contents are modelled.
- PredictVScreenMLScore: the XGBoost model is a pair of functions from the selected columns to the predicted classes and probabilities. Reading the feature CSV and writing the output CSV are I/O, so the table comes in as an object and the result is that object's new state. The file system is a map from path to contents. Only the missing-column message is vScreenML's own; the texts of the other errors (missing file, missing option, length mismatch) come from Python and its libraries and are placeholders.
- ManifestText: only the `drop("Class")` failure is modelled. Training can also fail at `int(args.nsplits)` (xgboost_utils.py:19), in `StratifiedKFold` (:29, :33) and in the fits (:37, :58). Those are argument parsing and foreign library code.
- LoadManifest: a model file that exists is taken to load. `load_model` (xgboost_utils.py:93, :102, :107) also rejects a file that is not a saved model; parsing the model format is foreign library code.
- PredictVScreenMLScore: when the second assignment raises, the contract says only that the outcome is the length error. The table then already holds `Predicted_Class`, but the script stops before writing it out.
- The default arguments `radii=15.0`, `lig_chain="X"`, `lig_num=1` (pyrosetta_utils.py:24) and `flexible_residues=[]` (pyrosetta_utils.py:127) are not modelled as defaults: every model member takes all its arguments explicitly.
- Pandas dtype inference is not modelled: each column carries a flag that says whether it is numeric. Column names in a table are distinct, as `read_csv` makes them.
