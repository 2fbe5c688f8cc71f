# Feature pipelines and model comparison of itmo-mlops-2025, in Dafny

This project models the three pieces of the repository that hold logic of their own. Everything else in those scripts is a call into pandas, scikit-learn or matplotlib.

- **`process_titanic_data`** (`src/mlops/data/process_titanic.py`). Steps:
  - fill the missing ages and fares with the median, and the missing ports of embarkation with the mode;
  - extract a salutation from each passenger's name with the pattern ` ([A-Za-z]+)\.`, and map it onto Mr, Miss, Mrs, Master or Other;
  - derive `FamilySize` and `IsAlone`;
  - label-encode `Sex`, `Embarked` and `Title`;
  - standardize `Age`, `Fare` and `FamilySize`;
  - keep ten model features, plus `Survived` when it is present.
- **`process_house_data`** (`src/mlops/data/process_house.py`). Steps:
  - drop eight columns, ignoring any that are absent;
  - tag the remaining columns as numeric or text;
  - impute numeric columns with the median and text columns with the most frequent value;
  - derive five features by exact arithmetic: three sums, a weighted bathroom count and two age differences;
  - list the numeric columns again;
  - label-encode the text columns listed before the derivation;
  - standardize the numeric columns listed after it.
- **`compare_models.py`** (`src/mlops/evaluation/compare_models.py`). It covers:
  - which metrics get a chart, and the file each chart is saved to;
  - the report that `generate_report` builds: one table row per metrics record in input order, then the best model of each dataset;
  - the best model is the first record with the maximal `f1` or `r2`, as Python's `max` picks it.

Modules:

| module | file | contents |
|---|---|---|
| `Wrappers` | `wrappers.dfy` | `Option`, `Result` |
| `Seqs` | `seqs.dfy` | duplicate-free sequences; order-preserving filters over column names |
| `Tables` | `tables.dfy` | the table, and the pandas and scikit-learn calls as pure functions |
| `Frames` | `frames.dfy` | the mutable DataFrame as a class whose methods reassign its fields |
| `Steps` | `steps.dfy` | the steps both pipelines share; where the result is written |
| `LabelEncoding` | `encoding.dfy` | `LabelEncoder` |
| `Titanic` | `titanic.dfy` | the passenger transform |
| `TitanicFacts` | `titanic_facts.dfy` | properties of the passenger transform |
| `House` | `house.dfy` | the house transform |
| `HouseFacts` | `house_facts.dfy` | properties of the house transform |
| `HouseFormulas` | `house_formulas.dfy` | the five derived features, formula by formula |
| `CompareModels` | `compare_models.dfy` | chart names and the report |

The data model:
- A table has ordered, distinct column names, one column per name and a common height.
- A column is either numeric (`NumCol`, pandas int64 or float64) or text (`CatCol`, pandas object), so each column carries its kind.
- A missing cell (NaN) is `None`.
- Numbers are exact reals.
- A pipeline allocates a `Frame` from the raw table (`read_csv`) and edits it in place step by step.
  - Each method of a pipeline is proved equal to a closed-form function of the raw table: `ProcessTitanic` to `TitanicTransform`, `ProcessHouse` to `HouseTransform`, `GenerateReport` to `Report`.
  - The properties are proved as lemmas about those functions.
- Every exception the two feature transforms and `generate_report` can raise is an `Err` result: KeyError, TypeError, the `.str` accessor on a non-text column, `mode()[0]` of an empty column, and scikit-learn refusing an empty array.
  - The model reports the exception the source would raise first. The one exception is a derived `+` sum whose operands are all text, listed under "## Left out".

Facts about the source that the model keeps:
- `Embarked` with no value makes `mode()[0]` raise (`Titanic.ModeFilled`).
- An `Age` or `Fare` column with no value stays missing after filling, because the median of such a column is NaN.
- The title mapping has five targets: Mr, Miss, Mrs, Master and Other.
- The house transform standardizes a numeric `SalePrice` whenever it is present, because line 74 lists every numeric column, the target included (`HouseFacts.TargetScaled`). A text `SalePrice` is in the text list taken at line 42, so it is label-encoded and not scaled (`HouseFacts.HouseTextEncoded`).
- The report's tables require every metric of a row to be a number. `model_name` may be any value.

## Model

| member | source | states |
|---|---|---|
| Seqs.NoDuplicatesIndex | src/mlops/data/process_house.py:41-42 | a duplicate-free name list has no two positions holding the same name |
| Seqs.Filter | src/mlops/evaluation/compare_models.py:40 | the kept names are exactly those of the input that pass the test, and there are no more of them than of the input |
| Seqs.FilterAppend | src/mlops/data/process_house.py:38 | filtering a concatenation is the concatenation of the filtered parts, so the relative order is kept |
| Seqs.WithoutAppend | src/mlops/data/process_house.py:38 | removing names from a concatenation removes them from each part |
| Seqs.FilterNoDuplicates | src/mlops/data/process_house.py:38 | filtering a duplicate-free list leaves it duplicate-free |
| Seqs.FilterAll | src/mlops/data/process_house.py:38 | when every name passes, filtering changes nothing |
| Seqs.WithoutAbsent | src/mlops/data/process_house.py:38 | removing names none of which occurs is the identity (`errors="ignore"`) |
| Seqs.AppendNoDuplicates | src/mlops/data/process_titanic.py:68-69 | two duplicate-free lists with no name in common concatenate to a duplicate-free list |
| Seqs.AddName | src/mlops/data/process_house.py:54 | appending a name unless present keeps the list duplicate-free and adds exactly that name |
| Tables.SetColumn | src/mlops/data/process_titanic.py:22-27 | `df[n] = c` replaces an existing column where it stands and appends a new one last; every other column is kept |
| Tables.DropColumns | src/mlops/data/process_house.py:38 | the drop keeps the other columns in their order and unchanged, ignoring listed names that are absent |
| Tables.FirstAbsentAppend | src/mlops/data/process_titanic.py:77 | the first absent name of a concatenation is that of the first part when it has one, else that of the second |
| Tables.SelectColumns | src/mlops/data/process_titanic.py:77 | `df[fs]` succeeds exactly when every name is a column; the result holds exactly those columns unchanged, in list order; otherwise KeyError names the first absent one |
| Tables.AssignAll | src/mlops/data/process_house.py:46 | `df[block.names] = block` overrides exactly the block's columns and keeps the column order when the names exist |
| Tables.NamesOfKind | src/mlops/data/process_house.py:41-42 | `select_dtypes` lists exactly the columns of the given kind |
| Tables.KindsPartition | src/mlops/data/process_house.py:41-42 | every column is tagged numeric or text, never both, and each list is duplicate-free |
| Tables.FillNa | src/mlops/data/process_titanic.py:22 | after `fillna(v)` nothing is missing, present cells are kept and missing ones become `v` |
| Tables.ScaleCell | src/mlops/data/process_titanic.py:74 | standardizing keeps missing cells missing and is undone by `x * std + mean` |
| Tables.Standardize | src/mlops/data/process_titanic.py:74 | a column is standardized cell by cell with its own moments |
| Tables.StandardScale | src/mlops/data/process_house.py:82-83 | `fit_transform` succeeds exactly on a non-empty all-numeric block and standardizes each column with its own moments; a block with no row raises the 0-sample error first |
| Tables.ImputeColumn | src/mlops/data/process_house.py:45-50 | the imputed column has its kind and length and no missing cell; present cells are kept, missing ones get the median or most frequent value |
| Tables.SimpleImpute | src/mlops/data/process_house.py:45-50 | the imputer succeeds exactly on a non-empty block whose every column has a value, and imputes each column; a block with no row raises the 0-sample error first |
| Frames.Frame.constructor | src/mlops/data/process_titanic.py:18 | the frame starts out holding the table read |
| Frames.Frame.Get | src/mlops/data/process_titanic.py:22 | `df[n]` is the column, or KeyError when absent |
| Frames.Frame.GetNumeric | src/mlops/data/process_titanic.py:51 | a column used in arithmetic is looked up as `Tables.LookupNumeric` says |
| Frames.Frame.Set | src/mlops/data/process_titanic.py:22 | the frame afterwards holds `SetColumn` of what it held |
| Frames.Frame.Drop | src/mlops/data/process_house.py:38 | the frame afterwards holds `DropColumns` of what it held |
| Frames.Frame.Select | src/mlops/data/process_titanic.py:77 | selecting from the frame is `SelectColumns` of its table |
| Frames.Frame.Assign | src/mlops/data/process_house.py:46 | the frame afterwards holds `AssignAll` of what it held and the block |
| Steps.DestinationFor | src/mlops/data/process_titanic.py:80-93 | the table is split for training exactly when it has the target column, else written whole |
| Steps.EncodeColumns | src/mlops/data/process_titanic.py:57-60 | the loop succeeds exactly when all listed columns exist; it replaces each listed column by its codes and keeps every other column and the column order |
| Steps.EncodeColumnsError | src/mlops/data/process_titanic.py:58-60 | a failing loop raises KeyError for the first absent listed name |
| Steps.EncodeColumnsErrPrefix | src/mlops/data/process_titanic.py:58-60 | once a prefix of the list fails, the whole loop fails the same way |
| Steps.EncodeInPlace | src/mlops/data/process_titanic.py:58-60 | the loop run on the frame leaves what `EncodeColumns` says |
| Steps.ScaleColumns | src/mlops/data/process_titanic.py:72-74 | scaling succeeds exactly on a non-empty list of numeric columns of a non-empty table; only the listed columns change |
| Steps.ScaleInPlace | src/mlops/data/process_titanic.py:72-74 | scaling run on the frame leaves what `ScaleColumns` says |
| Steps.EncodeThenScale | src/mlops/data/process_house.py:77-83 | after encoding and then scaling, each column is encoded when listed, then standardized when listed; no column is added or removed |
| Steps.EncodeScaleInPlace | src/mlops/data/process_house.py:77-83 | encoding then scaling on the frame fails only on a missing encoded column, with that KeyError, and otherwise changes each column as `EncodedScaled` says |
| Steps.SelectEncodedScaled | src/mlops/data/process_titanic.py:77 | selecting from an encoded and scaled table gives the encoded and scaled columns in list order |
| Steps.EncodedScaledTableValid | src/mlops/data/process_titanic.py:77 | the selected table has exactly the listed columns, all of the common height |
| Steps.EncodedScaledWhole | src/mlops/data/process_house.py:77-83 | a table whose every column is encoded and scaled is the encoded and scaled table of all names |
| Steps.ImputeColumns | src/mlops/data/process_house.py:45-50 | imputing listed columns succeeds exactly when all exist and have a value; only those change |
| Steps.ImputeInPlace | src/mlops/data/process_house.py:45-50 | imputation run on the frame leaves what `ImputeColumns` says |
| LabelEncoding.TextLessIrreflexive | src/mlops/data/process_titanic.py:60 | no string sorts before itself |
| LabelEncoding.TextLessTransitive | src/mlops/data/process_titanic.py:60 | string order is transitive |
| LabelEncoding.TextLessTotal | src/mlops/data/process_titanic.py:60 | of two different strings one sorts first |
| LabelEncoding.CellLessStrictTotal | src/mlops/data/process_titanic.py:60 | the order the encoder sorts values in is a strict total order |
| LabelEncoding.SubsetCard | src/mlops/data/process_titanic.py:60 | a subset has no more elements, a proper subset fewer |
| LabelEncoding.RankBelowCount | src/mlops/data/process_titanic.py:60 | a value's position among the sorted distinct values is below their number |
| LabelEncoding.RankMonotone | src/mlops/data/process_titanic.py:60 | a value that sorts earlier gets a smaller position |
| LabelEncoding.Codes | src/mlops/data/process_titanic.py:60 | one code per cell, each below the number of distinct values |
| LabelEncoding.CodesFollowValues | src/mlops/data/process_titanic.py:57-60 | equal values get equal codes, distinct values distinct codes, and codes follow the sorted order |
| LabelEncoding.Encode | src/mlops/data/process_titanic.py:60 | `fit_transform` gives a numeric column of the same length with no missing cell |
| LabelEncoding.EncodeSpec | src/mlops/data/process_titanic.py:57-60 | per column, codes are equal exactly when values are, and are whole numbers in 0..k-1 for k distinct values |
| Titanic.LetterRun | src/mlops/data/process_titanic.py:27 | the run is made of ASCII letters and is the longest one at that position |
| Titanic.TitleAt | src/mlops/data/process_titanic.py:27 | a title found at a position is non-empty |
| Titanic.TitleAtSpec | src/mlops/data/process_titanic.py:27 | the greedy attempt at a position gives `t` exactly when the pattern matches there with group `t` |
| Titanic.SearchFromFindsFirst | src/mlops/data/process_titanic.py:27 | the search finds the first matching position from its start, or reports none when the pattern matches nowhere after it |
| Titanic.ExtractTitleIsFirstMatch | src/mlops/data/process_titanic.py:27 | the extracted token is `t` exactly when the first match of the pattern has group `t` |
| Titanic.ExtractTitleMissing | src/mlops/data/process_titanic.py:27 | the token is missing exactly when the pattern matches nowhere |
| Titanic.ExtractTitleExample | src/mlops/data/process_titanic.py:27 | "Braund, Mr. Owen Harris" gives "Mr" |
| Titanic.MapTitle | src/mlops/data/process_titanic.py:48 | a token maps to a title exactly when it is one of the 18 keys, and the title is one of the five canonical ones |
| Titanic.TitleMappingKeys | src/mlops/data/process_titanic.py:28-47 | the keys are the four common titles, Mlle, Ms, Mme and the eleven rare titles |
| Titanic.TitleMappingValues | src/mlops/data/process_titanic.py:28-47 | the mapping is onto {Mr, Miss, Mrs, Master, Other} |
| Titanic.TitleMappingOther | src/mlops/data/process_titanic.py:28-47 | a title becomes Other exactly when it is one of the eleven rare titles |
| Titanic.TitleMappingVariants | src/mlops/data/process_titanic.py:37-44 | Mlle and Ms become Miss, Mme becomes Mrs |
| Titanic.TitleMappingCommon | src/mlops/data/process_titanic.py:29-32 | Mr, Miss, Mrs and Master map to themselves |
| Titanic.TitleColumn | src/mlops/data/process_titanic.py:27-48 | row by row, the title is the mapped token of the name |
| Titanic.TitleColumnOf | src/mlops/data/process_titanic.py:27 | the `.str` accessor succeeds exactly on a text column |
| Titanic.FamilySizeOf | src/mlops/data/process_titanic.py:51 | the size is missing exactly when a count is, otherwise one more than the counts' sum, so at least 1 for non-negative counts |
| Titanic.IsAloneOf | src/mlops/data/process_titanic.py:54 | 1 exactly when the family size is 1, otherwise 0 |
| Titanic.FamilySizeColumn | src/mlops/data/process_titanic.py:51 | the size column is computed row by row |
| Titanic.IsAloneColumn | src/mlops/data/process_titanic.py:54 | the alone column is computed row by row and has no missing cell |
| Titanic.FamilySizeColumnOf | src/mlops/data/process_titanic.py:51 | adding the count columns succeeds exactly when both are numeric |
| Titanic.MedianFilled | src/mlops/data/process_titanic.py:22 | filling with the median needs a numeric column, keeps present cells and fills missing ones, unless the column has no value |
| Titanic.ModeFilled | src/mlops/data/process_titanic.py:23 | filling with the mode succeeds exactly when the column has a value, keeps present cells and leaves none missing |
| Titanic.EncodedFeaturesDistinct | src/mlops/data/process_titanic.py:57 | the encoded columns are three distinct names |
| Titanic.ScaledFeaturesDistinct | src/mlops/data/process_titanic.py:73 | the scaled columns are three distinct names |
| Titanic.ModelFeaturesDistinct | src/mlops/data/process_titanic.py:63-66 | the ten model features are distinct |
| Titanic.SurvivedNotModelFeature | src/mlops/data/process_titanic.py:63-69 | `Survived` is not among the model features |
| Titanic.OutputFeaturesDistinct | src/mlops/data/process_titanic.py:63-69 | the selected list, with `Survived` appended, is duplicate-free |
| Titanic.Filled | src/mlops/data/process_titanic.py:22-24 | filling keeps the column names and height |
| Titanic.PreparedCols | src/mlops/data/process_titanic.py:22-54 | after lines 22-54 the columns are the raw ones plus Title, FamilySize and IsAlone |
| Titanic.PreparedNames | src/mlops/data/process_titanic.py:22-54 | the column list is duplicate-free and names exactly the raw and derived columns |
| Titanic.Prepared | src/mlops/data/process_titanic.py:22-54 | the prepared table is well formed and one row per passenger |
| Titanic.PreparedBySteps | src/mlops/data/process_titanic.py:22-54 | filling, then the title, then the family features give the prepared table |
| Titanic.StepsColumns | src/mlops/data/process_titanic.py:22-54 | the assignments of lines 22-54 leave the prepared columns |
| Titanic.FillableHasRows | src/mlops/data/process_titanic.py:23 | a table whose `Embarked` has a value has a row |
| Titanic.PreparedScaledNumeric | src/mlops/data/process_titanic.py:73-74 | the three scaled columns are numeric when the scaler runs |
| Titanic.OutputFeaturesAvailable | src/mlops/data/process_titanic.py:77 | every selected feature is a column by then |
| Titanic.ModelFeatureNames | src/mlops/data/process_titanic.py:63-66 | the model features are exactly the ten listed names |
| Titanic.FillMissingInPlace | src/mlops/data/process_titanic.py:22-24 | lines 22-24 on the frame fail exactly when the columns are not fillable, with the first exception, and otherwise leave the filled table |
| Titanic.AddTitleInPlace | src/mlops/data/process_titanic.py:27-48 | the title step fails exactly without a text `Name` column, and otherwise adds the mapped titles |
| Titanic.AddFamilyFeaturesInPlace | src/mlops/data/process_titanic.py:51-54 | the family step fails exactly without numeric `SibSp` and `Parch`, and otherwise adds both features |
| Titanic.FillKeeps | src/mlops/data/process_titanic.py:22-24 | filling leaves `Name`, `SibSp` and `Parch` as they were |
| Titanic.TitleKeeps | src/mlops/data/process_titanic.py:27-48 | adding the title leaves `SibSp` and `Parch` as they were |
| Titanic.PrepareInPlace | src/mlops/data/process_titanic.py:22-54 | lines 22-54 on the frame fail with the first exception or leave the prepared table |
| Titanic.SelectionMissesOnlyPclass | src/mlops/data/process_titanic.py:77 | after the earlier steps pass, the selection can only miss `Pclass` |
| Titanic.EncodingMissesOnlySex | src/mlops/data/process_titanic.py:57-60 | after the earlier steps pass, the encoding loop succeeds exactly when `Sex` is present, else raises KeyError for it |
| Titanic.EncodeScaleSelect | src/mlops/data/process_titanic.py:57-77 | encode, scale, select succeed exactly when `Sex` and `Pclass` are present, giving the encoded and scaled features in order |
| Titanic.SelectOutput | src/mlops/data/process_titanic.py:68-77 | the selection succeeds exactly when `Pclass` is present, giving the features in order |
| Titanic.SelectedOutput | src/mlops/data/process_titanic.py:68-77 | on the encoded and scaled table the selection succeeds exactly when `Pclass` is present, else raises KeyError for it, and gives the encoded and scaled features in order |
| Titanic.ProcessTitanic | src/mlops/data/process_titanic.py:18-93 | the step-by-step transform on the frame computes `TitanicTransform` |
| TitanicFacts.TitanicTransformResult | src/mlops/data/process_titanic.py:18-93 | the transform fails exactly on tables it does not accept, with the first exception; otherwise it writes one row per passenger, the ten features in order and `Survived` last when present, and it splits exactly when `Survived` is present |
| TitanicFacts.OutputColumn | src/mlops/data/process_titanic.py:57-77 | every written column is its prepared column, encoded and scaled as listed |
| TitanicFacts.ModelFeatureSelected | src/mlops/data/process_titanic.py:63-66 | the ten model features are always selected |
| TitanicFacts.KeptColumn | src/mlops/data/process_titanic.py:72-77 | `Pclass`, `SibSp`, `Parch` and `Survived` are written exactly as read |
| TitanicFacts.KeptName | src/mlops/data/process_titanic.py:63-74 | those columns are selected, and neither filled, derived, encoded nor scaled |
| TitanicFacts.KeptUnchanged | src/mlops/data/process_titanic.py:22-74 | a column no step touches comes out as it went in |
| TitanicFacts.PreparedIsAlone | src/mlops/data/process_titanic.py:54-74 | `IsAlone` is written from the unscaled family size and is not scaled |
| TitanicFacts.PreparedFamilySize | src/mlops/data/process_titanic.py:51-74 | `FamilySize` is written standardized |
| TitanicFacts.FamilySizeCell | src/mlops/data/process_titanic.py:51 | row `i` of the family sizes is `SibSp + Parch + 1` of row `i` |
| TitanicFacts.IsAloneFeature | src/mlops/data/process_titanic.py:51-54 | row `i` of `IsAlone` is 1 exactly when both counts are present and sum to 0 |
| TitanicFacts.AloneWithoutFamily | src/mlops/data/process_titanic.py:51-54 | one passenger is alone exactly when both counts are present and add up to zero |
| TitanicFacts.FamilySizeFeature | src/mlops/data/process_titanic.py:51-74 | row `i` of `FamilySize` is the standardized `SibSp + Parch + 1` |
| TitanicFacts.PreparedFilled | src/mlops/data/process_titanic.py:22-74 | `Age` and `Fare` are written median-filled and then standardized |
| TitanicFacts.MedianFilledCell | src/mlops/data/process_titanic.py:22-24 | row `i` after filling is the value if present, else the median, else missing when the column has no value |
| TitanicFacts.FilledScaled | src/mlops/data/process_titanic.py:22-74 | row `i` of `Age` or `Fare` is the standardized filled value |
| TitanicFacts.PreparedEncoded | src/mlops/data/process_titanic.py:57-60 | `Sex`, `Embarked` and `Title` are written encoded and not scaled |
| TitanicFacts.CatCells | src/mlops/data/process_titanic.py:60 | two cells of a text column are equal exactly when their values are |
| TitanicFacts.SexEncoded | src/mlops/data/process_titanic.py:57-60 | two passengers share a `Sex` code exactly when their recorded sex is equal, and the codes are 0..k-1 |
| TitanicFacts.EmbarkedEncoded | src/mlops/data/process_titanic.py:23-60 | `Embarked` is filled with its mode and encoded: nothing is missing, present ports are kept, and equal codes mean equal ports |
| TitanicFacts.TitleEncoded | src/mlops/data/process_titanic.py:27-60 | two passengers share a `Title` code exactly when their names give the same title |
| TitanicFacts.PreparedIgnoresMoments | src/mlops/data/process_titanic.py:22-54 | the columns before scaling depend only on the medians and modes |
| TitanicFacts.MomentsOnlyScale | src/mlops/data/process_titanic.py:72-74 | the scaler's moments reach no column but the three scaled ones |
| House.Combine | src/mlops/data/process_house.py:54-71 | a derived row is present exactly when every operand is |
| House.CombineStep | src/mlops/data/process_house.py:54-71 | the weighted sum of present cells unfolds term by term |
| House.LinearColumn | src/mlops/data/process_house.py:54-71 | a derived column exists exactly when every operand is a numeric column, otherwise the first bad operand raises; row by row it is the weighted sum |
| House.AddLinear | src/mlops/data/process_house.py:54 | the assignment of a derived column adds exactly that numeric column and fails like its operands |
| House.OperandError | src/mlops/data/process_house.py:54-71 | the exception is a KeyError for an absent operand or a TypeError for a text one; the first two operands are looked up before any operator, so an absent first or second operand is the KeyError; with every operand present it is a TypeError |
| House.StepError | src/mlops/data/process_house.py:54-71 | from operand `k` on, an absent operand `k` is the KeyError; a TypeError names a text operand; a text running total keeps concatenating under `+` |
| House.DerivedFeatureErrors | src/mlops/data/process_house.py:54-65 | a text `TotalBsmtSF` with no `1stFlrSF` raises KeyError('1stFlrSF'); two text operands concatenate before `2ndFlrSF` is looked up; `YrSold - YearBuilt` on text raises TypeError |
| House.DeriveAll | src/mlops/data/process_house.py:53-71 | the derived table keeps its height |
| House.Imputed | src/mlops/data/process_house.py:41-50 | both imputations keep the column names and height |
| House.AddLinearInPlace | src/mlops/data/process_house.py:54 | one derivation on the frame leaves what `AddLinear` says |
| House.AddDerivedInPlace | src/mlops/data/process_house.py:53-71 | the five assignments on the frame leave `WithDerived` of the frame |
| House.DeriveFirst | src/mlops/data/process_house.py:53-71 | the derivations run one after the other and the first failure stops them |
| House.TransformKept | src/mlops/data/process_house.py:86-94 | the table is split exactly when the written table still has `SalePrice` |
| House.ProcessHouse | src/mlops/data/process_house.py:25-94 | the step-by-step transform on the frame computes `HouseTransform` |
| House.EncodeScaleOutput | src/mlops/data/process_house.py:74-94 | the numeric columns are listed anew, the earlier text columns encoded, the numeric ones standardized, and the destination follows `SalePrice` |
| House.DerivationsIndependent | src/mlops/data/process_house.py:53-71 | no two derived features share a name and none reads a derived feature |
| House.ReadsNone | src/mlops/data/process_house.py:53-71 | no derivation reads any of the five derived names |
| House.SetKeepsOperands | src/mlops/data/process_house.py:53-71 | assigning a column a derivation does not read leaves that derivation unchanged |
| House.OperandErrorFrame | src/mlops/data/process_house.py:53-71 | the exception of a bad operand depends only on the operand columns |
| House.StepErrorFrame | src/mlops/data/process_house.py:53-71 | the exception of the operands from `k` on depends only on the operand columns |
| House.DeriveAllOk | src/mlops/data/process_house.py:53-71 | the derivations succeed exactly when every operand is a numeric column of the starting table |
| House.DeriveAllKeeps | src/mlops/data/process_house.py:53-71 | the derived table has the old columns plus the derived ones, and every old column not assigned is unchanged |
| House.DeriveAllAssigned | src/mlops/data/process_house.py:53-71 | each derived column is the weighted sum of its operands in the starting table |
| House.IndependentTail | src/mlops/data/process_house.py:53-71 | what the first derivation leaves, the others do not read |
| House.LinearComplete | src/mlops/data/process_house.py:45-71 | a weighted sum of complete columns is complete |
| HouseFacts.ImputedOk | src/mlops/data/process_house.py:41-50 | the imputations succeed exactly when there are rows, a numeric and a text column, and no column entirely missing |
| HouseFacts.KindListed | src/mlops/data/process_house.py:41-42 | a kind's list is non-empty exactly when a column of that kind exists |
| HouseFacts.ImputedColumns | src/mlops/data/process_house.py:45-50 | every column is imputed once by its kind's imputer, and none is added or removed |
| HouseFacts.ImputedColumn | src/mlops/data/process_house.py:45-50 | one column after both imputations |
| HouseFacts.OperandsSameKinds | src/mlops/data/process_house.py:45-71 | imputation keeps kinds, so it does not change which derivations succeed |
| HouseFacts.TransformKeptOk | src/mlops/data/process_house.py:41-83 | the steps after the drop fail exactly when the table is not accepted |
| HouseFacts.HouseTransformOk | src/mlops/data/process_house.py:25-83 | `process_house_data` fails exactly when the table left after the drop is not accepted |
| HouseFacts.DerivedColumns | src/mlops/data/process_house.py:45-71 | the derived table holds the imputed columns and the derived features, each the weighted sum of its imputed operands |
| HouseFacts.OutputColumns | src/mlops/data/process_house.py:74-83 | each written column is encoded if it was text before imputation, then standardized if numeric after derivation |
| HouseFacts.DestinationFollowsTarget | src/mlops/data/process_house.py:86-94 | the table is split exactly when the raw table has `SalePrice` |
| HouseFacts.TargetNotAssigned | src/mlops/data/process_house.py:28-71 | `SalePrice` is neither dropped nor derived |
| HouseFacts.WrittenColumns | src/mlops/data/process_house.py:28-83 | the written columns are the raw ones not dropped plus the derived ones; no dropped column is written |
| HouseFacts.DropListNotAssigned | src/mlops/data/process_house.py:28-71 | no derived feature has a dropped name |
| HouseFacts.DerivedComplete | src/mlops/data/process_house.py:45-71 | no column of the derived table misses a cell, so no derived value uses a missing input |
| HouseFacts.DerivedColumnComplete | src/mlops/data/process_house.py:45-71 | one derived-table column is complete |
| HouseFacts.OutputColumn | src/mlops/data/process_house.py:74-83 | one written column, as `OutputColumns` states |
| HouseFacts.TextColumnListed | src/mlops/data/process_house.py:42-79 | a text column of the derived table was listed before, so the loop encodes it |
| HouseFacts.OutputNumericComplete | src/mlops/data/process_house.py:45-83 | every written column is numeric and complete |
| HouseFacts.OutputColumnNumericComplete | src/mlops/data/process_house.py:45-83 | one written column is numeric and complete |
| HouseFacts.TextColumnEncoded | src/mlops/data/process_house.py:50-79 | a kept text column is written as the codes of its imputed values, and is not scaled |
| HouseFacts.NumericColumnScaled | src/mlops/data/process_house.py:46-83 | a kept numeric column is written standardized after imputation |
| HouseFacts.ImputedCells | src/mlops/data/process_house.py:46 | the operands' imputed cells are all present |
| HouseFacts.DerivedFeature | src/mlops/data/process_house.py:45-83 | row `i` of a derived feature is the standardized weighted sum of its operands' imputed cells |
| HouseFacts.DerivedScaled | src/mlops/data/process_house.py:54-83 | a derived feature is written as its standardized column |
| HouseFacts.ImputedOperands | src/mlops/data/process_house.py:46 | the operands' cells after imputation are the raw cells with medians filled in |
| HouseFacts.HouseOutputNumericComplete | src/mlops/data/process_house.py:25-83 | every column `process_house_data` writes is numeric with no missing cell |
| HouseFacts.KeptByDrop | src/mlops/data/process_house.py:38 | a raw column not on the drop list survives the drop unchanged |
| HouseFacts.HouseTextEncoded | src/mlops/data/process_house.py:38-79 | a kept raw text column is written as the codes of its mode-filled values |
| HouseFacts.HouseTextCodes | src/mlops/data/process_house.py:38-79 | two rows of such a column share a code exactly when their filled values are equal |
| HouseFacts.HouseNumericScaled | src/mlops/data/process_house.py:38-83 | a kept raw numeric column is written median-filled and standardized |
| HouseFacts.TargetScaled | src/mlops/data/process_house.py:74-83 | a numeric `SalePrice`, when present, is median-filled and standardized like every numeric column |
| HouseFacts.HouseDerivedFeature | src/mlops/data/process_house.py:25-83 | a derived feature is written as the standardized weighted sum of its operands' raw values, medians in place of missing ones |
| HouseFormulas.CombineTwo | src/mlops/data/process_house.py:65-66 | the weighted sum of two present cells |
| HouseFormulas.CombineThree | src/mlops/data/process_house.py:54 | the weighted sum of three present cells |
| HouseFormulas.CombineFour | src/mlops/data/process_house.py:57-71 | the weighted sum of four present cells |
| HouseFormulas.DerivedRow | src/mlops/data/process_house.py:53-71 | row `i` of each derived column is the weighted sum of row `i` of its operands |
| HouseFormulas.CellsTwo | src/mlops/data/process_house.py:65-66 | the operand cells of a two-operand row |
| HouseFormulas.CellsThree | src/mlops/data/process_house.py:54 | the operand cells of a three-operand row |
| HouseFormulas.CellsFour | src/mlops/data/process_house.py:57-71 | the operand cells of a four-operand row |
| HouseFormulas.CombineDifference | src/mlops/data/process_house.py:65-66 | weights 1 and -1 compute `a - b`, NaN when either is |
| HouseFormulas.CombineSumOfThree | src/mlops/data/process_house.py:54 | three unit weights compute `a + b + c` |
| HouseFormulas.CombineSumOfFour | src/mlops/data/process_house.py:69-71 | four unit weights compute `a + b + c + d` |
| HouseFormulas.CombineBathrooms | src/mlops/data/process_house.py:57-62 | weights 1, 0.5, 1, 0.5 compute `a + b * 0.5 + c + d * 0.5` |
| HouseFormulas.TotalSFFormula | src/mlops/data/process_house.py:54 | `TotalSF = TotalBsmtSF + 1stFlrSF + 2ndFlrSF` exactly, row by row |
| HouseFormulas.TotalBathroomsFormula | src/mlops/data/process_house.py:57-62 | `TotalBathrooms = FullBath + HalfBath * 0.5 + BsmtFullBath + BsmtHalfBath * 0.5` exactly |
| HouseFormulas.HouseAgeFormula | src/mlops/data/process_house.py:65 | `HouseAge = YrSold - YearBuilt` exactly |
| HouseFormulas.RemodAgeFormula | src/mlops/data/process_house.py:66 | `RemodAge = YrSold - YearRemodAdd` exactly |
| HouseFormulas.TotalPorchSFFormula | src/mlops/data/process_house.py:69-71 | `TotalPorchSF = OpenPorchSF + EnclosedPorch + 3SsnPorch + ScreenPorch` exactly |
| CompareModels.AddKeys | src/mlops/evaluation/compare_models.py:34 | adding a record's keys keeps earlier columns first and adds exactly the new keys, without repeats |
| CompareModels.Columns | src/mlops/evaluation/compare_models.py:34 | the frame's columns are exactly the keys of all records, without repeats |
| CompareModels.MetricsToPlot | src/mlops/evaluation/compare_models.py:40 | the charted metrics are exactly the keys other than `model_name`, without repeats |
| CompareModels.Capitalize | src/mlops/evaluation/compare_models.py:48 | capitalizing keeps the length |
| CompareModels.CapitalizeIdempotent | src/mlops/evaluation/compare_models.py:48 | capitalizing a capitalized name changes nothing |
| CompareModels.CapitalizeIgnoresCase | src/mlops/evaluation/compare_models.py:48 | names equal up to letter case capitalize alike |
| CompareModels.CaseFixed | src/mlops/evaluation/compare_models.py:48 | ASCII upper and lower case are idempotent, and upper case ignores the case it starts from |
| CompareModels.ChartFiles | src/mlops/evaluation/compare_models.py:42-49 | one chart file per metric, file `k` being that of metric `k` |
| CompareModels.CreateComparisonPlots | src/mlops/evaluation/compare_models.py:42-49 | one chart per charted metric, in metric order, at `Capitalize(dataset)_metric_comparison.png`, with no two charts sharing a file |
| CompareModels.ChartMetricRoundTrip | src/mlops/evaluation/compare_models.py:48 | the metric is read back from its chart's file name |
| CompareModels.ChartFileNameInjective | src/mlops/evaluation/compare_models.py:48 | different metrics never share a chart file |
| CompareModels.ChartFilesDistinct | src/mlops/evaluation/compare_models.py:42-49 | distinct metrics give distinct files |
| CompareModels.DatasetPrefixes | src/mlops/evaluation/compare_models.py:127-128 | the dataset names passed are already capitalized |
| CompareModels.ColumnsPrefix | src/mlops/evaluation/compare_models.py:34 | a later record only appends columns; earlier ones keep their place |
| CompareModels.OneRecordColumns | src/mlops/evaluation/compare_models.py:34 | one record's columns are its keys in its own order |
| CompareModels.AddKeysFresh | src/mlops/evaluation/compare_models.py:34 | keys none of which is present are appended in order |
| CompareModels.MetricsAreColumnsWithoutModelName | src/mlops/evaluation/compare_models.py:40 | the charted metrics are the columns with `model_name` taken out of its place and nothing else moved |
| CompareModels.DropOne | src/mlops/evaluation/compare_models.py:40 | removing one name by value from a duplicate-free list removes that position only |
| CompareModels.RowMetrics | src/mlops/evaluation/compare_models.py:75 | a table row shows four metrics |
| CompareModels.Numbers | src/mlops/evaluation/compare_models.py:75 | one number per formatted metric |
| CompareModels.Rows | src/mlops/evaluation/compare_models.py:74-75 | one row of four numbers per record |
| CompareModels.NumbersLength | src/mlops/evaluation/compare_models.py:75 | a record's row holds four numbers |
| CompareModels.Scores | src/mlops/evaluation/compare_models.py:98 | one score per row |
| CompareModels.FirstArgMax | src/mlops/evaluation/compare_models.py:98 | `max` with a key picks a maximal score with no earlier score equal to it |
| CompareModels.GenerateReport | src/mlops/evaluation/compare_models.py:52-112 | the report built by `+=` in two loops is `Report` |
| CompareModels.AppendRows | src/mlops/evaluation/compare_models.py:74-75 | the loop appends all rows in order and returns them, or fails with the first record's exception |
| CompareModels.RowsStep | src/mlops/evaluation/compare_models.py:74-75 | one more record with a row extends the rows by it |
| CompareModels.RowsStop | src/mlops/evaluation/compare_models.py:74-75 | the first record without a row decides the exception |
| CompareModels.NumbersOk | src/mlops/evaluation/compare_models.py:75 | a row's numbers exist exactly when every metric is present and a number, and they are the metrics in order; otherwise the first bad metric raises KeyError or a format error |
| CompareModels.RowOfOk | src/mlops/evaluation/compare_models.py:75 | a record has a row exactly when it has a model name and four numeric metrics; the row is that name and those metrics |
| CompareModels.Table | src/mlops/evaluation/compare_models.py:74-75 | one row per record |
| CompareModels.RowsEach | src/mlops/evaluation/compare_models.py:74-75 | the rows exist exactly when each record's row does, and row `k` is record `k`'s |
| CompareModels.RowsOk | src/mlops/evaluation/compare_models.py:74-75 | the rows exist exactly when every record has all keys as numbers, and are then the records' rows in input order |
| CompareModels.RowsFirstError | src/mlops/evaluation/compare_models.py:74-75 | when a record lacks a key, the first such record decides the exception |
| CompareModels.FirstRejected | src/mlops/evaluation/compare_models.py:74-75 | the first record without a row, with every earlier one accepted |
| CompareModels.ReportOk | src/mlops/evaluation/compare_models.py:74-109 | the report is produced exactly when both lists are non-empty and every record has its four metrics as numbers and a model name |
| CompareModels.FirstBestUnique | src/mlops/evaluation/compare_models.py:98 | at most one record is the first with the maximal score |
| CompareModels.ReportLayout | src/mlops/evaluation/compare_models.py:64-110 | sections in fixed order: Titanic heading and one row per Titanic record in input order, House heading and rows, then the two analysis headings |
| CompareModels.ReportBest | src/mlops/evaluation/compare_models.py:97-110 | each best-model line names the first record with the maximal `f1` or `r2` and shows that score |
| CompareModels.BestLine | src/mlops/evaluation/compare_models.py:98 | the best-model line of accepted records is that of the first maximal record |

## Left out

- File I/O is not modelled: `read_csv`, `to_csv`, `json.load`, `mkdir`, writing the report, and the `__main__` blocks. The raw table and the metrics records are parameters. The output says where the table would be written.
- The train/validation split (`train_test_split`, with stratification) is not modelled. The model only decides whether the table is split or written whole (`Steps.DestinationFor`).
- The statistics the libraries compute are parameters (`Tables.Stats`): medians, modes (pandas' tie-breaking) and the StandardScaler mean and deviation (square root, floating point). The model fixes which columns are filled or scaled, and with which statistic.
- Floating point is not modelled: numbers are exact reals, and NaN is a missing cell.
- The Titanic median of a column with no value is NaN in pandas. The model leaves such a column missing without computing a median.
- pandas dtype inference is not modelled. Each column carries its kind. Booleans, datetimes and mixed object columns are not modelled.
- House.LinearColumn: a derived sum whose operands are all text and joined by `+` (every operand of `TotalSF` or `TotalPorchSF`) is the `NotNumeric` error. pandas concatenates the strings without raising, and the column is then written as text, neither encoded nor scaled. A text-valued derived column would change what every derived-feature lemma states, so the model does not represent it. Up to that point the order of the exceptions is kept, concatenation of a text prefix included (`House.StepError`).
- `LabelEncoder` and a missing cell: a missing value counts as one more value that sorts last. This matches current scikit-learn, which is not part of this model.
- String order is by code point, as Python's `str` order is.
- Plotting is not modelled: bar plots, titles, tick rotation and layout. `CompareModels.CreateComparisonPlots` keeps only the names of the files saved. A record without `model_name` would make the bar plot fail. That is not modelled, since drawing is left out.
- CompareModels.Capitalize: models `str.capitalize` on ASCII letters only. Python also maps other Unicode letters and title-cases the first character.
- The report's formatted text (`:.3f`, `:.0f`, the fixed Markdown prose) is not modelled. The report is a sequence of headings, rows of numbers and best-model lines.
- A JSON `true`/`false` metric value is not modelled: Python would format it as a number. A value is a number, text or null.
- The model training scripts `src/mlops/models/train_house.py` and `src/mlops/models/train_titanic.py` are left out. So are `src/test.py` and `tests/test_core.py`. They are thin calls into libraries, or unrelated.
- HouseFacts.HouseTransformOk: states when the transform fails, but not which exception it raises first. `House.OperandError` and `Steps.EncodeColumnsError` give the first exception of the individual steps.
