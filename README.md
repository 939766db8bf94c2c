# VIIRS burned-area thresholding: a verified model

This project models the core of the VIIRS burned-area processor. It covers
the per-granule thresholding of the 750 m VIIRS bands and the configuration
machinery around it.

Thresholding is the work of `ba_threshold`:
- correct the M07, M08, M10 and M11 reflectances;
- mask out fill values, active fires and night pixels;
- test each pixel against band windows and a guarded M08/M11 ratio.

The geolocation and active-fire files feed it:
- windowing and coordinate lists;
- the non-fire mask;
- the 375 m fire conditional, with its per-row recoding of high-confidence fires.

The configuration side covers:
- the 12-entry parameter vector (`get_vector`);
- merging a vector into a template (`merge_into_template`), with the fixed fields, the run id and the output directory (`perturb_dir`);
- sequential and hash run ids;
- the ini view of a configuration (`get_ini_obj`);
- the two batch planners of the brute-force search (`inc_idx`, `reflectance_deltas`, `create_params`).

Files:
- `grid.dfy`: snapshots of two-dimensional arrays.
- `reflectance.dfy`: `VIIRSReflectanceFile`.
- `geo.dfy`: `GeoFile`.
- `activefire.dfy`: `ActiveFire` and `ActiveFire375`.
- `threshold.dfy`: `ba_threshold`.
- `latlonlist.dfy`: `array2list`.
- `common.dfy`: Python string, integer and path helpers.
- `config.dfy`: `scripts/viirs_config.py`.
- `brute.dfy`: `scripts/viirs_brute.py`.

The file objects are classes whose methods update their fields in place. The numpy arrays are `array2`s, and `inc_idx` works on an `array<int>`. The configuration code is modelled on values: a configuration object is its class plus a map from attribute to value. The run counter is a class.

## Model

| member | source | states |
|---|---|---|
| Reflectance.VIIRSReflectanceFile.Load | scripts/VIIRS_threshold_reflCor_Bulk.py:482-492 | a loaded band keeps the raw counts and the two reflectance factors, is not yet corrected, and its quality mask is true exactly where the raw count is below the 65528 fill value |
| Reflectance.VIIRSReflectanceFile.CalcQaMask | scripts/VIIRS_threshold_reflCor_Bulk.py:494-498 | the new quality mask is true exactly at cells whose count is below 65528; nothing else changes |
| Reflectance.VIIRSReflectanceFile.GetCorRefl | scripts/VIIRS_threshold_reflCor_Bulk.py:500-506 | the first call replaces the array by a fresh array of corrected values, and later calls return that same array unchanged (correction happens at most once); the mask, counts and factors are kept |
| Reflectance.ScaledCopy | scripts/VIIRS_threshold_reflCor_Bulk.py:504 | a new array of the same shape holding `count * scale + offset` at every cell |
| Reflectance.VIIRSReflectanceFile.CorrectedCells | scripts/VIIRS_threshold_reflCor_Bulk.py:494-506 | once corrected, every cell holds its raw count times scale plus offset, and the mask still describes the raw counts |
| Geo.GeoFile.Load750 | scripts/VIIRS_threshold_reflCor_Bulk.py:547-553 | the 750 m geolocation holds latitude, longitude and solar zenith |
| Geo.GeoFile.Load375 | scripts/VIIRS_threshold_reflCor_Bulk.py:561-566 | the 375 m geolocation holds latitude and longitude and no solar zenith |
| Geo.GeoFile.ApplyWindow | scripts/VIIRS_threshold_reflCor_Bulk.py:514-524 | with a window, exactly the cells strictly outside one of its four edges are cleared and every other cell keeps its value; without a window the mask is unchanged |
| Geo.GeoFile.MakeList | scripts/VIIRS_threshold_reflCor_Bulk.py:526-532 | the list holds the latitude and longitude of the cells marked 1, in the row-major order `np.where` reports them |
| Geo.GeoFile.RowList | scripts/VIIRS_threshold_reflCor_Bulk.py:531-532 | one row of that list: the coordinates of the row's cells marked 1, left to right |
| Geo.OnesComplete | scripts/VIIRS_threshold_reflCor_Bulk.py:526-532 | no cell marked 1 is missing from the cells `make_list` reads |
| Geo.OnesSorted | scripts/VIIRS_threshold_reflCor_Bulk.py:526-532 | those cells come in strict row-major order, so none is listed twice |
| Geo.OnesCount | scripts/VIIRS_threshold_reflCor_Bulk.py:526-532 | the list has exactly one entry per cell marked 1 |
| Geo.GeoFile.DayPixels | scripts/VIIRS_threshold_reflCor_Bulk.py:534-537 | a new mask, true exactly where the solar zenith angle is below the limit |
| ActiveFires.ActiveFire.Load | scripts/VIIRS_threshold_reflCor_Bulk.py:634-640 | a loaded fire mask has no cached conditional and no cached row sums |
| ActiveFires.ActiveFire.GetConditional | scripts/VIIRS_threshold_reflCor_Bulk.py:593-602 | the first call builds and caches a new array that is 1 exactly at fire codes 7, 8 and 9 and 0 elsewhere; later calls return the cached array |
| ActiveFires.ActiveFire.FilterConditional | scripts/VIIRS_threshold_reflCor_Bulk.py:604-607 | cells whose fire code equals the value are cleared and every other cell keeps its value |
| ActiveFires.ActiveFire.GetNonFire | scripts/VIIRS_threshold_reflCor_Bulk.py:609-610 | a new mask, true exactly where the fire code is 5 (clear land) |
| ActiveFires.ActiveFire.CountHighConfidence | scripts/VIIRS_threshold_reflCor_Bulk.py:659-664 | the first call caches the number of code-9 pixels in each row; later calls return the cache |
| ActiveFires.ActiveFire.RowSums | scripts/VIIRS_threshold_reflCor_Bulk.py:663 | the number of code-9 pixels in each row |
| ActiveFires.ActiveFire.RowCount | scripts/VIIRS_threshold_reflCor_Bulk.py:663 | the number of code-9 pixels in one row |
| ActiveFires.ActiveFire.RecodeHighConfidence | scripts/VIIRS_threshold_reflCor_Bulk.py:666-677 | in every row with more than `threshold` high-confidence fires (counted from the cached sums), those fires are replaced by the recode value stored as uint8; all other cells are unchanged |
| ActiveFires.ActiveFire.RecodeRows | scripts/VIIRS_threshold_reflCor_Bulk.py:673-677 | the recoding loop, given the row sums |
| ActiveFires.ActiveFire.GetConditional375 | scripts/VIIRS_threshold_reflCor_Bulk.py:679-687 | the conditional is taken, and cached, from the fire mask as it was before any recoding; then, with a threshold, the noisy rows of the mask are recoded; without one the mask and the row sums are untouched |
| ActiveFires.FireMask375 | scripts/VIIRS_threshold_reflCor_Bulk.py:791-794 | on a freshly loaded 375 m mask, a pixel is kept exactly when it is a fire (code 7, 8 or 9) and, under a row limit, is not a high-confidence fire in a row with more of them than the limit: the recoded pixels become 10 and `filter_conditional(AfCon, 10)` clears them |
| ActiveFires.Uint8 | scripts/VIIRS_threshold_reflCor_Bulk.py:676 | the stored byte is the value modulo 256, in 0..255 |
| ActiveFires.CountOf | scripts/VIIRS_threshold_reflCor_Bulk.py:663 | at most the row length, and zero exactly when the value does not occur |
| ActiveFires.CountOfPositions | scripts/VIIRS_threshold_reflCor_Bulk.py:663 | the count equals the number of positions holding the value |
| ActiveFires.RecodeIdempotent | scripts/VIIRS_threshold_reflCor_Bulk.py:659-677 | recoding a second time with the cached (stale) row sums changes nothing more |
| ActiveFires.RecodeKeepsQuietRow | scripts/VIIRS_threshold_reflCor_Bulk.py:666-677 | a row with at most `threshold` high-confidence fires is left exactly as it was |
| ActiveFires.RecodeClearsNoisyRow | scripts/VIIRS_threshold_reflCor_Bulk.py:666-677 | a row over the threshold has no high-confidence fire left, unless the recode value itself stores as 9 |
| Threshold.BaThreshold | scripts/VIIRS_threshold_reflCor_Bulk.py:334-365 | every band ends up corrected (at most once each); the new mask has the grid's shape and is 1 exactly at the pixels that pass the burned-area test on the corrected bands, the non-fire mask, the day mask and the four quality masks |
| Threshold.CorrectAll | scripts/VIIRS_threshold_reflCor_Bulk.py:337-340 | the four `get_cor_refl` calls: each band is corrected, keeps its counts, factors, mask and shape, and the returned arrays are the bands' own |
| Threshold.CorrectPair | scripts/VIIRS_threshold_reflCor_Bulk.py:337-340 | two of those calls on two different band files |
| Threshold.Combine | scripts/VIIRS_threshold_reflCor_Bulk.py:344-363 | a new all-zero mask set to 1 exactly where every condition of the test holds |
| Threshold.BurnedPixelMeaning | scripts/VIIRS_threshold_reflCor_Bulk.py:351-363 | a pixel passes exactly when it lies in the band windows, M11 is nonzero, the ratio (M08 - RthSub) / M11 lies in [RthLB, Rth), it is a daytime non-fire pixel and all four quality flags hold |
| Threshold.ZeroM11NeverBurned | scripts/VIIRS_threshold_reflCor_Bulk.py:358-359 | where M11 is zero the division guard's fallbacks fail the ratio tests, so no such pixel is burned whatever the thresholds |
| LatLonLists.Array2ListAsWritten | scripts/VIIRS_threshold_reflCor_Bulk.py:130-136 | every pair returned is one of the input pairs |
| LatLonLists.Array2ListAsWrittenKeepsPairs | scripts/VIIRS_threshold_reflCor_Bulk.py:130-136 | when no coordinate is zero, the function returns every pair in order |
| LatLonLists.Array2ListAsWrittenMisaligned | scripts/VIIRS_threshold_reflCor_Bulk.py:130-136 | on [(1,0),(2,0),(3,4)] it returns (1,0) and (3,4), while the older filter keeps (3,4) alone |
| LatLonLists.Array2List | scripts/VIIRS_threshold_reflCor_Bulk.py:120-126 | the pairs whose two coordinates are nonzero, in input order |
| LatLonLists.KeepNonzeroMembers | scripts/VIIRS_threshold_reflCor_Bulk.py:120-126 | a pair is kept exactly when it occurs with two nonzero coordinates |
| LatLonLists.KeepNonzeroAll | scripts/VIIRS_threshold_reflCor_Bulk.py:120-136 | where no coordinate is zero the filter keeps every pair, which agrees with the current function |
| Config.VectorIndex | scripts/viirs_config.py:24-30 | the position of a vector parameter in the namedtuple |
| Config.Truncate | scripts/viirs_config.py:199-200 | `int()` of a float truncates toward zero |
| Config.CoerceParam | scripts/viirs_config.py:196-200 | a float parameter becomes a float and an int parameter an int; a missing attribute raises AttributeError naming it |
| Config.CoerceFrom | scripts/viirs_config.py:196-200 | succeeds exactly when every remaining parameter converts, and then holds the converted values in order |
| Config.CoerceFromFirstFailure | scripts/viirs_config.py:196-200 | a failure is the error of the first parameter that fails |
| Config.VectorOf | scripts/viirs_config.py:191-201 | the vector exists exactly when all 12 parameters convert, and then holds each one's converted value |
| Config.FirstFailure | scripts/viirs_config.py:196-200 | `get_vector` raises the error of the first parameter, in namedtuple order, that fails to convert |
| Config.GetVector | scripts/viirs_config.py:191-201 | the two loops return exactly `VectorOf` |
| Config.CoerceFloats | scripts/viirs_config.py:197-198 | the float loop either fails with `get_vector`'s error or maps every float parameter to its converted value |
| Config.CoerceInts | scripts/viirs_config.py:199-200 | the int loop does the same for the two int parameters |
| Config.RunCounter.CreateRunId | scripts/viirs_config.py:207-211 | returns the counter's current value and increments it |
| Config.PerturbDirName | scripts/viirs_config.py:119-125 | the last path component of a perturbed directory is the run id in decimal |
| Config.PerturbDirSameParent | scripts/viirs_config.py:119-125 | every run directory lives in the template directory's parent |
| Config.PerturbDirInjective | scripts/viirs_config.py:119-125 | distinct run ids give distinct directories |
| Config.PerturbDirExample | scripts/tests/test_viirs_config.py:247-250 | the code names the directory after the bare id ("/hey/there/Ima/7"), not "Run_7" |
| Config.FieldLists | scripts/viirs_config.py:24-30 | the fixed-field and vector-parameter lists name exactly those fields |
| Config.MissingFrom | scripts/viirs_config.py:42-56 | the first fixed field the template lacks, if any |
| Config.NoneMissing | scripts/viirs_config.py:42-56 | no fixed field is missing exactly when every fixed field is present |
| Config.FixedCopy | scripts/viirs_config.py:42-56 | exactly the fixed fields, with the template's values |
| Config.VectorAttrs | scripts/viirs_config.py:59-60 | exactly the vector parameters, with the vector's values |
| Config.FixedIsNotSet | scripts/viirs_config.py:42-65 | the fixed fields, the vector parameters, `run_id` and `ShapePath` do not overlap |
| Config.Merged | scripts/viirs_config.py:34-68 | the merge succeeds exactly when the template has every fixed field and a text `ShapePath`; otherwise it raises AttributeError for the first missing field; the result has the requested class |
| Config.MergedKeys | scripts/viirs_config.py:34-68 | a merged object holds exactly the fixed fields, the vector parameters, `run_id` and `ShapePath`, and never `DBschema` |
| Config.MergedCopiesTemplate | scripts/viirs_config.py:42-56 | every fixed field is copied unchanged from the template |
| Config.MergedCarriesVector | scripts/viirs_config.py:59-60 | every vector parameter holds the vector's value |
| Config.MergedRunIdentity | scripts/viirs_config.py:63-65 | the run id is set, and `ShapePath` is the template's directory renamed to the run id, in the same parent |
| Config.AssembledAttrs | scripts/viirs_config.py:42-60 | a map built field by field from the fixed fields and the vector equals their union |
| Config.CopyFixedFields | scripts/viirs_config.py:42-56 | either raises for the first missing fixed field, or returns exactly the fixed fields with the template's values |
| Config.GraftVector | scripts/viirs_config.py:59-60 | the loop adds exactly the vector's parameters to the copied fields |
| Config.MergeIntoTemplate | scripts/viirs_config.py:34-68 | returns `Merged` with the id the class hands out; the sequential counter advances exactly when the run id is requested, that is when no fixed field is missing |
| Config.MergeThenGetVector | scripts/viirs_config.py:34-68 | `get_vector` of a merged object gives back the vector merged in |
| Config.VectorOfCarried | scripts/viirs_config.py:191-201 | an object whose parameters hold a well-typed vector yields that vector |
| Config.Get | scripts/viirs_config.py:135-182 | `getattr` succeeds exactly for a present attribute and raises AttributeError otherwise |
| Config.FloatOptions | scripts/viirs_config.py:147-157 | on success there is one formatted option per parameter, in order |
| Config.FloatOptionsSucceed | scripts/viirs_config.py:147-157 | the [Thresholds] options succeed exactly when every parameter is present and a float or an int |
| Config.FloatOptionsValues | scripts/viirs_config.py:147-157 | each option is the formatted value of its parameter |
| Config.InDirectorySection | scripts/viirs_config.py:140-141 | succeeds exactly when `BaseDir` is set |
| Config.ActiveFireSection | scripts/viirs_config.py:143-145 | succeeds exactly when both flags are text |
| Config.ThresholdsSection | scripts/viirs_config.py:147-157 | succeeds exactly when every float parameter is a float or an int |
| Config.ConfirmBurnSection | scripts/viirs_config.py:159-163 | succeeds exactly when both proximities are ints |
| Config.OutputFlagsSection | scripts/viirs_config.py:165-170 | succeeds exactly when every flag and path is text |
| Config.ImageDatesSection | scripts/viirs_config.py:172-173 | succeeds exactly when the dates are a list of text or a text |
| Config.DataBaseSection | scripts/viirs_config.py:175-180 | succeeds exactly when the four connection settings are set |
| Config.IniObj | scripts/viirs_config.py:135-182 | succeeds exactly when every section does, and then holds the seven sections in order under their names |
| Config.OptionNames | scripts/viirs_config.py:135-182 | the option names of a section, in order |
| Config.IniHostIffNotNone | scripts/viirs_config.py:175-180 | the database section has a host option exactly when `DBhost` is not None |
| Config.DataBaseHost | scripts/viirs_config.py:175-180 | the database options, with the host only when one is set |
| Config.IniFlagsLowerCased | scripts/viirs_config.py:143-170 | every ActiveFire and OutputFlags option is written lower-cased |
| Config.IniProximitiesRoundTrip | scripts/viirs_config.py:159-163 | the two proximity options parse back to the configured ints |
| Config.IniImageDatesRoundTrip | scripts/viirs_config.py:172-173 | a non-empty date list without commas splits back into itself |
| Config.IniEmptyImageDates | scripts/viirs_config.py:172-173 | an empty date list is written as "" and splits back into [""], not [] |
| Config.IniThresholdsCarryVector | scripts/viirs_config.py:147-157 | a successful ini view implies `get_vector` succeeds, and each threshold option is the formatted float of the vector |
| PyText.LowerIsLower | scripts/viirs_config.py:145 | `lower()` leaves no upper-case letter |
| PyText.ParseFormatInt | scripts/viirs_config.py:161-162 | a decimal formatted int parses back to itself |
| PyText.FormatIntInjective | scripts/viirs_config.py:124 | distinct ints format differently |
| PyText.SplitJoin | scripts/viirs_config.py:172-173 | splitting a non-empty comma-free list's join gives the list back |
| PyText.JoinSplit | scripts/viirs_config.py:104 | joining the split of a text gives the text back |
| PyText.EmptyListDoesNotRoundTrip | scripts/viirs_config.py:172-173 | the join of [] splits into [""] |
| PyText.JoinBasename | scripts/viirs_config.py:124 | the last component of `join(d, name)` is `name` for a component without slashes |
| PyText.JoinDirname | scripts/viirs_config.py:124 | the directory part of that join is `d` |
| Brute.Inc | scripts/viirs_brute.py:9-21 | the increment keeps the number of digits |
| Brute.IncCarry | scripts/viirs_brute.py:12-19 | the overflowing low digits become 0 and the first non-overflowing digit gains one; the rest are kept |
| Brute.IncWrap | scripts/viirs_brute.py:20-21 | when every digit overflows, the whole vector wraps to zeros |
| Brute.IncIdx | scripts/viirs_brute.py:9-21 | the array is incremented in place to `Inc` of its old contents |
| Brute.CarryLoop | scripts/viirs_brute.py:12-19 | the loop bumps digit 0, then resets each overflowed digit and carries, stopping at the first digit in range or at the end |
| Brute.IncValue | scripts/viirs_brute.py:9-21 | on in-range digits the increment adds one modulo maxval^len, and the digits stay in range |
| Brute.ValInjective | scripts/viirs_brute.py:9-21 | in-range digit vectors denoting the same number are equal |
| Brute.IterValue | scripts/viirs_brute.py:9-21 | n increments from zeros reach the digits of n |
| Brute.OdometerDistinct | scripts/viirs_brute.py:78-95 | the first maxval^len states of repeated incrementing are pairwise distinct |
| Brute.OdometerNoEarlyZero | scripts/viirs_brute.py:94-95 | none of them after the start is all zeros |
| Brute.OdometerCovers | scripts/viirs_brute.py:78-95 | every in-range digit vector is reached, at the number it denotes |
| Brute.OdometerWraps | scripts/viirs_brute.py:94-95 | after maxval^len increments the vector is all zeros again |
| Brute.Slot | scripts/viirs_brute.py:71-72 | the position of a vector field among the five raw reflectance thresholds |
| Brute.Perturbed | scripts/viirs_brute.py:82-88 | each of the five raw reflectance thresholds moves by its multiplier (-1, 0 or +1) times delta, and every other parameter is kept |
| Brute.DeltaDigits | scripts/viirs_brute.py:78-95 | the index vector stays a valid multiplier choice, and returns to all zeros exactly after 243 increments |
| Brute.ReflectanceDeltas | scripts/viirs_brute.py:49-97 | `get_vector`'s error is passed on without using the counter; a merge that raises ends the run with its error, and the counter has advanced by one exactly when every copied field was present, so that only `ShapePath` failed after the run id was taken; otherwise exactly 243 configurations, the n-th being the n-th perturbation merged with run id counter+n |
| Brute.DeltaStep | scripts/viirs_brute.py:82-91 | one loop pass: the perturbation for the current index vector, merged |
| Brute.DeltaConfigs | scripts/viirs_brute.py:78-95 | the loop yields the 243 merged perturbations in odometer order, and the counter advances by 243 |
| Brute.DeltaPlanCovers | scripts/viirs_brute.py:78-95 | every multiplier choice appears in the plan at exactly one position |
| Brute.DeltaPlanReference | scripts/viirs_brute.py:78-95 | the unperturbed reference vector is in the plan, at position 121 |
| Brute.DeltaPlanFirst | scripts/viirs_brute.py:78-95 | the plan starts with every threshold at -delta |
| Brute.DeltaPlanLast | scripts/viirs_brute.py:78-95 | the plan ends, at position 242, with every threshold at +delta |
| Brute.DeltaConfigContents | scripts/viirs_brute.py:82-91 | the n-th configuration holds the n-th perturbed vector, run id run0+n and a directory named after it |
| Brute.SequentialMergeContents | scripts/viirs_config.py:34-68 | a sequential merge of a well-typed vector reads back as that vector, with its run id and run directory |
| Brute.SequentialMergeVector | scripts/viirs_config.py:34-68 | a sequential merge of a well-typed vector reads back as that vector |
| Brute.GridVector | scripts/viirs_brute.py:113-116 | RthSub and Rth are replaced and every other parameter is kept |
| Brute.GridIndex | scripts/viirs_brute.py:113-116 | a grid position splits into a valid row and column |
| Brute.GridIndexOf | scripts/viirs_brute.py:113-116 | row i, column j sits at position i*cols+j, which splits back into i and j |
| Brute.GridStep | scripts/viirs_brute.py:115-116 | one inner-loop pass: the grid vector merged |
| Brute.GridConfigs | scripts/viirs_brute.py:113-116 | RthSub outer by Rth inner: an empty grid gives [], a failing merge its error, otherwise one configuration per grid cell in row-major order with consecutive run ids |
| Brute.CreateParams | scripts/viirs_brute.py:101-118 | `get_vector`'s error is passed on; otherwise the 3 x 5 grid gives 15 configurations and the counter advances by 15, or the first merge's error, with the counter advanced by one exactly when every copied field was present, so that only `ShapePath` failed after the run id was taken |
| Brute.GridConfigContents | scripts/viirs_brute.py:113-116 | the configuration at row i, column j carries the template's vector with RthSub[i] and Rth[j], and run id run0+n |
| Brute.GridConfigAt | scripts/viirs_brute.py:113-116 | the configuration at position n is the merge of the row-i, column-j vector |
| Config.PerturbDir | scripts/viirs_config.py:119-125 | the new output directory is the run id's decimal text joined onto the parent directory of the example path |
| Config.RunCounter.constructor | scripts/viirs_config.py:204 | the class-level counter `_run` starts at 0 |
| Config.RunIdFor | scripts/viirs_config.py:203-211 | a `SequentialVIIRSConfig` takes the counter's current value as run id, a `VIIRSConfig` takes the object's hash (lines 128-133) |
| Config.ToFloat | scripts/viirs_config.py:198 | `float()` of a float is itself, of an int its real value, of text the parsed number or a ValueError, of anything else a TypeError |
| Config.ToInt | scripts/viirs_config.py:200 | `int()` of an int is itself, of a float its truncation toward zero, of text the parsed integer or a ValueError, of anything else a TypeError |
| Config.IsFixed | scripts/viirs_config.py:42-56 | the twelve attributes copied unchanged from the template |
| Config.IsVectorParam | scripts/viirs_config.py:24-28 | the ten float and two int parameter names of the vector |
| Config.VectorIndexInverse | scripts/viirs_config.py:24-30 | the k-th vector field name has index k, is a vector parameter and is not a copied field |
| Config.MergeSucceeds | scripts/viirs_config.py:34-68 | the merge reads every copied field and the template's `ShapePath` text; it raises AttributeError otherwise |
| Config.MergedAttrs | scripts/viirs_config.py:40-65 | the merged object's attributes: the copied fields, the vector fields, `run_id` and `ShapePath` |
| Config.MergedAttrsKeys | scripts/viirs_config.py:40-65 | the merged object has exactly the copied fields, the vector fields, `run_id` and `ShapePath` |
| Config.FixedInMergedAttrs | scripts/viirs_config.py:42-56 | every copied field keeps the template's value |
| Config.VectorInMergedAttrs | scripts/viirs_config.py:59-60 | every vector field takes the vector's value |
| Config.SetInMergedAttrs | scripts/viirs_config.py:63-65 | `run_id` is the new run id and `ShapePath` the perturbed directory |
| Config.AllFixedFieldsIn | scripts/viirs_config.py:42-56 | a map holding the twelve listed names holds every copied field |
| Config.Opt | scripts/viirs_config.py:141 | `ini.set` stores an option under its lower-cased name |
| Config.HasText | scripts/viirs_config.py:143-145 | the attribute is present and holds text |
| Config.LowerText | scripts/viirs_config.py:144 | `.lower()` of text is its lower-case form; other values have no such method |
| Config.LowerCased | scripts/viirs_config.py:166-170 | a value is text with no upper-case letter, as every `.lower()` result is |
| Config.FloatText | scripts/viirs_config.py:148 | `'{:4.2f}'.format` accepts a float or an int and rejects anything else |
| Config.IntText | scripts/viirs_config.py:161 | `'{:d}'.format` accepts an int only and gives its decimal text |
| Config.JoinText | scripts/viirs_config.py:173 | `','.join` of a list of text joins the items with commas; a single text is joined character by character |
| Threshold.GuardedRatio | scripts/VIIRS_threshold_reflCor_Bulk.py:358-359 | the ratio `(M08 - RthSub) / M11` where M11 is nonzero, and the fallback value where it is zero |
| Threshold.BurnedPixel | scripts/VIIRS_threshold_reflCor_Bulk.py:351-363 | a pixel is burned exactly when all six band bounds, both ratio tests, the non-fire test, the day test and the four quality masks hold |
| Threshold.Aligned | scripts/VIIRS_threshold_reflCor_Bulk.py:337-362 | the four bands, their quality masks, the fire mask and the solar zenith array have one shape |
| Threshold.Distinct | scripts/VIIRS_threshold_reflCor_Bulk.py:337-340 | the four band objects are different objects |
| Threshold.PixelAt | scripts/VIIRS_threshold_reflCor_Bulk.py:351-362 | the values the thresholding reads at one cell: four corrected reflectances, the fire mask, the solar zenith and the four quality flags |
| Threshold.Unaltered | scripts/VIIRS_threshold_reflCor_Bulk.py:500-506 | a band still holds the given counts, factors and mask, and an array of the given array's shape |
| Geo.Outside | scripts/VIIRS_threshold_reflCor_Bulk.py:519-524 | a point is outside the window when it is north, south, west or east of it |
| Geo.RowOnes | scripts/VIIRS_threshold_reflCor_Bulk.py:531 | the positions of one row holding 1, from a given column on |
| Geo.Ones | scripts/VIIRS_threshold_reflCor_Bulk.py:531 | `np.where(confirmed == 1)`: every listed position holds 1, row by row |
| Geo.OnesUnfold | scripts/VIIRS_threshold_reflCor_Bulk.py:531 | the positions of a grid are those of its first row followed by those of the rest |
| Geo.OnesStep | scripts/VIIRS_threshold_reflCor_Bulk.py:531-532 | appending the 1-cells from row i on to any collected list equals appending row i's 1-cells, then the 1-cells after row i |
| Geo.OneCells | scripts/VIIRS_threshold_reflCor_Bulk.py:531 | the set of cells holding 1 |
| Geo.Before | scripts/VIIRS_threshold_reflCor_Bulk.py:531 | row-major order of two cells |
| Geo.RowMajor | scripts/VIIRS_threshold_reflCor_Bulk.py:531 | a list of cells is strictly increasing in row-major order, as `np.where` returns it |
| Geo.RowOnesComplete | scripts/VIIRS_threshold_reflCor_Bulk.py:531 | every 1 in the row at or after the start column is listed |
| Geo.RowOnesSorted | scripts/VIIRS_threshold_reflCor_Bulk.py:531 | a row's positions come in increasing column order |
| Geo.SortedCard | scripts/VIIRS_threshold_reflCor_Bulk.py:531 | a strictly ordered list has no repeated cell |
| Geo.GeoFile.Lists | scripts/VIIRS_threshold_reflCor_Bulk.py:532 | each listed (lat, lon) pair is read at the matching listed cell |
| Geo.GeoFile.ListsAppend | scripts/VIIRS_threshold_reflCor_Bulk.py:532 | the pairing of coordinates with cells survives concatenation |
| ActiveFires.IsFire | scripts/VIIRS_threshold_reflCor_Bulk.py:598-601 | a fire-mask code is a fire exactly when it is 7, 8 or 9 |
| ActiveFires.PositionsOf | scripts/VIIRS_threshold_reflCor_Bulk.py:662 | the set of positions of a row that hold a given code, as the mask `AfArray == 9` marks them |
| ActiveFires.RowNines | scripts/VIIRS_threshold_reflCor_Bulk.py:662-663 | one count per row, of the cells holding the high-confidence code 9 |
| ActiveFires.Recoded | scripts/VIIRS_threshold_reflCor_Bulk.py:670-677 | each row whose count exceeds the threshold has its 9s replaced by the recode value cast to uint8; the shape is kept |
| ActiveFires.Kept375 | scripts/VIIRS_threshold_reflCor_Bulk.py:791-794 | a 375 m cell stays in the conditional exactly when it is a fire and is not a 9 in a row with more than `limit375` of them |
| ActiveFires.ActiveFire.Valid | scripts/VIIRS_threshold_reflCor_Bulk.py:593-663 | the cached conditional, when present, is a separate array of the fire mask's shape, and the cached row sums have one entry per row |
| Reflectance.QaMask | scripts/VIIRS_threshold_reflCor_Bulk.py:498 | the quality mask has the counts' shape and is true where the count is below 65528 |
| Reflectance.Scaled | scripts/VIIRS_threshold_reflCor_Bulk.py:504 | the corrected array has the counts' shape and holds `count * scale + offset` |
| Reflectance.VIIRSReflectanceFile.Valid | scripts/VIIRS_threshold_reflCor_Bulk.py:486-492 | a loaded band: the mask is the raw counts' quality mask, and the array holds the raw counts or, once `corrected`, the corrected values |
| Reflectance.VIIRSReflectanceFile.Corrected | scripts/VIIRS_threshold_reflCor_Bulk.py:504 | the corrected reflectance of one cell |
| LatLonLists.NonzeroRows | scripts/VIIRS_threshold_reflCor_Bulk.py:132 | `np.nonzero(array)[0]`: every listed row index is in range, once per nonzero coordinate |
| LatLonLists.EveryOther | scripts/VIIRS_threshold_reflCor_Bulk.py:133 | `[0::2]` keeps the entries at even positions and has half the length, rounded up |
| LatLonLists.BothNonzero | scripts/VIIRS_threshold_reflCor_Bulk.py:124 | both coordinates of a pair are nonzero |
| LatLonLists.Range | scripts/VIIRS_threshold_reflCor_Bulk.py:133 | the consecutive row indices from k up to n |
| LatLonLists.EveryOtherPairs | scripts/VIIRS_threshold_reflCor_Bulk.py:132-133 | when every pair has two nonzero coordinates, every second index names each row once, in order |
| LatLonLists.KeepNonzero | scripts/VIIRS_threshold_reflCor_Bulk.py:120-126 | the older loop keeps the pairs with two nonzero coordinates; it is never longer than its input |
| PyText.LowerChar | scripts/viirs_config.py:144 | `str.lower` of one character |
| PyText.Lower | scripts/viirs_config.py:144 | `str.lower` keeps the length and lower-cases every character |
| PyText.IsSpace | scripts/viirs_config.py:198 | the whitespace `float()` and `int()` ignore around a number |
| PyText.StripLeft | scripts/viirs_config.py:198 | leading whitespace is removed; the result is no longer and does not start with whitespace |
| PyText.StripRight | scripts/viirs_config.py:198 | trailing whitespace is removed; the result is no longer and does not end with whitespace |
| PyText.Strip | scripts/viirs_config.py:198 | surrounding whitespace is removed on both sides |
| PyText.StripUnchanged | scripts/viirs_config.py:198 | text without surrounding whitespace is its own stripped form |
| PyText.IsDigit | scripts/viirs_config.py:161 | a decimal digit character |
| PyText.DigitChar | scripts/viirs_config.py:161 | the character of a digit value below ten is a digit |
| PyText.DigitValue | scripts/viirs_config.py:200 | the value of a digit character |
| PyText.AllDigits | scripts/viirs_config.py:200 | text made only of digits |
| PyText.DigitsValue | scripts/viirs_config.py:200 | the value of a digit string, most significant digit first |
| PyText.FormatNat | scripts/viirs_config.py:161 | the decimal text of a natural number is non-empty and all digits |
| PyText.FormatInt | scripts/viirs_config.py:125 | `str(n)` of an int is non-empty, has no surrounding whitespace and no slash |
| PyText.DigitsOfFormat | scripts/viirs_config.py:161 | reading back the decimal text of n gives n |
| PyText.ParseInt | scripts/viirs_config.py:200 | `int()` of text succeeds only on non-empty stripped text of digits with an optional sign, which white space may follow |
| PyText.ParseIntSpaceAfterSign | scripts/viirs_config.py:200 | `int("- 5")` is -5: white space after the sign is skipped |
| PyText.ParseIntTabAfterPlus | scripts/viirs_config.py:200 | `int("+\t7")` is 7 |
| PyText.Find | scripts/viirs_config.py:104 | the first position of a character, or the length when it is absent |
| PyText.FindExp | scripts/viirs_config.py:198 | the first position of an exponent marker `e` or `E`, or the length |
| PyText.ParseExponent | scripts/viirs_config.py:198 | an exponent: digits with an optional sign |
| PyText.Scale10 | scripts/viirs_config.py:198 | a value times ten to an integer power |
| PyText.ParseMantissa | scripts/viirs_config.py:198 | a mantissa with an optional decimal point, as its digits' value and the count of fraction digits |
| PyText.ScanMantissa | scripts/viirs_config.py:198 | a left-to-right read of `digits [. digits]`, failing at any other character or a second point |
| PyText.ScanDigits | scripts/viirs_config.py:198 | reading digits only sees no point and counts and values every digit |
| PyText.UnsignedAtMarker | scripts/viirs_config.py:198 | with its first exponent marker at k, a literal reads as the mantissa before k scaled by the exponent after it |
| PyText.ParseFloatMinus | scripts/viirs_config.py:198 | stripped text with a leading minus reads as the negated unsigned rest |
| PyText.ParseFloatNegative | scripts/viirs_config.py:198 | a minus sign followed by digits reads as the negated number |
| PyText.ParseUnsignedFloat | scripts/viirs_config.py:198 | an unsigned decimal with an optional exponent part |
| PyText.ParseFloat | scripts/viirs_config.py:198 | `float()` of text: stripped, optional sign, mantissa and optional exponent |
| PyText.FindFirst | scripts/viirs_config.py:104 | the first occurrence is the position found |
| PyText.DigitsMarkers | scripts/viirs_config.py:198 | a digit string has no exponent marker and no decimal point |
| PyText.MantissaDigits | scripts/viirs_config.py:198 | a digit string is a mantissa with no fraction digits |
| PyText.ParseDigits | scripts/viirs_config.py:198 | a digit string reads as its integer value |
| PyText.ParseFloatUnsigned | scripts/viirs_config.py:198 | text that starts with a digit and ends without whitespace reads as an unsigned number |
| PyText.ExponentDigits | scripts/viirs_config.py:198 | an exponent reads as its digits' value with its sign |
| PyText.UnsignedScientific | scripts/viirs_config.py:198 | digits, a marker and an exponent read as the digits scaled by that exponent |
| PyText.ParseScientific | scripts/viirs_config.py:198 | `float()` of digits, `e` or `E`, an optional sign and digits is the mantissa times ten to the signed exponent |
| PyText.ParseFloatUpperExponent | scripts/viirs_config.py:198 | `float("2E5")` is 200000 |
| PyText.ParseFloatEmptyExponent | scripts/viirs_config.py:198 | `float("1e")` raises ValueError |
| PyText.ParseFloatFormatInt | scripts/viirs_config.py:198 | `float(str(n))` is n for every integer |
| PyText.Split | scripts/viirs_config.py:104 | `str.split(',')` always gives at least one item |
| PyText.Join | scripts/viirs_config.py:173 | `','.join` puts the separator between consecutive items |
| PyText.FindAfter | scripts/viirs_config.py:104 | the first separator after separator-free text is at that text's end |
| PyText.FindNone | scripts/viirs_config.py:104 | an absent separator is found at the end |
| PyText.SplitFirst | scripts/viirs_config.py:104 | splitting peels off the text before the first separator |
| PyText.JoinFirst | scripts/viirs_config.py:173 | joining puts the first item, then the separator, then the rest joined |
| PyText.RFind | scripts/viirs_config.py:124 | the last position of a character, or -1; no occurrence follows it |
| PyText.AllSlashes | scripts/viirs_config.py:124 | text made only of slashes |
| PyText.RStripSlash | scripts/viirs_config.py:124 | trailing slashes removed: a prefix that does not end in a slash |
| PyText.Dirname | scripts/viirs_config.py:124 | `os.path.dirname`: the head up to the last slash, trailing slashes removed unless it is all slashes |
| PyText.Basename | scripts/viirs_config.py:124 | `os.path.basename`: the text after the last slash |
| PyText.JoinPath | scripts/viirs_config.py:125 | `os.path.join` of two parts: the second alone when absolute, else joined with one slash where needed |
| PyText.RFindAppend | scripts/viirs_config.py:124 | appending slash-free text leaves the last slash where it was |
| PyText.DirnameShape | scripts/viirs_config.py:124 | the parent directory is empty, all slashes, or does not end in a slash |
| PyText.HeadOfJoin | scripts/viirs_config.py:124 | the parent of a head followed by a slash-free name is that head with trailing slashes removed |
| PyText.HeadAfterAppend | scripts/viirs_config.py:124 | the head of a slash-terminated prefix followed by a slash-free name is that prefix |
| PyText.DirnameOfHead | scripts/viirs_config.py:124 | the parent directory depends only on the head up to the last slash |
| PyText.SlashedDirname | scripts/viirs_config.py:124 | a directory with a slash appended strips back to itself |
| Brute.Zeros | scripts/viirs_brute.py:78 | `np.zeros` of length n: n entries, all 0 |
| Brute.InRange | scripts/viirs_brute.py:9-11 | every index entry lies in 0..maxval-1 |
| Brute.Val | scripts/viirs_brute.py:9-11 | the counter's value, its first entry the least significant digit in base maxval |
| Brute.Pow | scripts/viirs_brute.py:9-21 | maxval to the length of the index: the number of counter states |
| Brute.Iter | scripts/viirs_brute.py:93-94 | the index after n increments; it keeps its length |
| Brute.ValBound | scripts/viirs_brute.py:9-21 | an in-range index has a value below maxval to its length |
| Brute.ValZeros | scripts/viirs_brute.py:78 | the all-zero index has value 0 |
| Brute.DigitUnique | scripts/viirs_brute.py:9-21 | a base-m numeral is unique: equal values have equal low digits and equal higher parts |
| Brute.IncValueNoCarry | scripts/viirs_brute.py:17-18 | an increment without carry stays in range and adds one |
| Brute.IncValueCarry | scripts/viirs_brute.py:15-19 | an increment that carries resets the first digit and adds one to the rest |
| Brute.FloatPart | scripts/viirs_config.py:197-198 | the ten float parameters of the vector hold floats |
| Brute.DeltaVector | scripts/viirs_brute.py:82-88 | the n-th vector shifts the five reflectance parameters by -delta, 0 or +delta as the n-th index says |
| Brute.DeltaConfig | scripts/viirs_brute.py:82-91 | the n-th configuration is the merge of the n-th vector with the run number `run0 + n` |
| Brute.AllZero | scripts/viirs_brute.py:95 | `np.all(dm_idx == 0)` holds exactly for the all-zero index |
| Brute.DeltaPrefix | scripts/viirs_brute.py:77-95 | the list built so far holds the first configurations, in order |
| Brute.DeltaPrefixAppend | scripts/viirs_brute.py:91 | appending the next configuration extends the prefix |
| Brute.GridConfig | scripts/viirs_brute.py:113-116 | the configuration at position n pairs the (n / R)-th RthSub with the (n % R)-th Rth, where R is the number of Rth values (the columns) |
| Brute.GridPrefix | scripts/viirs_brute.py:110-116 | the list built so far holds the first grid configurations, in order |
| Brute.GridPrefixAppend | scripts/viirs_brute.py:116 | appending the next grid configuration extends the prefix |

## Left out

- HDF5 reading, the PostGIS database, shapefile and raster writing, subprocess calls, `run()` as a driver, `FileSet`, the pandas tables (`csv_vectors`, `make_run_info_table`) and multiprocessing are I/O and orchestration. They are not modelled. A band file, geolocation file or fire mask enters the model already read, as an array.
- `batch` (lines 85-89) is a generator that slices a list lazily. The model does not cover it.
- `get_indices` and `get_array_vals` (lines 612-625) are not part of this model.
- `VIIRSConfig.load`, the file-parsing side of a configuration, is not modelled. Only the comma split it applies to the date list is, by `PyText.Split`.
- Floats are mathematical reals: there is no IEEE rounding, NaN or infinity.
- Config.ToFloat: the text forms `inf`, `nan` and `infinity` that `float()` accepts are not modelled, because reals have no such values; decimal text with an optional `e`/`E` exponent is.
- `'{:4.2f}'` formatting is an abstract parameter `fltfmt`.
- Brute.CreateParams: the `np.arange` ranges are taken as the decimal sequences 0.03..0.05 and 0.76..0.80. In IEEE doubles `np.arange(0.76, 0.81, 0.01)` has six elements (the last just below 0.81), so the program builds 18 configurations where the model builds 15.
- Brute.ReflectanceDeltas: the `cls` argument is fixed at its default, `SequentialVIIRSConfig`, the only value its one caller (scripts/viirs_brute.py:143) uses. With `cls=VIIRSConfig` each run id would be the new object's hash and the counter would not move; nothing is stated for that case.
- Brute.CreateParams: the `cls` argument that the docstring (scripts/viirs_brute.py:105-106) offers is likewise fixed at `SequentialVIIRSConfig`; the hash-numbered `VIIRSConfig` variant is not stated. `Config.MergeIntoTemplate` alone covers both classes, one merge at a time.
- Brute.IncIdx: requires a non-empty index. On an empty index `inc_idx` raises IndexError at `idx[i] += 1` (scripts/viirs_brute.py:17); that error is not modelled, and its one caller, `reflectance_deltas`, passes a five-digit index.
- `ReflFact` is modelled as two reals: scale and offset.
- The boolean `BaCon` and the uint8 conditional are both `array2<int>` holding 0 and 1, so `apply_window` and `make_list` are one member each for both.
- Paths are POSIX paths; `os.path` on Windows is not modelled.
- `VIIRSConfig.create_run_id` uses `hash(self)`. That value is an input parameter (`hashId`) of `MergeIntoTemplate`.
- The window bounds (`has_window`, `north`, `south`, `east`, `west`) are not defined on the configuration class in this repository. `ApplyWindow` takes the window as an `Option`.
- The repository-root `viirs_config.py` is an older copy of `scripts/viirs_config.py` and is not part of this model.
- The test at scripts/tests/test_viirs_config.py:247-250 expects a `Run_` prefix. The code at scripts/viirs_config.py:119-125 does not add one. The model follows the code, and `Config.PerturbDirExample` states the difference.
- The docstring at scripts/viirs_brute.py:67 says 242 configurations; the loop produces 3^5 = 243. The model follows the loop (`Brute.DeltaConfigs`).
- Threshold.BaThreshold: requires the four band objects to be distinct and the geolocation to carry solar zenith. The source passes four different files and always uses the 750 m geolocation there.
- Geo.GeoFile.DayPixels: requires solar zenith. Only the 750 m geolocation loads it, and the 375 m object would raise AttributeError.
- ActiveFires.FireMask375: stated for a freshly loaded fire mask, which is how `run()` calls it; on a reused object the cached arrays are returned as `GetConditional375` states.
- Reflectance.VIIRSReflectanceFile.CalcQaMask: requires the array to still hold raw counts, as it does at its one call site inside `load`.
- Config.MergeIntoTemplate: stated for `VIIRSConfig` and `SequentialVIIRSConfig` only; other subclasses are not in the repository.

## Findings

| source | as written | input that shows it | evidently intended | confidence | as-written member | corrected member |
|---|---|---|---|---|---|---|
| scripts/VIIRS_threshold_reflCor_Bulk.py:130-136 | `array2list` keeps the rows named by every second entry of the first `np.nonzero` index array; a row appears there once per nonzero coordinate, so a zero coordinate shifts the pairing | [(1, 0), (2, 0), (3, 4)]: the index array is [0, 1, 2, 2], and the function returns (1, 0) and (3, 4) | the pairs whose two coordinates are nonzero, as the older loop at lines 120-126 keeps: [(3, 4)] | not executed; medium (coordinates exactly 0.0 are rare in practice) | LatLonLists.Array2ListAsWrittenMisaligned | LatLonLists.Array2List |
