# Object-detection metrics of `utils.py`

A Dafny model of the three routines of `utils.py`:

- `intersection_over_union`: the overlap ratio of two axis-aligned boxes given in the midpoint format (`x, y, w, h`) or the corners format (`x1, y1, x2, y2`).
- `nms`: greedy non-max suppression over `[class, score, box]` predictions.
- `mean_average_precision`: the mean over classes of the area under each class's precision/recall curve. Detections are judged true or false positives against per-image claim flags.

Modules, in dependency order:

| file | module | contents |
|---|---|---|
| `geometry.dfy` | `Boxes` | box formats, decoding, intersection, union, IoU, the as-written max-edge overlap |
| `sorting.dfy` | `Sorting` | sorting by score, highest first (insertion sort, stable) |
| `nms.dfy` | `Nms` | score filter, suppression, the greedy selection and its loop, the code as written |
| `claims.dfy` | `Claims` | the per-image claim flags (`amount_bboxes`), flag counts and their sums over images |
| `curves.dfy` | `Curves` | cumulative sums, recall and precision, the trapezoid rule, bounds on a class's value |
| `map_metric.dfy` | `MeanAp` | class filters, best-match search, TP/FP judgement, the per-class scan and the mean |

Each routine is modelled the same way:

- A specification made of functions, for example `Nms.Selection`, `MeanAp.Scan` and `MeanAp.MeanOverClasses`.
- Lemmas that prove what the routine promises about that specification.
- Methods that follow the code's loops: the `while bboxes:` loop, the loops over classes, detections and ground truths, and the writes into the `TP`/`FP` tensors. Their `ensures` tie the result to the specification.

Numbers are exact reals throughout. The smoothing constant `1e-6` is `Boxes.Epsilon`.

The code departs from its own documentation in several places. Where the departure has an input that shows it, the model holds both the code as written and the corrected version, and says so under "## Findings". Where the code would fail at run time, the model follows the evident intent:

- **IoU uses max on all four edges.** `utils.py:41-44` takes `max` also of the right and bottom edges. The overlap is then not an intersection at all. It can be positive for disjoint boxes: (0,0,1,1) and (2,2,3,3) overlap by 1. When one box is nested in another it is the area of the rectangle from the inner box's top-left corner to the outer box's bottom-right corner, which can exceed the inner box: (0,0,1,1) inside (0,0,10,10) gives 100. It is not always wrong: (4,4,5,5) inside (0,0,10,10) gives 36, and the zero-width box (5,0,5,1) against (0,0,1,1) gives 0. The model's `Boxes.Intersection` uses `min` on those two edges, as the docstring's "intersection over union" means. The as-written version is `Boxes.IntersectionAsWritten`, with lemmas exhibiting both effects (Findings).
- **The default format name is `"mindpoint"`.** The decoding test at `utils.py:19` and the default at `utils.py:7` both spell it that way. `Boxes.ParseFormat` accepts exactly `"mindpoint"` and `"corners"`. The spelling `"midpoint"`, used by all three docstrings (`utils.py:14`, `utils.py:73`, `utils.py:174`), matches neither test. The code then reaches line 41 with no corner variables bound, and the model's `Boxes.IntersectionOverUnion` returns `Err(UnknownBoxFormat)` for it (`Boxes.FormatSpellings`).
- **IoU never reaches 1.** Because of epsilon, the value lies in `[0, 1)`. A box compared with itself scores `area / (area + 1e-6)` (`Boxes.IouSelf`). That is within `1e-6` of 1 only when the area is at least `1 - 1e-6`. For the small areas of normalised coordinates it is not: a box of side 0.001 has area `1e-6` and scores exactly 0.5 against itself, and a box of side 0.1 falls short of 1 by about `1e-4`.
- **`nms` as written.** The score filter at line 185 is discarded, the comprehension at lines 193-202 keeps the wrong boxes, and the `return` at line 206 is inside the loop. The model's `Nms.NonMaxSuppression` follows the documented procedure of lines 164-168. The code as written is `Nms.NmsAsWritten` with `Nms.SurvivorsAsWritten`, and lemmas exhibit each discrepancy (Findings).
- **mAP sorts the wrong variable.** `utils.py:107` calls `detection.sort(...)` on the leftover loop variable of line 90, a single prediction, not on the list `detections`. That call fails at run time on every call with at least one class. With predictions, `x[2]` is applied to a number. With no predictions, `detection` was never bound. So even the empty input, which `MeanAp.NoPredictionsScoreZero` scores 0, fails in the code. The model scans each class's detections highest score first, as the comment on that line says (`MeanAp.ScanOrder`).
- **mAP reads ground-truth boxes from the wrong offset.** The ground-truth layout is `[train_idx, class, x1, y1, x2, y2]`, but line 123 slices `gt[3:]`, which is three values. The detection slice `detection[3:]` at line 122 is correct for the detection layout `[train_idx, class, prob_score, x1, y1, x2, y2]`. The model reads a ground truth's box from its own field, `TrueBox.box`, which is the evident intent of `gt[2:]`.
- **Classes without ground truths.** Such a class's recall stays 0, so the trapezoid area is 0. The class still counts in the divisor at line 149 (`MeanAp.ClassWithoutMatches`, `MeanAp.EmptyClassCounts`).
- **mAP over zero classes.** With `num_classes == 0`, line 149 divides by `len([]) == 0`. `MeanAp.MeanOverClasses` returns `Err(NoClasses)` exactly then.

The source's default arguments are Dafny default parameters. `Boxes.IntersectionOverUnion` defaults its format to `"mindpoint"` (utils.py:7). `Nms.NonMaxSuppression` defaults to corners boxes (utils.py:160). `MeanAp.MeanAveragePrecision` defaults to an IoU threshold of 0.5, corners boxes and 20 classes (utils.py:60-62). The class count matters: every class id below `num_classes` without ground truths adds 0 but stays in the divisor. So with the default of 20, a dataset using three classes scores at most 3/20 (`MeanAp.FewClassesBound`).

The routines `nms` and `mean_average_precision` take a parsed `BoxFormat`. In the code they pass the format string through to `intersection_over_union`, which fails on an unknown name only when it is called; see "## Left out".

## Model

| member | source | states |
|---|---|---|
| Boxes.ParseFormat | utils.py:19-37 | the midpoint branch is taken exactly for `"mindpoint"`, the corners branch exactly for `"corners"`, neither for any other name |
| Boxes.FormatSpellings | utils.py:7-19 | the default `"mindpoint"` selects the midpoint format, `"corners"` the corners format, and `"midpoint"` neither |
| Boxes.Decode | utils.py:19-37 | corners are taken as given; a midpoint box decodes to corners whose width and height are w and h and whose centre is (x, y) |
| Boxes.MidpointArea | utils.py:20-27 | a midpoint box decodes to a well-formed box iff w >= 0 and h >= 0, and its area is then w * h |
| Boxes.FormatsAgree | utils.py:19-37 | IoU of two midpoint boxes equals IoU of the same boxes written by their corners |
| Boxes.Clamp0 | utils.py:47 | definition: `clamp(0)`, a negative side length becomes 0 |
| Boxes.Area | utils.py:49-50 | definition: the absolute value of the product of the box's sides |
| Boxes.Intersection | utils.py:41-47 | definition (corrected): the product of the clamped sides between the larger left/top edges and the smaller right/bottom edges |
| Boxes.IntersectionAsWritten | utils.py:41-47 | definition (as written): the same product with the larger right/bottom edges |
| Boxes.AsWrittenDenominator | utils.py:52 | definition (as written): the two areas less the as-written overlap, plus epsilon |
| Boxes.IntersectionWithinFirst | utils.py:41-49 | the overlap is non-negative and at most the first box's area |
| Boxes.IntersectionWithinAreas | utils.py:41-50 | the overlap is at most each of the two areas |
| Boxes.IntersectionSymmetric | utils.py:41-47 | the overlap does not depend on the order of the boxes |
| Boxes.Union | utils.py:49-52 | the denominator is at least epsilon and exceeds the overlap |
| Boxes.RatioBelowOne | utils.py:52 | helper: a non-negative numerator below the denominator gives a ratio in [0, 1) |
| Boxes.IouOfRects | utils.py:41-52 | intersection over union of two decoded boxes lies in [0, 1) |
| Boxes.Iou | utils.py:19-52 | intersection over union of two boxes in one format lies in [0, 1) |
| Boxes.IntersectionOverUnion | utils.py:7-52 | fails with the format name exactly when the name selects no branch; otherwise returns the IoU, in [0, 1); the format defaults to `"mindpoint"` |
| Boxes.DefaultFormatIou | utils.py:7-27 | called without a format, the routine reads both boxes in the midpoint format and never fails |
| Boxes.IouSymmetric | utils.py:41-52 | swapping the predicted and the label box gives the same value |
| Boxes.IouDisjoint | utils.py:46-52 | boxes separated along one axis have overlap 0 and IoU 0 (the comment of line 46) |
| Boxes.IouSelf | utils.py:41-52 | a well-formed box overlaps itself by its own area and scores area / (area + epsilon), short of 1 by epsilon / (area + epsilon) |
| Boxes.IouReversed | utils.py:46-52 | a box with reversed corners has IoU 0 with every box |
| Boxes.MulMonotone | utils.py:47-50 | helper: products of non-negative factors are monotone in both factors |
| Boxes.AbsMul | utils.py:49-50 | helper: the absolute value of a product is the product of the absolute values |
| Boxes.SideWithin | utils.py:41-47 | the clamped overlap of one axis is at most the first box's side |
| Boxes.ProductWithin | utils.py:47-49 | a product of clamped overlaps is at most the product of the sides |
| Boxes.SampleAreas | utils.py:49-50 | helper: the areas of the sample boxes used below |
| Boxes.AsWrittenDisjointOverlap | utils.py:41-52 | for the disjoint unit boxes (0,0,1,1) and (2,2,3,3) the code's overlap is 1 and its denominator 1 + epsilon, while the intersection and the IoU are 0 |
| Boxes.AsWrittenNestedOverlap | utils.py:41-47 | for a unit box inside a 10x10 box the code's overlap is 100, more than the unit box's area; the intersection is 1 |
| Sorting.Insert | utils.py:186 | inserting into a sequence sorted by score, highest first, keeps it sorted and adds exactly the new element |
| Sorting.HeadOverRest | utils.py:186 | the head of a sorted sequence stays in front when a lower-scoring element is inserted behind it |
| Sorting.SortByScore | utils.py:186 | the result is sorted by score, highest first, and is a permutation of the input |
| Sorting.SortedMembers | utils.py:186 | sorting neither adds nor drops a record |
| Nms.AboveThreshold | utils.py:185 | a box is kept iff it is in the input and its score exceeds the threshold |
| Nms.Suppresses | utils.py:196-201 | definition: the chosen box removes a box iff it is of the same class and their IoU exceeds the IoU threshold (the documented rule) |
| Nms.Survivors | utils.py:164-168 | a box survives iff it is a later box the chosen one does not suppress; boxes of other classes always survive; order by score is kept |
| Nms.Greedy | utils.py:164-168 | every kept box is a candidate, there are no more kept boxes than candidates, and sorted candidates give a sorted result |
| Nms.ConsSorted | utils.py:190-204 | a sorted head followed by a sorted selection of its successors is sorted |
| Nms.GreedyNoOverlap | utils.py:164-168 | no two kept boxes of one class have IoU above the IoU threshold |
| Nms.ConsNoOverlap | utils.py:190-204 | a box that overlaps no later box of its class above the threshold can be put in front without creating a same-class overlap |
| Nms.GreedyDropsOnlySuppressed | utils.py:164-168 | every candidate is kept or removed by a kept box of its own class with IoU above the threshold |
| Nms.Selection | utils.py:164-168 | definition: the documented procedure, greedy suppression over the boxes above the score threshold sorted by score |
| Nms.SelectionProperties | utils.py:164-177 | the documented result holds only input boxes scoring above the threshold, is sorted, has no same-class overlap, and keeps or suppresses every box above the threshold |
| Nms.AccountedSame | utils.py:185-186 | the accounting carries over between lists with the same members (the filtered list and its sorted copy) |
| Nms.GreedyStep | utils.py:190-204 | one pass of the loop moves the head to the kept boxes and continues with its survivors |
| Nms.NonMaxSuppression | utils.py:183-206 | returns the documented selection: input boxes above the score threshold, sorted, no same-class overlap above the IoU threshold, and every box above the threshold kept or suppressed; the format defaults to corners |
| Nms.Suppress | utils.py:187-204 | the `while` loop over the sorted candidates computes the greedy selection |
| Nms.SurvivorsAsWritten | utils.py:193-202 | the code's comprehension keeps a box iff it is of another class or its IoU with the chosen box exceeds the threshold |
| Nms.NmsAsWritten | utils.py:183-206 | the code returns None exactly for empty input, since the loop body and its `return` never run; otherwise exactly one box, a top-scoring box of the unfiltered input |
| Nms.AsWrittenIgnoresThreshold | utils.py:185-186 | a single box at or below the score threshold is returned by the code but dropped by the documented procedure |
| Nms.KeptWithoutRival | utils.py:164-168 | a candidate with no other kept box of its class is kept |
| Nms.AsWrittenStopsAfterOne | utils.py:190-206 | two boxes of different classes above the threshold are both selected by the documented procedure, but the code returns one box |
| Nms.AsWrittenKeepsOverlapping | utils.py:193-202 | for a box of the chosen class, the code keeps it iff IoU exceeds the threshold, the documented rule iff it does not |
| Claims.TrueCount | utils.py:132-134 | the number of claimed flags is at most the number of flags |
| Claims.TrueCountAppend | utils.py:132-134 | appending a flag adds 1 to the count iff it is set |
| Claims.TrueCountSet | utils.py:132-134 | setting one unset flag adds exactly 1 to the count |
| Claims.TrueCountNone | utils.py:104 | all-zero flags have count 0 |
| Claims.TrueCountZero | utils.py:104 | count 0 means no flag is set |
| Claims.HasElement | utils.py:101-105 | helper: a non-empty set of image ids has an element |
| Claims.SumRemove | utils.py:101-105 | the total over images does not depend on the order in which images are taken |
| Claims.SumUpdate | utils.py:132-134 | changing one image's count changes the total by the difference |
| Claims.SumInsert | utils.py:101-105 | adding a new image adds its count to the total |
| Claims.SumMonotone | utils.py:101-105 | per-image counts bounded by others have a bounded total |
| Claims.SumZero | utils.py:104 | zero counts everywhere give total 0 |
| Claims.ClaimedWithinCapacity | utils.py:132-134 | no more ground truths are claimed than exist |
| Claims.ClaimOne | utils.py:132-134 | claiming an unclaimed ground truth adds exactly 1 to the claimed total and keeps the number of ground truths |
| Claims.CountsUpdate | utils.py:134 | replacing one image's flags changes only that image's claimed count |
| Claims.SizesUpdate | utils.py:134 | replacing one image's flags by as many flags keeps every image's size |
| Claims.ZeroClaims | utils.py:101-105 | the claim map has an entry exactly for the image ids given, as many flags as the id occurs, all unclaimed |
| Claims.ZeroClaimsUnclaimed | utils.py:104 | the starting map has nothing claimed |
| Claims.CapacityAddFlag | utils.py:101-104 | one more occurrence of an image id adds one ground truth |
| Claims.ZeroClaimsCapacity | utils.py:101-104 | the starting map holds one flag per ground truth |
| Curves.Sum | utils.py:149 | definition: Python's `sum`, adding from the front |
| Curves.Indicator | utils.py:108-109 | definition: the TP (or FP) tensor, 1 where the flag is set and 0 elsewhere, one entry per detection |
| Curves.Negate | utils.py:135-138 | definition: the FP flags are the negated TP flags, since every detection is exactly one of the two |
| Curves.CumSum | utils.py:140-141 | one running sum per entry, entry i being the sum of entries 0..i |
| Curves.AppendAscending | utils.py:140-141 | appending a value no smaller than the last keeps a running sum ascending |
| Curves.CumSumAscending | utils.py:140-141 | running sums of non-negative entries are non-negative and ascending, and end at the total |
| Curves.IndicatorNonNegative | utils.py:108-109 | helper: the TP/FP tensor has one non-negative entry per detection |
| Curves.SumIndicator | utils.py:133-140 | the sum of the TP tensor is the number of TP flags |
| Curves.Recalls | utils.py:143 | definition: each running TP count over the number of ground truths plus epsilon |
| Curves.Precisions | utils.py:144 | definition: each running TP count over the running TP and FP counts plus epsilon |
| Curves.Trapz | utils.py:147 | definition: `torch.trapz(y, x)`, the trapezoid rule over consecutive points; a single point gives 0 |
| Curves.Trapezoid | utils.py:147 | definition: one trapezoid of width w between heights a and b |
| Curves.TrapezoidBounds | utils.py:147 | a trapezoid of heights in [0, 1] has area between 0 and its width |
| Curves.TrapzBounds | utils.py:147 | the trapezoid rule over ascending abscissas and heights in [0, 1] lies between 0 and the abscissa span |
| Curves.TrapzFlat | utils.py:147 | a curve whose abscissas never move has area 0 |
| Curves.RecallCurve | utils.py:143-146 | the recall curve has one point per detection plus the leading 0 |
| Curves.PrecisionCurve | utils.py:144-145 | the precision curve has one point per detection plus the leading 1 |
| Curves.AveragePrecision | utils.py:140-147 | definition: the trapezoid area under precision (after a leading 1) against recall (after a leading 0) |
| Curves.ApOfFlags | utils.py:108-147 | definition: the average precision of a class from its TP flags in scan order and its number of ground truths |
| Curves.DivMonotone | utils.py:143 | helper: dividing by a positive number keeps order and sign |
| Curves.TpCumsumBound | utils.py:140 | the running TP count is non-negative, ascending and at most the number of TPs |
| Curves.TpCumsumWithin | utils.py:140-143 | the running TP count stays within the number of ground truths when the TPs do |
| Curves.RecallsBounds | utils.py:143-146 | recall over bounded running counts starts at 0, ascends and stays in [0, 1) |
| Curves.PrecisionsBounds | utils.py:144 | every precision after the first point lies in [0, 1) |
| Curves.CurveRecalls | utils.py:140-146 | with no more TPs than ground truths, recall starts at 0, ascends and stays in [0, 1) |
| Curves.CurvePrecisions | utils.py:140-145 | precision starts at 1 and then lies in [0, 1) |
| Curves.ApBounds | utils.py:140-147 | with no more TPs than ground truths, a class's average precision lies in [0, 1) |
| Curves.ApWithoutTruePositives | utils.py:140-147 | a class without TPs scores 0 |
| Curves.RecallCurveZero | utils.py:143-146 | with no TP, recall is 0 at every point |
| Curves.SumBelowCount | utils.py:149 | n values in [0, 1) sum to at least 0 and, for n > 0, less than n |
| Curves.MeanBounds | utils.py:149 | the mean of values in [0, 1) lies in [0, 1) |
| Curves.SumZeros | utils.py:149 | all-zero values sum to 0 |
| Curves.SumSparse | utils.py:149 | values in [0, 1) followed by zeros sum to between 0 and the number of values before the zeros |
| Curves.MeanSparse | utils.py:149 | their mean is at most that number over the count |
| Curves.SumOnes | utils.py:140 | all-one values sum to their count |
| Curves.TrapezoidLower | utils.py:147 | helper: a trapezoid between heights of at least m has area at least m times its width |
| Curves.TrapzLower | utils.py:147 | over ascending abscissas and heights of at least m >= 0, the area is at least m times the abscissa span |
| Curves.RatioLower | utils.py:144 | helper: k / (k + epsilon) for k >= 1 is at least 1 / (1 + epsilon) |
| Curves.PerfectCounts | utils.py:140-141 | with every detection a TP, the running TP count after detection i is i + 1 and the running FP count 0 |
| Curves.PerfectPrecisions | utils.py:144-145 | with every detection a TP, every precision is at least 1 / (1 + epsilon) |
| Curves.PerfectRecall | utils.py:143-146 | with every detection a TP and n ground truths for n detections, the last recall is n / (n + epsilon) |
| Curves.PerfectClass | utils.py:140-147 | a class whose n detections are all TPs, with n ground truths, scores at least 0.999998 (within 2 * epsilon of 1) |
| Curves.NearlyPerfectCurve | utils.py:147 | an ascending recall curve from 0 to at least 1 / (1 + epsilon) under precisions of at least 1 / (1 + epsilon) has area at least 0.999998 |
| Curves.AreaBound | utils.py:147 | helper: an area of at least m * w with w >= m = 1 / (1 + epsilon) is at least 0.999998 |
| Curves.SumAboveCount | utils.py:149 | n values of at least l sum to at least n * l |
| Curves.MeanLower | utils.py:149 | the mean of values of at least l is at least l |
| MeanAp.PredsOfClass | utils.py:90-92 | a detection is selected iff it is an input detection of class c |
| MeanAp.TruthsOfClass | utils.py:94-96 | a ground truth is selected iff it is an input ground truth of class c |
| MeanAp.TruthsInImage | utils.py:113-115 | a ground truth is selected iff it is of the detection's image |
| MeanAp.ImageIds | utils.py:101 | one image id per ground truth |
| MeanAp.TruthsInImageCount | utils.py:101-115 | an image holds as many ground truths as the Counter counts for its id |
| MeanAp.ZeroClaimsFit | utils.py:101-105 | the starting claim map has one unclaimed flag per ground truth of each image: nothing claimed, as many flags as ground truths |
| MeanAp.BestMatch | utils.py:117-129 | no index iff every IoU is 0; otherwise the index is in range, its IoU is positive and maximal, and every earlier IoU is strictly smaller (the first maximum) |
| MeanAp.ClaimKeepsFit | utils.py:134 | setting one flag of an image keeps one flag per ground truth in every image |
| MeanAp.Judge | utils.py:131-138 | a TP exactly claims the best ground truth, which was unclaimed and above the threshold, and sets only its flag; an FP leaves the claims unchanged |
| MeanAp.ClaimedBestIsFalsePositive | utils.py:131-136 | a best match above the threshold that is already claimed gives an FP |
| MeanAp.UnmatchedIsFalsePositive | utils.py:131-138 | a detection whose IoU with every ground truth of its image is at most the threshold gives an FP |
| MeanAp.UnclaimedBestIsTruePositive | utils.py:131-134 | a best match above the threshold that is unclaimed gives a TP |
| MeanAp.JudgeCounts | utils.py:131-138 | a TP claims exactly one more ground truth, an FP none, and the number of ground truths stays the same |
| MeanAp.Scan | utils.py:112-138 | one flag per detection; the claims keep one flag per ground truth |
| MeanAp.ScanCounts | utils.py:112-138 | the claimed total grows by exactly the number of TPs of the scan |
| MeanAp.TruePositivesBounded | utils.py:101-138 | a class has no more TPs than ground truths, and every TP has claimed its own ground truth |
| MeanAp.DuplicateDetection | utils.py:131-136 | the same detection twice gives one TP and then one FP |
| MeanAp.ScanOrder | utils.py:107 | definition: the class's detections sorted by score, highest first, as the comment of that line intends |
| MeanAp.ClassFlags | utils.py:101-138 | definition: the TP flags of the class's scan against its ground truths, from no claims |
| MeanAp.ClassAp | utils.py:85-147 | definition: the average precision of one class, from its flags and its number of ground truths (`total_true_bboxes`) |
| MeanAp.ClassApRange | utils.py:85-147 | every class's average precision lies in [0, 1) |
| MeanAp.ClassWithoutMatches | utils.py:85-147 | a class without ground truths or without detections scores 0 |
| MeanAp.Tabulate | utils.py:82-147 | the list holds one value per class, in class order |
| MeanAp.ClassAps | utils.py:82-147 | definition: the list `average_precisions`, one class's average precision per class, in class order |
| MeanAp.MeanOverClasses | utils.py:149 | fails with NoClasses exactly when there are no classes |
| MeanAp.MeanRange | utils.py:149 | the mean average precision lies in [0, 1) |
| MeanAp.AllMatched | utils.py:131-138 | definition: a class's scan is perfect, every detection a TP and as many detections as ground truths |
| MeanAp.PerfectScore | utils.py:85-149 | when every class's scan is perfect, the mean average precision is at least 0.999998 |
| MeanAp.ApsBelowOne | utils.py:82-147 | every entry of `average_precisions` lies in [0, 1) |
| MeanAp.NoTruthsAbove | utils.py:94-96 | a class at or above every ground truth's class selects no ground truths |
| MeanAp.ApsAboveZero | utils.py:82-147 | the entries of classes above every ground truth's class are 0 |
| MeanAp.FewClassesBound | utils.py:62-149 | when every ground truth is of a class below k, the mean over num_classes classes is at most k / num_classes |
| MeanAp.NoPredictionsScoreZero | utils.py:85-149 | without detections the result is 0 |
| MeanAp.NoPredictionsClassZero | utils.py:85-147 | without detections every class scores 0 |
| MeanAp.EmptyClassCounts | utils.py:85-149 | any class c absent from the ground truths contributes 0 to the sum and still counts in the divisor |
| MeanAp.SelectPredictions | utils.py:87-92 | the loop collects exactly the class's detections, in input order |
| MeanAp.SelectTruths | utils.py:88-96 | the loop collects exactly the class's ground truths, in input order |
| MeanAp.FindBestGroundTruth | utils.py:117-129 | the loop over the image's ground truths finds the best match |
| MeanAp.ScanStep | utils.py:112-138 | the scan from detection i is its judgement followed by the scan from i + 1 |
| MeanAp.RecordNext | utils.py:131-138 | writing the next verdict into TP or FP extends the recorded prefix by one |
| MeanAp.RecordedAll | utils.py:108-138 | once every verdict is recorded, TP and FP are the indicator tensors of the flags |
| MeanAp.ScanAdvance | utils.py:112-138 | one iteration produces the scan's next flag and leaves the rest of the scan to the new claims |
| MeanAp.MatchDetection | utils.py:113-138 | the loop body judges one detection as the specification does |
| MeanAp.MarkVerdict | utils.py:131-138 | writes 1 into exactly one of TP and FP at the detection's index |
| MeanAp.MatchDetections | utils.py:101-138 | TP and FP are the indicator tensors of the scan's flags, starting from no claims |
| MeanAp.FillOne | utils.py:112-138 | one iteration judges detection i, records its verdict in TP or FP, and continues the scan from the new claims |
| MeanAp.FillVerdicts | utils.py:112-138 | the loop over detections fills TP and FP with the scan's verdicts and leaves the scan's claims |
| MeanAp.MatchAndIntegrate | utils.py:101-147 | the class's average precision is the area under the curve of its scan |
| MeanAp.ClassAveragePrecision | utils.py:85-147 | one pass of the class loop computes that class's average precision, in [0, 1) |
| MeanAp.MeanAveragePrecision | utils.py:57-149 | returns the mean over the classes; fails exactly when there are no classes; the value lies in [0, 1); the defaults are 0.5, corners and 20 classes |

## Left out

- Tensors, batching and floating point: one pair of boxes (or one list) is modelled at a time, on exact reals. Rounding, NaN and the `(N, 1)` tensor shapes are not modelled.
- `torch.cumsum`, `torch.divide`, `torch.cat`, `torch.trapz`, `Counter` and `sorted` are modelled by their documented results. Their implementations are not part of this model.
- `assert type(bboxes) == list` (utils.py:183) is a type guard that a typed sequence makes unnecessary.
- The run-time failures of the code are replaced by their evident intent, and no crash is modelled; they are listed in the description above. These are the sort at utils.py:107 (a single prediction, or an unbound name when there are no predictions), the `gt[3:]` slice at utils.py:123, and an unknown format string reaching utils.py:41.
- MeanAp.MeanAveragePrecision: `numClasses` is a `nat`, so a negative `num_classes` cannot be passed. The code gives it an empty class range and then fails with the same division by zero as for 0 classes.
- Negative `iou_threshold` in mAP: when no ground truth scores above 0, line 132 reads `best_gt_idx`, which is unbound or left from an earlier detection. The model counts such a detection as an FP.
- Sorting.SortByScore: its contract states sortedness and permutation but not stability. Its body inserts stably, so ties keep their input order, as with Python's `sort`. The order of ties matters: it fixes the scan order of equal-score detections in mAP, and so the AP value, and it decides which of two equal-score overlapping boxes NMS keeps. The result of `Nms.NonMaxSuppression` and the value of `MeanAp.MeanOverClasses` are defined through this stable sort. The properties proved about them hold for any tie order.
- Nms.NonMaxSuppression, MeanAp.MeanAveragePrecision: they take a parsed `BoxFormat`. In the code an unknown format string fails only when `intersection_over_union` is actually called. So `nms` of a single box, or of boxes of distinct classes (the `or` at utils.py:196 short-circuits), returns without error. mAP likewise calls it only for a detection and a ground truth of the same image. This lazy failure is not modelled.
- MeanAp.MeanOverClasses: a perfect detection set does not score exactly 1.0, because of epsilon. `MeanAp.MeanRange` proves the value is below 1, and `MeanAp.PerfectScore` proves it is at least 0.999998 when every class's scan is perfect. No lemma derives a perfect scan from boxes that equal the ground truths. That the score never rises as `iou_threshold` grows is not proved either.

## Findings

| source | as written | input that shows it | evidently intended | confidence | as-written member | corrected member |
|---|---|---|---|---|---|---|
| utils.py:43-44 | `max` of the right and bottom edges | corners boxes (0,0,1,1) and (2,2,3,3): overlap 1, IoU 1/(1+1e-6) | `min` of those edges: overlap 0, IoU 0 | high, not executed | Boxes.AsWrittenDisjointOverlap | Boxes.IouDisjoint |
| utils.py:43-44 | `max` of the right and bottom edges | corners boxes (0,0,1,1) inside (0,0,10,10): overlap 100, more than the unit area | overlap 1 | high, not executed | Boxes.AsWrittenNestedOverlap | Boxes.IntersectionWithinAreas |
| utils.py:185-186 | the filtered list is discarded and the unfiltered one sorted | one box scoring at or below `threshold`: returned | boxes at or below the threshold are dropped | high, not executed | Nms.AsWrittenIgnoresThreshold | Nms.NonMaxSuppression |
| utils.py:196-201 | keeps same-class boxes whose IoU exceeds `iou_threshold` | a same-class box overlapping the chosen one above the threshold: kept | that box is removed | high, not executed | Nms.AsWrittenKeepsOverlapping | Nms.Survivors |
| utils.py:206 | `return` inside the `while` loop | two boxes of different classes above the threshold: one returned | both returned | high, not executed | Nms.AsWrittenStopsAfterOne | Nms.NonMaxSuppression |
