# Nanoindentation evaluation of micromechanics, modelled in Dafny

The micromechanics package evaluates nanoindentation tests. A test is a
time series of force and depth. The evaluation runs in five steps:

- it finds the load-hold-unload cycles of the test;
- it fits a power law to the upper part of every unloading to get the
  contact stiffness;
- it turns stiffness, force and depth into the contact depth, contact area,
  reduced modulus, Young's modulus and hardness by the Oliver-Pharr method;
- it calibrates the frame compliance and the tip's area function against a
  material of known modulus;
- it corrects drift and finds pop-ins.

Beside it, `micromechanics/tif` reads, levels, crops and annotates
microscope images.

The repository holds the same evaluation in several generations:

- the newest package `micromechanics/indentation` with the tip
  `nanoindentation/tip.py`. This is the reference of the model;
- the split package `src/nanoindentation` and its older copy
  `nanoindentation`;
- the single-file monolith `source_code/nanoIndent.py` and its documented
  copy `nanoIndent/nanoindent_documentation.py`.

Where the generations differ in a rule, the model takes a `Generation`
parameter (`Newest`, `Split`, `Monolith`, `Documentation`) or has a variant
method on the same object, and lemmas relate the variants to each other.

Modules:

- `Numerics` holds helpers: counting and selecting through masks,
  first/last index, argmax and nearest sample, Python rounding and
  truncation, decimal strings. It also holds `Maths`, the square root,
  power and trigonometric functions that the float library supplies,
  passed in as parameters with the laws the proofs rely on.
- `Definitions`: the enumerations and the default parameter tables.
- `IndenterTip`: the tip's area function and its inverse (a class, because
  the source updates the tip in place).
- `Theory`: modulus conversions and the Oliver-Pharr method with its
  inverse.
- `LeastSquares`: the straight-line fit that numpy's `polyfit(x, y, 1)`
  computes, in closed form, proved to be the least-squares line.
- `Stiffness`: the unloading fit of every cycle.
- `Segmentation`: the force-rate masks, their edges, the trimming and
  pairing heuristics, the drift window and the CSM segmentation, for every
  generation.
- `Configuration`: the parameter dictionaries, the file-extension chain that
  picks the vendor, and the test iterator.
- `Evaluation`: the element-wise evaluation that `analyse` performs.
- `Indentation`: the object of the newest package, a class whose methods
  update its signals and results in place, with the surface search of the
  split package.
- `Calibration`: frame compliance and area function calibration.
- `Hertz`: the Hertzian fit and the pop-in search.
- `Drift`: taring, drift rates and the fused-silica smoothing window.
- `Tif`: the image class.

Numbers are real numbers. A NaN or an infinity is `None` in an `Option`,
and a Python exception is a constructor of the result type. The solvers the
source calls are function parameters, each with the law the proofs need:

- `curve_fit`, `lmfit`, `newton`;
- `np.histogram`, `np.percentile`, scipy's filters and morphology,
  `savgol_filter`, `interp1d`.

`polyfit` of degree 1 is not a parameter: it is modelled in closed form,
together with the `ValueError` that `cov=True` raises when it is given two
points or fewer.

Some behaviour of the source is modelled as written and stated by lemmas,
not corrected:

- The monoliths return four `None`s for a CSM test where the packages
  return five (`Stiffness.CsmNones`).
- No default table provides `evaluateSAtMax`, `relForceRateNoise`,
  `forceNoise` or `maxSizeFluctuations`
  (`Definitions.SegmentationKeysNotDefaulted`,
  `Evaluation.DefaultsLackEvaluationPoint`). The unloading fit reads
  `evaluateSAtMax` only after the fit of a cycle, so with the default
  tables a test without cycles completes, one whose first window is empty
  returns its `None`s, and every other one raises
  (`Indentation.DefaultsNeverFit`).
- The monolith unpacks the `None` of a failed compliance fit
  (`Calibration.MonolithCompliance`).
- The monolith's CSM pooling raises for an empty later test where the
  newest package skips it (`Calibration.CsmPoolingAgrees`).

## Model

Paths are relative to the repository root. Abbreviations used in the third
column: "P" is force, "h" is depth, "S" is stiffness.

| member | source | states |
|---|---|---|
| Definitions.EveryVendorHasDefaults | micromechanics/indentation/definitions.py:42-47 | every vendor has an entry in the vendor default table |
| Definitions.VendorEntry | micromechanics/indentation/definitions.py:42-54 | each entry of the vendor table is a thresholds table of exactly unloadPMax, unloadPMin and relForceNoise |
| Definitions.VendorWindowsOrdered | micromechanics/indentation/definitions.py:42-54 | every vendor and converter entry gives a non-empty unloading force window 0 < unloadPMin < unloadPMax < 1 |
| Definitions.DefaultModelValues | micromechanics/indentation/definitions.py:34-40 | the default model holds exactly nuTip 0.07, modulusTip 1140, beta 0.75, nonMetal 1 and driftRate 0 |
| Definitions.SegmentationKeysNotDefaulted | micromechanics/indentation/definitions.py:42-54 | no default table provides the keys that segmentation and stiffness read (relForceRateNoise, forceNoise, maxSizeFluctuations, evaluateSAtMax) |
| IndenterTip.DepthNm | nanoindentation/tip.py:93-95 | the depth in nm is 1000·h from the 1 pm floor on and exactly the floor 0.001 below it |
| IndenterTip.AreaBelowFloor | nanoindentation/tip.py:93-95 | every depth below the 1 pm floor has the area of depth 0 |
| IndenterTip.AreaNonNegative | nanoindentation/tip.py:97-129 | the area of any well-formed prefactor list is never negative |
| IndenterTip.PerfectArea | nanoindentation/tip.py:111-112 | the perfect Berkovich tip has area 24.494·hc² from the 1 pm floor on, and the floor's area below it |
| IndenterTip.PerfectAreaMonotone | nanoindentation/tip.py:111-129 | the perfect tip's area never decreases with depth |
| IndenterTip.PerfectInverseRoundTrip | nanoindentation/tip.py:154-157 | the closed-form inverse of the perfect tip gives back the depth its area came from |
| IndenterTip.IsoWithBerkovichCoefficient | nanoindentation/tip.py:101-112 | an iso list with the single coefficient 24.494 has the perfect tip's area at every depth |
| IndenterTip.IsoPlusConstantShifts | nanoindentation/tip.py:106-110 | isoPlusConstant is the iso tip evaluated c nm deeper, above the floor |
| IndenterTip.Tip.constructor | nanoindentation/tip.py:24-36 | an interpolation function supersedes the shape, which is then not looked at; an untagged list is tagged iso in the caller's own list; a name gives the perfect tip |
| IndenterTip.Tip.SetInterpolationFunction | nanoindentation/tip.py:59-69 | the function replaces the prefactors and the compliance is kept |
| IndenterTip.Tip.AreaFunction | nanoindentation/tip.py:72-129 | one area per depth: the interpolant at the depth, or the prefactor area clamped at zero at the floored depth |
| IndenterTip.Tip.AreaFunctionInverse | nanoindentation/tip.py:132-160 | a tip without prefactors (an interpolation tip) raises the TypeError of indexing None; otherwise the inverse is Newton's root for iso, the closed form for perfect, and no depth for other tags |
| IndenterTip.RawAreas | nanoindentation/tip.py:101-125 | the array loop computes the unclamped area at every floored depth and leaves the caller's depths alone |
| IndenterTip.IsoAreas | nanoindentation/tip.py:101-110 | the term-by-term accumulation gives Σ c_i·(x+shift)^(2/2^i) at every depth |
| IndenterTip.AddTerm | nanoindentation/tip.py:102-104 | one pass adds the i-th iso term to every accumulated area |
| IndenterTip.Shifted | nanoindentation/tip.py:107 | every depth is moved by the constant term, in a new array |
| Theory.ReducedModulus | micromechanics/indentation/theory.py:27-42 | the result exists exactly when no divisor is zero, and then 1/Er = (1-ν²)/E + (1-ν_tip²)/E_tip |
| Theory.YoungsModulus | micromechanics/indentation/theory.py:9-24 | the result exists exactly when no divisor is zero, and then E·(1/Er - (1-ν_tip²)/E_tip) = 1-ν² |
| Theory.YoungsUndoesReduced | micromechanics/indentation/theory.py:20-41 | converting E to Er and back gives E again |
| Theory.ReducedUndoesYoungs | micromechanics/indentation/theory.py:27-41 | converting Er to E and back gives Er again |
| Theory.ReducedModulusBounds | micromechanics/indentation/theory.py:38-41 | for a physical material Er is positive and below both the tip's and the sample's plane-strain modulus |
| Theory.OliverPharr | micromechanics/indentation/theory.py:65-70 | hc + nonMetal·β·P/S = h, Ac is the tip area raised to the 1 pm² floor, and 2√Ac·Er = S·√π |
| Theory.InverseOliverPharr | micromechanics/indentation/theory.py:89-93 | a depth exists exactly for non-zero S and Er and an iso or perfect tip, and is the inverse area of (S√π/2Er)² plus nonMetal·β·P/S |
| Theory.OliverPharrRoundTrip | micromechanics/indentation/theory.py:65-92 | for the perfect tip the inverse method returns the total depth that the forward method started from |
| Theory.UnloadingPowerLinear | micromechanics/indentation/theory.py:97-107 | with exponent 1 the unloading law is the line of slope B through (hf, 0) |
| Theory.DefaultTipValid | micromechanics/indentation/definitions.py:35-36 | the default tip constants form a valid elastic tip |
| LeastSquares.FitMoments | micromechanics/indentation/calibration.py:196 | a line is returned only when the normal matrix is regular |
| LeastSquares.NormalEquations | micromechanics/indentation/calibration.py:196 | the fitted line solves the normal equations Σy = aΣx + nb, Σxy = aΣx² + bΣx |
| LeastSquares.NormalEquationsDetermineLine | micromechanics/indentation/calibration.py:196 | a line that solves regular normal equations is the one the fit returns |
| LeastSquares.LineFit | micromechanics/indentation/calibration.py:196 | polyfit of degree 1 returns a line exactly when the x are not all equal |
| LeastSquares.LineFitOfMoments | micromechanics/indentation/calibration.py:196 | the fit depends on the samples only through their five sums |
| LeastSquares.ErrorOfOtherLine | micromechanics/indentation/calibration.py:196 | the squared error of any line, expanded around another line through the sums |
| LeastSquares.SpreadNonNegative | micromechanics/indentation/calibration.py:196 | the determinant n·Σx² - (Σx)² is never negative |
| LeastSquares.SpreadZeroIffAllEqual | micromechanics/indentation/calibration.py:196 | the normal equations are singular exactly when every x is the same |
| LeastSquares.SolutionIsLeastSquares | micromechanics/indentation/calibration.py:196 | a line solving the normal equations has no more squared error than any other line |
| LeastSquares.LineFitIsLeastSquares | micromechanics/indentation/calibration.py:196 | the fitted line has the least squared error of all lines |
| LeastSquares.LineSums | micromechanics/indentation/calibration.py:196 | samples lying on a line satisfy that line's normal equations |
| LeastSquares.ExactLineRecovered | micromechanics/indentation/calibration.py:196 | samples on a line, with x not all equal, are fitted by exactly that line |
| Stiffness.InclusiveSlice | micromechanics/indentation/theory.py:141 | the slice [a:b+1] holds exactly the indices a..b |
| Stiffness.WindowOfOrderedCycle | micromechanics/indentation/theory.py:140-143 | the window of an ordered cycle is the unloading samples whose force lies strictly between pMin and pMax of the force at loadEnd |
| Stiffness.StartB | src/nanoindentation/theory.py:155-157 | B0 exists exactly when its divisor is non-zero, and is at least 0.001 when clamped |
| Stiffness.NewestGuessFeasible | micromechanics/indentation/theory.py:153-156 | the newest start point lies in its bounds exactly when the last window depth is not negative |
| Stiffness.SecantSlope | micromechanics/indentation/theory.py:179 | the fallback slope exists exactly when the first and last window depths differ |
| Stiffness.SecantThroughWindowEnds | micromechanics/indentation/theory.py:179-181 | the fallback law with exponent 1 passes through the first and the last window sample |
| Stiffness.CycleStep | micromechanics/indentation/theory.py:137-192 | a cycle aborts exactly when both force thresholds are present, its window is empty and the generation checks for it; a completed cycle had both thresholds and, in the packages, the evaluation point, and marks an index inside the trace, inside the window unless evaluated at the maximum |
| Stiffness.MissingThresholdRaises | micromechanics/indentation/theory.py:136-142 | a missing unloadPMax or unloadPMin raises exactly when there is a cycle; without cycles the call completes with empty results |
| Stiffness.MissingEvaluationPointRaises | micromechanics/indentation/theory.py:144-184 | in the packages a missing evaluation point lets a call complete exactly when there are no cycles; otherwise the first cycle returns the Nones of its empty window or raises |
| Stiffness.FirstCycleEnds | micromechanics/indentation/theory.py:136-146 | a first cycle that aborts gives five Nones and one that raises gives the exception |
| Stiffness.RunStops | micromechanics/indentation/theory.py:144-146 | once a cycle aborts or raises, the call ends with that result |
| Stiffness.AbortDiscardsEarlierCycles | micromechanics/indentation/theory.py:144-146 | an empty window after completed cycles throws their results away: five Nones |
| Stiffness.RunGrows | micromechanics/indentation/theory.py:184-192 | a completed cycle appends its stiffness and fit flag and marks its index valid |
| Stiffness.OneResultPerCycle | micromechanics/indentation/theory.py:184-192 | a completed call has one stiffness and one fit flag per cycle |
| Stiffness.CycleRecorded | micromechanics/indentation/theory.py:184-192 | cycle k's stiffness and flag are at position k, and its index is marked valid |
| Stiffness.ValidChosenByCycle | micromechanics/indentation/theory.py:184-191 | every index marked valid was chosen by some cycle |
| Stiffness.AllDoneCompletes | micromechanics/indentation/theory.py:136-211 | cycles that all complete give a completed call |
| Stiffness.EvaluationPoint | micromechanics/indentation/theory.py:184-191 | the stiffness is taken at unloadStart when evaluating at the maximum, else at the first window sample |
| Stiffness.FallbackStiffnessIsSecant | micromechanics/indentation/theory.py:164-192 | a failed fit gives the secant slope flagged as no power law; a successful fit gives the law's slope at the evaluation depth |
| Stiffness.SecantSlopeIsLawSlope | micromechanics/indentation/theory.py:179-185 | the slope of the law with exponent 1 is B everywhere |
| Stiffness.FittedSlopeNonNegative | micromechanics/indentation/theory.py:156-185 | within the fit bounds and above hf the slope is not negative and math.pow does not raise |
| Stiffness.WindowMask | micromechanics/indentation/theory.py:140-143 | the array mask built element by element is the window |
| Stiffness.EvaluateCycle | micromechanics/indentation/theory.py:137-192 | one loop pass computes the cycle's outcome |
| Stiffness.StiffnessFromUnloading | micromechanics/indentation/theory.py:123-211 | a CSM test returns its Nones at once; otherwise the cycles are evaluated |
| Stiffness.EvaluateCycles | micromechanics/indentation/theory.py:128-211 | the cycle loop combines the cycle outcomes in order, as Run does |
| Segmentation.EdgesAlternate | micromechanics/indentation/main.py:230-233 | the edges of a mask are increasing and of even length, alternately the first true of a run and one past its last, and every change of the mask is listed |
| Segmentation.LastFourFollow | micromechanics/indentation/main.py:234 | the test is defined exactly for a non-empty load list and says whether the last four unload edges follow the last load edge |
| Segmentation.DropLeadingLoadsShape | micromechanics/indentation/main.py:237-239 | the loop drops only leading load pairs, keeps an edge list, and stops only once its condition fails |
| Segmentation.TrimKeepsEdges | micromechanics/indentation/main.py:234-239 | trimming keeps both lists edge lists: the load list loses leading pairs and the unload list at most its trailing pair |
| Segmentation.TrimEdges | micromechanics/indentation/main.py:234-239 | the test and the loop compute the trimmed lists |
| Segmentation.PairUpTo | micromechanics/indentation/main.py:264-280 | after k rounds at most k entries remain, the list starts with a cycle, and every kept cycle is accepted |
| Segmentation.PairStaysRaised | micromechanics/indentation/main.py:278-280 | once a round raises, the pairing stays raised |
| Segmentation.PairCycles | micromechanics/indentation/main.py:259-280 | the pairing loop empties the list on the first missing index |
| Segmentation.PairingKeepsAccepted | micromechanics/indentation/main.py:265-277 | with matched edge counts the pairing never raises and keeps exactly the accepted quadruples |
| Segmentation.AcceptedOnEdges | micromechanics/indentation/main.py:266-268 | on edge lists a round is accepted exactly when its loading ends no later than its unloading starts, within bounds where checked |
| Segmentation.ClampedDrift | micromechanics/indentation/main.py:285-289 | the drift window ends at the last sample and holds at least two samples |
| Segmentation.DriftFollowsUnloading | micromechanics/indentation/main.py:284-291 | the drift window starts after the last unload unless moved back to leave two samples, and is [-1,-1] exactly when there is no unload edge |
| Segmentation.TimestampFilterAligned | micromechanics/indentation/main.py:174-179 | the filter drops sample 0 and samples too close to their predecessor, and keeps all signals aligned sample by sample |
| Segmentation.RateMasksDisjoint | micromechanics/indentation/main.py:187-188 | with a non-negative threshold no sample is both loading and unloading |
| Segmentation.Clean | micromechanics/indentation/main.py:200-209 | the intended cleaning keeps short tests unchanged and adopts cleaned masks only when both still hold a true |
| Segmentation.CleanShortTestRaises | micromechanics/indentation/main.py:201-209 | as written the cleaning raises exactly for tests of 100 samples or fewer, and otherwise agrees with the intended one |
| Segmentation.CleanShortTestExample | micromechanics/indentation/main.py:201-209 | a 50-sample test makes the cleaning as written raise |
| Segmentation.CleanAlways | src/nanoindentation/main.py:195-200 | the older cleaning leaves tests of 100 samples or fewer unchanged |
| Segmentation.CsmFound | src/nanoindentation/main.py:264-296 | the surface is the first non-negative depth, the drift window ends inside the test, and a histogram failure appears only when caught |
| Segmentation.SurfaceIndex | micromechanics/indentation/main.py:306 | the first sample at or below the surface, or none when every depth is negative |
| Segmentation.DriftEnds | micromechanics/indentation/main.py:320-328 | the first and last samples of the drift band when it holds more than three, else the last two samples |
| Segmentation.Repair | micromechanics/indentation/main.py:329-335 | a broken chain is replaced by the last four samples and an intact one is kept |
| Segmentation.CsmNewestOrdered | micromechanics/indentation/main.py:306-343 | when the peak is reached before the last sample, load < hold < driftStart < driftEnd within the test, and the surface found is kept |
| Segmentation.EdgeStage | nanoIndent/nanoindent_documentation.py:772-776 | only the documented monolith falls back to the CSM segmentation |
| Segmentation.FindStage | micromechanics/indentation/main.py:230-291 | the trimming and pairing loops compute the edge stage of each generation |
| Segmentation.PairSound | micromechanics/indentation/main.py:264-277 | every cycle the pairing keeps is accepted, and the list starts with a cycle |
| Segmentation.NewestCyclesOrdered | micromechanics/indentation/main.py:259-291 | every newest cycle has loadStart < loadEnd <= unloadStart < unloadEnd strictly inside the test, and the drift window is at least two samples or [-1,-1] |
| Segmentation.NewestCyclesComplete | micromechanics/indentation/main.py:260-277 | with matched edges no quadruple is lost: round i is kept exactly when it is ordered and within bounds |
| Segmentation.NewestMasksRaise | micromechanics/indentation/main.py:181-209 | the mask stage raises exactly for a missing parameter, a single sample, or no whole window size; otherwise the masks are classified or cleaned with both kinds present |
| Segmentation.SplitMasks | src/nanoindentation/main.py:177-200 | the split mask stage raises exactly for fewer than two samples and gives masks of the test's length |
| Segmentation.FindSplitStage | src/nanoindentation/main.py:176-252 | the split segmentation as run computes the split stage |
| Segmentation.FindNewestStage | micromechanics/indentation/main.py:181-291 | the newest segmentation as run computes the newest stage |
| Segmentation.NewestStageOrdered | micromechanics/indentation/main.py:181-291 | the whole newest segmentation yields ordered cycles inside the test and a valid drift window |
| Segmentation.ZeroBin | source_code/nanoIndent.py:699-706 | the bin nearest zero among those counting more than the minimum, or the fullest bin when none does |
| Segmentation.ZeroDelta | source_code/nanoIndent.py:711-715 | the band width exists exactly when a sparse bin lies below zero, is positive, and reaches the nearest such bin |
| Segmentation.BandMasksSeparate | source_code/nanoIndent.py:712-720 | with the band found, no sample is both loading and unloading and every rate within it is neither |
| Segmentation.Differences | source_code/nanoIndent.py:718 | p[k] plus the k-th increment is p[k+1] |
| Segmentation.HistogramMasks | source_code/nanoIndent.py:691-746 | the documented version never falls back, and masks have one entry per force increment |
| Segmentation.HistogramMasksSeparate | source_code/nanoIndent.py:711-720 | on short tests the histogram masks are disjoint and leave the zero band unmarked |
| Segmentation.DropLeadingUnloadsShape | source_code/nanoIndent.py:763-765 | the first loop keeps an edge list and stops only once its condition fails |
| Segmentation.DropTrailingUnloadsShape | source_code/nanoIndent.py:766-768 | the second loop keeps an edge list and stops only once its condition fails |
| Segmentation.DropLeadingLoadPairsShape | source_code/nanoIndent.py:769-771 | the third loop keeps an edge list and stops only once its condition fails |
| Segmentation.ThreeTrimsKeepEdges | source_code/nanoIndent.py:763-771 | the three loops keep both lists edge lists and each stops only when its condition fails |
| Segmentation.TrimEdgesThrice | source_code/nanoIndent.py:763-771 | the three loops as run compute the trimmed lists |
| Segmentation.StoreUpTo | source_code/nanoIndent.py:772-779 | every round is stored in order, and the storing raises exactly when a round misses an index |
| Segmentation.StoreCycles | source_code/nanoIndent.py:772-779 | the storing loop computes the stored quadruples |
| Segmentation.StorePrefix | source_code/nanoIndent.py:772-774 | the list left after k rounds holds the quadruples of the rounds before the first unreadable one, and is StoreUpTo's list when no round raises |
| Segmentation.StoringEdges | source_code/nanoIndent.py:763-772 | storing begins only when the segmentation does not fall back |
| Segmentation.HistogramCycles | source_code/nanoIndent.py:772-794 | a completed segmentation stored exactly its cycles; a fallback stored nothing |
| Segmentation.HistogramRaisedPrefix | source_code/nanoIndent.py:772-794 | a raise after the reset leaves no rounds at all (the drift's undefined loop variable) or the rounds before the first missing index |
| Segmentation.DriftAfterRounds | source_code/nanoIndent.py:794-798 | a drift window exists exactly when a round ran, ends at the last sample and holds two samples |
| Segmentation.FindHistogramStage | source_code/nanoIndent.py:691-799 | the monolithic segmentation as run computes the histogram stage |
| Configuration.ParameterTable.FillDefaults | micromechanics/indentation/__init__.py:128-140 | the table becomes the filled dictionary |
| Configuration.Filled | micromechanics/indentation/__init__.py:132-137 | user values win, then values already present, then the vendor default; other keys stay |
| Configuration.FilledIdempotent | micromechanics/indentation/__init__.py:132-137 | filling twice with the same table changes nothing more |
| Configuration.Attempts | micromechanics/indentation/__init__.py:91-124 | each vendor is tried exactly when the file name has one of its extensions |
| Configuration.Hdf5BranchRaises | micromechanics/indentation/__init__.py:119-124 | an HDF5 file reaches only the branch naming the missing Vendor.Hdf5, and no other file reaches it |
| Configuration.Tried | micromechanics/indentation/__init__.py:88-90 | a missing named file tries no branch |
| Configuration.Chosen | micromechanics/indentation/__init__.py:91-124 | the first vendor whose loader succeeds, or the last tried when all fail, or none when no branch matches |
| Configuration.ChosenAt | micromechanics/indentation/__init__.py:91-124 | the vendor at i is chosen when all earlier loaders fail and it succeeds or is the last |
| Configuration.VendorDefaults | micromechanics/indentation/__init__.py:132-133 | the table of a vendor is its entry in the default vendor table |
| Configuration.ChooseVendor | micromechanics/indentation/__init__.py:91-124 | the branch loop ends with the chosen vendor |
| Configuration.FillAlongChain | micromechanics/indentation/__init__.py:91-124 | the chain as written fills each reached vendor's defaults, and raising in the HDF5 branch leaves the table unchanged |
| Configuration.FillBranches | micromechanics/indentation/__init__.py:91-124 | the branch loop fills the defaults along the chain, or raises without filling |
| Configuration.ChainStopsAtSecond | micromechanics/indentation/__init__.py:97-112 | a chain whose second loader succeeds has filled both vendors' defaults, in order |
| Configuration.FirstVendorDefaultsStick | micromechanics/indentation/__init__.py:97-112 | a Micromaterials text file keeps Hysitron's 0.95/0.4 window as written |
| Configuration.ChainKeepsHysitronWindow | micromechanics/indentation/__init__.py:97-112 | the chain Hysitron, Micromaterials, FischerScope as written ends with Hysitron's window |
| Configuration.ChosenTakesMicromaterialsWindow | micromechanics/indentation/__init__.py:103-112 | with only the chosen vendor filling, the same file gets Micromaterials' 0.99/0.5 |
| Configuration.TextFileAttempts | micromechanics/indentation/__init__.py:97-118 | a text file is tried as Hysitron, Micromaterials and FischerScope |
| Configuration.FillChosenUsesChosenVendor | micromechanics/indentation/__init__.py:128-137 | the intended chain gives every unset threshold the default of the vendor that reads the file |
| Configuration.SplitThresholds | nanoindentation/__init__.py:83-121 | the force window that both split packages set per vendor satisfies 0 < unloadPMin < unloadPMax < 1, and the newer split package's zeroGradDelta is positive |
| Configuration.SplitDefaultsAgreeWithModel | src/nanoindentation/__init__.py:58-62 | the split constructor's tip Poisson ratio 0.07, tip modulus 1140 and beta 0.75 are the values of the default model dictionary (the constant also fixes method ISO, evaluateStiffnessAtMax True and zeroGradFilter "median", lines 62, 65 and 89) |
| Configuration.SplitThresholdsInVendorTable | src/nanoindentation/__init__.py:93-135 | the newest vendor table repeats the split constants, and relForceNoise is the old zeroGradDelta |
| Configuration.SplitSetup | src/nanoindentation/__init__.py:90-136 | a missing file sets nothing; otherwise the chosen vendor is one tried, and its thresholds are stored |
| Configuration.NextStep | micromechanics/indentation/__init__.py:158-174 | an empty list stops; the first call yields the current test; later calls yield the next test and stop on a falsy reply |
| Configuration.TraversalYieldsCurrentThenRead | micromechanics/indentation/__init__.py:146-174 | a loop after __iter__ yields the current test, then each test read, until the first falsy reply |
| Configuration.TraversalAfterFirst | micromechanics/indentation/__init__.py:165-171 | after the first step the loop yields exactly the names read |
| Configuration.NextStepSplit | src/nanoindentation/__init__.py:149-157 | the split iterator stops only on an empty test list and ignores nextTest's reply |
| Evaluation.Broadcast | micromechanics/indentation/main.py:149 | two arrays combine exactly when their lengths agree or one is 1, to the other's length |
| Evaluation.FrameCorrected | micromechanics/indentation/main.py:143 | NaN stays NaN, 0 stays 0, and otherwise 1/S' = 1/S - C when finite |
| Evaluation.FrameCorrectionRoundTrip | micromechanics/indentation/main.py:143 | removing a compliance and adding it back gives the stiffness again |
| Evaluation.StiffnessSquaredOverForce | micromechanics/indentation/main.py:149 | the ratio exists exactly for a finite S and non-zero P, and ratio·P = S² |
| Evaluation.AreaAtFloor | micromechanics/indentation/theory.py:66-68 | the contact area at a contact depth of -inf is the tip's area at the depth floor, raised to the area floor |
| Evaluation.ZeroStiffnessPoint | micromechanics/indentation/theory.py:65-70 | at a zero stiffness with a positive nonMetal·β·P: hc = -inf, the floored area, Er = E = 0, and hardness times area equals the force |
| Evaluation.EvaluatePoint | micromechanics/indentation/main.py:24-27 | a NaN stiffness gives NaN everywhere; a zero stiffness with a positive nonMetal·β·P gives hc = -inf, the floored area, Er = 0, E = 0 and hardness P/Ac, and with nonMetal·β·P = 0 NaN; otherwise Oliver-Pharr, Young's modulus and hardness P/Ac |
| Evaluation.ModulusConvertsBack | micromechanics/indentation/main.py:24-26 | where Young's modulus is finite and not zero, converting it back gives the reduced modulus found; it is zero exactly for a zero stiffness, whose reduced modulus is zero too |
| Evaluation.EvaluateAll | micromechanics/indentation/main.py:148-155 | results exist exactly when the arrays broadcast, with one entry per broadcast point |
| Evaluation.HardnessIsForcePerArea | micromechanics/indentation/main.py:63-65 | hardness times contact area is the force, and every contact area is above the floor |
| Evaluation.SingleStiffnessStretches | micromechanics/indentation/main.py:149 | one stiffness is evaluated at every valid sample |
| Evaluation.DefaultModelEvaluates | micromechanics/indentation/definitions.py:34-40 | the default model provides the tip constants analyse reads |
| Evaluation.UnloadingSettings | micromechanics/indentation/theory.py:142-184 | each of unloadPMax, unloadPMin and evaluateSAtMax is present exactly when the model holds its key, with the model's value; the fit reads each one where the source does |
| Evaluation.DefaultsLackEvaluationPoint | micromechanics/indentation/theory.py:184 | defaults plus a vendor table give an ordered force window 0 < unloadPMin < unloadPMax < 1 but no evaluateSAtMax |
| Indentation.FirstCrossing | src/nanoindentation/main.py:369-372 | the first index that crosses, or none when no index does |
| Indentation.PyIndex | src/nanoindentation/main.py:330-332 | Python indexing: defined exactly in -n..n-1, negative values counting from the end |
| Indentation.ShiftedTo | src/nanoindentation/main.py:383 | the depth at the surface becomes 0 and all differences are kept |
| Indentation.ChosenCriterion | src/nanoindentation/main.py:334-354 | the first criterion, in the source's order, whose key the dictionary holds |
| Indentation.Search | src/nanoindentation/main.py:356-372 | a found surface is inside the trace |
| Indentation.Surface | src/nanoindentation/main.py:330-384 | the intended search finds an index inside the trace |
| Indentation.FilledIn | src/nanoindentation/main.py:356-359 | the NaN entries take the interpolated values and every other entry is kept |
| Indentation.FilledInIsInterpolated | src/nanoindentation/main.py:356-359 | with an interpolation that keeps the finite samples, the written-back signal is the interpolated one, without NaN |
| Indentation.SurfaceIsFirstCrossing | src/nanoindentation/main.py:334-383 | the surface is the first sample of the chosen criterion's smoothed signal beyond the threshold, below it only for the phase angle |
| Indentation.StoredSurfaceWins | src/nanoindentation/main.py:330-332 | a stored index is used with Python indexing, and outside the depths raises |
| Indentation.SurfaceAsWrittenAgrees | src/nanoindentation/main.py:369-372 | as written and as intended agree unless an earlier criterion is searched while a phase-angle key is present |
| Indentation.PhaseAngleKeyFlipsLoadSearch | src/nanoindentation/main.py:335-372 | a load search with a phase-angle key takes the first force below the threshold |
| Indentation.Last | micromechanics/indentation/main.py:459-462 | the last entry, or none for an empty array |
| Indentation.MetaOf | micromechanics/indentation/main.py:453-472 | metadata exist unless a result list is empty in the CSM case, and always name the code file |
| Indentation.CyclesLabelledInOrder | micromechanics/indentation/main.py:466-470 | without CSM, the stiffness of cycle i is stored under label i+1 |
| Indentation.CsmKeepsLastPoint | micromechanics/indentation/main.py:457-462 | with CSM, only the last stiffness, depth and force are kept, under label 0 |
| Indentation.ComplianceRemoved | micromechanics/indentation/main.py:141 | every depth is lowered by compliance times its force |
| Indentation.Indentation.constructor | micromechanics/indentation/__init__.py:46-125 | intended set-up: a fresh model of defaults and user choices, the chosen vendor, and only its defaults filled |
| Indentation.Indentation.AsWritten | micromechanics/indentation/__init__.py:64-66 | as written, the model is the shared default dictionary updated with the user's choices |
| Indentation.Indentation.ReadFileAsWritten | micromechanics/indentation/__init__.py:88-124 | the chain as written sets vendor and file type and fills defaults per branch, raising in the HDF5 branch |
| Indentation.Indentation.FillVendorDefaults | micromechanics/indentation/__init__.py:128-140 | the model becomes the filled dictionary for the object's vendor |
| Indentation.Indentation.Iter | micromechanics/indentation/__init__.py:146-155 | the reader restarts at the first test and notes it was just read |
| Indentation.Indentation.Next | micromechanics/indentation/__init__.py:158-174 | one __next__ step, as NextStep |
| Indentation.Indentation.NextSplit | src/nanoindentation/__init__.py:149-157 | one split __next__ step, as NextStepSplit |
| Indentation.Indentation.Record | micromechanics/indentation/main.py:280-282 | stores cycles and drift window; more than one cycle makes the test MULTI |
| Indentation.Indentation.Analyse | micromechanics/indentation/main.py:133-157 | depths lose the frame compliance; CSM stiffness is corrected, other stiffness is fitted with the model's settings as the fit reads them; then the evaluation and metadata follow |
| Indentation.Indentation.FitAndStore | micromechanics/indentation/main.py:144-157 | the fit gets the model's settings, each absent where its key is missing, and raises only where it reads a missing one; Nones from the fit set stiffness and valid mask to None and skip; a completed fit is evaluated and stored |
| Indentation.Indentation.RemoveCompliance | micromechanics/indentation/main.py:141-143 | depths always lose the frame compliance, stiffness only for CSM |
| Indentation.Indentation.FitStiffness | micromechanics/indentation/main.py:144-146 | a completed fit replaces stiffness and valid mask; a tuple of Nones sets both to None; a raise keeps both |
| Indentation.Indentation.StoreResults | micromechanics/indentation/main.py:148-157 | skipped exactly when the arrays do not broadcast; otherwise results and metadata are stored, or an IndexError leaves the metadata |
| Indentation.Indentation.StorePoints | micromechanics/indentation/main.py:12-82 | each result of each point is stored in its own attribute |
| Indentation.Indentation.SaveToUserMeta | micromechanics/indentation/main.py:453-472 | the metadata are added, or an IndexError leaves them unchanged |
| Indentation.Indentation.FindSurface | src/nanoindentation/main.py:328-384 | with the intended comparison, depths are shifted to zero at the surface found and force is untouched; a stiffness or phase-angle search writes the interpolated NaN entries back into the object's slope or phase, whatever the search's outcome |
| Indentation.Indentation.FilterTimestamps | micromechanics/indentation/main.py:174-179 | all four signals are thinned by the same mask |
| Indentation.Indentation.IdentifyLoadHoldUnloadCSM | micromechanics/indentation/main.py:295-355 | a missing unloadPMax raises; a histogram failure empties the cycles; success records one cycle and the drift window |
| Indentation.Indentation.IdentifyLoadHoldUnload | micromechanics/indentation/main.py:160-292 | CSM is delegated; otherwise the signals are filtered and the segments of the newest stage recorded, success only on matched edges |
| Indentation.Indentation.IdentifyLoadHoldUnloadStaged | micromechanics/indentation/main.py:174-292 | the non-CSM path: filtered signals, the newest stage recorded |
| Indentation.Indentation.RecordNewest | micromechanics/indentation/main.py:259-263 | matched edges append the test to successTest (raising without that list) and the segments are stored |
| Indentation.Indentation.IdentifyLoadHoldUnloadCSMSplit | src/nanoindentation/main.py:255-307 | the split CSM segmentation with caught histogram failure is recorded |
| Indentation.Indentation.IdentifyLoadHoldUnloadSplit | src/nanoindentation/main.py:159-252 | CSM delegates and returns False; otherwise the split stage is recorded, with the median filter exactly when zeroGradFilter is "median" |
| Indentation.Indentation.IdentifyLoadHoldUnloadCSMMonolith | source_code/nanoIndent.py:802-835 | the monolith CSM segmentation at level 0.999, histogram failures uncaught, is recorded |
| Indentation.Indentation.IdentifyLoadHoldUnloadMonolith | source_code/nanoIndent.py:680-799 | CSM delegates; otherwise the histogram stage is recorded or falls back to CSM; a raise leaves the rounds stored so far, and drift and method unchanged |
| Indentation.Indentation.IdentifyLoadHoldUnloadHistogram | source_code/nanoIndent.py:680-799 | the histogram stage's outcome decides cycles, drift and fallback; a raise after the list was reset leaves the rounds stored before it in iLHU, and drift and method unchanged |
| Indentation.SharedDefaultsLeak | micromechanics/indentation/__init__.py:64-66 | a second object built as written sees the first user's beta 0.5 |
| Indentation.IndependentDefaults | micromechanics/indentation/__init__.py:62-66 | with a model of its own the second object keeps beta 0.75 |
| Indentation.DefaultsNeverFit | micromechanics/indentation/theory.py:136-184 | with only the default tables, a test without cycles completes with empty results and otherwise the first cycle ends the call: Nones for an empty window, else the KeyError of evaluateSAtMax |
| Indentation.SplitDefaultsEvaluateAtMaximum | src/nanoindentation/theory.py:188-191 | with the split constructor's evaluateStiffnessAtMax = True, a fitted cycle takes its stiffness at unloadStart, which is in range |
| Calibration.Reciprocal | micromechanics/indentation/calibration.py:188 | 1/v exists exactly for a finite non-zero v, and r·v = 1 |
| Calibration.InverseRoot | micromechanics/indentation/calibration.py:187 | 1/√q exists exactly for q > 0, is positive, and r²·q = 1 |
| Calibration.Pooled | micromechanics/indentation/calibration.py:169-185 | pooling paired tests gives paired arrays |
| Calibration.PooledAppend | micromechanics/indentation/calibration.py:169-185 | pooling two runs of tests is joining their pools |
| Calibration.PoolTests | micromechanics/indentation/calibration.py:169-185 | the gathering loop computes the pool |
| Calibration.ShiftedAbscissae | micromechanics/indentation/calibration.py:153 | every CSM abscissa is the finite, positive 1/√(P - min P + 0.001) |
| Calibration.CsmPooled | micromechanics/indentation/calibration.py:148-162 | the CSM pool exists exactly when the first test has samples, and its abscissae are positive |
| Calibration.PoolCsm | micromechanics/indentation/calibration.py:148-162 | the CSM loop computes the CSM pool |
| Calibration.CsmPooledMonolith | source_code/nanoIndent.py:1750-1763 | the monolith's pool exists exactly when every test has samples |
| Calibration.CsmPoolingAgrees | micromechanics/indentation/calibration.py:152-159 | both pools agree when every test has samples; an empty later test makes only the monolith raise |
| Calibration.ForceLimitIsForceThreshold | micromechanics/indentation/calibration.py:163 | x < 1/√critForce is the threshold critForce < q on the shifted force |
| Calibration.PrimaryCsmMask | micromechanics/indentation/calibration.py:163 | a sample is kept exactly when deeper than critDepth and under the force limit |
| Calibration.HalfMaximumMask | micromechanics/indentation/calibration.py:166 | a sample is kept exactly when beyond half the deepest and below half the largest x |
| Calibration.CsmMaskSelects | micromechanics/indentation/calibration.py:163-166 | kept samples pass the primary filter, or none does and they lie beyond half the deepest |
| Calibration.PeakMask | micromechanics/indentation/calibration.py:189-190 | a sample is kept exactly when deeper than critDepth and above critForce |
| Calibration.PeakMaskKeepsRootsFinite | micromechanics/indentation/calibration.py:187-190 | with critForce ≥ 0 every kept abscissa is finite |
| Calibration.FitCompliance | micromechanics/indentation/calibration.py:192-196 | no data exactly for an empty mask; a line exactly for more than two finite kept samples whose x are not all equal, and then it is their least-squares line; two such samples raise the covariance ValueError |
| Calibration.ExactComplianceRecovered | micromechanics/indentation/calibration.py:196-199 | more than two samples on 1/S = C + k·x give back compliance C; two are refused |
| Calibration.CalibratedIsLeastSquares | micromechanics/indentation/calibration.py:196 | the calibrated line has the least squared error of all lines over the kept samples |
| Calibration.StiffnessCalibrationOf | micromechanics/indentation/calibration.py:148-199 | a CSM first test without samples raises |
| Calibration.CalibrateStiffness | micromechanics/indentation/calibration.py:130-204 | the fitted intercept, from more than two kept samples, becomes the tip's compliance; otherwise the compliance is kept |
| Calibration.MonolithCompliance | source_code/nanoIndent.py:1602 | the monolith's unpacking succeeds exactly for a fitted line and gives its intercept |
| Calibration.DeepEnough | micromechanics/indentation/calibration.py:58-61 | a sample is kept exactly when deeper than critDepthTip |
| Calibration.TargetArea | micromechanics/indentation/calibration.py:66 | the area at which Oliver-Pharr turns S into the target modulus |
| Calibration.TargetAreas | micromechanics/indentation/calibration.py:66 | one target area per stiffness |
| Calibration.ContactDepth | micromechanics/indentation/calibration.py:67 | hc exists exactly for a finite non-zero S, and hc + β·P/S = h |
| Calibration.ContactDepths | micromechanics/indentation/calibration.py:67 | one contact depth per sample |
| Calibration.TargetAreaReproducesModulus | micromechanics/indentation/calibration.py:64-67 | an area function through a target sample makes Oliver-Pharr return the target modulus, depth and area |
| Calibration.AreaFitParameters | micromechanics/indentation/calibration.py:96-102 | one parameter per polynomial term, at least one, plus the constant |
| Calibration.AreaFitParametersWellPosed | micromechanics/indentation/calibration.py:96-102 | every parameter starts inside its bounds, and the names are distinct |
| Calibration.PrefactorNamesDistinct | micromechanics/indentation/calibration.py:100 | the names m0, m1, … are pairwise distinct |
| Calibration.AreaResidual | micromechanics/indentation/calibration.py:90-94 | one non-negative residual per target |
| Calibration.ResidualVanishesOnTargets | micromechanics/indentation/calibration.py:90-94 | the residual vanishes exactly when the area function passes through every target |
| Calibration.SavgolWindow | micromechanics/indentation/calibration.py:74 | the window is odd and at most N/20 |
| Calibration.SavgolWindowUsable | micromechanics/indentation/calibration.py:74-75 | the window exceeds the filter's order 3 exactly when there are at least 100 samples |
| Calibration.PolynomialArea | micromechanics/indentation/calibration.py:86-105 | the fit is refused for non-finite targets or too few samples; otherwise bounded prefactors with the kind tag |
| Calibration.AreaCalibration | micromechanics/indentation/calibration.py:57-105 | no beta fails; interpolation is chosen exactly without a polynomial order; fitted prefactors are bounded and fitted to the deep samples |
| Calibration.FittedPrefactors | micromechanics/indentation/calibration.py:105 | the fitted values with the kind tag form a well-formed prefactor list |
| Calibration.SelfBetaRaises | micromechanics/indentation/calibration.py:67 | as written, reading self.beta makes every calibration past the target modulus fail |
| Calibration.ModelBetaReproducesTargetModulus | micromechanics/indentation/calibration.py:65-67 | with the model's beta, where the fitted area passes through a target, the evaluation returns the target modulus |
| Calibration.TargetModulusPositive | micromechanics/indentation/calibration.py:65 | the target reduced modulus of a physical material is positive |
| Calibration.ModulusAtSample | micromechanics/indentation/calibration.py:64-67 | a sample on its target area evaluates to the target modulus |
| Calibration.StartValues | micromechanics/indentation/calibration.py:97-102 | the start value of every parameter |
| Calibration.FirstTrialPrefactors | micromechanics/indentation/calibration.py:90-97 | the first trial prefactors are well formed, start with 24.3 and carry the kind tag |
| Calibration.AdoptAreaFit | micromechanics/indentation/calibration.py:70-105 | the tip takes the fitted prefactors, the interpolant, or the first trial, and keeps its compliance |
| Calibration.Calibrate | micromechanics/indentation/calibration.py:10-105 | the compliance is calibrated first; the area is calibrated exactly when a compliance was fitted, and the tip takes it |
| Hertz.Penetration | src/nanoindentation/hertz.py:17-18 | the depth past the offset, clamped at zero |
| Hertz.HertzEquation | src/nanoindentation/hertz.py:7-19 | the caller's depths are clamped in place and each force is the Hertz force of the original depth |
| Hertz.HertzForceVanishes | src/nanoindentation/hertz.py:17-19 | no force at or above the offset |
| Hertz.HertzForceIncreasing | src/nanoindentation/hertz.py:17-19 | for positive E and R the force grows strictly with depth past the offset |
| Hertz.HertzForceSquared | src/nanoindentation/hertz.py:19 | (3F/4E)² = R·d³ |
| Hertz.FitMask | src/nanoindentation/hertz.py:26-27 | one flag per sample |
| Hertz.FittedBelowPeak | src/nanoindentation/hertz.py:26-27 | every fitted sample is strictly inside the force range and below the peak |
| Hertz.HertzFitOf | src/nanoindentation/hertz.py:22-31 | an empty trace raises; a fit lies within its bounds |
| Hertz.Lowered | src/nanoindentation/hertz.py:43 | every depth is lowered by the same offset |
| Hertz.LowerDepths | src/nanoindentation/hertz.py:42-43 | the test's depths are lowered |
| Hertz.HertzFitOn | src/nanoindentation/hertz.py:22-44 | the fit on the test; with correctH the depths are lowered by h0 |
| Hertz.SecondRateIsEntry | src/nanoindentation/hertz.py:99-104 | the second rate is one of the increments |
| Hertz.SecondRateWithoutDeletion | src/nanoindentation/hertz.py:99-104 | a maximum three or more past the jump is the second rate |
| Hertz.SecondRateBounded | src/nanoindentation/hertz.py:99-104 | the second rate is at most the largest increment |
| Hertz.SecondRateShifts | src/nanoindentation/hertz.py:100-104 | deletion shifts later entries: [10,0,0,9,0,8] from jump 0 gives 8 |
| Hertz.DeletionStep | src/nanoindentation/hertz.py:101-103 | deleting a maximum fewer than three past the jump does not change the second rate |
| Hertz.SecondJump | src/nanoindentation/hertz.py:99-104 | the deletion loop computes the second rate |
| Hertz.Detrended | src/nanoindentation/hertz.py:77-80 | each increment minus its quadratic trend |
| Hertz.ElasticLawClamped | src/nanoindentation/hertz.py:86-92 | the elastic law is constant at or above the offset, and non-negative for a non-negative prefactor |
| Hertz.Kept | src/nanoindentation/hertz.py:73 | one flag per valid sample |
| Hertz.KeptAreDeep | src/nanoindentation/hertz.py:73-75 | every kept depth is more than removeInitialNM beyond the shallowest valid depth |
| Hertz.PopInCandidate | src/nanoindentation/hertz.py:73-81 | raises exactly without a valid sample; a candidate has at least two kept samples |
| Hertz.IncrementRates | src/nanoindentation/hertz.py:77-80 | the increments with their fitted trend removed |
| Hertz.CandidateOn | src/nanoindentation/hertz.py:81-98 | fails only in its own steps; success gives the pop-in force at the jump and its indicators |
| Hertz.PopInWindows | src/nanoindentation/hertz.py:81-83 | the jump is the largest rate, the plastic window stays within 150 samples and the peak, the elastic window starts at the first force above 0.01 mN |
| Hertz.FitWindows | src/nanoindentation/hertz.py:84-94 | a failed elastic fit is the only error |
| Hertz.ElasticSlope | src/nanoindentation/hertz.py:94 | none exactly at x = 0; otherwise the secant slope of the elastic law between 0.9·x and x |
| Hertz.PopInOf | src/nanoindentation/hertz.py:48-104 | a found pop-in is the candidate's force with its indicators and the second rate |
| Hertz.PopInSearch | src/nanoindentation/hertz.py:73-104 | the search with its deletion loop computes the pop-in |
| Hertz.PopInOn | src/nanoindentation/hertz.py:48-120 | the pop-in of the test; with correctH all depths are lowered by h0 |
| Drift.SurfaceIndex | src/nanoindentation/seldomUsedFunctions.py:28 | the first slope above the threshold, or none exactly when there is none |
| Drift.Rezeroed | src/nanoindentation/seldomUsedFunctions.py:29-31 | every entry is lowered by the entry at the surface, which becomes 0 |
| Drift.Deflected | src/nanoindentation/seldomUsedFunctions.py:32 | the depth less the frame deflection p/frameStiffness |
| Drift.DriftMask | src/nanoindentation/seldomUsedFunctions.py:33-36 | a sample is kept exactly when in the slice and at or after the middle time |
| Drift.DriftWindow | src/nanoindentation/seldomUsedFunctions.py:33-36 | the window is missing exactly when the drift indices are unset or out of range |
| Drift.TwoPointRate | src/nanoindentation/seldomUsedFunctions.py:38 | none exactly for equal times; otherwise rate·Δt = Δh |
| Drift.TareOf | src/nanoindentation/seldomUsedFunctions.py:25-42 | skipped exactly for non-Agilent or CSM tests; a tare is at the first slope above the threshold |
| Drift.TaredSignals | src/nanoindentation/seldomUsedFunctions.py:29-44 | the tared signals have the raw length |
| Drift.TareDepthForce | src/nanoindentation/seldomUsedFunctions.py:8-68 | a tare replaces depth, force and time together; otherwise nothing changes |
| Drift.TaredZeroAtSurface | src/nanoindentation/seldomUsedFunctions.py:29-31 | depth, force and time are zero at the surface |
| Drift.DriftWindowEnds | src/nanoindentation/seldomUsedFunctions.py:33-37 | the drift window's first sample comes no later than its last |
| Drift.DriftRemoved | src/nanoindentation/seldomUsedFunctions.py:37-42 | after the correction both ends of the drift window lie at the same depth |
| Drift.FlatAcross | src/nanoindentation/seldomUsedFunctions.py:38-42 | a rate measured between two samples levels their tared depths |
| Drift.TaredForce | src/nanoindentation/seldomUsedFunctions.py:44 | the tared force is the raw force change less the spring's share of the depth change |
| Drift.LookBackRate | src/nanoindentation/seldomUsedFunctions.py:208-211 | undefined before 20 s, then the two-point rate against the sample nearest 20 s earlier |
| Drift.LookBackRates | src/nanoindentation/seldomUsedFunctions.py:206-211 | the rate loop computes the look-back rate of every sample |
| Drift.HysitronDrift | src/nanoindentation/seldomUsedFunctions.py:203-215 | raises exactly without samples; otherwise the look-back rate nearest 40 s |
| Drift.DefaultStartKeepsFraction | src/nanoindentation/seldomUsedFunctions.py:230-233 | the default start leaves the final fraction of the time span to the fit |
| Drift.FitStart | src/nanoindentation/seldomUsedFunctions.py:234 | one before the nearest sample, never before the first |
| Drift.FitStartWraps | src/nanoindentation/seldomUsedFunctions.py:234-235 | as written and as intended agree unless the nearest sample is the first, where as written keeps only the last sample |
| Drift.FitStartWrapsExample | src/nanoindentation/seldomUsedFunctions.py:230-235 | fraction 1 on [0,1,2] s: as written starts at sample 2, as intended at 0 |
| Drift.MicromaterialsDrift | src/nanoindentation/seldomUsedFunctions.py:226-235 | raises exactly without samples; a rate is the fitted slope over the samples from the start, divided by 1000 |
| Drift.AnalyseDrift | src/nanoindentation/seldomUsedFunctions.py:185-236 | Hysitron .hld and Micromaterials hdf5 are analysed; only the Hysitron rate reaches the metadata |
| Drift.TruncatedQuotient | src/nanoindentation/seldomUsedFunctions.py:102 | int(n/k) truncates toward zero and raises for k = 0 |
| Drift.SmoothingWindow | src/nanoindentation/seldomUsedFunctions.py:102 | the window is odd and within one of the quotient |
| Drift.SmoothingWindowMatchesCalibration | src/nanoindentation/seldomUsedFunctions.py:102 | with 20 points it is the calibration's savgol window |
| Tif.ZeissPixelSize | micromechanics/tif/__init__.py:117-126 | an unknown unit aborts; nm and µm convert to µm |
| Tif.ZeissUnitsAgree | micromechanics/tif/__init__.py:112-126 | one length read in any accepted unit gives the same µm value |
| Tif.WidthMismatch | micromechanics/tif/__init__.py:131 | undefined for a zero width; otherwise a miss by more than one per cent |
| Tif.DerivedWidthMatches | micromechanics/tif/__init__.py:225-227 | a width derived from the pixels never trips the check |
| Tif.Log10Floor | micromechanics/tif/__init__.py:268 | 10^d ≤ q < 10^(d+1) |
| Tif.Log10FloorCountsDigits | micromechanics/tif/__init__.py:268 | the exponent is one less than the number of digits |
| Tif.LeadingUnit | micromechanics/tif/__init__.py:266-269 | the leading unit is at least 1 |
| Tif.BarLength | micromechanics/tif/__init__.py:265-273 | an explicit length wins; a quarter rounding below 1 gives 0.1 µm |
| Tif.AutomaticLengthOneDigit | micromechanics/tif/__init__.py:266-271 | the automatic length is one digit 1..10 times its unit, within half a unit of a quarter of the width |
| Tif.LeadingUnitBounds | micromechanics/tif/__init__.py:266-269 | the unit is the power of ten at or just below the rounded quarter |
| Tif.LeadingDigitBounds | micromechanics/tif/__init__.py:266-269 | the digit is the quarter, counted in units, rounded |
| Tif.BarPixels | micromechanics/tif/__init__.py:274 | the bar covers at most the length, and one more pixel would exceed it |
| Tif.LabelReadsBack | micromechanics/tif/__init__.py:300-303 | the label is a number and a unit, the number being the length in that unit, truncated |
| Tif.BarScale | micromechanics/tif/__init__.py:291-292 | a negative scale selects widthPixel/16 |
| Tif.BarOrigin | micromechanics/tif/__init__.py:295-299 | the box is placed at the right, centre or left edge and at the top or bottom, as the site says |
| Tif.LastIndexOf | micromechanics/tif/__init__.py:388 | the last index of the character, or -1 |
| Tif.RootEnd | micromechanics/tif/__init__.py:388 | the cut at the last dot of the last component, after which no dot or slash follows |
| Tif.SavedName | micromechanics/tif/__init__.py:388-396 | the base name plus the new extension; an unknown type is the whole name |
| Tif.SavedNameSplitsBack | micromechanics/tif/__init__.py:388-396 | splitting the saved name again gives back the base name and the new extension |
| Tif.CropRange | micromechanics/tif/__init__.py:419-432 | the kept range lies within the axis; unset bounds keep it whole |
| Tif.Cropped | micromechanics/tif/__init__.py:419-432 | each pixel of the crop is taken from its place in the original |
| Tif.CroppedGreyLevels | micromechanics/tif/__init__.py:419-433 | cropping keeps grey levels in 0..255 |
| Tif.CropUnsetKeeps | micromechanics/tif/__init__.py:419-432 | with no bound set, cropping changes nothing |
| Tif.EffScale | micromechanics/tif/__init__.py:636-642 | the contrast factor is mean/average clamped to [1, upperEnd] |
| Tif.FactorRestoresMean | micromechanics/tif/__init__.py:636-643 | the factor maps its column's average to the image mean |
| Tif.Gains | micromechanics/tif/__init__.py:625-643 | one factor per column or row, from the original image |
| Tif.Levelled | micromechanics/tif/__init__.py:634-647 | the treated columns are stretched and shifted by their gain, the rest unchanged |
| Tif.LevelledAverage | micromechanics/tif/__init__.py:625-648 | after levelling every treated column has the original mean as its average; the others keep theirs |
| Tif.BytesOfScaled | micromechanics/tif/__init__.py:625-649 | converting to floats and back gives the image again |
| Tif.Level | micromechanics/tif/__init__.py:634-647 | the loop over columns or rows computes the levelled image |
| Tif.Tif.constructor | micromechanics/tif/__init__.py:42-52 | sizes are -1 and no image is loaded |
| Tif.Tif.SetData | micromechanics/tif/__init__.py:231-250 | the image and pixel size are stored and the width is derived from them |
| Tif.Tif.InitZeiss | micromechanics/tif/__init__.py:112-133 | width and pixel size in µm, and the one-per-cent check; an unknown unit stops early |
| Tif.Tif.FindScaleBar | micromechanics/tif/__init__.py:258-276 | the bar length is stored, and the pixel count unless the width is zero |
| Tif.Tif.AddScaleBar | micromechanics/tif/__init__.py:279-303 | the bar is recomputed when missing or given, then placed and labelled |
| Tif.Tif.Save | micromechanics/tif/__init__.py:377-402 | the saved name |
| Tif.Tif.Crop | micromechanics/tif/__init__.py:409-436 | the image is cut and the width follows the new pixel count |
| Tif.Tif.Topology | micromechanics/tif/__init__.py:607-650 | under numpy's uint8 cast (a grey level 0..255, the identity on levels), the image stays loaded; the columns or rows in range get the image's mean as average; a non-empty range reaching past the end raises, an empty one leaves the image as it was; an all-black image is left alone |

## Left out

- Vendor file readers (Agilent, Hysitron, Micromaterials, FischerScope,
  HDF5, converters) and `nextTest`'s vendor dispatch. They parse files, so
  the model takes their outcome as a parameter. This includes
  `micromechanics/indentation/main.py:376`, which also compares with the
  missing `Vendor.Hdf5`.
- Plotting, printing, verbosity, the GUI and the tutorials: output only.
- Pixel processing in `micromechanics/tif`: `initNPVE`/`initFEI`,
  `autoCrop`, `enhance`, the filters, contrast, `filterCurtain`,
  `removeGrayGradient`, rotations and flips, `reset`, `show` and `hist`.
  These are image I/O and scipy/PIL calls.
- Drawing the scale bar, fonts, and the resize and greyscale step of `save`.
  These are PIL calls. The cast to `uint8` is the parameter `toByte`.
- Evaluation.EvaluatePoint: an infinite stiffness (frame correction with
  1/S equal to the frame compliance, or a secant over two equal depths)
  is `None`, so the model gives NaN everywhere. numpy gives hc = h, a
  finite floored area and hardness, Er = inf and a finite negative Young's
  modulus there.
- Evaluation.EvaluatePoint: a zero stiffness with a negative nonMetal·β·P
  puts the contact depth at +inf. The model gives NaN everywhere there;
  numpy's result depends on the area function at infinity, which reals
  cannot express.
- Indentation.Indentation.FindSurface: numpy's `interp` raises for a
  signal without a finite sample; the interpolation parameter always
  returns values.
- Tif.Tif.Topology: for an all-black image numpy's 0/0 makes the treated
  pixels NaN; the model reports it and leaves the image unchanged.
- Tif.Tif.Topology requires a loaded image (`Valid`); the source raises on
  an empty one.
- Tif.Log10Floor: float rounding of `math.log10` near powers of ten is not
  modelled; the exact integer exponent is used.
- The Windows path module (`ntpath`) of `os.path.splitext`, and the parsing
  of the Zeiss header string.
- Floating point in general: numbers are exact reals. `sqrt`, `pow`,
  `cos`, `tan` and π come from `Numerics.Maths`, a parameter constrained by
  the laws the proofs use.
- `curve_fit`, `lmfit`, `newton`, `histogram`, `percentile`,
  `gaussian_filter1d`, `median_filter`, the binary morphology,
  `savgol_filter` and `interp1d` are parameters. Their internals are
  numerical libraries.
- `nanoindentation/hertz.py`'s `hertzFit`: it only prints the sum of the
  depths and returns `None`. Its `popIn` is the same as the split
  package's, which is modelled.
- Calibration.Calibrate: after a compliance fit with no data, the source
  stores `None` as the tip's compliance and the next `analyse` raises. The
  model keeps the old compliance and returns no area fit.
- `nonMetal` is fixed at 1 in the area calibration, as the source calls it;
  `compareRead` and the `isFusedSilica` statistics are not modelled, because
  they only compare and print.
- Drift.TareDepthForce requires a non-zero frame stiffness; the source
  divides by it and yields infinities.
- Drift.TareDepthForce: a drift window whose two ends share a time gives
  numpy's NaN rate. The model reports it and leaves the signals unchanged.
- Drift.MicromaterialsDrift: when all times are equal, the model's line fit
  has no result, where numpy returns a least-squares answer of minimal norm.
- Drift.AnalyseDrift stores the Hysitron rate as a one-entry list of values.
- `calcStiffness2Force`: it reads the attribute `sRaw`, which nothing sets.
- The non-CSM calibration path of the monolith (`getDataframe`, `dfAll`):
  it reads the metadata table that the file readers build.
- `nanoindentation/definitions.py`: it repeats the enumerations of the
  newest `definitions.py`.
- `Option` `None` stands for both NaN and infinity where numpy would
  distinguish them. Comparisons and the fits treat the two alike, but the
  evaluation does not: see the `Evaluation.EvaluatePoint` line on an
  infinite stiffness.

## Findings

| source | as written | input that shows it | evidently intended | confidence | as-written member | corrected member |
|---|---|---|---|---|---|---|
| micromechanics/indentation/main.py:201-209 | the cleaned masks `loadMaskTry`/`unloadMaskTry` are assigned only when both masks exceed 100 samples but read always | a test of 50 samples | tests of 100 samples or fewer keep their masks | high, not executed | Segmentation.CleanShortTestExample | Segmentation.Clean |
| micromechanics/indentation/__init__.py:121 | the HDF5 branch assigns `Vendor.Hdf5`, which the enumeration lacks | any `.hdf5` file name | the HDF5 branch chooses `Vendor.CommonHDF5` | high, not executed | Configuration.Hdf5BranchRaises | Configuration.Attempts |
| micromechanics/indentation/calibration.py:67 | the depth correction reads `self.beta`, which the object does not have | any area calibration past the target modulus | beta is read from the model dictionary | high, not executed | Calibration.SelfBetaRaises | Calibration.ModelBetaReproducesTargetModulus |
| src/nanoindentation/seldomUsedFunctions.py:234 | the fit starts at `argmin - 1`, which is -1 when the nearest sample is the first | fraction 1 on times [0, 1, 2] | the fit starts at the first sample | medium, not executed | Drift.FitStartWrapsExample | Drift.FitStart |
| micromechanics/indentation/__init__.py:64-66 | the object's model is the module's default dictionary itself, updated with the user's choices | two objects, the first with beta 0.5 | each object gets its own copy of the defaults | high, not executed | Indentation.SharedDefaultsLeak | Indentation.IndependentDefaults |
| micromechanics/indentation/__init__.py:97-112 | every branch tried fills its vendor's defaults before its reader runs, and the defaults of a failed vendor stick | a Micromaterials `.txt` file: Hysitron is tried first | only the vendor that reads the file fills its defaults | medium, not executed | Configuration.FirstVendorDefaultsStick | Configuration.ChosenTakesMicromaterialsWindow |
| src/nanoindentation/main.py:369-372 | the comparison is "below the threshold" whenever the dictionary has a phase-angle key, whatever criterion was chosen | a load threshold 0.1 with a phase-angle key | only the phase-angle search compares below | medium, not executed | Indentation.PhaseAngleKeyFlipsLoadSearch | Indentation.Surface |
