# BrakeDiscInspector in Dafny

BrakeDiscInspector inspects brake discs for surface defects. Its Python backend scores each
region of interest (ROI) of an image against a PatchCore memory of good examples: it extracts
patch embeddings, measures each patch's distance to the nearest stored embedding, turns the
distance map into a heatmap and an overall score, and compares the score with a per-ROI
threshold that is calibrated from OK and NG samples. It keeps the fitted memories, indexes and
calibrations on disk per (role, ROI) and caches them in memory. The C# GUI lets an operator
define ROIs on a master image, find the two master patterns in each new image, move every
inspection ROI with them, call the backend over HTTP, collect verdicts per ROI, and talk to a
Siemens PLC.

This project models the core of both halves and proves what that code promises:

- `Calib`, `PatchCore`, `Infer`, `App`, `Storage` model the backend's threshold choice, coreset
  sampling and nearest-neighbour scoring, inference post-processing, the HTTP handlers'
  validation and caches, and the on-disk naming of stored artefacts;
- `Roi`, `Placement`, `Alignment`, `Workflow`, `Layouts`, `RoiConfig`, `Presets`, `CvRects`,
  `LocalMatching`, `BackendClient`, `BackendApi`, `Plc`, `AppSettings` model the GUI's ROI
  model, the placement and alignment of inspection ROIs, batch verdicts and threshold
  suggestion, layout normalisation, presets, geometry helpers, the master pattern matcher, the
  backend clients' request building and response handling, the PLC bit protocol and the
  settings merge;
- `Wrappers`, `Text` and `Numeric` hold shared definitions (Option/Result, character classes and
  trimming, decimal text, rounding, clamps, floating-point remainder, sorting, percentiles).

Objects whose fields the GUI changes in place are classes whose methods are specified by a pure
function of their old value; loops in the source are methods with loop invariants; the rest is
functions and lemmas.

## Model

| member | source | states |
|---|---|---|
| `Calib.AsOneDimFinite` | backend/calib.py:8-15 | a missing argument gives an empty array; otherwise the result is the finite values of the input, one for each finite entry at the increasing positions of those entries (so with their multiplicity and order; NaN and the infinities are dropped), no longer than the input, and holds exactly the finite values that occur in it |
| `Calib.ChooseThreshold` | backend/calib.py:18-43 | fails exactly when no finite OK score remains (ValueError) or the percentile is outside [0, 100]; otherwise: no NG scores gives the OK percentile p_ok, a 5th NG percentile p_ng at or below it gives p_ok·1.02, and a higher one gives exactly (p_ok + p_ng)/2, strictly between the two |
| `Calib.ThresholdAtLeastOkPercentile` | backend/calib.py:32-43 | with non-negative OK scores the threshold is never below the OK percentile |
| `Calib.ThresholdAtLeastMinOk` | backend/calib.py:32-43 | with non-negative OK scores the threshold is at least the smallest OK score |
| `Calib.ThresholdMonotoneWithoutNg` | backend/calib.py:32-36 | without NG scores a higher requested percentile never lowers the threshold |
| `Calib.SingleScoresGiveMidpoint` | backend/calib.py:38-43 | one OK score below one NG score gives exactly their midpoint with the default percentile |
| `PatchCore.L2Normalize` | backend/patchcore.py:12-14 | one row out per row in; row i is NormalizeRow of input row i, so it keeps its length and has squared norm below 1 |
| `PatchCore.NormalizeRow` | backend/patchcore.py:13-14 | x/(‖x‖+eps): each entry times ‖x‖+eps gives back the input entry; the row keeps its length and has squared norm below 1 |
| `PatchCore.CoresetTarget` | backend/patchcore.py:46 | the target m is at least 1 and at least n·rate, and when above 1 it is less than n·rate + 1 (the ceiling) |
| `PatchCore.FirstArgMax` | backend/patchcore.py:26 | numpy.argmax: an index holding the maximum, before which every value is strictly smaller |
| `PatchCore.Range` | backend/patchcore.py:21 | numpy.arange(n): the indices 0..n-1 in order |
| `PatchCore.DistToSetShrinks` | backend/patchcore.py:28-29 | adding a center never increases a row's distance to the center set, and bounds it by the distance to the new center |
| `PatchCore.KCenterGreedy` | backend/patchcore.py:16-30 | m ≥ n returns exactly 0..n-1; otherwise max(m,1) indices, all below n, starting with the seeded row, each later one the first argmax of the distances to the centers before it |
| `PatchCore.GreedyStep` | backend/patchcore.py:26-29 | appending the argmax keeps the greedy description, and the new distance vector is the pointwise minimum of the old one and the distances to the new center |
| `PatchCore.GreedyDistancesNeverIncrease` | backend/patchcore.py:29 | no row's nearest-center distance grows from one greedy step to the next |
| `PatchCore.BuildCoreset` | backend/patchcore.py:43-55 | the input is l2-normalised first; the coreset has min(max(1, ceil(n·rate)), n) rows, at least 1 when n > 0; row k is the normalised input row at the k-th selected index; every index when the target reaches n, else the greedy k-center choice over distances between normalised rows; the memory is the one the constructor makes, with an index exactly when FAISS is installed |
| `PatchCore.NewMemory` | backend/patchcore.py:33-40 | a constructed memory always has a FAISS index or a fitted sklearn search |
| `PatchCore.KnnMinDist` | backend/patchcore.py:57-68 | the query rows are l2-normalised; fails exactly when neither search exists; otherwise one distance per query row, non-negative, whose square is the smallest squared Euclidean distance from the normalised row to a memory row |
| `PatchCore.NearestSqDistIsMin` | backend/patchcore.py:63 | the squared distance a one-neighbour search finds is at most the distance to every memory row and equal to the distance to one of them |
| `PatchCore.Search` | backend/patchcore.py:61-68 | with an index or a fitted sklearn search, one non-negative distance per (normalised) query row, squaring to its nearest squared distance, whichever search is used |
| `PatchCore.IndexSearch` | backend/patchcore.py:63-64 | sqrt(max(D, 0)) of the flat L2 index: one non-negative distance per query row, squaring to its nearest squared distance |
| `PatchCore.SklearnSearch` | backend/patchcore.py:67-68 | kneighbors(Q, 1): one non-negative distance per query row, squaring to its nearest squared distance |
| `PatchCore.SearchPathsAgree` | backend/patchcore.py:61-68 | the FAISS path and the sklearn path return the same distances for the same memory rows |
| `PatchCore.KeptRowScoresZero` | backend/patchcore.py:43-68 | a training row that the coreset kept scores distance 0 when it is queried against the built memory |
| `PatchCore.SqrtNonNegative` | backend/patchcore.py:64 | sqrt(max(x,0)) is non-negative and squares back to x when x ≥ 0 |
| `PatchCore.ConstructedMemoryIsFitted` | backend/patchcore.py:59-60 | a memory made by the constructor never takes the "not fitted" error path |
| `App.CacheKey` | backend/app.py:650-651 | the key starts with recipe+"::" and ends with "::"+roi, and its length is the sum of the parts plus the three separators |
| `App.CacheKeyInjective` | backend/app.py:650-651 | identifiers without ':' give distinct keys |
| `App.CacheKeyAmbiguousWithColons` | backend/app.py:650-651 | with an unescaped "::" inside an identifier two different identities share one key |
| `App.Remove` | backend/app.py:662 | removing a key leaves every other key and no occurrence of it |
| `App.PopKeepsOthers` | backend/app.py:659-668 | pop removes only that key: every other entry keeps its presence and value |
| `App.MoveToEndMakesNewest` | backend/app.py:688 | move_to_end keeps the entries and places the key last, at the most recent end |
| `App.StoreValid` | backend/app.py:744-750 | storing keeps the cache well formed and maps the key to the new entry |
| `App.EvictBound` | backend/app.py:654-656 | after eviction min(max, size) entries remain (none for a negative bound), they are the newest suffix of the order, and they are unchanged |
| `App.ReloadedEntryIsNewest` | backend/app.py:744-753 | with a bound of at least one, a reloaded entry survives eviction as the most recent one and the cache holds at most the bound |
| `App.LruCache.Get` | backend/app.py:685 | OrderedDict.get returns a value exactly when the key is present |
| `App.LruCache.PopKey` | backend/app.py:662 | the cache becomes the pure Pop of its old value |
| `App.LruCache.MoveKeyToEnd` | backend/app.py:688 | the cache becomes the pure MoveToEnd of its old value |
| `App.LruCache.Put` | backend/app.py:745 | the cache becomes the pure Store of its old value |
| `App.LruCache.EvictLru` | backend/app.py:654-656 | the popitem loop leaves the pure Evict of the old cache; it reports failure exactly when the bound is negative (popitem on an empty dictionary) |
| `App.LruCache.DropOldest` | backend/app.py:655-656 | popitem(last=False): the oldest key leaves the order and its entry leaves the cache |
| `App.BuildEntry` | backend/app.py:694-736 | fails (RuntimeError) exactly when faiss is missing and required or the sklearn fallback is disallowed; otherwise it records both file times, has a FAISS index iff faiss is installed, deserialises the blob iff one exists, and is always searchable |
| `App.GetPatchcoreMemoryCached` | backend/app.py:671-755 | a missing memory file purges the key and returns None; equal memory and index times return the cached entry and move it to the newest end; an unreadable memory purges and returns None; a reload stores the entry, moves it last and evicts |
| `App.GetCalibCached` | backend/app.py:758-788 | the same rule as the memory cache with a single calibration file time |
| `App.Invalidate` | backend/app.py:659-668 | drops exactly the one key, every other entry unchanged |
| `App.ValidateMmPerPx` | backend/app.py:828-832 | accepts exactly finite positive values, returning them unchanged; everything else is HTTP 400 |
| `App.IsTruthy` | backend/app.py:835-840 | a bool is itself, None is false, anything else is true iff its stripped lower-case text is 1/true/yes/on |
| `App.GuessFromPrefixes` | backend/app.py:872-876 | a number is found exactly when the value is one of the remaining prefixes followed by digits only |
| `App.RoiIndexGuess` | backend/app.py:870-877 | a slot number is returned exactly when the stripped lower-case id is "inspection-", "inspection_" or "inspection " followed by digits |
| `App.RoiIndexGuessRoundTrip` | backend/app.py:870-877 | "inspection-N" (and the other two spellings) is read back as N |
| `Infer.CheckGrid` | backend/infer.py:70-75 | passes exactly when no grid is expected or the extractor's grid equals it; otherwise the error names both grids |
| `Infer.BlurKernelSize` | backend/infer.py:86-91 | no blur exactly when sigma ≤ 0; otherwise the kernel side is odd and at least 3, within [6σ, 6σ+2] when above 3, and at least 6σ once σ ≥ 0.5 |
| `Infer.PercentileInUse` | backend/infer.py:98 | the per-call percentile when given, else the engine's |
| `Infer.Masked` | backend/infer.py:99 | heat_proc[mask]: the value of every selected pixel, once each, in pixel order (the k-th value is the pixel at the k-th selected position); empty iff the mask selects nothing |
| `Infer.MaskedMembers` | backend/infer.py:99 | no more values than pixels; each is the value of a selected pixel and every selected pixel's value is among them |
| `Infer.MaskedScore` | backend/infer.py:97-100 | 0.0 when the mask selects no pixel; otherwise exactly the requested percentile of the masked values, between their minimum and maximum, refused outside 0..100 |
| `Infer.MaskedScoreMonotone` | backend/infer.py:100 | a higher percentile never lowers the score |
| `Infer.VisValue` | backend/infer.py:103-109 | each visualisation value is in [0,1]; 0 outside the mask or when mx ≤ mn; 0 at or below mn and 1 at or above mx |
| `Infer.VisValueMonotone` | backend/infer.py:107 | the normalisation keeps the order of values inside the mask |
| `Infer.VisRange` | backend/infer.py:105 | the 1st and 99th percentiles are ordered and lie between the masked minimum and maximum |
| `Infer.HeatVis` | backend/infer.py:103-109 | heat_vis has one value per pixel, each in [0,1], and 0 at every pixel outside the mask |
| `Infer.HeatVisMonotone` | backend/infer.py:103-109 | two masked pixels keep their order in the visualisation |
| `Infer.ToU8` | backend/infer.py:110 | (v·255+0.5) truncated is in 0..255, the nearest integer to v·255, 0 for 0 and 255 for 1 |
| `Infer.HeatU8` | backend/infer.py:110 | every pixel of the 8-bit heatmap is in 0..255 |
| `Infer.ApplyMask` | backend/infer.py:111 | bitwise_and under the mask keeps a pixel inside the mask and zeroes it outside |
| `Infer.MaskingIsNoOp` | backend/infer.py:103-111 | the final bitwise_and changes nothing because heat_vis is already 0 outside the mask |
| `Infer.Binarize` | backend/infer.py:117-118 | a pixel is 255 exactly when the mask selects it and its value reaches the threshold, and 0 otherwise |
| `Infer.KeepLarge` | backend/infer.py:120-125 | the surviving contours are those whose pixel area reaches the mm²-derived pixel threshold, each once and in their original order (the k-th is the contour at the k-th such position) |
| `Infer.ToRegions` | backend/infer.py:127-135 | one region per contour, with its box, its pixel area and the converted mm² area |
| `Infer.FindSlot` | backend/infer.py:136 | the insertion point after every region at least as large and before the first smaller one |
| `Infer.InsertAt` | backend/infer.py:136 | inserting there keeps the descending order and adds exactly that region |
| `Infer.SortRegions` | backend/infer.py:136 | the result is sorted by pixel area, largest first, is a permutation of the regions, and keeps the order of the regions of each area (a stable sort) |
| `Infer.InsertAtIsStable` | backend/infer.py:136 | inserting at the slot keeps the order of the regions of each area, the new region last among its own |
| `Infer.Run` | backend/infer.py:35-161 | a grid mismatch fails before scoring; a missing search fails; otherwise the score is the masked score at the percentile in use, the heatmap is the masked 8-bit visualisation, the threshold and grid are echoed, regions are empty without a threshold and otherwise a largest-first permutation of the large contours of the binarised heatmap in which regions of equal area keep their contour order |
| `Storage.SanitizeChar` | backend/storage.py:19 | a letter, digit, '-' or '_' is kept; every other character becomes '_' |
| `Storage.Sanitize` | backend/storage.py:18-20 | the result is non-empty and made only of safe characters; a blank value gives "default"; otherwise it has the stripped value's length, keeps each safe character in place and puts '_' in place of each other one |
| `Storage.SanitizeIdempotent` | backend/storage.py:18-20 | sanitising twice is sanitising once |
| `Storage.LegacyFlatBaseName` | backend/storage.py:32-34 | the legacy flat name is made of safe characters only |
| `Storage.LegacyFlatNamesCollide` | backend/storage.py:32-34 | the legacy names are not injective: ("a_b","c") and ("a","b_c") collide, as do "a b" and "a_b" |
| `Storage.Utf8Char` | backend/storage.py:26 | one character encodes to 1-4 bytes, none above 0xF4, with the lead byte telling the length |
| `Storage.ScalarOfUtf8Char` | backend/storage.py:26 | the bytes of an encoded character carry its code point back |
| `Storage.Utf8` | backend/storage.py:26 | str.encode("utf-8") is empty only for the empty string and has no byte above 0xF4 |
| `Storage.Utf8Injective` | backend/storage.py:26 | different strings have different UTF-8 encodings |
| `Storage.B64Char` | backend/storage.py:26 | the url-safe alphabet never yields '=' and yields '_' only for 63 |
| `Storage.B64IndexOfChar` | backend/storage.py:26 | an alphabet character maps back to its position |
| `Storage.B64Unpadded` | backend/storage.py:26 | the unpadded url-safe base64 text is empty only for no bytes and never contains '=' |
| `Storage.B64RoundTrip` | backend/storage.py:26 | decoding the unpadded text gives back the bytes |
| `Storage.B64Injective` | backend/storage.py:26 | different byte strings have different unpadded encodings |
| `Storage.StripPadding` | backend/storage.py:26 | rstrip("=") of the padded encoding is the unpadded encoding |
| `Storage.B64NoDoubleUnderscore` | backend/storage.py:26 | the encoding of bytes below 0xFC never contains "__" and never starts with '_' |
| `Storage.EncodeComponent` | backend/storage.py:22-27 | "" gives "default"; any other value gives the '='-stripped url-safe base64 of its UTF-8 bytes, never empty |
| `Storage.DefaultIsNotAnEncoding` | backend/storage.py:24-27 | "default" is not the encoding of any byte string |
| `Storage.EncodeComponentInjective` | backend/storage.py:22-27 | different identifiers get different encoded components, as the docstring promises |
| `Storage.EncodeComponentShape` | backend/storage.py:22-27 | an encoded component contains no "__" and does not start with '_' |
| `Storage.BaseName` | backend/storage.py:29-30 | the base name is at least four characters long (two components and the "__" separator) |
| `Storage.BaseNameInjective` | backend/storage.py:29-30 | different (role, roi) pairs get different base names, so their files never clash |
| `Storage.MemoryCandidates` | backend/storage.py:87-103 | load_memory looks at three places, the encoded name first |
| `Storage.IndexCandidates` | backend/storage.py:109-121 | load_index_blob looks at three places in the same order |
| `Storage.FirstExisting` | backend/storage.py:87-103 | None exactly when no candidate exists; otherwise an existing candidate preceded only by missing ones |
| `Storage.LoadCalibPath` | backend/storage.py:126-136 | the encoded calibration file wins when it exists; the file read is always one of the three candidates |
| `Storage.SavedMemoryWins` | backend/storage.py:91-93 | once the encoded memory file exists, it is the one loaded whatever legacy files exist |
| `Storage.MissingMemoryIsNone` | backend/storage.py:87-103 | with no file at any of the three places load_memory returns None |
| `Storage.StrLeTotal` | backend/storage.py:158 | Python's string order is total |
| `Storage.StrLeTransitive` | backend/storage.py:158 | Python's string order is transitive |
| `Storage.FindNameSlot` | backend/storage.py:158 | the insertion point after every name that sorts at or before x |
| `Storage.InsertName` | backend/storage.py:158 | inserting there keeps the names sorted and adds exactly that name |
| `Storage.SortNames` | backend/storage.py:158 | sorted(names) is ordered and a permutation of the names |
| `Storage.ListDataset` | backend/storage.py:150-160 | a missing dataset base gives no classes; otherwise "ok" and "ng" appear exactly when their directory exists, each with its file names sorted, a permutation of the directory's files, and count equal to their number |
| `Roi.RoiValue.Center` | gui/BrakeDiscInspector_GUI_ROI/Models/Preset.cs:89-97 | a rectangle's centre is (X, Y); a circle's or annulus's is (CX, CY) |
| `Roi.RoiModel.constructor` | gui/BrakeDiscInspector_GUI_ROI/Models/Preset.cs:22-28 | a new model has a fresh Guid id, no label, Rectangle shape, Inspection role, all measures 0, no base image size, and is frozen |
| `Roi.RoiModel.FromValue` | gui/BrakeDiscInspector_GUI_ROI/Models/Preset.cs:101-118 | an object initialiser with every serialised field sets exactly those fields |
| `Roi.RoiModel.SetLeft` | gui/BrakeDiscInspector_GUI_ROI/Models/Preset.cs:50-55 | setting Left to v moves only X, to v + Width/2, so that Left reads back v |
| `Roi.RoiModel.SetTop` | gui/BrakeDiscInspector_GUI_ROI/Models/Preset.cs:57-62 | setting Top to v moves only Y, to v + Height/2, so that Top reads back v |
| `Roi.RoiModel.GetCenter` | gui/BrakeDiscInspector_GUI_ROI/Models/Preset.cs:89-97 | the object's centre is the value's centre by shape |
| `Roi.RoiModel.SetAngleDegSerialized` | gui/BrakeDiscInspector_GUI_ROI/Models/Preset.cs:31-41 | a present angle_deg writes AngleDeg and nothing else; an absent one changes nothing |
| `Roi.RoiModel.Clone` | gui/BrakeDiscInspector_GUI_ROI/Models/Preset.cs:99-119 | a new object with every serialised field equal to the original's; IsFrozen takes its default |
| `Placement.FModTwoPi` | gui/BrakeDiscInspector_GUI_ROI/Workflow/RoiPlacementEngine.cs:251 | C#'s double % by 2π: x minus whole turns toward zero, with the sign of x and magnitude below 2π |
| `Placement.NormalizeAngleRad` | gui/BrakeDiscInspector_GUI_ROI/Workflow/RoiPlacementEngine.cs:249-258 | the result lies in [-π, π) and differs from the input by a whole number of turns |
| `Placement.NormalizeAngleRadInRange` | gui/BrakeDiscInspector_GUI_ROI/Workflow/RoiPlacementEngine.cs:249-258 | an angle already in [-π, π) is returned unchanged |
| `Placement.NormalizeAngleRadIdempotent` | gui/BrakeDiscInspector_GUI_ROI/Workflow/RoiPlacementEngine.cs:249-258 | normalising twice is normalising once |
| `Placement.RotateKeepsLength` | gui/BrakeDiscInspector_GUI_ROI/Workflow/RoiPlacementEngine.cs:238-245 | with cos² + sin² = 1 the rotation keeps a vector's length |
| `Placement.Scale` | gui/BrakeDiscInspector_GUI_ROI/Workflow/RoiPlacementEngine.cs:94-96 | scale·distBase = distDet when distBase > 1e-9, else the scale is 1 |
| `Placement.StillMastersGiveNoMotion` | gui/BrakeDiscInspector_GUI_ROI/Workflow/RoiPlacementEngine.cs:76-96 | masters found where they were taught give zero deltas, zero angle change and scale 1 |
| `Placement.ResolveAnchorChoice` | gui/BrakeDiscInspector_GUI_ROI/Workflow/RoiPlacementEngine.cs:189-199 | the map's anchor for a non-blank id it holds; otherwise Mid with the fallback flag, else Master1 |
| `Placement.AnchorDeltaIsPivotShift` | gui/BrakeDiscInspector_GUI_ROI/Workflow/RoiPlacementEngine.cs:201-210 | the delta chosen for an anchor is the detected pivot minus the baseline pivot of that anchor |
| `Placement.CenteredAt` | gui/BrakeDiscInspector_GUI_ROI/Workflow/RoiPlacementEngine.cs:228-236 | ApplyCenter on values: X, Y, CX, CY take the new centre and every other field is unchanged |
| `Placement.PlacedMasterCentres` | gui/BrakeDiscInspector_GUI_ROI/Workflow/RoiPlacementEngine.cs:105-109 | Master1Pattern moves to the detected M1, Master2Pattern to M2, other roles are untouched |
| `Placement.PlacementKeepsSizes` | gui/BrakeDiscInspector_GUI_ROI/Workflow/RoiPlacementEngine.cs:121-150 | a placed inspection keeps its id, shape, role, width, height, R and RInner |
| `Placement.DisabledRotationTranslates` | gui/BrakeDiscInspector_GUI_ROI/Workflow/RoiPlacementEngine.cs:130-140 | with DisableRot the centre moves by the chosen anchor's shift and the angle is unchanged |
| `Placement.RotationKeepsPivotDistance` | gui/BrakeDiscInspector_GUI_ROI/Workflow/RoiPlacementEngine.cs:141-147 | with rotation the ROI keeps its distance to its anchor pivot (cos² + sin² = 1) |
| `Placement.StillMastersKeepInspections` | gui/BrakeDiscInspector_GUI_ROI.Tests/RoiPlacementEngineTests.cs:112-153 | masters found where they were taught leave every inspection's centre and angle unchanged (no drift) |
| `Placement.NonNull` | gui/BrakeDiscInspector_GUI_ROI/Workflow/RoiPlacementEngine.cs:102 | Where(r => r != null): the non-null entries, each once, in their order (the k-th is the entry at the k-th non-null position) |
| `Placement.NonNullMembers` | gui/BrakeDiscInspector_GUI_ROI/Workflow/RoiPlacementEngine.cs:102 | no longer than the list; every kept ROI is an entry and every non-null entry is kept |
| `Placement.ApplyCenter` | gui/BrakeDiscInspector_GUI_ROI/Workflow/RoiPlacementEngine.cs:228-236 | the model's fields become CenteredAt of the old ones: only X, Y, CX, CY change |
| `Placement.PlaceMasters` | gui/BrakeDiscInspector_GUI_ROI/Workflow/RoiPlacementEngine.cs:99-113 | one fresh clone per non-null baseline master, in order, each the placed master of its baseline |
| `Placement.PlaceInspections` | gui/BrakeDiscInspector_GUI_ROI/Workflow/RoiPlacementEngine.cs:115-172 | one fresh clone per non-null baseline inspection, in order, each the placed inspection of its baseline |
| `Placement.Place` | gui/BrakeDiscInspector_GUI_ROI/Workflow/RoiPlacementEngine.cs:71-187 | the reported motion is computed from the four master centres; outputs have one entry per non-null baseline, in order, placed by the rules above |
| `Alignment.TranslationMapsPivot` | gui/BrakeDiscInspector_GUI_ROI/InspectionAlignmentHelper.cs:25-36 | the similarity transform with ComputeTranslation's offset carries the baseline pivot onto the detected pivot |
| `Alignment.RotateLinear` | gui/BrakeDiscInspector_GUI_ROI/InspectionAlignmentHelper.cs:63-66 | rotating a difference is the difference of the rotations |
| `Alignment.NewCenterIsSimilarityImage` | gui/BrakeDiscInspector_GUI_ROI/InspectionAlignmentHelper.cs:50-71 | the new centre is the image of the baseline centre under the transform whose translation ComputeTranslation gives, with the M1 pivot for a Master1 anchor and M2 otherwise, angle 0 under DisableRot and scale 1 under ScaleLock |
| `Alignment.ScaledSizes` | gui/BrakeDiscInspector_GUI_ROI/InspectionAlignmentHelper.cs:72-80 | scaled width, height and R are at least 1, the inner radius is in [0, R), and each equals the plain scaled value whenever that already satisfies its bound |
| `Alignment.MovedFollowsBaseline` | gui/BrakeDiscInspector_GUI_ROI/InspectionAlignmentHelper.cs:57-150 | the moved target takes the baseline's shape, the new centre and base angle + effective angle in degrees, and keeps its own id, label, role and base image size |
| `Alignment.MovedSizesValid` | gui/BrakeDiscInspector_GUI_ROI/InspectionAlignmentHelper.cs:72-150 | the moved target is at least one pixel wide and high, a circle's radius is at least 1 and an annulus's inner radius is below its outer one |
| `Alignment.MoveIdempotent` | gui/BrakeDiscInspector_GUI_ROI.Tests/InspectionAlignmentHelperTests.cs:14-61 | moving again from the same baseline with the same context changes nothing |
| `Alignment.StillPivotKeepsCenter` | gui/BrakeDiscInspector_GUI_ROI/InspectionAlignmentHelper.cs:57-69 | with the pivot found where it was taught, rotation disabled and scale locked, the ROI keeps its centre and angle |
| `Alignment.MoveInspectionTo` | gui/BrakeDiscInspector_GUI_ROI/InspectionAlignmentHelper.cs:38-163 | a null target or baseline changes nothing; otherwise the target becomes the moved value of its old self and the baseline |
| `Alignment.WriteRectangle` | gui/BrakeDiscInspector_GUI_ROI/InspectionAlignmentHelper.cs:115-126 | the Rectangle branch writes shape, sizes, both centre pairs and angle, and nothing else |
| `Alignment.WriteCircle` | gui/BrakeDiscInspector_GUI_ROI/InspectionAlignmentHelper.cs:127-137 | the Circle branch writes the same fields plus R, and leaves RInner |
| `Alignment.WriteAnnulus` | gui/BrakeDiscInspector_GUI_ROI/InspectionAlignmentHelper.cs:138-149 | the Annulus branch writes the circle's fields plus RInner |
| `Workflow.ComputeBatchRowOk` | gui/BrakeDiscInspector_GUI_ROI/Workflow/WorkflowViewModel.cs:6401-6422 | none exactly when every cell is Unknown; false exactly when some cell is Nok; true exactly when some cell is known and none is Nok |
| `Workflow.BatchRow.constructor` | gui/BrakeDiscInspector_GUI_ROI/Workflow/WorkflowViewModel.cs:40-51 | a new row has its path, index 0 and four Unknown cells |
| `Workflow.WorkflowSettings.constructor` | gui/BrakeDiscInspector_GUI_ROI/Workflow/WorkflowViewModel.cs:276-280 | the verdict starts unset, the cutoff at 50 and the pause at 0 s, within their bounds |
| `Workflow.WorkflowSettings.SetBatchCellStatus` | gui/BrakeDiscInspector_GUI_ROI/Workflow/WorkflowViewModel.cs:6424-6451 | index 0..3 sets only cell ROI1..ROI4 to Unknown/Ok/Nok from the nullable result; any other index changes no cell; the row verdict is recomputed |
| `Workflow.WorkflowSettings.SetHeatmapCutoffPercent` | gui/BrakeDiscInspector_GUI_ROI/Workflow/WorkflowViewModel.cs:1041-1054 | the cutoff becomes the value clamped to 0..100 (the value itself when already in range); nothing else changes |
| `Workflow.WorkflowSettings.SetBatchPausePerRoiSeconds` | gui/BrakeDiscInspector_GUI_ROI/Workflow/WorkflowViewModel.cs:1069-1093 | the pause becomes the value clamped to 0..10 s unless that is within 0.0001 s of the current pause; nothing else changes |
| `Workflow.PauseCloseToRequest` | gui/BrakeDiscInspector_GUI_ROI/Workflow/WorkflowViewModel.cs:1069-1093 | the stored pause is in 0..10 s and within 0.0001 s of the clamped request |
| `Workflow.KeyMatchAt` | gui/BrakeDiscInspector_GUI_ROI/Workflow/WorkflowViewModel.cs:7102 | a match of inspection[\s_-]?([1-4]) at a position yields a slot digit 1..4 |
| `Workflow.FindKeyDigit` | gui/BrakeDiscInspector_GUI_ROI/Workflow/WorkflowViewModel.cs:7102 | the leftmost match's digit: a position that matches with that digit and no match before it; none exactly when no position matches |
| `Workflow.CanonicalKeyIsCanonical` | gui/BrakeDiscInspector_GUI_ROI/Workflow/WorkflowViewModel.cs:7105 | "inspection-" followed by a slot digit is a canonical key |
| `Workflow.NormalizeInspectionKey` | gui/BrakeDiscInspector_GUI_ROI/Workflow/WorkflowViewModel.cs:7094-7110 | always "inspection-N" with N in 1..4: the matched digit of a non-blank key, else the index clamped to 1..4 |
| `Workflow.CanonicalKeyMatches` | gui/BrakeDiscInspector_GUI_ROI/Workflow/WorkflowViewModel.cs:7094-7110 | a canonical key is non-blank and matches itself |
| `Workflow.NormalizeInspectionKeyIdempotent` | gui/BrakeDiscInspector_GUI_ROI/Workflow/WorkflowViewModel.cs:7094-7110 | normalising a normalised key returns it, whatever index comes with it |
| `Workflow.LabelSetsDisjoint` | gui/BrakeDiscInspector_GUI_ROI/Workflow/WorkflowViewModel.cs:4172-4173 | no label is both an OK and a KO label |
| `Workflow.TryParseDatasetLabel` | gui/BrakeDiscInspector_GUI_ROI/Workflow/WorkflowViewModel.cs:4163-4177 | blank gives none; the trimmed, unquoted, lower-case label gives true exactly for ok/good/pass/1/true, false exactly for ko/ng/nok/fail/0/false, and none otherwise |
| `Workflow.CalcGlobalDiskOk` | gui/BrakeDiscInspector_GUI_ROI/Workflow/WorkflowViewModel.cs:7184-7208 | no ROI list or no enabled ROI gives none; false exactly when an enabled ROI failed; true exactly when there is an enabled ROI and all enabled ROIs passed |
| `Workflow.BuildImageRectPx` | gui/BrakeDiscInspector_GUI_ROI/Workflow/WorkflowViewModel.cs:2371-2479 | none for a missing ROI or a circle without radius; any rectangle returned has w, h > 0, x, y ≥ 0, and ends within the rounded base image width and height when those are known |
| `Workflow.WholePixelRectangleIsKept` | gui/BrakeDiscInspector_GUI_ROI/Workflow/WorkflowViewModel.cs:2371-2479 | a rectangle on whole pixels with no base image size maps to itself |
| `Workflow.Tagged` | gui/BrakeDiscInspector_GUI_ROI/Workflow/WorkflowViewModel.cs:7231-7233 | the OK scores tagged OK followed by the NG scores tagged NG, one entry per score |
| `Workflow.InsertByScore` | gui/BrakeDiscInspector_GUI_ROI/Workflow/WorkflowViewModel.cs:7233 | inserting after every entry of no greater score keeps the order and adds exactly that entry |
| `Workflow.SortByScore` | gui/BrakeDiscInspector_GUI_ROI/Workflow/WorkflowViewModel.cs:7233 | OrderBy(Score): sorted ascending and a permutation of the input (stability in SortByScoreIsStable) |
| `Workflow.SortByScoreIsStable` | gui/BrakeDiscInspector_GUI_ROI/Workflow/WorkflowViewModel.cs:7233 | OrderBy is stable: for every score, the samples with that score appear in the sorted list in their input order |
| `Workflow.InsertByScoreIsStable` | gui/BrakeDiscInspector_GUI_ROI/Workflow/WorkflowViewModel.cs:7233 | an inserted sample goes after every sample of its own score, the others keeping their order |
| `Workflow.CountOk` | gui/BrakeDiscInspector_GUI_ROI/Workflow/WorkflowViewModel.cs:7243-7252 | the number of OK entries is at most the length |
| `Workflow.CountOkStep` | gui/BrakeDiscInspector_GUI_ROI/Workflow/WorkflowViewModel.cs:7243-7252 | each step adds one to the OK count exactly when the entry is OK |
| `Workflow.ComputeYoudenThreshold` | gui/BrakeDiscInspector_GUI_ROI/Workflow/WorkflowViewModel.cs:7221-7263 | no OK scores gives the default; no NG scores gives the OK mean; otherwise the score at the first index of greatest Youden index over the sorted samples |
| `Workflow.BestYoudenScore` | gui/BrakeDiscInspector_GUI_ROI/Workflow/WorkflowViewModel.cs:7235-7263 | the scan returns the score at the first index where tpr − fpr is greatest |
| `Plc.GetBit` | gui/BrakeDiscInspector_GUI_ROI/Comms/S7PlcClient.cs:173-181 | an address outside the buffer or outside bits 0..7 reads as false |
| `Plc.WithBit` | gui/BrakeDiscInspector_GUI_ROI/Comms/S7PlcClient.cs:183-201 | the length and every other byte are kept; an invalid address changes nothing |
| `Plc.SetBit` | gui/BrakeDiscInspector_GUI_ROI/Comms/S7PlcClient.cs:183-201 | the array afterwards is the old contents with that one bit written |
| `Plc.GetAfterSet` | gui/BrakeDiscInspector_GUI_ROI/Comms/S7PlcClient.cs:173-201 | a valid bit reads back the value just written |
| `Plc.SetKeepsOtherBits` | gui/BrakeDiscInspector_GUI_ROI/Comms/S7PlcClient.cs:173-201 | writing one bit leaves every other bit address reading as before |
| `Plc.SetToSameValueIsNoOp` | gui/BrakeDiscInspector_GUI_ROI/Comms/S7PlcClient.cs:173-201 | writing the value a bit already holds leaves the buffer unchanged |
| `Plc.DistinctIds` | gui/BrakeDiscInspector_GUI_ROI/Comms/PlcDefinitions.cs:50-62 | no signal id is defined twice, so the signal map has one entry per definition |
| `Plc.PadTo4` | gui/BrakeDiscInspector_GUI_ROI/Comms/S7PlcClient.cs:93 | a short read keeps its bytes and is filled with zero bytes up to four |
| `Plc.PaddingKeepsBits` | gui/BrakeDiscInspector_GUI_ROI/Comms/S7PlcClient.cs:124-127 | the zero padding changes no bit that the short read had and adds only zero bits |
| `Plc.ReadSignals` | gui/BrakeDiscInspector_GUI_ROI/Comms/S7PlcClient.cs:80-104 | the map holds exactly the defined signals, each the bit at its byte and bit offset of the padded block (a missing reply reads as empty) |
| `Plc.FindOutputIn` | gui/BrakeDiscInspector_GUI_ROI/Comms/S7PlcClient.cs:131 | the first definition with that id and the output direction, or none when no output has that id |
| `Plc.FindOutputTable` | gui/BrakeDiscInspector_GUI_ROI/Comms/PlcDefinitions.cs:50-62 | the five outputs sit in byte 2 at bits 0..4 and the four inputs are never found as outputs |
| `Plc.InputsAreNotWritten` | gui/BrakeDiscInspector_GUI_ROI/Comms/S7PlcClient.cs:129-138 | the write never changes an input signal's bit, whatever the map holds |
| `Plc.OutputsAreWritten` | gui/BrakeDiscInspector_GUI_ROI/Comms/S7PlcClient.cs:129-138 | each output signal in the map ends with its value |
| `Plc.WriteOutputs` | gui/BrakeDiscInspector_GUI_ROI/Comms/S7PlcClient.cs:106-146 | no write for a missing or empty map; otherwise the block read back (four zero bytes for no reply, zero-padded when short) with exactly the output bits of the map set and every other bit as read |
| `BackendClient.RoleFromRoiId` | gui/BrakeDiscInspector_GUI_ROI/Workflow/BackendClient.cs:370-391 | only Inspection, Master1 or Master2; none for a missing or blank ROI id; Inspection for any id whose trimmed text starts with "inspection" in any case |
| `BackendClient.NormalizeRoleId` | gui/BrakeDiscInspector_GUI_ROI/Workflow/BackendClient.cs:370-398 | never blank; the role the ROI id names when it names one, else the given role id when not blank, else Inspection |
| `BackendClient.MasterOneIdsNormalize` | gui/BrakeDiscInspector_GUI_ROI/Workflow/BackendClient.cs:370-391 | any trimmed, non-inspection ROI id containing "Master1" is sent with role Master1, whatever surrounds it |
| `BackendClient.Extension` | gui/BrakeDiscInspector_GUI_ROI/Workflow/BackendClient.cs:563 | empty, or a dot followed by at least one character |
| `BackendClient.ExtensionOfName` | gui/BrakeDiscInspector_GUI_ROI/Workflow/BackendClient.cs:563 | the extension of any "stem.x" (x without dot or separator) is ".x" |
| `BackendClient.GuessMediaType` | gui/BrakeDiscInspector_GUI_ROI/Workflow/BackendClient.cs:561-572 | one of the four image types or application/octet-stream |
| `BackendClient.MediaTypeIgnoresStem` | gui/BrakeDiscInspector_GUI_ROI/Workflow/BackendClient.cs:561-572 | the media type depends only on the extension after the final dot |
| `BackendClient.MediaTypeOfUpperCasePng` | gui/BrakeDiscInspector_GUI_ROI/Workflow/BackendClient.cs:561-572 | an upper-case .PNG name is uploaded as image/png |
| `BackendClient.MediaTypeWithoutExtension` | gui/BrakeDiscInspector_GUI_ROI/Workflow/BackendClient.cs:561-572 | a name ending in a dot is uploaded as application/octet-stream |
| `BackendClient.InferMediaType` | gui/BrakeDiscInspector_GUI_ROI/Workflow/BackendClient.cs:327-331 | the inference upload is always an image type: the guessed one, or PNG in place of the opaque type |
| `BackendClient.InferFileName` | gui/BrakeDiscInspector_GUI_ROI/Workflow/BackendClient.cs:333 | never blank; the given name when it is not blank (roi.png otherwise) |
| `BackendClient.MakeFitImage` | gui/BrakeDiscInspector_GUI_ROI/Workflow/BackendClient.cs:29-34 | missing bytes become empty; the name is never blank and is kept when given; a media type is kept exactly when it is not blank |
| `BackendClient.HasAnyContentIff` | gui/BrakeDiscInspector_GUI_ROI/Workflow/BackendClient.cs:187-203 | some image has content exactly when some index holds one with non-empty bytes |
| `BackendClient.ImageParts` | gui/BrakeDiscInspector_GUI_ROI/Workflow/BackendClient.cs:187-203 | at most one part per image, and no part exactly when no image has content |
| `BackendClient.CollectImageParts` | gui/BrakeDiscInspector_GUI_ROI/Workflow/BackendClient.cs:186-203 | the loop yields exactly the parts of the images with content, in order, and the flag says whether there was one |
| `BackendClient.BuildFitForm` | gui/BrakeDiscInspector_GUI_ROI/Workflow/BackendClient.cs:168-206 | a blank role id, then a blank ROI id, then no image with content are the errors in that order; otherwise the form holds the normalised role, the ROI id, the flag and the image parts |
| `BackendClient.WithThresholdFallback` | gui/BrakeDiscInspector_GUI_ROI/Workflow/BackendClient.cs:251 | a missing threshold becomes 0.5 and a present one is kept |
| `BackendClient.SupportsEndpoint` | gui/BrakeDiscInspector_GUI_ROI/Workflow/BackendClient.cs:116-140 | the endpoint is reported present exactly when the request got a reply and the status is not 404 |
| `BackendClient.MemoryNotFittedDetected` | gui/BrakeDiscInspector_GUI_ROI/Workflow/BackendClient.cs:547-559 | any detail containing "memory not fitted" in any letter case is recognised |
| `BackendClient.BlankDetailIsNotMemoryNotFitted` | gui/BrakeDiscInspector_GUI_ROI/Workflow/BackendClient.cs:547-552 | a missing or blank detail is never taken for an unfitted memory |
| `BackendClient.EnsureFitted` | gui/BrakeDiscInspector_GUI_ROI/Workflow/BackendClient.cs:416-467 | true exactly when the state query says fitted, or samples were provided with non-blank role and ROI ids, some sample has content and the backend accepts the fit; false with no samples |
| `BackendClient.FirstSet` | gui/BrakeDiscInspector_GUI_ROI/Workflow/BackendClient.cs:82-88 | the value of a listed variable that is set, with no variable before it set; none when none is |
| `BackendClient.ResolveDefaultBaseUrl` | gui/BrakeDiscInspector_GUI_ROI/Workflow/BackendClient.cs:78-106 | never blank; a set, non-blank URL variable wins; else host:port from the trimmed host and port variables (defaults 127.0.0.1 and 8000) when either is given; else http://127.0.0.1:8000 |
| `BackendClient.BaseAddressFor` | gui/BrakeDiscInspector_GUI_ROI/Workflow/BackendClient.cs:57-75 | Clear exactly for a blank value; otherwise the Uri of the candidate text, or Invalid exactly when new Uri throws on it |
| `BackendClient.UriCandidate` | gui/BrakeDiscInspector_GUI_ROI/Workflow/BackendClient.cs:65-72 | the value without trailing slashes, http:// in front unless it starts with http, and one slash at the end; it starts with http and ends with a slash |
| `BackendClient.BaseAddressIdempotent` | gui/BrakeDiscInspector_GUI_ROI/Workflow/BackendClient.cs:54-75 | setting the base URL to what the getter returns installs the same address again whenever Uri keeps the candidate as given; a value of slashes only gives the candidate http:/// |
| `BackendClient.Client.constructor` | gui/BrakeDiscInspector_GUI_ROI/Workflow/BackendClient.cs:44-49 | the two HTTP clients start without base addresses |
| `BackendClient.Client.Create` | gui/BrakeDiscInspector_GUI_ROI/Workflow/BackendClient.cs:43-52 | new BackendClient(): none exactly when the environment's default URL makes new Uri throw; otherwise both clients hold the Uri of its candidate |
| `BackendClient.Client.BaseUrl` | gui/BrakeDiscInspector_GUI_ROI/Workflow/BackendClient.cs:56 | the Uri text of the base address, or the empty text when there is none |
| `BackendClient.Client.SetBaseUrl` | gui/BrakeDiscInspector_GUI_ROI/Workflow/BackendClient.cs:57-75 | a blank value clears both addresses; otherwise both become the Uri of the candidate and the getter then returns its text; when new Uri throws nothing is assigned and the failure is reported |
| `BackendApi.MakeInferRequest` | gui/BrakeDiscInspector_GUI_ROI/BackendAPI.cs:15-33 | succeeds exactly when role id, ROI id and bytes are present and the scale is positive, keeping them with file name roi.png and no shape; otherwise the first failing argument, in the constructor's order: role id, ROI id, scale, then bytes |
| `BackendApi.NormalizeBaseUrl` | gui/BrakeDiscInspector_GUI_ROI/BackendAPI.cs:192-201 | the trimmed value, given http:// (after dropping leading slashes) unless it starts with http, with its trailing slashes dropped; so it starts with http in any case and does not end with a slash |
| `BackendApi.NormalizedUrlIsStoredAsIs` | gui/BrakeDiscInspector_GUI_ROI/BackendAPI.cs:174-201 | a normalised URL is stored unchanged |
| `BackendApi.ClientAddressOfNormalizedUrl` | gui/BrakeDiscInspector_GUI_ROI/BackendAPI.cs:174-201 | the client is handed the normalised URL with exactly one slash added, and installs its Uri or, when Uri refuses it, reports Invalid |
| `BackendApi.Api.constructor` | gui/BrakeDiscInspector_GUI_ROI/BackendAPI.cs:88-98 | the base URL starts as http://127.0.0.1:8000 and the scale as 0.20 |
| `BackendApi.Api.ApplyBaseUrl` | gui/BrakeDiscInspector_GUI_ROI/BackendAPI.cs:174-190 | a blank URL changes nothing; otherwise the URL without trailing slashes is stored and handed to the client, whose addresses stay as they were when Uri refuses it (the exception is swallowed) and are cleared when only slashes remain; the scale is untouched |
| `BackendApi.InitialMmPerPx` | gui/BrakeDiscInspector_GUI_ROI/BackendAPI.cs:100-169 | the default scale is always positive: 0.20 when reading the settings file threw (the initialiser's catch skips the environment); otherwise a positive environment value, else a positive settings value, else 0.20 |
| `BackendApi.ResolveMmPerPx` | gui/BrakeDiscInspector_GUI_ROI/BackendAPI.cs:203-216 | a positive override wins; without one a positive preset scale; without either the default |
| `BackendApi.ResolvedScaleIsPositive` | gui/BrakeDiscInspector_GUI_ROI/BackendAPI.cs:203-216 | with a positive default the resolved scale is positive and always accepted by the inference request |
| `BackendApi.ResolveRoleId` | gui/BrakeDiscInspector_GUI_ROI/BackendAPI.cs:218-228 | Master1 or Master2 for either ROI of that master, Inspection for an inspection ROI, DefaultRole without an ROI |
| `BackendApi.Sanitized` | gui/BrakeDiscInspector_GUI_ROI/BackendAPI.cs:280-291 | never longer than the input, and made of letters, digits, '-' and '_' only |
| `BackendApi.SanitizeIdOf` | gui/BrakeDiscInspector_GUI_ROI/BackendAPI.cs:274-295 | the fallback for a missing or blank value; otherwise a non-empty id of letters, digits, '-' and '_', or the fallback |
| `BackendApi.SanitizeIdIdempotent` | gui/BrakeDiscInspector_GUI_ROI/BackendAPI.cs:274-295 | sanitising a sanitised id returns it unchanged |
| `BackendApi.SanitizeId` | gui/BrakeDiscInspector_GUI_ROI/BackendAPI.cs:274-295 | the StringBuilder loop returns exactly the sanitised value |
| `BackendApi.ResolveRoiId` | gui/BrakeDiscInspector_GUI_ROI/BackendAPI.cs:230-272 | ROI without an ROI; an inspection ROI gets inspection-N for the slot its sanitised label names, else the slot its id names, else inspection-1; another ROI its sanitised label when it has one, else Pattern or Search by role |
| `BackendApi.InspectionRoiIdIsCanonical` | gui/BrakeDiscInspector_GUI_ROI/BackendAPI.cs:230-260 | the id of an inspection ROI is left unchanged by the workflow's inspection key normalisation |
| `BackendApi.InspectionRoleSurvivesClient` | gui/BrakeDiscInspector_GUI_ROI/BackendAPI.cs:218-260 | the client sends an inspection ROI with role Inspection |
| `BackendApi.UnlabelledMasterKeepsRole` | gui/BrakeDiscInspector_GUI_ROI/BackendAPI.cs:218-272 | an unlabelled master ROI is sent with its own master role, as Pattern and Search name no role |
| `Layouts.LayoutKey` | gui/BrakeDiscInspector_GUI_ROI/MasterLayout.cs:317-328 | a blank key is kept as it is; a key matching inspection[\s_-]?[1-4] becomes the canonical key of the matched digit; any other key is trimmed |
| `Layouts.LayoutKeyIdempotent` | gui/BrakeDiscInspector_GUI_ROI/MasterLayout.cs:317-328 | normalising a normalised model key changes nothing |
| `Layouts.ChangeExtension` | gui/BrakeDiscInspector_GUI_ROI/MasterLayout.cs:285 | a non-empty path ends with the new extension; an empty path stays empty |
| `Layouts.EnsureLayoutJsonExtension` | gui/BrakeDiscInspector_GUI_ROI/MasterLayout.cs:273-291 | a blank path, or one already ending in .layout.json in any case, is kept; any other result ends in .layout.json and is not blank |
| `Layouts.EnsureLayoutJsonExtensionIdempotent` | gui/BrakeDiscInspector_GUI_ROI/MasterLayout.cs:273-291 | applying the extension twice gives the same path as once |
| `Layouts.LastIndexOfChar` | gui/BrakeDiscInspector_GUI_ROI/MasterLayout.cs:147-156 | -1 or the position of the last occurrence of the character |
| `Layouts.FileName` | gui/BrakeDiscInspector_GUI_ROI/MasterLayout.cs:149 | a suffix of the path that holds no separator |
| `Layouts.FileNameAfterSeparator` | gui/BrakeDiscInspector_GUI_ROI/MasterLayout.cs:149 | the file name of a directory followed by a plain name is that name |
| `Layouts.GetLayoutNameFromPath` | gui/BrakeDiscInspector_GUI_ROI/MasterLayout.cs:147-156 | never blank, and DefaultLayout or a name without separators |
| `Layouts.LayoutNameOfLayoutFile` | gui/BrakeDiscInspector_GUI_ROI/MasterLayout.cs:147-156 | the layout name of dir/NAME.layout.json is NAME, for a plain non-blank NAME |
| `Layouts.StripExtensionOf` | gui/BrakeDiscInspector_GUI_ROI/MasterLayout.cs:149 | dropping the extension of dir/STEM.EXT (EXT without dot) gives STEM |
| `Layouts.StripLayoutSuffix` | gui/BrakeDiscInspector_GUI_ROI/MasterLayout.cs:150-153 | dropping the .layout suffix of NAME.layout gives NAME |
| `Layouts.IdSlot` | gui/BrakeDiscInspector_GUI_ROI/MasterLayout.cs:430-436 | a slot in 1..4, and only for a non-blank id starting with Inspection_ in any case |
| `Layouts.ParseInt` | gui/BrakeDiscInspector_GUI_ROI/MasterLayout.cs:436 | int.TryParse: a value exactly for surrounding white space, an optional sign and digits whose value fits in 32 bits |
| `Layouts.ParseIntRefusesOverflow` | gui/BrakeDiscInspector_GUI_ROI/MasterLayout.cs:436 | 2147483647 and -2147483648 parse, 2147483648 does not |
| `Layouts.IdSlotOfDefaultId` | gui/BrakeDiscInspector_GUI_ROI/MasterLayout.cs:430-438 | the fixed id Inspection_k of slot k (1..4) names slot k |
| `Layouts.BaselineSlot` | gui/BrakeDiscInspector_GUI_ROI/MasterLayout.cs:426-436 | a slot in 1..4, and only for a present entry |
| `Layouts.KeptBaselinesShape` | gui/BrakeDiscInspector_GUI_ROI/MasterLayout.cs:419-447 | the kept entries have role Inspection and the fixed id of a free slot, each slot at most once |
| `Layouts.BaselineIdsDistinct` | gui/BrakeDiscInspector_GUI_ROI/MasterLayout.cs:419-447 | a sanitised list holds inspection entries with pairwise distinct ids Inspection_1..4 |
| `Layouts.SanitizedListKeepsFirstEntries` | gui/BrakeDiscInspector_GUI_ROI/MasterLayout.cs:419-447 | for each slot some entry names, the first such entry is kept, with role and id fixed |
| `Layouts.SanitizedListComesFromList` | gui/BrakeDiscInspector_GUI_ROI/MasterLayout.cs:419-447 | every kept entry is an entry of the list with its role and id fixed for the slot its id names |
| `Layouts.NormalizedBaselinesIdempotent` | gui/BrakeDiscInspector_GUI_ROI/MasterLayout.cs:419-447 | sanitising an already sanitised list leaves it as it is |
| `Layouts.FixSlot` | gui/BrakeDiscInspector_GUI_ROI/MasterLayout.cs:396-401 | a missing slot stays missing; a present slot gets role Inspection and id Inspection_k and keeps every other field |
| `Layouts.NameDefaulted` | gui/BrakeDiscInspector_GUI_ROI/MasterLayout.cs:335-338 | the name is never blank and is kept when it was not blank; nothing else changes |
| `Layouts.KeyDefaulted` | gui/BrakeDiscInspector_GUI_ROI/MasterLayout.cs:340-345 | the model key is never blank and is the normalised key when the old one was not blank |
| `Layouts.IdDefaulted` | gui/BrakeDiscInspector_GUI_ROI/MasterLayout.cs:347-351 | the id equals Inspection_n ignoring case; nothing else changes |
| `Layouts.DefaultedSlotShape` | gui/BrakeDiscInspector_GUI_ROI/MasterLayout.cs:330-352 | a non-blank name is kept, a non-blank model key is normalised to a fixed point, and no other setting changes |
| `Layouts.InitialSlotsAreStable` | gui/BrakeDiscInspector_GUI_ROI/MasterLayout.cs:330-352 | the four slots a new layout starts with are left unchanged by the defaults pass |
| `Layouts.Layout.constructor` | gui/BrakeDiscInspector_GUI_ROI/MasterLayout.cs:16-44 | no ROIs, the four default slots, an empty baseline map |
| `Layouts.Layout.EnsureInspectionRoiDefaults` | gui/BrakeDiscInspector_GUI_ROI/MasterLayout.cs:330-366 | every slot defaulted by position; a legacy global inspection moved into slot 1 when no slot is set; the global inspection cleared; the other fields kept |
| `Layouts.Layout.SanitizeForSave` | gui/BrakeDiscInspector_GUI_ROI/MasterLayout.cs:386-449 | the global inspection dropped; each slot fixed; every image's baseline list reduced to the first entry per slot 1..4; the slot settings kept |
| `Layouts.DefaultSlotList` | gui/BrakeDiscInspector_GUI_ROI/MasterLayout.cs:332-352 | the loop yields the defaults pass applied to every slot by position |
| `Layouts.NormalizeBaselineList` | gui/BrakeDiscInspector_GUI_ROI/MasterLayout.cs:423-445 | the inner loop yields exactly the sanitised list |
| `Layouts.SanitizeBaselineMap` | gui/BrakeDiscInspector_GUI_ROI/MasterLayout.cs:419-447 | the outer loop replaces every image's list by its sanitised form, a missing list by an empty one |
| `RoiConfig.DefaultsNotBlank` | gui/BrakeDiscInspector_GUI_ROI/Models/InspectionRoiConfig.cs:48-55 | the default id, name and model key of any index are not blank |
| `RoiConfig.OrDefault` | gui/BrakeDiscInspector_GUI_ROI/Models/InspectionRoiConfig.cs:83 | a non-blank value is kept and a blank one becomes the default, so the result is never blank when the default is not |
| `RoiConfig.Initial` | gui/BrakeDiscInspector_GUI_ROI/Models/InspectionRoiConfig.cs:48-55 | a new slot has its index, is enabled exactly for slots 1 and 2, has its default id, name and key, and no fitted memory |
| `RoiConfig.WithId` | gui/BrakeDiscInspector_GUI_ROI/Models/InspectionRoiConfig.cs:78-88 | a non-blank value is stored, a blank one becomes Inspection_N; only the id changes and it never becomes blank |
| `RoiConfig.WithName` | gui/BrakeDiscInspector_GUI_ROI/Models/InspectionRoiConfig.cs:90-100 | a non-blank value is stored, a blank one becomes "Inspection N"; only the name changes and it never becomes blank |
| `RoiConfig.WithModelKey` | gui/BrakeDiscInspector_GUI_ROI/Models/InspectionRoiConfig.cs:125-136 | a non-blank key is stored, a blank one becomes inspection-N; the fitted memory flag survives exactly when the key is unchanged; nothing else changes |
| `RoiConfig.WithDatasetPath` | gui/BrakeDiscInspector_GUI_ROI/Models/InspectionRoiConfig.cs:138-150 | a path equal ignoring case changes nothing; any other path is stored and clears the fitted memory flag; nothing else changes |
| `RoiConfig.CloneIsCopy` | gui/BrakeDiscInspector_GUI_ROI/Models/InspectionRoiConfig.cs:412-441 | the clone, built through the setters, equals the original in every modelled property |
| `RoiConfig.InspectionRoiConfig.constructor` | gui/BrakeDiscInspector_GUI_ROI/Models/InspectionRoiConfig.cs:48-55 | a new slot is in its initial state, with id, name and key not blank |
| `RoiConfig.InspectionRoiConfig.FromValue` | gui/BrakeDiscInspector_GUI_ROI/Models/InspectionRoiConfig.cs:412-441 | a slot holding exactly the given properties |
| `RoiConfig.InspectionRoiConfig.SetId` | gui/BrakeDiscInspector_GUI_ROI/Models/InspectionRoiConfig.cs:78-88 | the state becomes the Id setter's result and stays valid |
| `RoiConfig.InspectionRoiConfig.SetName` | gui/BrakeDiscInspector_GUI_ROI/Models/InspectionRoiConfig.cs:90-100 | the state becomes the Name setter's result and stays valid |
| `RoiConfig.InspectionRoiConfig.SetModelKey` | gui/BrakeDiscInspector_GUI_ROI/Models/InspectionRoiConfig.cs:125-136 | the state becomes the ModelKey setter's result and stays valid |
| `RoiConfig.InspectionRoiConfig.SetDatasetPath` | gui/BrakeDiscInspector_GUI_ROI/Models/InspectionRoiConfig.cs:138-150 | the state becomes the DatasetPath setter's result |
| `RoiConfig.InspectionRoiConfig.OkCount` | gui/BrakeDiscInspector_GUI_ROI/Models/InspectionRoiConfig.cs:334-338 | OkCount is the dataset OK count |
| `RoiConfig.InspectionRoiConfig.NgCount` | gui/BrakeDiscInspector_GUI_ROI/Models/InspectionRoiConfig.cs:341-345 | NgCount is the dataset KO count |
| `RoiConfig.InspectionRoiConfig.SetOkCount` | gui/BrakeDiscInspector_GUI_ROI/Models/InspectionRoiConfig.cs:303-338 | only the OK count changes, to the value given |
| `RoiConfig.InspectionRoiConfig.SetNgCount` | gui/BrakeDiscInspector_GUI_ROI/Models/InspectionRoiConfig.cs:316-345 | only the KO count changes, to the value given |
| `RoiConfig.InspectionRoiConfig.MarkEvaluated` | gui/BrakeDiscInspector_GUI_ROI/Models/InspectionRoiConfig.cs:405-410 | only the last result, score and evaluation time change, to the values given |
| `RoiConfig.InspectionRoiConfig.Clone` | gui/BrakeDiscInspector_GUI_ROI/Models/InspectionRoiConfig.cs:412-441 | a fresh, valid slot equal to this one |
| `Presets.SlotId` | gui/BrakeDiscInspector_GUI_ROI/PresetManager.cs:43-50 | the literal id of slots 1..4 is never blank and has twelve characters |
| `Presets.SlotIdIsDefaultId` | gui/BrakeDiscInspector_GUI_ROI/PresetManager.cs:43-50 | the literal ids SaveInspection writes are exactly the ids GetInspection looks up |
| `Presets.SavedClone` | gui/BrakeDiscInspector_GUI_ROI/PresetManager.cs:41-50 | the stored copy has role Inspection and the slot's id, and keeps every other field |
| `Presets.FindIndex` | gui/BrakeDiscInspector_GUI_ROI/PresetManager.cs:123-125 | -1 or the first present entry whose non-blank id equals the id ignoring case; no earlier entry matches |
| `Presets.FirstMatching` | gui/BrakeDiscInspector_GUI_ROI/PresetManager.cs:88-90 | the entry at a matching position with no match before it (FirstOrDefault), or none exactly when no entry matches |
| `Presets.Synced` | gui/BrakeDiscInspector_GUI_ROI/PresetManager.cs:110-135 | a blank id leaves the list unchanged; otherwise the list grows by at most one and holds the clone |
| `Presets.SyncedKeepsOtherEntries` | gui/BrakeDiscInspector_GUI_ROI/PresetManager.cs:110-135 | only the first matching entry is replaced, and the clone is appended exactly when no entry matched |
| `Presets.SyncedFindsClone` | gui/BrakeDiscInspector_GUI_ROI/PresetManager.cs:110-135 | after syncing, the first entry with the clone's id is the clone |
| `Presets.SyncedIdempotent` | gui/BrakeDiscInspector_GUI_ROI/PresetManager.cs:110-135 | syncing the same clone twice gives the same list as once |
| `Presets.Lookup` | gui/BrakeDiscInspector_GUI_ROI/PresetManager.cs:74-108 | slots 1 and 2 read their own field when set; when the slot has no field or it is null, FirstMatching of the list for Inspection_N, and null without a list |
| `Presets.SavedSlotReadsBack` | gui/BrakeDiscInspector_GUI_ROI/PresetManager.cs:35-108 | what SaveInspection stores for a slot is what GetInspection then returns for it |
| `Presets.Preset.constructor` | gui/BrakeDiscInspector_GUI_ROI/Models/Preset.cs:127-148 | an empty ROI list, no slots, and the matching defaults 85, 85, 10, 0.95, 1.05, auto, 600 and 0.20 |
| `Presets.Preset.SyncInspectionList` | gui/BrakeDiscInspector_GUI_ROI/PresetManager.cs:110-135 | a missing list becomes empty and is then synced with the clone; no other field changes |
| `Presets.Preset.SaveInspection` | gui/BrakeDiscInspector_GUI_ROI/PresetManager.cs:35-72 | a slot outside 1..4 is refused with nothing changed; otherwise slots 1 and 2 get the copy in their field, the list is synced, and the slot reads back as the copy |
| `CvRects.BoxOf` | gui/BrakeDiscInspector_GUI_ROI/Helpers/RoiModelCvExtensions.cs:15-29 | a rectangle's box has its width and height and is centred on it; a circle's or annulus's box is the square around its outer radius |
| `CvRects.ClampToImage` | gui/BrakeDiscInspector_GUI_ROI/Helpers/RoiModelCvExtensions.cs:36-42 | the corner lies in the image (0 when it is empty), the size is at least 1 and ends within a non-empty image, and a rectangle already inside is kept |
| `CvRects.ClampIdempotent` | gui/BrakeDiscInspector_GUI_ROI/Helpers/RoiModelCvExtensions.cs:36-42 | clamping a clamped rectangle again changes nothing |
| `CvRects.ToCvRect` | gui/BrakeDiscInspector_GUI_ROI/Helpers/RoiModelCvExtensions.cs:8-45 | the empty Rect for no ROI; otherwise a rectangle of positive size with its corner inside the image |
| `CvRects.ToCvRectCoversRoi` | gui/BrakeDiscInspector_GUI_ROI/Helpers/RoiModelCvExtensions.cs:8-45 | an ROI of positive size inside the image lies within its Rect, and each edge of the Rect is less than a pixel beyond the ROI's edge |
| `CvRects.ExtractSubRect` | gui/BrakeDiscInspector_GUI_ROI/Helpers/RoiModelCvExtensions.cs:47-56 | a sub-image exactly when ROI and image are present and the image is not empty, and it then has positive size and lies inside the image |
| `LocalMatching.ToScore` | gui/BrakeDiscInspector_GUI_ROI/LocalMatcher.cs:26 | a percentage in 0..100: 0 for a value at or below 0, 100 at or above 1 |
| `LocalMatching.ToScoreMonotone` | gui/BrakeDiscInspector_GUI_ROI/LocalMatcher.cs:26 | a higher value never gives a lower score |
| `LocalMatching.FeatureScore` | gui/BrakeDiscInspector_GUI_ROI/LocalMatcher.cs:200-204 | the weighted feature score lies in 0..100 |
| `LocalMatching.FeatureScoreMonotone` | gui/BrakeDiscInspector_GUI_ROI/LocalMatcher.cs:200-204 | more inliers among the same good matches, or a smaller mean distance, never lower the score |
| `LocalMatching.PerfectFeatureScore` | gui/BrakeDiscInspector_GUI_ROI/LocalMatcher.cs:200-204 | every good match an inlier at distance zero scores 100 |
| `LocalMatching.RectFromRoi` | gui/BrakeDiscInspector_GUI_ROI/LocalMatcher.cs:443-469 | the corner lies in the image, the size is at least 1, and the rectangle ends within a non-empty image |
| `LocalMatching.RectFromRoiIsToCvRect` | gui/BrakeDiscInspector_GUI_ROI/LocalMatcher.cs:443-469 | the matcher's rectangle of an ROI is the same as the extension's ToCvRect |
| `LocalMatching.SafeRect` | gui/BrakeDiscInspector_GUI_ROI/LocalMatcher.cs:419-424 | the clamped rectangle lies within a non-empty image, and a rectangle already inside is kept |
| `LocalMatching.GoodMatches` | gui/BrakeDiscInspector_GUI_ROI/LocalMatcher.cs:172 | at most one candidate per pair of neighbours |
| `LocalMatching.GoodMatchesGrow` | gui/BrakeDiscInspector_GUI_ROI/LocalMatcher.cs:167-176 | a looser ratio keeps at least as many matches |
| `LocalMatching.ChosenRatioIndex` | gui/BrakeDiscInspector_GUI_ROI/LocalMatcher.cs:167-176 | the first ratio giving at least 8 matches, or the last ratio, and no earlier ratio gives 8 |
| `LocalMatching.RatioSearch` | gui/BrakeDiscInspector_GUI_ROI/LocalMatcher.cs:167-176 | the loop settles on the chosen ratio and returns exactly its candidates |
| `LocalMatching.ChosenIsFirstSufficient` | gui/BrakeDiscInspector_GUI_ROI/LocalMatcher.cs:167-176 | the first ratio with 8 matches (or the last) is the one chosen |
| `LocalMatching.TooFewAtEveryRatio` | gui/BrakeDiscInspector_GUI_ROI/LocalMatcher.cs:167-182 | when the search ends with fewer than 8 matches, no ratio gave 8 |
| `LocalMatching.Accept` | gui/BrakeDiscInspector_GUI_ROI/LocalMatcher.cs:344-398 | the score is kept, and a centre is reported exactly when the matcher found one at or above the threshold |
| `LocalMatching.Decide` | gui/BrakeDiscInspector_GUI_ROI/LocalMatcher.cs:337-398 | a centre only at or above the threshold; edges mode gives the edge matcher's gated outcome; auto mode with a feature miss gives the template matcher's accepted outcome, or no centre and the larger score when both miss; a feature hit is accepted; any other mode gives the gated feature outcome |
| `LocalMatching.MatchInSearchRoi` | gui/BrakeDiscInspector_GUI_ROI/LocalMatcher.cs:239-409 | fails exactly for an empty image (OpenCV refuses the search sub-matrix); a search rectangle under 5 pixels in either direction, or an empty or under-3-pixel pattern (override or pattern ROI), gives no centre and score 0; otherwise exactly the mode's decision |
| `LocalMatching.MatchInSearchRect` | gui/BrakeDiscInspector_GUI_ROI/LocalMatcher.cs:412-441 | a missing or empty image or template gives no centre and 0; a centre only when the best correlation reaches the threshold, at the template's centre within the safe rectangle |
| `AppSettings.Clamp01` | gui/BrakeDiscInspector_GUI_ROI/AppConfig.cs:189-190 | the result lies in [0, 1] and is the value itself when that already does |
| `AppSettings.TextOr` | gui/BrakeDiscInspector_GUI_ROI/AppConfig.cs:82-90 | a present, non-blank text replaces the current one; a missing or blank one keeps it |
| `AppSettings.PositiveOr` | gui/BrakeDiscInspector_GUI_ROI/AppConfig.cs:94-102 | a positive tolerance replaces the current one, anything else keeps it |
| `AppSettings.PositiveIntOr` | gui/BrakeDiscInspector_GUI_ROI/AppConfig.cs:106-109 | a positive anchor score replaces the current one, anything else keeps it |
| `AppSettings.OpacityOr` | gui/BrakeDiscInspector_GUI_ROI/AppConfig.cs:112-115 | a present, non-negative opacity is stored clamped to [0, 1]; otherwise the current one is kept |
| `AppSettings.MergedEmptyFile` | gui/BrakeDiscInspector_GUI_ROI/AppConfig.cs:80-116 | a deserialised file with every section null leaves the settings as they are |
| `AppSettings.DefaultsAreSound` | gui/BrakeDiscInspector_GUI_ROI/AppConfig.cs:8-37 | the defaults have a base URL, positive tolerances and score, and an opacity in [0, 1] |
| `AppSettings.MergedKeepsSound` | gui/BrakeDiscInspector_GUI_ROI/AppConfig.cs:80-116 | merging any file keeps those properties, the scale lock being copied as given |
| `AppSettings.MergedIdempotent` | gui/BrakeDiscInspector_GUI_ROI/AppConfig.cs:80-116 | merging the same file twice gives the same settings as once |
| `AppSettings.Deserialized` | gui/BrakeDiscInspector_GUI_ROI/AppConfig.cs:10-36 | a section the file leaves out deserialises to its defaults, not to null |
| `AppSettings.EmptyFileResetsSettings` | gui/BrakeDiscInspector_GUI_ROI/AppConfig.cs:47-116 | as written, merging an empty file puts every default back except the dataset root |
| `AppSettings.Intended` | gui/BrakeDiscInspector_GUI_ROI/AppConfig.cs:80-116 | read as intended, an empty file yields no section at all |
| `AppSettings.OmittedSectionsAreKept` | gui/BrakeDiscInspector_GUI_ROI/AppConfig.cs:80-116 | read as intended, every setting of a section the file does not give is kept |
| `AppSettings.IntendedAgreesWhenAllGiven` | gui/BrakeDiscInspector_GUI_ROI/AppConfig.cs:60-67 | both readings agree on a file that gives every section |
| `AppSettings.BoolOverride` | gui/BrakeDiscInspector_GUI_ROI/AppConfig.cs:152-173 | true exactly for 1/true/yes and false exactly for 0/false/no, trimmed and in any case; anything else leaves the setting |
| `AppSettings.TrueWordsAreNotFalseWords` | gui/BrakeDiscInspector_GUI_ROI/AppConfig.cs:160-172 | no text is both a true word and a false word |
| `AppSettings.StringOverride` | gui/BrakeDiscInspector_GUI_ROI/AppConfig.cs:129-136 | an override exactly for a non-blank value, which is then trimmed and not blank |
| `AppSettings.IntOverride` | gui/BrakeDiscInspector_GUI_ROI/AppConfig.cs:175-187 | an override exactly for a non-blank value that int.TryParse accepts, with its value, always within the 32-bit range |
| `AppSettings.Overridden` | gui/BrakeDiscInspector_GUI_ROI/AppConfig.cs:118-127 | the opacity stays in [0, 1], the base URL stays non-blank, and an empty environment changes nothing |
| `AppSettings.MergedAllKeepsSound` | gui/BrakeDiscInspector_GUI_ROI/AppConfig.cs:47-74 | whatever files are merged, the settings keep a base URL, positive tolerances and score, and an opacity in [0, 1] |
| `AppSettings.LoadedOpacityInRange` | gui/BrakeDiscInspector_GUI_ROI/AppConfig.cs:47-78 | a loaded configuration always has an opacity in [0, 1] and a non-blank base URL |
| `AppSettings.AppConfig.constructor` | gui/BrakeDiscInspector_GUI_ROI/AppConfig.cs:8-37 | a new configuration holds the defaults |
| `AppSettings.AppConfig.Merge` | gui/BrakeDiscInspector_GUI_ROI/AppConfig.cs:80-116 | the configuration becomes the merge of the file over its old value |
| `AppSettings.AppConfig.ApplyEnvironmentOverrides` | gui/BrakeDiscInspector_GUI_ROI/AppConfig.cs:118-127 | the configuration becomes its old value with the environment overrides applied |
| `AppSettings.Load` | gui/BrakeDiscInspector_GUI_ROI/AppConfig.cs:47-78 | a fresh configuration: the defaults, each file that exists and deserialises merged in order, then the environment |

## Left out

- File and network I/O, the filesystem, HTTP transport and JSON (de)serialisation: file contents, existence tests, HTTP responses and environment variables are parameters or maps.
- Locks, threads, asynchronous calls, timings, cancellation and logging: the caches and handlers are modelled as single-threaded state changes.
- FAISS and the GPU: both searches are specified by the exact nearest squared distance (an IndexFlatL2 and a one-neighbour sklearn search are exact), with float32 rounding left out as for all floating point; torch, the backbone network and image decoding are parameters.
- OpenCV (ORB features, homography, MatchTemplate, contours, Gaussian blur, resizing) is a set of function parameters; the contour filter assumes the contours found again after filtering are the ones that survived.
- Floating point: doubles are reals, so NaN, infinities, rounding error and overflow of casts to int are not modelled; square root, trigonometry and atan2 are parameters with only the identities the code relies on.
- Workflow.BuildImageRectPx: its NaN and infinity guards are not modelled, since reals have neither.
- Character classes and case folding are ASCII plus the .NET whitespace list; Python's isalnum/isdigit and .NET's IsLetterOrDigit are Unicode-aware.
- Percentiles follow numpy's default linear interpolation; backend/utils.py is not part of this model.
- Metadata JSON parsing of stored artefacts, the scale mode and the image key of a request are not modelled.
- InspectionRoiConfig's dataset path normalisation (DatasetPathHelper, Path.GetFullPath) is not modelled; paths are taken as already normalised.
- System.Uri is a parameter: whether new Uri throws on a text and the text its ToString gives back; its canonicalisation is not modelled, so the idempotence of the BaseUrl setter is stated for texts Uri keeps as given.
- BackendClient.BaseAddressIdempotent: stated only for a value whose candidate Uri keeps as given, because the canonicalisation of System.Uri is not modelled.
- BackendClient.Client.Create: the exception new Uri throws is the None result; an HttpClient passed in and its timeouts are not modelled.
- PatchCore.KnnMinDist: a memory without rows and query rows of another width than the memory's are not modelled (FAISS and sklearn reject or misbehave on them); numpy arrays are rectangular, so every row has the same width.
- PatchCore.BuildCoreset: the random start row of the greedy search is the parameter c0.
- PatchCore.BuildCoreset: with no rows and without FAISS, sklearn's NearestNeighbors.fit raises on an empty array, but the model returns a fitted memory; the only caller rejects an empty training set before building.
- Placement.ResolveAnchorChoice: the anchor map is looked up by exact id, while the workflow builds it with a case-insensitive comparer, so an id that differs from the stored one only in letter case finds its anchor in the source but not in the model.
- Infer.Run: each region's contour point list and the "params" block of the result (extractor name, sizes, coreset rate, k, percentile, blur sigma, scale) are not modelled; they copy inputs without computing anything.
- BackendApi's static initialiser is modelled only through InitialMmPerPx and ApplyBaseUrl.
- RoiConfig.ConfigValue: the dataset preview collections (OkPreview, NgPreview and their selected items) are not modelled; they are display state that no modelled operation reads.
- LocalMatching.MatchInSearchRoi: the debugging branch that only reports containment and the preview collections are not modelled.
- AppSettings.Overridden: tolerances read from the environment are not checked for positivity, as in the source.
- Alignment: the Mid anchor pivots on master 2, as the helper does, while Placement uses the midpoint of both masters.
- app.py's `_scores_1d_finite` (backend/app.py:791-798) is the same function as calib.py's `_as_1d_finite` and is modelled once, as Calib.AsOneDimFinite.

## Findings

| source | as written | input that shows it | evidently intended | confidence | as-written member | corrected member |
|---|---|---|---|---|---|---|
| gui/BrakeDiscInspector_GUI_ROI/AppConfig.cs:80-116 | Merge skips a section only when it is null, but System.Text.Json leaves a section the file omits at its initialiser (`= new()`), so it is never null | config/appsettings.json `{"Analyze":{"ScaleLockDefault":false}}` then appsettings.json `{}`: the second file puts ScaleLockDefault back to true, and the base URL, tolerances, anchor score and opacity back to their defaults | a section the file does not give leaves the settings read so far unchanged | medium, not executed | `AppSettings.EmptyFileResetsSettings` | `AppSettings.OmittedSectionsAreKept` |
