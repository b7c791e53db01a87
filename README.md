# AiFashionAnalyzer in Dafny

A model of the logic of the AiFashionAnalyzer web app, with proofs about it.

The main part is the pose-driven virtual try-room, which works frame by frame:
- a pose estimator hands over a `Pose` for each camera frame;
- each pose is turned into body measurements and an advisory garment fit;
- a gesture state machine tracks raised hands (with counters), a thumbs-up and a wave, using a bounded history of recent poses;
- the try-room view places a garment overlay on the shoulders and navigates the wardrobe when a hand-raise counter reaches 5.

Around it sit the list and string rules of the UI components:
- the product comparison;
- the wishlist and the recommendation mapping of the photo analysis;
- the wardrobe's filter, sort and type list;
- the results view's category filter, sort and lookup tables;
- the API-key form;
- the outfit list's badges and totals.

Modules, one per source file, plus shared helpers:

| module | models |
|---|---|
| `Wrappers`, `Text`, `Collections` | `Option`; `toLowerCase`/`includes`/`startsWith`/`trim` and decimal rendering; `filter`, `Array.from(new Set(..))`, `sort` |
| `PoseTypes`, `FashionTypes` | the records of `src/types/pose.ts` and `src/types/fashion.ts`, and the keypoint lookup by part name |
| `Measurements` | `calculateBodyMeasurements`, `analyzeFit` |
| `Gestures` | `detectAdvancedGestures` |
| `PoseSession` | the per-frame step inside `detect`: the function `Advance`/`Run`, and the class `Session` that updates its fields in place |
| `PoseViewer` | overlay, navigation, fit gate, favourite flag, fit colours; the class `TryRoom` holds the overlay and the screenshots |
| `ShoppingFeatures` | the compare list (`CompareList` class) |
| `App` | wishlist, recommendation mapping, profile, upload flow and reset (`AppState` class) |
| `ClothingSelector`, `AnalysisResults`, `ApiKeyInput`, `OutfitRecommendations` | the components of those names |

The model follows the code as written, including these points:
- `wave` is recomputed only once the history holds more than 10 poses, not at 10.
- Stored measurements are replaced only by a result whose confidence is above 0.5, so one of exactly 0.5 is not taken.
- `analyzeFit` never returns 'good'. The boundary ratios 1.2 and 0.8 (shoulder widths 240 and 160) are 'perfect'.
- The hand-raise counters cannot count repeated raises: lowering the hand resets them. See Findings.
- The view computes a fit analysis but discards it, because the setter call is commented out (src/components/PoseViewer.tsx:86). `RequestedFit` models the request only.

## Model

| member | source | states |
|---|---|---|
| PoseTypes.Find | src/hooks/usePoseDetection.ts:57-62 | `find` on the keypoints: nothing iff no keypoint has the part; otherwise the first keypoint with that part name |
| Measurements.Abs | src/hooks/usePoseDetection.ts:66 | `Math.abs`: non-negative, and equal to the argument or its negation |
| Measurements.Bisect | src/hooks/usePoseDetection.ts:73-80 | bisection keeps a lower bound of the square root whose square is at most x |
| Measurements.Sqrt | src/hooks/usePoseDetection.ts:73-80 | `Math.sqrt`: non-negative, and its square does not exceed the argument |
| Measurements.Distance | src/hooks/usePoseDetection.ts:73-80 | a segment length is non-negative, and its square is at most dx² + dy² |
| Measurements.ArmLength | src/hooks/usePoseDetection.ts:71-82 | 0 unless the elbow and wrist are present and the shoulder scores above 0.5; otherwise upper arm plus forearm; never negative |
| Measurements.Min4 | src/hooks/usePoseDetection.ts:84-89 | `Math.min` of four: at most each argument, and equal to one of them |
| Measurements.CalculateBodyMeasurements | src/hooks/usePoseDetection.ts:56-99 | no result iff a shoulder or hip is missing. Widths and torso length are absolute differences (x, x, y); chest is 0.85 × shoulders; every length is ≥ 0. Confidence is the weakest anchor's score |
| Measurements.ConfidenceIgnoresArms | src/hooks/usePoseDetection.ts:84-89 | poses that agree on the four anchors agree on whether there is a result and on its confidence, whatever their elbows and wrists |
| Measurements.AnalyzeFit | src/hooks/usePoseDetection.ts:101-126 | shoulder ratio > 1.2 gives tight (0.8), < 0.8 loose (0.8), else perfect (0.95); never good. Chest advice iff a shirt with chest ratio > 1.1. One piece of size advice exactly when not perfect, plus the chest advice, each once and the chest advice last; none iff perfect without chest advice |
| Measurements.FitMonotone | src/hooks/usePoseDetection.ts:110-119 | a wider shoulder never gives a looser verdict (loose < perfect < tight) |
| Measurements.FitBoundariesArePerfect | src/hooks/usePoseDetection.ts:110-119 | shoulder widths of exactly 240 and 160 are perfect, with confidence 0.95 |
| Gestures.RaiseStep | src/hooks/usePoseDetection.ts:139-157 | with wrist and shoulder both above 0.3, the flag is "wrist more than 50 above the shoulder". A lowered hand resets the counter; as written the counter grows only on a rising edge. Otherwise the side is unchanged |
| Gestures.RisingEdgeKeepsTracking | src/hooks/usePoseDetection.ts:141-145 | under the rising-edge rule a counter equal to (hand up ? 1 : 0) stays so after any step, hence never exceeds 1 |
| Gestures.ThumbsUp | src/hooks/usePoseDetection.ts:160-166 | recomputed iff right wrist, elbow and shoulder are present, as "forearm within 0.5 rad of the horizontal and pointing up"; a true flag implies wrist above elbow; kept otherwise |
| Gestures.SquaredDeviations | src/hooks/usePoseDetection.ts:174-177 | a sum of squared deviations is non-negative |
| Gestures.PopulationVariance | src/hooks/usePoseDetection.ts:174-177 | the population variance is non-negative |
| Gestures.WristXs | src/hooks/usePoseDetection.ts:171-173 | one x per pose, that of the right wrist, 0 when it is missing |
| Gestures.Wave | src/hooks/usePoseDetection.ts:169-180 | kept unless the history holds more than 10 poses; then true iff the variance of the last 10 right-wrist x values exceeds 1000 |
| Gestures.VarianceOfConstant | src/hooks/usePoseDetection.ts:174-177 | equal values have variance 0 |
| Gestures.StillWristDoesNotWave | src/hooks/usePoseDetection.ts:169-180 | a right wrist that stayed put over the last 10 poses does not wave |
| Gestures.AlternatingVariance | src/hooks/usePoseDetection.ts:174-177 | ten values alternating between 0 and 200 have variance 10000 |
| Gestures.SwingingWristWaves | src/hooks/usePoseDetection.ts:169-180 | any history of more than 10 poses whose last ten right-wrist x values alternate between 0 and 200 sets the wave flag |
| Gestures.DetectGestures | src/hooks/usePoseDetection.ts:128-183 | the new state: each side by `RaiseStep`, thumbs-up and wave by their rules; `peace` never changes |
| Gestures.DetectKeepsTracking | src/hooks/usePoseDetection.ts:139-157 | as written, a frame keeps both counters equal to their flags (0 or 1) |
| PoseSession.Push | src/hooks/usePoseDetection.ts:232-235 | push then shift: below 30 the pose is appended; from 30 on the oldest pose is dropped and the pose appended; the length stays ≤ 30 |
| PoseSession.UpdateMeasurements | src/hooks/usePoseDetection.ts:238-241 | the stored measurements change only to a present result with confidence > 0.5, and always do for such a result |
| PoseSession.Advance | src/hooks/usePoseDetection.ts:228-245 | a pose scoring ≤ 0.3 changes nothing. Otherwise it becomes the current pose and is pushed onto the history; measurements are updated; the gestures are computed on the new history |
| PoseSession.LastN | src/hooks/usePoseDetection.ts:233-235 | the last n elements, or all when there are fewer |
| PoseSession.RunHistory | src/hooks/usePoseDetection.ts:228-235 | a run's history depends only on the starting history and the poses |
| PoseSession.LastNPush | src/hooks/usePoseDetection.ts:232-235 | pushing onto the last 30 gives the last 30 of the extended sequence |
| PoseSession.HistoryAfterIsLastAccepted | src/hooks/usePoseDetection.ts:228-235 | frame by frame, the history is the last 30 of the starting history followed by the accepted poses |
| PoseSession.HistoryIsLastAccepted | src/hooks/usePoseDetection.ts:228-235 | after any run the history is the last 30 accepted poses in arrival order: a bounded FIFO |
| PoseSession.HistoryBounded | src/hooks/usePoseDetection.ts:233-235 | the history never holds more than 30 poses |
| PoseSession.NewestLast | src/hooks/usePoseDetection.ts:229-232 | when the last frame is accepted it is the current pose and the newest in the history |
| PoseSession.LowScoreFramesChangeNothing | src/hooks/usePoseDetection.ts:228 | frames all scoring ≤ 0.3 leave the whole state as it was |
| PoseSession.RisingEdgeRunKeepsTracking | src/hooks/usePoseDetection.ts:139-157 | as written, over any run both counters stay equal to their flags |
| PoseSession.HeldFramesCount | src/hooks/usePoseDetection.ts:139-147 | counting while held, k frames with the left hand raised add k to the left counter |
| PoseSession.Session.constructor | src/hooks/usePoseDetection.ts:9-33 | empty history, no pose, no measurements, gestures all false and 0 |
| PoseSession.Session.Step | src/hooks/usePoseDetection.ts:228-245 | the in-place update (push, shift, overwrite) produces the state `Advance` specifies and keeps the history ≤ 30 |
| PoseSession.Session.Feed | src/hooks/usePoseDetection.ts:216-257 | stepping through frames in order produces the state `Run` specifies |
| PoseViewer.Overlay | src/components/PoseViewer.tsx:53-68 | width = shoulder span × 262/190 and height = width × 581/440, both ≥ 0. The rectangle is centred on the shoulder midpoint, which sits a quarter of the way down |
| PoseViewer.UpdateOverlay | src/components/PoseViewer.tsx:44-71 | recomputed iff there is a pose with both shoulders above 0.3; otherwise the previous overlay stays |
| PoseViewer.OverlayPersists | src/components/PoseViewer.tsx:52-69 | an overlay once shown never disappears |
| PoseViewer.Navigation | src/components/PoseViewer.tsx:74-80 | left counter ≥ 5 requests prev; otherwise right counter ≥ 5 requests next; nothing iff both are below 5 |
| PoseViewer.RisingEdgeNeverNavigates | src/components/PoseViewer.tsx:74-80 | as written, no sequence of frames from the start ever requests navigation |
| PoseViewer.HeldHandNavigates | src/components/PoseViewer.tsx:74-80 | counting while held, five frames with the left hand raised request prev, from any state |
| PoseViewer.IsFavorite | src/components/PoseViewer.tsx:113 | true iff an item is selected and some favourite has its id |
| PoseViewer.FavoriteIndex | src/components/PoseViewer.tsx:113 | the first favourite with the id (none before it has the id), or nothing iff none has it |
| PoseViewer.FitColor | src/components/PoseViewer.tsx:115-123 | the colour of each fit name; grey iff the name is not one of the four |
| PoseViewer.FitColorsDistinct | src/components/PoseViewer.tsx:115-123 | the four fits get four different colours, none of them grey |
| PoseViewer.RequestedFit | src/components/PoseViewer.tsx:84-88 | a fit is analysed iff an item is selected and the measurements are above 0.5 confidence, for the item's type; chest advice only for shirts |
| PoseViewer.TryRoom.constructor | src/components/PoseViewer.tsx:35-41 | no overlay, no screenshots |
| PoseViewer.TryRoom.OnPose | src/components/PoseViewer.tsx:44-71 | the overlay becomes `UpdateOverlay` of the old one; screenshots untouched |
| PoseViewer.TryRoom.KeepScreenshot | src/components/PoseViewer.tsx:100-103 | a non-empty capture is appended; a missing or empty one changes nothing |
| ShoppingFeatures.AddToCompare | src/components/ShoppingFeatures.tsx:35-39 | appended iff there is room and the id is new; otherwise unchanged. At most 3 entries with distinct ids stay so; the id is present afterwards iff it was or there was room |
| ShoppingFeatures.RemoveFromCompare | src/components/ShoppingFeatures.tsx:41-43 | no entry with the id remains, every other entry does; distinct ids stay distinct; never longer |
| ShoppingFeatures.RemoveKeepsOrder | src/components/ShoppingFeatures.tsx:41-43 | removal from two lists joined is removal from each, joined: the remaining entries keep their order |
| ShoppingFeatures.RemoveSingle | src/components/ShoppingFeatures.tsx:41-43 | a single entry stays iff its id differs; with `RemoveKeepsOrder` this fixes the result of every removal |
| ShoppingFeatures.KeepsDistinctIds | src/components/ShoppingFeatures.tsx:42 | filtering keeps ids distinct |
| ShoppingFeatures.RemoveAbsent | src/components/ShoppingFeatures.tsx:41-43 | removing an absent id changes nothing |
| ShoppingFeatures.RemoveUndoesAdd | src/components/ShoppingFeatures.tsx:35-43 | removing a product just added restores the list |
| ShoppingFeatures.AddIdempotent | src/components/ShoppingFeatures.tsx:36 | adding twice is adding once |
| ShoppingFeatures.CompareList.constructor | src/components/ShoppingFeatures.tsx:33 | the list starts empty |
| ShoppingFeatures.CompareList.Add | src/components/ShoppingFeatures.tsx:35-39 | the list becomes `AddToCompare` of the old one |
| ShoppingFeatures.CompareList.Remove | src/components/ShoppingFeatures.tsx:41-43 | the list becomes `RemoveFromCompare` of the old one |
| ShoppingFeatures.CompareList.Clear | src/components/ShoppingFeatures.tsx:156 | Clear All empties the list |
| App.WishlistAdd | src/App.tsx:127-131 | unchanged when the id is present, else the new entry is appended. The id is present afterwards; unique ids stay unique |
| App.AddToWishlistIdempotent | src/App.tsx:127-129 | adding a product twice equals adding it once, whatever the second timestamp |
| App.NewWishlistEntry | src/App.tsx:116-130 | a new product adds one entry at the end, earlier entries unchanged. The entry's id and productId are the product's; name, price and brand are copied; no image, medium priority |
| App.Recommend | src/App.tsx:67-83 | the i-th product has id rec-i and url #product-i. Brand defaults to Premium Brand when missing or empty. It is in stock with no image, rating in [4.2, 5.0) and reviews in [50, 549]; other fields are copied |
| App.ToRecommendations | src/App.tsx:67-83 | one product per answer, in order |
| App.RecommendationIdsDistinct | src/App.tsx:68 | the products get pairwise distinct ids |
| App.BuildProfile | src/App.tsx:87-102 | profile id user-`now`; preferences: styles casual and elegant, colours from the skin tone, no brands, price range 50-300, occasions casual, work and evening; measurements, body shape, skin tone and demographics copied; created and updated at `now` |
| App.FailureMessage | src/App.tsx:109 | the failure's own message, else the default one |
| App.AppState.constructor | src/App.tsx:11-17 | not analysing, no error, no analysis, no recommendations, empty wishlist, no profile, upload section |
| App.AppState.AddToWishlist | src/App.tsx:115-132 | the wishlist becomes `WishlistAdd` of the old one; nothing else changes |
| App.AppState.ResetAnalysis | src/App.tsx:134-139 | clears analysis, recommendations and error and returns to upload; wishlist and profile stay |
| App.AppState.BeginUpload | src/App.tsx:51-52 | analysing, error cleared, nothing else changed |
| App.AppState.FinishUpload | src/App.tsx:54-112 | analysis failure: error set, nothing else. Recommendation failure: analysis kept, error set. Success: analysis, products and profile set, results section. Analysing ends in every case; the wishlist stays |
| ClothingSelector.FilteredAndSorted | src/components/ClothingSelector.tsx:39-58 | a reordering of the filtered items, each as often as `filter` keeps it. An item is listed iff it passes the search, type and favourites filters; the list is ordered by the sort mode |
| ClothingSelector.PriceAscending | src/components/ClothingSelector.tsx:51-52 | sorting by price lists cheaper items first |
| ClothingSelector.RatingDescending | src/components/ClothingSelector.tsx:53-54 | sorting by rating lists better-rated items first, a missing rating counting as 0 |
| ClothingSelector.NameAscending | src/components/ClothingSelector.tsx:55-56 | the default sort orders the names |
| ClothingSelector.EmptySearchMatchesAll | src/components/ClothingSelector.tsx:41-43 | an empty search term matches every item |
| ClothingSelector.ClearedFiltersShowEverything | src/components/ClothingSelector.tsx:39-48 | with no term, type 'all' and favourites off, the list is a reordering of all items |
| ClothingSelector.FavoritesOnlyShowsFavorites | src/components/ClothingSelector.tsx:45 | with favourites only, every listed item has a favourite's id |
| ClothingSelector.FavoritesIgnoredWhenOff | src/components/ClothingSelector.tsx:45 | with favourites only off, the favourites make no difference |
| ClothingSelector.TypeFilterShowsThatType | src/components/ClothingSelector.tsx:44 | a type other than 'all' lists only that type |
| ClothingSelector.UniqueTypes | src/components/ClothingSelector.tsx:60 | no duplicates; a type is listed iff some item has it; types appear in the order of their first item |
| ClothingSelector.ClearFilters | src/components/ClothingSelector.tsx:221-225 | no term, type 'all', favourites off; sort and view kept |
| ClothingSelector.ClearFiltersShowsEverything | src/components/ClothingSelector.tsx:221-225 | after clearing, every item is listed again |
| AnalysisResults.FilteredRecommendations | src/components/AnalysisResults.tsx:54-65 | a permutation of the category-filtered list; a product is listed iff its category passes ('all' or equal); ordered by the sort mode |
| AnalysisResults.AllCategoriesShowsEverything | src/components/AnalysisResults.tsx:55 | 'all' lists every product |
| AnalysisResults.SortOrders | src/components/AnalysisResults.tsx:56-65 | price ascending, rating descending, match score descending by default |
| AnalysisResults.Categories | src/components/AnalysisResults.tsx:67 | no duplicates; a category is listed iff some product has it; categories appear in the order of their first product |
| AnalysisResults.BodyShapeIcon | src/components/AnalysisResults.tsx:33-43 | the icon of each of the six shapes; the silhouette iff the shape is unknown |
| AnalysisResults.SkinToneColor | src/components/AnalysisResults.tsx:45-52 | the swatch of each tone; grey for an unknown one |
| AnalysisResults.GreyMeansNeitherWarmNorCool | src/components/AnalysisResults.tsx:45-52 | grey iff the tone is neither warm nor cool: neutral and unknown look alike |
| ApiKeyInput.LengthBoundary | src/components/ApiKeyInput.tsx:24 | with the prefix, 30 characters are rejected and 31 accepted |
| ApiKeyInput.Submitted | src/components/ApiKeyInput.tsx:15-20 | nothing iff the key is all whitespace; otherwise the key with surrounding whitespace removed, non-empty and not starting or ending with whitespace |
| ApiKeyInput.ValidKeyIsSubmitted | src/components/ApiKeyInput.tsx:15-27 | a key of valid format is always passed on |
| ApiKeyInput.TrailingSpaceCountsTowardLength | src/components/ApiKeyInput.tsx:15-33 | a 30-character key with a trailing space is valid; the key passed on is the 30-character one, which is not |
| ApiKeyInput.ApiKeyForm.constructor | src/components/ApiKeyInput.tsx:11-13 | empty key, not valid |
| ApiKeyInput.ApiKeyForm.ValidateApiKey | src/components/ApiKeyInput.tsx:22-27 | returns and records whether the key starts with AIza and is longer than 30 |
| ApiKeyInput.ApiKeyForm.ChangeApiKey | src/components/ApiKeyInput.tsx:29-33 | the value becomes the key and the validity describes it, as typed |
| ApiKeyInput.ApiKeyForm.Submit | src/components/ApiKeyInput.tsx:15-20 | passes on `Submitted` of the key; changes nothing |
| ApiKeyInput.EnabledSubmitSendsKey | src/components/ApiKeyInput.tsx:83 | an enabled submit button means a valid key, no validation running, and a key passed on |
| OutfitRecommendations.ConfidenceColor | src/components/OutfitRecommendations.tsx:18-23 | green iff ≥ 0.9, blue iff in [0.8, 0.9), yellow iff in [0.7, 0.8), grey iff below 0.7 |
| OutfitRecommendations.ConfidenceColorMonotone | src/components/OutfitRecommendations.tsx:18-23 | a higher confidence never gets a lower band |
| OutfitRecommendations.OccasionIcon | src/components/OutfitRecommendations.tsx:25-41 | the icon of each lower-cased occasion; the tie iff it is none of the seven |
| OutfitRecommendations.OccasionIconIgnoresCase | src/components/OutfitRecommendations.tsx:26 | an occasion and its lower-cased form get the same icon |
| OutfitRecommendations.CapitalisedOccasion | src/components/OutfitRecommendations.tsx:26-29 | "Business" gets the briefcase |
| OutfitRecommendations.TotalPrice | src/components/OutfitRecommendations.tsx:100 | the total of no items is 0 |
| OutfitRecommendations.TotalPriceConcat | src/components/OutfitRecommendations.tsx:100 | the total of two lists together is the sum of their totals |
| OutfitRecommendations.TotalPriceSingle | src/components/OutfitRecommendations.tsx:100 | the total of one item is its price |
| OutfitRecommendations.TotalPriceBounds | src/components/OutfitRecommendations.tsx:100 | without negative prices the total is ≥ 0 and at least each price |
| OutfitRecommendations.ItemsLabel | src/components/OutfitRecommendations.tsx:96 | the count, then " item", then an "s" exactly when the count is above 1, and nothing more |
| Collections.Filter | src/components/ClothingSelector.tsx:40-48 | `filter`: never longer, a sub-multiset, an element kept iff it passes |
| Collections.FilterMultiplicity | src/components/ClothingSelector.tsx:40-48 | a passing element is kept as often as it occurs, a failing one never |
| Collections.FilterSingle | src/components/ShoppingFeatures.tsx:42 | a single element is kept iff it passes; with `FilterConcat` this fixes the order of what is kept |
| Collections.FilterConcat | src/components/ShoppingFeatures.tsx:42 | filtering a concatenation filters each part |
| Collections.FilterAllPass | src/components/ShoppingFeatures.tsx:42 | a filter everything passes changes nothing |
| Collections.FilterAgrees | src/components/ClothingSelector.tsx:45 | tests that agree on the elements filter alike |
| Collections.Dedup | src/components/ClothingSelector.tsx:60 | `Array.from(new Set(s))`: no duplicates, the same elements, never longer |
| Collections.DedupOrder | src/components/ClothingSelector.tsx:60 | `Dedup` lists values in the order of their first occurrence |
| Collections.DedupOfDistinct | src/components/ClothingSelector.tsx:60 | a duplicate-free sequence is unchanged |
| Collections.LexLeqTotal | src/components/ClothingSelector.tsx:56 | the name order is total |
| Collections.LexLeqTransitive | src/components/ClothingSelector.tsx:56 | the name order is transitive |
| Collections.Insert | src/components/ClothingSelector.tsx:49-58 | inserting into a sorted list keeps it sorted and adds exactly the element |
| Collections.SortBy | src/components/ClothingSelector.tsx:49-58 | `sort`: ordered by the key, a permutation of the input |
| Text.Lower | src/components/ClothingSelector.tsx:41-43 | `toLowerCase`: same length, each character ASCII-lower-cased |
| Text.LowerIdempotent | src/components/OutfitRecommendations.tsx:26 | lower-casing twice is lower-casing once |
| Text.Includes | src/components/ClothingSelector.tsx:41-43 | `includes` iff the term occurs at some position |
| Text.IncludesEmpty | src/components/ClothingSelector.tsx:41-43 | every string includes the empty one |
| Text.Trim | src/components/ApiKeyInput.tsx:17-18 | `trim`: a slice framed by whitespace runs, neither starting nor ending with whitespace; empty iff all whitespace |
| Text.Decimal | src/App.tsx:68 | the decimal rendering of an index: non-empty, last digit n mod 10, two or more digits iff n ≥ 10 |
| Text.DecimalRoundTrip | src/App.tsx:68 | the rendering is all digits, has no leading zero except for 0, and read back as a decimal number gives n |
| Text.DecimalInjective | src/App.tsx:68 | distinct indices render differently |
| Text.PrefixedDecimalInjective | src/App.tsx:68 | `rec-i` determines i |

## Left out

- Pose model loading, inference, camera acquisition and release, and model disposal. These are foreign asynchronous calls; each frame's `Pose` is an input.
- The `requestAnimationFrame` loop. `Session.Feed` and `PoseSession.Run` drive frames from a sequence of poses instead.
- React closure timing. The gesture step takes the previous state explicitly; the frame loop's capture of a stale `gestureState` is not modelled.
- Canvas drawing, screenshot encoding and the screenshot download. The capture is an input to `TryRoom.KeepScreenshot`.
- Floating point. Coordinates, scores and prices are reals, so IEEE rounding, NaN and infinities are not modelled.
- Measurements.Sqrt: promises only a non-negative result whose square is at most the argument, not the exact root, because reals have no exact square root.
- Measurements.Distance: inherits that bound: a non-negative length whose square is at most dx² + dy², not the exact distance.
- Gestures.ThumbsUp: `|atan2(dy, dx)| < 0.5` is stated as `dx > 0 && -dy < dx * tan(0.5)`. This is equivalent when dy < 0, and tan(0.5) is a 16-digit constant.
- `Math.round` for the displayed percentages and `toFixed(2)` for the displayed total. These are display formatting.
- `Math.random`, `Date.now` and `new Date()`:
  - the random draws are parameters constrained to [0, 1);
  - one timestamp `now` serves as both the profile id and its dates;
  - the wishlist date is a parameter.
- Collections.SortBy: does not promise the stability that JavaScript's `sort` has (ties keep input order), only order and permutation.
- `localeCompare` becomes code-point lexicographic order; `toLowerCase` lower-cases ASCII only.
- ApiKeyInput.ValidFormat: the length test counts characters, whereas JavaScript's `length` counts UTF-16 code units; the two agree on the ASCII keys the service issues.
- Lookups in JavaScript object literals do not model keys inherited from the object prototype (such as "constructor").
- The Gemini client (src/services/geminiService.ts). It is a network client; its answers are inputs (`UploadOutcome`, `RawRecommendation`).
- `localStorage` loading and saving of the wishlist and profile.
- Presentational and static files: Header, Footer, PersonalAnalysis, VirtualMirror, ImageUploader and the static catalogue.
- The API-key field's show/hide toggle and the try-room's camera and measurement toggles. These are view flags with no logic.

## Findings

| source | as written | input that shows it | evidently intended | confidence | as-written member | corrected member |
|---|---|---|---|---|---|---|
| src/hooks/usePoseDetection.ts:141-145 | the counter grows only on the frame where the hand goes up, and lowering the hand resets it; so it is 1 while the hand is up and 0 otherwise, and the navigation threshold of 5 (src/components/PoseViewer.tsx:75-77) is never reached | any sequence of frames, for example the left wrist held 60 px above the shoulder for 100 frames (the counter stays 1) | a counter that can reach 5, as the five-step progress ring (counter × 0.2, src/hooks/usePoseDetection.ts:338) expects. Counting the frames the hand is held up is chosen because the reset on lowering rules out reaching 5 by counting separate raises; at 30-60 frames a second it fills the ring in well under a second | not executed | PoseViewer.RisingEdgeNeverNavigates | PoseViewer.HeldHandNavigates |

Both rules are in `Gestures.RaiseStep`, chosen by `CounterRule`:
- `RisingEdge` is the code as written. `Gestures.RisingEdgeKeepsTracking` and `PoseSession.RisingEdgeRunKeepsTracking` prove that its counter never exceeds 1.
- `WhileHeld` is the corrected rule. `PoseSession.HeldFramesCount` proves that it counts held frames.
