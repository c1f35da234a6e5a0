# drone_data core, modelled in Dafny

drone_data is a research toolkit for unmanned-aerial-vehicle imagery. It loads multispectral
raster bands into labelled arrays (xarray datasets), derives vegetation indices, cuts images
into overlapping tiles, post-processes object detections, samples images along rays and polar
profiles, summarises plant traits over time series, reads point clouds, and feeds training
batches to a network. Underneath the numpy, xarray, torch and OpenCV calls sit small
sequential algorithms. This project models those algorithms and proves what they promise.

One Dafny module per source file of the core:

| module | file | what it covers |
|---|---|---|
| `Common` | (shared) | NaN as `Option<real>`, raised exceptions as `Result`, Python's `int()`, `round`, slice bounds, substring search, NaN-ignoring folds |
| `Tiling` | ImagesTransform/image_functions.py | `start_points`, `split_image`, the contrast grid of `change_images_contrast`, the HSV look-up tables of `shift_hsv` |
| `Zoom` | ImagesTransform/image_functions.py, utils/image_functions.py | the crop, pad and trim arithmetic of `image_zoom`, `cv2_clipped_zoom`, `clipped_zoom`, `randomly_zoom`, and the clamp of `scipy_rotate` |
| `Polar` | both image_functions.py files | the walk and the padding of `cartimg_topolar_transform`, with the hull-centre fallback of the utils copy |
| `Raster` | utils/image_functions.py | `change_bordersvaluesasna` and `radial_filter`, on 2-D arrays updated in place |
| `Boxes` | utils/od_functions.py | box forms and conversions, in-place clipping and rescaling, IoU, YOLO-to-pixel conversion, `xyxy_predicted_box` |
| `Nms` | utils/od_functions.py | the filtering, sorting, class offset and caps that `non_max_suppression` performs around the NMS kernel |
| `DroneData` | utils/drone_data.py | band-file selection, vegetation-index names and their substitution, the export checks and file names |
| `Phenomics` | utils/phenomics_functions.py | growth rates, early-stage date selection, the summary cache of `Phenomics`, areas and volumes per date |
| `PointCloud` | utils/xyz_functions.py | the stepped scan of an xyz file, the chunk filter, the row-count check, baseline removal |
| `Xarrays` | utils/xr_functions.py | the running minimum and maximum per variable, tile polygons, the checks and grid size of stacking |
| `Segmentation` | utils/segmentation_datasets.py | the nearest detection to the image centre, the clip window of `_clip_image` |
| `Batching` | ml_utils/data_transform.py | `minmax_scale`, `standard_scale`, and the batch bookkeeping of the Keras generator |

Conventions used throughout:

- Floating-point values are Dafny `real`s, and NaN is `None`.
- An exception the source raises is an `Err` carrying its Python class and, where the source writes one, its message.
- Code that runs in another library becomes a function parameter, and its documented promise is stated as a predicate over that parameter. Examples: OpenCV and SciPy resampling, skimage's `line_aa`, torchvision's NMS, a tensor sort, and the Euclidean distance.
- Randomness is a parameter: the draw of `random.choice`, or the permutation `np.random.shuffle` produces.
- Where a source file defines a name twice, the later definition is the one Python keeps, and that is the one modelled.
- Code that updates state in place becomes methods: arrays, a class's fields, loops with their invariants. Each method is proved equal to a specification function, and the properties are lemmas about that function.

## Model

| member | source | states |
|---|---|---|
| Tiling.OffsetsFromShape | ImagesTransform/image_functions.py:172-179 | from the k-th probe on, offset i is stride·(k+i), every offset but the last leaves room for a whole tile, and the last one reaches the end of the axis |
| Tiling.OffsetsAreStartPoints | ImagesTransform/image_functions.py:168-180 | start_points begins with 0, returns at least two offsets one stride apart, every inner offset leaves room for a tile and the last reaches the end unclamped |
| Tiling.StartPointsUnique | ImagesTransform/image_functions.py:168-180 | the start_points promise determines the offset list completely |
| Tiling.NeverEnds | ImagesTransform/image_functions.py:172-179 | with a stride of 0 or below and a tile shorter than the axis, no offset the loop computes reaches its `break`: the loop runs forever |
| Tiling.ThousandByThreeHundred | ImagesTransform/image_functions.py:168-180 | size 1000, split 300, overlap 0.1 gives stride 270 and offsets 0, 270, 540, 810, the last overrunning the axis |
| Tiling.StartPoints | ImagesTransform/image_functions.py:168-180 | the `while True` loop returns exactly the offsets of the start_points promise, for every input on which it terminates |
| Tiling.PairsAt | ImagesTransform/image_functions.py:196 | `product(cols, rows)` holds (cols[i], rows[j]) at position i·\|rows\|+j: column offset outer, row offset inner |
| Tiling.MapPairsLaidOut | ImagesTransform/image_functions.py:200-202 | a list built one entry per product pair is laid out column by column |
| Tiling.CeilDivCovers | ImagesTransform/image_functions.py:191-192 | n tiles of ceil(a/n) pixels cover an axis of a pixels and n−1 do not |
| Tiling.TileSizeCovers | ImagesTransform/image_functions.py:185-192 | split_image fails exactly when one count is None (TypeError) or a count is 0 (ZeroDivisionError); otherwise the tiles cover the image, 2×2 by default |
| Tiling.TileLabelInjective | ImagesTransform/image_functions.py:202 | distinct (col, row) offsets get distinct "{col}_{row}" labels |
| Tiling.SplitImage | ImagesTransform/image_functions.py:183-204 | an error when the tile size is; otherwise one tile per (column offset, row offset) pair, column outer, cut with numpy slicing and labelled "{col}_{row}" |
| Tiling.MirroredBetasPairs | ImagesTransform/image_functions.py:262-266 | with neg_brightness, each beta is followed by its negation, in the order of the betas |
| Tiling.MirrorBetas | ImagesTransform/image_functions.py:262-267 | the `betshadow` loop builds exactly the mirrored beta list whose pairs MirroredBetasPairs describes |
| Tiling.ChangeImagesContrast | ImagesTransform/image_functions.py:239-278 | one image and one "{alpha}_{beta}" label per (alpha, beta) pair, alpha outer, scalars read as one-element lists |
| Tiling.ContrastRow | ImagesTransform/image_functions.py:272-276 | the inner loop yields, for one alpha, the converted image and label of each beta in order |
| Tiling.LaidOutExtend | ImagesTransform/image_functions.py:271-276 | appending the row of a further alpha keeps the alpha-major layout |
| Tiling.HueLut | ImagesTransform/image_functions.py:328-329 | 256 hue entries, entry i congruent to i + shift modulo 180 and within [0, 180) |
| Tiling.ClipByte | ImagesTransform/image_functions.py:334 | `np.clip(x, 0, 255)`: within [0, 255], x itself when in range, 0 below and 255 above |
| Tiling.ClipLut | ImagesTransform/image_functions.py:333-334 | 256 entries within [0, 255], equal to i + shift where that is in range, and non-decreasing |
| Tiling.HueFullTurn | ImagesTransform/image_functions.py:328-329 | a hue shift of 180 leaves every hue 0..179 unchanged |
| Tiling.HueShiftsCompose | ImagesTransform/image_functions.py:328-330 | two hue shifts in a row equal one shift by their sum |
| Tiling.ApplyLut | ImagesTransform/image_functions.py:330 | `cv2.LUT` keeps the channel length and maps each value through the table |
| Tiling.ShiftHsv | ImagesTransform/image_functions.py:309-344 | an error exactly when a draw from an empty list fails; a zero shift leaves its channel untouched; otherwise every hue becomes (hue + shift) mod 180 and every saturation and value becomes value + shift clipped into [0, 255]; the label is "{hue}_{sat}_{val}" |
| Tiling.ShiftHue | ImagesTransform/image_functions.py:327-330 | the hue channel keeps its length; a zero shift leaves it untouched, otherwise every hue becomes (hue + shift) mod 180 and lies in [0, 180) |
| Tiling.ShiftClipped | ImagesTransform/image_functions.py:332-340 | a saturation or value channel keeps its length; a zero shift leaves it untouched, otherwise every value becomes value + shift clipped into [0, 255]; every value lies in [0, 255] |
| Tiling.ShiftHsvHueUndone | ImagesTransform/image_functions.py:326-329 | a second hue shift that completes a full turn with the first gives the original image back |
| Tiling.ShiftHueUndone | ImagesTransform/image_functions.py:327-330 | on the hue channel alone, a second shift completing a full turn with the first restores every hue in [0, 180) |
| Zoom.DropTiny | utils/image_functions.py:267 | a value below 1e-6 becomes 0 and any other value is kept, so no result lies strictly between 0 and 1e-6 |
| Zoom.DropTinyGrid | ImagesTransform/image_functions.py:135 | the shape is kept and every pixel goes through DropTiny |
| Zoom.ZeroPad | utils/image_functions.py:265 | np.pad gives a (top+h+bottom)×(left+w+right) grid holding the image at (top, left) and zeros elsewhere |
| Zoom.PadRow | utils/image_functions.py:265 | one padded row holds `left` zeros, the row, then `right` zeros |
| Zoom.PadsRestoreLength | utils/image_functions.py:257-259 | the two pads split the missing length with the odd pixel after and bring the resized extent back to the axis length; a factor of 1 or more needs no padding |
| Zoom.ShrinkKeepsWholeImage | utils/image_functions.py:248-254 | when zooming out the crop window starts at 0 and maps back past the last row and column, so the whole image is resized |
| Zoom.ZoomOut | utils/image_functions.py:243-267 | fails exactly when cv2.resize gets an empty source or a non-positive size; otherwise an h×w grid, zero outside the centred resized block, with no value in (0, 1e-6) |
| Zoom.Cv2ClippedZoom | utils/image_functions.py:223-268 | factor 0 returns the image itself, a negative factor fails, and any result keeps the h×w shape with tiny values zeroed |
| Zoom.ZoomInWindowInside | ImagesTransform/image_functions.py:92-104 | for a zoom-in of at most 100% the centred crop window lies inside the axis and is no longer than int(n·zf) |
| Zoom.CentreCrop | ImagesTransform/image_functions.py:92-103 | the zoom-in crop `img[h//2-y1:h//2+y1, w//2-x1:w//2+x1]`: never more rows than the image, and never rows longer than an h×w image's (its exact block is stated by CentreCropInside) |
| Zoom.CentreCropInside | ImagesTransform/image_functions.py:92-103 | for a zoom-in of at most 100% the crop is the 2·y1 × 2·x1 block of the image centred on (h//2, w//2) |
| Zoom.ImageZoom | ImagesTransform/image_functions.py:60-136 | 0 returns the image; a positive percentage behaves as cv2_clipped_zoom with percent/100; a negative one fails exactly when the centred crop is empty and otherwise gives that crop resized back to h×w; tiny values zeroed |
| Zoom.ZoomInOutcome | ImagesTransform/image_functions.py:90-136 | a zoom-in of at most 100% fails exactly when int(h·zf) or int(w·zf) is below 2, and otherwise gives the centred block resized back to h×w |
| Zoom.Place | utils/image_functions.py:290-291 | the zoomed image placed at (top, left) in a zero array of the input's shape |
| Zoom.ZeroGrid | utils/image_functions.py:290 | `np.zeros_like` of an h×w image: h×w, every value 0 |
| Zoom.RoundedShrinkFits | utils/image_functions.py:286-287 | round(n·zf) for 0<zf<1 stays within [0, n] |
| Zoom.RoundedGrowFits | utils/image_functions.py:293-294 | round(n/zf) for zf>1 stays within [0, n] |
| Zoom.ShrunkExtent | utils/image_functions.py:286-287 | a side zoomed out by a factor below 1 is never longer than the image side |
| Zoom.ShrinkIntoZeros | utils/image_functions.py:285-291 | the shrink branch gives an h×w grid holding the zoomed image centred at ((h−zh)//2, (w−zw)//2) and zeros around it |
| Zoom.CentreWindow | utils/image_functions.py:293-297 | the grow branch cuts a centred round(h/zf)×round(w/zf) window |
| Zoom.WindowExtent | utils/image_functions.py:293-294 | the centred window zoomed in by a factor above 1 is never longer than the image side |
| Zoom.GrownWindow | utils/image_functions.py:293-297 | the zoomed window has round(round(n / zf) * zf) rows and columns, which can be fewer than the image has |
| Zoom.GrowAndTrimAsWritten | utils/image_functions.py:297-302 | the trim keeps h rows when the zoomed window has at least h rows and fewer otherwise |
| Zoom.ClippedZoomAsWritten | utils/image_functions.py:281-306 | fails exactly for a negative factor; factor 0 gives all zeros; factor 1 returns the input itself; below 1 the shrink branch, above 1 the trim as written |
| Zoom.ClippedZoomLosesRows | utils/image_functions.py:292-302 | a 25×25 image zoomed by 1.75 comes back with a single row |
| Zoom.FitCentred | utils/image_functions.py:300-302 | the zoomed image centred into h×w: cropped when larger, zero-padded when smaller |
| Zoom.FitCentredAgreesWhenLarger | utils/image_functions.py:300-302 | when the zoomed image is at least h×w, FitCentred is exactly the slice clipped_zoom takes |
| Zoom.ClippedZoom | utils/image_functions.py:281-306 | the corrected clipped_zoom: fails exactly for a negative factor, always keeps the h×w shape, and equals clipped_zoom as written wherever that is already correct |
| Zoom.ClampUnit | utils/image_functions.py:277-278 | the clamp into [0, 1], leaving values already in it unchanged |
| Zoom.ClampUnitInPlace | utils/image_functions.py:277-278 | every array cell is replaced by its clamp, so the whole array lies within [0, 1] |
| Zoom.ClampGrid | utils/image_functions.py:316-317 | every value clamped into [0, 1], the shape kept |
| Zoom.RandomlyZoom | utils/image_functions.py:308-318 | clipped_zoom as written at the drawn factor, every value clamped into [0, 1]; the zoomed-out factors keep the volume's shape, a zoomed-in one keeps its rows exactly when the zoomed window is at least as tall as the volume |
| Zoom.RandomlyZoomLosesRows | utils/image_functions.py:308-318 | with factor 1.75 drawn, a 25×25 volume comes back as a single row |
| Zoom.RandomlyZoomCorrected | utils/image_functions.py:308-318 | randomly_zoom on the corrected clipped_zoom: always the volume's shape, values in [0, 1], and equal to randomly_zoom wherever that keeps the shape |
| Polar.Column | ImagesTransform/image_functions.py:481 | the column `imgarray[:, x]`: one sample per row |
| Polar.ExpandBorder | ImagesTransform/image_functions.py:448-456 | the expansion border fails with ZeroDivisionError exactly when the default ratio meets an empty axis; a square image gets no border by default |
| Polar.WalkSound | ImagesTransform/image_functions.py:475-487 | as many values as offsets; each offset is a row between the start and the last-but-one row, whose sample is valid and is the recorded value; offsets increase |
| Polar.InsideNaNRunRecordsNothing | ImagesTransform/image_functions.py:479-483 | once the NaN count has caught up with a run of NaNs the walk records nothing more |
| Polar.WalkStopsAtNaNRun | ImagesTransform/image_functions.py:479-487 | `nathreshhold` NaNs in a row stop the walk: no row at or below the run is recorded |
| Polar.WalkRecordsEveryValidRow | ImagesTransform/image_functions.py:479-487 | a valid sample resets the count, so on a column without NaNs every row up to the last-but-one is recorded |
| Polar.WalkColumn | ImagesTransform/image_functions.py:473-490 | the `while` loop over one column returns exactly the offsets and values of the walk |
| Polar.HullCentre | utils/image_functions.py:123-126 | the grid centre, or the hull centre when the grid centre is NaN; always a pixel of the band |
| Polar.FirstLongestIndex | ImagesTransform/image_functions.py:492-498 | the first longest non-empty profile, or −1 exactly when every profile is empty |
| Polar.LastOffsetOfLongest | ImagesTransform/image_functions.py:492-498 | the `maxval`/`nrowid` loop leaves nrowid+1 equal to the pad length: the last offset of the first longest profile plus one, or 1 |
| Polar.PadWithNaN | ImagesTransform/image_functions.py:501 | the profile extended with NaN to n entries, a longer profile left unchanged |
| Polar.PadProfiles | ImagesTransform/image_functions.py:500-501 | every profile of the list is replaced in place by its padded copy |
| Polar.IncreasingLastBound | ImagesTransform/image_functions.py:484 | the last of n increasing non-negative offsets is at least n−1 |
| Polar.PadLengthCoversAll | ImagesTransform/image_functions.py:492-501 | no profile is longer than the pad length, so the padded profiles form a rectangle |
| Polar.WalkAngles | ImagesTransform/image_functions.py:466-490 | one walked profile per rotated band, offsets increasing, as many values as offsets |
| Polar.PadToLongest | ImagesTransform/image_functions.py:492-501 | every value profile padded with NaN to the common pad length |
| Polar.CartToPolar | ImagesTransform/image_functions.py:446-504 | per angle, the offsets of the walk from the grid centre, and the values padded with NaN to a rectangle |
| Polar.CartToPolarWithHull | utils/image_functions.py:99-159 | the same walk and padding, a band whose centre is NaN being walked from the hull centre |
| Raster.MaskRows | utils/image_functions.py:19-21 | the rows of the slice `lo:hi` become NaN and every other cell is unchanged |
| Raster.MaskColumns | utils/image_functions.py:22-25 | the columns of the slice `lo:hi` become NaN and every other cell is unchanged |
| Raster.ChangeBordersToNaN | utils/image_functions.py:16-28 | a cell becomes NaN exactly when one of the four border slices covers it, with bx = int(h·b/100) and by = int(w·b/100); every other cell is unchanged |
| Raster.MaskedIsBorder | utils/image_functions.py:19-26 | for borders within the axes the masked cells are exactly the first and last bx rows and the first and last by columns |
| Raster.BorderWithinAxis | utils/image_functions.py:17-18 | a buffer of 0 to 100 percent gives a border between none and the whole axis |
| Raster.WideBorderMasksAll | utils/image_functions.py:19-26 | a border of the whole axis or more masks every cell |
| Raster.RadialSource | utils/image_functions.py:170-176 | the copy radial_filter reads equals the input except at the centre, which becomes 0 when it is NaN even at the hull centre |
| Raster.RayWritesValid | utils/image_functions.py:194-204 | a ray writes only valid pixels inside the image |
| Raster.WrittenValid | utils/image_functions.py:182-204 | all rays together write only valid pixels inside the image |
| Raster.RayStopsAtBorder | utils/image_functions.py:194-208 | the first out-of-bounds pixel ends the ray: nothing after it is written, even pixels back inside |
| Raster.TraceRay | utils/image_functions.py:191-208 | one ray copies into modimg exactly the pixels it writes, every other cell unchanged |
| Raster.RadialFilter | utils/image_functions.py:162-210 | a fresh array of the input's shape holding the source pixel wherever a ray wrote it and NaN elsewhere |
| Raster.RadialKeepsInputValues | utils/image_functions.py:170-210 | every value radial_filter keeps is the input pixel at the same place, except a NaN centre that became 0 |
| Boxes.XyxyToXywh | utils/od_functions.py:544-551 | the centre is the corner midpoint and the size the corner difference |
| Boxes.XywhToXyxy | utils/od_functions.py:392-399 | the corners are a size apart and centred on the given centre |
| Boxes.CornersRoundTrip | utils/od_functions.py:392-399 | xywh2xyxy(xyxy2xywh(b)) gives back b |
| Boxes.CentredRoundTrip | utils/od_functions.py:544-551 | xyxy2xywh(xywh2xyxy(c)) gives back c |
| Boxes.XyxyToXywhn | utils/od_functions.py:537-541 | the centre form with x and width divided by w, y and height by h |
| Boxes.ClipBox | utils/od_functions.py:520-529 | x1, x2 clamped into [0, w] and y1, y2 into [0, h]; a box already inside is unchanged |
| Boxes.ClipBoxIdempotent | utils/od_functions.py:520-529 | clipping twice is clipping once |
| Boxes.ClipBoxes | utils/od_functions.py:520-529 | every box of the array is replaced in place by its clipped form |
| Boxes.XyxyToXywhnBoxes | utils/od_functions.py:533-542 | with clip the input boxes are first clipped in place to (h−eps, w−eps), otherwise untouched; the result is the normalised centre form of each |
| Boxes.UnletterboxInverts | utils/od_functions.py:357-359 | subtracting the pad and dividing by the gain undoes the letterbox mapping |
| Boxes.ScaleBoxes | utils/od_functions.py:348-361 | each box is mapped back by pad and gain (computed, or taken from ratio_pad) and clipped in place, so every box ends inside img0 |
| Boxes.ScaleBoxesRecoversBox | utils/od_functions.py:350-360 | a box of the original image letterboxed for the network comes back from scale_boxes unchanged |
| Boxes.Intersection | utils/od_functions.py:341 | the intersection area is clamped at 0 |
| Boxes.BoxIou | utils/od_functions.py:326-344 | no value exactly when the denominator area1 + area2 − inter + eps is 0; otherwise the value times that denominator is the intersection |
| Boxes.BoxIouSymmetric | utils/od_functions.py:340-344 | box_iou is symmetric in its two boxes |
| Boxes.IntersectionWithinArea | utils/od_functions.py:341 | a box intersects another in at most its own area |
| Boxes.BoxIouInUnitInterval | utils/od_functions.py:340-344 | for boxes of positive area and positive eps the IoU lies in [0, 1) |
| Boxes.BoxIouSelf | utils/od_functions.py:340-344 | without eps a box of positive area has IoU 1 with itself |
| Boxes.FromYoloToXy | utils/od_functions.py:554-572 | int()-truncated corners with l, t ≥ 0, r ≤ dw−1 and b ≤ dh−1 |
| Boxes.AxisRoundTrip | utils/od_functions.py:558-561 | in exact arithmetic, a centre and extent derived from whole pixels lo, hi give back exactly lo and hi (the program's float32 values can lose a pixel; see "## Left out") |
| Boxes.YoloCoordsRecoverCorners | utils/od_functions.py:616-625 | in exact arithmetic, a pixel box inside the image, put in YOLO form and back, keeps its corners, a right or bottom edge on the border becoming the last column or row (the program's float32 values can lose a pixel; see "## Left out") |
| Boxes.RoundBox | utils/od_functions.py:612 | rounding a box inside the image gives whole pixels inside the image |
| Boxes.RowsForAppend | utils/od_functions.py:605-625 | the rows of two detection lists one after the other are the rows of both |
| Boxes.ImageRows | utils/od_functions.py:609-625 | per detection of one image, its rescaled rounded box with normalised centre and confidence, and pixel corners that, in exact arithmetic, are the box's own corners kept inside the image (float32 rounding is left out) |
| Boxes.XyxyPredictedBox | utils/od_functions.py:575-627 | every detection of every image, in order, gets those rows and corners |
| Nms.Select | utils/od_functions.py:492-494 | indexing by an index tensor gives one element per index, in index order |
| Nms.TopCapKeepsHighest | utils/od_functions.py:491-492 | cutting a descending order at max_nms keeps indices scoring at least as much as every index cut |
| Nms.Candidates | utils/od_functions.py:428-449 | exactly the rows whose objectness exceeds conf_thres, never more rows than given |
| Nms.FirstArgMax | utils/od_functions.py:476 | the first index of a largest value, as `max(1)` reports it |
| Nms.ClassConfidences | utils/od_functions.py:465 | each class confidence is the class score times the objectness |
| Nms.BestClass | utils/od_functions.py:465-477 | an error exactly when there are no classes; otherwise the corner-form box, the largest class confidence and the first class reaching it |
| Nms.BestDetections | utils/od_functions.py:476-477 | an error exactly when a row has no classes; otherwise the best-class detections of the rows whose confidence exceeds conf_thres |
| Nms.ClassFilter | utils/od_functions.py:480-481 | exactly the detections of a requested class, or all of them when classes is None |
| Nms.ClassOffsetSeparates | utils/od_functions.py:497-498 | offset by class, boxes of two different classes never intersect, so NMS suppresses only within a class |
| Nms.SortAndCap | utils/od_functions.py:488-494 | min(n, max_nms) detections, drawn from the input, in non-increasing confidence |
| Nms.CapDetections | utils/od_functions.py:500-501 | a prefix of the kernel's indices of at most max_det entries |
| Nms.ImageNms | utils/od_functions.py:445-510 | one image fails exactly when a candidate row has no classes, and an image without candidates keeps the empty result |
| Nms.ImageNmsSound | utils/od_functions.py:446-510 | at most max_det detections in non-increasing confidence, each above conf_thres, of a requested class, and the best-class detection of a row whose objectness exceeds conf_thres |
| Nms.PrefixOfKept | utils/od_functions.py:499-501 | a prefix of what the kernel keeps selects sorted detections in non-increasing confidence |
| Nms.SortAndCapKeepsAll | utils/od_functions.py:493-494 | below max_nms boxes every detection reaches the kernel |
| Nms.ImageNmsConsidersEveryCandidate | utils/od_functions.py:449-494 | a row passing every filter is among the boxes the kernel is given when the candidates fit under max_nms |
| Nms.CoversAll | utils/od_functions.py:492-494 | an argsort order of n distinct indices below n visits every index |
| Nms.NonMaxSuppression | utils/od_functions.py:402-518 | the confidence assertion first, then the IoU one; otherwise one result per image, each the image's NMS result and empty for an image without candidates |
| DroneData.FirstMatch | utils/drone_data.py:43-45 | the first pattern of list2 an element contains, and no earlier one; \|list2\| when none matches |
| DroneData.MatchesSome | utils/drone_data.py:43-45 | an element has a first match exactly when it contains some pattern |
| DroneData.CollectPattern | utils/drone_data.py:44-47 | one pass of the inner loop appends, in list1 order, the elements containing the pattern that are not collected yet, keeping the filter order |
| DroneData.FilterList | utils/drone_data.py:41-49 | exactly the list1 elements containing some list2 entry, each once, ordered by the first entry they contain and then by list1 order |
| DroneData.Picks | utils/drone_data.py:31-37 | the paths selected for one band, in path order: those containing it, a red-edge path being refused for "red" |
| DroneData.PicksAllMembers | utils/drone_data.py:30-37 | a path is picked for some band exactly when some band selects it |
| DroneData.OrderForBand | utils/drone_data.py:31-37 | one band's pass keeps every taken path explained by a band, and appends exactly that band's picks when no path is itself a band name |
| DroneData.SolveRedEdgeOrder | utils/drone_data.py:27-39 | every path taken is a given path selected by some band (never a red-edge path for "red"); when no path is a band name, the result is every band's picks in band order |
| DroneData.ReplaceChar | utils/drone_data.py:83 | `s.replace(c, d)` changes every c to d and nothing else |
| DroneData.MaskSeparators | utils/drone_data.py:80-85 | the replace loop and the digit substitution turn every separator symbol and digit into '-' and keep every other character |
| DroneData.SplitJoin | utils/drone_data.py:86 | joining the pieces of `split('-')` with '-' gives the string back |
| DroneData.Insert | utils/drone_data.py:86 | inserting into a strictly increasing list keeps it strictly increasing and adds exactly x |
| DroneData.Unique | utils/drone_data.py:86 | `np.unique` gives the distinct values in strictly increasing order |
| DroneData.NonEmpty | utils/drone_data.py:86 | dropping '' keeps exactly the non-empty pieces |
| DroneData.NonEmptyKeepsOrder | utils/drone_data.py:86 | dropping '' from a sorted list keeps it sorted |
| DroneData.TokenizeRoundTrip | utils/drone_data.py:80-86 | the expression cut into names and separators renders back to itself |
| DroneData.SplitMatchesTokens | utils/drone_data.py:80-86 | the non-empty pieces split out of the masked expression are exactly its name tokens, in order |
| DroneData.VarNamesAreTokens | utils/drone_data.py:80-86 | the extracted names are the expression's name tokens, each once, sorted, non-empty and free of separators and digits |
| DroneData.ReplaceNamesAsWritten | utils/drone_data.py:87-92 | the textual replace loop raises ValueError for the first name that is not a variable, exactly when there is one |
| DroneData.Substituted | utils/drone_data.py:87-90 | each name token becomes a reference, the length kept |
| DroneData.SubstitutedRestores | utils/drone_data.py:87-90 | every reference points at a name, and reading references back as names gives the tokens again |
| DroneData.SubstituteTokens | utils/drone_data.py:87-90 | the corrected substitution: every reference it makes is in range, and reading them back as names gives the expression |
| DroneData.SubstituteTokensRoundTrip | utils/drone_data.py:87-90 | the corrected substitution never rewrites a name inside another: reading its references back gives the expression |
| DroneData.ExampleNames | utils/drone_data.py:80-86 | the names of `red_edge - red` are `red` then `red_edge` |
| DroneData.ExampleAsWritten | utils/drone_data.py:87-90 | with variables red and red_edge, `red_edge - red` becomes `listvar[0]_edge - listvar[0]` as written |
| DroneData.ExampleSubstituted | utils/drone_data.py:87-90 | the corrected substitution gives `listvar[1] - listvar[0]` on the same input |
| DroneData.FirstMissing | utils/drone_data.py:87-92 | the first name that is not a variable, every earlier one being a variable; \|names\| when all are |
| DroneData.SubstituteNames | utils/drone_data.py:84-90 | the corrected substitution over the names read from the expression: every reference is to a name token of the expression, and reading them back gives the expression |
| DroneData.ReplaceNames | utils/drone_data.py:87-92 | ValueError naming the first missing name exactly when one is missing; otherwise every name token replaced by its reference |
| DroneData.CalculateViFromXarray | utils/drone_data.py:75-122 | the outcome is ViResult: KeyError('nodata') first for a dataset without a `nodata` attribute, ValueError for a missing name, the dataset unchanged when the index exists, otherwise the index added with the formula of the textual replace loop |
| DroneData.ViFormulaAsWritten | utils/drone_data.py:84-90 | the formula handed to eval: each name, in increasing order, replaced textually wherever it occurs; an expression without names is handed to eval unchanged (the substring effect is shown on `red_edge - red` by ViRedEdgeExample) |
| DroneData.ViResult | utils/drone_data.py:75-122 | a dataset without a `nodata` attribute raises KeyError('nodata') before anything else; otherwise a missing expression fails on `replace`; an unchanged dataset means the index exists; an added index carries the textual formula and keeps the `nodata` attribute |
| DroneData.ViResultIntended | utils/drone_data.py:75-122 | the corrected calculate_vi_fromxarray: succeeds exactly when the code as written does, with the same error or unchanged dataset; when it adds the index it adds it to the same dataset, but hands eval the token-wise substitution instead of the textual one |
| DroneData.ViRejectsUnknownNames | utils/drone_data.py:87-92 | on a dataset with a `nodata` attribute, ValueError exactly when a name token is not a variable, naming the least such name |
| DroneData.ViExistingIsUnchanged | utils/drone_data.py:94-120 | on a dataset with a `nodata` attribute, the call succeeds exactly when every name is a variable, and an index that already exists leaves the dataset unchanged |
| DroneData.ViAddsOneVariable | utils/drone_data.py:95-117 | a new index is appended as the last variable under its label, count then equals the number of variables, and the `nodata` attribute is kept |
| DroneData.ViFormulaRefersToVariables | utils/drone_data.py:87-103 | with the corrected substitution, every reference of the formula handed to eval is to an extracted name that is a variable, and reading references back gives the expression |
| DroneData.ViRedEdgeExample | utils/drone_data.py:87-103 | over `red` and `red_edge`, a new index `red_edge - red` is handed to eval as `listvar[0]_edge - listvar[0]` as written, which is not valid Python, and as `listvar[1] - listvar[0]` as intended |
| DroneData.ViResultAdded | utils/drone_data.py:95-119 | with every name a variable and a new index, the index is added last with count one more, under either substitution |
| DroneData.ExampleViFormulas | utils/drone_data.py:87-90 | the two formulas for `red_edge - red` |
| DroneData.KeepExisting | utils/drone_data.py:139 | exactly the requested bands that are variables, each with its multiplicity |
| DroneData.KeepExistingKeepsOrder | utils/drone_data.py:139 | the kept bands are a subsequence of the requested ones |
| DroneData.KeepExistingAll | utils/drone_data.py:139 | bands that are all variables are kept as given |
| DroneData.ExportStemRoundTrip | utils/drone_data.py:348-356 | the corrected stem of `stem.tif` is stem, whatever stem is |
| DroneData.ExportStemKeepsOtherNames | utils/drone_data.py:348-351 | a name not ending in "tif" is kept whole, as written and corrected |
| DroneData.ExportStemAsWrittenCutsStem | utils/drone_data.py:348-356 | `motif.tif` gives the stem "m" as written and "motif" corrected |
| DroneData.ExportStemAsWritten | utils/drone_data.py:348-351 | the stem as written is a prefix of the name, the whole name when it does not end in "tif" |
| DroneData.ExportStem | utils/drone_data.py:348-351 | the corrected stem is a prefix of the name, and a name ending in ".tif" is that stem plus ".tif" |
| DroneData.ExportStemAgrees | utils/drone_data.py:348-356 | when the trailing "tif" is the only one, the stem as written is the intended one |
| DroneData.BandFile | utils/drone_data.py:356 | the band file starts with the stem as written and "_", and ends with "_band.tif" |
| DroneData.BandFileCutsStem | utils/drone_data.py:348-356 | for `motif.tif` the band files are named `m_<band>.tif` |
| DroneData.WriteBands | utils/drone_data.py:353-358 | one output file per band, in band order, each named after the stem as written |
| DroneData.BandFilesDistinct | utils/drone_data.py:356 | different bands go to different files |
| DroneData.JoinedSuffixSnoc | utils/drone_data.py:333-334 | appending a band appends "_" and its name to the joined suffix |
| DroneData.NameSuffix | utils/drone_data.py:332-334 | the loop builds "_b1_b2…" from the bands in order |
| DroneData.DroneData.constructor | utils/drone_data.py:393-394 | the object holds the dataset read from the band files, which always carries a `nodata` attribute because tif_toxarray sets one (line 286); the reading itself is not modelled |
| DroneData.DroneData.CheckBandsToExport | utils/drone_data.py:131-141 | 'all' gives every variable, a single name is wrapped in a list, and only existing names are kept in the order asked |
| DroneData.DroneData.CalculateVi | utils/drone_data.py:159-169 | ValueError for ndvi without nir or another index without an expression, the dataset unchanged; otherwise the dataset becomes what calculate_vi_fromxarray gives, and a dataset with a `nodata` attribute keeps it |
| DroneData.DroneData.ToTiff | utils/drone_data.py:343-361 | one file per exported band, named `<stem as written>_band.tif`, none when no requested band exists |
| DroneData.DroneData.MultibandToTiff | utils/drone_data.py:319-341 | with more than one band, one file named `<stem as written>_b1_b2….tif` and the dataset's count set to the band count; otherwise nothing written and the dataset unchanged |
| Phenomics.WholeDays | utils/phenomics_functions.py:141 | `.dt.days` gives the whole days of a span, rounded down |
| Phenomics.GrowthRate | utils/phenomics_functions.py:129-149 | an AttributeError exactly when the date column is misnamed or the table has at most one row; otherwise n−1 rows for n values, row i holding v[i+1]−v[i], the name gr_t{i+1}t{i} and, with dates, the day gap |
| Phenomics.GrowthRateTelescopes | utils/phenomics_functions.py:130-131 | the first value plus the first k growth rates gives value k back |
| Phenomics.GrowthNameInjective | utils/phenomics_functions.py:132-133 | different rows get different names |
| Phenomics.GrowthDaysNonNegative | utils/phenomics_functions.py:136-141 | with increasing dates every day gap is at least 0 |
| Phenomics.FirstBeyond | utils/phenomics_functions.py:497-499 | the first date more than `days` after the first, every date before it being within |
| Phenomics.EarlyStageIndex | utils/phenomics_functions.py:495-500 | the value earlystagedate holds when the loop stops is a date index |
| Phenomics.EarlyStageDates | utils/phenomics_functions.py:495-502 | the loop yields the positions 0..k−1 for that stopping index k |
| Phenomics.EarlyStageWindow | utils/phenomics_functions.py:495-502 | every selected date is within the early stage; the date at the stopping index is within too but left out, and the next one is past it |
| Phenomics.SelectDates | utils/phenomics_functions.py:507 | `isel` fails with IndexError exactly for a position out of range; otherwise the same layers, dims and pixels at the chosen dates |
| Phenomics.SelectAllDates | utils/phenomics_functions.py:492-507 | selecting every date in order gives the dataset back |
| Phenomics.InitialData | utils/phenomics_functions.py:485-515 | ValueError for fewer than three dimensions, an IndexError for a date out of range, otherwise the dates of interest |
| Phenomics.InitialKeepsAllDates | utils/phenomics_functions.py:492-507 | with the defaults and no radial filter the object holds the whole dataset |
| Phenomics.InitialEarlyStageWithinWindow | utils/phenomics_functions.py:495-507 | filtering on the early stage keeps the k early dates, each within `days` of the first |
| Phenomics.PixelAreaMonotone | utils/phenomics_functions.py:231-232 | more valid pixels never give a smaller area, and no area is negative |
| Phenomics.RosetteValueMonotone | utils/phenomics_functions.py:317 | r²·pixelsize²·π never shrinks as the radius grows and is never negative |
| Phenomics.CountValidZero | utils/phenomics_functions.py:231-232 | no pixel is counted exactly when every pixel is NaN |
| Phenomics.CountValidFull | utils/phenomics_functions.py:231-232 | every pixel is counted exactly when none is NaN |
| Phenomics.LeafAreas | utils/phenomics_functions.py:228-232 | one area per date |
| Phenomics.LeafAreaBounds | utils/phenomics_functions.py:228-232 | a leaf area lies between 0 and the whole frame's area, is 0 when every pixel is NaN and the whole area when none is |
| Phenomics.ValidPixelAreas | utils/phenomics_functions.py:228-232 | the per-date loop appends the leaf area of each date |
| Phenomics.LeafAreaTable | utils/phenomics_functions.py:222-238 | KeyError exactly when there are dates and refband is missing; otherwise one value per date, metric "leaf_area" |
| Phenomics.RosetteAreas | utils/phenomics_functions.py:317 | one rosette area per date |
| Phenomics.RosetteTable | utils/phenomics_functions.py:315-318 | the dates of the dataset, one value each, metric "rosette_area" |
| Phenomics.HullTable | utils/phenomics_functions.py:240-259 | KeyError exactly when refband is missing; otherwise one value per date, metric "convex_hull" |
| Phenomics.HullCoversLeafArea | utils/phenomics_functions.py:231-251 | a convex hull area is never below the leaf area of the same band and date |
| Phenomics.AboveThreshold | utils/phenomics_functions.py:113 | each height is kept or becomes NaN, the frame's size kept |
| Phenomics.VolumeFrames | utils/phenomics_functions.py:112-116 | the filtered height frames, one per date, or none when neither filter applies |
| Phenomics.VolumeTable | utils/phenomics_functions.py:98-127 | ValueError exactly when the height variable is missing, UnboundLocalError exactly when neither filter applies; otherwise one NaN-ignoring sum times the pixel area per date |
| Phenomics.NanSumFilteredAtMost | utils/phenomics_functions.py:113-121 | dropping samples from non-negative data never raises the NaN-ignoring sum |
| Phenomics.VolumeLeafAngleBounds | utils/phenomics_functions.py:110-121 | with non-negative heights a leaf-angle-filtered volume lies between 0 and the unfiltered volume of that date |
| Phenomics.CalculateVolume | utils/phenomics_functions.py:118-127 | the per-date loop gives exactly the volume table |
| Phenomics.ComputedTable | utils/phenomics_functions.py:169-191 | a phenotype with no summary method raises KeyError when it is read back |
| Phenomics.Phenomics.constructor | utils/phenomics_functions.py:484-516 | a fresh object with an empty summary cache |
| Phenomics.Phenomics.Create | utils/phenomics_functions.py:473-516 | Phenomics(...) fails exactly as InitialData does, with the same error; otherwise the object holds the initial data and an empty cache |
| Phenomics.Phenomics.LeafArea | utils/phenomics_functions.py:222-238 | returns the leaf-area table and caches it under "leaf_area"; data and names unchanged |
| Phenomics.Phenomics.RosetteArea | utils/phenomics_functions.py:301-320 | returns the rosette table and caches it under "rosette_area" |
| Phenomics.Phenomics.ConvexHullArea | utils/phenomics_functions.py:240-259 | returns the hull table and caches it under "convex_hull" |
| Phenomics.Phenomics.VolumeSummary | utils/phenomics_functions.py:417-422 | returns calculate_volume with the leaf-angle method and caches it under "volume" |
| Phenomics.Phenomics.QuantileSummary | utils/phenomics_functions.py:379-415 | a quantile table is returned and cached under its key |
| Phenomics.Phenomics.CheckDfphenAvailability | utils/phenomics_functions.py:153-193 | a cached table is returned without recomputing; otherwise the phenotype is computed, stored under its name and read back |
| PointCloud.LineIsMultiple | utils/xyz_functions.py:26-36 | the k-th probe reads line k·step |
| PointCloud.FirstStop | utils/xyz_functions.py:27-39 | the first probe from the k-th on at which the scan stops, no earlier one stopping it |
| PointCloud.LastLeft | utils/xyz_functions.py:30-34 | the last probe before the k-th that found a line left of the box, or 0 when none did |
| PointCloud.ScanForChunk | utils/xyz_functions.py:24-39 | the `while cond1` loop leaves idx at the last probed line left of the box (or 0), and idx2 one step past the line right of the box, or 0 when a line could not be read |
| PointCloud.ChunkSize | utils/xyz_functions.py:40-46 | idxdif is non-zero exactly when idx ≠ 0 and \|idx2−idx\| ≥ 2000, and is then idx2−idx |
| PointCloud.ChunkWindow | utils/xyz_functions.py:22-49 | the start is 0 or a line left of the box; a positive chunk size is at least 2000 and ends one step past a line right of the box |
| PointCloud.ChunkStartIsMultiple | utils/xyz_functions.py:25-34 | the returned idx is k·step for some k, positive when idx is |
| PointCloud.GetChunkSize | utils/xyz_functions.py:22-49 | getchunksize_forxyzfile returns exactly the chunk window |
| PointCloud.ChunkNeedsRightEdge | utils/xyz_functions.py:37-46 | a scan that runs off the end reports no chunk or the negative chunk −idx |
| PointCloud.InsideRows | utils/xyz_functions.py:55-61 | exactly the rows strictly inside the buffered box, in order; a chunk wholly inside is kept unchanged |
| PointCloud.FirstPartial | utils/xyz_functions.py:54-62 | the first chunk with a row outside the box, every earlier chunk being wholly inside |
| PointCloud.Valid | utils/xyz_functions.py:52-62 | the generator yields every whole chunk, then the inside rows of the first partial chunk, and stops |
| PointCloud.ValidRowsInside | utils/xyz_functions.py:52-62 | every row `valid` yields lies strictly inside the buffered box |
| PointCloud.ValidYieldShape | utils/xyz_functions.py:54-62 | with no partial chunk every chunk is yielded unchanged; otherwise one chunk more than the whole ones passed |
| PointCloud.Chunks | utils/xyz_functions.py:83-85 | consecutive pieces of at most chunksize rows that flatten back to the rows read |
| PointCloud.FileRows | utils/xyz_functions.py:83-88 | the rows concatenated from a file lie inside the box; a file with no chunk to concatenate raises ValueError |
| PointCloud.FileRead | utils/xyz_functions.py:80-94 | a file is skipped when the chunk size is not positive; the rows it gives lie inside the box and its only failure is a ValueError |
| PointCloud.ReadFile | utils/xyz_functions.py:80-94 | one pass of the loop reads exactly what FileRead gives |
| PointCloud.Reads | utils/xyz_functions.py:79-98 | one read outcome per file, in file order |
| PointCloud.CloudRows | utils/xyz_functions.py:64-103 | what read_cloudpointsfromxyz returns for a folder: IndexError for no files (the rest is stated by CloudRowsOutcome and CloudRowsAppendsAll) |
| PointCloud.Pass | utils/xyz_functions.py:80-98 | one pass of the `while data` loop starts the table from the first file, appends a later file, skips a file without a chunk, raises for a failed read or an unstarted table, and stops after a first file with more than mindata rows or after the last file |
| PointCloud.ReadCloudPoints | utils/xyz_functions.py:69-103 | the loop returns exactly what read_cloudpointsfromxyz gives for the folder (CloudRows) |
| PointCloud.PassesKeepInside | utils/xyz_functions.py:79-98 | the collected table stays inside the box, and a failing pass raises a read ValueError or the unbound `dfp` |
| PointCloud.CloudRowsOutcome | utils/xyz_functions.py:64-103 | IndexError for no files; a result has at least mindata rows, all inside the box; other failures are the ValueError or the unbound `dfp`; a first file with more than mindata rows is the result on its own |
| PointCloud.PassesAppend | utils/xyz_functions.py:92-98 | after the first file, each later file's rows are appended to the table in file order |
| PointCloud.CloudRowsAppendsAll | utils/xyz_functions.py:79-103 | when the first file gives at most mindata rows and no read fails, the result is every file's rows in order, or the ValueError when fewer than mindata |
| PointCloud.AboveBaseline | utils/xyz_functions.py:489 | exactly the rows at or above the baseline, in order |
| PointCloud.Height | utils/xyz_functions.py:490 | a point at or above the baseline gets a non-negative height; baseline 0 and scale 1 keep the altitude |
| PointCloud.Rebase | utils/xyz_functions.py:490 | each row's altitude replaced by its height, every other column kept |
| PointCloud.RemoveBaselineAll | utils/xyz_functions.py:487-492 | one rebased table per table |
| PointCloud.RemoveBaselineHeights | utils/xyz_functions.py:489-490 | with a non-negative scale every height left is non-negative |
| PointCloud.RemoveBaselineSettled | utils/xyz_functions.py:489-490 | a second pass with baseline 0 and scale 1 changes nothing |
| PointCloud.RemoveBaselineStaysInside | utils/xyz_functions.py:489-490 | removing the baseline never moves a point sideways: a table inside the box stays inside |
| PointCloud.Baseline | utils/xyz_functions.py:479-482 | the given baseline is used verbatim; otherwise the estimate, which fails exactly when the reference table index is out of range |
| PointCloud.CloudPoints.constructor | utils/xyz_functions.py:497-524 | the object holds the tables read and no baseline yet |
| PointCloud.CloudPoints.RemoveBaseline | utils/xyz_functions.py:473-492 | the baseline is recorded; with applybsl every table is replaced by its rows at or above it, rebased; without, the tables are untouched |
| PointCloud.CloudPoints.ApplyBaseline | utils/xyz_functions.py:487-492 | the loop replaces each table in place by its rebased rows |
| PointCloud.RemoveBslCell | utils/xyz_functions.py:286-287 | a pixel keeps its layers exactly when its altitude is strictly above the baseline, every layer blanked otherwise |
| PointCloud.RemoveBslToXarray | utils/xyz_functions.py:284-289 | one cell per input cell |
| PointCloud.BaselineFiltersCompared | utils/xyz_functions.py:286-287 | the raster removal here and the table removal of `remove_baseline` (lines 489-490) agree above the baseline and differ exactly at it: the table keeps such a point at height 0, the raster blanks it |
| Xarrays.Names | utils/xr_functions.py:336-337 | the variable names of a dataset, one per variable, in key order |
| Xarrays.Sentinels | utils/xr_functions.py:268-269 | the starting dictionary holds exactly the given names, each mapped to the sentinel |
| Xarrays.Step | utils/xr_functions.py:346-351 | one update raises the zero-size ValueError of `np.nanmin`/`np.nanmax` exactly when the sample is empty; otherwise it never moves the running minimum up or the running maximum down, and an all-NaN sample leaves it unchanged |
| Xarrays.Running | utils/xr_functions.py:344-351 | folding a variable's samples raises the zero-size ValueError exactly when one of them is empty; otherwise the running value is at least as extreme as the value it started from |
| Xarrays.RunningBounds | utils/xr_functions.py:341-359 | a running value that exists bounds every non-NaN value folded in and is either the starting value or one of them |
| Xarrays.RunningNeverRetreats | utils/xr_functions.py:341-359 | while folding, the running minimum never increases and the running maximum never decreases, and once a sample has raised the later ones do not change the outcome |
| Xarrays.ExtremeTable | utils/xr_functions.py:339-359 | a fold that succeeds keeps exactly the keys it started with |
| Xarrays.ExtremeTableFails | utils/xr_functions.py:341-359 | the fold raises exactly when some variable, in order, is not a key of the first dataset or has an empty sample, and then with the first such variable's exception: KeyError naming it, or the zero-size ValueError |
| Xarrays.ExtremeTableFirstFault | utils/xr_functions.py:341-359 | the fold succeeds exactly when every variable is a key with no empty sample; otherwise it raises the exception of the first variable that is not |
| Xarrays.ExtremeTableErrPersists | utils/xr_functions.py:339-359 | after the first exception the remaining variables do not change the outcome |
| Xarrays.ExtremeTableBound | utils/xr_functions.py:336-359 | per variable the result is at least as extreme as its sentinel and as every non-NaN value of that variable |
| Xarrays.ExtremeTableAttained | utils/xr_functions.py:336-359 | per variable the result is its sentinel or a value some sample of that variable holds |
| Xarrays.FoldSamples | utils/xr_functions.py:343-359 | the inner loop over dates (or the single 2-D sample) raises the ValueError of `np.nanmin` when a sample is empty, and otherwise leaves the running minimum and maximum equal to the fold of those samples |
| Xarrays.FoldVariable | utils/xr_functions.py:340-359 | one variable raises KeyError when the dictionaries lack it, the zero-size ValueError when one of its samples is empty, and otherwise replaces only its own two entries by their folds |
| Xarrays.FoldDataset | utils/xr_functions.py:340-359 | the loop over one dataset's variables keeps the dictionaries equal to the fold of every variable seen so far, or ends with that fold's exception |
| Xarrays.GetMinmaxFromListXarray | utils/xr_functions.py:321-361 | a non-list input raises ValueError, an empty list IndexError, and otherwise the result is the minimum and maximum folds over every dataset, including their KeyError or zero-size ValueError |
| Xarrays.MinMaxFromList | utils/xr_functions.py:321-361 | when the folds succeed, both dictionaries are keyed by exactly the first dataset's variables (when they fail is stated by MinMaxFromListOutcome) |
| Xarrays.ExtendFold | utils/xr_functions.py:340-359 | folding one more variable either updates its entry or fixes the final result to that variable's KeyError or zero-size ValueError |
| Xarrays.MinMaxFromListOutcome | utils/xr_functions.py:321-361 | get_minmax_fromlistxarray fails exactly when some variable, in dataset and key order, is missing from the first dataset or has an empty frame, and then with the first such variable's KeyError or the ValueError of `np.nanmin` |
| Xarrays.EmptyFrameRaises | utils/xr_functions.py:343-351 | a dated variable whose second frame is empty raises the zero-size ValueError of `np.nanmin`, although its first frame folds |
| Xarrays.MinMaxFromListBounds | utils/xr_functions.py:336-359 | per variable the minimum is at most 9999 and at most every non-NaN value on every date of every dataset, and the maximum at least -9999 and every such value |
| Xarrays.Lookup | utils/xr_functions.py:281-282 | `xrdata[name]` finds a variable exactly when the dataset has one of that name, and it is a variable of that name |
| Xarrays.SelectedDate | utils/xr_functions.py:275-277 | a date selected from a dataset with a date dimension is within range |
| Xarrays.FirstUnreadable | utils/xr_functions.py:278-282 | the first band the file lacks or holds no values for: every earlier band can be reduced and that one cannot |
| Xarrays.BandEntries | utils/xr_functions.py:278-282 | one entry per band, in band order, and a band with values contributes no empty sample |
| Xarrays.FileEntries | utils/xr_functions.py:272-282 | what one file contributes is keyed only by the requested bands and holds no empty sample |
| Xarrays.FileEntriesOutcome | utils/xr_functions.py:275-282 | a file reads exactly when the date index is in range and it has values for every band; otherwise IndexError for the date, KeyError for a band it lacks, or the zero-size ValueError of `np.nanmin` for a band without values |
| Xarrays.PickleEntries | utils/xr_functions.py:271-285 | the entries of every file are keyed only by the requested bands and hold no empty sample |
| Xarrays.PickleEntriesErrPersists | utils/xr_functions.py:271-285 | after the first failing file the remaining files do not change the outcome |
| Xarrays.PickleEntriesOk | utils/xr_functions.py:271-285 | reading the files succeeds exactly when each file reads |
| Xarrays.PickleEntriesFirstError | utils/xr_functions.py:271-285 | a failure is the exception of the first file that fails |
| Xarrays.MinMaxFromPickles | utils/xr_functions.py:264-287 | the two dictionaries exist exactly when every file reads (date, every band, values for every band), otherwise the exception is the files' first; both dictionaries are keyed by exactly the bands |
| Xarrays.EmptyBandRaises | utils/xr_functions.py:281-282 | a file whose band has no values raises the zero-size ValueError of `np.nanmin` |
| Xarrays.MinMaxFromPicklesBounds | utils/xr_functions.py:264-287 | per band the minimum is at most 9999 and at most every non-NaN value of that band in the folded files, and the maximum at least -9999 and every such value |
| Xarrays.FoldBand | utils/xr_functions.py:278-285 | one band of one file: KeyError when the file lacks the band, the zero-size ValueError when it has no values (in both cases the first unreadable band), otherwise both dictionaries equal to the fold with that band's values added |
| Xarrays.FoldFile | utils/xr_functions.py:272-285 | one file: its exception (the date, a band it lacks, or a band without values), or both dictionaries equal to the fold with every band of the file added |
| Xarrays.FoldBands | utils/xr_functions.py:278-285 | the loop over one file's bands stops at the first band the file lacks (KeyError) or that has no values (zero-size ValueError); when every band reads, both dictionaries equal the fold with every band added |
| Xarrays.GetMinmaxFromPickleListXarray | utils/xr_functions.py:243-287 | a non-list input raises ValueError, an empty list IndexError, and otherwise the result is the per-band fold keyed by `bands` or the first file's variables, including the files' first exception |
| Xarrays.Corners | utils/xr_functions.py:193-197 | a window's polygon has four corners |
| Xarrays.CornersTraceWindow | utils/xr_functions.py:193-197 | each corner lies on the window's border lines, consecutive corners share a side, and the polygon encloses the window's area |
| Xarrays.SplitXarrayData | utils/xr_functions.py:166-206 | with polygons, box i is numbered i and is the polygon of window i, one per window in order; the windows themselves are passed through |
| Xarrays.DimSize | utils/xr_functions.py:51-52 | `dims[name]` is the size of a dimension of that name, and missing only when no dimension has that name |
| Xarrays.DimPosition | utils/xr_functions.py:109 | the position of the first dimension of that name, missing exactly when there is none |
| Xarrays.Ordinals | utils/xr_functions.py:105-106 | the default axis values are 0 to n-1 |
| Xarrays.AddingNewXarray | utils/xr_functions.py:76-125 | a result comes from a Dataset reference, keeps its dimension names, and holds its axis values first, followed by at least one new one |
| Xarrays.AddingNewXarrayOutcome | utils/xr_functions.py:76-125 | adding succeeds exactly on a Dataset reference with the axis, at least one new frame and an axis value for each; the result keeps the reference's grid and appends one value per frame, 0..n-1 by default |
| Xarrays.Coords | utils/xr_functions.py:49-52 | one (width, height) pair per xarray of the list, read from its dimensions, or the KeyError of a dimension one lacks |
| Xarrays.CommonSizeBounds | utils/xr_functions.py:54-57 | the common grid exists only for "max" and "mean"; with "max" each side is the largest over the list and attained, with "mean" it lies between the smallest and the largest |
| Xarrays.ExpandDims | utils/xr_functions.py:63 | expanding adds the new axis to the dimension names and keeps every old one |
| Xarrays.StackReference | utils/xr_functions.py:46-67 | a non-list input raises ValueError; the reference layer holds the first axis value on the named axis |
| Xarrays.StackAs4dXarrayAsWritten | utils/xr_functions.py:46-73 | as written, a non-list input raises ValueError and no call returns a stack |
| Xarrays.StackAs4dXarray | utils/xr_functions.py:46-73 | the corrected stack_as4dxarray: a non-list input raises ValueError, and a stack is built only on a reference layer |
| Xarrays.StackAsWrittenNeverStacks | utils/xr_functions.py:67-69 | as written, stack_as4dxarray never returns a stack: every input that reaches adding_newxarray raises TypeError |
| Xarrays.StackAsWrittenRejectsTwoFrames | utils/xr_functions.py:46-73 | two 2 x 3 frames with two labels stack under the intended call but raise TypeError as written |
| Xarrays.StackOutcome | utils/xr_functions.py:46-73 | a non-list input raises ValueError; a stack needs at least two xarrays and a label for each, and holds those labels in order on the named axis |
| Xarrays.StackGridIsLargest | utils/xr_functions.py:54-55 | with "max" the stack's grid is as wide and as high as the widest and highest xarray, and no more |
| Segmentation.Centre | utils/segmentation_datasets.py:28-30 | the box centre, each coordinate the floor of the midpoint of the box's two edges on that axis (the corrected form of the vertical coordinate) |
| Segmentation.CentreAsWritten | utils/segmentation_datasets.py:29-30 | as written, both coordinates of the centre are the floored horizontal midpoint |
| Segmentation.Least | utils/segmentation_datasets.py:33 | `np.min` of the distances is one of them and no larger than any |
| Segmentation.FirstAt | utils/segmentation_datasets.py:34 | `np.where(...)[0][0]` is the first position holding the value |
| Segmentation.SelectionChoosesNearest | utils/segmentation_datasets.py:33-34 | a box is chosen exactly when some distance is below the limit; the chosen distance is the least, and no earlier box is as near |
| Segmentation.GetClossestPredictionAsWritten | utils/segmentation_datasets.py:22-36 | get_clossest_prediction as written: no predictions give no choice and no distances; otherwise one distance per box from `((x1+x2)//2, (x1+x2)//2)` to the image centre, which is the box's own centre only when x1+x2 equals y1+y2, and the choice is the first nearest box within the limit |
| Segmentation.GetClossestPrediction | utils/segmentation_datasets.py:22-36 | the corrected get_clossest_prediction: the same loop and choice, with each distance taken from the box's own centre `((x1+x2)//2, (y1+y2)//2)` |
| Segmentation.ClosestAsWrittenMissesTallBox | utils/segmentation_datasets.py:29-34 | a 10 x 100 box centred on the image centre is not chosen as written (distance 45 against a limit of 30) but is chosen with its real centre |
| Segmentation.PadHalfBounds | utils/segmentation_datasets.py:417-418 | the padding on one side is half the truncated extra length, rounded down |
| Segmentation.ClipWindowFramesBox | utils/segmentation_datasets.py:414-422 | the window starts inside the image, spans the box grown on each side by the padding, and holds the box padH rows and padW columns inside when nothing is clamped |
| Segmentation.ClipImage | utils/segmentation_datasets.py:400-425 | an image is returned only when padding is truthy and the box type is known; without zero padding it has at most the image's rows |
| Segmentation.ClipImageFails | utils/segmentation_datasets.py:403-425 | _clip_image returns an image exactly when padding is truthy and the box type is known; otherwise it raises UnboundLocalError for `imgclipped` or for `y1` |
| Segmentation.ClipImageShape | utils/segmentation_datasets.py:414-422 | without zero padding, a window lying inside the image is cut whole, with the window's rows and columns |
| Batching.Scale | ml_utils/data_transform.py:23 | a scaled value exists exactly when the value, the shift and a non-zero span exist; otherwise numpy yields NaN or an infinity |
| Batching.ScaleRoundTrip | ml_utils/data_transform.py:23 | scaling is undone by multiplying back by the span and adding the shift |
| Batching.ScaleAll | ml_utils/data_transform.py:23 | the array operation scales every element on its own and keeps the length |
| Batching.MinmaxScaleEndpoints | ml_utils/data_transform.py:16-23 | with both bounds given, minmax_scale sends every value equal to minval to 0 and every value equal to maxval to 1, whatever the rest of the data |
| Batching.MinmaxScale | ml_utils/data_transform.py:16-23 | fails exactly on empty data with a bound left to default; otherwise one value per value, NaN kept |
| Batching.ScaleIntoUnit | ml_utils/data_transform.py:23 | scaling by a range [lo, hi] that holds the data maps every present value into [0, 1] and keeps NaN where the data has it |
| Batching.MinmaxScaleDefaults | ml_utils/data_transform.py:16-23 | with the default bounds minmax_scale fails only on empty data, keeps NaN, and maps every other value into [0, 1], the data's minimum to 0 and maximum to 1 |
| Batching.StandardScaleEndpoints | ml_utils/data_transform.py:25-31 | with the mean and deviation given, standard_scale sends every value equal to meanval to 0 and every value equal to meanval + stdval to 1, whatever the rest of the data |
| Batching.StandardScale | ml_utils/data_transform.py:25-31 | one value per value, NaN kept; with given mean and non-zero deviation every present value is recovered as y·std + mean |
| Batching.NanSumScaled | ml_utils/data_transform.py:31 | dividing by the spread divides the sum of the deviations by it and keeps the count of present values |
| Batching.NanSumShifted | ml_utils/data_transform.py:31 | subtracting the mean takes it off the sum once per present value |
| Batching.StandardScaleCentres | ml_utils/data_transform.py:25-31 | with the default mean, the present scaled values average to 0 |
| Batching.Range | ml_utils/data_transform.py:411 | `list(range(n))` holds 0 to n-1 in order |
| Batching.RangeIsOrder | ml_utils/data_transform.py:411 | the unshuffled ids are an order (a permutation) of the file positions |
| Batching.NormalizeRoundTrip | ml_utils/data_transform.py:326-329 | without a scaler the target is kept; with one it is recovered as `y' * s1 + s0`, and a zero s1 leaves no finite target |
| Batching.Normalize | ml_utils/data_transform.py:406-407 | no scaler keeps the target; with one a value exists exactly when its divisor is non-zero |
| Batching.BatchAt | ml_utils/data_transform.py:392 | batch i of a full order starts at id position i * batch_size and holds batch_size ids |
| Batching.ServedBatch | ml_utils/data_transform.py:390-397 | the served batch holds the ids of slice idx and one target per id, in order, each normalised with the target scaler |
| Batching.BatchesPartition | ml_utils/data_transform.py:392 | each batch index below `__len__` selects exactly batch_size ids and two different batches share none |
| Batching.DisjointRuns | ml_utils/data_transform.py:392 | two non-overlapping runs of an order hold no id in common |
| Batching.LenDropsRemainder | ml_utils/data_transform.py:312-314 | `__len__` batches cover at most the files, and fewer than batch_size files are left over |
| Batching.DLDataGenerator.constructor | ml_utils/data_transform.py:273-309 | the generator stores its file list, targets, scaler, batch size, shuffle flag, workers and parallel mode, then sets the ids as on_epoch_end does |
| Batching.ListDataError | ml_utils/data_transform.py:334-366 | no error exactly without workers or with 'starmap' and at least one worker; with workers and any other mode `listdata` is unbound (UnboundLocalError) |
| Batching.DefaultsNeverServe | ml_utils/data_transform.py:286-287 | the defaults `workers=6, parrallel='pool'` leave `listdata` unbound |
| Batching.ListDataErrorIntended | ml_utils/data_transform.py:334-366 | the corrected data generation: no error exactly without workers, or with 'starmap' or 'pool' and at least one worker; any other mode leaves `listdata` unbound |
| Batching.ListDataIntendedOnlyAddsPool | ml_utils/data_transform.py:338-353 | the corrected generation agrees with the code as written on every mode but 'pool', serves whatever the code as written serves, and serves 'pool' with workers where the code as written raises |
| Batching.DefaultsServeIntended | ml_utils/data_transform.py:286-287 | with the defaults the corrected generation serves, where the code as written raises |
| Batching.DLDataGenerator.Len | ml_utils/data_transform.py:312-314 | the number of batches is the file count divided by the batch size, rounded down; a zero batch size raises ZeroDivisionError |
| Batching.DLDataGenerator.OnEpochEnd | ml_utils/data_transform.py:410-414 | the ids become the file positions in order, or the given permutation of them when shuffling, and nothing else changes |
| Batching.DLDataGenerator.GetItem | ml_utils/data_transform.py:334-397 | the data generation's error when ListDataError gives one; otherwise batch idx is served exactly when each of its ids has a target, and then it is the ids of that slice with their normalised targets; otherwise IndexError |
| Batching.DLDataGenerator.Call | ml_utils/data_transform.py:399-404 | the batches 0 to len-1 in order, each the batch GetItem serves, and the ids reset once after the last; a zero batch size, the data generation's error (for the defaults, UnboundLocalError on the first batch) or a batch without targets raises and leaves the ids unchanged |

## Left out

- File and raster I/O: rasterio reads and writes, pickle loading, `pd.read_csv` and directory listings. A file is given as its parsed content, and the result of a write is the file name built for it.
- Plotting, `print`/`tqdm` progress output and warnings, which have no result to state. The multiprocessing pool is modelled only as far as whether `listdata` gets assigned (Batching.ListDataError); the work it runs is not.
- Foreign pixel operations: cv2, PIL, skimage and scipy resampling, rotation, look-up-table application, hull computation and ray drawing. Their outputs are inputs or function parameters with their documented promise as a predicate.
- Network inference, and the torchvision NMS kernel itself. The kernel is a parameter that promises distinct in-range indices in decreasing score order.
- Floating point: values are exact reals, so rounding error, infinities and NaN payloads are not modelled. An infinity from a division by zero is merged with NaN (`None`) in `Batching`.
- Polygon geometry beyond the four corners of a tile window. Shapely's `Polygon` is its corner list.
- The `eval` of a vegetation-index expression in `calculate_vi_fromxarray`. Only the extraction and substitution of variable names, and the checks around them, are modelled. `re.sub('\d', ...)` is taken to match the ASCII digits only.
- DroneData.ViResult, DroneData.CalculateViFromXarray and DroneData.ViRedEdgeExample: an added index records the formula handed to `eval` and stops there. The SyntaxError `eval` raises on a formula that is not valid Python, such as `listvar[0]_edge - listvar[0]`, is not modelled, because deciding that would mean modelling Python's grammar.
- `xarray.merge` and `assign_coords`/`expand_dims` clashes inside xarray. They appear as `ForeignError` results, not as their library behaviour.
- DroneData: loading the band files in `__init__` (`get_files_paths`, `tif_toxarray`). The constructor is modelled from the loaded dataset on.
- Phenomics: the quantile computations (`get_df_quantiles`), leaf angles, and the radial and k-means helpers the summaries call. These are parameters or inputs.
- PointCloud: `get_baseline_altitude` (a kernel density estimate) and `from_cloudpoints_to_xarray` (interpolation). The baseline is an input.
- Xarrays: `resize_3dxarray`, `resample_xarray` and `get_tiles`, which live outside the modelled files; their results are inputs. The `count` attribute set by stacking is not modelled. The dimension order of a dataset is taken as it is given.
- Xarrays: `get_xyshapes_from_picklelistxarray`, `get_meanstd_fromlistxarray` and `calculate_terrain_layers`. These are other folds or library calls in the same file and are not part of this model.
- Segmentation: `euclidean_distance` and `pad_images` are parameters. Image channels are not modelled; an image is a grid of pixels of any type.
- Batching: loading and augmenting the images of a batch (the `x` half of `__data_generation`) is not modelled. `sqrt` is a parameter, and `np.random.shuffle` becomes an `order` parameter that must be a permutation.
- Batching.DLDataGenerator.Call: the generator's laziness is not modelled. When a later batch raises IndexError, the batches yielded before it are not part of the `Err` result.
- Nms.NonMaxSuppression: `multi_label`, a-priori `labels`, merge-NMS, mask columns (`nm`) and the commented-out time limit are not modelled. These are the defaults or switched off in the source.
- DroneData.ViResult and DroneData.CalculateViFromXarray: a dataset is either read from band files, which always records a `nodata` attribute, or given as a value; for a value without the attribute the KeyError of line 78 is modelled, but the attribute's value (used to mask no-data pixels before `eval`) is not, since the index values themselves are not modelled.
- Boxes.YoloCoordsRecoverCorners, Boxes.AxisRoundTrip and Boxes.ImageRows: exact recovery of the corners holds in exact arithmetic only. The program divides a float32 tensor by the image size (od_functions.py:616) and truncates with `int()` (od_functions.py:558-561), so a value just below a whole pixel loses a full pixel: at width 5, the box x 1..4 gives x = 0.5 and w = 0.6000000238, so (x − w/2)·5 = 0.99999994 and l = 0, not 1. Modelling float32 rounding is out of scope.
- Boxes.XyxyToXywhn and Boxes.XyxyToXywhnBoxes: require a non-zero width and height. A zero divisor gives an infinity in torch, which the model does not represent.
- Boxes.ScaleBoxes and Boxes.XyxyPredictedBox: require positive image shapes and a non-zero gain. The source would divide by zero there.
- Raster.RadialFilter, Polar.CartToPolar and Polar.CartToPolarWithHull: require non-empty rectangular bands and a hull centre inside the band. An empty image, where the source raises IndexError, is not modelled.
- Tiling.StartPoints and Tiling.SplitImage: require inputs on which the `while True` loop ends. `Tiling.NeverEnds` states that the loop never ends on the other inputs.
- Phenomics.LeafAreaBounds: bounds the area by zero and by the whole frame's area, and pins both extremes. It does not state the converse, that a zero area means every pixel is NaN; that direction needs a cancellation of real products.
- Tiling.StartPoints: `start_points` does not clamp its last offset to `size - split_size`, so the last tile may run past the raster; the model keeps that. Size 1000, split 300 and overlap 0.1 give offsets 0, 270, 540 and 810 (Tiling.ThousandByThreeHundred).
- Zoom.ClippedZoomAsWritten and Zoom.ClippedZoom: scipy is not part of this model. A factor of 0 is taken to give an empty zoom that fills an empty box, so the result is all zeros; a negative factor is taken to fail in `ndimage.zoom`.
- Batching.ListDataError: a pool of no workers is taken to fail when it is created, as a `ForeignError`; the pool's own behaviour is not modelled.

## Findings

| source | as written | input that shows it | evidently intended | confidence | as-written member | corrected member |
|---|---|---|---|---|---|---|
| utils/image_functions.py:292-302 | `clipped_zoom` trims the zoomed window with `(out.shape[0] - h) // 2`, which goes negative when rounding makes the window one pixel smaller than the image | a 25 x 25 image at factor 1.75 (one of `randomly_zoom`'s factors): the window is 14 x 14, zooms to 24 x 24, and `out[-1:24]` keeps 1 row | an output of the input's size, the zoomed window centred and padded when it comes out smaller | not executed | Zoom.ClippedZoomLosesRows, Zoom.ClippedZoomAsWritten, Zoom.RandomlyZoom, Zoom.RandomlyZoomLosesRows | Zoom.ClippedZoom, Zoom.FitCentred, Zoom.RandomlyZoomCorrected |
| utils/drone_data.py:87-90 | `calculate_vi_fromxarray` replaces each variable name with `str.replace`, so a name that occurs inside a longer name is rewritten there too | variables `red` and `red_edge`, expression `red_edge - red`: gives `listvar[0]_edge - listvar[0]`, which is not valid Python, so the `eval` at line 103 raises SyntaxError | each whole name replaced by its own reference: `listvar[1] - listvar[0]` | not executed | DroneData.ExampleAsWritten, DroneData.ReplaceNamesAsWritten, DroneData.ViFormulaAsWritten, DroneData.CalculateViFromXarray, DroneData.ViRedEdgeExample | DroneData.ExampleSubstituted, DroneData.SubstituteTokens, DroneData.ReplaceNames, DroneData.ViResultIntended, DroneData.ViFormulaRefersToVariables |
| utils/drone_data.py:348-356 | `to_tiff` (and `multiband_totiff` at lines 324-337) cut the file name at the first `tif` it contains, not at the extension | `motif.tif`: the outputs are named `m_<band>.tif` | the stem before `.tif`: `motif_<band>.tif` | not executed | DroneData.ExportStemAsWrittenCutsStem, DroneData.ExportStemAsWritten, DroneData.BandFileCutsStem, DroneData.WriteBands | DroneData.ExportStem, DroneData.ExportStemRoundTrip, DroneData.ExportStemAgrees |
| utils/xr_functions.py:67-69 | `stack_as4dxarray` calls `adding_newxarray` with the keyword `method`, which that function (lines 76-80) does not take, so every call that gets that far raises TypeError | two 2 x 3 frames with labels `d1`, `d2` | the frames stacked on the axis the caller names, passing the method as `resample_method` and `axis` as `axis_name` (as written the call leaves adding_newxarray's default `'date'`, so the two also differ for any other stacking axis) | not executed | Xarrays.StackAsWrittenNeverStacks, Xarrays.StackAsWrittenRejectsTwoFrames, Xarrays.StackAs4dXarrayAsWritten | Xarrays.StackAs4dXarray, Xarrays.StackOutcome |
| utils/segmentation_datasets.py:29-30 | `get_clossest_prediction` computes the vertical centre of a box from its x coordinates | a box 10 wide and 100 high centred on the image centre (5, 50): as written it lies 45 away and is not chosen within the limit of 30 | the vertical centre `(y1 + y2) // 2`, at distance 0, chosen | not executed | Segmentation.CentreAsWritten, Segmentation.GetClossestPredictionAsWritten, Segmentation.ClosestAsWrittenMissesTallBox | Segmentation.Centre, Segmentation.GetClossestPrediction, Segmentation.SelectionChoosesNearest |
| ml_utils/data_transform.py:338-353 | with `workers` set, `__data_generation` assigns `listdata` only in the 'starmap' branch, so the constructor's own default mode 'pool' (lines 286-287) leaves it unbound | the defaults `workers=6, parrallel='pool'`: every batch raises UnboundLocalError when the ids are zipped with `listdata` | the 'pool' mode runs the transform through the pool too | not executed | Batching.ListDataError, Batching.DefaultsNeverServe | Batching.ListDataErrorIntended, Batching.ListDataIntendedOnlyAddsPool, Batching.DefaultsServeIntended |
