# Cut-paste augmentation and dataset tools, modelled in Dafny

This project models the data-handling core of a vehicle-detection
dataset toolkit. There are four Python scripts:

- **cut_paste_augmentation.py** copies every labelled box of a source
  image into a destination image at a position that overlaps no box
  already there. It blends the patch into the pixels and appends the new
  box to the destination's label list. It also reads and writes YOLO
  label files and converts between YOLO's normalised
  `class x_centre y_centre width height` and pixel corner boxes.
- **countplot.py** counts, per class id, the label lines of the `.txt`
  files in a folder. It also lists the class names and counts in class-id
  order for a bar chart.
- **app.py** hands out one dark colour per class from a fixed palette of
  sixteen (`get_dark_colors`).
- **directory.py** prints a directory tree with `├──` and `└──`
  connectors and skips label, image and cache files.

## Modules

- `Wrappers`: `Option` and `Result`.
- `Text`: Python's `str.split()`, `' '.join`, `str.endswith` and
  `readlines()` on strings. Splitting a joined line gives its tokens back.
- `Geometry`: boxes, `check_overlap` (and that it means "some pixel is
  in both"), `find_matching_class_height`, and the clamped vertical
  placement next to a same-class box.
- `YoloFormat`:
  - loading and saving label files as text, with the round trip;
  - `yolo_to_bbox` with Python's truncating `int()`;
  - `bbox_to_yolo`, with the round trip pixel box → YOLO → pixel box.
- `Imaging`: images as `array2<Pixel>`, `image.copy()`, and
  `cv2.addWeighted` on one region. It is a per-channel weighted average,
  rounded half to even and saturated to 0..255.
- `RandomSource`: `np.random.randint` as an object holding an oracle of
  draws and a call counter. The empty range raises (`None`).
- `CutPaste`:
  - the destination box list as a mutable `BoxList`;
  - the attempt loop (`FindColumn`), the choice of a row and a column
    (`ChoosePlacement`), one source box (`PlacePatch`) and the whole
    augmentation (`CutPasteAugmentation`);
  - the ghost account of what was pasted where (`Placement`, `Painted`)
    and of every turn of the loop (`Turn`, `Justified`, `TurnsSoFar`).
  - The augmentation's contract:
    - each source box is offered in order, and each outcome is justified
      by the list and the draws of its turn: an error only in its own
      case, a skip only after 100 collisions, a placement on the first
      clear candidate;
    - the run stops at the first error, and succeeds only when every
      source box was offered;
    - the appended boxes are copies of source boxes, in source order;
    - each lies inside the destination and overlaps no box before it;
    - every pixel outside them is unchanged;
    - every pixel inside one is the destination pixel blended once with
      the matching source pixel.
- `Sums`: finite sums, and that they do not depend on the order of the
  items.
- `CountPlot`: `count_classes_in_folder` as a loop over files and lines,
  against a fold (`FolderTally`). Its meaning is proved:
  - a blank line in a `.txt` file raises IndexError;
  - otherwise each class id gets the number of lines whose first token
    reads as it;
  - the result depends on neither file order nor line order;
  - the per-class counts add up to the number of counted lines.
- `ClassPlot`: the two series `plot_class_counts` draws: `sorted` keys
  mapped to names and to counts, and the KeyError for a key with no name.
  The tally of `count_classes_in_folder` always plots all fifteen names in
  id order.
- `Palette`: `get_dark_colors`, with Python's list repetition and
  slicing, including a negative class count.
- `DirectoryTree`:
  - the file system as a tree of `Node`s, the printed lines on a
    `Console` object, and `print_directory_structure` as mutually
    recursive methods;
  - these are proved against a listing function;
  - properties proved: the prefix rule, the last-entry rule, and the
    number of printed lines.

## Notes on the code

The model keeps what the code does in each of these places.

- **Attempt budget.** Each patch gets 100 horizontal tries
  (`max_attempts`, cut_paste_augmentation.py:83).
- **Blend.** The comment on line 2 speaks of Poisson blending, but lines
  97-99 compute a per-pixel weighted average with `cv2.addWeighted`,
  with the patch weighted by `alpha` (default 0.5, line 62).
- **Anchor.** `find_matching_class_height` is named for a height, but on
  a `(class, x1, y1, x2, y2)` tuple its `(bbox[2] + bbox[3]) // 2`
  (line 58) is `(y1 + x2) // 2`. `Geometry.FindMatchingClassHeight`
  keeps that expression.
- **Patches too wide or too tall.** Nothing checks the patch size
  before drawing. A patch at least as wide as the destination makes
  `np.random.randint` raise on an empty range (line 86), which ends the
  whole call. Without an anchor, a patch at least as tall raises the same
  way (line 79). With an anchor, a patch taller than the image starts
  above the top row. The overlap test still runs first: if one of the 100
  candidates is clear of every box, the region sliced for it has another
  shape and `cv2.addWeighted` raises (lines 97-99); if all of them
  collide, the patch is skipped like any other
  (`CutPaste.TallCollidingPatchSkipped`). These are the three
  `PlacementError` cases.
- **Truncation.** `int()` truncates toward zero (lines 27-30), so a
  positive width can give `x1 == x2`: a box of width 0.01 on a
  100-pixel image, centred on column 0 (`YoloFormat.NarrowBoxCollapses`).
  The model proves only `x1 <= x2` (`YoloFormat.YoloCornersOrdered`).

## Model

| member | source | states |
|---|---|---|
| Geometry.CheckOverlap | cut_paste_augmentation.py:46-52 | for non-empty rectangles, true exactly when the x-ranges and the y-ranges both intersect in an interval of positive length |
| Geometry.OverlapSymmetric | cut_paste_augmentation.py:46-52 | the overlap test gives the same answer with its arguments swapped |
| Geometry.OverlapIffSharedPixel | cut_paste_augmentation.py:46-52 | two non-empty boxes overlap exactly when some pixel lies in both |
| Geometry.SharedEdgeIsNoOverlap | cut_paste_augmentation.py:50-51 | boxes that only touch along an edge do not overlap, in either order |
| Geometry.FindMatchingClassHeight | cut_paste_augmentation.py:55-59 | None exactly when no box has the class; otherwise `(y1 + x2) // 2` of the first box of that class, every earlier box having another class |
| Geometry.AnchoredSpan | cut_paste_augmentation.py:71-77 | the span keeps the patch height, ends at the image bottom at the latest, starts at row 0 or below exactly when the patch fits, and then starts at the anchor-centred row clamped into the image |
| Text.WordLength | cut_paste_augmentation.py:10 | the run of non-whitespace characters that starts the string, stopped by whitespace or by the end |
| Text.SplitWhitespace | cut_paste_augmentation.py:10 | every field `split()` returns is non-empty and free of whitespace |
| Text.LineLength | cut_paste_augmentation.py:10 | the first line as `readlines()` cuts it: up to and including the first newline, which is its only newline |
| Text.ReadLines | cut_paste_augmentation.py:10 | `readlines()` returns no empty line |
| Text.SplitWord | cut_paste_augmentation.py:10 | a token followed by whitespace or by the end is split off as one field |
| Text.SplitJoinedLine | cut_paste_augmentation.py:10-18 | splitting a space-joined line of tokens with its newline gives the tokens back |
| Text.JoinedHasNoNewline | cut_paste_augmentation.py:17 | a space-joined line of tokens contains no newline |
| Text.ReadLinesCons | cut_paste_augmentation.py:10-18 | `readlines()` cuts a newline-free line and its newline off the front of a text |
| YoloFormat.LoadYoloAnnotations | cut_paste_augmentation.py:8-11 | one list of fields per line of the file, and every field is a token |
| YoloFormat.SaveYoloAnnotations | cut_paste_augmentation.py:14-18 | writes each annotation's fields joined by spaces plus a newline, in order; loading that text gives the annotations back when every field is a token |
| YoloFormat.ReadLinesOfSerialized | cut_paste_augmentation.py:8-18 | the saved text reads back as exactly one line per annotation, each the annotation's joined fields and newline |
| YoloFormat.SaveLoadRoundTrip | cut_paste_augmentation.py:8-18 | load after save is the identity on annotations whose fields are tokens |
| YoloFormat.Trunc | cut_paste_augmentation.py:27-31 | Python's `int()` on a float: the integer toward zero that is within 1 of the value |
| YoloFormat.TruncMonotone | cut_paste_augmentation.py:27-30 | truncation preserves order |
| YoloFormat.TruncOfInt | cut_paste_augmentation.py:31 | truncating an integer-valued float gives that integer |
| YoloFormat.CornersOrdered | cut_paste_augmentation.py:23-30 | a non-negative size gives a low corner at most the high corner on that axis |
| YoloFormat.YoloToBox | cut_paste_augmentation.py:21-31 | the class of the box is the truncated class value |
| YoloFormat.YoloCornersOrdered | cut_paste_augmentation.py:21-31 | non-negative width and height give `x1 <= x2` and `y1 <= y2` |
| YoloFormat.NarrowBoxCollapses | cut_paste_augmentation.py:27-28 | a positive width can still truncate to `x1 == x2` |
| YoloFormat.BoxToYolo | cut_paste_augmentation.py:33-43 | centre and size scaled back by the image size are the pixel box's centre and size |
| YoloFormat.ConversionExample | cut_paste_augmentation.py:21-43 | `0 0.5 0.5 0.2 0.4` on a 100 x 100 image is the box `(0, 40, 30, 60, 70)`, and back |
| YoloFormat.BoxYoloRoundTrip | cut_paste_augmentation.py:21-43 | over exact reals, converting a pixel box to YOLO values and back gives the same box, for a positive image size |
| YoloFormat.AxisRoundTrip | cut_paste_augmentation.py:23-30 | on one axis, a centre and size that scale back to a pixel span truncate to that span's corners |
| Imaging.RoundHalfEven | cut_paste_augmentation.py:97-99 | the rounded value is within one half of the real value |
| Imaging.BlendChannel | cut_paste_augmentation.py:97-99 | for a weight in [0, 1] the blended channel lies between the two inputs; weight 0 keeps the destination, weight 1 gives the patch |
| Imaging.BetweenAfterRounding | cut_paste_augmentation.py:97-99 | rounding the weighted average keeps it between the two inputs and exact at weights 0 and 1 |
| Imaging.Blend | cut_paste_augmentation.py:97-99 | weight 0 keeps the destination pixel, weight 1 gives the patch pixel |
| Imaging.CopyImage | cut_paste_augmentation.py:63-64 | `copy()` is a fresh image of the same size with the same pixels |
| Imaging.BlendRegion | cut_paste_augmentation.py:97-99 | each pixel inside the region is blended with the matching patch pixel; every pixel outside is unchanged |
| RandomSource.RandomState.RandInt | cut_paste_augmentation.py:79 | a value in `[low, high)` taken from the next draw, or the raised ValueError (None) exactly when the range is empty; a failed call uses no draw |
| CutPaste.BoxList.Append | cut_paste_augmentation.py:100 | the list gains the box at its end and nothing else changes |
| CutPaste.OverlapsAny | cut_paste_augmentation.py:89-93 | true exactly when the candidate overlaps some existing box |
| CutPaste.ChooseRow | cut_paste_augmentation.py:70-80 | the anchored span's first row, or a random row in `[0, H - ph)`; fails exactly when there is no anchor and the patch is at least as tall as the image; the draw is used only without an anchor |
| CutPaste.FindColumn | cut_paste_augmentation.py:83-95 | the range is empty, and raises without using a draw, exactly when the patch is at least as wide as the image; otherwise at most 100 draws, stopping at the first candidate clear of every box, inside the image's columns, with every earlier candidate colliding; exhaustion means 100 collisions |
| CutPaste.ChoosePlacement | cut_paste_augmentation.py:65-102 | the outcome of one source box is `Justified` against the list and the draws; a placed box has the source's shape, lies inside the destination and sits on the anchored span or the drawn row |
| CutPaste.SearchJustified | cut_paste_augmentation.py:70-102 | the row choice and the column search together satisfy `Justified`: the shape error only after a clear candidate for an anchored patch above the top row, a skip only after 100 collisions |
| CutPaste.TallCollidingPatchSkipped | cut_paste_augmentation.py:83-105 | a patch 20 rows tall, anchored on a 10 x 10 image, whose every candidate collides with the one existing box, is skipped after 100 draws and never raises the shape error |
| CutPaste.PlacePatch | cut_paste_augmentation.py:65-105 | one source box, `Justified` against the list and draw count it started from: each empty `randint` range raises exactly in its own case, and the shape error only for an anchored patch taller than the image, once a candidate clear of every box was found after every earlier one collided; a placed copy has the same class and shape, lies inside the destination, overlaps no earlier box, sits on the anchored span or the drawn row, and is the first clear candidate, every earlier one having collided; a skip follows 100 collisions; the list gains exactly the placed box; only its pixels change, and a skipped box changes nothing |
| CutPaste.RecordPlacement | cut_paste_augmentation.py:95-101 | appending a clear copy of source box `k` keeps the appended boxes as the placements' targets, in source order, and pairwise clear |
| CutPaste.TakeTurn | cut_paste_augmentation.py:65-105 | one turn of the loop adds one justified turn, started from the list and draw count the earlier turns left, to the account of all turns |
| CutPaste.PasteNext | cut_paste_augmentation.py:65-105 | one turn of the loop: the outcome for source box `k` is `Justified` against that turn's list and draw count, the list gains exactly the placed box, and the boxes and pixels stay equal to the placements made so far |
| CutPaste.StopsAtFailureStep | cut_paste_augmentation.py:65-105 | after turns that all succeeded, one more turn ends the run with its error exactly when it failed |
| CutPaste.RecordTurn | cut_paste_augmentation.py:65-105 | one more justified turn, started from the list and draw count the previous turns left, keeps the account of all turns |
| CutPaste.ChainTurn | cut_paste_augmentation.py:65-105 | the turns stay chained: each starts from the list and draw count the one before left, and each is justified |
| CutPaste.PlaceTurn | cut_paste_augmentation.py:95-101 | the placements stay exactly the turns that placed a box, each with that box |
| CutPaste.PasteAll | cut_paste_augmentation.py:65-105 | the loop over `bboxes1` offers every source box in order until the first error; each turn is justified and chained, the placements are exactly the placed turns, and it reports the error of the turn that failed |
| CutPaste.PaintedStep | cut_paste_augmentation.py:97-99 | one more placement blends its patch over the pixels it covers and no others |
| CutPaste.PaintedOutside | cut_paste_augmentation.py:97-99 | a pixel outside every pasted box keeps its value |
| CutPaste.PaintedInside | cut_paste_augmentation.py:89-99 | with pairwise clear boxes, a pixel inside one pasted box is blended exactly once, with that box's patch |
| CutPaste.PaintedResult | cut_paste_augmentation.py:89-107 | the final image is the destination with each patch blended once inside its own box and nothing changed elsewhere |
| CutPaste.AppendPasted | cut_paste_augmentation.py:95-100 | appending a box clear of every earlier one keeps all pasted boxes clear of the boxes before them |
| CutPaste.NoTargetsOverlap | cut_paste_augmentation.py:89-100 | boxes each appended clear of all earlier ones are pairwise non-overlapping |
| CutPaste.CutPasteAugmentation | cut_paste_augmentation.py:62-107 | one justified turn per source box offered, in order: a box is left out only after 100 collisions or on an error, an error is raised only in its own case (the shape error only once a candidate is clear of every box) and ends the call at that turn, and success means every source box was offered; the appended boxes are exactly the placed copies, in source order, inside the destination and clear of all earlier boxes; on success a fresh image where only pasted boxes changed, each blended once with its own patch; an error keeps the boxes appended before it |
| CountPlot.ParseInt | countplot.py:20 | `int()` on a token: an accepted token is non-empty, and an unsigned one reads as a non-negative value |
| CountPlot.DigitsValueOfShowNat | countplot.py:20 | reading the decimal digits of `n` gives `n` |
| CountPlot.ParseShowInt | countplot.py:20 | `int(str(n)) == n` for every integer (within Python's digit limit, see below) |
| CountPlot.ParseIntExamples | countplot.py:20-24 | underscores between digits and a sign parse; a decimal point, a leading or a doubled underscore raise ValueError |
| CountPlot.CountLine | countplot.py:19-24 | one line: a blank line raises, a non-integer first token is skipped, an integer id the tally has is counted once |
| CountPlot.CountLines | countplot.py:18-24 | the line loop over a file equals the fold of `CountLine` over its lines |
| CountPlot.LinesTallyStep | countplot.py:18-24 | the fold over one more line is one more step of the line loop |
| CountPlot.CountClassesInFolder | countplot.py:11-26 | fails exactly when a `.txt` file has a blank line; otherwise the keys are the fifteen class ids and each count is the number of lines of `.txt` files whose first token reads as that id |
| CountPlot.LinesTallyStaysFailed | countplot.py:18-20 | once a line has raised, the file's tally has failed |
| CountPlot.FolderTallyStaysFailed | countplot.py:13-20 | once a file has raised, the folder's tally has failed |
| CountPlot.LinesTallyMeaning | countplot.py:18-24 | the line loop fails exactly on a blank line; otherwise it keeps the keys and adds to each the number of lines that read as it |
| CountPlot.FolderTallyMeaning | countplot.py:12-24 | the file loop fails exactly when a `.txt` file has a blank line; otherwise each key grows by the folder's count for it |
| CountPlot.CountFileOrder | countplot.py:13 | the order `os.listdir` returns the files in does not change any count |
| CountPlot.SumOverKinds | countplot.py:18-22 | counting over the line kinds is counting over the lines |
| CountPlot.CountLineOrder | countplot.py:17-22 | reordering the lines of one file does not change any count |
| CountPlot.LineCountsOnce | countplot.py:20-22 | a line whose first token reads as `c` counts once towards `c`, and towards the total exactly when `c` is a class id |
| CountPlot.LineKinds | countplot.py:19-24 | a line is blank exactly when it has no token; a non-integer first token counts towards no class |
| CountPlot.CountsSumToCountedLines | countplot.py:12-24 | the fifteen class counts add up to the number of lines counted towards some class |
| CountPlot.CountsSumBelow | countplot.py:12-24 | the per-class sums of the folder are its counted lines, file by file |
| CountPlot.CountsSnoc | countplot.py:13-22 | one more file adds its per-class counts to the class sums and its counted lines to the total |
| CountPlot.FileSum | countplot.py:14-22 | over the class ids, one file's counts add up to its counted lines; a file not ending in `.txt` adds nothing |
| CountPlot.LineCountsSum | countplot.py:18-22 | over the class ids, a run of lines' counts add up to its counted lines |
| CountPlot.LineCountsSnoc | countplot.py:18-22 | one more line adds its hits to the class sums and its count to the total |
| CountPlot.HitsSum | countplot.py:20-22 | one line hits at most one class id, and exactly one when it is counted |
| ClassPlot.LeastExists | countplot.py:29 | a non-empty set of keys has a least key |
| ClassPlot.SortedKeys | countplot.py:29-30 | `sorted(keys)`: strictly increasing, exactly the keys, one entry per key |
| ClassPlot.FirstMissing | countplot.py:29 | the position of the first key with no class name: every earlier key has a name |
| ClassPlot.PlotSeries | countplot.py:28-30 | succeeds exactly when every key is a class id, with the names and counts in ascending key order; otherwise KeyError on the least key with no name |
| ClassPlot.NamedKeys | countplot.py:29 | when every sorted key has a name, every key of the map has one |
| ClassPlot.FirstMissingIsLeast | countplot.py:29 | the first unnamed key in sorted order is the least unnamed key |
| ClassPlot.PlotOfTally | countplot.py:11-30 | the tally of `count_classes_in_folder` always plots: the fifteen class names in id order, each with its own count |
| ClassPlot.NamesInIdOrder | countplot.py:5-9 | naming the ids 0 to 14 gives the class names in order |
| ClassPlot.ClassIdsInOrder | countplot.py:5-9 | the sorted class ids are 0 to 14 |
| ClassPlot.IncreasingRange | countplot.py:29 | an increasing sequence that holds every value of `0..n-1` and nothing else is `0, 1, ..., n-1` |
| Palette.Repeat | app.py:14 | `s * k`: `k` times as long as `s`, entry `i` being `s[i % len(s)]` |
| Palette.SliceTo | app.py:15 | `lst[:n]` is a prefix of the list; its length is `n` for `0 <= n <= len`, the whole list for larger `n`, and `len + n` (at least 0) for negative `n` |
| Palette.GetDarkColors | app.py:5-15 | exactly `num_classes` colours for a non-negative count, colour `i` being palette entry `i % 16`; up to sixteen classes get the palette's first entries |
| Palette.ColoursFromPalette | app.py:7-15 | every colour handed out is one of the sixteen |
| Palette.DistinctUpToSixteen | app.py:7-15 | up to sixteen classes get pairwise distinct colours |
| Palette.ColoursCycle | app.py:13-15 | class `i + 16` gets the colour of class `i` |
| Palette.MoreClassesExtend | app.py:13-15 | the colours for `m` classes are the first `m` colours for any `n >= m` classes |
| Palette.NegativeCount | app.py:13-15 | a negative count drops that many colours from the end of the palette; zero gives none |
| DirectoryTree.NameLeTotal | directory.py:13 | any two names are ordered one way or the other |
| DirectoryTree.Insert | directory.py:13 | inserting into a sorted list gives a sorted list with one more entry |
| DirectoryTree.SortByName | directory.py:12-13 | `items.sort()`: sorted by name and a permutation of the entries |
| DirectoryTree.SortedFromChildren | directory.py:12-13 | sorting keeps the number of entries, and each sorted entry is one of the directory's |
| DirectoryTree.Console.Print | directory.py:31 | `print` appends exactly one line |
| DirectoryTree.PrintDirectoryStructure | directory.py:3-34 | a root that is not a directory raises ValueError naming it and prints nothing; otherwise exactly the listing of the root is printed |
| DirectoryTree.PrintEntries | directory.py:15-34 | the `enumerate` loop prints exactly the entries' lines, in sorted order |
| DirectoryTree.EntriesStep | directory.py:15-34 | the lines from entry `index` on are that entry's lines followed by the rest |
| DirectoryTree.PrintEntry | directory.py:16-34 | one entry prints nothing when ignored, otherwise its line with the connector and then, for a directory, its own listing under the grown prefix |
| DirectoryTree.ListingPrefix | directory.py:24-34 | every line of a listing starts with the prefix it was called with |
| DirectoryTree.EntriesPrefix | directory.py:15-34 | every line printed for a run of entries starts with the prefix |
| DirectoryTree.OwnLinesPrefix | directory.py:24-34 | every line one entry prints, its own entries' lines included, starts with the prefix |
| DirectoryTree.ConnectorsDiffer | directory.py:24-31 | a line starts with `prefix + "└──"` exactly when it is the last entry's own line |
| DirectoryTree.EntriesLastOnly | directory.py:22-31 | within a run of entries, a line with `└──` at the prefix is the last entry's own line |
| DirectoryTree.EntriesLastShown | directory.py:22-31 | when the last entry of a run is not ignored, its line with `└──` is printed |
| DirectoryTree.LastItemOnly | directory.py:22-31 | a line of a listing with `└──` at its prefix is the line of the last entry in name order; when that entry is ignored no entry gets `└──` |
| DirectoryTree.LastItemShown | directory.py:22-31 | when the last entry in name order is not ignored, its line with `└──` is printed |
| DirectoryTree.ShownAllIsSum | directory.py:15-20 | the number of shown entries of a run is the sum over the run |
| DirectoryTree.ListingCount | directory.py:12-34 | a listing has one line per entry that is neither ignored nor inside an ignored directory, whatever the order of the entries |
| DirectoryTree.EntriesCount | directory.py:15-34 | a run of entries prints one line per shown entry below it |

## Left out

- The `main` functions, the module-level example call in directory.py and
  the video loop of app.py are not modelled. They read and write files,
  drive the models and draw with OpenCV and matplotlib.
- map_score.py and val_split.py are not part of this model.
- File access is abstracted:
  - `open`/`readlines` become a string and `ReadLines`;
  - writing becomes the returned text;
  - `os.listdir` becomes a sequence of files or a `Node`'s children in
    the order given;
  - `os.path.isdir` becomes the `Dir` constructor;
  - `print` becomes a `Console` object.
- Unreadable files, permission errors, symbolic links and `os.path.join`
  paths are not modelled.
- Text mode's universal newlines are not modelled: a `\r\n` or a lone
  `\r` also ends a line when Python reads the file, and here only `\n`
  does.
- `np.random.randint` draws come from an oracle function. Any sequence
  of results numpy may return is some oracle, so the contracts hold for
  every run.
- Images are arrays of exact integer pixels, and the blend is computed in
  exact rationals. OpenCV's floating-point arithmetic is not modelled, so
  a blend that lands within rounding error of a half can differ from
  OpenCV's. The `print` of a patch that could not be placed is modelled
  as the `Skipped` outcome, without its message.
- CutPaste.CutPasteAugmentation: `bboxes1` is a value and `bboxes2` a
  separate `BoxList`. A caller passing the same list as both would make
  Python's loop also visit the boxes it appends; that aliasing is not
  modelled.
- CutPaste.CutPasteAugmentation: `alpha` is a parameter of every
  call; its default of 0.5 (line 62) is not a separate constant.
- CutPaste.CutPasteAugmentation: requires every source box to lie inside
  `image1` with positive size. numpy slicing with negative or
  out-of-range indices, which silently yields a smaller patch, is not
  modelled. `yolo_to_bbox` can give a box of zero width
  (`YoloFormat.NarrowBoxCollapses`); what Python does with such an
  empty patch is not modelled.
- YoloFormat.YoloToBox: the contract states only the class. Its corner
  properties are the lemmas `YoloCornersOrdered`, `BoxYoloRoundTrip`
  and `NarrowBoxCollapses`. `map(float, ...)` parsing of the five
  fields is not modelled, and the model takes the five numbers.
- Floats are modelled as exact reals throughout `YoloFormat`.
- YoloFormat.BoxYoloRoundTrip: holds over exact reals only. In IEEE
  doubles, the box `x1 = 0, x2 = 1` on an image 49 pixels wide gives a
  width of `1/49*49 == 0.9999999999999999` and a centre just under 0.5,
  so both corners truncate back to 0. Through the `:.6f` text,
  `x1 = 1, x2 = 2` on an image 1920 pixels wide is saved as `0.000781`
  and `0.000521`, which read back to `x1 = int(0.99936) = 0`.
- YoloFormat.BoxToYolo: requires a positive image width and height.
  Python raises ZeroDivisionError for a zero one; an image that
  `cv2.imread` returns is never empty, so that error is not modelled.
- YoloFormat.BoxToYolo: returns the five values before `str()` and the
  `:.6f` formatting. The text with six decimals, and the precision it
  loses, is not modelled.
- CountPlot.ParseShowInt: holds for every integer, but Python 3.11 and
  later raise ValueError when `int()` reads a string of more than 4300
  digits. That limit is not modelled.
- CountPlot.ParseInt: accepts ASCII digits only. Python's `int()` also
  reads non-ASCII decimal digits, and those tokens read as not an
  integer here.
- ClassPlot.PlotSeries: models only the two lists the chart is drawn
  from. The figure, labels, save path and `plt.show()` are not modelled.
- DirectoryTree.PrintDirectoryStructure: the ValueError message text is
  reduced to the offending name.
