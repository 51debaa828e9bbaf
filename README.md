# Medical imaging viewers, an organ classifier, a player heatmap and a puzzle game

This project models the core logic of five small applications in Dafny and proves properties of it.

- **Volume viewer** (`Task1`). It assembles a volume from a folder of DICOM slices or from a NIfTI file. Each DICOM slice is stretched to 8 bits on its own minimum and maximum. The viewer cuts the axial, sagittal and coronal planes at three indices. A click on a plane moves the other two indices and sets that plane's crosshair. A cursor/zoom mode state machine decides what a mouse press does.
- **DICOM viewer** (`Task4`). It loads a dataset and keeps the frames of a multi-frame file. It shows a still image, or plays the frames one timer tick at a time. It lays out a grid of 120-pixel tiles, five per row. It lists, searches and filters the data elements, and rewrites the five identifying fields when anonymising.
- **Organ classifier** (`Task2/ImageClassifier`). It picks the first maximum of four scores and the organ that index names. The pan offsets are clamped to the image's overhang on the canvas. A drag adds the pointer's movement to the pan. Loading an image resets the view and appends one entry to the history. The history tab numbers the entries from 1.
- **Player heatmap** (`Task2/YOLO`). A player's tracked pixel positions are binned into a count grid the size of the field image. The prompt lists the player IDs in ascending order. A small state machine handles opening, pausing and stopping the video capture.
- **Puzzle game** (`Task3`). Snapped pieces are counted, and the snap that reaches the total completes the puzzle once per reset. Completion stops the game timer and shows the time taken. The timer accumulates frame times until the game is over and formats them as `mm:ss`.

Modules and where they come from:

- **Python and C# conventions the applications rely on:**
  - `PyNum`: `int()` truncation, Python indexing and `//`.
  - `PyStr`: `lower`, `strip`, `in` and `basename`.
  - `Sorting`: `sorted` on strings and integers.
  - `Wrappers`: `Option` and `Result`.
- **Arrays:**
  - `NdArrays`: n-dimensional arrays with a shape and row-major data, indexing and `squeeze`.
  - `Planes`: 2-D and 3-D arrays as nested sequences, plane extraction, flips and transposes.
- **Volume viewer:**
  - `Intensity`: the min–max stretch.
  - `VolumeViewer`: the loader, the class `MedicalImageViewer` and the slider behaviour.
- **DICOM viewer:**
  - `DicomData`: data elements, tags and their text, assignment and anonymisation.
  - `DicomTables`: the tag, search and patient tables.
  - `DicomDisplay`: picture and frame normalisation, the tile slice choice and the tile loop.
  - `Tiles`: the tile grid.
  - `DicomViewerApp`: the class `DicomViewer`.
- **The other applications:**
  - `OrganClassifier`: the classifier.
  - `Heatmap`: the heatmap.
  - `GameTimer`: the clock.
  - `Puzzle`: the completion tracker.

Library calls are replaced by parameters that carry their results:

- the DICOM and NIfTI decoders;
- the network's scores;
- whether an image or video opens;
- the progress dialog's answers;
- the size of the background image;
- the frame time.

Two behaviours of the volume viewer are easy to assume and do not hold:

- Loading a volume does NOT clear the three crosshairs.
- A click is NOT clamped to the volume's bounds before it becomes an index. Only the slider's own clamping feeds back, through `valueChanged`.

Where the volume viewer's code departs from what it evidently intends (see "## Findings"), the loader and the class `MedicalImageViewer` use the intended behaviour, and "## Left out" names each member that does.

## Model

| member | source | states |
|---|---|---|
| PyNum.TruncToInt | Task1/src/Task1.py:484-485 | `int()` of a float: the whole number next to it toward zero, bracketing it within 1 on each sign |
| PyNum.TruncTowardZero | Task1/src/Task1.py:484-485 | truncation never moves away from zero and is exact on whole numbers |
| PyNum.PyIndex | Task1/src/Task1.py:340-342 | a Python index is valid exactly for `-n <= i < n`; a negative one counts from the end |
| PyNum.Midpoint | Task1/src/Task1.py:540-542 | `n // 2` lies inside a non-empty axis and halves its length |
| PyStr.LowerChar | Task4/Task4.py:455 | only upper-case ASCII letters change, by 32, and the result is never upper case |
| PyStr.Lower | Task4/Task4.py:455 | lower-casing keeps the length and lowers each character |
| PyStr.LowerIdempotent | Task4/Task4.py:460 | lower-casing twice is lower-casing once |
| PyStr.StripLeft | Task4/Task4.py:455 | the result is a suffix, only white space is removed, and it starts with a non-space |
| PyStr.StripRight | Task4/Task4.py:455 | the result is a prefix, only white space is removed, and it ends with a non-space |
| PyStr.Strip | Task4/Task4.py:455 | the result is the slice of the input left once all white space at both ends is removed: what is removed is white space, the result neither starts nor ends with white space, and it is empty only for all-space input |
| PyStr.ContainsEmpty | Task4/Task4.py:460 | the empty term is inside every name |
| PyStr.BaseName | Task2/ImageClassifier/ImageClassifier.py:323 | the base name is the suffix after the last `/` |
| Sorting.InsertPermutes | Task1/src/Task1.py:229 | insertion adds exactly one element |
| Sorting.InsertSorted | Task1/src/Task1.py:229 | insertion keeps a sorted list sorted |
| Sorting.SortCorrect | Task1/src/Task1.py:229 | sorting orders the list and is a permutation of it |
| Sorting.LexLeTotal | Task1/src/Task1.py:229 | any two strings compare |
| Sorting.LexLeTransitive | Task1/src/Task1.py:229 | string order is transitive |
| Sorting.LexLeAntisymmetric | Task1/src/Task1.py:229 | strings ordered both ways are equal |
| Sorting.LexLeIsTotalPreorder | Task1/src/Task1.py:229 | Python's string order is a total preorder |
| Sorting.SortStrings | Task1/src/Task1.py:229 | `sort()` on file names gives code-point order, with the same names |
| Sorting.SortInts | Task2/YOLO/UI_Code.py:144 | `sorted` on IDs gives ascending order, with the same IDs |
| Intensity.MinOf | Task1/src/Task1.py:207 | `np.min` is an element, and no element is smaller |
| Intensity.MaxOf | Task1/src/Task1.py:208 | `np.max` is an element, and no element is larger |
| Intensity.Stretch | Task1/src/Task1.py:209-211 | the stretch is the byte `r` with `r*(max-min) <= 255*(p-min) < (r+1)*(max-min)`; min gives 0 and max gives 255 |
| Intensity.StretchMonotone | Task1/src/Task1.py:209-211 | a brighter sample never stretches darker |
| Intensity.StretchOfIntegers | Task1/src/Task1.py:209-211 | on whole numbers the stretch is `(p-min)*255 // (max-min)` |
| Intensity.Sample | Task1/src/Task1.py:209-211 | one output sample is a byte |
| Intensity.Normalise | Task1/src/Task1.py:207-211 | every output is a byte; a constant array gives zeros; otherwise every minimum gives 0 and every maximum 255 |
| Intensity.NormalisePreservesOrder | Task1/src/Task1.py:207-211 | normalisation keeps the order of samples |
| Intensity.NormaliseConstant | Task1/src/Task1.py:210-211 | a constant array normalises to zeros whatever its value |
| Intensity.Cells | Task1/src/Task1.py:207-208 | flattening a non-empty grid is non-empty |
| Intensity.CellInCells | Task1/src/Task1.py:207-208 | every sample of the grid is in its flattening |
| Intensity.CellsBound | Task1/src/Task1.py:207-208 | every sample lies between the grid's minimum and maximum |
| Intensity.NormaliseGrid | Task1/src/Task1.py:207-211 | a slice keeps its shape and becomes bytes; a constant slice gives zeros; otherwise min gives 0 and max 255 |
| Intensity.RescaleGrid | Task1/src/Task1.py:203-204 | each sample is rescaled only when both attributes exist; the shape is kept |
| Intensity.StretchWrapped | Task1/src/Task1.py:209 | the stretch as written, with `(p-min)*255` wrapping in the array's integer width, still gives a byte |
| Intensity.StretchWrappedLosesMaximum | Task1/src/Task1.py:209 | a 2-valued 8-bit slice maps its maximum to 127 instead of 255 |
| Intensity.StretchWrappedAgreesOnNarrowRange | Task1/src/Task1.py:209 | below the wrap-around point the code as written gives the intended stretch |
| Planes.Reverse | Task1/src/Task1.py:298 | reversal reads the sequence back to front |
| Planes.ReverseInvolution | Task1/src/Task1.py:298 | reversing twice gives the sequence back |
| Planes.FlipRows | Task1/src/Task1.py:299 | `np.flip(axis=0)` reverses the rows and keeps the shape |
| Planes.FlipCols | Task1/src/Task1.py:298 | `np.flip(axis=1)` reverses every row |
| Planes.Rot180At | Task1/src/Task1.py:298 | `rot90(k=2)` sends sample `(i, j)` to `(rows-1-i, cols-1-j)` and keeps the shape |
| Planes.FlipRowsInvolution | Task1/src/Task1.py:299 | flipping the rows twice gives the grid back |
| Planes.Rot180Involution | Task1/src/Task1.py:298 | turning twice by 180 degrees gives the grid back |
| Planes.AxialSlab | Task1/src/Task1.py:297 | `V[a, :, :]` is slice `a`, with shape `(D1, D2)` |
| Planes.SagittalSlab | Task1/src/Task1.py:298 | `V[:, s, :]` has shape `(D0, D2)` and sample `(i, k)` is `V[i][s][k]` |
| Planes.CoronalSlab | Task1/src/Task1.py:299 | `V[:, :, c]` has shape `(D0, D1)` and sample `(i, j)` is `V[i][j][c]` |
| Planes.SagittalView | Task1/src/Task1.py:298 | the sagittal view's sample `(i, j)` is `V[D0-1-i][s][D2-1-j]` |
| Planes.CoronalView | Task1/src/Task1.py:299 | the coronal view's sample `(i, j)` is `V[D0-1-i][j][c]` |
| Planes.ViewsUndo | Task1/src/Task1.py:297-299 | undoing either reorientation gives the slab as cut from the volume |
| Planes.Views | Task1/src/Task1.py:340-342 | the three views exist exactly when all three indices are valid Python indices, and are the axial slab and the two reoriented slabs |
| Planes.Transpose201 | Task1/src/Task1.py:537 | `np.transpose(raw, (2, 0, 1))` has shape `(Z, X, Y)` and `vol[i][j][k] == raw[j][k][i]` |
| Planes.Transpose120 | Task1/src/Task1.py:537 | the inverse permutation: shape `(X, Y, Z)` and `r[j][k][i] == vol[i][j][k]` |
| Planes.TransposeRoundTrip | Task1/src/Task1.py:537 | the NIfTI permutation loses nothing |
| Planes.NiftiAxialIsLastAxis | Task1/src/Task1.py:537-540 | axial slice `a` of the NIfTI volume is the plane `raw[:, :, a]` |
| VolumeViewer.Clamp | Task1/src/Task1.py:495-496 | a value is kept inside the range and clamped to the nearer end outside it |
| VolumeViewer.SetValue | Task1/src/Task1.py:495-496 | `setValue` keeps the range and keeps a value inside it |
| VolumeViewer.SetRange | Task1/src/Task1.py:275-277 | `setRange` raises a maximum below the minimum to it and keeps a value inside the range |
| VolumeViewer.SettleInRange | Task1/src/Task1.py:367-377 | a value inside the slider's range reaches the index as it is |
| VolumeViewer.SettlePastEnd | Task1/src/Task1.py:367-377 | a value past the end gives the maximum when the slider moves, or the raw value when it does not |
| VolumeViewer.LoadedSliderAsWritten | Task1/src/Task1.py:270-281 | the load as written (indices, then `setRange`, then `setValue`, with `valueChanged` feeding back) leaves a valid slider |
| VolumeViewer.LoadedSliderAsWrittenInRange | Task1/src/Task1.py:270-281 | as written, a load reaches the midpoint when the old position lies inside the new axis |
| VolumeViewer.LoadedSliderAsWrittenMissesMidpoint | Task1/src/Task1.py:270-281 | as written, loading a 10-slice axis after a 100-slice one at 50 leaves index 9, not 5 |
| VolumeViewer.LoadedSlider | Task1/src/Task1.py:270-281 | the intended load: index and slider at `d // 2`, range `[0, d-1]` |
| VolumeViewer.DicomExtensions | Task1/src/Task1.py:222-223 | `.dcm` and `.DCM` are accepted; `.Dcm` and `.dcm.bak` are not |
| VolumeViewer.DicomNames | Task1/src/Task1.py:222-223 | each DICOM name is kept as often as it is listed, and nothing else is kept |
| VolumeViewer.JoinAll | Task1/src/Task1.py:222-223 | each kept name is joined to the folder |
| VolumeViewer.DicomFiles | Task1/src/Task1.py:222-229 | the visited paths are sorted and are exactly the joined DICOM names |
| VolumeViewer.LoadSlice | Task1/src/Task1.py:196-216 | a slice loads exactly when it decodes with samples, keeping its shape, with 8-bit values only |
| VolumeViewer.SliceLoader | Task1/src/Task1.py:196-216 | the loader applies `load_dicom_slice` to what the decoder yields for each path |
| VolumeViewer.CountReadable | Task1/src/Task1.py:234-244 | the first pass polls at most once per file |
| VolumeViewer.LoadedSlices | Task1/src/Task1.py:246-259 | at most one slice per file |
| VolumeViewer.CancelledSplit | Task1/src/Task1.py:242-243 | a cancellation across both passes happened in the first or in the second |
| VolumeViewer.CountReadablePrefix | Task1/src/Task1.py:234-244 | a prefix of the files polls no more often |
| VolumeViewer.LoadedSlicesPrefix | Task1/src/Task1.py:246-259 | a prefix of the files loads no more slices |
| VolumeViewer.NotCancelledExtends | Task1/src/Task1.py:255-256 | a poll that does not cancel extends the run of polls that did not |
| VolumeViewer.AsReal | Task1/src/Task1.py:268 | stacking keeps each sample's value |
| VolumeViewer.Stack | Task1/src/Task1.py:268 | `np.array(slices)` of equal-shape slices has slice `i` equal to the `i`-th slice |
| VolumeViewer.LoadedVolumeIsEightBit | Task1/src/Task1.py:264-268 | a loaded volume has the announced shape, at least one slice, and samples in `[0, 255]` |
| VolumeViewer.LoadedSlicesEightBit | Task1/src/Task1.py:246-259 | every loaded slice has 8-bit samples |
| VolumeViewer.SliceLoaderEightBit | Task1/src/Task1.py:207-211 | `load_dicom_slice` yields 8-bit slices only |
| VolumeViewer.AllLoadInOrder | Task1/src/Task1.py:246-259 | when every file loads, slice `i` comes from the `i`-th sorted file |
| VolumeViewer.NoDicomNamesNoLoad | Task1/src/Task1.py:225-226 | a folder with no DICOM names gives the "no DICOM files" error whatever it holds |
| VolumeViewer.NeverCancelled | Task1/src/Task1.py:242-243 | when no poll of the dialog answers "cancelled", no number of polls stops the load |
| VolumeViewer.FirstPass | Task1/src/Task1.py:234-244 | the first pass stops exactly when one of its polls reports a cancellation |
| VolumeViewer.SecondPass | Task1/src/Task1.py:246-259 | the second pass stops exactly when a poll during it cancels; otherwise it yields the loaded slices in order |
| VolumeViewer.ReadFolder | Task1/src/Task1.py:218-268 | the load's outcome is the one the folder, the decoders and the answers determine |
| VolumeViewer.ReadFiles | Task1/src/Task1.py:229-268 | the two passes and the checks after them give the outcome for the sorted paths |
| VolumeViewer.MedicalImageViewer.CurrentViews | Task1/src/Task1.py:337-342 | views exist only when a volume and all three indices are set |
| VolumeViewer.MedicalImageViewer.constructor | Task1/src/Task1.py:10-187 | no volume, no indices or crosshairs, every slider at 0 of `[0, 0]`, cursor mode, no zoom flag |
| VolumeViewer.MedicalImageViewer.Install | Task1/src/Task1.py:268-281 | the volume and shape are set, each index and slider sits at the midpoint, and crosshairs and mode stay |
| VolumeViewer.MedicalImageViewer.LoadDicomFolder | Task1/src/Task1.py:218-288 | a successful load installs the volume with midpoint indices; cancellation and every error leave volume, indices and sliders as they were; crosshairs are never cleared |
| VolumeViewer.MedicalImageViewer.LoadNifti | Task1/src/Task1.py:534-550 | the volume becomes the transposed data of shape `(Z, X, Y)` with midpoint indices |
| VolumeViewer.MedicalImageViewer.MoveSlider | Task1/src/Task1.py:367-377 | a dragged slider sets its own axis's index to the value and nothing else |
| VolumeViewer.MedicalImageViewer.SetSlider | Task1/src/Task1.py:495-508 | `setValue` clamps only that slider, and its index follows only when the value changes |
| VolumeViewer.MedicalImageViewer.HandleCursorMotion | Task1/src/Task1.py:479-509 | `CursorMoved`: a click in the axes sets the two indices the plane shows to the truncated coordinates (as the sliders settle them) and only that plane's crosshair; outside the axes or without coordinates no index, slider or crosshair changes; the volume, mode and zoom state never change |
| VolumeViewer.MedicalImageViewer.SetZoomState | Task1/src/Task1.py:380-384 | exactly the three flags take the given values |
| VolumeViewer.MedicalImageViewer.ZoomIn | Task1/src/Task1.py:413-418 | only in zoom mode: flags become (on, in, not out) |
| VolumeViewer.MedicalImageViewer.ZoomOut | Task1/src/Task1.py:420-425 | only in zoom mode: flags become (on, not in, out) |
| VolumeViewer.MedicalImageViewer.ResetZoomMode | Task1/src/Task1.py:427-432 | the three flags are cleared |
| VolumeViewer.MedicalImageViewer.SetCursorMode | Task1/src/Task1.py:441-448 | cursor mode with every flag cleared |
| VolumeViewer.MedicalImageViewer.SetZoomMode | Task1/src/Task1.py:450-456 | zoom mode with the flags untouched, so none is set coming from cursor mode |
| VolumeViewer.MedicalImageViewer.ToggleMode | Task1/src/Task1.py:434-439 | the mode flips and every flag ends cleared |
| VolumeViewer.MedicalImageViewer.OnMousePress | Task1/src/Task1.py:511-518 | the left button marks the press, then zooms (by 2 in, 0.5 out) only in zoom mode with a direction set, or in cursor mode moves the indices, sliders and crosshairs exactly as `CursorMoved` states; other buttons change nothing |
| VolumeViewer.MedicalImageViewer.OnMouseRelease | Task1/src/Task1.py:519-522 | the left button clears the press and nothing else changes |
| VolumeViewer.MedicalImageViewer.OnMouseMotion | Task1/src/Task1.py:524-527 | motion is handled exactly while pressed in cursor mode, and then moves the indices, sliders and crosshairs exactly as `CursorMoved` states; otherwise nothing changes |
| VolumeViewer.PressZoomsOnlyInZoomMode | Task1/src/Task1.py:380-456 | a viewer whose mode flags agree (`ModeOk`, which every mode method keeps) has no zoom flag in cursor mode, and a set zoom flag means zoom mode with exactly one direction |
| NdArrays.At | Task4/Task4.py:217 | `a[i]` exists exactly for a valid index on the first axis and is that block of the data, with the remaining shape |
| NdArrays.DropOnes | Task4/Task4.py:382-383 | dropping the length-1 axes keeps the size and leaves none |
| NdArrays.Squeeze | Task4/Task4.py:382-383 | `np.squeeze` keeps the samples and removes every length-1 axis |
| NdArrays.DropOnesIdempotent | Task4/Task4.py:382-383 | squeezing twice is squeezing once |
| NdArrays.DropOnesNoOnes | Task4/Task4.py:382-383 | an array without length-1 axes is left as it is |
| NdArrays.SizeOfTwoAxes | Task4/Task4.py:258-265 | a 2-D array holds rows times columns samples |
| NdArrays.Chunks | Task4/Task4.py:258-265 | row `r` is the `r`-th run of `w` samples |
| NdArrays.Rows | Task4/Task4.py:258-265 | a 2-D array has `shape[0]` rows of `shape[1]` samples taken in row-major order |
| NdArrays.RowsAt | Task4/Task4.py:258-265 | sample `(r, c)` is data sample `r * width + c` |
| NdArrays.Frames | Task4/Task4.py:216-217 | the frame list exists exactly when `NumberOfFrames` fits the first axis, and frame `i` is `pixel_array[i]` |
| NdArrays.FramesShape | Task4/Task4.py:216-217 | every frame has the array's shape without its first axis |
| DicomData.Get | Task4/Task4.py:482-486 | a keyword is absent exactly when no element has its tag, and otherwise reads that element's value |
| DicomData.Put | Task4/Task4.py:604-609 | assignment changes or adds only elements with the assigned tag |
| DicomData.GetPut | Task4/Task4.py:604-609 | the assigned keyword reads back the assigned value |
| DicomData.GetPutOther | Task4/Task4.py:604-609 | every other keyword reads as before |
| DicomData.PutAscending | Task4/Task4.py:604-609 | assignment keeps the tags ascending |
| DicomData.Others | Task4/Task4.py:604-609 | the elements outside a tag set, in order |
| DicomData.PutOthersUnchanged | Task4/Task4.py:604-609 | assignment leaves every element outside the tag set as it was, in place |
| DicomData.AnonymisedFields | Task4/Task4.py:604-609 | name, ID, study ID and birth date carry the prefixed placeholders and sex is "O" |
| DicomData.AnonymisedKeepsOthers | Task4/Task4.py:604-609 | no other element changes, moves or disappears, and tag order is kept |
| DicomData.HexValue | Task4/Task4.py:450 | a hexadecimal digit has a value below 16 |
| DicomData.HexDigitValue | Task4/Task4.py:450 | an upper-case digit reads back its value |
| DicomData.Hex4 | Task4/Task4.py:450 | a 16-bit field is written with four digits |
| DicomData.ParseHex4 | Task4/Task4.py:450 | four digits read back a 16-bit value |
| DicomData.ParseHex4RoundTrip | Task4/Task4.py:450 | four-digit hexadecimal reads back what was written |
| DicomData.TagText | Task4/Task4.py:450 | `str(tag)` is twelve characters |
| DicomData.TagTextRoundTrip | Task4/Task4.py:450 | the tag text reads back its tag |
| DicomData.TagTextInjective | Task4/Task4.py:450 | distinct tags have distinct texts |
| DicomTables.Kept | Task4/Task4.py:443-452 | a filter yields at most one row per element, and none exactly when no element passes |
| DicomTables.KeptSound | Task4/Task4.py:443-452 | every kept row comes from an element that passes |
| DicomTables.KeptComplete | Task4/Task4.py:443-452 | every element that passes has its row kept |
| DicomTables.KeptMembers | Task4/Task4.py:443-452 | a row is kept exactly when it comes from an element that passes |
| DicomTables.TagRowsMembers | Task4/Task4.py:439-452 | the tag table holds exactly the rows of the elements other than the pixel data |
| DicomTables.MatchRowsMembers | Task4/Task4.py:459-467 | a row matches exactly when its element's lower-cased name contains the term |
| DicomTables.SearchRows | Task4/Task4.py:454-475 | the search shows the matching rows, or exactly one N/A row when none matches |
| DicomTables.BlankSearchListsAll | Task4/Task4.py:455-467 | a blank search lists every element, the pixel data included |
| DicomTables.PatientRows | Task4/Task4.py:478-499 | four rows, each N/A exactly when its field is missing or itself reads N/A |
| DicomTables.PatientRowsAfterAnonymisation | Task4/Task4.py:604-609 | after anonymisation the patient table shows the placeholders |
| DicomDisplay.Rescaled | Task4/Task4.py:253-256 | the rescale applies to each sample only when both attributes are present |
| DicomDisplay.StillImage | Task4/Task4.py:250-281 | a non-empty 2-D array shows as bytes of its shape, min to 0 and max to 255 (zeros if constant); any other array shows nothing |
| DicomDisplay.StillImageMonotone | Task4/Task4.py:259-264 | without rescale, a brighter sample never shows darker |
| DicomDisplay.SizeOfThreeAxes | Task4/Task4.py:301-305 | a 3-D array holds the product of its axes |
| DicomDisplay.Grey | Task4/Task4.py:301-305 | a colour frame becomes one grey sample per pixel, from its three channels |
| DicomDisplay.Stretched | Task4/Task4.py:312-315 | an empty frame is an error; otherwise bytes of its shape, zeros if `ptp == 0`, else `floor(255*(f-min)/ptp)` |
| DicomDisplay.ShowFrame | Task4/Task4.py:294-315 | scalar frames are rejected, shapes other than 2-D and RGB are reported with their shape, RGB is greyed first; a shown picture is 8-bit |
| DicomDisplay.TileSlices | Task4/Task4.py:353-366 | multi-frame files with more than one frame use their frames (or fail indexing), ahead of any shape test; otherwise a 3-D array gives its `shape[0]` slices and a 2-D array itself; missing pixel data and other shapes are reported |
| DicomDisplay.TileSource | Task4/Task4.py:382-383 | a tile's source keeps the slice's samples |
| DicomDisplay.TilePicture | Task4/Task4.py:388 | a tile is the byte stretch of its slice, and is undefined exactly for a constant slice |
| DicomDisplay.TileRun | Task4/Task4.py:381-405 | tiles come in slice order, each at its own slice's position, at most one per slice |
| DicomDisplay.TileRunLayout | Task4/Task4.py:378-408 | no two tiles overlap and each lies inside the scene rectangle |
| DicomDisplay.TileRunAbortSticks | Task4/Task4.py:381-388 | after the loop stops on an exception, later slices change nothing |
| Tiles.GridRows | Task4/Task4.py:378-379 | the rows are `ceil(n / 5)`: enough for every tile and no more |
| Tiles.TilePosition | Task4/Task4.py:398-400 | tile `i` sits at `(col*120, row*120)` with `(row, col) = divmod(i, 5)` |
| Tiles.TilePositionInjective | Task4/Task4.py:398-400 | distinct tiles have distinct origins |
| Tiles.TileInScene | Task4/Task4.py:398-408 | every tile of `n` lies with its padding inside the scene rectangle |
| Tiles.TilesApart | Task4/Task4.py:398-400 | two tiles' origins are a whole pitch apart along some axis |
| DicomViewerApp.LayTiles | Task4/Task4.py:381-405 | the tile loop yields exactly the tile run of the slices |
| DicomViewerApp.DicomViewer.constructor | Task4/Task4.py:16-26 | nothing loaded, index 0, timer stopped, empty log |
| DicomViewerApp.DicomViewer.LoadDicomFile | Task4/Task4.py:201-223 | a chosen file is kept and the action buttons are enabled; a multi-frame file keeps its first `NumberOfFrames` frames in order, and a count of zero or less gives no frames without reading the pixel data; no choice changes only the log |
| DicomViewerApp.DicomViewer.DisplayImage | Task4/Task4.py:225-247 | no pixel data is reported; a multi-frame file restarts playback at index 0 with stop enabled; otherwise the still image is shown |
| DicomViewerApp.DicomViewer.PlayTick | Task4/Task4.py:285-334 | past the last frame the timer stops and the index stays; otherwise the index grows by exactly 1 whatever happens to the frame |
| DicomViewerApp.DicomViewer.PlayToEnd | Task4/Task4.py:285-334 | a running playback ends stopped with the index at the frame count |
| DicomViewerApp.DicomViewer.StopVideo | Task4/Task4.py:340-346 | the timer stops and the stop button is disabled |
| DicomViewerApp.DicomViewer.Display3DTiles | Task4/Task4.py:348-414 | no dataset, or an empty one, reports and changes no tiles; otherwise the tiles shown are the run of the chosen slices |
| DicomViewerApp.DicomViewer.DisplayDicomTags | Task4/Task4.py:439-452 | the table is the tag rows of the dataset |
| DicomViewerApp.DicomViewer.SearchDicomTag | Task4/Task4.py:454-475 | the table is the search result for the text; with nothing loaded the table is cleared and the search raises |
| DicomViewerApp.DicomViewer.DisplayPatientInfo | Task4/Task4.py:478-499 | the table is the four patient rows |
| DicomViewerApp.DicomViewer.AnonymizeDicom | Task4/Task4.py:600-617 | only with confirmation and a non-empty prefix are the five fields rewritten, and the rewrite stays when saving is cancelled |
| OrganClassifier.Organ | Task2/ImageClassifier/ImageClassifier.py:159 | exactly the keys 0 to 3 name an organ |
| OrganClassifier.ArgMax | Task2/ImageClassifier/ImageClassifier.py:155-165 | the chosen index holds a maximum and no earlier score equals it |
| OrganClassifier.FirstMaxUnique | Task2/ImageClassifier/ImageClassifier.py:155-165 | the first maximum is unique |
| OrganClassifier.IndexOf | Task2/ImageClassifier/ImageClassifier.py:165 | `list.index` is the first position holding the value |
| OrganClassifier.PredictImage | Task2/ImageClassifier/ImageClassifier.py:142-167 | no model gives ("Error", 0); otherwise the organ of the first maximum with confidence `max*100`, and an error for no scores or an index past the organs |
| OrganClassifier.MaxPan | Task2/ImageClassifier/ImageClassifier.py:229-232 | the overhang is `max((img-canvas)//2, 0)` |
| OrganClassifier.ClampPan | Task2/ImageClassifier/ImageClassifier.py:233-236 | the pan ends inside `[-m, m]`: kept if inside, else the nearer end |
| OrganClassifier.ClampPanIdempotent | Task2/ImageClassifier/ImageClassifier.py:233-236 | clamping twice is clamping once |
| OrganClassifier.ClampPanFits | Task2/ImageClassifier/ImageClassifier.py:229-236 | an image no larger than the canvas cannot be panned |
| OrganClassifier.HistoryTab | Task2/ImageClassifier/ImageClassifier.py:309-328 | no history shows the placeholder; otherwise one card per entry, numbered from 1 in insertion order, showing its file name without the directory |
| OrganClassifier.HistoryTabAppend | Task2/ImageClassifier/ImageClassifier.py:319-323 | an appended entry keeps every earlier card and adds one numbered after them |
| OrganClassifier.ImagePredictionApp.constructor | Task2/ImageClassifier/ImageClassifier.py:9-25 | empty history, zoom 1, no pan, nothing shown; the contrast and brightness scales, built by `setup_notebook`, start at their lower end 0.5 |
| OrganClassifier.ImagePredictionApp.DisplayImageOnCanvas | Task2/ImageClassifier/ImageClassifier.py:208-242 | with an image shown each pan offset is clamped to its overhang; before that nothing changes |
| OrganClassifier.ImagePredictionApp.StartDrag | Task2/ImageClassifier/ImageClassifier.py:291-294 | the press point is recorded |
| OrganClassifier.ImagePredictionApp.DragImage | Task2/ImageClassifier/ImageClassifier.py:296-307 | the movement since the last point is added to the pan, which is then clamped, and the point is remembered |
| OrganClassifier.ImagePredictionApp.LoadImage | Task2/ImageClassifier/ImageClassifier.py:170-206 | an empty path changes nothing; a failure to open changes only the dialogs, leaving the view, contrast and brightness as they were; otherwise the view resets and exactly one entry is appended for a successful prediction |
| Heatmap.Ids | Task2/YOLO/UI_Code.py:144 | the dictionary's keys in insertion order |
| Heatmap.Lookup | Task2/YOLO/UI_Code.py:91-93 | a player is missing exactly when no track has its ID; else its positions are found |
| Heatmap.LookupUnique | Task2/YOLO/UI_Code.py:91-93 | with distinct IDs, as in a dictionary, looking up a track's ID gives exactly that track's positions |
| Heatmap.AvailableIds | Task2/YOLO/UI_Code.py:144-145 | the listed IDs are ascending and are exactly the dictionary's keys |
| Heatmap.AvailableIdsMembers | Task2/YOLO/UI_Code.py:144-145 | an ID is offered exactly when the tracking data has it |
| Heatmap.HitsMultiset | Task2/YOLO/UI_Code.py:107-114 | a cell's count is how often its position occurs |
| Heatmap.HitsSnoc | Task2/YOLO/UI_Code.py:107-114 | one more position raises only its own cell's count |
| Heatmap.RowSumEmpty | Task2/YOLO/UI_Code.py:103 | a grid of no positions is zero in every row |
| Heatmap.GridSumEmpty | Task2/YOLO/UI_Code.py:103 | the grid starts with total zero |
| Heatmap.RowSumSnoc | Task2/YOLO/UI_Code.py:107-114 | one position adds one to a row exactly when it falls in that row |
| Heatmap.GridSumSnoc | Task2/YOLO/UI_Code.py:107-114 | one position adds one to the grid exactly when it is in bounds |
| Heatmap.GridTotal | Task2/YOLO/UI_Code.py:107-114 | the grid's total is the number of in-bounds positions |
| Heatmap.Bin | Task2/YOLO/UI_Code.py:103-114 | an `h x w` grid in which cell `[y, x]` counts the positions equal to `(x, y)` |
| Heatmap.HeatmapViewer.constructor | Task2/YOLO/UI_Code.py:46-48 | the loaded tracks, free of repeated IDs as dictionary keys, no capture, not playing, nothing drawn |
| Heatmap.HeatmapViewer.GenerateHeatmap | Task2/YOLO/UI_Code.py:90-114 | an unknown player or a missing background is reported and changes no heatmap; otherwise the heatmap is the player's count grid at the background's size |
| Heatmap.HeatmapViewer.PromptPlayerId | Task2/YOLO/UI_Code.py:141-150 | the sorted IDs are listed; a cancelled dialog draws nothing; an entered ID has exactly `generate_heatmap`'s outcomes: a warning for an unknown ID, an error without a background, otherwise the heatmap of that player's positions |
| Heatmap.HeatmapViewer.PlayVideo | Task2/YOLO/UI_Code.py:152-178 | a capture is made only when there is none; an unopened one is reported, otherwise playback starts and the first frame is read at once, a failed read releasing the capture |
| Heatmap.HeatmapViewer.FrameTick | Task2/YOLO/UI_Code.py:162-178 | at the end of the video the capture is released while the playing flag stays set |
| Heatmap.HeatmapViewer.PauseVideo | Task2/YOLO/UI_Code.py:180-181 | only the playing flag is cleared |
| Heatmap.HeatmapViewer.StopVideo | Task2/YOLO/UI_Code.py:183-189 | the capture is released and playback stops |
| GameTimer.Minutes | Task3/Assets/Scripts/GameSceneScripts/Timer.cs:22 | the minutes field `m` satisfies `60m <= t < 60m + 60` |
| GameTimer.Seconds | Task3/Assets/Scripts/GameSceneScripts/Timer.cs:23 | the seconds field is below 60 |
| GameTimer.ClockFields | Task3/Assets/Scripts/GameSceneScripts/Timer.cs:22-23 | `minutes * 60 + seconds == floor(t)` |
| GameTimer.ClockFieldsOfFloor | Task3/Assets/Scripts/GameSceneScripts/Timer.cs:22-23 | the fields agree exactly when the whole seconds do |
| GameTimer.DivModUnique | Task3/Assets/Scripts/GameSceneScripts/Timer.cs:22-23 | whole seconds split into minutes and seconds in one way only |
| GameTimer.DigitChar | Task3/Assets/Scripts/GameSceneScripts/Timer.cs:24 | a digit below 10 is a decimal digit character |
| GameTimer.DigitValue | Task3/Assets/Scripts/GameSceneScripts/Timer.cs:24 | a digit character has a value below 10 |
| GameTimer.Digits | Task3/Assets/Scripts/GameSceneScripts/Timer.cs:24 | decimal digits of a number: one for values below 10, two below 100 |
| GameTimer.DigitsRoundTrip | Task3/Assets/Scripts/GameSceneScripts/Timer.cs:24 | the digits read back the number |
| GameTimer.LeadingZero | Task3/Assets/Scripts/GameSceneScripts/Timer.cs:24 | a leading zero does not change the value |
| GameTimer.Pad2 | Task3/Assets/Scripts/GameSceneScripts/Timer.cs:24 | `{0:00}` gives at least two digits, exactly two below 100, reading back the number |
| GameTimer.ClockRoundTrip | Task3/Assets/Scripts/GameSceneScripts/Timer.cs:22-24 | the `mm:ss` text reads back exactly the minutes and seconds |
| GameTimer.ClockTextChanges | Task3/Assets/Scripts/GameSceneScripts/Timer.cs:22-24 | two times show the same text exactly when their whole seconds agree |
| GameTimer.Timer.constructor | Task3/Assets/Scripts/GameSceneScripts/Timer.cs:7-8 | no time elapsed, the game running |
| GameTimer.Timer.UpdateTimerUI | Task3/Assets/Scripts/GameSceneScripts/Timer.cs:19-25 | the label shows the clock text of the elapsed time |
| GameTimer.Timer.Update | Task3/Assets/Scripts/GameSceneScripts/Timer.cs:10-17 | time grows by the frame time and the label follows only while the game runs; after that nothing changes |
| GameTimer.Timer.StopTimer | Task3/Assets/Scripts/GameSceneScripts/Timer.cs:27-30 | the game is over |
| GameTimer.Timer.GetElapsedTime | Task3/Assets/Scripts/GameSceneScripts/Timer.cs:32-37 | the clock text of the elapsed time, the same the label shows once drawn, reading back the minutes and seconds |
| Puzzle.CompletionText | Task3/Assets/Scripts/GameSceneScripts/Winning.cs:85 | the message, then the time taken at the end |
| Puzzle.Registry.constructor | Task3/Assets/Scripts/GameSceneScripts/Winning.cs:7 | no instance yet |
| Puzzle.PuzzleCompletion.constructor | Task3/Assets/Scripts/GameSceneScripts/Winning.cs:26-28 | no pieces counted, not completed, nothing shown |
| Puzzle.PuzzleCompletion.Awake | Task3/Assets/Scripts/GameSceneScripts/Winning.cs:30-40 | the instance is set only when there was none; a later component is destroyed |
| Puzzle.PuzzleCompletion.Start | Task3/Assets/Scripts/GameSceneScripts/Winning.cs:42-53 | the total is the number of pieces, and panel and restart button are hidden |
| Puzzle.PuzzleCompletion.Complete | Task3/Assets/Scripts/GameSceneScripts/Winning.cs:70-103 | completion is set once, the timer stops with its time kept, the panel shows the time taken; a null timer with a panel raises and hides the restart button |
| Puzzle.PuzzleCompletion.PieceSnapped | Task3/Assets/Scripts/GameSceneScripts/Winning.cs:55-68 | the count grows by one; the snap reaching the total completes the puzzle at most once between resets; other snaps change nothing else |
| Puzzle.PuzzleCompletion.HideCompletionMessage | Task3/Assets/Scripts/GameSceneScripts/Winning.cs:105-109 | the panel is hidden when there is one |
| Puzzle.PuzzleCompletion.ResetPuzzle | Task3/Assets/Scripts/GameSceneScripts/Winning.cs:118-124 | the count and the completed flag start again and the total is kept |

## Left out

- Widget, layout, canvas and plotting code (Qt, Tk, Matplotlib, Unity UI) is not modelled. What a widget shows is a field of the class; message boxes are a log of notices.
- File dialogs, progress dialogs and input dialogs become parameters: the chosen path, the answers of the `wasCanceled()` polls, the entered ID.
- File reading and decoding become parameters: `pydicom.dcmread`, `nib.load`, `PIL.Image.open`, `model.predict`, `cv2.VideoCapture` and frame reads. Saving (`save_as`) is I/O and only logged.
- TensorFlow loading and preprocessing (`load_model`, `preprocess_image`) are not modelled; the scores are an input.
- Floating point: samples, rescale and stretch are exact reals. Float32 rounding of the rescale, of `adjust_brightness_contrast` (Task1/src/Task1.py:353-365) and of Unity's frame time is left out.
- `adjust_brightness_contrast`, the zoom limits (`update_canvas_limits`, `update_zoom`, `perform_zoom` geometry) and the classifier's `zoom_in`/`zoom_out` and `apply_adjustments` are float geometry and image enhancement. A zooming press only records its factor and centre.
- PyStr.LowerChar: lowers the ASCII letters A-Z only. Python's `str.lower` also lowers other letters, such as 'É' to 'é' and U+212A to 'k', because a Unicode case table is out of scope.
- PyStr.Lower: lowers ASCII letters only, as PyStr.LowerChar does. For U+0130 it also keeps the length, where Python produces two characters.
- PyStr.LowerIdempotent: is proved for the ASCII-only PyStr.Lower.
- DicomTables.SearchRows: builds the search term with the ASCII-only PyStr.Lower, so a name or term with upper-case letters outside ASCII can match differently from the program.
- VolumeViewer.LoadSlice: applies the intended stretch, Intensity.NormaliseGrid, to a slice without rescale attributes. The program wraps `* 255` in the array's unsigned type (see "## Findings"). Signed samples, which are negative before `astype(np.uint8)`, are not modelled.
- VolumeViewer.SliceLoader: applies VolumeViewer.LoadSlice, and so the intended stretch, to every path.
- VolumeViewer.ReadFolder: its outcome is built from the intended stretch of VolumeViewer.LoadSlice.
- VolumeViewer.ReadFiles: its outcome is built from the intended stretch of VolumeViewer.LoadSlice.
- VolumeViewer.MedicalImageViewer.Install: sets every index and slider to the midpoint, the intended load. The program instead leaves the index at `d - 1` when the old slider value is at least `d` (see "## Findings"). VolumeViewer.LoadedSliderAsWritten models that; VolumeViewer.LoadedSliderAsWrittenInRange shows the two agree when the old value lies inside the new axis.
- VolumeViewer.MedicalImageViewer.LoadDicomFolder: installs the intended load through VolumeViewer.MedicalImageViewer.Install: midpoint indices and slices from the intended stretch.
- VolumeViewer.MedicalImageViewer.LoadNifti: installs midpoint indices through VolumeViewer.MedicalImageViewer.Install, the intended load.
- DicomDisplay.Grey: the RGB-to-grey weights are a parameter, because they are float arithmetic.
- `eventFilter` (Task4/Task4.py:423-432) is event glue and refers to an undefined name.
- `display_pixel_data`, `display_study_info`, `display_modality_info`, `display_physician_info` and `display_image_info` are not part of this model; they are further fixed-field tables like the patient table.
- The dataset is a value: element iteration covers the top-level elements only (nested sequences are not entered), and aliasing between the viewer and the saved file is not modelled.
- Decoding errors of `pixel_array` other than a missing attribute are left out, and so are the QImage null-image branches, which a non-empty 2-D byte array never reaches.
- A constant tile slice divides zero by zero in NumPy; the model leaves that tile's picture undefined (`None`) while still placing it.
- The heatmap's homography, `perspectiveTransform` and `int()` are folded into the given pixel positions; the 1280x720 default size, `GaussianBlur`, `cv2.normalize` and drawing are left out. The stored heatmap is the count grid before smoothing.
- Heatmap.HeatmapViewer.FrameTick: requires a capture while playing, which `play_video` guarantees; the `root.after` scheduling of several frame chains is not modelled.
- The classifier's scale callbacks, thumbnail sizing and the `.2f` confidence text are left out.
- OrganClassifier.ImagePredictionApp.DragImage: requires a recorded press point, since the motion binding fires only after a press (without one Python raises `AttributeError`).
- VolumeViewer.MedicalImageViewer.MoveSlider: requires the value to lie in the slider's range, which is where a drag can put it.
- DicomViewerApp.DicomViewer.DisplayDicomTags, DicomViewerApp.DicomViewer.DisplayPatientInfo and DicomViewerApp.DicomViewer.AnonymizeDicom require a loaded file, because their buttons stay disabled until a load (Task4/Task4.py:90, 94, 118, 205-213).
- NumPy's stacking of slices of different shapes is modelled as NumPy 1.24 and later do it: an error that leaves the state unchanged.
- Unity: audio, `Debug.Log`, the delayed `Invoke`, the scene reload of `RestartGame` and the engine's `Destroy` are left out; the static `Instance` is a `Registry` object, and `FindObjectsOfType` is the piece count passed to `Start`.
- Puzzle.PuzzleCompletion.PieceSnapped: the 32-bit overflow of `snappedPieces` is not modelled, because it takes over two billion snaps.
- GameTimer.ClockText: defined for non-negative times only. The timer never holds a negative one, because it starts at 0 and `deltaTime` is never negative; GameTimer.Timer.Update requires that of its frame time.
- The other Task3 scripts (camera, drag and drop, rotation, randomisation, snapping) are not part of this model: they are vector geometry, physics and engine callbacks.

## Findings

| source | as written | input that shows it | evidently intended | confidence | as-written member | corrected member |
|---|---|---|---|---|---|---|
| Task1/src/Task1.py:209 | `(pixel_array - min) * 255` is computed in the array's own unsigned integer type, so it wraps before the division | an 8-bit slice holding 0 and 2: the 2 becomes `(2*255 mod 256) // 2 = 127` | the maximum sample maps to 255 | not executed | Intensity.StretchWrapped, Intensity.StretchWrappedLosesMaximum | Intensity.Stretch, Intensity.NormaliseGrid |
| Task1/src/Task1.py:270-281 | indices are set before `setRange`, and `setRange` clamps the old slider value and emits `valueChanged`, which overwrites the index | a 100-slice axis at 50, then a 10-slice volume: the index ends at 9 | every index at the midpoint `d // 2` after a load | not executed | VolumeViewer.LoadedSliderAsWritten, VolumeViewer.LoadedSliderAsWrittenMissesMidpoint | VolumeViewer.LoadedSlider |
