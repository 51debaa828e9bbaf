/**
 * The 3-D medical image viewer (`MedicalImageViewer` in Task1/src/Task1.py):
 * assembling a volume from a folder of DICOM slices or from a NIfTI file,
 * the three slice indices with their sliders, the crosshair click rule and the
 * cursor/zoom mode machine. Drawing, dialogs and the brightness/contrast
 * adjustment are outside the model; the decoders and the progress dialog's
 * "cancelled?" answers are parameters.
 */
module VolumeViewer {
  import opened Wrappers
  import opened PyNum
  import opened PyStr
  import opened Sorting
  import opened Intensity
  import opened Planes

  // ---- Sliders ----

  /** A `QSlider`: its range and its current value. */
  datatype Slider = Slider(minimum: int, maximum: int, value: int)

  predicate SliderOk(s: Slider) {
    s.minimum <= s.value <= s.maximum
  }

  function Clamp(v: int, lo: int, hi: int): (r: int)
    requires lo <= hi
    ensures lo <= r <= hi
    ensures lo <= v <= hi ==> r == v
    ensures v < lo ==> r == lo
    ensures v > hi ==> r == hi
  {
    if v < lo then lo else if v > hi then hi else v
  }

  /** `setValue(v)`: the value is clamped into the range. */
  function SetValue(s: Slider, v: int): (r: Slider)
    requires SliderOk(s)
    ensures SliderOk(r) && r.minimum == s.minimum && r.maximum == s.maximum
    ensures s.minimum <= v <= s.maximum ==> r.value == v
  {
    s.(value := Clamp(v, s.minimum, s.maximum))
  }

  /** `setRange(lo, hi)`: a maximum below the minimum is raised to it, and the value is clamped. */
  function SetRange(s: Slider, lo: int, hi: int): (r: Slider)
    ensures SliderOk(r) && r.minimum == lo && r.maximum == (if hi < lo then lo else hi)
    ensures lo <= s.value <= hi ==> r.value == s.value
  {
    var top := if hi < lo then lo else hi;
    Slider(lo, top, Clamp(s.value, lo, top))
  }

  /**
   * The index left behind when the code assigns `v` to an index and then calls
   * `setValue(v)` on its slider: the slider emits `valueChanged` only when its
   * value changes, and the connected `update_*_index` then overwrites the
   * index with the clamped value.
   */
  function Settle(s: Slider, v: int): (r: int)
    requires SliderOk(s)
  {
    var t := SetValue(s, v);
    if t.value != s.value then t.value else v
  }

  /** A value inside the slider's range is kept as it is. */
  lemma SettleInRange(s: Slider, v: int)
    requires SliderOk(s) && s.minimum <= v <= s.maximum
    ensures Settle(s, v) == v
  {
  }

  /**
   * A value past the end of the range is clamped only when the slider was not
   * already at that end; otherwise it stays, out of range, in the index.
   */
  lemma SettlePastEnd(s: Slider, v: int)
    requires SliderOk(s) && v > s.maximum
    ensures s.value != s.maximum ==> Settle(s, v) == s.maximum
    ensures s.value == s.maximum ==> Settle(s, v) == v
  {
  }

  /**
   * Index and slider after a load as the code is written (Task1/src/Task1.py
   * lines 270-281): the index is set to `d // 2`, then `setRange(0, d - 1)`
   * clamps the old slider value and, if that changes it, `valueChanged`
   * overwrites the index; `setValue(index)` follows.
   */
  function LoadedSliderAsWritten(prev: Slider, d: nat): (r: (int, Slider))
    requires SliderOk(prev)
    ensures SliderOk(r.1)
  {
    var s1 := SetRange(prev, 0, d - 1);
    var i1 := if s1.value != prev.value then s1.value else d / 2;
    var s2 := SetValue(s1, i1);
    var i2 := if s2.value != s1.value then s2.value else i1;
    (i2, s2)
  }

  /** The code as written reaches the midpoint when the old slider position lies inside the new axis. */
  lemma LoadedSliderAsWrittenInRange(prev: Slider, d: nat)
    requires SliderOk(prev) && prev.minimum == 0 && prev.value < d
    ensures LoadedSliderAsWritten(prev, d).0 == d / 2
    ensures LoadedSliderAsWritten(prev, d).1.value == d / 2
  {
  }

  /**
   * A slider left at 50 by a 100-slice volume, then a 10-slice volume: the
   * code as written ends on slice 9 instead of the middle slice 5.
   */
  lemma LoadedSliderAsWrittenMissesMidpoint()
    ensures LoadedSliderAsWritten(Slider(0, 99, 50), 10).0 == 9
    ensures Midpoint(10) == 5
  {
  }

  /** The intended index and slider after a load: both at the midpoint `d // 2` of the axis. */
  function LoadedSlider(d: nat): (r: (int, Slider))
    ensures SliderOk(r.1) && r.1.minimum == 0
    ensures r.0 == r.1.value == Midpoint(d)
    ensures d > 0 ==> r.1.maximum == d - 1 && 0 <= r.0 < d
  {
    var s := Slider(0, if d == 0 then 0 else d - 1, Midpoint(d));
    (s.value, s)
  }

  // ---- Assembling a volume from a folder ----

  /** `f.endswith(('.dcm', '.DCM'))`. */
  predicate IsDicomName(f: string) {
    EndsWith(f, ".dcm") || EndsWith(f, ".DCM")
  }

  /** Only the two spellings are accepted. */
  lemma DicomExtensions()
    ensures IsDicomName("a.dcm") && IsDicomName("a.DCM")
    ensures !IsDicomName("a.Dcm") && !IsDicomName("a.dcm.bak")
  {
    assert "a.Dcm"[5 - 4..] == ".Dcm";
    assert "a.dcm.bak"[9 - 4..] == ".bak";
  }

  /** The names in a directory listing that end in `.dcm` or `.DCM`, in listing order. */
  function DicomNames(listing: seq<string>): (r: seq<string>)
    ensures forall f :: multiset(r)[f] == if IsDicomName(f) then multiset(listing)[f] else 0
  {
    if listing == [] then []
    else
      assert listing == [listing[0]] + listing[1..];
      (if IsDicomName(listing[0]) then [listing[0]] else []) + DicomNames(listing[1..])
  }

  /** `os.path.join(folder, name)`. */
  function Join(folder: string, name: string): string {
    if folder == [] || folder[|folder| - 1] == '/' then folder + name else folder + "/" + name
  }

  function JoinAll(folder: string, names: seq<string>): (r: seq<string>)
    ensures |r| == |names| && forall i :: 0 <= i < |names| ==> r[i] == Join(folder, names[i])
  {
    if names == [] then [] else [Join(folder, names[0])] + JoinAll(folder, names[1..])
  }

  /** The paths the loader visits: the DICOM names of the listing, joined to the folder and sorted. */
  function DicomFiles(folder: string, listing: seq<string>): (r: seq<string>)
    ensures SortedBy(r, LexLe)
    ensures multiset(r) == multiset(JoinAll(folder, DicomNames(listing)))
  {
    SortStrings(JoinAll(folder, DicomNames(listing)))
  }

  /** What the DICOM decoder yields for one file: the raw samples and the rescale attributes if both exist. */
  datatype DecodedSlice = DecodedSlice(pixels: Grid<int>, rescale: Option<(real, real)>)

  /**
   * `load_dicom_slice`: rescale, then normalise to 8 bits. A file the decoder
   * rejects, or an empty array (whose minimum NumPy cannot take), fails.
   */
  function LoadSlice(d: Option<DecodedSlice>): (r: Option<Grid<int>>)
    ensures r.Some? <==> d.Some? && HasSamples(d.value)
    ensures r.Some? ==> SameShape(r.value, d.value.pixels) && EightBit(r.value)
  {
    match d
    case None => None
    case Some(ds) =>
      var g := RescaleGrid(ds.pixels, ds.rescale);
      if |Cells(g)| > 0 then Some(NormaliseGrid(g)) else None
  }

  /** `load_dicom_slice` applied to what the decoder makes of each path. */
  function SliceLoader(decode: string -> Option<DecodedSlice>): (load: string -> Option<Grid<int>>)
    ensures forall f :: load(f) == LoadSlice(decode(f))
  {
    f => LoadSlice(decode(f))
  }

  /** The decoded array holds at least one sample. */
  predicate HasSamples(d: DecodedSlice) {
    |Cells(RescaleGrid(d.pixels, d.rescale))| > 0
  }

  /** `g` and `h` have the same rows of the same lengths. */
  predicate SameShape<T, U>(g: Grid<T>, h: Grid<U>) {
    |g| == |h| && forall i :: 0 <= i < |g| ==> |g[i]| == |h[i]|
  }

  /** Every sample of `g` fits in a byte. */
  predicate EightBit(g: Grid<int>) {
    forall i, j :: 0 <= i < |g| && 0 <= j < |g[i]| ==> 0 <= g[i][j] <= 255
  }

  /** How often `readable` holds along `files`: the progress polls of the first pass. */
  function CountReadable(files: seq<string>, readable: string -> bool): (n: nat)
    ensures n <= |files|
  {
    if files == [] then 0
    else CountReadable(files[..|files| - 1], readable) + (if readable(files[|files| - 1]) then 1 else 0)
  }

  /** The slices of the second pass: the files that load, in order, with the failures skipped. */
  function LoadedSlices(files: seq<string>, load: string -> Option<Grid<int>>): (r: seq<Grid<int>>)
    ensures |r| <= |files|
  {
    if files == [] then []
    else
      LoadedSlices(files[..|files| - 1], load) +
      (match load(files[|files| - 1]) case Some(g) => [g] case None => [])
  }

  /** The answer of the `k`-th `wasCanceled()` poll; polls past the given answers report no cancellation. */
  predicate Answer(answers: seq<bool>, k: nat) {
    k < |answers| && answers[k]
  }

  /** Some poll before the `n`-th reported a cancellation. */
  predicate CancelledWithin(answers: seq<bool>, n: nat) {
    CancelledBetween(answers, 0, n)
  }

  /** Some poll numbered from `lo` up to, not including, `hi` reported a cancellation. */
  predicate CancelledBetween(answers: seq<bool>, lo: nat, hi: nat) {
    exists k: nat :: lo <= k < hi && Answer(answers, k)
  }

  /** The polls of the two passes, taken together. */
  lemma CancelledSplit(answers: seq<bool>, a: nat, b: nat)
    ensures CancelledWithin(answers, a + b) <==> CancelledWithin(answers, a) || CancelledBetween(answers, a, a + b)
  {
    if CancelledWithin(answers, a + b) {
      var k: nat :| k < a + b && Answer(answers, k);
      if k < a {
        assert CancelledWithin(answers, a);
      } else {
        assert CancelledBetween(answers, a, a + b);
      }
    }
  }

  lemma {:induction false} CountReadablePrefix(files: seq<string>, readable: string -> bool, n: nat)
    requires n <= |files|
    ensures CountReadable(files[..n], readable) <= CountReadable(files, readable)
    decreases |files| - n
  {
    if n < |files| {
      CountReadablePrefix(files, readable, n + 1);
      assert files[..n + 1][..n] == files[..n];
    } else {
      assert files[..n] == files;
    }
  }

  lemma {:induction false} LoadedSlicesPrefix(files: seq<string>, load: string -> Option<Grid<int>>, n: nat)
    requires n <= |files|
    ensures |LoadedSlices(files[..n], load)| <= |LoadedSlices(files, load)|
    decreases |files| - n
  {
    if n < |files| {
      LoadedSlicesPrefix(files, load, n + 1);
      assert files[..n + 1][..n] == files[..n];
    } else {
      assert files[..n] == files;
    }
  }

  /** A poll that does not cancel extends the stretch of polls that did not. */
  lemma NotCancelledExtends(answers: seq<bool>, lo: nat, n: nat)
    requires lo <= n && !CancelledBetween(answers, lo, n) && !Answer(answers, n)
    ensures !CancelledBetween(answers, lo, n + 1)
  {
  }

  /** The shape `(rows, cols)` NumPy reads off a 2-D array. */
  function Shape2(g: Grid<int>): (nat, nat) {
    (|g|, if |g| > 0 then |g[0]| else 0)
  }

  /** `np.array(slices)` succeeds (NumPy 1.24 and later): every slice has the shape of the first. */
  predicate Homogeneous(slices: seq<Grid<int>>) {
    |slices| > 0 && forall i :: 0 <= i < |slices| ==> IsGrid(slices[i], Shape2(slices[0]).0, Shape2(slices[0]).1)
  }

  function AsReal(g: Grid<int>): (r: Grid<real>)
    ensures |r| == |g| && forall i :: 0 <= i < |g| ==> |r[i]| == |g[i]|
    ensures forall i, j :: 0 <= i < |g| && 0 <= j < |g[i]| ==> r[i][j] == g[i][j] as real
  {
    seq(|g|, i requires 0 <= i < |g| => seq(|g[i]|, j requires 0 <= j < |g[i]| => g[i][j] as real))
  }

  /** The stacked volume: slice `i` of the volume is the `i`-th loaded slice. */
  function Stack(slices: seq<Grid<int>>): (v: Volume<real>)
    requires Homogeneous(slices)
    ensures IsBox(v, |slices|, Shape2(slices[0]).0, Shape2(slices[0]).1)
    ensures forall i :: 0 <= i < |slices| ==> v[i] == AsReal(slices[i])
  {
    seq(|slices|, i requires 0 <= i < |slices| => AsReal(slices[i]))
  }

  datatype LoadOutcome =
    | NoDicomFiles        // "No DICOM files found in the selected folder."
    | Cancelled           // the user pressed Cancel; the loader returns silently
    | NoValidSlices       // "No valid DICOM slices could be loaded."
    | Inhomogeneous       // `np.array` refuses slices of different shapes
    | Loaded(volume: Volume<real>, d0: nat, d1: nat, d2: nat)

  /** The result of `load_dicom_folder` for a listing, the two decoders and the dialog's answers. */
  function FolderOutcome(folder: string, listing: seq<string>, readable: string -> bool,
                         decode: string -> Option<DecodedSlice>, answers: seq<bool>): LoadOutcome
  {
    FilesOutcome(DicomFiles(folder, listing), readable, SliceLoader(decode), answers)
  }

  /** The result of the load once the sorted DICOM paths are known. */
  function FilesOutcome(files: seq<string>, readable: string -> bool,
                        load: string -> Option<Grid<int>>, answers: seq<bool>): LoadOutcome
  {
    var slices := LoadedSlices(files, load);
    if files == [] then NoDicomFiles
    else if CancelledWithin(answers, CountReadable(files, readable) + |slices|) then Cancelled
    else if slices == [] then NoValidSlices
    else if !Homogeneous(slices) then Inhomogeneous
    else Loaded(Stack(slices), |slices|, Shape2(slices[0]).0, Shape2(slices[0]).1)
  }

  /** A loaded volume has the announced shape, at least one slice, and 8-bit samples only. */
  lemma LoadedVolumeIsEightBit(files: seq<string>, readable: string -> bool,
                               load: string -> Option<Grid<int>>, answers: seq<bool>)
    requires forall f :: load(f).Some? ==> EightBit(load(f).value)
    requires FilesOutcome(files, readable, load, answers).Loaded?
    ensures var o := FilesOutcome(files, readable, load, answers);
      IsBox(o.volume, o.d0, o.d1, o.d2) && o.d0 > 0 &&
      forall i, j, k :: 0 <= i < o.d0 && 0 <= j < o.d1 && 0 <= k < o.d2 ==> 0.0 <= o.volume[i][j][k] <= 255.0
  {
    var slices := LoadedSlices(files, load);
    LoadedSlicesEightBit(files, load);
    var v := Stack(slices);
    forall i, j, k | 0 <= i < |slices| && 0 <= j < Shape2(slices[0]).0 && 0 <= k < Shape2(slices[0]).1
      ensures 0.0 <= v[i][j][k] <= 255.0
    {
      assert EightBit(slices[i]);
      assert v[i][j][k] == slices[i][j][k] as real;
    }
  }

  lemma {:induction false} LoadedSlicesEightBit(files: seq<string>, load: string -> Option<Grid<int>>)
    requires forall f :: load(f).Some? ==> EightBit(load(f).value)
    ensures forall n :: 0 <= n < |LoadedSlices(files, load)| ==> EightBit(LoadedSlices(files, load)[n])
  {
    if files != [] {
      LoadedSlicesEightBit(files[..|files| - 1], load);
    }
  }

  /** `load_dicom_slice` yields 8-bit slices only. */
  lemma SliceLoaderEightBit(decode: string -> Option<DecodedSlice>)
    ensures forall f :: SliceLoader(decode)(f).Some? ==> EightBit(SliceLoader(decode)(f).value)
  {
  }

  /** When every file loads, slice `i` of the volume comes from the `i`-th file in sorted order. */
  lemma {:induction false} AllLoadInOrder(files: seq<string>, load: string -> Option<Grid<int>>)
    requires forall i :: 0 <= i < |files| ==> load(files[i]).Some?
    ensures |LoadedSlices(files, load)| == |files|
    ensures forall i :: 0 <= i < |files| ==> LoadedSlices(files, load)[i] == load(files[i]).value
  {
    if files != [] {
      var n := |files| - 1;
      var prefix := files[..n];
      assert forall i :: 0 <= i < n ==> prefix[i] == files[i];
      AllLoadInOrder(prefix, load);
      var g := load(files[n]).value;
      assert LoadedSlices(files, load) == LoadedSlices(prefix, load) + [g];
    }
  }

  /** Nothing is loaded from a folder without DICOM names, whatever else it holds. */
  lemma NoDicomNamesNoLoad(folder: string, listing: seq<string>, readable: string -> bool,
                           decode: string -> Option<DecodedSlice>, answers: seq<bool>)
    requires forall f :: f in listing ==> !IsDicomName(f)
    ensures FolderOutcome(folder, listing, readable, decode, answers) == NoDicomFiles
  {
    var names := DicomNames(listing);
    assert forall f :: multiset(names)[f] == 0;
  }

  /** A dialog whose every poll answers "not cancelled" does not stop the load, however many polls it takes. */
  lemma NeverCancelled(answers: seq<bool>, n: nat)
    requires forall i :: 0 <= i < |answers| ==> !answers[i]
    ensures !CancelledWithin(answers, n)
  {
  }

  /**
   * The first pass of `load_dicom_folder`: every file the reader accepts is
   * followed by a poll of the progress dialog, and a cancelled poll stops the load.
   */
  method FirstPass(files: seq<string>, readable: string -> bool, answers: seq<bool>) returns (stopped: bool)
    ensures stopped <==> CancelledWithin(answers, CountReadable(files, readable))
  {
    var poll: nat := 0;
    var i := 0;
    while i < |files|
      invariant 0 <= i <= |files|
      invariant poll == CountReadable(files[..i], readable)
      invariant !CancelledWithin(answers, poll)
    {
      assert files[..i + 1][..i] == files[..i];
      if readable(files[i]) {
        if Answer(answers, poll) {
          CountReadablePrefix(files, readable, i + 1);
          assert CancelledWithin(answers, CountReadable(files, readable));
          return true;
        }
        NotCancelledExtends(answers, 0, poll);
        poll := poll + 1;
      }
      i := i + 1;
    }
    assert files[..|files|] == files;
    return false;
  }

  /**
   * The second pass: every slice that loads is appended and followed by a
   * poll (numbered on from `start`); files that fail are skipped unpolled.
   */
  method SecondPass(files: seq<string>, load: string -> Option<Grid<int>>, answers: seq<bool>, start: nat)
    returns (stopped: bool, slices: seq<Grid<int>>)
    ensures stopped <==> CancelledBetween(answers, start, start + |LoadedSlices(files, load)|)
    ensures !stopped ==> slices == LoadedSlices(files, load)
  {
    slices := [];
    var poll: nat := start;
    var i := 0;
    while i < |files|
      invariant 0 <= i <= |files|
      invariant slices == LoadedSlices(files[..i], load)
      invariant poll == start + |slices|
      invariant !CancelledBetween(answers, start, poll)
    {
      assert files[..i + 1][..i] == files[..i];
      match load(files[i]) {
        case Some(g) =>
          slices := slices + [g];
          if Answer(answers, poll) {
            LoadedSlicesPrefix(files, load, i + 1);
            assert CancelledBetween(answers, start, start + |LoadedSlices(files, load)|);
            return true, slices;
          }
          NotCancelledExtends(answers, start, poll);
          poll := poll + 1;
        case None =>
      }
      i := i + 1;
    }
    assert files[..|files|] == files;
    return false, slices;
  }

  /** `load_dicom_folder` up to the stacked volume: the sorted paths, then the two passes and the checks after them. */
  method ReadFolder(folder: string, listing: seq<string>, readable: string -> bool,
                    decode: string -> Option<DecodedSlice>, answers: seq<bool>) returns (outcome: LoadOutcome)
    ensures outcome == FolderOutcome(folder, listing, readable, decode, answers)
  {
    outcome := ReadFiles(DicomFiles(folder, listing), readable, SliceLoader(decode), answers);
  }

  /** The two passes over the sorted paths and the checks after them. */
  method ReadFiles(files: seq<string>, readable: string -> bool, load: string -> Option<Grid<int>>,
                   answers: seq<bool>) returns (outcome: LoadOutcome)
    ensures outcome == FilesOutcome(files, readable, load, answers)
  {
    if files == [] {
      return NoDicomFiles;
    }
    var p1 := CountReadable(files, readable);
    var p2 := |LoadedSlices(files, load)|;
    CancelledSplit(answers, p1, p2);
    var stopped := FirstPass(files, readable, answers);
    if stopped {
      return Cancelled;
    }
    var slices;
    stopped, slices := SecondPass(files, load, answers, p1);
    if stopped {
      return Cancelled;
    }
    if slices == [] {
      return NoValidSlices;
    }
    if !Homogeneous(slices) {
      return Inhomogeneous;
    }
    return Loaded(Stack(slices), |slices|, Shape2(slices[0]).0, Shape2(slices[0]).1);
  }

  // ---- Mouse events ----

  datatype Mode = CursorMode | ZoomMode
  datatype Canvas = AxialCanvas | SagittalCanvas | CoronalCanvas

  /** A Matplotlib mouse event: the button, whether it lies in the axes, the canvas and the data coordinates. */
  datatype MouseEvent = MouseEvent(button: int, inAxes: bool, canvas: Canvas, xdata: Option<real>, ydata: Option<real>)

  /** What a mouse press leads to besides the state change. */
  datatype PressAction =
    | NoAction
    | ZoomAt(factor: real, x: Option<real>, y: Option<real>)   // `perform_zoom` centred on the event
    | CursorUpdate                                              // `handle_cursor_motion`

  class MedicalImageViewer {
    var volume: Option<Volume<real>>
    var shape: (nat, nat, nat)
    var axialIndex: Option<int>
    var sagittalIndex: Option<int>
    var coronalIndex: Option<int>
    var axialCrosshair: Option<(int, int)>
    var sagittalCrosshair: Option<(int, int)>
    var coronalCrosshair: Option<(int, int)>
    var axialSlider: Slider
    var sagittalSlider: Slider
    var coronalSlider: Slider
    var mode: Mode
    var isMousePressed: bool
    var zoomMode: bool
    var zoomInMode: bool
    var zoomOutMode: bool

    /** The sliders hold values inside their ranges and the volume has the recorded shape. */
    predicate Valid()
      reads this
    {
      && SliderOk(axialSlider) && SliderOk(sagittalSlider) && SliderOk(coronalSlider)
      && (volume.Some? ==> IsBox(volume.value, shape.0, shape.1, shape.2))
    }

    /**
     * The zoom flags agree with the mode: none is set in cursor mode,
     * `zoom_mode` is set exactly when one direction is, and never both.
     */
    predicate ModeOk()
      reads this
    {
      && (mode == CursorMode ==> !zoomMode && !zoomInMode && !zoomOutMode)
      && (zoomMode <==> zoomInMode || zoomOutMode)
      && !(zoomInMode && zoomOutMode)
    }

    /** The three views of the current volume, or `None` where drawing them raises. */
    function CurrentViews(): (r: Option<(Grid<real>, Grid<real>, Grid<real>)>)
      requires Valid()
      reads this
      ensures r.Some? ==> volume.Some? && axialIndex.Some? && sagittalIndex.Some? && coronalIndex.Some?
    {
      if volume.None? || axialIndex.None? || sagittalIndex.None? || coronalIndex.None? then None
      else Views(volume.value, shape.1, shape.2, axialIndex.value, sagittalIndex.value, coronalIndex.value)
    }

    /** The state `__init__` leaves: no volume, every slider at 0 of `[0, 0]`, cursor mode. */
    constructor ()
      ensures Valid() && ModeOk()
      ensures volume == None && axialIndex == None && sagittalIndex == None && coronalIndex == None
      ensures axialCrosshair == None && sagittalCrosshair == None && coronalCrosshair == None
      ensures axialSlider == sagittalSlider == coronalSlider == Slider(0, 0, 0)
      ensures mode == CursorMode && !isMousePressed && !zoomMode && !zoomInMode && !zoomOutMode
    {
      volume := None;
      shape := (0, 0, 0);
      axialIndex, sagittalIndex, coronalIndex := None, None, None;
      axialCrosshair, sagittalCrosshair, coronalCrosshair := None, None, None;
      axialSlider, sagittalSlider, coronalSlider := Slider(0, 0, 0), Slider(0, 0, 0), Slider(0, 0, 0);
      mode := CursorMode;
      isMousePressed, zoomMode, zoomInMode, zoomOutMode := false, false, false, false;
    }

    /** Installs a volume of shape `(d0, d1, d2)` with every index and slider at the middle of its axis. */
    method Install(v: Volume<real>, d0: nat, d1: nat, d2: nat)
      requires Valid() && IsBox(v, d0, d1, d2)
      modifies this
      ensures Valid()
      ensures volume == Some(v) && shape == (d0, d1, d2)
      ensures axialIndex == Some(Midpoint(d0)) && sagittalIndex == Some(Midpoint(d1)) && coronalIndex == Some(Midpoint(d2))
      ensures axialSlider == LoadedSlider(d0).1 && sagittalSlider == LoadedSlider(d1).1 && coronalSlider == LoadedSlider(d2).1
      ensures axialCrosshair == old(axialCrosshair) && sagittalCrosshair == old(sagittalCrosshair)
      ensures coronalCrosshair == old(coronalCrosshair)
      ensures mode == old(mode) && isMousePressed == old(isMousePressed)
      ensures zoomMode == old(zoomMode) && zoomInMode == old(zoomInMode) && zoomOutMode == old(zoomOutMode)
    {
      volume := Some(v);
      shape := (d0, d1, d2);
      var (a, sa) := LoadedSlider(d0);
      var (s, ss) := LoadedSlider(d1);
      var (c, sc) := LoadedSlider(d2);
      axialIndex, sagittalIndex, coronalIndex := Some(a), Some(s), Some(c);
      axialSlider, sagittalSlider, coronalSlider := sa, ss, sc;
    }

    /**
     * `load_dicom_folder`: the volume, indices and sliders change only when
     * the load succeeds; cancellation and every error leave them as they were.
     * Crosshairs are never cleared.
     */
    method LoadDicomFolder(folder: string, listing: seq<string>, readable: string -> bool,
                           decode: string -> Option<DecodedSlice>, answers: seq<bool>) returns (outcome: LoadOutcome)
      requires Valid()
      modifies this
      ensures Valid()
      ensures outcome == FolderOutcome(folder, listing, readable, decode, answers)
      ensures outcome.Loaded? ==>
        volume == Some(outcome.volume) && shape == (outcome.d0, outcome.d1, outcome.d2) &&
        axialIndex == Some(Midpoint(outcome.d0)) && sagittalIndex == Some(Midpoint(outcome.d1)) &&
        coronalIndex == Some(Midpoint(outcome.d2)) &&
        axialSlider == LoadedSlider(outcome.d0).1 && sagittalSlider == LoadedSlider(outcome.d1).1 &&
        coronalSlider == LoadedSlider(outcome.d2).1
      ensures !outcome.Loaded? ==>
        volume == old(volume) && shape == old(shape) &&
        axialIndex == old(axialIndex) && sagittalIndex == old(sagittalIndex) && coronalIndex == old(coronalIndex) &&
        axialSlider == old(axialSlider) && sagittalSlider == old(sagittalSlider) && coronalSlider == old(coronalSlider)
      ensures axialCrosshair == old(axialCrosshair) && sagittalCrosshair == old(sagittalCrosshair)
      ensures coronalCrosshair == old(coronalCrosshair)
      ensures mode == old(mode) && isMousePressed == old(isMousePressed)
      ensures zoomMode == old(zoomMode) && zoomInMode == old(zoomInMode) && zoomOutMode == old(zoomOutMode)
    {
      outcome := ReadFolder(folder, listing, readable, decode, answers);
      if outcome.Loaded? {
        LoadedVolumeIsEightBit(DicomFiles(folder, listing), readable, SliceLoader(decode), answers);
        Install(outcome.volume, outcome.d0, outcome.d1, outcome.d2);
      }
    }

    /**
     * `load_nifti_file` for data of shape `(X, Y, Z)`: the volume becomes
     * `np.transpose(raw, (2, 0, 1))`, of shape `(Z, X, Y)`, with midpoint indices.
     */
    method LoadNifti(raw: Volume<real>, x: nat, y: nat, z: nat)
      requires Valid() && IsBox(raw, x, y, z)
      modifies this
      ensures Valid()
      ensures volume == Some(Transpose201(raw, x, y, z)) && shape == (z, x, y)
      ensures axialIndex == Some(Midpoint(z)) && sagittalIndex == Some(Midpoint(x)) && coronalIndex == Some(Midpoint(y))
      ensures axialSlider == LoadedSlider(z).1 && sagittalSlider == LoadedSlider(x).1 && coronalSlider == LoadedSlider(y).1
      ensures axialCrosshair == old(axialCrosshair) && sagittalCrosshair == old(sagittalCrosshair)
      ensures coronalCrosshair == old(coronalCrosshair)
      ensures mode == old(mode) && isMousePressed == old(isMousePressed)
      ensures zoomMode == old(zoomMode) && zoomInMode == old(zoomInMode) && zoomOutMode == old(zoomOutMode)
    {
      Install(Transpose201(raw, x, y, z), z, x, y);
    }

    /**
     * The user drags a slider to `v`: the slider emits `valueChanged` only if
     * the value changes, and `update_*_index` stores it in the index.
     */
    method MoveSlider(which: Canvas, v: int)
      requires Valid()
      requires which == AxialCanvas ==> axialSlider.minimum <= v <= axialSlider.maximum
      requires which == SagittalCanvas ==> sagittalSlider.minimum <= v <= sagittalSlider.maximum
      requires which == CoronalCanvas ==> coronalSlider.minimum <= v <= coronalSlider.maximum
      modifies this
      ensures Valid()
      ensures which == AxialCanvas ==> (axialSlider == old(axialSlider).(value := v) &&
        axialIndex == (if v != old(axialSlider.value) then Some(v) else old(axialIndex)))
      ensures which != AxialCanvas ==> axialSlider == old(axialSlider) && axialIndex == old(axialIndex)
      ensures which == SagittalCanvas ==> (sagittalSlider == old(sagittalSlider).(value := v) &&
        sagittalIndex == (if v != old(sagittalSlider.value) then Some(v) else old(sagittalIndex)))
      ensures which != SagittalCanvas ==> sagittalSlider == old(sagittalSlider) && sagittalIndex == old(sagittalIndex)
      ensures which == CoronalCanvas ==> (coronalSlider == old(coronalSlider).(value := v) &&
        coronalIndex == (if v != old(coronalSlider.value) then Some(v) else old(coronalIndex)))
      ensures which != CoronalCanvas ==> coronalSlider == old(coronalSlider) && coronalIndex == old(coronalIndex)
      ensures volume == old(volume) && shape == old(shape)
      ensures axialCrosshair == old(axialCrosshair) && sagittalCrosshair == old(sagittalCrosshair)
      ensures coronalCrosshair == old(coronalCrosshair)
      ensures mode == old(mode) && isMousePressed == old(isMousePressed)
      ensures zoomMode == old(zoomMode) && zoomInMode == old(zoomInMode) && zoomOutMode == old(zoomOutMode)
    {
      SetSlider(which, v);
    }

    /** `slider.setValue(v)` on the slider of one axis, with the feedback into that axis's index. */
    method SetSlider(which: Canvas, v: int)
      requires Valid()
      modifies this
      ensures Valid()
      ensures which == AxialCanvas ==> (axialSlider == SetValue(old(axialSlider), v) &&
        axialIndex == (if axialSlider.value != old(axialSlider.value) then Some(axialSlider.value) else old(axialIndex)))
      ensures which != AxialCanvas ==> axialSlider == old(axialSlider) && axialIndex == old(axialIndex)
      ensures which == SagittalCanvas ==> (sagittalSlider == SetValue(old(sagittalSlider), v) &&
        sagittalIndex == (if sagittalSlider.value != old(sagittalSlider.value) then Some(sagittalSlider.value) else old(sagittalIndex)))
      ensures which != SagittalCanvas ==> sagittalSlider == old(sagittalSlider) && sagittalIndex == old(sagittalIndex)
      ensures which == CoronalCanvas ==> (coronalSlider == SetValue(old(coronalSlider), v) &&
        coronalIndex == (if coronalSlider.value != old(coronalSlider.value) then Some(coronalSlider.value) else old(coronalIndex)))
      ensures which != CoronalCanvas ==> coronalSlider == old(coronalSlider) && coronalIndex == old(coronalIndex)
      ensures volume == old(volume) && shape == old(shape)
      ensures axialCrosshair == old(axialCrosshair) && sagittalCrosshair == old(sagittalCrosshair)
      ensures coronalCrosshair == old(coronalCrosshair)
      ensures mode == old(mode) && isMousePressed == old(isMousePressed)
      ensures zoomMode == old(zoomMode) && zoomInMode == old(zoomInMode) && zoomOutMode == old(zoomOutMode)
    {
      match which {
        case AxialCanvas =>
          var t := SetValue(axialSlider, v);
          if t.value != axialSlider.value {
            axialIndex := Some(t.value);
          }
          axialSlider := t;
        case SagittalCanvas =>
          var t := SetValue(sagittalSlider, v);
          if t.value != sagittalSlider.value {
            sagittalIndex := Some(t.value);
          }
          sagittalSlider := t;
        case CoronalCanvas =>
          var t := SetValue(coronalSlider, v);
          if t.value != coronalSlider.value {
            coronalIndex := Some(t.value);
          }
          coronalSlider := t;
      }
    }

    /**
     * What `handle_cursor_motion` does to the indices, sliders and crosshairs,
     * measured against the state before the event.
     */
    twostate predicate CursorMoved(e: MouseEvent)
      requires old(Valid())
      reads this
    {
      && (!e.inAxes || e.xdata.None? || e.ydata.None? ==>
        axialIndex == old(axialIndex) && sagittalIndex == old(sagittalIndex) && coronalIndex == old(coronalIndex) &&
        axialCrosshair == old(axialCrosshair) && sagittalCrosshair == old(sagittalCrosshair) &&
        coronalCrosshair == old(coronalCrosshair) &&
        axialSlider == old(axialSlider) && sagittalSlider == old(sagittalSlider) && coronalSlider == old(coronalSlider))
      && (e.inAxes && e.xdata.Some? && e.ydata.Some? ==>
        var x, y := TruncToInt(e.xdata.value), TruncToInt(e.ydata.value);
        match e.canvas
        case AxialCanvas =>
          sagittalIndex == Some(Settle(old(sagittalSlider), y)) && coronalIndex == Some(Settle(old(coronalSlider), x)) &&
          sagittalSlider == SetValue(old(sagittalSlider), y) && coronalSlider == SetValue(old(coronalSlider), x) &&
          axialCrosshair == Some((x, y)) &&
          axialIndex == old(axialIndex) && axialSlider == old(axialSlider) &&
          sagittalCrosshair == old(sagittalCrosshair) && coronalCrosshair == old(coronalCrosshair)
        case SagittalCanvas =>
          axialIndex == Some(Settle(old(axialSlider), y)) && coronalIndex == Some(Settle(old(coronalSlider), x)) &&
          axialSlider == SetValue(old(axialSlider), y) && coronalSlider == SetValue(old(coronalSlider), x) &&
          sagittalCrosshair == Some((x, y)) &&
          sagittalIndex == old(sagittalIndex) && sagittalSlider == old(sagittalSlider) &&
          axialCrosshair == old(axialCrosshair) && coronalCrosshair == old(coronalCrosshair)
        case CoronalCanvas =>
          sagittalIndex == Some(Settle(old(sagittalSlider), x)) && axialIndex == Some(Settle(old(axialSlider), y)) &&
          sagittalSlider == SetValue(old(sagittalSlider), x) && axialSlider == SetValue(old(axialSlider), y) &&
          coronalCrosshair == Some((x, y)) &&
          coronalIndex == old(coronalIndex) && coronalSlider == old(coronalSlider) &&
          axialCrosshair == old(axialCrosshair) && sagittalCrosshair == old(sagittalCrosshair))
    }

    /**
     * `handle_cursor_motion`: a click at `(x, y)`, truncated toward zero,
     * moves the two indices the clicked plane shows and sets that plane's
     * crosshair. A click on the axial plane sets sagittal = y and coronal = x,
     * on the sagittal plane axial = y and coronal = x, on the coronal plane
     * sagittal = x and axial = y. Nothing checks the bounds: an index keeps the
     * clicked value unless its slider's `valueChanged` brings the clamped one.
     */
    method HandleCursorMotion(e: MouseEvent)
      requires Valid()
      modifies this
      ensures Valid()
      ensures CursorMoved(e)
      ensures volume == old(volume) && shape == old(shape)
      ensures mode == old(mode) && isMousePressed == old(isMousePressed)
      ensures zoomMode == old(zoomMode) && zoomInMode == old(zoomInMode) && zoomOutMode == old(zoomOutMode)
    {
      if !e.inAxes || e.xdata.None? || e.ydata.None? {
        return;
      }
      var x, y := TruncToInt(e.xdata.value), TruncToInt(e.ydata.value);
      match e.canvas {
        case AxialCanvas =>
          sagittalIndex, coronalIndex := Some(y), Some(x);
          axialCrosshair := Some((x, y));
          SetSlider(SagittalCanvas, y);
          SetSlider(CoronalCanvas, x);
        case SagittalCanvas =>
          axialIndex, coronalIndex := Some(y), Some(x);
          sagittalCrosshair := Some((x, y));
          SetSlider(AxialCanvas, y);
          SetSlider(CoronalCanvas, x);
        case CoronalCanvas =>
          sagittalIndex, axialIndex := Some(x), Some(y);
          coronalCrosshair := Some((x, y));
          SetSlider(SagittalCanvas, x);
          SetSlider(AxialCanvas, y);
      }
    }

    /** `set_zoom_state`: the three zoom flags take the given values. */
    method SetZoomState(zoom: bool, zoomIn: bool, zoomOut: bool)
      modifies this
      ensures zoomMode == zoom && zoomInMode == zoomIn && zoomOutMode == zoomOut
      ensures volume == old(volume) && shape == old(shape) && mode == old(mode) && isMousePressed == old(isMousePressed)
      ensures axialIndex == old(axialIndex) && sagittalIndex == old(sagittalIndex) && coronalIndex == old(coronalIndex)
      ensures axialCrosshair == old(axialCrosshair) && sagittalCrosshair == old(sagittalCrosshair)
      ensures coronalCrosshair == old(coronalCrosshair)
      ensures axialSlider == old(axialSlider) && sagittalSlider == old(sagittalSlider) && coronalSlider == old(coronalSlider)
    {
      zoomMode, zoomInMode, zoomOutMode := zoom, zoomIn, zoomOut;
    }

    /** `zoom_in`: only in zoom mode, selects zooming in. */
    method ZoomIn()
      requires Valid() && ModeOk()
      modifies this
      ensures Valid() && ModeOk()
      ensures mode == ZoomMode ==> zoomMode && zoomInMode && !zoomOutMode
      ensures mode != ZoomMode ==> zoomMode == old(zoomMode) && zoomInMode == old(zoomInMode) && zoomOutMode == old(zoomOutMode)
      ensures volume == old(volume) && shape == old(shape) && mode == old(mode) && isMousePressed == old(isMousePressed)
      ensures axialIndex == old(axialIndex) && sagittalIndex == old(sagittalIndex) && coronalIndex == old(coronalIndex)
      ensures axialCrosshair == old(axialCrosshair) && sagittalCrosshair == old(sagittalCrosshair)
      ensures coronalCrosshair == old(coronalCrosshair)
      ensures axialSlider == old(axialSlider) && sagittalSlider == old(sagittalSlider) && coronalSlider == old(coronalSlider)
    {
      if mode != ZoomMode {
        return;
      }
      SetZoomState(true, true, false);
    }

    /** `zoom_out`: only in zoom mode, selects zooming out. */
    method ZoomOut()
      requires Valid() && ModeOk()
      modifies this
      ensures Valid() && ModeOk()
      ensures mode == ZoomMode ==> zoomMode && !zoomInMode && zoomOutMode
      ensures mode != ZoomMode ==> zoomMode == old(zoomMode) && zoomInMode == old(zoomInMode) && zoomOutMode == old(zoomOutMode)
      ensures volume == old(volume) && shape == old(shape) && mode == old(mode) && isMousePressed == old(isMousePressed)
      ensures axialIndex == old(axialIndex) && sagittalIndex == old(sagittalIndex) && coronalIndex == old(coronalIndex)
      ensures axialCrosshair == old(axialCrosshair) && sagittalCrosshair == old(sagittalCrosshair)
      ensures coronalCrosshair == old(coronalCrosshair)
      ensures axialSlider == old(axialSlider) && sagittalSlider == old(sagittalSlider) && coronalSlider == old(coronalSlider)
    {
      if mode != ZoomMode {
        return;
      }
      SetZoomState(true, false, true);
    }

    /** `reset_zoom_mode`: clears the three zoom flags. */
    method ResetZoomMode()
      requires Valid()
      modifies this
      ensures Valid() && ModeOk()
      ensures !zoomMode && !zoomInMode && !zoomOutMode
      ensures volume == old(volume) && shape == old(shape) && mode == old(mode) && isMousePressed == old(isMousePressed)
      ensures axialIndex == old(axialIndex) && sagittalIndex == old(sagittalIndex) && coronalIndex == old(coronalIndex)
      ensures axialCrosshair == old(axialCrosshair) && sagittalCrosshair == old(sagittalCrosshair)
      ensures coronalCrosshair == old(coronalCrosshair)
      ensures axialSlider == old(axialSlider) && sagittalSlider == old(sagittalSlider) && coronalSlider == old(coronalSlider)
    {
      zoomInMode := false;
      zoomOutMode := false;
      zoomMode := false;
    }

    /** `set_cursor_mode`: cursor mode with every zoom flag cleared. */
    method SetCursorMode()
      requires Valid() && ModeOk()
      modifies this
      ensures Valid() && ModeOk()
      ensures mode == CursorMode && !zoomMode && !zoomInMode && !zoomOutMode
      ensures volume == old(volume) && shape == old(shape) && isMousePressed == old(isMousePressed)
      ensures axialIndex == old(axialIndex) && sagittalIndex == old(sagittalIndex) && coronalIndex == old(coronalIndex)
      ensures axialCrosshair == old(axialCrosshair) && sagittalCrosshair == old(sagittalCrosshair)
      ensures coronalCrosshair == old(coronalCrosshair)
      ensures axialSlider == old(axialSlider) && sagittalSlider == old(sagittalSlider) && coronalSlider == old(coronalSlider)
    {
      mode := CursorMode;
      ResetZoomMode();
    }

    /** `set_zoom_mode`: zoom mode; the flags stay as they were, so no direction is chosen yet after cursor mode. */
    method SetZoomMode()
      requires Valid() && ModeOk()
      modifies this
      ensures Valid() && ModeOk()
      ensures mode == ZoomMode
      ensures zoomMode == old(zoomMode) && zoomInMode == old(zoomInMode) && zoomOutMode == old(zoomOutMode)
      ensures old(mode) == CursorMode ==> !zoomMode && !zoomInMode && !zoomOutMode
      ensures volume == old(volume) && shape == old(shape) && isMousePressed == old(isMousePressed)
      ensures axialIndex == old(axialIndex) && sagittalIndex == old(sagittalIndex) && coronalIndex == old(coronalIndex)
      ensures axialCrosshair == old(axialCrosshair) && sagittalCrosshair == old(sagittalCrosshair)
      ensures coronalCrosshair == old(coronalCrosshair)
      ensures axialSlider == old(axialSlider) && sagittalSlider == old(sagittalSlider) && coronalSlider == old(coronalSlider)
    {
      mode := ZoomMode;
    }

    /** `toggle_mode`: cursor mode becomes zoom mode and zoom mode becomes cursor mode with the flags cleared. */
    method ToggleMode()
      requires Valid() && ModeOk()
      modifies this
      ensures Valid() && ModeOk()
      ensures mode != old(mode)
      ensures old(mode) == CursorMode ==> !zoomMode && !zoomInMode && !zoomOutMode
      ensures old(mode) == ZoomMode ==> !zoomMode && !zoomInMode && !zoomOutMode
      ensures volume == old(volume) && shape == old(shape) && isMousePressed == old(isMousePressed)
      ensures axialIndex == old(axialIndex) && sagittalIndex == old(sagittalIndex) && coronalIndex == old(coronalIndex)
      ensures axialCrosshair == old(axialCrosshair) && sagittalCrosshair == old(sagittalCrosshair)
      ensures coronalCrosshair == old(coronalCrosshair)
      ensures axialSlider == old(axialSlider) && sagittalSlider == old(sagittalSlider) && coronalSlider == old(coronalSlider)
    {
      if mode == CursorMode {
        SetZoomMode();
      } else {
        SetCursorMode();
      }
    }

    /**
     * `on_mouse_press`: the left button marks the mouse as pressed, then
     * zooms (by 2 when zooming in, else by 0.5) in zoom mode with a direction
     * chosen, or runs the cursor logic in cursor mode. Other buttons do nothing.
     */
    method OnMousePress(e: MouseEvent) returns (action: PressAction)
      requires Valid() && ModeOk()
      modifies this
      ensures Valid() && ModeOk()
      ensures e.button != 1 ==> action == NoAction && unchanged(this)
      ensures e.button == 1 ==> isMousePressed
      ensures e.button == 1 && mode == ZoomMode && zoomMode ==>
        action == ZoomAt(if zoomInMode then 2.0 else 0.5, e.xdata, e.ydata)
      ensures e.button == 1 && mode == ZoomMode && !zoomMode ==> action == NoAction
      ensures e.button == 1 && mode == CursorMode ==> action == CursorUpdate && CursorMoved(e)
      ensures action != CursorUpdate ==>
        axialIndex == old(axialIndex) && sagittalIndex == old(sagittalIndex) && coronalIndex == old(coronalIndex) &&
        axialCrosshair == old(axialCrosshair) && sagittalCrosshair == old(sagittalCrosshair) &&
        coronalCrosshair == old(coronalCrosshair) &&
        axialSlider == old(axialSlider) && sagittalSlider == old(sagittalSlider) && coronalSlider == old(coronalSlider)
      ensures volume == old(volume) && shape == old(shape) && mode == old(mode)
      ensures zoomMode == old(zoomMode) && zoomInMode == old(zoomInMode) && zoomOutMode == old(zoomOutMode)
    {
      action := NoAction;
      if e.button == 1 {
        isMousePressed := true;
        if mode == ZoomMode && zoomMode {
          action := ZoomAt(if zoomInMode then 2.0 else 0.5, e.xdata, e.ydata);
        } else if mode == CursorMode {
          HandleCursorMotion(e);
          action := CursorUpdate;
        }
      }
    }

    /** `on_mouse_release`: the left button clears the pressed flag. */
    method OnMouseRelease(e: MouseEvent)
      requires Valid() && ModeOk()
      modifies this
      ensures Valid() && ModeOk()
      ensures isMousePressed == (if e.button == 1 then false else old(isMousePressed))
      ensures volume == old(volume) && shape == old(shape) && mode == old(mode)
      ensures zoomMode == old(zoomMode) && zoomInMode == old(zoomInMode) && zoomOutMode == old(zoomOutMode)
      ensures axialIndex == old(axialIndex) && sagittalIndex == old(sagittalIndex) && coronalIndex == old(coronalIndex)
      ensures axialCrosshair == old(axialCrosshair) && sagittalCrosshair == old(sagittalCrosshair)
      ensures coronalCrosshair == old(coronalCrosshair)
      ensures axialSlider == old(axialSlider) && sagittalSlider == old(sagittalSlider) && coronalSlider == old(coronalSlider)
    {
      if e.button == 1 {
        isMousePressed := false;
      }
    }

    /** `on_mouse_motion`: dragging runs the cursor logic, but only with the button held in cursor mode. */
    method OnMouseMotion(e: MouseEvent) returns (moved: bool)
      requires Valid() && ModeOk()
      modifies this
      ensures Valid() && ModeOk()
      ensures moved <==> old(isMousePressed) && old(mode) == CursorMode
      ensures !moved ==> unchanged(this)
      ensures moved ==> CursorMoved(e)
      ensures volume == old(volume) && shape == old(shape) && mode == old(mode) && isMousePressed == old(isMousePressed)
      ensures zoomMode == old(zoomMode) && zoomInMode == old(zoomInMode) && zoomOutMode == old(zoomOutMode)
    {
      moved := isMousePressed && mode == CursorMode;
      if moved {
        HandleCursorMotion(e);
      }
    }
  }

  /** A press that zooms needs zoom mode with a direction chosen, and the two directions never mix. */
  lemma PressZoomsOnlyInZoomMode(v: MedicalImageViewer)
    requires v.ModeOk()
    ensures v.mode == CursorMode ==> !v.zoomMode
    ensures v.zoomMode ==> v.mode == ZoomMode && (v.zoomInMode != v.zoomOutMode)
  {
  }
}
