/**
 * What the DICOM viewer computes from pixel data before any widget sees it:
 * the 8-bit picture of a still image, of one frame of a multi-frame file, and
 * of each tile slice, the choice of slices for the tile view, and the run of
 * tiles it places.
 */
module DicomDisplay {
  import opened Wrappers
  import opened NdArrays
  import opened Intensity
  import opened Tiles
  import opened DicomData

  /** An 8-bit greyscale picture, its samples in row-major order. */
  datatype Picture = Picture(height: nat, width: nat, pixels: seq<int>)

  predicate EightBit(p: Picture) {
    forall k :: 0 <= k < |p.pixels| ==> 0 <= p.pixels[k] <= 255
  }

  /** The kinds of data the tile view reports. */
  datatype DataKind = MultiFrame | ThreeD | Single2D

  /** The messages the viewer appends to its log, with the values they show. */
  datatype Message =
    | NoFileSelected
    | LoadedMultiFrame(frames: nat)
    | LoadedSingle
    | NoImageData
    | PlayingVideo(frames: nat)
    | ImageDisplayed
    | DisplayError
    | FrameNotAnArray(index: nat)
    | FrameUnsupported(index: nat, shape: seq<nat>)
    | FrameError(index: nat)
    | NoFileForTiles
    | UnsupportedFormat
    | PixelDataError
    | SliceSkipped(index: nat, shape: seq<nat>)
    | TilesDisplayed(kind: DataKind, count: nat)
    | AnonymisedAndSaved(path: string)
    | AnonymisationCancelled

  // ---- Still image ----

  /** The samples after the rescale step, which applies only when both attributes are present. */
  function Rescaled(a: NdArray, rescale: Option<(real, real)>): (s: seq<real>)
    ensures |s| == |a.data|
    ensures forall k :: 0 <= k < |s| ==> s[k] == Rescale(a.data[k], rescale)
  {
    seq(|a.data|, k requires 0 <= k < |a.data| => Rescale(a.data[k], rescale))
  }

  /**
   * The still image: the rescaled samples stretched to 0..255, a constant
   * image all zeros; `None` for the error the display reports, raised for an
   * empty array (no minimum) or one that is not two-dimensional.
   */
  function StillImage(a: NdArray, rescale: Option<(real, real)>): (r: Option<Picture>)
    requires a.Wf()
    ensures r.Some? <==> |a.data| > 0 && a.Ndim() == 2
    ensures r.Some? ==> r.value.height == a.shape[0] && r.value.width == a.shape[1]
    ensures r.Some? ==> |r.value.pixels| == |a.data| && EightBit(r.value)
    ensures r.Some? ==> var s := Rescaled(a, rescale);
      && (MinOf(s) == MaxOf(s) ==> forall k :: 0 <= k < |s| ==> r.value.pixels[k] == 0)
      && (MinOf(s) < MaxOf(s) ==> forall k :: 0 <= k < |s| && s[k] == MinOf(s) ==> r.value.pixels[k] == 0)
      && (MinOf(s) < MaxOf(s) ==> forall k :: 0 <= k < |s| && s[k] == MaxOf(s) ==> r.value.pixels[k] == 255)
  {
    if |a.data| == 0 || a.Ndim() != 2 then None
    else Some(Picture(a.shape[0], a.shape[1], Normalise(Rescaled(a, rescale))))
  }

  /** Without a rescale step, brighter samples never show darker. */
  lemma StillImageMonotone(a: NdArray, i: nat, j: nat)
    requires a.Wf() && StillImage(a, None).Some?
    requires i < |a.data| && j < |a.data| && a.data[i] <= a.data[j]
    ensures StillImage(a, None).value.pixels[i] <= StillImage(a, None).value.pixels[j]
  {
    NormalisePreservesOrder(Rescaled(a, None), i, j);
  }

  // ---- One frame of a multi-frame file ----

  /** What one playback step does with its frame. */
  datatype FrameOutcome =
    | NotAnArray                        // a 0-dimensional entry is a NumPy scalar
    | Unsupported(shape: seq<nat>)
    | ProcessingError                   // `np.ptp` of an empty frame raises
    | Shown(picture: Picture)

  lemma SizeOfThreeAxes(shape: seq<nat>)
    requires |shape| == 3
    ensures Size(shape) == shape[0] * shape[1] * shape[2]
  {
    assert shape[1..][1..][1..] == [];
    assert Size(shape[1..][1..]) == shape[2];
    assert Size(shape[1..]) == shape[1] * shape[2];
  }

  /**
   * The grey frame of an `(h, w, 3)` colour frame: sample `k` is `luma` of the
   * three channels of pixel `k`, the weighting itself left abstract.
   */
  function Grey(f: NdArray, luma: (real, real, real) -> int): (g: NdArray)
    requires f.Wf() && f.Ndim() == 3 && f.shape[2] == 3
    ensures g.Wf() && g.shape == f.shape[..2]
    ensures forall k :: 0 <= k < |g.data| ==> 3 * k + 2 < |f.data| && g.data[k] == luma(f.data[3 * k], f.data[3 * k + 1], f.data[3 * k + 2]) as real
  {
    var n := f.shape[0] * f.shape[1];
    SizeOfThreeAxes(f.shape);
    SizeOfTwoAxes(f.shape[..2]);
    NdArray(f.shape[..2], seq(n, k requires 0 <= k < n => luma(f.data[3 * k], f.data[3 * k + 1], f.data[3 * k + 2]) as real))
  }

  /** A two-dimensional frame stretched to 0..255, or the error of an empty frame. */
  function Stretched(f: NdArray): (r: FrameOutcome)
    requires f.Wf() && f.Ndim() == 2
    ensures r.Shown? <==> |f.data| > 0
    ensures r.ProcessingError? <==> |f.data| == 0
    ensures r.Shown? ==> r.picture.height == f.shape[0] && r.picture.width == f.shape[1]
    ensures r.Shown? ==> |r.picture.pixels| == |f.data| && EightBit(r.picture)
    ensures r.Shown? && MinOf(f.data) == MaxOf(f.data) ==> forall k :: 0 <= k < |f.data| ==> r.picture.pixels[k] == 0
    ensures r.Shown? && MinOf(f.data) < MaxOf(f.data) ==> forall k :: 0 <= k < |f.data| ==>
      r.picture.pixels[k] == Stretch(f.data[k], MinOf(f.data), MaxOf(f.data))
  {
    if |f.data| == 0 then ProcessingError
    else Shown(Picture(f.shape[0], f.shape[1], Normalise(f.data)))
  }

  /**
   * One frame as playback treats it: a scalar entry is rejected, a colour
   * frame is turned grey first, any other frame that is not two-dimensional
   * is unsupported, and the rest are stretched.
   */
  function ShowFrame(f: NdArray, luma: (real, real, real) -> int): (r: FrameOutcome)
    requires f.Wf()
    ensures r.NotAnArray? <==> f.Ndim() == 0
    ensures r.Unsupported? <==> f.Ndim() != 0 && f.Ndim() != 2 && !(f.Ndim() == 3 && f.shape[2] == 3)
    ensures r.Unsupported? ==> r.shape == f.shape
    ensures f.Ndim() == 2 ==> r == Stretched(f)
    ensures f.Ndim() == 3 && f.shape[2] == 3 ==> r == Stretched(Grey(f, luma))
    ensures r.Shown? ==> EightBit(r.picture)
  {
    if f.Ndim() == 0 then NotAnArray
    else if f.Ndim() == 3 && f.shape[2] == 3 then Stretched(Grey(f, luma))
    else if f.Ndim() != 2 then Unsupported(f.shape)
    else Stretched(f)
  }

  // ---- Tiles ----

  /** Which slices the tile view shows, or why it shows none. */
  datatype SliceChoice =
    | Slices(kind: DataKind, slices: seq<NdArray>)
    | MissingPixelData                  // the AttributeError the view reports
    | NotTileable                       // neither multi-frame, 3-D nor 2-D
    | FrameIndexFailure                 // the IndexError it does not catch

  /**
   * The slices of the tile view: the frames of a file with more than one
   * frame, the planes along the first axis of a 3-D array, or the 2-D array
   * itself.
   */
  function TileSlices(ds: Dataset): (c: SliceChoice)
    requires ds.Wf()
    ensures c.MissingPixelData? <==> ds.pixelArray.None?
    ensures c.Slices? ==> forall i :: 0 <= i < |c.slices| ==> c.slices[i].Wf()
    ensures c.Slices? && c.kind == MultiFrame ==> (ds.numberOfFrames.Some? && ds.numberOfFrames.value > 1 &&
      |c.slices| == ds.numberOfFrames.value &&
      forall i :: 0 <= i < |c.slices| ==> At(ds.pixelArray.value, i) == Some(c.slices[i]))
    ensures ds.pixelArray.Some? && ds.numberOfFrames.Some? && ds.numberOfFrames.value > 1 ==>
      c.FrameIndexFailure? || (c.Slices? && c.kind == MultiFrame)
    ensures c.Slices? && c.kind == ThreeD ==> (ds.pixelArray.value.Ndim() == 3 &&
      !(ds.numberOfFrames.Some? && ds.numberOfFrames.value > 1) &&
      |c.slices| == ds.pixelArray.value.shape[0] &&
      forall i :: 0 <= i < |c.slices| ==> At(ds.pixelArray.value, i) == Some(c.slices[i]))
    ensures c.Slices? && c.kind == Single2D ==> (c.slices == [ds.pixelArray.value] && ds.pixelArray.value.Ndim() == 2 &&
      !(ds.numberOfFrames.Some? && ds.numberOfFrames.value > 1))
    ensures c.FrameIndexFailure? ==> (ds.numberOfFrames.Some? && ds.numberOfFrames.value > 1 &&
      (ds.pixelArray.value.Ndim() == 0 || ds.numberOfFrames.value > ds.pixelArray.value.shape[0]))
    ensures c.NotTileable? ==> (ds.pixelArray.value.Ndim() != 2 && ds.pixelArray.value.Ndim() != 3 &&
      !(ds.numberOfFrames.Some? && ds.numberOfFrames.value > 1))
  {
    if ds.pixelArray.None? then MissingPixelData
    else
      var a := ds.pixelArray.value;
      if ds.numberOfFrames.Some? && ds.numberOfFrames.value > 1 then
        match Frames(a, ds.numberOfFrames.value)
        case None => FrameIndexFailure
        case Some(fs) =>
          FramesShape(a, ds.numberOfFrames.value);
          Slices(MultiFrame, fs)
      else if a.Ndim() == 3 then
        FramesShape(a, a.shape[0]);
        Slices(ThreeD, Frames(a, a.shape[0]).value)
      else if a.Ndim() == 2 then Slices(Single2D, [a])
      else NotTileable
  }

  /** A placed tile: its slice number, its origin and its picture (`None` for a constant slice). */
  datatype TileItem = TileItem(slice: nat, x: int, y: int, picture: Option<Picture>)

  /** The slice a tile is cut from: squeezed when it has more than two axes. */
  function TileSource(s: NdArray): (t: NdArray)
    requires s.Wf()
    ensures t.Wf() && t.data == s.data
  {
    if s.Ndim() > 2 then Squeeze(s) else s
  }

  /**
   * The thumbnail picture of a non-empty 2-D slice. A constant slice divides
   * zero by zero and its 8-bit cast is undefined, so it has no picture here.
   */
  function TilePicture(t: NdArray): (p: Option<Picture>)
    requires t.Wf() && t.Ndim() == 2 && |t.data| > 0
    ensures p.None? <==> MinOf(t.data) == MaxOf(t.data)
    ensures p.Some? ==> p.value.height == t.shape[0] && p.value.width == t.shape[1]
    ensures p.Some? ==> |p.value.pixels| == |t.data| && EightBit(p.value)
    ensures p.Some? ==> forall k :: 0 <= k < |t.data| ==> p.value.pixels[k] == Stretch(t.data[k], MinOf(t.data), MaxOf(t.data))
  {
    if MinOf(t.data) == MaxOf(t.data) then None
    else Some(Picture(t.shape[0], t.shape[1], Normalise(t.data)))
  }

  /** The outcome of the tile loop: the tiles placed, the messages logged, and whether it stopped on an exception. */
  datatype TileRunResult = TileRunResult(tiles: seq<TileItem>, notes: seq<Message>, aborted: bool)

  /** Tiles in slice order, every one at the position of its slice. */
  predicate WellPlaced(tiles: seq<TileItem>, n: nat) {
    && (forall k :: 0 <= k < |tiles| ==> tiles[k].slice < n && (tiles[k].x, tiles[k].y) == TilePosition(tiles[k].slice))
    && (forall k, l :: 0 <= k < l < |tiles| ==> tiles[k].slice < tiles[l].slice)
  }

  /**
   * The tile loop over `slices`: a slice that is not 2-D after squeezing is
   * skipped with a message, an empty one raises and ends the loop, any other
   * is placed at the position of its number.
   */
  function TileRun(slices: seq<NdArray>): (r: TileRunResult)
    requires forall i :: 0 <= i < |slices| ==> slices[i].Wf()
    ensures WellPlaced(r.tiles, |slices|)
    ensures |r.tiles| <= |slices|
  {
    if slices == [] then TileRunResult([], [], false)
    else
      var i := |slices| - 1;
      var prev := TileRun(slices[..i]);
      if prev.aborted then prev
      else
        var t := TileSource(slices[i]);
        if t.Ndim() != 2 then prev.(notes := prev.notes + [SliceSkipped(i, t.shape)])
        else if |t.data| == 0 then prev.(aborted := true)
        else
          var (x, y) := TilePosition(i);
          prev.(tiles := prev.tiles + [TileItem(i, x, y, TilePicture(t))])
  }

  /** No two tiles of a run overlap, and every one lies inside the scene for all the slices. */
  lemma TileRunLayout(slices: seq<NdArray>)
    requires forall i :: 0 <= i < |slices| ==> slices[i].Wf()
    ensures var r := TileRun(slices);
      forall k, l :: 0 <= k < l < |r.tiles| ==>
        r.tiles[k].x + Pitch <= r.tiles[l].x || r.tiles[l].x + Pitch <= r.tiles[k].x ||
        r.tiles[k].y + Pitch <= r.tiles[l].y || r.tiles[l].y + Pitch <= r.tiles[k].y
    ensures var r := TileRun(slices);
      forall k :: 0 <= k < |r.tiles| ==>
        0 <= r.tiles[k].x && r.tiles[k].x + Pitch <= SceneSize(|slices|).0 &&
        0 <= r.tiles[k].y && r.tiles[k].y + Pitch <= SceneSize(|slices|).1
  {
    var r := TileRun(slices);
    forall k, l | 0 <= k < l < |r.tiles|
      ensures r.tiles[k].x + Pitch <= r.tiles[l].x || r.tiles[l].x + Pitch <= r.tiles[k].x ||
        r.tiles[k].y + Pitch <= r.tiles[l].y || r.tiles[l].y + Pitch <= r.tiles[k].y
    {
      TilesApart(r.tiles[k].slice, r.tiles[l].slice);
    }
    forall k | 0 <= k < |r.tiles|
      ensures 0 <= r.tiles[k].x && r.tiles[k].x + Pitch <= SceneSize(|slices|).0 &&
        0 <= r.tiles[k].y && r.tiles[k].y + Pitch <= SceneSize(|slices|).1
    {
      TileInScene(r.tiles[k].slice, |slices|);
    }
  }

  /** Once the loop has stopped on an exception, later slices change nothing. */
  lemma {:induction false} TileRunAbortSticks(slices: seq<NdArray>, i: nat)
    requires forall k :: 0 <= k < |slices| ==> slices[k].Wf()
    requires i <= |slices| && TileRun(slices[..i]).aborted
    ensures TileRun(slices) == TileRun(slices[..i])
  {
    if i < |slices| {
      assert slices[..|slices| - 1][..i] == slices[..i];
      TileRunAbortSticks(slices[..|slices| - 1], i);
    } else {
      assert slices[..i] == slices;
    }
  }
}
