/**
 * The DICOM viewer window as a state machine: the loaded dataset and its
 * frames, the playback index and timer, the picture on the image label, the
 * metadata table, the tiles of the tile view and the messages of the log.
 * File dialogs, the input dialog and `dcmread` are replaced by the values
 * they return, passed in as parameters.
 */
module DicomViewerApp {
  import opened Wrappers
  import opened PyStr
  import opened NdArrays
  import opened Tiles
  import opened DicomData
  import opened DicomTables
  import opened DicomDisplay

  /**
   * The loop of `display_3d_tiles` over the chosen slices: skips a slice that
   * is not 2-D after squeezing, stops at an empty one, places the others.
   */
  method LayTiles(slices: seq<NdArray>) returns (r: TileRunResult)
    requires forall i :: 0 <= i < |slices| ==> slices[i].Wf()
    ensures r == TileRun(slices)
  {
    var tiles: seq<TileItem> := [];
    var notes: seq<Message> := [];
    var aborted := false;
    var i := 0;
    while i < |slices| && !aborted
      invariant 0 <= i <= |slices|
      invariant TileRun(slices[..i]) == TileRunResult(tiles, notes, aborted)
    {
      assert slices[..i + 1][..i] == slices[..i];
      var t := TileSource(slices[i]);
      if t.Ndim() != 2 {
        notes := notes + [SliceSkipped(i, t.shape)];
      } else if |t.data| == 0 {
        aborted := true;
      } else {
        var (x, y) := TilePosition(i);
        tiles := tiles + [TileItem(i, x, y, TilePicture(t))];
      }
      i := i + 1;
    }
    if aborted {
      TileRunAbortSticks(slices, i);
    } else {
      assert slices[..i] == slices;
    }
    r := TileRunResult(tiles, notes, aborted);
  }

  class DicomViewer {
    var dicomFile: Option<Dataset>
    /** Whether the buttons that need a loaded file are enabled. */
    var actionsEnabled: bool
    var frames: seq<NdArray>
    var m2dIndex: nat
    /** Whether the playback timer is running. */
    var playing: bool
    var stopEnabled: bool
    var image: Option<Picture>
    var table: seq<Row>
    var tiles: seq<TileItem>
    var sceneRect: (int, int)
    var log: seq<Message>

    /** The dataset and every frame are well formed. */
    predicate Valid()
      reads this
    {
      && (dicomFile.Some? ==> dicomFile.value.Wf())
      && (forall i :: 0 <= i < |frames| ==> frames[i].Wf())
    }

    /** The state `__init__` leaves: nothing loaded, index 0, timer stopped. */
    constructor ()
      ensures Valid()
      ensures dicomFile == None && !actionsEnabled && frames == [] && m2dIndex == 0
      ensures !playing && !stopEnabled && image == None && table == [] && tiles == [] && log == []
    {
      dicomFile := None;
      actionsEnabled := false;
      frames := [];
      m2dIndex := 0;
      playing := false;
      stopEnabled := false;
      image := None;
      table := [];
      tiles := [];
      sceneRect := (0, 0);
      log := [];
    }

    /**
     * `load_dicom_file` with the chosen path and what `dcmread` returned. A
     * file with `NumberOfFrames` keeps its first `NumberOfFrames` frames in
     * order; when that subscripting raises, the dataset is already installed
     * and nothing is logged. A count of zero or less never reads the pixel
     * data and gives no frames. A file without frames leaves the old frame list.
     */
    method LoadDicomFile(path: string, ds: Dataset)
      requires Valid() && ds.Wf()
      modifies this`dicomFile, this`actionsEnabled, this`frames, this`log
      ensures Valid()
      ensures path == "" ==> (dicomFile == old(dicomFile) && actionsEnabled == old(actionsEnabled) &&
        frames == old(frames) && log == old(log) + [NoFileSelected])
      ensures path != "" ==> dicomFile == Some(ds) && actionsEnabled
      ensures path != "" && ds.numberOfFrames.None? ==> frames == old(frames) && log == old(log) + [LoadedSingle]
      ensures path != "" && ds.numberOfFrames.Some? && ds.numberOfFrames.value <= 0 ==>
        frames == [] && log == old(log) + [LoadedMultiFrame(0)]
      ensures path != "" && ds.numberOfFrames.Some? && ds.numberOfFrames.value > 0 ==>
        if ds.pixelArray.Some? && Frames(ds.pixelArray.value, ds.numberOfFrames.value).Some?
        then frames == Frames(ds.pixelArray.value, ds.numberOfFrames.value).value && log == old(log) + [LoadedMultiFrame(|frames|)]
        else frames == old(frames) && log == old(log)
    {
      if path == "" {
        log := log + [NoFileSelected];
        return;
      }
      dicomFile := Some(ds);
      actionsEnabled := true;
      if ds.numberOfFrames.Some? {
        if ds.numberOfFrames.value <= 0 {
          frames := [];
          log := log + [LoadedMultiFrame(0)];
          return;
        }
        if ds.pixelArray.None? {
          return;
        }
        match Frames(ds.pixelArray.value, ds.numberOfFrames.value)
        case None =>
          return;
        case Some(fs) =>
          FramesShape(ds.pixelArray.value, ds.numberOfFrames.value);
          frames := fs;
          log := log + [LoadedMultiFrame(|fs|)];
      } else {
        log := log + [LoadedSingle];
      }
    }

    /**
     * `display_image`: starts playback from frame 0 for a multi-frame file,
     * and otherwise shows the still image or the error it raises.
     */
    method DisplayImage()
      requires Valid()
      modifies this`m2dIndex, this`playing, this`stopEnabled, this`image, this`log
      ensures dicomFile.None? || dicomFile.value.pixelArray.None? ==> (m2dIndex == old(m2dIndex) &&
        playing == old(playing) && stopEnabled == old(stopEnabled) && image == old(image) && log == old(log) + [NoImageData])
      ensures dicomFile.Some? && dicomFile.value.pixelArray.Some? && dicomFile.value.numberOfFrames.Some? ==>
        (m2dIndex == 0 && playing && stopEnabled && image == old(image) && log == old(log) + [PlayingVideo(|frames|)])
      ensures dicomFile.Some? && dicomFile.value.pixelArray.Some? && dicomFile.value.numberOfFrames.None? ==>
        (m2dIndex == old(m2dIndex) && playing == old(playing) && stopEnabled == old(stopEnabled) &&
         var still := StillImage(dicomFile.value.pixelArray.value, dicomFile.value.rescale);
         if still.Some? then image == still && log == old(log) + [ImageDisplayed]
         else image == old(image) && log == old(log) + [DisplayError])
    {
      if dicomFile.None? || dicomFile.value.pixelArray.None? {
        log := log + [NoImageData];
        return;
      }
      var ds := dicomFile.value;
      if ds.numberOfFrames.Some? {
        m2dIndex := 0;
        stopEnabled := true;
        playing := true;
        log := log + [PlayingVideo(|frames|)];
      } else {
        match StillImage(ds.pixelArray.value, ds.rescale)
        case Some(p) =>
          image := Some(p);
          log := log + [ImageDisplayed];
        case None =>
          log := log + [DisplayError];
      }
    }

    /**
     * One timeout of the playback timer (`play_m2d_video`). Past the last
     * frame the timer stops and the index stays; otherwise the frame is shown
     * or reported and the index moves on by exactly one, whatever happened.
     */
    method PlayTick(luma: (real, real, real) -> int)
      requires Valid()
      modifies this`m2dIndex, this`playing, this`stopEnabled, this`image, this`log
      ensures old(m2dIndex) >= |frames| ==> (!playing && !stopEnabled &&
        m2dIndex == old(m2dIndex) && image == old(image) && log == old(log))
      ensures old(m2dIndex) < |frames| ==> (m2dIndex == old(m2dIndex) + 1 &&
        playing == old(playing) && stopEnabled == old(stopEnabled) &&
        var i := old(m2dIndex);
        match ShowFrame(frames[i], luma)
        case NotAnArray => image == old(image) && log == old(log) + [FrameNotAnArray(i)]
        case Unsupported(shape) => image == old(image) && log == old(log) + [FrameUnsupported(i, shape)]
        case ProcessingError => image == old(image) && log == old(log) + [FrameError(i)]
        case Shown(p) => image == Some(p) && log == old(log))
    {
      if frames == [] || m2dIndex >= |frames| {
        playing := false;
        stopEnabled := false;
        return;
      }
      var i := m2dIndex;
      match ShowFrame(frames[i], luma) {
        case NotAnArray =>
          log := log + [FrameNotAnArray(i)];
        case Unsupported(shape) =>
          log := log + [FrameUnsupported(i, shape)];
        case ProcessingError =>
          log := log + [FrameError(i)];
        case Shown(p) =>
          image := Some(p);
      }
      m2dIndex := i + 1;
    }

    /**
     * The timer firing until it stops itself: playback from the current index
     * runs through the last frame and then stops, so it always ends.
     */
    method PlayToEnd(luma: (real, real, real) -> int)
      requires Valid()
      modifies this`m2dIndex, this`playing, this`stopEnabled, this`image, this`log
      ensures old(playing) ==> !playing && !stopEnabled
      ensures m2dIndex == if old(playing) && old(m2dIndex) < |frames| then |frames| else old(m2dIndex)
    {
      ghost var start := m2dIndex;
      while playing
        invariant Valid()
        invariant m2dIndex >= start
        invariant m2dIndex > start ==> m2dIndex <= |frames|
        invariant !playing ==> (old(playing) ==> !stopEnabled) && (m2dIndex == if old(playing) && start < |frames| then |frames| else start)
        invariant playing ==> old(playing)
        decreases (if m2dIndex < |frames| then |frames| - m2dIndex else 0) + (if playing then 1 else 0)
      {
        PlayTick(luma);
      }
    }

    /** `stop_video`: the timer stops and the stop button is disabled; the index stays. */
    method StopVideo()
      modifies this`playing, this`stopEnabled
      ensures !playing && !stopEnabled
    {
      playing := false;
      stopEnabled := false;
    }

    /**
     * `display_3d_tiles`: chooses the slices, clears the scene and places one
     * tile per 2-D slice at the position of its number; when an empty slice
     * raises, the tiles placed so far stay and the scene size and the summary
     * message are not set.
     */
    method Display3DTiles()
      requires Valid()
      modifies this`tiles, this`sceneRect, this`log
      ensures dicomFile.None? || dicomFile.value.elements == [] ==>
        (tiles == old(tiles) && sceneRect == old(sceneRect) && log == old(log) + [NoFileForTiles])
      ensures dicomFile.Some? && dicomFile.value.elements != [] ==>
        match TileSlices(dicomFile.value)
        case MissingPixelData => tiles == old(tiles) && sceneRect == old(sceneRect) && log == old(log) + [PixelDataError]
        case NotTileable => tiles == old(tiles) && sceneRect == old(sceneRect) && log == old(log) + [UnsupportedFormat]
        case FrameIndexFailure => tiles == old(tiles) && sceneRect == old(sceneRect) && log == old(log)
        case Slices(kind, slices) =>
          var run := TileRun(slices);
          && tiles == run.tiles
          && (run.aborted ==> sceneRect == old(sceneRect) && log == old(log) + run.notes)
          && (!run.aborted ==> sceneRect == SceneSize(|slices|) && log == old(log) + run.notes + [TilesDisplayed(kind, |slices|)])
    {
      if dicomFile.None? || dicomFile.value.elements == [] {
        log := log + [NoFileForTiles];
        return;
      }
      var choice := TileSlices(dicomFile.value);
      match choice
      case MissingPixelData =>
        log := log + [PixelDataError];
      case NotTileable =>
        log := log + [UnsupportedFormat];
      case FrameIndexFailure =>
      case Slices(kind, slices) =>
        var run := LayTiles(slices);
        tiles := run.tiles;
        log := log + run.notes;
        if !run.aborted {
          sceneRect := SceneSize(|slices|);
          log := log + [TilesDisplayed(kind, |slices|)];
        }
    }

    /** `display_dicom_tags`: the table lists every element but the pixel data, in order. */
    method DisplayDicomTags()
      requires dicomFile.Some?
      modifies this`table
      ensures table == TagRows(dicomFile.value.elements)
    {
      var es := dicomFile.value.elements;
      table := [];
      var i := 0;
      while i < |es|
        invariant 0 <= i <= |es|
        invariant table == TagRows(es[..i])
      {
        KeptPrefixStep(es, Listed, i);
        if es[i].name != PixelDataName {
          table := table + [RowOf(es[i])];
        }
        i := i + 1;
      }
      assert es[..i] == es;
    }

    /**
     * `search_dicom_tag` for the text in the search box: the matching rows in
     * order, or the single "not found" row. The search button is enabled
     * before any file is loaded; the table is then cleared and `raised`
     * reports the `AttributeError` that iterating the missing dataset raises.
     */
    method SearchDicomTag(text: string) returns (raised: bool)
      modifies this`table
      ensures raised <==> dicomFile.None?
      ensures dicomFile.None? ==> table == []
      ensures dicomFile.Some? ==> table == SearchRows(dicomFile.value.elements, text)
    {
      var term := Lower(Strip(text));
      table := [];
      if dicomFile.None? {
        return true;
      }
      raised := false;
      var es := dicomFile.value.elements;
      var found := false;
      var i := 0;
      while i < |es|
        invariant 0 <= i <= |es|
        invariant table == MatchRows(es[..i], term)
        invariant found <==> table != []
      {
        KeptPrefixStep(es, e => Matches(e, term), i);
        if Contains(Lower(es[i].name), term) {
          table := table + [RowOf(es[i])];
          found := true;
        }
        i := i + 1;
      }
      assert es[..i] == es;
      if !found {
        table := [NotFoundRow];
      }
    }

    /** `display_patient_info`: the four patient rows. */
    method DisplayPatientInfo()
      requires dicomFile.Some?
      modifies this`table
      ensures table == PatientRows(dicomFile.value.elements)
    {
      table := PatientRows(dicomFile.value.elements);
    }

    /**
     * `anonymize_dicom` with the prefix and OK flag of the input dialog and
     * the path of the save dialog. The rewrite happens only for a confirmed,
     * non-empty prefix, and stays in memory even when saving is cancelled.
     */
    method AnonymizeDicom(prefix: string, ok: bool, savePath: string)
      requires Valid() && dicomFile.Some?
      modifies this`dicomFile, this`log
      ensures Valid() && dicomFile.Some?
      ensures !(ok && prefix != "") ==> dicomFile == old(dicomFile) && log == old(log)
      ensures ok && prefix != "" ==> dicomFile == Some(old(dicomFile).value.(elements := Anonymised(old(dicomFile).value.elements, prefix)))
      ensures ok && prefix != "" ==> log == old(log) + [if savePath != "" then AnonymisedAndSaved(savePath) else AnonymisationCancelled]
    {
      if ok && prefix != "" {
        var ds := dicomFile.value;
        AnonymisedKeepsOthers(ds.elements, prefix);
        dicomFile := Some(ds.(elements := Anonymised(ds.elements, prefix)));
        if savePath != "" {
          log := log + [AnonymisedAndSaved(savePath)];
        } else {
          log := log + [AnonymisationCancelled];
        }
      }
    }
  }
}
