/**
 * The player heatmap viewer: a player's tracked positions, already mapped
 * onto whole pixels of the field image, are binned into a count grid the
 * size of that image; the prompt lists the known player IDs in ascending
 * order; the video controls open, pause and stop a capture.
 */
module Heatmap {
  import opened Wrappers
  import opened Sorting

  /** A position on the field image as `(x, y)`, after the homography and `int()`. */
  type Pixel = (int, int)

  /** One entry of the tracking dictionary: a player ID and its positions. */
  datatype Track = Track(id: int, positions: seq<Pixel>)

  /** The IDs of the tracking dictionary, in its insertion order. */
  function Ids(tracks: seq<Track>): (ids: seq<int>)
    ensures |ids| == |tracks| && forall i :: 0 <= i < |tracks| ==> ids[i] == tracks[i].id
  {
    seq(|tracks|, i requires 0 <= i < |tracks| => tracks[i].id)
  }

  /** `player_tracks[id]` when the dictionary has the key. */
  function Lookup(tracks: seq<Track>, id: int): (r: Option<seq<Pixel>>)
    ensures r.None? <==> forall i :: 0 <= i < |tracks| ==> tracks[i].id != id
    ensures r.Some? ==> exists i :: 0 <= i < |tracks| && tracks[i] == Track(id, r.value)
  {
    if tracks == [] then None
    else if tracks[0].id == id then Some(tracks[0].positions)
    else
      var r := Lookup(tracks[1..], id);
      assert forall i :: 1 <= i < |tracks| ==> tracks[i] == tracks[1..][i - 1];
      r
  }

  /** No two tracks share an ID, as the keys of a dictionary. */
  predicate UniqueIds(tracks: seq<Track>) {
    forall i, j :: 0 <= i < j < |tracks| ==> tracks[i].id != tracks[j].id
  }

  /** With distinct IDs, looking up a track's ID gives exactly that track's positions. */
  lemma {:induction false} LookupUnique(tracks: seq<Track>, i: nat)
    requires UniqueIds(tracks) && i < |tracks|
    ensures Lookup(tracks, tracks[i].id) == Some(tracks[i].positions)
  {
    if i > 0 {
      var rest := tracks[1..];
      assert rest[i - 1] == tracks[i];
      assert UniqueIds(rest) by {
        forall a, b | 0 <= a < b < |rest|
          ensures rest[a].id != rest[b].id
        {
          assert rest[a] == tracks[a + 1] && rest[b] == tracks[b + 1];
        }
      }
      LookupUnique(rest, i - 1);
      assert tracks[0].id != tracks[i].id;
    }
  }

  /** `sorted(player_tracks.keys())`. */
  function AvailableIds(tracks: seq<Track>): (ids: seq<int>)
    ensures forall i, j :: 0 <= i < j < |ids| ==> ids[i] <= ids[j]
    ensures multiset(ids) == multiset(Ids(tracks))
  {
    SortInts(Ids(tracks))
  }

  /** An ID is offered exactly when the tracking data has it. */
  lemma AvailableIdsMembers(tracks: seq<Track>, id: int)
    ensures id in AvailableIds(tracks) <==> Lookup(tracks, id).Some?
  {
    var ids := Ids(tracks);
    assert id in AvailableIds(tracks) <==> id in multiset(ids);
    if id in ids {
      var i :| 0 <= i < |ids| && ids[i] == id;
      assert tracks[i].id == id;
    }
  }

  // ---- Binning ----

  /** The number of positions at `(x, y)`. */
  function Hits(ps: seq<Pixel>, x: int, y: int): nat {
    if ps == [] then 0
    else Hits(ps[..|ps| - 1], x, y) + (if ps[|ps| - 1] == (x, y) then 1 else 0)
  }

  /** The count of a cell is the multiplicity of that position among the positions. */
  lemma {:induction false} HitsMultiset(ps: seq<Pixel>, x: int, y: int)
    ensures Hits(ps, x, y) == multiset(ps)[(x, y)]
  {
    if ps != [] {
      var init := ps[..|ps| - 1];
      HitsMultiset(init, x, y);
      assert ps == init + [ps[|ps| - 1]];
    }
  }

  lemma HitsSnoc(ps: seq<Pixel>, p: Pixel, x: int, y: int)
    ensures Hits(ps + [p], x, y) == Hits(ps, x, y) + (if p == (x, y) then 1 else 0)
  {
    assert (ps + [p])[..|ps|] == ps;
  }

  /** The test the loop applies before counting a position. */
  predicate InBounds(p: Pixel, h: int, w: int) {
    0 <= p.1 < h && 0 <= p.0 < w
  }

  /** The number of positions inside an `h x w` image. */
  function InBoundsCount(ps: seq<Pixel>, h: int, w: int): nat {
    if ps == [] then 0
    else InBoundsCount(ps[..|ps| - 1], h, w) + (if InBounds(ps[|ps| - 1], h, w) then 1 else 0)
  }

  /** The counts of the first `n` cells of row `y`. */
  function RowSum(ps: seq<Pixel>, y: int, n: nat): nat {
    if n == 0 then 0 else RowSum(ps, y, n - 1) + Hits(ps, n - 1, y)
  }

  /** The counts of the first `m` rows of a grid `w` cells wide. */
  function GridSum(ps: seq<Pixel>, w: nat, m: nat): nat {
    if m == 0 then 0 else GridSum(ps, w, m - 1) + RowSum(ps, m - 1, w)
  }

  lemma RowSumEmpty(y: int, n: nat)
    ensures RowSum([], y, n) == 0
  {
  }

  lemma GridSumEmpty(w: nat, m: nat)
    ensures GridSum([], w, m) == 0
  {
    if m > 0 {
      GridSumEmpty(w, m - 1);
      RowSumEmpty(m - 1, w);
    }
  }

  /** One more position adds one to a row exactly when it falls in that row. */
  lemma {:induction false} RowSumSnoc(ps: seq<Pixel>, p: Pixel, y: int, n: nat)
    ensures RowSum(ps + [p], y, n) == RowSum(ps, y, n) + (if p.1 == y && 0 <= p.0 < n then 1 else 0)
  {
    if n > 0 {
      var qs := ps + [p];
      RowSumSnoc(ps, p, y, n - 1);
      HitsSnoc(ps, p, n - 1, y);
      assert RowSum(qs, y, n) == RowSum(qs, y, n - 1) + Hits(qs, n - 1, y);
      assert RowSum(ps, y, n) == RowSum(ps, y, n - 1) + Hits(ps, n - 1, y);
    }
  }

  /** One more position adds one to the grid exactly when it falls inside it. */
  lemma {:induction false} GridSumSnoc(ps: seq<Pixel>, p: Pixel, w: nat, m: nat)
    ensures GridSum(ps + [p], w, m) == GridSum(ps, w, m) + (if InBounds(p, m, w) then 1 else 0)
  {
    if m > 0 {
      GridSumSnoc(ps, p, w, m - 1);
      RowSumSnoc(ps, p, m - 1, w);
    }
  }

  /** The grid's total is the number of in-bounds positions: nothing is lost or counted twice. */
  lemma {:induction false} GridTotal(ps: seq<Pixel>, h: nat, w: nat)
    ensures GridSum(ps, w, h) == InBoundsCount(ps, h, w)
  {
    if ps == [] {
      GridSumEmpty(w, h);
    } else {
      var init, p := ps[..|ps| - 1], ps[|ps| - 1];
      GridTotal(init, h, w);
      assert ps == init + [p];
      GridSumSnoc(init, p, w, h);
    }
  }

  /**
   * The binning loop of `generate_heatmap`: an `h x w` grid of zeros in which
   * every in-bounds position increments its own cell `[y, x]`.
   */
  method Bin(ps: seq<Pixel>, h: nat, w: nat) returns (grid: array2<int>)
    ensures fresh(grid) && grid.Length0 == h && grid.Length1 == w
    ensures forall y, x :: 0 <= y < h && 0 <= x < w ==> grid[y, x] == Hits(ps, x, y)
  {
    grid := new int[h, w]((_, _) => 0);
    var i := 0;
    while i < |ps|
      invariant 0 <= i <= |ps|
      invariant forall y, x :: 0 <= y < h && 0 <= x < w ==> grid[y, x] == Hits(ps[..i], x, y)
    {
      var (x, y) := ps[i];
      if 0 <= y < h && 0 <= x < w {
        grid[y, x] := grid[y, x] + 1;
      }
      forall y', x' | 0 <= y' < h && 0 <= x' < w
        ensures grid[y', x'] == Hits(ps[..i + 1], x', y')
      {
        assert ps[..i + 1] == ps[..i] + [ps[i]];
        HitsSnoc(ps[..i], ps[i], x', y');
      }
      i := i + 1;
    }
    assert ps[..i] == ps;
  }

  /** What the viewer reports: warnings in a message box, the missing background on the console. */
  datatype Notice = PlayerNotFound(id: int) | BackgroundNotFound | VideoNotOpened

  /** A video capture, opened or not. */
  datatype Capture = Capture(isOpened: bool)

  class HeatmapViewer {
    var tracks: seq<Track>
    /** The count grid of the heatmap on the figure, before smoothing and normalisation. */
    var heatmap: array2?<int>
    /** The player the figure shows. */
    var shownPlayer: Option<int>
    var notices: seq<Notice>
    var cap: Option<Capture>
    var playing: bool

    /**
     * The state after `__init__` with the loaded tracking data, a dictionary
     * and so free of repeated IDs: no capture, not playing, nothing drawn.
     */
    constructor (loaded: seq<Track>)
      requires UniqueIds(loaded)
      ensures tracks == loaded && heatmap == null && shownPlayer == None && notices == []
      ensures cap == None && !playing
    {
      tracks := loaded;
      heatmap := null;
      shownPlayer := None;
      notices := [];
      cap := None;
      playing := false;
    }

    /**
     * `generate_heatmap` for a player and the size of the field image
     * (`None` when it cannot be read). An unknown player is reported and
     * nothing is drawn.
     */
    method GenerateHeatmap(id: int, background: Option<(nat, nat)>)
      modifies this`heatmap, this`shownPlayer, this`notices
      ensures Lookup(tracks, id).None? ==>
        notices == old(notices) + [PlayerNotFound(id)] && heatmap == old(heatmap) && shownPlayer == old(shownPlayer)
      ensures Lookup(tracks, id).Some? && background.None? ==>
        notices == old(notices) + [BackgroundNotFound] && heatmap == old(heatmap) && shownPlayer == old(shownPlayer)
      ensures Lookup(tracks, id).Some? && background.Some? ==>
        var (h, w) := background.value;
        var ps := Lookup(tracks, id).value;
        && notices == old(notices) && shownPlayer == Some(id)
        && heatmap != null && fresh(heatmap) && heatmap.Length0 == h && heatmap.Length1 == w
        && forall y, x :: 0 <= y < h && 0 <= x < w ==> heatmap[y, x] == Hits(ps, x, y)
    {
      var positions := Lookup(tracks, id);
      if positions.None? {
        notices := notices + [PlayerNotFound(id)];
        return;
      }
      if background.None? {
        notices := notices + [BackgroundNotFound];
        return;
      }
      var (h, w) := background.value;
      var grid := Bin(positions.value, h, w);
      heatmap := grid;
      shownPlayer := Some(id);
    }

    /**
     * `prompt_player_id`: lists the sorted IDs and, unless the dialog is
     * cancelled (`answer == None`), draws the heatmap of the entered ID.
     */
    method PromptPlayerId(answer: Option<int>, background: Option<(nat, nat)>) returns (listed: seq<int>)
      modifies this`heatmap, this`shownPlayer, this`notices
      ensures listed == AvailableIds(tracks)
      ensures answer.None? ==> heatmap == old(heatmap) && shownPlayer == old(shownPlayer) && notices == old(notices)
      ensures answer.Some? && Lookup(tracks, answer.value).None? ==>
        notices == old(notices) + [PlayerNotFound(answer.value)] && heatmap == old(heatmap) && shownPlayer == old(shownPlayer)
      ensures answer.Some? && Lookup(tracks, answer.value).Some? && background.None? ==>
        notices == old(notices) + [BackgroundNotFound] && heatmap == old(heatmap) && shownPlayer == old(shownPlayer)
      ensures answer.Some? && Lookup(tracks, answer.value).Some? && background.Some? ==>
        var (h, w) := background.value;
        var ps := Lookup(tracks, answer.value).value;
        && notices == old(notices) && shownPlayer == Some(answer.value)
        && heatmap != null && fresh(heatmap) && heatmap.Length0 == h && heatmap.Length1 == w
        && forall y, x :: 0 <= y < h && 0 <= x < w ==> heatmap[y, x] == Hits(ps, x, y)
    {
      listed := AvailableIds(tracks);
      if answer.Some? {
        GenerateHeatmap(answer.value, background);
      }
    }

    /**
     * `play_video`: a capture is created only when there is none, with
     * `opens` saying whether the video file opens; a capture that did not
     * open is reported and playback does not start. Otherwise playback starts
     * and the first `update_frame` runs at once, with `read` saying whether
     * it reads a frame: at the end of the video it releases the capture.
     */
    method PlayVideo(opens: bool, read: bool)
      modifies this`cap, this`playing, this`notices
      ensures var created := if old(cap).None? then Some(Capture(opens)) else old(cap);
        && (!created.value.isOpened ==> cap == created && playing == old(playing) && notices == old(notices) + [VideoNotOpened])
        && (created.value.isOpened ==> playing && notices == old(notices) && cap == (if read then created else None))
    {
      if cap.None? {
        cap := Some(Capture(opens));
      }
      if !cap.value.isOpened {
        notices := notices + [VideoNotOpened];
        return;
      }
      playing := true;
      FrameTick(read);
    }

    /**
     * One scheduled `update_frame` while a capture exists: `read` says whether
     * a frame was read; at the end of the video the capture is released
     * while `playing` stays set.
     */
    method FrameTick(read: bool)
      requires playing ==> cap.Some?
      modifies this`cap
      ensures playing && !read ==> cap == None
      ensures !playing || read ==> cap == old(cap)
    {
      if playing && !read {
        cap := None;
      }
    }

    /** `pause_video`: only the playing flag changes. */
    method PauseVideo()
      modifies this`playing
      ensures !playing
    {
      playing := false;
    }

    /** `stop_video`: the capture is released and playback stops. */
    method StopVideo()
      modifies this`cap, this`playing
      ensures cap == None && !playing
    {
      cap := None;
      playing := false;
    }
  }
}
