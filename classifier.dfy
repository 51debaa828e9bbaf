/**
 * The organ classifier app: the first maximum among the network's four
 * scores and the organ it names, the pan offsets kept inside the image's
 * overhang on the canvas, dragging, loading an image, and the numbered
 * prediction history.
 */
module OrganClassifier {
  import opened Wrappers
  import opened PyStr

  // ---- Prediction ----

  /** `organs[i]` for the keys the app defines. */
  function Organ(i: nat): (name: Option<string>)
    ensures name.Some? <==> i < 4
  {
    if i == 0 then Some("Brain")
    else if i == 1 then Some("Hands")
    else if i == 2 then Some("Lung")
    else if i == 3 then Some("Kidney")
    else None
  }

  /** `s[i]` is a maximum of `s` and no earlier score equals it. */
  predicate IsFirstMax(s: seq<real>, i: nat) {
    i < |s| && (forall j :: 0 <= j < |s| ==> s[j] <= s[i]) && (forall j :: 0 <= j < i ==> s[j] < s[i])
  }

  /** The position of the first maximum. */
  function ArgMax(s: seq<real>): (i: nat)
    requires |s| > 0
    ensures IsFirstMax(s, i)
  {
    if |s| == 1 then 0
    else
      var init := s[..|s| - 1];
      var k := ArgMax(init);
      assert forall j :: 0 <= j < |init| ==> s[j] == init[j];
      if s[|s| - 1] > s[k] then |s| - 1 else k
  }

  /** There is only one first maximum. */
  lemma FirstMaxUnique(s: seq<real>, i: nat, j: nat)
    requires IsFirstMax(s, i) && IsFirstMax(s, j)
    ensures i == j
  {
    assert s[i] == s[j];
  }

  /** `list.index(x)`: the first position holding `x`. */
  function IndexOf(s: seq<real>, x: real): (i: nat)
    requires x in s
    ensures i < |s| && s[i] == x && forall j :: 0 <= j < i ==> s[j] != x
  {
    if s[0] == x then 0 else 1 + IndexOf(s[1..], x)
  }

  /** What `predict_image` returns: the organ and the confidence in percent. */
  datatype Prediction = Prediction(organ: string, confidence: real)

  /**
   * `predict_image` for the scores the network returns. Without a model the
   * result is `("Error", 0)`; `None` stands for the exception of an empty score
   * list or of a maximum past the four organs.
   */
  method PredictImage(modelLoaded: bool, scores: seq<real>) returns (r: Option<Prediction>)
    ensures !modelLoaded ==> r == Some(Prediction("Error", 0.0))
    ensures modelLoaded && |scores| == 0 ==> r.None?
    ensures modelLoaded && |scores| > 0 ==>
      r == (if ArgMax(scores) < 4 then Some(Prediction(Organ(ArgMax(scores)).value, scores[ArgMax(scores)] * 100.0)) else None)
  {
    if !modelLoaded {
      return Some(Prediction("Error", 0.0));
    }
    if |scores| == 0 {
      return None;
    }
    var i: nat := 0;
    var answer := scores[0];
    var k := 0;
    while k < |scores|
      invariant 0 <= k <= |scores|
      invariant i < |scores| && answer == scores[i]
      invariant k > 0 ==> i < k && IsFirstMax(scores[..k], i)
      invariant k == 0 ==> i == 0
    {
      if scores[k] > answer {
        answer := scores[k];
        i := IndexOf(scores, answer);
        assert i == k by {
          assert forall j :: 0 <= j < k ==> scores[..k][j] < scores[k];
        }
      }
      k := k + 1;
    }
    assert scores[..k] == scores;
    FirstMaxUnique(scores, i, ArgMax(scores));
    if i >= 4 {
      return None;
    }
    return Some(Prediction(Organ(i).value, answer * 100.0));
  }

  // ---- Panning ----

  /** `max((img - canvas) // 2, 0)`: how far the image may move each way. */
  function MaxPan(img: int, canvas: int): (m: int)
    ensures m >= 0
    ensures img <= canvas ==> m == 0
    ensures img > canvas ==> 2 * m <= img - canvas < 2 * m + 2
  {
    if (img - canvas) / 2 > 0 then (img - canvas) / 2 else 0
  }

  /** `max(-m, min(pan, m))`. */
  function ClampPan(pan: int, img: int, canvas: int): (r: int)
    ensures -MaxPan(img, canvas) <= r <= MaxPan(img, canvas)
    ensures -MaxPan(img, canvas) <= pan <= MaxPan(img, canvas) ==> r == pan
    ensures pan > MaxPan(img, canvas) ==> r == MaxPan(img, canvas)
    ensures pan < -MaxPan(img, canvas) ==> r == -MaxPan(img, canvas)
  {
    var m := MaxPan(img, canvas);
    if pan < m then (if pan > -m then pan else -m) else m
  }

  /** Clamping twice is clamping once. */
  lemma ClampPanIdempotent(pan: int, img: int, canvas: int)
    ensures ClampPan(ClampPan(pan, img, canvas), img, canvas) == ClampPan(pan, img, canvas)
  {
  }

  /** An image no larger than the canvas cannot be panned. */
  lemma ClampPanFits(pan: int, img: int, canvas: int)
    requires img <= canvas
    ensures ClampPan(pan, img, canvas) == 0
  {
  }

  // ---- History ----

  /** One history entry: the file, the organ and the confidence. */
  datatype Entry = Entry(path: string, organ: string, confidence: real)

  /** One card of the history tab, as numbered from 1. */
  datatype Card = Card(number: nat, file: string, organ: string, confidence: real)

  /** The card showing entry `e` under `number`: its file name without the directory. */
  function CardOf(number: nat, e: Entry): Card {
    Card(number, BaseName(e.path), e.organ, e.confidence)
  }

  /** What the history tab shows. */
  datatype HistoryView = NoHistory | Cards(cards: seq<Card>)

  /** The history tab: the placeholder text, or one card per entry in insertion order. */
  function HistoryTab(h: seq<Entry>): (v: HistoryView)
    ensures v.NoHistory? <==> h == []
    ensures v.Cards? ==> |v.cards| == |h| && forall i :: 0 <= i < |h| ==>
      v.cards[i] == CardOf(i + 1, h[i])
  {
    if h == [] then NoHistory
    else
      Cards(seq(|h|, i requires 0 <= i < |h| => CardOf(i + 1, h[i])))
  }

  /** Appending an entry keeps every earlier card and adds one numbered after them. */
  lemma HistoryTabAppend(h: seq<Entry>, e: Entry)
    ensures var v := HistoryTab(h + [e]);
      && v.Cards?
      && |v.cards| == |h| + 1
      && (h != [] ==> v.cards[..|h|] == HistoryTab(h).cards)
      && v.cards[|h|] == CardOf(|h| + 1, e)
  {
    var v := HistoryTab(h + [e]);
    if h != [] {
      assert forall i :: 0 <= i < |h| ==> (h + [e])[i] == h[i];
    }
  }

  /** The error dialogs the app opens. */
  datatype Dialog = ModelNotLoaded | ProcessingFailed

  class ImagePredictionApp {
    var modelLoaded: bool
    var history: seq<Entry>
    var zoomFactor: real
    var panX: int
    var panY: int
    var contrast: real
    var brightness: real
    /** The pixel size of the image on the canvas, once one is loaded. */
    var displayed: Option<(nat, nat)>
    /** The point a drag started from, once the button has been pressed. */
    var start: Option<(int, int)>
    var predictionText: Option<Prediction>
    var dialogs: seq<Dialog>

    /**
     * The state after `__init__` with the model loaded or not; history empty, no pan,
     * and both scales at their lower end 0.5 until an image is loaded.
     */
    constructor (loaded: bool)
      ensures modelLoaded == loaded && history == [] && zoomFactor == 1.0 && panX == 0 && panY == 0
      ensures contrast == 0.5 && brightness == 0.5
      ensures displayed == None && start == None && predictionText == None && dialogs == []
    {
      modelLoaded := loaded;
      history := [];
      zoomFactor := 1.0;
      panX, panY := 0, 0;
      contrast, brightness := 0.5, 0.5;
      displayed := None;
      start := None;
      predictionText := None;
      dialogs := [];
    }

    /**
     * `display_image_on_canvas` for an image drawn at `width x height` on a
     * `canvasWidth x canvasHeight` canvas: each pan offset is clamped to the
     * overhang; nothing happens before an image is loaded.
     */
    method DisplayImageOnCanvas(width: nat, height: nat, canvasWidth: int, canvasHeight: int)
      modifies this`panX, this`panY
      ensures displayed.None? ==> panX == old(panX) && panY == old(panY)
      ensures displayed.Some? ==> panX == ClampPan(old(panX), width, canvasWidth) && panY == ClampPan(old(panY), height, canvasHeight)
    {
      if displayed.None? {
        return;
      }
      panX := ClampPan(panX, width, canvasWidth);
      panY := ClampPan(panY, height, canvasHeight);
    }

    /** `start_drag`: records the press point. */
    method StartDrag(x: int, y: int)
      modifies this`start
      ensures start == Some((x, y))
    {
      start := Some((x, y));
    }

    /**
     * `drag_image`: the pointer's movement since the last point is added to
     * the pan, which the redraw then clamps, and the point is remembered.
     */
    method DragImage(x: int, y: int, width: nat, height: nat, canvasWidth: int, canvasHeight: int)
      requires start.Some?
      modifies this`panX, this`panY, this`start
      ensures var (sx, sy) := old(start).value;
        if displayed.Some?
        then panX == ClampPan(old(panX) + x - sx, width, canvasWidth) && panY == ClampPan(old(panY) + y - sy, height, canvasHeight)
        else panX == old(panX) + x - sx && panY == old(panY) + y - sy
      ensures start == Some((x, y))
    {
      var (sx, sy) := start.value;
      panX := panX + (x - sx);
      panY := panY + (y - sy);
      DisplayImageOnCanvas(width, height, canvasWidth, canvasHeight);
      start := Some((x, y));
    }

    /**
     * `load_image` for the chosen path, the size of the opened thumbnail
     * (`None` when opening fails) and the network's scores. An empty path
     * changes nothing; a prediction that raises leaves the history as it was.
     */
    method LoadImage(path: string, thumbnail: Option<(nat, nat)>, scores: seq<real>)
      modifies this
      ensures modelLoaded == old(modelLoaded) && start == old(start)
      ensures path == "" || thumbnail.None? ==> (history == old(history) && zoomFactor == old(zoomFactor) &&
        panX == old(panX) && panY == old(panY) && displayed == old(displayed) && predictionText == old(predictionText) &&
        contrast == old(contrast) && brightness == old(brightness))
      ensures path == "" ==> dialogs == old(dialogs)
      ensures path != "" && thumbnail.None? ==> dialogs == old(dialogs) + [ProcessingFailed]
      ensures path != "" && thumbnail.Some? ==> (displayed == thumbnail && zoomFactor == 1.0 &&
        panX == 0 && panY == 0 && contrast == 1.0 && brightness == 1.0)
      ensures path != "" && thumbnail.Some? && (!modelLoaded || (|scores| > 0 && ArgMax(scores) < 4)) ==>
        var p := if !modelLoaded then Prediction("Error", 0.0)
                 else Prediction(Organ(ArgMax(scores)).value, scores[ArgMax(scores)] * 100.0);
        && predictionText == Some(p)
        && history == old(history) + [Entry(path, p.organ, p.confidence)]
        && dialogs == old(dialogs) + (if modelLoaded then [] else [ModelNotLoaded])
      ensures path != "" && thumbnail.Some? && modelLoaded && (|scores| == 0 || ArgMax(scores) >= 4) ==>
        (predictionText == old(predictionText) && history == old(history) && dialogs == old(dialogs) + [ProcessingFailed])
    {
      if path == "" {
        return;
      }
      if thumbnail.None? {
        dialogs := dialogs + [ProcessingFailed];
        return;
      }
      displayed := thumbnail;
      zoomFactor := 1.0;
      panX, panY := 0, 0;
      contrast, brightness := 1.0, 1.0;
      if !modelLoaded {
        dialogs := dialogs + [ModelNotLoaded];
      }
      var p := PredictImage(modelLoaded, scores);
      match p
      case None =>
        dialogs := dialogs + [ProcessingFailed];
      case Some(pred) =>
        predictionText := Some(pred);
        history := history + [Entry(path, pred.organ, pred.confidence)];
    }
  }
}
