/**
 * The puzzle's completion tracker: it counts snapped pieces, and the snap
 * that brings the count to the number of pieces completes the puzzle once:
 * the timer stops, the completion panel shows the time and the restart
 * button appears. A reset starts the count again.
 */
module Puzzle {
  import opened GameTimer

  /** The completion message as configured on the component. */
  const CompletionMessage: string := "Congratulations!\nPuzzle Complete!"

  /** The text of the completion panel after `elapsed` was shown as the time taken. */
  function CompletionText(elapsed: string): (s: string)
    ensures |s| == |CompletionMessage| + 29 + |elapsed| && s[..|CompletionMessage|] == CompletionMessage
    ensures s[|s| - |elapsed|..] == elapsed
  {
    CompletionMessage + "\nYou completed the puzzle in\n" + elapsed
  }

  /** The place `PuzzleCompletion.Instance` lives. */
  class Registry {
    var instance: PuzzleCompletion?

    constructor ()
      ensures instance == null
    {
      instance := null;
    }
  }

  class PuzzleCompletion {
    var totalPieces: int
    var snappedPieces: int
    var puzzleCompleted: bool
    var timer: Timer?
    /** Which of the inspector references are set: the panel, its text and the restart button. */
    var hasPanel: bool
    var hasText: bool
    var hasRestart: bool
    var panelShown: bool
    var restartShown: bool
    var completionText: string
    /** Whether `Awake` destroyed this component as a second instance. */
    var destroyed: bool
    /** The number of completions since the last reset. */
    ghost var completions: nat

    /** Completion happens at most once between resets, and the timer it stops is in a valid state. */
    ghost predicate Valid()
      reads this, timer
    {
      completions == (if puzzleCompleted then 1 else 0) && (timer != null ==> timer.Valid())
    }

    /** A component with the given references set; no pieces counted yet. */
    constructor (t: Timer?, panel: bool, text: bool, restart: bool)
      requires t != null ==> t.Valid()
      ensures Valid()
      ensures timer == t && hasPanel == panel && hasText == text && hasRestart == restart
      ensures totalPieces == 0 && snappedPieces == 0 && !puzzleCompleted
      ensures !panelShown && !restartShown && completionText == "" && !destroyed
    {
      timer := t;
      hasPanel, hasText, hasRestart := panel, text, restart;
      totalPieces, snappedPieces := 0, 0;
      puzzleCompleted := false;
      panelShown, restartShown := false, false;
      completionText := "";
      destroyed := false;
      completions := 0;
    }

    /** `Awake`: the first component becomes the instance; any later one is destroyed. */
    method Awake(registry: Registry)
      modifies registry, this`destroyed
      ensures old(registry.instance) == null ==> registry.instance == this && destroyed == old(destroyed)
      ensures old(registry.instance) != null ==> registry.instance == old(registry.instance) && destroyed
    {
      if registry.instance == null {
        registry.instance := this;
      } else {
        destroyed := true;
      }
    }

    /** `Start` with the number of snap pieces in the scene: panel and restart button hidden. */
    method Start(pieces: nat)
      modifies this`totalPieces, this`panelShown, this`restartShown
      ensures totalPieces == pieces
      ensures panelShown == (old(panelShown) && !hasPanel)
      ensures restartShown == (old(restartShown) && !hasRestart)
    {
      totalPieces := pieces;
      if hasPanel {
        panelShown := false;
      }
      if hasRestart {
        restartShown := false;
      }
    }

    /**
     * `PuzzleCompleted`. `raised` reports the null reference that building
     * the message hits when the panel and its text are set but the timer is
     * not; the restart button is then not shown.
     */
    method Complete() returns (raised: bool)
      requires Valid() && !puzzleCompleted
      modifies this`puzzleCompleted, this`completions, this`panelShown, this`completionText, this`restartShown, timer
      ensures Valid() && puzzleCompleted
      ensures timer != null ==> timer.gameOver && timer.elapsed == old(timer.elapsed) && timer.text == old(timer.text)
      ensures raised <==> hasPanel && hasText && timer == null
      ensures panelShown == (old(panelShown) || (hasPanel && hasText))
      ensures hasPanel && hasText && timer != null ==>
        completionText == CompletionText(ClockText(timer.elapsed))
      ensures !(hasPanel && hasText && timer != null) ==> completionText == old(completionText)
      ensures restartShown == (old(restartShown) || (hasRestart && !raised))
    {
      puzzleCompleted := true;
      completions := completions + 1;
      if timer != null {
        timer.StopTimer();
      }
      raised := false;
      if hasPanel && hasText {
        panelShown := true;
        if timer == null {
          return true;
        }
        var time := timer.GetElapsedTime();
        completionText := CompletionText(time);
      }
      if hasRestart {
        restartShown := true;
      }
    }

    /**
     * `PieceSnapped`: one more piece; the snap that reaches the total while
     * the puzzle is not yet complete completes it, so with no pieces in the
     * scene the first snap does.
     */
    method PieceSnapped() returns (raised: bool)
      requires Valid()
      modifies this`snappedPieces, this`puzzleCompleted, this`completions, this`panelShown, this`completionText, this`restartShown, timer
      ensures Valid()
      ensures snappedPieces == old(snappedPieces) + 1
      ensures puzzleCompleted == (old(puzzleCompleted) || snappedPieces >= totalPieces)
      ensures !old(puzzleCompleted) && snappedPieces >= totalPieces ==>
        (timer != null ==> timer.gameOver) &&
        (hasPanel && hasText && timer != null ==> completionText == CompletionText(ClockText(timer.elapsed)))
      ensures old(puzzleCompleted) || snappedPieces < totalPieces ==>
        !raised && completions == old(completions) && panelShown == old(panelShown) &&
        completionText == old(completionText) && restartShown == old(restartShown) &&
        (timer != null ==> timer.gameOver == old(timer.gameOver))
      ensures timer != null ==> timer.elapsed == old(timer.elapsed) && timer.text == old(timer.text)
    {
      snappedPieces := snappedPieces + 1;
      raised := false;
      if snappedPieces >= totalPieces && !puzzleCompleted {
        raised := Complete();
      }
    }

    /** `HideCompletionMessage`. */
    method HideCompletionMessage()
      modifies this`panelShown
      ensures panelShown == (old(panelShown) && !hasPanel)
    {
      if hasPanel {
        panelShown := false;
      }
    }

    /** `ResetPuzzle`: the count and the completed flag start again; the total is kept. */
    method ResetPuzzle()
      requires Valid()
      modifies this`snappedPieces, this`puzzleCompleted, this`completions, this`panelShown
      ensures Valid()
      ensures snappedPieces == 0 && !puzzleCompleted && completions == 0
      ensures panelShown == (old(panelShown) && !hasPanel)
    {
      snappedPieces := 0;
      puzzleCompleted := false;
      completions := 0;
      if hasPanel {
        panelShown := false;
      }
    }
  }
}
