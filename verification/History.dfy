/**
 * The parameter history engine of src/state.js: the live application
 * state, the undo / redo stacks with the last committed snapshot, and the
 * change summary shown after an undo or redo.
 *
 * `Stacks` and the functions on it are the specification; the `History`
 * class updates its fields in place as the source does and is proved to
 * follow that specification.
 */
module History {
  import opened Wrappers
  import opened Parameters

  // ---------------------------------------------------------------------
  // The live state object

  datatype Tool = Cursor | Hand | Zoom

  /** The viewport part of the state, which history never touches. */
  datatype Viewport = Viewport(
    viewScale: real, viewPanX: real, viewPanY: real, isDragging: bool,
    lastMouseX: real, lastMouseY: real, activeTool: Tool, isSpaceDown: bool)

  /**
   * The module-level `state` object. Its sixteen parameter fields (those
   * cloneState copies) are held together as one `Params` value; the
   * viewport fields are fields of their own.
   */
  class LiveState {
    var params: Params

    var viewScale: real
    var viewPanX: real
    var viewPanY: real
    var isDragging: bool
    var lastMouseX: real
    var lastMouseY: real
    var activeTool: Tool
    var isSpaceDown: bool

    /**
     * cloneState: the sixteen parameter fields as a value, never aliased.
     * The copy differs from the live parameters in no field getChanges
     * compares, carries the same glyph ramp (the one field getChanges
     * skips), and shares the live image rather than copying it.
     */
    function Snapshot(): (s: Params)
      reads this
      ensures Changes(params, s) == []
      ensures s.asciiChars == params.asciiChars
      ensures s.image == params.image
    {
      ChangesEmptyIff(params, params);
      params
    }

    function View(): Viewport
      reads this
    {
      Viewport(viewScale, viewPanX, viewPanY, isDragging, lastMouseX, lastMouseY, activeTool, isSpaceDown)
    }

    /** `{ ...defaultState }`. */
    constructor ()
      ensures Snapshot() == Defaults
      ensures View() == Viewport(1.0, 0.0, 0.0, false, 0.0, 0.0, Cursor, false)
    {
      params := Defaults;
      viewScale, viewPanX, viewPanY := 1.0, 0.0, 0.0;
      isDragging, lastMouseX, lastMouseY := false, 0.0, 0.0;
      activeTool, isSpaceDown := Cursor, false;
    }

    /** applyState's `Object.assign(state, cloneState(s))`: the sixteen parameters and nothing else. */
    method ApplyState(s: Params)
      modifies this
      ensures Snapshot() == s
      ensures View() == old(View())
    {
      params := s;
    }
  }

  // ---------------------------------------------------------------------
  // Specification of the history

  /** Capacity of the undo stack. */
  const MaxUndo: nat := 50

  /** The stacks' tops are their last elements (`push` / `pop`). */
  datatype Stacks = Stacks(undo: seq<Params>, redo: seq<Params>, last: Params)

  /** The bound every reachable history keeps. */
  predicate Bounded(h: Stacks)
  {
    |h.undo| + |h.redo| <= MaxUndo
  }

  /**
   * commitState: the previous snapshot goes on top of the undo stack, the
   * oldest entry is dropped beyond 50, redo is emptied, and the current
   * parameters become the last committed snapshot.
   */
  function CommitStep(h: Stacks, current: Params): (h': Stacks)
    ensures h'.redo == [] && h'.last == current
    ensures |h'.undo| > 0 && h'.undo[|h'.undo| - 1] == h.last
    ensures |h.undo| < MaxUndo ==> h'.undo == h.undo + [h.last]
    ensures |h.undo| == MaxUndo ==> h'.undo == h.undo[1..] + [h.last]
    ensures |h.undo| <= MaxUndo ==> Bounded(h')
  {
    var pushed := h.undo + [h.last];
    Stacks(if |pushed| > MaxUndo then pushed[1..] else pushed, [], current)
  }

  /** undo: no-op on an empty undo stack; else one snapshot moves to redo and the popped one becomes current. */
  function UndoStep(h: Stacks): (h': Stacks)
    ensures |h.undo| == 0 ==> h' == h
    ensures |h.undo| > 0 ==>
              && h'.last == h.undo[|h.undo| - 1]
              && h'.undo + [h'.last] == h.undo
              && h'.redo == h.redo + [h.last]
    ensures |h'.undo| + |h'.redo| == |h.undo| + |h.redo|
  {
    if |h.undo| == 0 then h
    else Stacks(h.undo[..|h.undo| - 1], h.redo + [h.last], h.undo[|h.undo| - 1])
  }

  /** redo: the mirror image of undo. */
  function RedoStep(h: Stacks): (h': Stacks)
    ensures |h.redo| == 0 ==> h' == h
    ensures |h.redo| > 0 ==>
              && h'.last == h.redo[|h.redo| - 1]
              && h'.redo + [h'.last] == h.redo
              && h'.undo == h.undo + [h.last]
    ensures |h'.undo| + |h'.redo| == |h.undo| + |h.redo|
  {
    if |h.redo| == 0 then h
    else Stacks(h.undo + [h.last], h.redo[..|h.redo| - 1], h.redo[|h.redo| - 1])
  }

  /** Undo followed by redo is the identity whenever undo does something. */
  lemma UndoThenRedo(h: Stacks)
    requires |h.undo| > 0
    ensures RedoStep(UndoStep(h)) == h
  {
    assert h.undo[..|h.undo| - 1] + [h.undo[|h.undo| - 1]] == h.undo;
  }

  /** Redo followed by undo is the identity whenever redo does something. */
  lemma RedoThenUndo(h: Stacks)
    requires |h.redo| > 0
    ensures UndoStep(RedoStep(h)) == h
  {
    assert h.redo[..|h.redo| - 1] + [h.redo[|h.redo| - 1]] == h.redo;
  }

  /** After a commit there is nothing to redo, whatever was there before. */
  lemma RedoAfterCommit(h: Stacks, current: Params)
    ensures RedoStep(CommitStep(h, current)) == CommitStep(h, current)
  {
  }

  datatype Op = CommitOp(current: Params) | UndoOp | RedoOp

  function Step(h: Stacks, op: Op): Stacks
  {
    match op
    case CommitOp(c) => CommitStep(h, c)
    case UndoOp => UndoStep(h)
    case RedoOp => RedoStep(h)
  }

  /** The history after a sequence of operations, the last one applied last. */
  function Run(h: Stacks, ops: seq<Op>): Stacks
  {
    if ops == [] then h else Step(Run(h, ops[..|ops| - 1]), ops[|ops| - 1])
  }

  /** `|undo| + |redo| ≤ 50` holds after any sequence of commits, undos and redos. */
  lemma {:induction false} RunStaysBounded(h: Stacks, ops: seq<Op>)
    requires Bounded(h)
    ensures Bounded(Run(h, ops))
  {
    if ops != [] {
      RunStaysBounded(h, ops[..|ops| - 1]);
    }
  }

  /** The last (at most) 50 entries of a sequence. */
  function Newest(s: seq<Params>): (t: seq<Params>)
    ensures |t| == if |s| > MaxUndo then MaxUndo else |s|
  {
    if |s| > MaxUndo then s[|s| - MaxUndo..] else s
  }

  /** Committing each snapshot of `cs` in turn. */
  function CommitAll(h: Stacks, cs: seq<Params>): Stacks
  {
    if cs == [] then h else CommitStep(CommitAll(h, cs[..|cs| - 1]), cs[|cs| - 1])
  }

  /**
   * After a run of commits the undo stack holds the newest 50 of all
   * snapshots pushed: the old stack, the old last snapshot, then every
   * committed snapshot but the final one, which is the last committed.
   */
  lemma {:induction false} CommitAllKeepsNewest(h: Stacks, cs: seq<Params>)
    requires |h.undo| <= MaxUndo && cs != []
    ensures CommitAll(h, cs).undo == Newest(h.undo + [h.last] + cs[..|cs| - 1])
    ensures CommitAll(h, cs).last == cs[|cs| - 1] && CommitAll(h, cs).redo == []
  {
    var n := |cs|;
    if n == 1 {
      assert cs[..0] == [];
      assert h.undo + [h.last] + cs[..0] == h.undo + [h.last];
    } else {
      var init := cs[..n - 1];
      CommitAllKeepsNewest(h, init);
      assert init[..|init| - 1] == cs[..n - 2];
      var pushed := h.undo + [h.last] + cs[..n - 2];
      var prev := CommitAll(h, init);
      assert prev.last == cs[n - 2];
      assert prev.undo == Newest(pushed);
      assert cs[..n - 1] == cs[..n - 2] + [cs[n - 2]];
      assert h.undo + [h.last] + cs[..n - 1] == pushed + [cs[n - 2]];
      NewestPush(pushed, cs[n - 2]);
    }
  }

  /** Pushing onto the newest 50 and dropping one beyond 50 is taking the newest 50 of the longer sequence. */
  lemma NewestPush(s: seq<Params>, x: Params)
    ensures var u := Newest(s) + [x];
            (if |u| > MaxUndo then u[1..] else u) == Newest(s + [x])
  {
    var u := Newest(s) + [x];
    if |s| > MaxUndo {
      assert u[1..] == (s + [x])[|s| + 1 - MaxUndo..];
    } else if |s| == MaxUndo {
      assert u[1..] == (s + [x])[1..];
    }
  }

  /** After more than 50 commits, nothing from before the run is reachable by undoing. */
  lemma OldestForgotten(h: Stacks, cs: seq<Params>)
    requires |h.undo| <= MaxUndo && |cs| > MaxUndo
    ensures CommitAll(h, cs).undo == cs[|cs| - 1 - MaxUndo..|cs| - 1]
  {
    CommitAllKeepsNewest(h, cs);
    var all := h.undo + [h.last] + cs[..|cs| - 1];
    assert all[|all| - MaxUndo..] == cs[|cs| - 1 - MaxUndo..|cs| - 1];
  }

  // ---------------------------------------------------------------------
  // Change summaries

  /** The labels getChanges can report, in the order it checks them. */
  const Labels: seq<string> := [
    "Resolution", "Contrast", "Brightness", "Color Mode", "Tint", "Highlight",
    "Shadow", "Background", "Invert", "Aspect Ratio", "Scale", "Rotation",
    "Position", "Image"]

  /** Whether the comparison behind `Labels[k]` finds a difference. */
  predicate Differs(a: Params, b: Params, k: nat)
    requires k < |Labels|
  {
    match k
    case 0 => a.resolution != b.resolution
    case 1 => a.contrast != b.contrast
    case 2 => a.brightness != b.brightness
    case 3 => a.colorMode != b.colorMode
    case 4 => a.customTint != b.customTint
    case 5 => a.highlightColor != b.highlightColor
    case 6 => a.shadowColor != b.shadowColor
    case 7 => a.backgroundColor != b.backgroundColor
    case 8 => a.invert != b.invert
    case 9 => a.aspectRatio != b.aspectRatio
    case 10 => a.scale != b.scale
    case 11 => a.rotation != b.rotation
    case 12 => a.offsetX != b.offsetX || a.offsetY != b.offsetY
    case _ => a.image != b.image
  }

  /** The labels among the first `n` of the table whose comparison finds a difference, in table order. */
  function ChangesUpTo(a: Params, b: Params, n: nat): (c: seq<string>)
    requires n <= |Labels|
    ensures |c| <= n
  {
    if n == 0 then []
    else ChangesUpTo(a, b, n - 1) + (if Differs(a, b, n - 1) then [Labels[n - 1]] else [])
  }

  /** The whole summary. */
  function Changes(a: Params, b: Params): seq<string>
  {
    ChangesUpTo(a, b, 14)
  }

  /** All fields the summary compares (every field but `asciiChars`) are equal. */
  predicate SameCompared(a: Params, b: Params)
  {
    a.(asciiChars := b.asciiChars) == b
  }

  lemma LabelsDistinct()
    ensures forall i, l :: 0 <= i < l < |Labels| ==> Labels[i] != Labels[l]
  {
  }

  /**
   * Among the first `n` labels, a label is reported exactly when its
   * comparison finds a difference, and every reported label comes from the table.
   */
  lemma {:induction false} ChangesUpToMembers(a: Params, b: Params, n: nat)
    requires n <= |Labels|
    ensures forall j :: 0 <= j < n ==> (Labels[j] in ChangesUpTo(a, b, n) <==> Differs(a, b, j))
    ensures forall j :: n <= j < |Labels| ==> Labels[j] !in ChangesUpTo(a, b, n)
  {
    LabelsDistinct();
    if n > 0 {
      ChangesUpToMembers(a, b, n - 1);
    }
  }

  /** Reported labels appear in table order, each at most once. */
  lemma {:induction false} ChangesInTableOrder(a: Params, b: Params, n: nat)
    requires n <= |Labels|
    ensures forall p :: 0 <= p < |ChangesUpTo(a, b, n)| ==> exists i :: 0 <= i < n && ChangesUpTo(a, b, n)[p] == Labels[i]
    ensures forall p, q :: 0 <= p < q < |ChangesUpTo(a, b, n)| ==>
              exists i, l :: 0 <= i < l < n && ChangesUpTo(a, b, n)[p] == Labels[i] && ChangesUpTo(a, b, n)[q] == Labels[l]
  {
    if n > 0 {
      ChangesInTableOrder(a, b, n - 1);
      var c := ChangesUpTo(a, b, n);
      assert c == ChangesUpTo(a, b, n - 1) + (if Differs(a, b, n - 1) then [Labels[n - 1]] else []);
      var c' := ChangesUpTo(a, b, n - 1);
      forall p | 0 <= p < |c|
        ensures exists i :: 0 <= i < n && c[p] == Labels[i]
      {
        if p < |c'| {
          var i :| 0 <= i < n - 1 && c'[p] == Labels[i];
          assert c[p] == Labels[i];
        } else {
          assert c[p] == Labels[n - 1];
        }
      }
      forall p, q | 0 <= p < q < |c|
        ensures exists i, l :: 0 <= i < l < n && c[p] == Labels[i] && c[q] == Labels[l]
      {
        if q < |c'| {
          var i, l :| 0 <= i < l < n - 1 && c'[p] == Labels[i] && c'[q] == Labels[l];
          assert c[p] == Labels[i] && c[q] == Labels[l];
        } else {
          var i :| 0 <= i < n - 1 && c'[p] == Labels[i];
          assert c[p] == Labels[i] && c[q] == Labels[n - 1];
        }
      }
    } else {
      assert ChangesUpTo(a, b, n) == [];
    }
  }

  /** With no difference among the first `n` comparisons nothing is reported. */
  lemma {:induction false} NothingUpTo(a: Params, b: Params, n: nat)
    requires n <= |Labels|
    requires forall j :: 0 <= j < n ==> !Differs(a, b, j)
    ensures ChangesUpTo(a, b, n) == []
  {
    if n > 0 {
      NothingUpTo(a, b, n - 1);
    }
  }

  /** The summary is empty exactly when every compared field is equal; `asciiChars` is never reported. */
  lemma ChangesEmptyIff(a: Params, b: Params)
    ensures Changes(a, b) == [] <==> SameCompared(a, b)
  {
    ChangesUpToMembers(a, b, |Labels|);
    if Changes(a, b) == [] {
      assert forall j :: 0 <= j < |Labels| ==> !Differs(a, b, j);
      assert !Differs(a, b, 0) && !Differs(a, b, 1) && !Differs(a, b, 2) && !Differs(a, b, 3);
      assert !Differs(a, b, 4) && !Differs(a, b, 5) && !Differs(a, b, 6) && !Differs(a, b, 7);
      assert !Differs(a, b, 8) && !Differs(a, b, 9) && !Differs(a, b, 10) && !Differs(a, b, 11);
      assert !Differs(a, b, 12) && !Differs(a, b, 13);
    } else {
      var j :| 0 <= j < |Labels| && Changes(a, b)[0] == Labels[j] by {
        ChangesInTableOrder(a, b, |Labels|);
      }
      assert Labels[j] in Changes(a, b);
    }
  }

  /** Changing only the glyph ramp is reported as no change at all. */
  lemma GlyphRampNeverReported(a: Params, ramp: string)
    ensures Changes(a, a.(asciiChars := ramp)) == []
  {
    ChangesEmptyIff(a, a.(asciiChars := ramp));
  }

  /** Moving both offsets reports a single "Position". */
  lemma OffsetsMergeIntoPosition(a: Params, dx: real, dy: real)
    requires dx != a.offsetX && dy != a.offsetY
    ensures Changes(a, a.(offsetX := dx, offsetY := dy)) == ["Position"]
  {
    var b := a.(offsetX := dx, offsetY := dy);
    NothingUpTo(a, b, 12);
    assert ChangesUpTo(a, b, 13) == ["Position"];
  }

  /**
   * getChanges: one `push` per compared field, in a fixed order, with both
   * offsets folded into "Position". The comparisons run in three
   * stretches (sampling, colour, framing), each appending to the labels
   * found so far.
   */
  method GetChanges(a: Params, b: Params) returns (changes: seq<string>)
    ensures changes == Changes(a, b)
  {
    changes := SamplingChanges(a, b, []);
    changes := ColourChanges(a, b, changes);
    changes := FramingChanges(a, b, changes);
  }

  /** Resolution, contrast and brightness. */
  method SamplingChanges(a: Params, b: Params, found: seq<string>) returns (changes: seq<string>)
    requires found == ChangesUpTo(a, b, 0)
    ensures changes == ChangesUpTo(a, b, 3)
  {
    changes := found;
    if a.resolution != b.resolution { changes := changes + ["Resolution"]; }
    assert changes == ChangesUpTo(a, b, 1);
    if a.contrast != b.contrast { changes := changes + ["Contrast"]; }
    assert changes == ChangesUpTo(a, b, 2);
    if a.brightness != b.brightness { changes := changes + ["Brightness"]; }
  }

  /** Colour mode, tint and its two colours, background and inversion. */
  method ColourChanges(a: Params, b: Params, found: seq<string>) returns (changes: seq<string>)
    requires found == ChangesUpTo(a, b, 3)
    ensures changes == ChangesUpTo(a, b, 9)
  {
    changes := found;
    if a.colorMode != b.colorMode { changes := changes + ["Color Mode"]; }
    assert changes == ChangesUpTo(a, b, 4);
    if a.customTint != b.customTint { changes := changes + ["Tint"]; }
    assert changes == ChangesUpTo(a, b, 5);
    if a.highlightColor != b.highlightColor { changes := changes + ["Highlight"]; }
    assert changes == ChangesUpTo(a, b, 6);
    if a.shadowColor != b.shadowColor { changes := changes + ["Shadow"]; }
    assert changes == ChangesUpTo(a, b, 7);
    if a.backgroundColor != b.backgroundColor { changes := changes + ["Background"]; }
    assert changes == ChangesUpTo(a, b, 8);
    if a.invert != b.invert { changes := changes + ["Invert"]; }
  }

  /** Aspect ratio, scale, rotation, position and image. */
  method FramingChanges(a: Params, b: Params, found: seq<string>) returns (changes: seq<string>)
    requires found == ChangesUpTo(a, b, 9)
    ensures changes == ChangesUpTo(a, b, 14)
  {
    changes := found;
    if a.aspectRatio != b.aspectRatio { changes := changes + ["Aspect Ratio"]; }
    assert changes == ChangesUpTo(a, b, 10);
    if a.scale != b.scale { changes := changes + ["Scale"]; }
    assert changes == ChangesUpTo(a, b, 11);
    if a.rotation != b.rotation { changes := changes + ["Rotation"]; }
    assert changes == ChangesUpTo(a, b, 12);
    if a.offsetX != b.offsetX || a.offsetY != b.offsetY { changes := changes + ["Position"]; }
    assert changes == ChangesUpTo(a, b, 13);
    if a.image != b.image { changes := changes + ["Image"]; }
  }

  // ---------------------------------------------------------------------
  // The history object

  /** The module-level `history` object. */
  class History {
    var undoStack: seq<Params>
    var redoStack: seq<Params>
    var lastCommittedState: Params

    function Abs(): Stacks
      reads this
    {
      Stacks(undoStack, redoStack, lastCommittedState)
    }

    ghost predicate Valid()
      reads this
    {
      Bounded(Abs())
    }

    /** The empty stacks plus initHistory: the current parameters are the first committed snapshot. */
    constructor InitHistory(state: LiveState)
      ensures Valid()
      ensures Abs() == Stacks([], [], state.Snapshot())
    {
      undoStack, redoStack := [], [];
      lastCommittedState := state.Snapshot();
    }

    method CommitState(state: LiveState)
      requires Valid()
      modifies this
      ensures Valid()
      ensures Abs() == CommitStep(old(Abs()), state.Snapshot())
    {
      undoStack := undoStack + [lastCommittedState];
      redoStack := [];
      lastCommittedState := state.Snapshot();
      if |undoStack| > MaxUndo {
        undoStack := undoStack[1..];
      }
    }

    /**
     * undo: on an empty stack nothing changes and nothing is reported;
     * otherwise the history steps back, the live parameters become the
     * popped snapshot, and the labels that differ are returned.
     */
    method Undo(state: LiveState) returns (changes: Option<seq<string>>)
      requires Valid()
      modifies this, state
      ensures Valid()
      ensures Abs() == UndoStep(old(Abs()))
      ensures old(|undoStack|) == 0 ==> changes == None && state.Snapshot() == old(state.Snapshot())
      ensures old(|undoStack|) > 0 ==>
                && state.Snapshot() == lastCommittedState
                && changes == Some(Changes(old(lastCommittedState), lastCommittedState))
      ensures state.View() == old(state.View())
    {
      if |undoStack| == 0 {
        return None;
      }
      redoStack := redoStack + [lastCommittedState];
      var prevState := undoStack[|undoStack| - 1];
      undoStack := undoStack[..|undoStack| - 1];
      var labels := GetChanges(lastCommittedState, prevState);
      state.ApplyState(prevState);
      lastCommittedState := prevState;
      changes := Some(labels);
    }

    /** redo: the mirror image of Undo. */
    method Redo(state: LiveState) returns (changes: Option<seq<string>>)
      requires Valid()
      modifies this, state
      ensures Valid()
      ensures Abs() == RedoStep(old(Abs()))
      ensures old(|redoStack|) == 0 ==> changes == None && state.Snapshot() == old(state.Snapshot())
      ensures old(|redoStack|) > 0 ==>
                && state.Snapshot() == lastCommittedState
                && changes == Some(Changes(old(lastCommittedState), lastCommittedState))
      ensures state.View() == old(state.View())
    {
      if |redoStack| == 0 {
        return None;
      }
      undoStack := undoStack + [lastCommittedState];
      var nextState := redoStack[|redoStack| - 1];
      redoStack := redoStack[..|redoStack| - 1];
      var labels := GetChanges(lastCommittedState, nextState);
      state.ApplyState(nextState);
      lastCommittedState := nextState;
      changes := Some(labels);
    }

    /**
     * resetApp: default parameters with no image, the zoom and pan reset,
     * both stacks emptied, and the reset state committed.
     */
    method ResetApp(state: LiveState)
      modifies this, state
      ensures Valid()
      ensures state.Snapshot() == Defaults
      ensures state.View() == old(state.View()).(viewScale := 1.0, viewPanX := 0.0, viewPanY := 0.0)
      ensures Abs() == Stacks([], [], Defaults)
    {
      state.ApplyState(Defaults);
      state.params := state.params.(image := None);
      state.viewScale, state.viewPanX, state.viewPanY := 1.0, 0.0, 0.0;
      undoStack, redoStack := [], [];
      lastCommittedState := state.Snapshot();
      state.ApplyState(state.Snapshot());
    }
  }

  /**
   * Undo then redo puts the history back as it was, and leaves the live
   * parameters equal to the last committed snapshot, so live parameters
   * that were committed before the undo are restored too.
   */
  method UndoThenRedoRestores(h: History, state: LiveState)
    requires h.Valid() && |h.undoStack| > 0
    modifies h, state
    ensures h.Abs() == old(h.Abs())
    ensures state.Snapshot() == h.lastCommittedState
    ensures old(state.Snapshot()) == old(h.lastCommittedState) ==> state.Snapshot() == old(state.Snapshot())
    ensures state.View() == old(state.View())
  {
    ghost var before := h.Abs();
    var _ := h.Undo(state);
    var _ := h.Redo(state);
    UndoThenRedo(before);
  }

  /** The mirror: redo then undo. */
  method RedoThenUndoRestores(h: History, state: LiveState)
    requires h.Valid() && |h.redoStack| > 0
    modifies h, state
    ensures h.Abs() == old(h.Abs())
    ensures state.Snapshot() == h.lastCommittedState
    ensures old(state.Snapshot()) == old(h.lastCommittedState) ==> state.Snapshot() == old(state.Snapshot())
    ensures state.View() == old(state.View())
  {
    ghost var before := h.Abs();
    var _ := h.Redo(state);
    var _ := h.Undo(state);
    RedoThenUndo(before);
  }
}
