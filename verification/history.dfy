/** The editor's edit history: an undo stack bounded at 50 entries, a redo stack
    and the unsaved-changes flag. Actions are data (which object was added or
    removed); the editor interprets them against the scene. */
module History {
  import opened Wrappers

  const MaxHistorySize: nat := 50

  /** Identity of a scene object inside the model (a JavaScript object reference). */
  type Handle = nat

  /** What one recorded edit did. Undoing `Added(h)` removes `h` again; undoing
      `Removed(h)` puts it back; redo replays the edit. */
  datatype Action = Added(obj: Handle) | Removed(obj: Handle)

  /** The tops of the stacks are their last elements (JavaScript `push`/`pop`). */
  datatype History = History(undoStack: seq<Action>, redoStack: seq<Action>, isDirty: bool)

  /** A fresh editor: both stacks empty, nothing unsaved. */
  function Initial(): (h: History)
    ensures h.undoStack == [] && h.redoStack == [] && !h.isDirty
  {
    History([], [], false)
  }

  predicate Bounded(h: History)
  {
    |h.undoStack| <= MaxHistorySize
  }

  /** `addHistory`: push, empty the redo stack, drop the oldest entry when the
      bound is exceeded, and mark the project dirty. */
  function AddHistory(h: History, a: Action): (r: History)
    ensures r.redoStack == [] && r.isDirty
    ensures |r.undoStack| > 0 && r.undoStack[|r.undoStack| - 1] == a
    ensures |h.undoStack| < MaxHistorySize ==> r.undoStack == h.undoStack + [a]
    ensures |h.undoStack| >= MaxHistorySize ==> r.undoStack == h.undoStack[1..] + [a]
  {
    var pushed := h.undoStack + [a];
    var kept := if |pushed| > MaxHistorySize then pushed[1..] else pushed;
    History(kept, [], true)
  }

  /** Adding to a bounded history keeps it bounded, and a full one stays full. */
  lemma AddHistoryBounded(h: History, a: Action)
    requires Bounded(h)
    ensures Bounded(AddHistory(h, a))
    ensures |h.undoStack| == MaxHistorySize ==> |AddHistory(h, a).undoStack| == MaxHistorySize
  {
  }

  /** The result of popping a stack: the new history and the action popped, if any. */
  datatype Step = Step(history: History, action: Option<Action>)

  /** `undo`: an empty undo stack changes nothing, not even the dirty flag;
      otherwise the top action moves to the redo stack and the project is dirty. */
  function Undo(h: History): (r: Step)
    ensures |h.undoStack| == 0 ==> r == Step(h, None)
    ensures |h.undoStack| > 0 ==>
      r.action == Some(h.undoStack[|h.undoStack| - 1])
      && r.history.undoStack == h.undoStack[..|h.undoStack| - 1]
      && r.history.redoStack == h.redoStack + [h.undoStack[|h.undoStack| - 1]]
      && r.history.isDirty
  {
    if |h.undoStack| == 0 then Step(h, None)
    else
      var a := h.undoStack[|h.undoStack| - 1];
      Step(History(h.undoStack[..|h.undoStack| - 1], h.redoStack + [a], true), Some(a))
  }

  /** `redo`: the mirror image of `undo`. */
  function Redo(h: History): (r: Step)
    ensures |h.redoStack| == 0 ==> r == Step(h, None)
    ensures |h.redoStack| > 0 ==>
      r.action == Some(h.redoStack[|h.redoStack| - 1])
      && r.history.redoStack == h.redoStack[..|h.redoStack| - 1]
      && r.history.undoStack == h.undoStack + [h.redoStack[|h.redoStack| - 1]]
      && r.history.isDirty
  {
    if |h.redoStack| == 0 then Step(h, None)
    else
      var a := h.redoStack[|h.redoStack| - 1];
      Step(History(h.undoStack + [a], h.redoStack[..|h.redoStack| - 1], true), Some(a))
  }

  /** Undo then redo puts both stacks back and replays the undone action. */
  lemma UndoThenRedo(h: History)
    requires |h.undoStack| > 0
    ensures var u := Undo(h); var r := Redo(u.history);
      r.history == h.(isDirty := true) && r.action == u.action
  {
    var a := h.undoStack[|h.undoStack| - 1];
    assert h.undoStack[..|h.undoStack| - 1] + [a] == h.undoStack;
  }

  /** Redo then undo likewise. */
  lemma RedoThenUndo(h: History)
    requires |h.redoStack| > 0
    ensures var r := Redo(h); var u := Undo(r.history);
      u.history == h.(isDirty := true) && u.action == r.action
  {
    var a := h.redoStack[|h.redoStack| - 1];
    assert h.redoStack[..|h.redoStack| - 1] + [a] == h.redoStack;
  }

  /** Undo and redo never grow the total number of recorded actions, and keep the
      undo stack bounded. */
  lemma UndoRedoPreserve(h: History)
    requires Bounded(h) && |h.undoStack| + |h.redoStack| <= MaxHistorySize
    ensures var u := Undo(h).history; Bounded(u) && |u.undoStack| + |u.redoStack| == |h.undoStack| + |h.redoStack|
    ensures var r := Redo(h).history; Bounded(r) && |r.undoStack| + |r.redoStack| == |h.undoStack| + |h.redoStack|
  {
  }

  /** A new edit after some undos forgets the undone edits: redo does nothing. */
  lemma AddHistoryDiscardsRedo(h: History, a: Action)
    ensures Redo(AddHistory(h, a)) == Step(AddHistory(h, a), None)
  {
  }

  /** Recording `n` actions keeps only the last 50 of them, in order. */
  function AddAll(h: History, actions: seq<Action>): (r: History)
    decreases |actions|
  {
    if |actions| == 0 then h else AddAll(AddHistory(h, actions[0]), actions[1..])
  }

  lemma {:induction false} AddAllKeepsNewest(h: History, actions: seq<Action>)
    requires Bounded(h)
    ensures Bounded(AddAll(h, actions))
    ensures AddAll(h, actions).undoStack == Newest(h.undoStack + actions)
    decreases |actions|
  {
    if |actions| > 0 {
      var h1 := AddHistory(h, actions[0]);
      AddHistoryBounded(h, actions[0]);
      AddAllKeepsNewest(h1, actions[1..]);
      NewestAfterAdd(h, actions);
    }
  }

  /** The last `MaxHistorySize` elements of a sequence. */
  function Newest(s: seq<Action>): (r: seq<Action>)
    ensures |r| <= MaxHistorySize
    ensures |s| <= MaxHistorySize ==> r == s
  {
    s[(if |s| > MaxHistorySize then |s| - MaxHistorySize else 0)..]
  }

  /** Recording the first of some actions onto a bounded history does not change which
      actions are the newest. */
  lemma NewestAfterAdd(h: History, actions: seq<Action>)
    requires Bounded(h) && |actions| > 0
    ensures Newest(AddHistory(h, actions[0]).undoStack + actions[1..]) == Newest(h.undoStack + actions)
  {
    var u := h.undoStack;
    var all := u + actions;
    if |u| >= MaxHistorySize {
      assert AddHistory(h, actions[0]).undoStack + actions[1..] == all[1..];
      var s1 := if |all| - 1 > MaxHistorySize then |all| - 1 - MaxHistorySize else 0;
      assert all[1..][s1..] == all[1 + s1..];
    } else {
      assert AddHistory(h, actions[0]).undoStack + actions[1..] == all;
    }
  }
}
