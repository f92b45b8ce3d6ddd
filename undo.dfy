/** The linear undo/redo history of the cleaned output: the texts before the
    current one (`past`, oldest first), the current text, and the texts that
    an undo stepped back over (`future`, next first). */
module Undo {

  /** A value of the history, for stating what the operations do. */
  datatype History = History(past: seq<string>, current: string, future: seq<string>)

  /** The history the page starts with. */
  const Initial: History := History([], "", [])

  /** `pushSnapshot(t)`: a text equal to the current one changes nothing;
      otherwise the current text moves onto `past`, unless it is empty, `t`
      becomes current and the redo list is dropped. Nothing already in
      `past` is lost, and at most one text joins it. */
  function Pushed(h: History, t: string): (r: History)
    ensures r.current == t
    ensures r == h <==> t == h.current
    ensures r == h || r.future == []
    ensures h.past <= r.past && |r.past| <= |h.past| + 1
  {
    if t == h.current then h
    else History(if h.current != "" then h.past + [h.current] else h.past, t, [])
  }

  /** `undo`: the last of `past` becomes current and the old current goes to
      the front of `future`; nothing happens when `past` is empty. Undo
      only moves the boundary: all texts, in order, stay as they were, and
      one text passes from `past` to `future`. */
  function Undone(h: History): (r: History)
    ensures r.past + [r.current] + r.future == h.past + [h.current] + h.future
    ensures h.past != [] ==> |r.past| == |h.past| - 1 && |r.future| == |h.future| + 1
  {
    if h.past == [] then h
    else
      var p := h.past;
      assert p[..|p| - 1] + [p[|p| - 1]] == p;
      History(p[..|p| - 1], p[|p| - 1], [h.current] + h.future)
  }

  /** `redo`: the first of `future` becomes current and the old current goes
      to the end of `past`; nothing happens when `future` is empty. Redo
      only moves the boundary the other way. */
  function Redone(h: History): (r: History)
    ensures r.past + [r.current] + r.future == h.past + [h.current] + h.future
    ensures h.future != [] ==> |r.past| == |h.past| + 1 && |r.future| == |h.future| - 1
  {
    if h.future == [] then h
    else
      var f := h.future;
      assert [f[0]] + f[1..] == f;
      History(h.past + [h.current], f[0], f[1..])
  }

  /** `canUndo` of `setButtons`. */
  predicate CanUndo(h: History) {
    |h.past| > 0
  }

  /** `canRedo` of `setButtons`. */
  predicate CanRedo(h: History) {
    |h.future| > 0
  }

  /** The `stack` object. */
  class UndoStack {
    var past: seq<string>
    var future: seq<string>
    var current: string

    constructor ()
      ensures Value() == Initial
    {
      past, future, current := [], [], "";
    }

    function Value(): History
      reads this
    {
      History(past, current, future)
    }

    method PushSnapshot(t: string)
      modifies this
      ensures Value() == Pushed(old(Value()), t)
    {
      if t == current {
        return;
      }
      if current != "" {
        past := past + [current];
      }
      current := t;
      future := [];
    }

    method Undo()
      modifies this
      ensures Value() == Undone(old(Value()))
    {
      if |past| == 0 {
        return;
      }
      var prev := past[|past| - 1];
      past := past[..|past| - 1];
      future := [current] + future;
      current := prev;
    }

    method Redo()
      modifies this
      ensures Value() == Redone(old(Value()))
    {
      if |future| == 0 {
        return;
      }
      var next := future[0];
      future := future[1..];
      past := past + [current];
      current := next;
    }

    /** The two button states `setButtons` computes. */
    method Buttons() returns (canUndo: bool, canRedo: bool)
      ensures canUndo == CanUndo(Value()) && canRedo == CanRedo(Value())
    {
      canUndo := |past| > 0;
      canRedo := |future| > 0;
    }
  }

  /** The undo button is enabled exactly when undo would change something. */
  lemma CanUndoIffChanges(h: History)
    ensures CanUndo(h) <==> Undone(h) != h
  {
    if CanUndo(h) {
      assert |Undone(h).past| < |h.past|;
    }
  }

  /** The redo button is enabled exactly when redo would change something. */
  lemma CanRedoIffChanges(h: History)
    ensures CanRedo(h) <==> Redone(h) != h
  {
    if CanRedo(h) {
      assert |Redone(h).future| < |h.future|;
    }
  }

  /** Undo then redo gives back the history. */
  lemma RedoUndoes(h: History)
    requires CanUndo(h)
    ensures Redone(Undone(h)) == h
  {
    assert h.past[..|h.past| - 1] + [h.past[|h.past| - 1]] == h.past;
    assert ([h.current] + h.future)[1..] == h.future;
  }

  /** Redo then undo gives back the history. */
  lemma UndoRedoes(h: History)
    requires CanRedo(h)
    ensures Undone(Redone(h)) == h
  {
    assert [h.future[0]] + h.future[1..] == h.future;
    assert (h.past + [h.current])[..|h.past|] == h.past;
  }

  /** A new snapshot makes it the current text and leaves nothing to redo;
      the old current text is kept for undo unless it was empty. */
  lemma PushNew(h: History, t: string)
    requires t != h.current
    ensures Pushed(h, t).current == t && !CanRedo(Pushed(h, t))
    ensures h.current != "" ==> CanUndo(Pushed(h, t)) && Undone(Pushed(h, t)) == History(h.past, h.current, [t])
    ensures h.current == "" ==> Pushed(h, t).past == h.past
  {
    if h.current != "" {
      var p := h.past + [h.current];
      assert p[..|p| - 1] == h.past;
    }
  }

  /** Snapshots a, b, c from the start, then two undos, a redo and a new
      snapshot d: the undos show b then a, the redo shows b, and after d
      nothing is left to redo while b can still be undone to. */
  lemma {:induction false} Walkthrough(a: string, b: string, c: string, d: string)
    requires a != "" && b != "" && c != ""
    requires a != b && b != c && d != b
    ensures var h3 := Pushed(Pushed(Pushed(Initial, a), b), c);
      var u1 := Undone(h3);
      var u2 := Undone(u1);
      var r1 := Redone(u2);
      var p4 := Pushed(r1, d);
      h3 == History([a, b], c, [])
      && u1.current == b && u2.current == a && r1.current == b
      && p4 == History([a, b], d, []) && !CanRedo(p4)
  {
    WalkPushes(a, b, c);
    WalkUndos(a, b, c);
    WalkRedo(a, b, c, d);
  }

  /** The walkthrough's three snapshots. */
  lemma WalkPushes(a: string, b: string, c: string)
    requires a != "" && b != "" && a != b && b != c
    ensures Pushed(Pushed(Pushed(Initial, a), b), c) == History([a, b], c, [])
  {
    assert Pushed(Initial, a) == History([], a, []);
    assert Pushed(History([], a, []), b) == History([a], b, []);
  }

  /** The walkthrough's two undos. */
  lemma WalkUndos(a: string, b: string, c: string)
    ensures Undone(History([a, b], c, [])) == History([a], b, [c])
    ensures Undone(History([a], b, [c])) == History([], a, [b, c])
  {
    var h, u := History([a, b], c, []), History([a], b, [c]);
    assert h.past[..|h.past| - 1] == [a] && h.past[|h.past| - 1] == b && [c] + [] == [c];
    assert u.past[..|u.past| - 1] == [] && u.past[|u.past| - 1] == a && [b] + [c] == [b, c];
  }

  /** The walkthrough's redo and last snapshot. */
  lemma WalkRedo(a: string, b: string, c: string, d: string)
    requires b != "" && d != b
    ensures Redone(History([], a, [b, c])) == History([a], b, [c])
    ensures Pushed(History([a], b, [c]), d) == History([a, b], d, [])
  {
    assert [b, c][1..] == [c] && [] + [a] == [a] && [a] + [b] == [a, b];
  }
}
