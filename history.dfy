/** Linear undo/redo over snapshots of the drawing surface.

    `undo` is the undo stack (oldest first, its top is the last element),
    `redo` the redo stack (its top is the last element, the most recently
    undone snapshot), and `surface` what the canvas currently shows. A
    snapshot is an opaque value of type `S`. */
module UndoHistory {

  datatype History<S> = History(undo: seq<S>, redo: seq<S>, surface: S)

  function Last<S>(s: seq<S>): S
    requires |s| > 0
  {
    s[|s| - 1]
  }

  /** Once seeded, the undo stack is never empty. */
  ghost predicate Valid<S>(h: History<S>)
  {
    |h.undo| >= 1
  }

  /** The canvas shows the top of the undo stack (true whenever no stroke is in progress). */
  ghost predicate Settled<S>(h: History<S>)
  {
    |h.undo| >= 1 && h.surface == Last(h.undo)
  }

  function Reverse<S>(s: seq<S>): (r: seq<S>)
    ensures |r| == |s|
    ensures forall i :: 0 <= i < |s| ==> r[i] == s[|s| - 1 - i]
  {
    if s == [] then [] else [s[|s| - 1]] + Reverse(s[..|s| - 1])
  }

  lemma ReverseSnoc<S>(s: seq<S>, x: S)
    ensures Reverse(s + [x]) == [x] + Reverse(s)
  {
    assert (s + [x])[..|s|] == s;
  }

  /** All states undo and redo can reach without a new commit: the undo stack
      followed by the redo stack read from its top down. */
  function Timeline<S>(h: History<S>): seq<S>
  {
    h.undo + Reverse(h.redo)
  }

  /** Where the current state sits on the timeline. */
  function Cursor<S>(h: History<S>): nat
  {
    |h.undo|
  }

  /** `setupStateManagement`: both stacks emptied, then the current surface saved. */
  function Init<S>(s: S): (h: History<S>)
    ensures h.undo == [s] && h.redo == [] && h.surface == s
    ensures Settled(h)
  {
    Commit(History([], [], s))
  }

  /** `saveState`: push the current surface onto the undo stack and drop the redo stack. */
  function Commit<S>(h: History<S>): (r: History<S>)
    ensures Settled(r) && r.surface == h.surface
    ensures r.redo == [] && Timeline(r) == h.undo + [h.surface]
    ensures Cursor(r) == Cursor(h) + 1 && Cursor(r) == |Timeline(r)|
  {
    History(h.undo + [h.surface], [], h.surface)
  }

  /** `undo`: with more than one entry, move the top of the undo stack onto the
      redo stack and show the new top; otherwise change nothing. */
  function Undo<S>(h: History<S>): (r: History<S>)
    ensures |h.undo| <= 1 ==> r == h
    ensures |h.undo| > 1 ==> Settled(r) && Cursor(r) == Cursor(h) - 1
    ensures Timeline(r) == Timeline(h)
    ensures |r.undo| + |r.redo| == |h.undo| + |h.redo|
    ensures Valid(h) ==> Valid(r)
  {
    if |h.undo| > 1 then
      var n := |h.undo|;
      ReverseSnoc(h.redo, h.undo[n - 1]);
      assert h.undo[..n - 1] + [h.undo[n - 1]] == h.undo;
      History(h.undo[..n - 1], h.redo + [h.undo[n - 1]], h.undo[n - 2])
    else
      h
  }

  /** `redo`: with a non-empty redo stack, move its top onto the undo stack and
      show it; otherwise change nothing. */
  function Redo<S>(h: History<S>): (r: History<S>)
    ensures |h.redo| == 0 ==> r == h
    ensures |h.redo| > 0 ==> Settled(r) && Cursor(r) == Cursor(h) + 1
    ensures Timeline(r) == Timeline(h)
    ensures |r.undo| + |r.redo| == |h.undo| + |h.redo|
    ensures Valid(h) ==> Valid(r)
  {
    if |h.redo| > 0 then
      var n := |h.redo|;
      ReverseSnoc(h.redo[..n - 1], h.redo[n - 1]);
      assert h.redo[..n - 1] + [h.redo[n - 1]] == h.redo;
      History(h.undo + [h.redo[n - 1]], h.redo[..n - 1], h.redo[n - 1])
    else
      h
  }

  /** A history is determined by its timeline, its cursor and its surface. */
  lemma Determined<S>(h1: History<S>, h2: History<S>)
    requires Timeline(h1) == Timeline(h2) && Cursor(h1) == Cursor(h2)
    requires h1.surface == h2.surface
    ensures h1 == h2
  {
    var n := |h1.undo|;
    assert h1.undo == Timeline(h1)[..n] == h2.undo;
    assert Reverse(h1.redo) == Timeline(h1)[n..] == Reverse(h2.redo);
    assert |h1.redo| == |h2.redo|;
    forall i | 0 <= i < |h1.redo|
      ensures h1.redo[i] == h2.redo[i]
    {
      var k := |h1.redo| - 1 - i;
      assert Reverse(h1.redo)[k] == h1.redo[i];
      assert Reverse(h2.redo)[k] == h2.redo[i];
    }
  }

  /** An undo that changes something is reversed by redo: both stacks come back
      exactly, and the canvas shows the snapshot that was on top. */
  lemma UndoThenRedo<S>(h: History<S>)
    requires |h.undo| > 1
    ensures Redo(Undo(h)) == h.(surface := Last(h.undo))
  {
    var u := Undo(h);
    assert |u.redo| > 0;
    Determined(Redo(u), h.(surface := Last(h.undo)));
  }

  /** A redo that changes something is reversed by undo. */
  lemma RedoThenUndo<S>(h: History<S>)
    requires Valid(h) && |h.redo| > 0
    ensures Undo(Redo(h)) == h.(surface := Last(h.undo))
  {
    var r := Redo(h);
    assert |r.undo| > 1;
    Determined(Undo(r), h.(surface := Last(h.undo)));
  }

  /** With nothing to undo, undo changes neither the stacks nor the canvas. */
  lemma UndoAtOldestIsNoOp<S>(h: History<S>)
    requires |h.undo| == 1
    ensures Undo(h) == h
  {
  }

  /** Undoing right after a commit brings back the previous stacks, except that
      the committed snapshot now waits on the redo stack. */
  lemma CommitThenUndo<S>(h: History<S>)
    requires Settled(h)
    ensures Undo(Commit(h)) == h.(redo := [h.surface])
  {
    var c := Commit(h);
    assert c.undo[..|c.undo| - 1] == h.undo;
  }

  function UndoN<S>(h: History<S>, k: nat): History<S>
    decreases k
  {
    if k == 0 then h else UndoN(Undo(h), k - 1)
  }

  function RedoN<S>(h: History<S>, k: nat): History<S>
    decreases k
  {
    if k == 0 then h else RedoN(Redo(h), k - 1)
  }

  function CommitN<S>(h: History<S>, n: nat): History<S>
    decreases n
  {
    if n == 0 then h else CommitN(Commit(h), n - 1)
  }

  /** `k` undos, fewer than the undo stack's size, move the cursor back `k`
      places along an unchanged timeline. */
  lemma {:induction false} UndoNMovesBack<S>(h: History<S>, k: nat)
    requires k < |h.undo|
    ensures Timeline(UndoN(h, k)) == Timeline(h)
    ensures Cursor(UndoN(h, k)) == Cursor(h) - k
    ensures k > 0 ==> Settled(UndoN(h, k))
    decreases k
  {
    if k > 0 {
      UndoNMovesBack(Undo(h), k - 1);
    }
  }

  /** `k` redos, at most the redo stack's size, move the cursor forward `k`
      places along an unchanged timeline. */
  lemma {:induction false} RedoNMovesForward<S>(h: History<S>, k: nat)
    requires k <= |h.redo|
    ensures Timeline(RedoN(h, k)) == Timeline(h)
    ensures Cursor(RedoN(h, k)) == Cursor(h) + k
    ensures k > 0 ==> Settled(RedoN(h, k))
    decreases k
  {
    if k > 0 {
      RedoNMovesForward(Redo(h), k - 1);
    }
  }

  /** From a settled state, `k` undos followed by `k` redos restore everything. */
  lemma {:induction false} UndoRedoRoundTrip<S>(h: History<S>, k: nat)
    requires Settled(h) && k < |h.undo|
    ensures RedoN(UndoN(h, k), k) == h
  {
    if k > 0 {
      var g := UndoN(h, k);
      UndoNMovesBack(h, k);
      assert |g.redo| == |h.redo| + k;
      RedoNMovesForward(g, k);
      var r := RedoN(g, k);
      assert r.undo == Timeline(h)[..|h.undo|] == h.undo;
      Determined(r, h);
    }
  }

  /** `n` commits grow the undo stack by `n` and leave the redo stack empty. */
  lemma {:induction false} CommitNGrows<S>(h: History<S>, n: nat)
    ensures |CommitN(h, n).undo| == |h.undo| + n
    ensures n > 0 ==> CommitN(h, n).redo == []
    decreases n
  {
    if n > 0 {
      CommitNGrows(Commit(h), n - 1);
    }
  }

  /** Linear history: `n` commits, then `k` undos (never past the oldest entry),
      then one more commit leave an empty redo stack and an undo stack of
      `m + n - k + 1` entries, where `m` is its size at the start. */
  lemma {:induction false} LinearHistory<S>(h: History<S>, n: nat, k: nat)
    requires k < |h.undo| + n
    ensures Commit(UndoN(CommitN(h, n), k)).redo == []
    ensures |Commit(UndoN(CommitN(h, n), k)).undo| == |h.undo| + n - k + 1
  {
    CommitNGrows(h, n);
    UndoNMovesBack(CommitN(h, n), k);
  }
}
