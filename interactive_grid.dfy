/** `InteractiveGrid`: the hand-made split layout. One stream fills the view,
    two sit side by side at `columns[0]`% and the rest, three or more streams
    form a two-by-two grid cut at `columns[0]`% and `rows[0]`%. Dragging a
    splitter writes the clamped pointer percentage to entry 0 of the axis. */
module InteractiveGrid {
  import opened Basics
  import opened Registry
  import opened StreamLists
  import opened RegistryFacts
  import opened Store

  const MinSplit := 10.0
  const MaxSplit := 90.0

  /** `Math.min(Math.max(10, percent), 90)`. */
  function Clamp(percent: real): (r: real)
    ensures MinSplit <= r <= MaxSplit
    ensures MinSplit <= percent <= MaxSplit ==> r == percent
    ensures percent < MinSplit ==> r == MinSplit
    ensures percent > MaxSplit ==> r == MaxSplit
  {
    MinReal(MaxReal(MinSplit, percent), MaxSplit)
  }

  /** One cell of the view: the stream it shows, if any, and its width or
      height in percent. */
  datatype Pane = Pane(stream: Option<Stream>, size: real)

  /** What the component renders. */
  datatype View =
    | Nothing
    | Full(stream: Stream)
    | SideBySide(left: Pane, right: Pane)
    | TwoByTwo(topHeight: real, bottomHeight: real, top: seq<Pane>, bottom: seq<Pane>)

  /** `list[i]` as the optional value `list[i] && ...` tests. */
  function At(l: seq<Stream>, i: nat): Option<Stream> {
    if i < |l| then Some(l[i]) else None
  }

  /** `l.slice(start, end)` with both ends clamped to the length. */
  function SliceList(l: seq<Stream>, start: nat, end: nat): seq<Stream> {
    var e := if end < |l| then end else |l|;
    if start < e then l[start..e] else []
  }

  /** The rendered view of the stream list under the given proportions. */
  function Render(l: seq<Stream>, p: Proportions): View
    requires |p.columns| > 0 && |p.rows| > 0
  {
    var col, row := p.columns[0], p.rows[0];
    if |l| == 0 then Nothing
    else if |l| == 1 then Full(l[0])
    else if |l| == 2 then SideBySide(Pane(Some(l[0]), col), Pane(Some(l[1]), 100.0 - col))
    else
      var topStreams := SliceList(l, 0, 2);
      var bottomStreams := SliceList(l, 2, 4);
      TwoByTwo(row, 100.0 - row,
        [Pane(At(topStreams, 0), col), Pane(At(topStreams, 1), 100.0 - col)],
        [Pane(At(bottomStreams, 0), col), Pane(At(bottomStreams, 1), 100.0 - col)])
  }

  function PaneStream(pane: Pane): seq<Stream> {
    if pane.stream.Some? then [pane.stream.value] else []
  }

  function PaneStreams(ps: seq<Pane>): seq<Stream> {
    if ps == [] then [] else PaneStream(ps[0]) + PaneStreams(ps[1..])
  }

  /** The streams a view shows, left to right and top to bottom. */
  function Shown(v: View): seq<Stream> {
    match v
    case Nothing => []
    case Full(st) => [st]
    case SideBySide(a, b) => PaneStreams([a, b])
    case TwoByTwo(_, _, top, bottom) => PaneStreams(top + bottom)
  }

  lemma PaneStreamsFour(a: Pane, b: Pane, c: Pane, d: Pane)
    ensures PaneStreams([a, b] + [c, d]) == PaneStream(a) + PaneStream(b) + PaneStream(c) + PaneStream(d)
  {
    assert [a, b] + [c, d] == [a, b, c, d];
    assert PaneStreams([d]) == PaneStream(d) by { assert [d][1..] == []; }
    assert PaneStreams([c, d]) == PaneStream(c) + PaneStreams([d]) by { assert [c, d][1..] == [d]; }
    assert PaneStreams([b, c, d]) == PaneStream(b) + PaneStreams([c, d]) by { assert [b, c, d][1..] == [c, d]; }
    assert PaneStreams([a, b, c, d]) == PaneStream(a) + PaneStreams([b, c, d]) by { assert [a, b, c, d][1..] == [b, c, d]; }
  }

  /** The view shows the first four streams, in list order, and no other:
      nothing for none, the whole list for up to four. */
  lemma ShownIsFirstFour(l: seq<Stream>, p: Proportions)
    requires |p.columns| > 0 && |p.rows| > 0
    ensures Shown(Render(l, p)) == l[..if |l| < 4 then |l| else 4]
  {
    var v := Render(l, p);
    if |l| == 2 {
      var a, b := Pane(Some(l[0]), p.columns[0]), Pane(Some(l[1]), 100.0 - p.columns[0]);
      assert PaneStreams([b]) == [l[1]] by { assert [b][1..] == []; }
      assert PaneStreams([a, b]) == [l[0]] + PaneStreams([b]) by { assert [a, b][1..] == [b]; }
      assert l[..2] == [l[0], l[1]];
    } else if |l| >= 3 {
      var top, bottom := v.top, v.bottom;
      PaneStreamsFour(top[0], top[1], bottom[0], bottom[1]);
      assert top == [top[0], top[1]] && bottom == [bottom[0], bottom[1]];
      if |l| == 3 {
        assert l[..3] == [l[0], l[1], l[2]];
      } else {
        assert l[..4] == [l[0], l[1], l[2], l[3]];
      }
    }
  }

  /** With unique ids, a stream past index 3 is never shown. */
  lemma NoSlotBeyondFour(l: seq<Stream>, p: Proportions, i: nat)
    requires |p.columns| > 0 && |p.rows| > 0
    requires IdsUnique(l) && 4 <= i < |l|
    ensures l[i] !in Shown(Render(l, p))
  {
    ShownIsFirstFour(l, p);
  }

  /** Side by side, the two widths add up to the whole; in the two-by-two
      grid each row's widths and the two row heights do. */
  lemma SizesSumToWhole(l: seq<Stream>, p: Proportions)
    requires |p.columns| > 0 && |p.rows| > 0
    ensures var v := Render(l, p);
      && (v.SideBySide? ==> v.left.size == p.columns[0] && v.left.size + v.right.size == 100.0)
      && (v.TwoByTwo? ==>
            (&& v.topHeight == p.rows[0] && v.topHeight + v.bottomHeight == 100.0
             && |v.top| == 2 && |v.bottom| == 2
             && v.top[0].size + v.top[1].size == 100.0 && v.bottom[0].size + v.bottom[1].size == 100.0
             && v.top[0].size == v.bottom[0].size == p.columns[0]))
  {
  }

  /** The view's shape follows the count alone. */
  lemma RenderShape(l: seq<Stream>, p: Proportions)
    requires |p.columns| > 0 && |p.rows| > 0
    ensures var v := Render(l, p);
      && (v.Nothing? <==> |l| == 0)
      && (v.Full? <==> |l| == 1)
      && (v.SideBySide? <==> |l| == 2)
      && (v.TwoByTwo? <==> |l| >= 3)
      && (v.Full? ==> v.stream == l[0])
  {
  }

  /** The pointer position a `mousemove` handler of the given axis reads:
      `clientX` across the container for columns, `clientY` down it for rows. */
  function PercentFor(axis: Axis, colPercent: real, rowPercent: real): real {
    if axis == ColumnsAxis then colPercent else rowPercent
  }

  /** One `mousemove` event as the installed handlers see it: each pair, in
      the order it was installed, writes its own axis. */
  function MoveAll(s: State, pairs: seq<Axis>, colPercent: real, rowPercent: real): (r: State)
    requires forall a :: a in pairs ==> |AxisOf(s.gridProportions, a)| > 0
    ensures forall a :: |AxisOf(r.gridProportions, a)| == |AxisOf(s.gridProportions, a)|
    decreases |pairs|
  {
    if pairs == [] then s
    else
      var axis := pairs[|pairs| - 1];
      assert forall a :: a in pairs[..|pairs| - 1] ==> a in pairs;
      var m := MoveAll(s, pairs[..|pairs| - 1], colPercent, rowPercent);
      DragMoveEffect(m, axis, PercentFor(axis, colPercent, rowPercent));
      Step(m, UpdateGridProportionAction(axis, 0, Clamp(PercentFor(axis, colPercent, rowPercent))))
  }

  /** A move with several pairs installed: every axis that has a pair gets
      its clamped pointer position at entry 0, however many pairs it has and
      in whatever order they were installed; an axis without a pair and the
      rest of the state are untouched. */
  lemma {:induction false} MoveAllEffect(s: State, pairs: seq<Axis>, colPercent: real, rowPercent: real)
    requires forall a :: a in pairs ==> |AxisOf(s.gridProportions, a)| > 0
    ensures var r := MoveAll(s, pairs, colPercent, rowPercent);
      && r == s.(gridProportions := r.gridProportions)
      && (forall a :: a in pairs ==> AxisOf(r.gridProportions, a)[0] == Clamp(PercentFor(a, colPercent, rowPercent)))
      && (forall a :: a !in pairs ==> AxisOf(r.gridProportions, a) == AxisOf(s.gridProportions, a))
  {
    if pairs != [] {
      var init := pairs[..|pairs| - 1];
      var axis := pairs[|pairs| - 1];
      assert pairs == init + [axis];
      MoveAllEffect(s, init, colPercent, rowPercent);
      var m := MoveAll(s, init, colPercent, rowPercent);
      DragMoveEffect(m, axis, PercentFor(axis, colPercent, rowPercent));
    }
  }

  /** The splitter state of the component (`isResizing`) and the pointer
      listener pairs the presses have installed on the document, with the
      store the moves write to. Each press adds a pair; only a `mouseup` the
      document receives removes them. */
  class Splitter {
    var isResizing: Option<Axis>
    /** The axis of each installed `mousemove`/`mouseup` pair, oldest first. */
    var listening: seq<Axis>
    const store: StreamStore

    /** `isResizing` names the axis of the latest press while pairs are installed. */
    predicate Valid()
      reads this
    {
      && (listening == [] ==> isResizing.None?)
      && (listening != [] ==> isResizing == Some(listening[|listening| - 1]))
    }

    constructor (store: StreamStore)
      ensures this.store == store && isResizing.None? && listening == [] && Valid()
    {
      this.store := store;
      isResizing := None;
      listening := [];
    }

    /** `handleMouseDown(type)`: mark the axis as resizing and add a pair. */
    method MouseDown(axis: Axis)
      modifies this
      ensures isResizing == Some(axis) && listening == old(listening) + [axis] && Valid()
    {
      isResizing := Some(axis);
      listening := listening + [axis];
    }

    /** A `mousemove`: every installed pair, oldest first, sets entry 0 of its
        axis to the clamped pointer position, given in percent of the
        container along that axis. */
    method MouseMove(colPercent: real, rowPercent: real)
      requires forall a :: a in listening ==> |AxisOf(store.gridProportions, a)| > 0
      modifies store
      ensures store.State() == MoveAll(old(store.State()), listening, colPercent, rowPercent)
      ensures old(store.Valid()) ==> store.Valid()
    {
      ghost var s := store.State();
      var i := 0;
      while i < |listening|
        invariant 0 <= i <= |listening|
        invariant store.State() == MoveAll(s, listening[..i], colPercent, rowPercent)
        invariant store.streams == s.streams
      {
        var axis := listening[i];
        assert listening[..i + 1][..i] == listening[..i];
        MoveAllEffect(s, listening[..i], colPercent, rowPercent);
        store.UpdateGridProportion(axis, 0, Clamp(PercentFor(axis, colPercent, rowPercent)));
        i := i + 1;
      }
      assert listening[..i] == listening;
    }

    /** `mouseup`: every installed pair's handler runs, so resizing stops and
        all pairs are removed. */
    method MouseUp()
      modifies this
      ensures isResizing.None? && listening == [] && Valid()
    {
      isResizing := None;
      listening := [];
    }
  }

  /** A drag lands the split inside [10, 90]: the dragged axis gets the
      clamped value at entry 0 and only that axis changes, so neither pane of
      the split can be dragged below 10%. */
  lemma DragMoveEffect(s: State, axis: Axis, percent: real)
    requires |AxisOf(s.gridProportions, axis)| > 0
    ensures var r := Step(s, UpdateGridProportionAction(axis, 0, Clamp(percent)));
      && |AxisOf(r.gridProportions, axis)| == |AxisOf(s.gridProportions, axis)|
      && MinSplit <= AxisOf(r.gridProportions, axis)[0] <= MaxSplit
      && MinSplit <= 100.0 - AxisOf(r.gridProportions, axis)[0] <= MaxSplit
      && (axis == ColumnsAxis ==> r.gridProportions.rows == s.gridProportions.rows)
      && (axis == RowsAxis ==> r.gridProportions.columns == s.gridProportions.columns)
      && r == s.(gridProportions := r.gridProportions)
  {
    var v := Clamp(percent);
    UpdateGridProportionOtherAxis(s, axis, 0, v);
    AdjustProportionsEntries(AxisOf(s.gridProportions, axis), 0, v);
  }
}
