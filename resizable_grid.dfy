/** `ResizableGrid`: the panel tree the grid layout renders for a stream
    list: fixed shapes for one to four streams, and for five or more a column
    of rows holding `ceil(n / ceil(sqrt n))` streams each. */
module ResizableGrid {
  import opened Basics
  import opened Registry

  /** The rendered tree: a stream slot, a resize handle, a panel with its
      default and minimum size (percent), or a group laid out horizontally
      (side by side) or vertically (stacked). */
  datatype Node =
    | Slot(stream: Stream)
    | Handle
    | Panel(defaultSize: real, minSize: real, content: Node)
    | Group(horizontal: bool, children: seq<Node>)

  /** The streams of the slots of a tree, left to right and top to bottom. */
  function Leaves(n: Node): seq<Stream> {
    match n
    case Slot(st) => [st]
    case Handle => []
    case Panel(_, _, c) => Leaves(c)
    case Group(_, cs) => LeavesOf(cs)
  }

  function LeavesOf(cs: seq<Node>): seq<Stream> {
    if cs == [] then [] else Leaves(cs[0]) + LeavesOf(cs[1..])
  }

  /** Children of a group alternate content and handle, starting and ending
      with content: a handle only ever sits between two neighbours. */
  predicate Alternating(cs: seq<Node>) {
    |cs| % 2 == 1 && forall i :: 0 <= i < |cs| ==> (cs[i].Handle? <==> i % 2 == 1)
  }

  /** Every group of the tree alternates content and handles. */
  predicate Separated(n: Node) {
    match n
    case Slot(_) => true
    case Handle => false
    case Panel(_, _, c) => Separated(c)
    case Group(_, cs) => Alternating(cs) && forall i :: 0 <= i < |cs| && i % 2 == 0 ==> Separated(cs[i])
  }

  // ---------------------------------------------------------------------
  // Row arithmetic

  function CeilSqrtFrom(n: nat, r: nat): (k: nat)
    requires r == 0 || (r - 1) * (r - 1) < n
    ensures k * k >= n && (k == 0 || (k - 1) * (k - 1) < n)
    decreases n - r
  {
    if r * r >= n then r
    else
      assert r < n by {
        if r > 0 { assert r <= r * r; }
      }
      CeilSqrtFrom(n, r + 1)
  }

  /** `Math.ceil(Math.sqrt(n))`: the least `k` with `k * k >= n`. */
  function CeilSqrt(n: nat): (k: nat)
    ensures k * k >= n && (k == 0 || (k - 1) * (k - 1) < n)
  {
    CeilSqrtFrom(n, 0)
  }

  /** `Math.ceil(a / b)`: the least `k` with `k * b >= a`. */
  function CeilDiv(a: nat, b: nat): (k: nat)
    requires b > 0
    ensures k * b >= a && (k == 0 || (k - 1) * b < a)
  {
    var q := a / b;
    if q * b == a then q else q + 1
  }

  /** `l.slice(start, end)`: both ends clamped to the length. */
  function Slice(l: seq<Stream>, start: nat, end: nat): (r: seq<Stream>)
    ensures |r| <= |l| && (start < end && start < |l| ==> r != [])
  {
    var s := if start < |l| then start else |l|;
    var e := if end < |l| then end else |l|;
    if s < e then l[s..e] else []
  }

  const MinSize := 20.0
  const RowMinSize := 10.0

  function HalfPanel(content: Node): Node {
    Panel(50.0, MinSize, content)
  }

  /** The children of one row: a panel per stream, a handle after every panel
      but the last. */
  function RowChildren(rs: seq<Stream>, colIndex: nat): seq<Node>
    decreases |rs| - colIndex
  {
    if colIndex >= |rs| then []
    else
      [Panel(100.0 / (|rs| as real), RowMinSize, Slot(rs[colIndex]))]
      + (if colIndex < |rs| - 1 then [Handle] else [])
      + RowChildren(rs, colIndex + 1)
  }

  /** `streams.slice(rowIndex * perRow, (rowIndex + 1) * perRow)`. */
  function RowStreams(l: seq<Stream>, perRow: nat, rowIndex: nat): seq<Stream> {
    Slice(l, rowIndex * perRow, (rowIndex + 1) * perRow)
  }

  /** What one row renders: nothing when it is empty, else its panel, then a
      handle unless it is the last row. */
  function RowNodes(rs: seq<Stream>, rows: nat, rowIndex: nat): seq<Node>
    requires rowIndex < rows
  {
    if rs == [] then []
    else [Panel(100.0 / (rows as real), RowMinSize, Group(true, RowChildren(rs, 0)))]
         + (if rowIndex < rows - 1 then [Handle] else [])
  }

  /** The rows from `rowIndex` on. */
  function RowsFrom(l: seq<Stream>, rows: nat, perRow: nat, rowIndex: nat): seq<Node>
    decreases rows - rowIndex
  {
    if rowIndex >= rows then []
    else RowNodes(RowStreams(l, perRow, rowIndex), rows, rowIndex) + RowsFrom(l, rows, perRow, rowIndex + 1)
  }

  function RowCount(n: nat): nat {
    CeilSqrt(n)
  }

  function PerRow(n: nat): nat
    requires n > 0
  {
    assert CeilSqrt(n) > 0;
    CeilDiv(n, CeilSqrt(n))
  }

  /** The tree `ResizableGrid` renders for `l`, `None` for no streams. */
  function Tiling(l: seq<Stream>): Option<Node> {
    var count := |l|;
    if count == 0 then None
    else if count == 1 then Some(Slot(l[0]))
    else if count == 2 then
      Some(Group(true, [HalfPanel(Slot(l[0])), Handle, HalfPanel(Slot(l[1]))]))
    else if count == 3 then
      Some(Group(false, [
        HalfPanel(Group(true, [HalfPanel(Slot(l[0])), Handle, HalfPanel(Slot(l[1]))])),
        Handle,
        HalfPanel(Slot(l[2]))]))
    else if count == 4 then
      Some(Group(false, [
        HalfPanel(Group(true, [HalfPanel(Slot(l[0])), Handle, HalfPanel(Slot(l[1]))])),
        Handle,
        HalfPanel(Group(true, [HalfPanel(Slot(l[2])), Handle, HalfPanel(Slot(l[3]))]))]))
    else
      Some(Group(false, RowsFrom(l, RowCount(count), PerRow(count), 0)))
  }

  // ---------------------------------------------------------------------
  // Properties

  lemma MulMono(a: nat, b: nat, c: nat)
    requires b >= c
    ensures a * b >= a * c
  {
  }

  /** `p` rows of `r` (or `r` rows of `p`) leave the last row non-empty when
      `r` is the least root bound and `p` the least per-row count. */
  lemma PartitionBound(n: nat, r: nat, p: nat)
    requires n > 0 && r > 0
    requires r * r >= n && (r - 1) * (r - 1) < n
    requires p * r >= n && (p == 0 || (p - 1) * r < n)
    ensures (r - 1) * p < n
  {
    assert p <= r by {
      if p > r {
        MulMono(r, p - 1, r);
      }
    }
    if p < r {
      MulMono(r - 1, r - 1, p);
    } else {
      assert (r - 1) * p == (p - 1) * r;
    }
  }

  /** With `rows = ceil(sqrt n)` and `perRow = ceil(n / rows)`, the rows hold
      every stream and the last row is never empty: `(rows - 1) * perRow < n`. */
  lemma RowsFit(n: nat)
    requires n > 0
    ensures RowCount(n) > 0 && PerRow(n) > 0
    ensures RowCount(n) * PerRow(n) >= n
    ensures (RowCount(n) - 1) * PerRow(n) < n
  {
    var r, p := RowCount(n), PerRow(n);
    assert r > 0;
    assert p * r >= n;
    PartitionBound(n, r, p);
    assert r * p == p * r;
  }

  lemma {:induction false} LeavesOfCons(x: Node, t: seq<Node>)
    ensures LeavesOf([x] + t) == Leaves(x) + LeavesOf(t)
  {
    assert ([x] + t)[0] == x;
    assert ([x] + t)[1..] == t;
  }

  lemma {:induction false} LeavesOfConcat(a: seq<Node>, b: seq<Node>)
    ensures LeavesOf(a + b) == LeavesOf(a) + LeavesOf(b)
  {
    if a != [] {
      assert a + b == [a[0]] + (a[1..] + b);
      LeavesOfCons(a[0], a[1..] + b);
      LeavesOfConcat(a[1..], b);
      assert a == [a[0]] + a[1..];
      LeavesOfCons(a[0], a[1..]);
    } else {
      assert a + b == b;
    }
  }

  /** A content node followed by an optional handle and the rest contributes
      the content's leaves. */
  lemma LeavesOfPanelHead(x: Node, hs: seq<Node>, t: seq<Node>)
    requires hs == [] || hs == [Handle]
    ensures LeavesOf([x] + hs + t) == Leaves(x) + LeavesOf(t)
  {
    assert [x] + hs + t == [x] + (hs + t);
    LeavesOfCons(x, hs + t);
    if hs == [Handle] {
      LeavesOfCons(Handle, t);
    }
  }

  /** The leaves of one row are its streams, in order. */
  lemma {:induction false} RowChildrenLeaves(rs: seq<Stream>, colIndex: nat)
    requires colIndex <= |rs|
    ensures LeavesOf(RowChildren(rs, colIndex)) == rs[colIndex..]
    decreases |rs| - colIndex
  {
    if colIndex < |rs| {
      var panel := Panel(100.0 / (|rs| as real), RowMinSize, Slot(rs[colIndex]));
      var hs := if colIndex < |rs| - 1 then [Handle] else [];
      RowChildrenLeaves(rs, colIndex + 1);
      LeavesOfPanelHead(panel, hs, RowChildren(rs, colIndex + 1));
      assert rs[colIndex..] == [rs[colIndex]] + rs[colIndex + 1..];
    }
  }

  /** A row cut out of the list, followed by the rest from its end, is the
      rest from its start. */
  lemma SliceSplit(l: seq<Stream>, s: nat, p: nat)
    ensures Slice(l, s, s + p) + l[Min(s + p, |l|)..] == l[Min(s, |l|)..]
  {
  }

  function Min(a: nat, b: nat): nat {
    if a <= b then a else b
  }

  /** One row renders exactly its streams. */
  lemma RowNodesLeaves(rs: seq<Stream>, rows: nat, rowIndex: nat)
    requires rowIndex < rows
    ensures LeavesOf(RowNodes(rs, rows, rowIndex)) == rs
  {
    if rs != [] {
      var row := Panel(100.0 / (rows as real), RowMinSize, Group(true, RowChildren(rs, 0)));
      var hs := if rowIndex < rows - 1 then [Handle] else [];
      LeavesOfPanelHead(row, hs, []);
      assert [row] + hs + [] == RowNodes(rs, rows, rowIndex);
      RowChildrenLeaves(rs, 0);
    }
  }

  /** One row followed by the streams after it is the streams from its start. */
  lemma RowStreamsSplit(l: seq<Stream>, perRow: nat, rowIndex: nat)
    ensures RowStreams(l, perRow, rowIndex) + l[Min((rowIndex + 1) * perRow, |l|)..]
      == l[Min(rowIndex * perRow, |l|)..]
  {
    var s := rowIndex * perRow;
    assert (rowIndex + 1) * perRow == s + perRow;
    SliceSplit(l, s, perRow);
  }

  /** The rows from `rowIndex` on hold the streams from `rowIndex * perRow` on. */
  lemma {:induction false} RowsFromLeaves(l: seq<Stream>, rows: nat, perRow: nat, rowIndex: nat)
    requires rows * perRow >= |l| && rowIndex <= rows
    ensures LeavesOf(RowsFrom(l, rows, perRow, rowIndex)) == l[Min(rowIndex * perRow, |l|)..]
    decreases rows - rowIndex
  {
    if rowIndex < rows {
      var rs := RowStreams(l, perRow, rowIndex);
      RowsFromLeaves(l, rows, perRow, rowIndex + 1);
      LeavesOfConcat(RowNodes(rs, rows, rowIndex), RowsFrom(l, rows, perRow, rowIndex + 1));
      RowNodesLeaves(rs, rows, rowIndex);
      RowStreamsSplit(l, perRow, rowIndex);
    }
  }

  /** Every row of the grid holds between 1 and `perRow` streams. */
  lemma RowSizes(l: seq<Stream>, rowIndex: nat)
    requires |l| > 0 && rowIndex < RowCount(|l|)
    ensures 1 <= |RowStreams(l, PerRow(|l|), rowIndex)| <= PerRow(|l|)
  {
    var n, p := |l|, PerRow(|l|);
    RowsFit(n);
    RowNonEmpty(l, RowCount(n), p, rowIndex);
    assert (rowIndex + 1) * p == rowIndex * p + p;
  }

  /** With `(rows - 1) * perRow < n`, no row is empty. */
  lemma RowNonEmpty(l: seq<Stream>, rows: nat, perRow: nat, rowIndex: nat)
    requires rowIndex < rows && perRow > 0 && (rows - 1) * perRow < |l|
    ensures RowStreams(l, perRow, rowIndex) != []
  {
    MulMono(perRow, rows - 1, rowIndex);
    assert rowIndex * perRow == perRow * rowIndex && (rows - 1) * perRow == perRow * (rows - 1);
    assert (rowIndex + 1) * perRow == rowIndex * perRow + perRow;
  }

  lemma PairLeaves(h: bool, a: Node, b: Node)
    ensures Leaves(Group(h, [a, Handle, b])) == Leaves(a) + Leaves(b)
  {
    LeavesOfCons(b, []);
    LeavesOfCons(Handle, [b]);
    LeavesOfCons(a, [Handle, b]);
    assert [a, Handle, b] == [a] + [Handle, b] && [Handle, b] == [Handle] + [b] && [b] == [b] + [];
  }

  /** The slots of the tiling are the streams, in list order, each once. */
  lemma TilingLeaves(l: seq<Stream>)
    ensures Tiling(l).None? <==> l == []
    ensures Tiling(l).Some? ==> Leaves(Tiling(l).value) == l
  {
    var n := |l|;
    if n == 2 {
      PairLeaves(true, HalfPanel(Slot(l[0])), HalfPanel(Slot(l[1])));
      assert l == [l[0], l[1]];
    } else if n == 3 {
      var top := Group(true, [HalfPanel(Slot(l[0])), Handle, HalfPanel(Slot(l[1]))]);
      PairLeaves(true, HalfPanel(Slot(l[0])), HalfPanel(Slot(l[1])));
      PairLeaves(false, HalfPanel(top), HalfPanel(Slot(l[2])));
      assert l == [l[0], l[1]] + [l[2]];
    } else if n == 4 {
      var top := Group(true, [HalfPanel(Slot(l[0])), Handle, HalfPanel(Slot(l[1]))]);
      var bottom := Group(true, [HalfPanel(Slot(l[2])), Handle, HalfPanel(Slot(l[3]))]);
      PairLeaves(true, HalfPanel(Slot(l[0])), HalfPanel(Slot(l[1])));
      PairLeaves(true, HalfPanel(Slot(l[2])), HalfPanel(Slot(l[3])));
      PairLeaves(false, HalfPanel(top), HalfPanel(bottom));
      assert l == [l[0], l[1]] + [l[2], l[3]];
    } else if n >= 5 {
      RowsFit(n);
      RowsFromLeaves(l, RowCount(n), PerRow(n), 0);
    }
  }

  /** One row alternates panels and handles. */
  lemma {:induction false} RowChildrenAlternate(rs: seq<Stream>, colIndex: nat)
    requires colIndex < |rs|
    ensures Alternating(RowChildren(rs, colIndex))
    ensures forall i :: 0 <= i < |RowChildren(rs, colIndex)| && i % 2 == 0 ==>
      Separated(RowChildren(rs, colIndex)[i])
    decreases |rs| - colIndex
  {
    var cs := RowChildren(rs, colIndex);
    var panel := Panel(100.0 / (|rs| as real), RowMinSize, Slot(rs[colIndex]));
    if colIndex < |rs| - 1 {
      RowChildrenAlternate(rs, colIndex + 1);
      var tail := RowChildren(rs, colIndex + 1);
      assert cs == [panel, Handle] + tail;
      forall i | 0 <= i < |cs| ensures (cs[i].Handle? <==> i % 2 == 1) && (i % 2 == 0 ==> Separated(cs[i])) {
        if i >= 2 { assert cs[i] == tail[i - 2]; }
      }
    } else {
      assert cs == [panel];
    }
  }

  /** Every content child of a group is itself well separated. */
  predicate ContentSeparated(cs: seq<Node>) {
    forall i :: 0 <= i < |cs| && i % 2 == 0 ==> Separated(cs[i])
  }

  /** Putting a content node and a handle in front keeps a group's children
      alternating. */
  lemma AlternatingCons(x: Node, t: seq<Node>)
    requires Separated(x) && Alternating(t) && ContentSeparated(t)
    ensures Alternating([x, Handle] + t) && ContentSeparated([x, Handle] + t)
  {
    var cs := [x, Handle] + t;
    forall i | 0 <= i < |cs| ensures (cs[i].Handle? <==> i % 2 == 1) && (i % 2 == 0 ==> Separated(cs[i])) {
      if i >= 2 { assert cs[i] == t[i - 2]; }
    }
  }

  /** With no empty row, the rows alternate with handles. */
  lemma {:induction false} RowsAlternate(l: seq<Stream>, rows: nat, perRow: nat, rowIndex: nat)
    requires rowIndex < rows && perRow > 0 && (rows - 1) * perRow < |l|
    ensures Alternating(RowsFrom(l, rows, perRow, rowIndex))
    ensures ContentSeparated(RowsFrom(l, rows, perRow, rowIndex))
    decreases rows - rowIndex
  {
    var rs := RowStreams(l, perRow, rowIndex);
    RowNonEmpty(l, rows, perRow, rowIndex);
    var row := Panel(100.0 / (rows as real), RowMinSize, Group(true, RowChildren(rs, 0)));
    assert Separated(row) by { RowChildrenAlternate(rs, 0); }
    var tail := RowsFrom(l, rows, perRow, rowIndex + 1);
    if rowIndex < rows - 1 {
      RowsAlternate(l, rows, perRow, rowIndex + 1);
      assert RowNodes(rs, rows, rowIndex) == [row, Handle];
      AlternatingCons(row, tail);
    } else {
      assert RowNodes(rs, rows, rowIndex) == [row] && tail == [];
      assert RowsFrom(l, rows, perRow, rowIndex) == [row];
    }
  }

  lemma PairSeparated(h: bool, a: Node, b: Node)
    requires Separated(a) && Separated(b)
    ensures Separated(Group(h, [a, Handle, b]))
  {
    var cs := [a, Handle, b];
    assert forall i :: 0 <= i < |cs| && i % 2 == 0 ==> cs[i] == a || cs[i] == b;
  }

  /** Resize handles appear only between two neighbouring panels, in every
      group of the tiling: never first, never last, never two in a row. */
  lemma TilingSeparated(l: seq<Stream>)
    requires l != []
    ensures Separated(Tiling(l).value)
  {
    var n := |l|;
    if n == 2 || n == 3 || n == 4 {
      var top := Group(true, [HalfPanel(Slot(l[0])), Handle, HalfPanel(Slot(l[1]))]);
      PairSeparated(true, HalfPanel(Slot(l[0])), HalfPanel(Slot(l[1])));
      if n == 3 {
        PairSeparated(false, HalfPanel(top), HalfPanel(Slot(l[2])));
      } else if n == 4 {
        var bottom := Group(true, [HalfPanel(Slot(l[2])), Handle, HalfPanel(Slot(l[3]))]);
        PairSeparated(true, HalfPanel(Slot(l[2])), HalfPanel(Slot(l[3])));
        PairSeparated(false, HalfPanel(top), HalfPanel(bottom));
      }
    } else if n >= 5 {
      RowsFit(n);
      RowsAlternate(l, RowCount(n), PerRow(n), 0);
    }
  }
}
