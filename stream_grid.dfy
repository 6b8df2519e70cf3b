/** `StreamGrid`: drag and drop over the stream list, the snap flyout, and
    where each slot is placed in the featured, sidebar and columns layouts. */
module StreamGrid {
  import opened Basics
  import opened Registry
  import opened StreamLists
  import opened RegistryFacts
  import opened IdOrder
  import opened Store

  // ---------------------------------------------------------------------
  // arrayMove

  /** `l` without its entry at `i`. */
  function RemoveAt(l: seq<Stream>, i: nat): (r: seq<Stream>)
    requires i < |l|
    ensures |r| == |l| - 1
  {
    l[..i] + l[i + 1..]
  }

  /** `l` with `x` inserted so that it sits at index `i`. */
  function InsertAt(l: seq<Stream>, i: nat, x: Stream): (r: seq<Stream>)
    requires i <= |l|
    ensures |r| == |l| + 1
  {
    l[..i] + [x] + l[i..]
  }

  /** `arrayMove(l, from, to)`: take the entry at `from` out, then insert it
      at `to`. */
  function ArrayMove(l: seq<Stream>, from: nat, to: nat): (r: seq<Stream>)
    requires from < |l| && to < |l|
    ensures |r| == |l|
  {
    InsertAt(RemoveAt(l, from), to, l[from])
  }

  lemma InsertRemove(l: seq<Stream>, i: nat, x: Stream)
    requires i <= |l|
    ensures RemoveAt(InsertAt(l, i, x), i) == l
  {
    assert InsertAt(l, i, x)[..i] == l[..i];
    assert InsertAt(l, i, x)[i + 1..] == l[i..];
  }

  lemma RemoveInsert(l: seq<Stream>, i: nat)
    requires i < |l|
    ensures InsertAt(RemoveAt(l, i), i, l[i]) == l
  {
    assert RemoveAt(l, i)[..i] == l[..i];
    assert RemoveAt(l, i)[i..] == l[i + 1..];
  }

  /** The moved entry lands at the target index, and the other entries keep
      their relative order: taking it out again gives the list without it. */
  lemma ArrayMoveEffect(l: seq<Stream>, from: nat, to: nat)
    requires from < |l| && to < |l|
    ensures ArrayMove(l, from, to)[to] == l[from]
    ensures RemoveAt(ArrayMove(l, from, to), to) == RemoveAt(l, from)
    ensures multiset(ArrayMove(l, from, to)) == multiset(l)
  {
    var rest := RemoveAt(l, from);
    InsertRemove(rest, to, l[from]);
    assert ArrayMove(l, from, to)[to] == l[from] by {
      assert InsertAt(rest, to, l[from]) == rest[..to] + [l[from]] + rest[to..];
    }
    calc {
      multiset(ArrayMove(l, from, to));
      { assert InsertAt(rest, to, l[from]) == rest[..to] + [l[from]] + rest[to..];
        assert rest == rest[..to] + rest[to..]; }
      multiset(rest) + multiset{l[from]};
      { assert l == l[..from] + [l[from]] + l[from + 1..]; }
      multiset(l);
    }
  }

  /** Moving back from the target index to the source index undoes a move. */
  lemma ArrayMoveUndo(l: seq<Stream>, from: nat, to: nat)
    requires from < |l| && to < |l|
    ensures ArrayMove(ArrayMove(l, from, to), to, from) == l
  {
    var r := ArrayMove(l, from, to);
    ArrayMoveEffect(l, from, to);
    RemoveInsert(l, from);
  }

  lemma ArrayMoveInPlace(l: seq<Stream>, i: nat)
    requires i < |l|
    ensures ArrayMove(l, i, i) == l
  {
    RemoveInsert(l, i);
  }

  // ---------------------------------------------------------------------
  // handleDragEnd

  /** What `handleDragEnd` needs: a drop on another entry names two listed
      ids. (`arrayMove` with a missing index is not modelled.) */
  predicate DropDefined(s: State, active: string, over: Option<string>) {
    over.Some? && over.value != active ==> HasId(s.streams, active) && HasId(s.streams, over.value)
  }

  /** A drop on another entry reorders. */
  predicate Commits(active: string, over: Option<string>) {
    over.Some? && over.value != active
  }

  /** The new list a committed drop hands to `reorderStreams`. */
  function DroppedOrder(l: seq<Stream>, active: string, target: string): (r: seq<Stream>)
    requires HasId(l, active) && HasId(l, target)
    ensures |r| == |l| && r != []
  {
    ArrayMove(l, FindIndex(l, active), FindIndex(l, target))
  }

  /** Featured and sidebar layouts re-feature the first entry after a drop. */
  predicate RefeaturesOnDrop(layout: Layout) {
    layout == Featured || layout == Sidebar
  }

  /** The store after `handleDragEnd`: `reorderStreams(arrayMove(...))`, then,
      in the featured and sidebar layouts, `setFeaturedStream` of the new first
      entry. A drop on nothing or on the dragged entry itself changes nothing. */
  function DragEndState(s: State, active: string, over: Option<string>): State
    requires DropDefined(s, active, over)
  {
    if Commits(active, over) then
      var next := DroppedOrder(s.streams, active, over.value);
      var reordered := Step(s, ReorderStreamsAction(next));
      if RefeaturesOnDrop(s.layoutType) then Step(reordered, SetFeaturedStreamAction(Some(next[0].id)))
      else reordered
    else s
  }

  /** A drop lands the dragged entry at the index of the entry it was dropped
      on; the others keep their relative order. */
  lemma DroppedOrderEffect(l: seq<Stream>, active: string, target: string)
    requires HasId(l, active) && HasId(l, target)
    ensures var r := DroppedOrder(l, active, target);
      && r[FindIndex(l, target)] == l[FindIndex(l, active)]
      && r[FindIndex(l, target)].id == active
      && RemoveAt(r, FindIndex(l, target)) == RemoveAt(l, FindIndex(l, active))
      && multiset(r) == multiset(l)
  {
    ArrayMoveEffect(l, FindIndex(l, active), FindIndex(l, target));
  }

  /** A drop that does not commit leaves the store as it was. */
  lemma DragEndNoDrop(s: State, active: string, over: Option<string>)
    requires !Commits(active, over)
    ensures DragEndState(s, active, over) == s
  {
  }

  /** Outside the featured and sidebar layouts a committed drop only reorders. */
  lemma DragEndReorders(s: State, active: string, target: string)
    requires active != target && HasId(s.streams, active) && HasId(s.streams, target)
    requires !RefeaturesOnDrop(s.layoutType)
    ensures DragEndState(s, active, Some(target)) == s.(streams := DroppedOrder(s.streams, active, target))
  {
  }

  /** Featuring the entry already in front keeps the order: it is unmuted
      and the others, muted, stay where they are. */
  lemma FeatureHead(s: State)
    requires IdsUnique(s.streams) && s.streams != [] && s.streams[0].id != ""
    ensures var id := s.streams[0].id; var r := SetFeaturedStream(s, Some(id));
      && r.featuredStreamId == Some(id) && r.activeChatStreamId == Some(id)
      && r.layoutType == (if s.layoutType == Grid then Featured else s.layoutType)
      && r.streams[0] == s.streams[0].(isMuted := false)
      && r.streams[1..] == SoloMute(s.streams[1..], id)
  {
    var l, id := s.streams, s.streams[0].id;
    assert HasId(l, id) by { assert l[0].id == id; }
    SetFeaturedStreamFront(s, id);
    assert FindById(l, id) == Some(l[0]) by { FindByIdUnique(l, id, l[0]); }
    assert FilterOut(l, id) == l[1..] by { FilterOutAt(l, 0); }
  }

  /** A committed drop in the featured and sidebar layouts features the head
      of the dropped order. */
  lemma DragEndFeaturesHead(s: State, active: string, target: string)
    requires active != target && HasId(s.streams, active) && HasId(s.streams, target)
    requires RefeaturesOnDrop(s.layoutType)
    ensures var next := DroppedOrder(s.streams, active, target);
      DragEndState(s, active, Some(target)) == SetFeaturedStream(s.(streams := next), Some(next[0].id))
  {
    var next := DroppedOrder(s.streams, active, target);
    assert Step(s, ReorderStreamsAction(next)) == s.(streams := next);
  }

  /** In the featured and sidebar layouts, a committed drop makes the new
      first entry featured, chat-active and the only unmuted one, in front of
      the others in their dropped order. */
  lemma DragEndRefeatures(s: State, active: string, target: string)
    requires WellFormed(s.streams)
    requires active != target && HasId(s.streams, active) && HasId(s.streams, target)
    requires RefeaturesOnDrop(s.layoutType)
    ensures var next := DroppedOrder(s.streams, active, target);
      var r := DragEndState(s, active, Some(target));
      && r.featuredStreamId == Some(next[0].id)
      && r.activeChatStreamId == Some(next[0].id)
      && r.layoutType == s.layoutType
      && r.streams[0] == next[0].(isMuted := false)
      && r.streams[1..] == SoloMute(next[1..], next[0].id)
  {
    var next := DroppedOrder(s.streams, active, target);
    assert IdsUnique(next) && next[0].id != "" by {
      DroppedOrderEffect(s.streams, active, target);
      PermutationKeepsWellFormed(s.streams, next);
      WellFormedIdsUnique(next);
    }
    DragEndFeaturesHead(s, active, target);
    FeatureHead(s.(streams := next));
  }

  /** A drag keeps the registry invariant. */
  lemma DragEndKeepsWellFormed(s: State, active: string, over: Option<string>)
    requires WellFormed(s.streams) && DropDefined(s, active, over)
    ensures WellFormed(DragEndState(s, active, over).streams)
  {
    if Commits(active, over) {
      var next := DroppedOrder(s.streams, active, over.value);
      DroppedOrderEffect(s.streams, active, over.value);
      StepKeepsWellFormed(s, ReorderStreamsAction(next));
      var reordered := Step(s, ReorderStreamsAction(next));
      if RefeaturesOnDrop(s.layoutType) {
        StepKeepsWellFormed(reordered, SetFeaturedStreamAction(Some(next[0].id)));
      }
    }
  }

  // ---------------------------------------------------------------------
  // The drag state of the component

  /** The height, in pixels from the top of the window, above which a drag
      shows the snap flyout. */
  const FlyoutThreshold := 100.0

  /** The component state the drag handlers update (`activeId`,
      `showSnapFlyout`, `ghostLayout`) and the store they call into. */
  class DragController {
    var activeId: Option<string>
    var showSnapFlyout: bool
    var ghostLayout: Option<Layout>
    const store: StreamStore

    predicate Idle()
      reads this
    {
      activeId.None? && !showSnapFlyout && ghostLayout.None?
    }

    constructor (store: StreamStore)
      ensures this.store == store && Idle()
    {
      this.store := store;
      activeId := None;
      showSnapFlyout := false;
      ghostLayout := None;
    }

    /** `handleDragStart`. */
    method DragStart(id: string)
      modifies this
      ensures activeId == Some(id)
      ensures showSnapFlyout == old(showSnapFlyout) && ghostLayout == old(ghostLayout)
    {
      activeId := Some(id);
    }

    /** `handleDragMove`: `clientY` is the vertical position of the pointer
        event that started the drag. */
    method DragMove(clientY: real)
      modifies this
      ensures showSnapFlyout <==> clientY < FlyoutThreshold
      ensures activeId == old(activeId) && ghostLayout == old(ghostLayout)
    {
      var shouldShow := clientY < FlyoutThreshold;
      if shouldShow != showSnapFlyout {
        showSnapFlyout := shouldShow;
      }
    }

    /** The flyout's `onHoverLayout`. */
    method HoverLayout(layout: Option<Layout>)
      modifies this
      ensures ghostLayout == layout
      ensures activeId == old(activeId) && showSnapFlyout == old(showSnapFlyout)
    {
      ghostLayout := layout;
    }

    /** The flyout's `onSelectLayout`: sets the layout and hides the flyout. */
    method SelectLayout(layout: Layout)
      modifies this, store
      ensures store.State() == old(store.State()).(layoutType := layout)
      ensures !showSnapFlyout
      ensures activeId == old(activeId) && ghostLayout == old(ghostLayout)
    {
      store.SetLayoutType(layout);
      showSnapFlyout := false;
    }

    /** `handleDragEnd`: back to idle, then the drop, if it commits. */
    method DragEnd(active: string, over: Option<string>)
      requires DropDefined(store.State(), active, over)
      modifies this, store
      ensures Idle()
      ensures store.State() == DragEndState(old(store.State()), active, over)
      ensures old(store.Valid()) ==> store.Valid()
    {
      ghost var s := store.State();
      if store.Valid() {
        DragEndKeepsWellFormed(s, active, over);
      }
      activeId := None;
      showSnapFlyout := false;
      ghostLayout := None;
      if over.Some? && over.value != active {
        var oldIndex := FindIndex(store.streams, active);
        var newIndex := FindIndex(store.streams, over.value);
        var newStreams := ArrayMove(store.streams, oldIndex, newIndex);
        var layout := store.layoutType;
        store.ReorderStreams(newStreams);
        if layout == Featured || layout == Sidebar {
          store.SetFeaturedStream(Some(newStreams[0].id));
        }
      }
    }
  }

  // ---------------------------------------------------------------------
  // Slot placement

  /** The tile class of a slot: the featured one, one beside it, or neither. */
  datatype TileRole = FeaturedTile | SidebarTile | PlainTile

  /** The CSS grid position of a slot: a column, and for the featured slot a
      row span starting at row 1. */
  datatype Placement = Unplaced | Placed(column: nat, rowSpan: Option<nat>)

  /** One slot the grid emits: its key, its CSS `order`, whether it is the
      dragged one (drawn faded), its role and its grid position. */
  datatype Slot = Slot(id: string, order: int, dimmed: bool, role: TileRole, placement: Placement)

  /** `Math.max(1, streams.length - 1)`: the rows the featured slot spans. */
  function FeaturedSpan(n: nat): (r: nat)
    ensures r >= 1 && (n >= 2 ==> r == n - 1)
  {
    if n >= 2 then n - 1 else 1
  }

  /** The slot of entry `st` of the registry list `l`. */
  function PlaceSlot(l: seq<Stream>, layout: Layout, activeId: Option<string>, st: Stream): Slot {
    var logicalIndex := FindIndex(l, st.id);
    var twoColumn := layout == Featured || layout == Sidebar;
    var isFeatured := twoColumn && logicalIndex == 0;
    var isSidebarItem := twoColumn && logicalIndex > 0;
    var role := if isFeatured then FeaturedTile else if isSidebarItem then SidebarTile else PlainTile;
    var placement :=
      if layout == Featured then (if isFeatured then Placed(1, Some(FeaturedSpan(|l|))) else Placed(2, None))
      else if layout == Sidebar then (if isFeatured then Placed(2, Some(FeaturedSpan(|l|))) else Placed(1, None))
      else Unplaced;
    Slot(st.id, logicalIndex, activeId == Some(st.id), role, placement)
  }

  /** The slots, emitted in id order whatever the order of the list. */
  function Slots(l: seq<Stream>, layout: Layout, activeId: Option<string>): (r: seq<Slot>)
    ensures |r| == |l|
  {
    var stable := SortById(l);
    seq(|stable|, k requires 0 <= k < |stable| => PlaceSlot(l, layout, activeId, stable[k]))
  }

  function SlotIds(slots: seq<Slot>): (r: seq<string>)
    ensures |r| == |slots|
  {
    seq(|slots|, k requires 0 <= k < |slots| => slots[k].id)
  }

  /** The emitted slot keys are the same for every order of the same entries. */
  lemma SlotIdsPermutationInvariant(a: seq<Stream>, b: seq<Stream>, layout: Layout, activeId: Option<string>)
    requires IdsUnique(a) && multiset(a) == multiset(b)
    ensures SlotIds(Slots(a, layout, activeId)) == SlotIds(Slots(b, layout, activeId))
  {
    SortByIdPermutationInvariant(a, b);
  }

  /** Each listed entry gets exactly one slot, and its `order` is its index
      in the registry list. */
  lemma SlotOrderIsListIndex(l: seq<Stream>, layout: Layout, activeId: Option<string>, i: nat)
    requires IdsUnique(l) && i < |l|
    ensures exists k :: 0 <= k < |l| && Slots(l, layout, activeId)[k].id == l[i].id
    ensures forall k :: 0 <= k < |l| && Slots(l, layout, activeId)[k].id == l[i].id ==>
      Slots(l, layout, activeId)[k].order == i
  {
    var stable := SortById(l);
    var slots := Slots(l, layout, activeId);
    assert l[i] in multiset(stable);
    var k :| 0 <= k < |stable| && stable[k] == l[i];
    assert slots[k].id == l[i].id;
    forall k | 0 <= k < |l| && slots[k].id == l[i].id ensures slots[k].order == i {
      assert slots[k].order == FindIndex(l, l[i].id);
    }
  }

  /** Featured layout: the slot of the first entry takes column 1 and spans
      `max(1, n - 1)` rows, every other slot takes column 2; the sidebar
      layout swaps the two columns; the other layouts place nothing. */
  lemma SlotPlacement(l: seq<Stream>, layout: Layout, activeId: Option<string>, k: nat)
    requires IdsUnique(l) && k < |l|
    ensures var slot := Slots(l, layout, activeId)[k];
      && (layout == Featured ==> (slot.order == 0 <==> slot.placement == Placed(1, Some(FeaturedSpan(|l|)))))
      && (layout == Featured ==> (slot.order != 0 <==> slot.placement == Placed(2, None)))
      && (layout == Sidebar ==> (slot.order == 0 <==> slot.placement == Placed(2, Some(FeaturedSpan(|l|)))))
      && (layout == Sidebar ==> (slot.order != 0 <==> slot.placement == Placed(1, None)))
      && (layout != Featured && layout != Sidebar ==> slot.placement == Unplaced && slot.role == PlainTile)
      && (slot.role == FeaturedTile <==> (layout == Featured || layout == Sidebar) && slot.order == 0)
  {
    var stable := SortById(l);
    assert stable[k] in multiset(l);
    var slot := Slots(l, layout, activeId)[k];
    assert slot.order >= 0 by { assert HasId(l, stable[k].id); }
  }
}
