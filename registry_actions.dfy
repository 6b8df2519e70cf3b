/** What each registry action promises, and the invariants every action keeps. */
module RegistryFacts {
  import opened Basics
  import opened Text
  import opened StreamInput
  import opened Registry
  import opened StreamLists

  // ---------------------------------------------------------------------
  // addStream

  /** `addStream` either leaves the state as it was, or appends exactly one
      entry built from the parsed input with the default flags, and points an
      unset (or empty) featured or chat reference at it. Nothing else changes. */
  lemma AddParsedEffect(s: State, parsed: Option<Parsed>, freshId: string)
    requires freshId != "" && !HasId(s.streams, freshId)
    ensures var r := AddParsed(s, parsed, freshId);
      && (r == s <==> parsed.None? || IsDuplicate(s.streams, parsed.value.channelName, parsed.value.platform))
      && (r != s ==>
            && r.streams == s.streams + [NewStream(freshId, parsed.value)]
            && r.streams[|s.streams|].channelName == parsed.value.channelName
            && r.streams[|s.streams|].platform == parsed.value.platform
            && !r.streams[|s.streams|].isMuted && r.streams[|s.streams|].volume == DefaultVolume
            && r.streams[|s.streams|].reloadKey == 0
            && (Truthy(s.featuredStreamId) ==> r.featuredStreamId == s.featuredStreamId)
            && (!Truthy(s.featuredStreamId) ==> r.featuredStreamId == Some(freshId))
            && (Truthy(s.activeChatStreamId) ==> r.activeChatStreamId == s.activeChatStreamId)
            && (!Truthy(s.activeChatStreamId) ==> r.activeChatStreamId == Some(freshId))
            && r == s.(streams := r.streams, featuredStreamId := r.featuredStreamId,
                       activeChatStreamId := r.activeChatStreamId))
  {
    var r := AddParsed(s, parsed, freshId);
    if parsed.Some? && !IsDuplicate(s.streams, parsed.value.channelName, parsed.value.platform) {
      assert |r.streams| == |s.streams| + 1;
    }
  }

  /** Adding the same input a second time is rejected as a duplicate. */
  lemma AddParsedTwice(s: State, parsed: Option<Parsed>, id1: string, id2: string)
    requires id1 != "" && !HasId(s.streams, id1)
    requires id2 != "" && !HasId(AddParsed(s, parsed, id1).streams, id2)
    ensures AddParsed(AddParsed(s, parsed, id1), parsed, id2) == AddParsed(s, parsed, id1)
  {
    var r := AddParsed(s, parsed, id1);
    if parsed.Some? && !IsDuplicate(s.streams, parsed.value.channelName, parsed.value.platform) {
      var k := |s.streams|;
      assert r.streams[k] == NewStream(id1, parsed.value);
      assert IsDuplicate(r.streams, parsed.value.channelName, parsed.value.platform);
    }
  }

  lemma AddStreamTwice(s: State, input: string, host: string, id1: string, id2: string)
    requires id1 != "" && !HasId(s.streams, id1)
    requires id2 != "" && !HasId(AddStream(s, input, host, id1).streams, id2)
    ensures AddStream(AddStream(s, input, host, id1), input, host, id2) == AddStream(s, input, host, id1)
  {
    AddParsedTwice(s, ParseStreamInput(input, host), id1, id2);
  }

  /** The appended entry clashes with no listed entry. */
  lemma NewStreamNoClash(l: seq<Stream>, p: Parsed, freshId: string, i: nat)
    requires !HasId(l, freshId) && !IsDuplicate(l, p.channelName, p.platform) && i < |l|
    ensures !Clash(l[i], NewStream(freshId, p))
  {
  }

  /** `addStream` keeps the registry invariant: the id is fresh and the
      duplicate test rejects a second entry for the same channel. */
  lemma AddParsedKeepsWellFormed(s: State, parsed: Option<Parsed>, freshId: string)
    requires freshId != "" && !HasId(s.streams, freshId)
    requires WellFormed(s.streams)
    ensures WellFormed(AddParsed(s, parsed, freshId).streams)
  {
    if parsed.Some? && !IsDuplicate(s.streams, parsed.value.channelName, parsed.value.platform) {
      var n := NewStream(freshId, parsed.value);
      var l := s.streams + [n];
      forall i, j | 0 <= i < j < |l| ensures !Clash(l[i], l[j]) {
        if j == |s.streams| {
          NewStreamNoClash(s.streams, parsed.value, freshId, i);
        } else {
          assert l[i] == s.streams[i] && l[j] == s.streams[j];
        }
      }
    }
  }

  // ---------------------------------------------------------------------
  // removeStream

  /** `removeStream(id)` drops every entry with that id, keeps the others in
      their order (filtering distributes over concatenation), and moves a
      featured or chat reference to the id onto the new first entry, or to
      null when none is left. Other references are untouched. */
  lemma RemoveStreamEffect(s: State, id: string)
    requires WellFormed(s.streams)
    ensures var r := RemoveStream(s, id);
      && (forall st :: st in r.streams <==> st in s.streams && st.id != id)
      && !HasId(r.streams, id)
      && (!HasId(s.streams, id) ==> r.streams == s.streams)
      && (s.featuredStreamId != Some(id) ==> r.featuredStreamId == s.featuredStreamId)
      && (s.featuredStreamId == Some(id) ==> r.featuredStreamId == FirstId(r.streams))
      && (s.activeChatStreamId != Some(id) ==> r.activeChatStreamId == s.activeChatStreamId)
      && (s.activeChatStreamId == Some(id) ==> r.activeChatStreamId == FirstId(r.streams))
      && r.featuredStreamId != Some(id) && r.activeChatStreamId != Some(id)
      && r == s.(streams := r.streams, featuredStreamId := r.featuredStreamId,
                 activeChatStreamId := r.activeChatStreamId)
  {
    var next := FilterOut(s.streams, id);
    if HasId(next, id) {
      var k :| 0 <= k < |next| && next[k].id == id;
      assert next[k] in next;
    }
    if !HasId(s.streams, id) {
      FilterOutAbsent(s.streams, id);
    }
    if next != [] {
      assert next[0] in s.streams;
      var k :| 0 <= k < |s.streams| && s.streams[k] == next[0];
    }
  }

  /** Removing keeps the registry invariant. */
  lemma RemoveStreamKeepsWellFormed(s: State, id: string)
    requires WellFormed(s.streams)
    ensures WellFormed(RemoveStream(s, id).streams)
  {
    FilterOutKeepsWellFormed(s.streams, id);
  }

  // ---------------------------------------------------------------------
  // References

  /** The featured and chat references name listed entries, or are null. */
  predicate RefsResolve(s: State) {
    && (s.featuredStreamId.None? || HasId(s.streams, s.featuredStreamId.value))
    && (s.activeChatStreamId.None? || HasId(s.streams, s.activeChatStreamId.value))
  }

  /** Removing an entry keeps the references resolving. */
  lemma RemoveStreamKeepsRefs(s: State, id: string)
    requires WellFormed(s.streams) && RefsResolve(s)
    ensures RefsResolve(RemoveStream(s, id))
  {
    var r := RemoveStream(s, id);
    RemoveStreamEffect(s, id);
    if r.featuredStreamId.Some? {
      var f := r.featuredStreamId.value;
      if s.featuredStreamId == Some(id) {
        assert r.streams[0].id == f;
      } else {
        var k :| 0 <= k < |s.streams| && s.streams[k].id == f;
        assert s.streams[k] in r.streams;
      }
    }
    if r.activeChatStreamId.Some? {
      var c := r.activeChatStreamId.value;
      if s.activeChatStreamId == Some(id) {
        assert r.streams[0].id == c;
      } else {
        var k :| 0 <= k < |s.streams| && s.streams[k].id == c;
        assert s.streams[k] in r.streams;
      }
    }
  }

  /** Adding keeps the references resolving. */
  lemma AddParsedKeepsRefs(s: State, parsed: Option<Parsed>, freshId: string)
    requires freshId != "" && !HasId(s.streams, freshId) && RefsResolve(s)
    ensures RefsResolve(AddParsed(s, parsed, freshId))
  {
    var r := AddParsed(s, parsed, freshId);
    AddParsedEffect(s, parsed, freshId);
    if r != s {
      assert r.streams[|s.streams|].id == freshId;
      forall k | 0 <= k < |s.streams| ensures r.streams[k] == s.streams[k] {}
    }
  }

  /** "Clear all" (`reorderStreams([])`) empties the list but keeps both
      references: a state whose references resolve is taken to one where
      they dangle. */
  lemma ClearAllLeavesDanglingRefs()
    ensures var st := Stream("a", "ab", Twitch, "", false, DefaultVolume, 0, None);
      var s := InitialState.(streams := [st], featuredStreamId := Some("a"), activeChatStreamId := Some("a"));
      && RefsResolve(s)
      && Step(s, ReorderStreamsAction([])).featuredStreamId == Some("a")
      && !RefsResolve(Step(s, ReorderStreamsAction([])))
  {
    var st := Stream("a", "ab", Twitch, "", false, DefaultVolume, 0, None);
    assert [st][0].id == "a";
  }

  // ---------------------------------------------------------------------
  // setFeaturedStream

  lemma SoloMuteSlices(l: seq<Stream>, x: string, i: nat)
    requires i < |l|
    ensures SoloMute(l, x)[..i] == SoloMute(l[..i], x)
    ensures SoloMute(l, x)[i + 1..] == SoloMute(l[i + 1..], x)
    ensures SoloMute(l[..i], x) + SoloMute(l[i + 1..], x) == SoloMute(l[..i] + l[i + 1..], x)
  {
  }

  /** With an id that is not set (null or empty), only the featured
      reference changes, to null. */
  lemma SetFeaturedStreamNull(s: State, id: Option<string>)
    requires !Truthy(id)
    ensures SetFeaturedStream(s, id) == s.(featuredStreamId := None)
  {
  }

  /** With an id: every entry is muted except the ones with that id, the
      list keeps its length, both references become the id (even one that
      is not listed), and the grid layout turns into the featured layout. */
  lemma SetFeaturedStreamSolo(s: State, id: string)
    requires id != ""
    ensures var r := SetFeaturedStream(s, Some(id));
      && |r.streams| == |s.streams|
      && (forall k :: 0 <= k < |r.streams| ==> (r.streams[k].isMuted <==> r.streams[k].id != id))
      && multiset(r.streams) == multiset(SoloMute(s.streams, id))
      && r.featuredStreamId == Some(id) && r.activeChatStreamId == Some(id)
      && r.layoutType == (if s.layoutType == Grid then Featured else s.layoutType)
      && (!HasId(s.streams, id) ==> r.streams == SoloMute(s.streams, id))
      && r == s.(streams := r.streams, featuredStreamId := r.featuredStreamId,
                 activeChatStreamId := r.activeChatStreamId, layoutType := r.layoutType)
  {
    var muted := SoloMute(s.streams, id);
    var index := FindIndex(muted, id);
    var r := SetFeaturedStream(s, Some(id));
    if index > -1 {
      forall k | 0 <= k < |r.streams| ensures r.streams[k].isMuted <==> r.streams[k].id != id {
        assert r.streams[k] in multiset(muted);
      }
    } else {
      assert !HasId(s.streams, id) by {
        forall k | 0 <= k < |s.streams| ensures s.streams[k].id != id {
          assert muted[k].id == s.streams[k].id;
        }
      }
    }
  }

  /** With a listed id and unique ids: the entry moves to the front, unmuted,
      and the others follow in their old relative order, all muted. */
  lemma SetFeaturedStreamFront(s: State, id: string)
    requires id != "" && IdsUnique(s.streams) && HasId(s.streams, id)
    ensures var r := SetFeaturedStream(s, Some(id));
      && r.streams[0] == FindById(s.streams, id).value.(isMuted := false)
      && r.streams[1..] == SoloMute(FilterOut(s.streams, id), id)
  {
    var l := s.streams;
    var muted := SoloMute(l, id);
    var i := FindIndex(muted, id);
    assert i >= 0 by {
      var k :| 0 <= k < |l| && l[k].id == id;
      assert muted[k].id == id;
    }
    assert l[i].id == id by { assert muted[i].id == l[i].id; }
    var rest := muted[..i] + muted[i + 1..];
    assert SetFeaturedStream(s, Some(id)).streams == [muted[i]] + rest by {
      assert SetFeaturedStream(s, Some(id)).streams == MoveToFront(muted, i);
    }
    assert muted[i] == FindById(l, id).value.(isMuted := false) by {
      FindByIdUnique(l, id, l[i]);
    }
    assert rest == SoloMute(FilterOut(l, id), id) by {
      FilterOutAt(l, i);
      SoloMuteSlices(l, id, i);
    }
    assert ([muted[i]] + rest)[1..] == rest;
  }

  /** `setFeaturedStream` keeps the registry invariant. */
  lemma SetFeaturedStreamKeepsWellFormed(s: State, id: Option<string>)
    requires WellFormed(s.streams)
    ensures WellFormed(SetFeaturedStream(s, id).streams)
  {
    if Truthy(id) {
      var muted := SoloMute(s.streams, id.value);
      SameKeysKeepWellFormed(s.streams, muted);
      SetFeaturedStreamSolo(s, id.value);
      PermutationKeepsWellFormed(muted, SetFeaturedStream(s, id).streams);
    }
  }

  // ---------------------------------------------------------------------
  // Per-entry edits

  /** An edit changes only the entries with the given id, and leaves length
      and order alone. */
  lemma EditStreamsTouchesOnlyTarget(l: seq<Stream>, id: string, e: Edit)
    ensures var r := EditStreams(l, id, e);
      && |r| == |l|
      && (forall k :: 0 <= k < |l| && l[k].id != id ==> r[k] == l[k])
      && (forall k :: 0 <= k < |l| && l[k].id == id ==> r[k] == ApplyEdit(l[k], e))
  {
  }

  /** Each edit changes its one field of the entry and nothing else; a
      reload adds exactly one to `reloadKey`. */
  lemma ApplyEditFields(st: Stream, e: Edit)
    ensures var r := ApplyEdit(st, e);
      && r.id == st.id && r.channelName == st.channelName && r.platform == st.platform && r.url == st.url
      && (e.SetVolume? ==> r == st.(volume := e.volume))
      && (e.ToggleMute? ==> r == st.(isMuted := !st.isMuted))
      && (e.Reload? ==> r == st.(reloadKey := st.reloadKey + 1) && r.reloadKey > st.reloadKey)
      && (e.MergeMetadata? ==> r == st.(metadata := r.metadata) && r.metadata.Some?)
      && (!e.Reload? ==> r.reloadKey == st.reloadKey)
  {
  }

  /** Toggling the mute flag of one entry twice restores the list. */
  lemma ToggleMuteTwice(l: seq<Stream>, id: string)
    ensures EditStreams(EditStreams(l, id, ToggleMute), id, ToggleMute) == l
  {
    var r := EditStreams(EditStreams(l, id, ToggleMute), id, ToggleMute);
    forall k | 0 <= k < |l| ensures r[k] == l[k] {
      if l[k].id == id {
        assert r[k] == l[k].(isMuted := !!l[k].isMuted);
      }
    }
  }

  /** Edits keep the registry invariant. */
  lemma EditStreamsKeepsWellFormed(l: seq<Stream>, id: string, e: Edit)
    requires WellFormed(l)
    ensures WellFormed(EditStreams(l, id, e))
  {
    var r := EditStreams(l, id, e);
    forall k | 0 <= k < |l|
      ensures l[k].id == r[k].id && l[k].channelName == r[k].channelName && l[k].platform == r[k].platform
    {
      ApplyEditFields(l[k], e);
    }
    SameKeysKeepWellFormed(l, r);
  }

  /** The metadata merge: each field the patch carries replaces the old
      value, each other field keeps the old value or the default
      (`isLive` false, `viewerCount` 0), and `lastUpdated` is the time passed in. */
  lemma MergeFields(previous: Option<Metadata>, p: MetadataPatch, now: int)
    ensures var m := Merge(previous, p, now);
      && m.lastUpdated == now
      && m.isLive == (if p.isLive.Some? then p.isLive.value else previous.Some? && previous.value.isLive)
      && m.viewerCount == (if p.viewerCount.Some? then p.viewerCount.value
                           else if previous.Some? then previous.value.viewerCount else 0)
      && m.gameName == (if p.gameName.Some? then p.gameName.value
                        else if previous.Some? then previous.value.gameName else None)
      && m.title == (if p.title.Some? then p.title.value
                     else if previous.Some? then previous.value.title else None)
      && m.profileImage == (if p.profileImage.Some? then p.profileImage.value
                            else if previous.Some? then previous.value.profileImage else None)
  {
  }

  /** Two patches one after the other are one patch in which the later wins. */
  function Overlay(p1: MetadataPatch, p2: MetadataPatch): MetadataPatch {
    MetadataPatch(
      if p2.isLive.Some? then p2.isLive else p1.isLive,
      if p2.viewerCount.Some? then p2.viewerCount else p1.viewerCount,
      if p2.gameName.Some? then p2.gameName else p1.gameName,
      if p2.title.Some? then p2.title else p1.title,
      if p2.profileImage.Some? then p2.profileImage else p1.profileImage)
  }

  /** Merging two patches in turn is merging their overlay: later syncs win
      field by field, and earlier fields the later one omits survive. */
  lemma MergeTwice(previous: Option<Metadata>, p1: MetadataPatch, p2: MetadataPatch, t1: int, t2: int)
    ensures Merge(Some(Merge(previous, p1, t1)), p2, t2) == Merge(previous, Overlay(p1, p2), t2)
  {
  }

  // ---------------------------------------------------------------------
  // updateGridProportion

  function Sum(p: seq<real>): real {
    if p == [] then 0.0 else p[0] + Sum(p[1..])
  }

  /** Replacing one entry changes the sum by the difference. */
  lemma {:induction false} SumUpdate(p: seq<real>, k: nat, v: real)
    requires k < |p|
    ensures Sum(p[k := v]) == Sum(p) - p[k] + v
  {
    if k == 0 {
      assert p[k := v][1..] == p[1..];
    } else {
      assert p[k := v][1..] == p[1..][k - 1 := v];
      SumUpdate(p[1..], k - 1, v);
    }
  }

  /** Entry `index` becomes the value, the next entry (if any) gives up the
      difference but never drops below 10, and every other entry stays. */
  lemma AdjustProportionsEntries(p: seq<real>, index: nat, value: real)
    requires index < |p|
    ensures var r := AdjustProportions(p, index, value);
      && |r| == |p| && r[index] == value
      && (index + 1 < |p| ==> r[index + 1] >= MinProportion
                              && r[index + 1] == MaxReal(MinProportion, p[index + 1] - (value - p[index])))
      && (forall k :: 0 <= k < |p| && k != index && k != index + 1 ==> r[k] == p[k])
  {
  }

  /** The axis total is kept whenever the clamp does not fire; moving the
      last entry changes the total by the difference. */
  lemma AdjustProportionsSum(p: seq<real>, index: nat, value: real)
    requires index < |p|
    ensures var r := AdjustProportions(p, index, value);
      && (index + 1 < |p| && p[index + 1] - (value - p[index]) >= MinProportion ==> Sum(r) == Sum(p))
      && (index + 1 == |p| ==> Sum(r) == Sum(p) - p[index] + value)
  {
    var next := p[index := value];
    SumUpdate(p, index, value);
    if index + 1 < |p| {
      var v := MaxReal(MinProportion, next[index + 1] - (value - p[index]));
      assert next[index + 1] == p[index + 1];
      SumUpdate(next, index + 1, v);
      assert AdjustProportions(p, index, value) == next[index + 1 := v];
    } else {
      assert AdjustProportions(p, index, value) == next;
    }
  }

  /** A proportion update touches only the addressed axis. */
  lemma UpdateGridProportionOtherAxis(s: State, axis: Axis, index: nat, value: real)
    requires index < |AxisOf(s.gridProportions, axis)|
    ensures var r := UpdateGridProportion(s, axis, index, value);
      && AxisOf(r.gridProportions, axis) == AdjustProportions(AxisOf(s.gridProportions, axis), index, value)
      && (axis == ColumnsAxis ==> r.gridProportions.rows == s.gridProportions.rows)
      && (axis == RowsAxis ==> r.gridProportions.columns == s.gridProportions.columns)
      && r == s.(gridProportions := r.gridProportions)
  {
  }

  // ---------------------------------------------------------------------
  // setStreamRect

  /** Only the one key changes: deleted for null, set otherwise. */
  lemma SetRectOnlyKey(m: map<string, Rect>, id: string, rect: Option<Rect>)
    ensures var r := SetRect(m, id, rect);
      && (rect.None? ==> id !in r)
      && (rect.Some? ==> id in r && r[id] == rect.value)
      && (forall k :: k != id ==> (k in r <==> k in m))
      && (forall k :: k != id && k in m ==> r[k] == m[k])
  {
  }

  /** Repeating a call changes nothing more. */
  lemma SetRectIdempotent(m: map<string, Rect>, id: string, rect: Option<Rect>)
    ensures SetRect(SetRect(m, id, rect), id, rect) == SetRect(m, id, rect)
  {
    var once := SetRect(m, id, rect);
    var twice := SetRect(once, id, rect);
    assert twice.Keys == once.Keys;
  }

  /** Of two calls for the same id, the later one decides. */
  lemma SetRectLastWins(m: map<string, Rect>, id: string, first: Option<Rect>, second: Option<Rect>)
    ensures SetRect(SetRect(m, id, first), id, second) == SetRect(m, id, second)
  {
    var a := SetRect(SetRect(m, id, first), id, second);
    var b := SetRect(m, id, second);
    assert a.Keys == b.Keys;
  }

  // ---------------------------------------------------------------------
  // Whole actions

  /** The conditions under which the registry invariant is kept: a reorder
      hands back a permutation of the list (a drag) or the empty list (clear
      all). Any other list passed to `reorderStreams` is taken as is. */
  predicate Admissible(s: State, a: Action) {
    Defined(s, a) && (a.ReorderStreamsAction? ==> a.streams == [] || multiset(a.streams) == multiset(s.streams))
  }

  /** Every action keeps the registry invariant. */
  lemma StepKeepsWellFormed(s: State, a: Action)
    requires WellFormed(s.streams) && Admissible(s, a)
    ensures WellFormed(Step(s, a).streams)
  {
    match a
    case AddStreamAction(input, host, freshId) => AddParsedKeepsWellFormed(s, ParseStreamInput(input, host), freshId);
    case RemoveStreamAction(id) => RemoveStreamKeepsWellFormed(s, id);
    case ReorderStreamsAction(l) =>
      if l != [] { PermutationKeepsWellFormed(s.streams, l); }
    case SetFeaturedStreamAction(id) => SetFeaturedStreamKeepsWellFormed(s, id);
    case EditStreamAction(id, e) => EditStreamsKeepsWellFormed(s.streams, id, e);
    case _ =>
  }

  /** The entry `after` carries its key over from the old list `l`, plus
      `bump`: from the entry with the same id, or 0 when there was none. */
  predicate KeyCarried(l: seq<Stream>, after: Stream, bump: int) {
    && (!HasId(l, after.id) ==> after.reloadKey == 0)
    && forall before :: before in l && before.id == after.id ==> after.reloadKey == before.reloadKey + bump
  }

  /** An entry listed unchanged keeps its key. */
  lemma ListedKeyCarried(l: seq<Stream>, after: Stream)
    requires IdsUnique(l) && after in l
    ensures KeyCarried(l, after, 0)
  {
    forall before | before in l && before.id == after.id ensures after.reloadKey == before.reloadKey {
      FindByIdUnique(l, after.id, before);
      FindByIdUnique(l, after.id, after);
    }
  }

  /** An entry with the id and key of a listed entry keeps that key. */
  lemma SameKeyCarried(l: seq<Stream>, k: nat, after: Stream)
    requires IdsUnique(l) && k < |l|
    requires after.id == l[k].id && after.reloadKey == l[k].reloadKey
    ensures KeyCarried(l, after, 0)
  {
    ListedKeyCarried(l, l[k]);
  }

  lemma AddKeyCarried(s: State, parsed: Option<Parsed>, freshId: string, after: Stream)
    requires IdsUnique(s.streams) && freshId != "" && !HasId(s.streams, freshId)
    requires after in AddParsed(s, parsed, freshId).streams
    ensures KeyCarried(s.streams, after, 0)
  {
    AddParsedEffect(s, parsed, freshId);
    if after in s.streams {
      ListedKeyCarried(s.streams, after);
    } else {
      assert after == NewStream(freshId, parsed.value);
    }
  }

  lemma SetFeaturedKeyCarried(s: State, id: Option<string>, after: Stream)
    requires IdsUnique(s.streams)
    requires after in SetFeaturedStream(s, id).streams
    ensures KeyCarried(s.streams, after, 0)
  {
    var l := s.streams;
    if Truthy(id) {
      var muted := SoloMute(l, id.value);
      assert after in muted by {
        SetFeaturedStreamSolo(s, id.value);
        assert after in multiset(muted);
      }
      var k :| 0 <= k < |muted| && muted[k] == after;
      SameKeyCarried(l, k, after);
    } else {
      ListedKeyCarried(l, after);
    }
  }

  lemma EditKeyCarried(l: seq<Stream>, id: string, e: Edit, after: Stream)
    requires IdsUnique(l)
    requires after in EditStreams(l, id, e)
    ensures KeyCarried(l, after, if e == Reload && after.id == id then 1 else 0)
  {
    var r := EditStreams(l, id, e);
    var k :| 0 <= k < |r| && r[k] == after;
    ApplyEditFields(l[k], e);
    ListedKeyCarried(l, l[k]);
  }

  /** `reloadKey` only grows, by one, and only by `reloadStream` on that
      entry: the entry with a given id after any action has the key it had
      before, plus one for a reload of that id; an entry that was not listed
      before starts at 0. */
  lemma StepReloadKey(s: State, a: Action, after: Stream)
    requires WellFormed(s.streams) && Admissible(s, a)
    requires after in Step(s, a).streams
    ensures !HasId(s.streams, after.id) ==> after.reloadKey == 0
    ensures forall before :: before in s.streams && before.id == after.id ==>
      after.reloadKey == before.reloadKey + (if a == EditStreamAction(after.id, Reload) then 1 else 0)
  {
    var l := s.streams;
    WellFormedIdsUnique(l);
    match a
    case AddStreamAction(input, host, freshId) =>
      AddKeyCarried(s, ParseStreamInput(input, host), freshId, after);
    case ReorderStreamsAction(ns) =>
      if ns != [] {
        assert after in multiset(l);
      }
      ListedKeyCarried(l, after);
    case SetFeaturedStreamAction(id) =>
      SetFeaturedKeyCarried(s, id, after);
    case EditStreamAction(id, e) =>
      EditKeyCarried(l, id, e, after);
    case RemoveStreamAction(id) =>
      ListedKeyCarried(l, after);
    case _ =>
      ListedKeyCarried(l, after);
  }

  // ---------------------------------------------------------------------
  // Persistence

  /** Storing and restoring gives back the state, except the rect table,
      which is not stored and starts empty. */
  lemma RehydratePartialize(s: State)
    ensures Rehydrate(InitialState, Partialize(s)) == s.(streamRects := map[])
  {
  }

  /** The stored slice does not depend on the rect table. */
  lemma PartializeIgnoresRects(s: State, m: map<string, Rect>)
    ensures Partialize(s.(streamRects := m)) == Partialize(s)
  {
  }
}
