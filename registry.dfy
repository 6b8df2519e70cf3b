/** The stream registry of `useStreamStore`: its state, and every action as a
    state-to-state function. `Step` is the one specification the store class
    is proved against. */
module Registry {
  import opened Basics
  import opened Text
  import opened StreamInput

  datatype Layout = Grid | Featured | Sidebar | Columns | Interactive

  /** Which list of `gridProportions` an update addresses. */
  datatype Axis = ColumnsAxis | RowsAxis

  datatype Metadata = Metadata(
    isLive: bool,
    viewerCount: int,
    gameName: Option<string>,
    title: Option<string>,
    profileImage: Option<string>,
    lastUpdated: int)

  /** `Partial<Stream['metadata']>`: `None` is a key the patch does not carry.
      The text fields may be carried with the value `undefined`, written
      `Some(None)`, which the object spread copies over the old value. */
  datatype MetadataPatch = MetadataPatch(
    isLive: Option<bool>,
    viewerCount: Option<int>,
    gameName: Option<Option<string>>,
    title: Option<Option<string>>,
    profileImage: Option<Option<string>>)

  datatype Stream = Stream(
    id: string,
    channelName: string,
    platform: Platform,
    url: string,
    isMuted: bool,
    volume: real,
    reloadKey: int,
    metadata: Option<Metadata>)

  datatype Rect = Rect(top: real, left: real, width: real, height: real)

  datatype Account = Account(username: string, profileImage: string, token: string)

  datatype Proportions = Proportions(columns: seq<real>, rows: seq<real>)

  datatype Auth = Auth(twitch: Option<Account>, kick: Option<Account>)

  datatype State = State(
    streams: seq<Stream>,
    sidebarVisible: bool,
    chatVisible: bool,
    mapVisible: bool,
    sidebarWidth: real,
    mapHeight: real,
    featuredStreamId: Option<string>,
    activeChatStreamId: Option<string>,
    customMapUrl: string,
    layoutType: Layout,
    gridProportions: Proportions,
    streamRects: map<string, Rect>,
    flexLayoutState: Option<string>,
    auth: Auth,
    customClientId: string,
    kickClientId: string)

  const DefaultProportions := Proportions([50.0, 50.0], [50.0, 50.0])
  const DefaultVolume := 0.5
  const MinProportion := 10.0
  const DefaultMetadata := Metadata(false, 0, None, None, None, 0)

  const InitialState := State(
    [], true, true, true, 360.0, 300.0, None, None, "", Grid, DefaultProportions,
    map[], None, Auth(None, None), "6gu4wf1zdyfcxcgmedhazg3sswibof", "01KEJ794H7E71R2YZKFYZCYDDV")

  // ---------------------------------------------------------------------
  // Queries on the stream list

  predicate HasId(l: seq<Stream>, id: string) {
    exists i :: 0 <= i < |l| && l[i].id == id
  }

  /** Two entries name the same channel: equal names after `toLowerCase` on the
      same platform. */
  predicate SameChannel(a: Stream, b: Stream) {
    ToLower(a.channelName) == ToLower(b.channelName) && a.platform == b.platform
  }

  /** The duplicate test of `addStream`. */
  predicate IsDuplicate(l: seq<Stream>, name: string, platform: Platform) {
    exists i :: 0 <= i < |l| && ToLower(l[i].channelName) == ToLower(name) && l[i].platform == platform
  }

  predicate IdsUnique(l: seq<Stream>) {
    forall i, j :: 0 <= i < j < |l| ==> l[i].id != l[j].id
  }

  /** Two entries that may not both be listed: same id, or same channel. */
  predicate Clash(a: Stream, b: Stream) {
    a.id == b.id || SameChannel(a, b)
  }

  /** The registry invariant: ids are non-empty, and no two entries share an
      id or name the same channel. */
  predicate WellFormed(l: seq<Stream>) {
    && (forall i, j :: 0 <= i < j < |l| ==> !Clash(l[i], l[j]))
    && (forall i :: 0 <= i < |l| ==> l[i].id != "")
  }

  /** `l.find(s => s.id === id)`. */
  function FindById(l: seq<Stream>, id: string): (r: Option<Stream>)
    ensures r.Some? ==> r.value in l && r.value.id == id
    ensures r.Some? ==> r.value == l[FindIndex(l, id)]
    ensures r.None? <==> !HasId(l, id)
  {
    if l == [] then None
    else if l[0].id == id then Some(l[0])
    else
      var r := FindById(l[1..], id);
      assert HasId(l, id) ==> l[0].id == id || HasId(l[1..], id) by {
        if HasId(l, id) {
          var i :| 0 <= i < |l| && l[i].id == id;
          if i > 0 { assert l[1..][i - 1].id == id; }
        }
      }
      assert HasId(l[1..], id) ==> HasId(l, id) by {
        if HasId(l[1..], id) {
          var i :| 0 <= i < |l[1..]| && l[1..][i].id == id;
          assert l[i + 1].id == id;
        }
      }
      r
  }

  /** `l.findIndex(s => s.id === id)`: the first matching index, or -1. */
  function FindIndex(l: seq<Stream>, id: string): (r: int)
    ensures -1 <= r < |l|
    ensures r >= 0 ==> l[r].id == id && forall j :: 0 <= j < r ==> l[j].id != id
    ensures r == -1 <==> !HasId(l, id)
  {
    if l == [] then -1
    else if l[0].id == id then 0
    else
      var k := FindIndex(l[1..], id);
      if k == -1 then
        assert !HasId(l, id) by {
          forall i | 0 <= i < |l| ensures l[i].id != id {
            if i > 0 { assert l[i] == l[1..][i - 1]; }
          }
        }
        -1
      else
        assert forall j :: 1 <= j < k + 1 ==> l[j] == l[1..][j - 1];
        k + 1
  }

  /** `l.filter(s => s.id !== id)`. */
  function FilterOut(l: seq<Stream>, id: string): (r: seq<Stream>)
    ensures |r| <= |l|
    ensures forall st :: st in r <==> st in l && st.id != id
  {
    if l == [] then []
    else
      var rest := FilterOut(l[1..], id);
      assert forall st :: st in l <==> st == l[0] || st in l[1..];
      if l[0].id == id then rest else [l[0]] + rest
  }

  /** `l[0]?.id`. */
  function FirstId(l: seq<Stream>): (r: Option<string>)
    ensures r.Some? <==> l != []
    ensures r.Some? ==> r.value == l[0].id
  {
    if l == [] then None else Some(l[0].id)
  }

  // ---------------------------------------------------------------------
  // Actions

  /** The entry `addStream` appends for a parsed input. */
  function NewStream(id: string, p: Parsed): (st: Stream)
    ensures st.id == id && st.channelName == p.channelName && st.platform == p.platform && st.url == p.url
    ensures !st.isMuted && st.volume == DefaultVolume && st.reloadKey == 0 && st.metadata.None?
  {
    Stream(id, p.channelName, p.platform, p.url, false, DefaultVolume, 0, None)
  }

  /** `addStream` once the input is parsed: nothing for a rejected input or a
      channel already listed on that platform, else the new entry at the end
      and the new id for a featured or chat reference that is not set. */
  function AddParsed(s: State, parsed: Option<Parsed>, freshId: string): State
    requires freshId != "" && !HasId(s.streams, freshId)
  {
    match parsed
    case None => s
    case Some(p) =>
      if IsDuplicate(s.streams, p.channelName, p.platform) then s
      else
        s.(streams := s.streams + [NewStream(freshId, p)],
           featuredStreamId := OrElse(s.featuredStreamId, freshId),
           activeChatStreamId := OrElse(s.activeChatStreamId, freshId))
  }

  /** `addStream(input)`, with `uuidv4()` passed in as `freshId` and
      `window.location.hostname` as `host`. */
  function AddStream(s: State, input: string, host: string, freshId: string): State
    requires freshId != "" && !HasId(s.streams, freshId)
  {
    AddParsed(s, ParseStreamInput(input, host), freshId)
  }

  /** A reference to the removed id moves to the new first entry, or to null. */
  function Repair(ref: Option<string>, id: string, next: seq<Stream>): Option<string> {
    if ref == Some(id) then OrNull(FirstId(next)) else ref
  }

  /** `removeStream(id)`. */
  function RemoveStream(s: State, id: string): State {
    var next := FilterOut(s.streams, id);
    s.(streams := next,
       featuredStreamId := Repair(s.featuredStreamId, id, next),
       activeChatStreamId := Repair(s.activeChatStreamId, id, next))
  }

  function AxisOf(p: Proportions, axis: Axis): seq<real> {
    if axis == ColumnsAxis then p.columns else p.rows
  }

  function WithAxis(p: Proportions, axis: Axis, v: seq<real>): Proportions {
    if axis == ColumnsAxis then p.(columns := v) else p.(rows := v)
  }

  /** The new list of one axis after `updateGridProportion(type, index, value)`:
      entry `index` becomes `value`, and the next entry, if any, gives up the
      difference but never drops below 10. */
  function AdjustProportions(p: seq<real>, index: nat, value: real): seq<real>
    requires index < |p|
  {
    var next := p[index := value];
    if index < |next| - 1 then next[index + 1 := MaxReal(MinProportion, next[index + 1] - (value - p[index]))]
    else next
  }

  /** `updateGridProportion(type, index, value)`. */
  function UpdateGridProportion(s: State, axis: Axis, index: nat, value: real): State
    requires index < |AxisOf(s.gridProportions, axis)|
  {
    var p := AxisOf(s.gridProportions, axis);
    s.(gridProportions := WithAxis(s.gridProportions, axis, AdjustProportions(p, index, value)))
  }

  /** Every entry's `isMuted` becomes "is not the entry `id`". */
  function SoloMute(l: seq<Stream>, id: string): (r: seq<Stream>)
    ensures |r| == |l|
  {
    seq(|l|, k requires 0 <= k < |l| => l[k].(isMuted := l[k].id != id))
  }

  /** The entry at `i` taken out and put in front: `splice(i, 1)` then `unshift`. */
  function MoveToFront(l: seq<Stream>, i: nat): (r: seq<Stream>)
    requires i < |l|
    ensures |r| == |l| && r[0] == l[i]
    ensures multiset(r) == multiset(l)
  {
    assert l == l[..i] + [l[i]] + l[i + 1..];
    [l[i]] + l[..i] + l[i + 1..]
  }

  /** `setFeaturedStream(id)`. */
  function SetFeaturedStream(s: State, id: Option<string>): State {
    if !Truthy(id) then s.(featuredStreamId := None)
    else
      var muted := SoloMute(s.streams, id.value);
      var index := FindIndex(muted, id.value);
      s.(featuredStreamId := id,
         activeChatStreamId := id,
         streams := if index > -1 then MoveToFront(muted, index) else muted,
         layoutType := if s.layoutType == Grid then Featured else s.layoutType)
  }

  /** The per-entry updates that map over the list and touch one entry. */
  datatype Edit = SetVolume(volume: real) | ToggleMute | Reload | MergeMetadata(patch: MetadataPatch, now: int)

  /** `{ ...(previous || default), ...patch, lastUpdated: now }`. */
  function Merge(previous: Option<Metadata>, p: MetadataPatch, now: int): Metadata {
    var base := if previous.Some? then previous.value else DefaultMetadata;
    Metadata(
      if p.isLive.Some? then p.isLive.value else base.isLive,
      if p.viewerCount.Some? then p.viewerCount.value else base.viewerCount,
      if p.gameName.Some? then p.gameName.value else base.gameName,
      if p.title.Some? then p.title.value else base.title,
      if p.profileImage.Some? then p.profileImage.value else base.profileImage,
      now)
  }

  function ApplyEdit(st: Stream, e: Edit): Stream {
    match e
    case SetVolume(v) => st.(volume := v)
    case ToggleMute => st.(isMuted := !st.isMuted)
    case Reload => st.(reloadKey := st.reloadKey + 1)
    case MergeMetadata(p, now) => st.(metadata := Some(Merge(st.metadata, p, now)))
  }

  /** `streams.map(s => s.id === id ? edit(s) : s)`. */
  function EditStreams(l: seq<Stream>, id: string, e: Edit): (r: seq<Stream>)
    ensures |r| == |l|
  {
    seq(|l|, k requires 0 <= k < |l| => if l[k].id == id then ApplyEdit(l[k], e) else l[k])
  }

  /** `setStreamRect(id, rect)`: a copied table with the key deleted or set. */
  function SetRect(m: map<string, Rect>, id: string, rect: Option<Rect>): map<string, Rect> {
    if rect.None? then m - {id} else m[id := rect.value]
  }

  /** One call of a store action, with its arguments. */
  datatype Action =
    | AddStreamAction(input: string, host: string, freshId: string)
    | RemoveStreamAction(id: string)
    | ReorderStreamsAction(streams: seq<Stream>)
    | UpdateGridProportionAction(axis: Axis, index: nat, value: real)
    | SetFeaturedStreamAction(featured: Option<string>)
    | SetActiveChatStreamAction(chat: Option<string>)
    | SetCustomMapUrlAction(url: string)
    | SetLayoutTypeAction(layout: Layout)
    | ToggleSidebarAction
    | ToggleChatAction
    | ToggleMapAction
    | EditStreamAction(target: string, edit: Edit)
    | ResetLayoutAction
    | SetSidebarWidthAction(width: real)
    | SetMapHeightAction(height: real)
    | SetStreamRectAction(rectId: string, rect: Option<Rect>)
    | SetFlexLayoutStateAction(flex: string)
    | LoginTwitchAction(account: Account)
    | LogoutTwitchAction
    | LoginKickAction(account: Account)
    | LogoutKickAction
    | SetCustomClientIdAction(clientId: string)
    | SetKickClientIdAction(clientId: string)

  /** What an action needs of its arguments: a fresh non-empty id for an add,
      and an index inside the addressed axis for a proportion update. */
  predicate Defined(s: State, a: Action) {
    match a
    case AddStreamAction(_, _, freshId) => freshId != "" && !HasId(s.streams, freshId)
    case UpdateGridProportionAction(axis, index, _) => index < |AxisOf(s.gridProportions, axis)|
    case _ => true
  }

  /** The store's `set` for one action. */
  function Step(s: State, a: Action): State
    requires Defined(s, a)
  {
    match a
    case AddStreamAction(input, host, freshId) => AddStream(s, input, host, freshId)
    case RemoveStreamAction(id) => RemoveStream(s, id)
    case ReorderStreamsAction(l) => s.(streams := l)
    case UpdateGridProportionAction(axis, index, value) => UpdateGridProportion(s, axis, index, value)
    case SetFeaturedStreamAction(id) => SetFeaturedStream(s, id)
    case SetActiveChatStreamAction(id) => s.(activeChatStreamId := id)
    case SetCustomMapUrlAction(url) => s.(customMapUrl := url)
    case SetLayoutTypeAction(layout) => s.(layoutType := layout)
    case ToggleSidebarAction => s.(sidebarVisible := !s.sidebarVisible)
    case ToggleChatAction => s.(chatVisible := !s.chatVisible)
    case ToggleMapAction => s.(mapVisible := !s.mapVisible)
    case EditStreamAction(id, e) => s.(streams := EditStreams(s.streams, id, e))
    case ResetLayoutAction => s.(gridProportions := DefaultProportions, layoutType := Grid)
    case SetSidebarWidthAction(w) => s.(sidebarWidth := w)
    case SetMapHeightAction(h) => s.(mapHeight := h)
    case SetStreamRectAction(id, rect) => s.(streamRects := SetRect(s.streamRects, id, rect))
    case SetFlexLayoutStateAction(flex) => s.(flexLayoutState := Some(flex))
    case LoginTwitchAction(acc) => s.(auth := s.auth.(twitch := Some(acc)))
    case LogoutTwitchAction => s.(auth := s.auth.(twitch := None))
    case LoginKickAction(acc) => s.(auth := s.auth.(kick := Some(acc)))
    case LogoutKickAction => s.(auth := s.auth.(kick := None))
    case SetCustomClientIdAction(id) => s.(customClientId := id)
    case SetKickClientIdAction(id) => s.(kickClientId := id)
  }

  // ---------------------------------------------------------------------
  // Persistence

  /** The slice of the state `partialize` hands to storage: everything but
      `streamRects`. */
  datatype Persisted = Persisted(
    streams: seq<Stream>,
    sidebarVisible: bool,
    chatVisible: bool,
    mapVisible: bool,
    sidebarWidth: real,
    mapHeight: real,
    featuredStreamId: Option<string>,
    activeChatStreamId: Option<string>,
    customMapUrl: string,
    layoutType: Layout,
    gridProportions: Proportions,
    flexLayoutState: Option<string>,
    auth: Auth,
    customClientId: string,
    kickClientId: string)

  function Partialize(s: State): Persisted {
    Persisted(s.streams, s.sidebarVisible, s.chatVisible, s.mapVisible, s.sidebarWidth, s.mapHeight,
      s.featuredStreamId, s.activeChatStreamId, s.customMapUrl, s.layoutType, s.gridProportions,
      s.flexLayoutState, s.auth, s.customClientId, s.kickClientId)
  }

  /** Rehydration: the stored slice spread over a fresh state. */
  function Rehydrate(base: State, p: Persisted): State {
    base.(streams := p.streams, sidebarVisible := p.sidebarVisible, chatVisible := p.chatVisible,
      mapVisible := p.mapVisible, sidebarWidth := p.sidebarWidth, mapHeight := p.mapHeight,
      featuredStreamId := p.featuredStreamId, activeChatStreamId := p.activeChatStreamId,
      customMapUrl := p.customMapUrl, layoutType := p.layoutType, gridProportions := p.gridProportions,
      flexLayoutState := p.flexLayoutState, auth := p.auth, customClientId := p.customClientId,
      kickClientId := p.kickClientId)
  }
}
