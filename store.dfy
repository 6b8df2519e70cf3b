/** The store object behind `useStreamStore`: one field per state key, one
    method per action. Each method replaces the fields its `set` call names
    and is proved to leave the store in the state `Registry.Step` gives, so
    every fact proved about `Step` holds of the store. */
module Store {
  import opened Basics
  import opened StreamInput
  import opened Registry
  import opened RegistryFacts

  class StreamStore {
    var streams: seq<Stream>
    var sidebarVisible: bool
    var chatVisible: bool
    var mapVisible: bool
    var sidebarWidth: real
    var mapHeight: real
    var featuredStreamId: Option<string>
    var activeChatStreamId: Option<string>
    var customMapUrl: string
    var layoutType: Layout
    var gridProportions: Proportions
    var streamRects: map<string, Rect>
    var flexLayoutState: Option<string>
    var auth: Auth
    var customClientId: string
    var kickClientId: string

    /** The store's fields as one state value. */
    function State(): State
      reads this
    {
      Registry.State(streams, sidebarVisible, chatVisible, mapVisible, sidebarWidth, mapHeight,
        featuredStreamId, activeChatStreamId, customMapUrl, layoutType, gridProportions,
        streamRects, flexLayoutState, auth, customClientId, kickClientId)
    }

    /** The registry invariant: non-empty ids, no two entries with the same
        id or the same channel. */
    predicate Valid()
      reads this
    {
      WellFormed(streams)
    }

    /** The initial state of `create(...)`. */
    constructor ()
      ensures State() == InitialState && Valid()
    {
      streams := [];
      sidebarVisible := true;
      chatVisible := true;
      mapVisible := true;
      sidebarWidth := 360.0;
      mapHeight := 300.0;
      featuredStreamId := None;
      activeChatStreamId := None;
      customMapUrl := "";
      layoutType := Grid;
      gridProportions := Proportions([50.0, 50.0], [50.0, 50.0]);
      streamRects := map[];
      flexLayoutState := None;
      auth := Auth(None, None);
      customClientId := "6gu4wf1zdyfcxcgmedhazg3sswibof";
      kickClientId := "01KEJ794H7E71R2YZKFYZCYDDV";
    }

    /** `addStream(urlOrName)`; `freshId` is the value of `uuidv4()` and
        `host` the page's host name. */
    method AddStream(urlOrName: string, host: string, freshId: string)
      requires freshId != "" && !HasId(streams, freshId)
      modifies this
      ensures State() == Step(old(State()), AddStreamAction(urlOrName, host, freshId))
      ensures old(Valid()) ==> Valid()
    {
      var parsed := ParseStreamInput(urlOrName, host);
      AddParsedStream(parsed, freshId);
    }

    /** The `set` callback of `addStream` once the input is parsed: nothing
        for a rejected input or a channel already listed on that platform,
        else the new entry appended and unset references pointed at it. */
    method AddParsedStream(parsed: Option<Parsed>, freshId: string)
      requires freshId != "" && !HasId(streams, freshId)
      modifies this
      ensures State() == AddParsed(old(State()), parsed, freshId)
      ensures old(Valid()) ==> Valid()
    {
      ghost var s := State();
      if WellFormed(s.streams) {
        AddParsedKeepsWellFormed(s, parsed, freshId);
      }
      if parsed.None? {
        return;
      }
      var p := parsed.value;
      if IsDuplicate(streams, p.channelName, p.platform) {
        return;
      }
      var newStream := Stream(freshId, p.channelName, p.platform, p.url, false, 0.5, 0, None);
      streams := streams + [newStream];
      featuredStreamId := if Truthy(featuredStreamId) then featuredStreamId else Some(newStream.id);
      activeChatStreamId := if Truthy(activeChatStreamId) then activeChatStreamId else Some(newStream.id);
    }

    /** `removeStream(id)`. */
    method RemoveStream(id: string)
      modifies this
      ensures State() == Step(old(State()), RemoveStreamAction(id))
      ensures old(Valid()) ==> Valid()
    {
      ghost var s := State();
      assert Step(s, RemoveStreamAction(id)) == Registry.RemoveStream(s, id);
      if WellFormed(s.streams) {
        StepKeepsWellFormed(s, RemoveStreamAction(id));
      }
      var nextStreams := FilterOut(streams, id);
      var nextChatId := activeChatStreamId;
      if activeChatStreamId == Some(id) {
        nextChatId := if nextStreams != [] && nextStreams[0].id != "" then Some(nextStreams[0].id) else None;
      }
      streams := nextStreams;
      featuredStreamId :=
        if featuredStreamId == Some(id) then
          (if nextStreams != [] && nextStreams[0].id != "" then Some(nextStreams[0].id) else None)
        else featuredStreamId;
      activeChatStreamId := nextChatId;
      assert State() == Registry.RemoveStream(s, id);
    }

    /** `reorderStreams(list)`: takes the list as given. The invariant is kept
        when the list is a reordering of the current one (or empty). */
    method ReorderStreams(list: seq<Stream>)
      modifies this
      ensures State() == Step(old(State()), ReorderStreamsAction(list))
      ensures old(Valid()) && (list == [] || multiset(list) == multiset(old(streams))) ==> Valid()
    {
      ghost var s := State();
      streams := list;
      if WellFormed(s.streams) && (list == [] || multiset(list) == multiset(s.streams)) {
        StepKeepsWellFormed(s, ReorderStreamsAction(list));
      }
    }

    /** `updateGridProportion(type, index, value)`, for an index inside the
        addressed list. */
    method UpdateGridProportion(axis: Axis, index: nat, value: real)
      requires index < |AxisOf(gridProportions, axis)|
      modifies this
      ensures State() == Step(old(State()), UpdateGridProportionAction(axis, index, value))
    {
      var current := AxisOf(gridProportions, axis);
      var next := new real[|current|](i requires 0 <= i < |current| => current[i]);
      next[index] := value;
      if index < next.Length - 1 {
        var diff := value - current[index];
        next[index + 1] := MaxReal(MinProportion, next[index + 1] - diff);
      }
      gridProportions := WithAxis(gridProportions, axis, next[..]);
    }

    /** `setFeaturedStream(id)`: mutes every other entry, moves the entry to
        the front with `splice` and `unshift`, and points both references at it. */
    method SetFeaturedStream(id: Option<string>)
      modifies this
      ensures State() == Step(old(State()), SetFeaturedStreamAction(id))
      ensures old(Valid()) ==> Valid()
    {
      ghost var s := State();
      if WellFormed(s.streams) {
        SetFeaturedStreamKeepsWellFormed(s, id);
      }
      if !Truthy(id) {
        featuredStreamId := None;
      } else {
        FeatureStream(id.value);
      }
    }

    /** The part of `setFeaturedStream` for an id that is set. */
    method FeatureStream(id: string)
      requires id != ""
      modifies this
      ensures State() == Registry.SetFeaturedStream(old(State()), Some(id))
    {
      var updated := SoloMute(streams, id);
      var index := FindIndex(updated, id);
      if index > -1 {
        updated := SpliceToFront(updated, index);
      }
      featuredStreamId := Some(id);
      activeChatStreamId := Some(id);
      streams := updated;
      layoutType := if layoutType == Grid then Featured else layoutType;
    }

    /** `const [x] = l.splice(i, 1); l.unshift(x)` on a copy of `l`. */
    static method SpliceToFront(l: seq<Stream>, i: nat) returns (r: seq<Stream>)
      requires i < |l|
      ensures r == MoveToFront(l, i)
    {
      var stream := l[i];
      r := l[..i] + l[i + 1..];
      r := [stream] + r;
    }

    method SetActiveChatStream(id: Option<string>)
      modifies this
      ensures State() == Step(old(State()), SetActiveChatStreamAction(id))
    {
      activeChatStreamId := id;
    }

    method SetCustomMapUrl(url: string)
      modifies this
      ensures State() == Step(old(State()), SetCustomMapUrlAction(url))
    {
      customMapUrl := url;
    }

    method SetLayoutType(layout: Layout)
      modifies this
      ensures State() == Step(old(State()), SetLayoutTypeAction(layout))
    {
      layoutType := layout;
    }

    method ToggleSidebar()
      modifies this
      ensures State() == Step(old(State()), ToggleSidebarAction)
    {
      sidebarVisible := !sidebarVisible;
    }

    method ToggleChat()
      modifies this
      ensures State() == Step(old(State()), ToggleChatAction)
    {
      chatVisible := !chatVisible;
    }

    method ToggleMap()
      modifies this
      ensures State() == Step(old(State()), ToggleMapAction)
    {
      mapVisible := !mapVisible;
    }

    /** `setStreamVolume(id, volume)`. */
    method SetStreamVolume(id: string, volume: real)
      modifies this
      ensures State() == Step(old(State()), EditStreamAction(id, SetVolume(volume)))
      ensures old(Valid()) ==> Valid()
    {
      ghost var s := State();
      streams := EditStreams(streams, id, SetVolume(volume));
      if WellFormed(s.streams) { StepKeepsWellFormed(s, EditStreamAction(id, SetVolume(volume))); }
    }

    /** `toggleStreamMute(id)`. */
    method ToggleStreamMute(id: string)
      modifies this
      ensures State() == Step(old(State()), EditStreamAction(id, ToggleMute))
      ensures old(Valid()) ==> Valid()
    {
      ghost var s := State();
      streams := EditStreams(streams, id, ToggleMute);
      if WellFormed(s.streams) { StepKeepsWellFormed(s, EditStreamAction(id, ToggleMute)); }
    }

    /** `reloadStream(id)`. */
    method ReloadStream(id: string)
      modifies this
      ensures State() == Step(old(State()), EditStreamAction(id, Reload))
      ensures old(Valid()) ==> Valid()
    {
      ghost var s := State();
      streams := EditStreams(streams, id, Reload);
      if WellFormed(s.streams) { StepKeepsWellFormed(s, EditStreamAction(id, Reload)); }
    }

    /** `updateStreamMetadata(id, patch)`; `now` is the value of `Date.now()`. */
    method UpdateStreamMetadata(id: string, patch: MetadataPatch, now: int)
      modifies this
      ensures State() == Step(old(State()), EditStreamAction(id, MergeMetadata(patch, now)))
      ensures old(Valid()) ==> Valid()
    {
      ghost var s := State();
      streams := EditStreams(streams, id, MergeMetadata(patch, now));
      if WellFormed(s.streams) { StepKeepsWellFormed(s, EditStreamAction(id, MergeMetadata(patch, now))); }
    }

    method ResetLayout()
      modifies this
      ensures State() == Step(old(State()), ResetLayoutAction)
    {
      gridProportions := Proportions([50.0, 50.0], [50.0, 50.0]);
      layoutType := Grid;
    }

    method SetSidebarWidth(width: real)
      modifies this
      ensures State() == Step(old(State()), SetSidebarWidthAction(width))
    {
      sidebarWidth := width;
    }

    method SetMapHeight(height: real)
      modifies this
      ensures State() == Step(old(State()), SetMapHeightAction(height))
    {
      mapHeight := height;
    }

    /** `setStreamRect(id, rect)`: a copy of the table with the key deleted
        (for `null`) or set. */
    method SetStreamRect(id: string, rect: Option<Rect>)
      modifies this
      ensures State() == Step(old(State()), SetStreamRectAction(id, rect))
    {
      var next := streamRects;
      if rect.None? {
        next := next - {id};
      } else {
        next := next[id := rect.value];
      }
      streamRects := next;
    }

    method SetFlexLayoutState(flex: string)
      modifies this
      ensures State() == Step(old(State()), SetFlexLayoutStateAction(flex))
    {
      flexLayoutState := Some(flex);
    }

    method LoginTwitch(account: Account)
      modifies this
      ensures State() == Step(old(State()), LoginTwitchAction(account))
    {
      auth := auth.(twitch := Some(account));
    }

    method LogoutTwitch()
      modifies this
      ensures State() == Step(old(State()), LogoutTwitchAction)
    {
      auth := auth.(twitch := None);
    }

    method LoginKick(account: Account)
      modifies this
      ensures State() == Step(old(State()), LoginKickAction(account))
    {
      auth := auth.(kick := Some(account));
    }

    method LogoutKick()
      modifies this
      ensures State() == Step(old(State()), LogoutKickAction)
    {
      auth := auth.(kick := None);
    }

    method SetCustomClientId(clientId: string)
      modifies this
      ensures State() == Step(old(State()), SetCustomClientIdAction(clientId))
    {
      customClientId := clientId;
    }

    method SetKickClientId(clientId: string)
      modifies this
      ensures State() == Step(old(State()), SetKickClientIdAction(clientId))
    {
      kickClientId := clientId;
    }
  }
}
