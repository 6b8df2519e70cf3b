# MultiStreamZ in Dafny

MultiStreamZ is a browser multi-stream viewer. It keeps a registry of Twitch
and Kick streams in a persisted zustand store, and lays their players out in
several grid modes. It also shows a chat panel and an RTIRL map panel, and it
signs in with OAuth using PKCE. This project models the logic at the core of
the viewer and proves what it promises:

- **Stream input** (`stream_input.dfy`, `text.dfy`). Free text is validated
  and parsed into a channel name, platform and player URL. The URL regular
  expression and the name regular expression become predicates over
  characters, and JavaScript `trim`, `toLowerCase`, `indexOf` and `split` are
  written out.
- **The registry store** (`registry.dfy`, `registry_facts.dfy`,
  `registry_actions.dfy`, `store.dfy`). `Registry.State` holds the store's
  fields, and `Registry.Step` applies one store action to a state. The class
  `Store.StreamStore` has one field per store field and one method per action.
  Each method is proved to leave the store in the state `Step` gives. The
  registry invariant `WellFormed` says ids are non-empty and no two entries
  share an id or name the same channel. It is proved to hold across every
  action.
- **Stream grid** (`stream_grid.dfy`, `id_order.dfy`). This covers the
  drag-end reorder with `arrayMove` and the re-feature that follows it, and
  the snap flyout. The component state (`activeId`, `showSnapFlyout`,
  `ghostLayout`) becomes the class `StreamGrid.DragController`. Slots are
  emitted in id order, and each slot's CSS order and grid position are
  modelled too.
- **Resizable grid** (`resizable_grid.dfy`). This is the panel tree for each
  stream count. For five or more streams, the streams are split into
  `ceil(sqrt n)` rows of `ceil(n / rows)` streams. Resize handles are placed
  only between neighbours.
- **Interactive grid** (`interactive_grid.dfy`). The clamped splitter drag is
  the class `InteractiveGrid.Splitter`, which writes to the store. The views
  are one stream in full, two side by side, and a two-by-two grid.
- **Iframe portal layer** (`portal_layer.dfy`). Players are sorted by id and
  placed on their measured rectangles, with the z-index rule.
- **Stream tile** (`stream_tile.dfy`). This covers the embed URL and the
  `isLoading`/`hasError` state machine (class `StreamTile.TileState`).
- **Chat and map panels** (`chat_panel.dfy`, `map_panel.dfy`). These cover
  the active-chat fallback and the chat, popout and map URLs.
- **PKCE** (`pkce.dfy`). `base64UrlEncode` is proved equal to unpadded
  base64url, as in section 5 of RFC 4648. The proof goes through standard
  base64 (section 4 of RFC 4648) and the three character replacements. It is
  also proved injective, with an explicit decoder. The verifier and the
  challenge have the 43-character length that section 4.1 of RFC 7636 allows.

`uuidv4()`, `Date.now()` and `window.location.hostname` are parameters
(`freshId`, `now`, `host`). A fresh id must be non-empty and not already
listed. A splitter's pointer position arrives as a percentage. The random
bytes of the code verifier and the SHA-256 digest of the challenge arrive as
byte sequences.

Where the code and the documented intent differ, the model follows the code:

- `setFeaturedStream` also switches the `grid` layout to `featured`.
- "Clear all" is `reorderStreams([])`. It leaves the featured and chat ids
  pointing at streams that no longer exist (`RegistryFacts.ClearAllLeavesDanglingRefs`).
- The portal layer keeps no last-known rectangle. A stream without a
  rectangle gets no player.
- `reloadKey` is increased by `reloadStream` but read by neither the tile key
  nor the embed URL.
- `reorderStreams` accepts any list. The registry invariant is proved to
  survive it only when the new list is a permutation of the old one or empty.
- The drag-move handler reads `clientY` from the activator event, which is
  the pointer-down position, not the current pointer.
- When an input holds both `twitch.tv/` and `kick.com/`, it parses as Twitch.
- The chat popout uses the kick.cx URL for every platform that is not Twitch.
- `split(marker)[1]` takes the text up to the second occurrence of the
  marker. A name cut short by a repeated marker is therefore possible. The
  stopping rule is stated by `StreamInputProperties.ChannelAfterMaximal`, and
  `StreamInputProperties.ChannelAfterUnique` shows that the rule determines
  the name.
- The resize handles of `ResizableGrid.tsx` (lines 12, 18, 30 and 35) call
  `setIsResizing`, which the store does not define. Every handle `mousedown`
  and every window `mouseup` while that grid is mounted therefore throws a
  `TypeError` and changes no store state. The model has no action for them.
- A splitter press in `InteractiveGrid.tsx` adds a new `mousemove`/`mouseup`
  pair on every press. A release the document never receives (over a player
  iframe, say) leaves the older pair installed, and later moves then drive
  both axes (`InteractiveGrid.MoveAllEffect`).

## Model

| member | source | states |
|---|---|---|
| Basics.OrElse | src/store/useStreamStore.ts:160-161 | `a \|\| b` keeps a non-empty id and otherwise falls back to `b` |
| Basics.OrNull | src/store/useStreamStore.ts:170 | `x \|\| null` is null exactly when `x` is null or empty, else `x` itself |
| Text.Trim | src/store/useStreamStore.ts:81 | the trimmed text is an infix of the input with only JavaScript white space around it, and it neither starts nor ends with white space |
| Text.TrimStart | src/store/useStreamStore.ts:81 | what is cut from the front is all JavaScript white space, and what is left starts with a non-space |
| Text.TrimEnd | src/store/useStreamStore.ts:81 | what is cut from the back is all JavaScript white space, and what is left ends with a non-space |
| Text.TrimIdempotent | src/store/useStreamStore.ts:90-92 | trimming twice (once in the parser, once in the validator) is the same as trimming once |
| Text.ToLower | src/store/useStreamStore.ts:144 | same length; each upper-case ASCII letter is lowered and every other character is kept |
| Text.JsLength | src/store/useStreamStore.ts:82 | `length` counts UTF-16 code units: at least one and at most two per character |
| Text.JsLengthCountsCharacters | src/store/useStreamStore.ts:82 | `length` equals the number of characters exactly when no character lies outside the Basic Multilingual Plane |
| Text.IndexOf | src/store/useStreamStore.ts:94-100 | the result is the first occurrence of the separator, or none when it never occurs |
| Text.SplitFirst | src/store/useStreamStore.ts:95 | `split(sep)[0]` is the prefix before the first occurrence, or the whole text when there is none |
| Text.SplitSecond | src/store/useStreamStore.ts:95 | `split(sep)[1]` is the prefix of the text after the first occurrence that runs up to the next occurrence, or to the end when there is none |
| Text.SplitFirstExcludes | src/store/useStreamStore.ts:95 | a piece cut with `split(c)[0]` never contains `c` |
| StreamInput.ChannelAfter | src/store/useStreamStore.ts:95-100 | the extracted name is a prefix of the text after the first marker, holds no `?` or `/`, and no second marker starts inside it |
| StreamInput.ParseStreamInput | src/store/useStreamStore.ts:89-106 | a parsed stream is Twitch or Kick, its player URL is built from its name (and host for Twitch), and the name holds no `?` or `/` |
| StreamInput.NonUrlValidIsName | src/store/useStreamStore.ts:104-105 | valid input without a URL marker matches the bare-name pattern |
| StreamInputFacts.UrlPatternTestCorrect | src/store/useStreamStore.ts:84 | the left-to-right test accepts exactly the texts that some choice of `https?`, `(www\.)?` and domain in the start-anchored pattern matches |
| StreamInputProperties.ParseRejectsExactly | src/store/useStreamStore.ts:80-92 | parsing fails exactly when the trimmed text is shorter than 2 or longer than 100 UTF-16 code units, or matches neither pattern |
| StreamInputProperties.ParseBareName | src/store/useStreamStore.ts:104-105 | a bare 2–25 character name parses as a Twitch stream with that name, unchanged |
| StreamInputProperties.ParsePlatform | src/store/useStreamStore.ts:94-105 | valid input parses as Kick exactly when it holds `kick.com/` and not `twitch.tv/`, and as Twitch otherwise (Twitch wins when both occur) |
| StreamInputProperties.ChannelAfterMaximal | src/store/useStreamStore.ts:95-100 | no second marker starts inside the extracted name, and the name stops only at the end of the text, a `?`, a `/` or a second marker |
| StreamInputProperties.ChannelAfterUnique | src/store/useStreamStore.ts:95-100 | any text that meets the stopping rule is the extracted name, so the rule states the `split` chain exactly |
| StreamInputRoundTrip.ParseTwitchPage | src/store/useStreamStore.ts:94-97 | the Twitch page URL of any valid name parses back to that name on Twitch |
| StreamInputRoundTrip.ParseKickPage | src/store/useStreamStore.ts:99-102 | the Kick page URL of any valid name parses back to that name on Kick |
| StreamInputRoundTrip.ParseChannelPage | src/store/useStreamStore.ts:89-106 | round trip: the channel page URL of a valid name parses back to the same name, platform and player URL |
| Registry.FindById | src/components/ChatPanel.tsx:13 | `find` by id returns the entry at the first index with that id, and none exactly when no entry has it |
| Registry.FindIndex | src/store/useStreamStore.ts:207 | `findIndex` gives the first index with the id, or -1 exactly when the id is absent |
| Registry.FilterOut | src/store/useStreamStore.ts:166 | the kept entries are exactly the listed entries with another id |
| Registry.FirstId | src/store/useStreamStore.ts:170 | `nextStreams[0]?.id` is present exactly when the list is non-empty, and is the head's id |
| Registry.NewStream | src/store/useStreamStore.ts:148-156 | a new entry carries the fresh id and the parsed fields, is unmuted, has volume 0.5, reload key 0 and no metadata |
| Registry.MoveToFront | src/store/useStreamStore.ts:207-211 | the splice-and-unshift puts the chosen entry first and is a permutation of the list |
| StreamLists.PermutationKeepsWellFormed | src/store/useStreamStore.ts:180 | a reorder that only permutes the list keeps the registry invariant |
| StreamLists.FilterOutKeepsWellFormed | src/store/useStreamStore.ts:166 | filtering keeps the registry invariant |
| StreamLists.FilterOutAt | src/store/useStreamStore.ts:166 | with unique ids, filtering out an entry's id removes exactly that position |
| StreamLists.FindByIdUnique | src/components/ChatPanel.tsx:13 | with unique ids, `find` returns an entry exactly when it is listed with that id |
| RegistryFacts.AddParsedEffect | src/store/useStreamStore.ts:134-163 | `addStream` leaves the state unchanged exactly on invalid input or a case-insensitive duplicate on the same platform; otherwise it appends one default entry and fills only an unset featured or chat id |
| RegistryFacts.AddParsedTwice | src/store/useStreamStore.ts:143-146 | adding the same parsed stream again is rejected as a duplicate |
| RegistryFacts.AddStreamTwice | src/store/useStreamStore.ts:134-163 | adding the same text twice has the effect of adding it once |
| RegistryFacts.AddParsedKeepsWellFormed | src/store/useStreamStore.ts:134-163 | `addStream` keeps ids unique and (lower-cased name, platform) unique |
| RegistryFacts.NewStreamNoClash | src/store/useStreamStore.ts:143-157 | an entry that passed the duplicate test clashes with no listed entry |
| RegistryFacts.RemoveStreamEffect | src/store/useStreamStore.ts:165-178 | `removeStream` drops exactly the entries with the id (no-op when absent) and moves a featured or chat reference to it onto the new first id or null; unrelated references and fields are untouched |
| RegistryFacts.RemoveStreamKeepsWellFormed | src/store/useStreamStore.ts:165-178 | removal keeps the registry invariant |
| RegistryFacts.RemoveStreamKeepsRefs | src/store/useStreamStore.ts:165-178 | if the featured and chat ids named listed streams before a removal, they still do after it |
| RegistryFacts.AddParsedKeepsRefs | src/store/useStreamStore.ts:158-162 | adding keeps the featured and chat ids pointing at listed streams |
| RegistryFacts.ClearAllLeavesDanglingRefs | src/store/useStreamStore.ts:180 | `reorderStreams([])` leaves a featured id that names no listed stream |
| RegistryFacts.SoloMuteSlices | src/store/useStreamStore.ts:202-205 | muting by id commutes with slicing the list |
| RegistryFacts.SetFeaturedStreamNull | src/store/useStreamStore.ts:199 | featuring null or an empty id only clears `featuredStreamId` |
| RegistryFacts.SetFeaturedStreamSolo | src/store/useStreamStore.ts:198-219 | featuring an id mutes every other entry and unmutes the featured one; it sets both the featured and the chat id, permutes the list (unchanged order when absent), turns `grid` into `featured` and changes nothing else |
| RegistryFacts.SetFeaturedStreamFront | src/store/useStreamStore.ts:207-211 | the featured entry, unmuted, moves to index 0; the others, muted, keep their relative order |
| RegistryFacts.SetFeaturedStreamKeepsWellFormed | src/store/useStreamStore.ts:198-219 | featuring keeps the registry invariant |
| RegistryFacts.EditStreamsTouchesOnlyTarget | src/store/useStreamStore.ts:231-241 | a per-stream setter changes only the entries with the id; length and order are kept |
| RegistryFacts.ApplyEditFields | src/store/useStreamStore.ts:231-241 | each setter changes only its own field; a reload raises `reloadKey` by one and no other edit touches it |
| RegistryFacts.ToggleMuteTwice | src/store/useStreamStore.ts:235-237 | toggling mute twice restores the list |
| RegistryFacts.EditStreamsKeepsWellFormed | src/store/useStreamStore.ts:231-241 | per-stream setters keep the registry invariant |
| RegistryFacts.MergeFields | src/store/useStreamStore.ts:271-276 | each metadata field comes from the patch when it carries the field, else from the old metadata or the default; `lastUpdated` is the given time |
| RegistryFacts.MergeTwice | src/store/useStreamStore.ts:271-276 | two merges equal one merge of the overlaid patches at the later time |
| RegistryFacts.SumUpdate | src/store/useStreamStore.ts:184 | writing one entry changes the sum by the difference |
| RegistryFacts.AdjustProportionsEntries | src/store/useStreamStore.ts:182-189 | entry `i` becomes the value, entry `i+1` (if any) gives up the difference but stays at least 10, and every other entry is kept |
| RegistryFacts.AdjustProportionsSum | src/store/useStreamStore.ts:185-189 | the axis sum is kept whenever the clamp at 10 does not fire |
| RegistryFacts.UpdateGridProportionOtherAxis | src/store/useStreamStore.ts:190-195 | a proportion update rewrites only the addressed axis; the other axis and all other fields are unchanged |
| RegistryFacts.SetRectOnlyKey | src/store/useStreamStore.ts:253-261 | null deletes exactly that key, a rectangle sets exactly that key, and other keys are untouched |
| RegistryFacts.SetRectIdempotent | src/store/useStreamStore.ts:253-261 | repeating the same rectangle update changes nothing |
| RegistryFacts.SetRectLastWins | src/store/useStreamStore.ts:253-261 | of two updates to one key, the last wins |
| RegistryFacts.StepKeepsWellFormed | src/store/useStreamStore.ts:134-276 | every action (with `reorderStreams` given a permutation or the empty list) keeps the registry invariant |
| RegistryFacts.ListedKeyCarried | src/store/useStreamStore.ts:180 | a listed entry keeps its reload key |
| RegistryFacts.SameKeyCarried | src/store/useStreamStore.ts:202-205 | an entry rebuilt with the same id and key keeps its reload key |
| RegistryFacts.AddKeyCarried | src/store/useStreamStore.ts:155 | after an add, a new entry has reload key 0 and old entries keep theirs |
| RegistryFacts.SetFeaturedKeyCarried | src/store/useStreamStore.ts:202-211 | featuring keeps every reload key |
| RegistryFacts.EditKeyCarried | src/store/useStreamStore.ts:231-241 | only a reload of that id raises its key, by exactly one |
| RegistryFacts.StepReloadKey | src/store/useStreamStore.ts:239-241 | across any action, a reload key rises by one only through `reloadStream` on that id and never otherwise changes; new entries start at 0 |
| RegistryFacts.RehydratePartialize | src/store/useStreamStore.ts:315-331 | rehydrating the persisted slice gives back the state with an empty rectangle table |
| RegistryFacts.PartializeIgnoresRects | src/store/useStreamStore.ts:315-331 | the rectangle table is not persisted |
| Store.StreamStore.constructor | src/store/useStreamStore.ts:111-132 | the store starts in the documented initial state, which satisfies the invariant |
| Store.StreamStore.AddStream | src/store/useStreamStore.ts:134-163 | `addStream` applies the add action and keeps the invariant |
| Store.StreamStore.AddParsedStream | src/store/useStreamStore.ts:134-163 | the add applied to an already-parsed input keeps the invariant |
| Store.StreamStore.RemoveStream | src/store/useStreamStore.ts:165-178 | `removeStream` applies the removal and keeps the invariant |
| Store.StreamStore.ReorderStreams | src/store/useStreamStore.ts:180 | the list is replaced; the invariant is kept for a permutation or the empty list |
| Store.StreamStore.UpdateGridProportion | src/store/useStreamStore.ts:182-196 | the axis copy written in place equals the proportion-update action |
| Store.StreamStore.SetFeaturedStream | src/store/useStreamStore.ts:198-219 | `setFeaturedStream` applies the feature action and keeps the invariant |
| Store.StreamStore.FeatureStream | src/store/useStreamStore.ts:198-219 | featuring a non-empty id, as the drag handler does |
| Store.StreamStore.SetActiveChatStream | src/store/useStreamStore.ts:221 | only the chat id changes |
| Store.StreamStore.SetCustomMapUrl | src/store/useStreamStore.ts:223 | only the custom map URL changes |
| Store.StreamStore.SetLayoutType | src/store/useStreamStore.ts:225 | only the layout changes |
| Store.StreamStore.ToggleSidebar | src/store/useStreamStore.ts:227 | only the sidebar flag flips |
| Store.StreamStore.ToggleChat | src/store/useStreamStore.ts:228 | only the chat flag flips |
| Store.StreamStore.ToggleMap | src/store/useStreamStore.ts:229 | only the map flag flips |
| Store.StreamStore.SetStreamVolume | src/store/useStreamStore.ts:231-233 | the volume edit is applied to the entry with the id; the invariant is kept |
| Store.StreamStore.ToggleStreamMute | src/store/useStreamStore.ts:235-237 | the mute toggle is applied to the entry with the id; the invariant is kept |
| Store.StreamStore.ReloadStream | src/store/useStreamStore.ts:239-241 | the reload is applied to the entry with the id; the invariant is kept |
| Store.StreamStore.UpdateStreamMetadata | src/store/useStreamStore.ts:271-276 | the metadata merge is applied to the entry with the id; the invariant is kept |
| Store.StreamStore.ResetLayout | src/store/useStreamStore.ts:243-249 | proportions go back to 50/50 on both axes and the layout to `grid` |
| Store.StreamStore.SetSidebarWidth | src/store/useStreamStore.ts:251 | only the sidebar width changes |
| Store.StreamStore.SetMapHeight | src/store/useStreamStore.ts:252 | only the map height changes |
| Store.StreamStore.SetStreamRect | src/store/useStreamStore.ts:253-261 | the rectangle table is updated for that key |
| Store.StreamStore.SetFlexLayoutState | src/store/useStreamStore.ts:263 | only the flex layout state changes |
| Store.StreamStore.LoginTwitch | src/store/useStreamStore.ts:265 | only the Twitch account changes |
| Store.StreamStore.LogoutTwitch | src/store/useStreamStore.ts:266 | only the Twitch account is cleared |
| Store.StreamStore.LoginKick | src/store/useStreamStore.ts:267 | only the Kick account changes |
| Store.StreamStore.LogoutKick | src/store/useStreamStore.ts:268 | only the Kick account is cleared |
| Store.StreamStore.SetCustomClientId | src/store/useStreamStore.ts:269 | only the Twitch client id changes |
| Store.StreamStore.SetKickClientId | src/store/useStreamStore.ts:270 | only the Kick client id changes |
| IdOrder.IdLessIrreflexive | src/components/IframePortalLayer.tsx:10 | the id order is irreflexive |
| IdOrder.IdLessTransitive | src/components/IframePortalLayer.tsx:10 | the id order is transitive |
| IdOrder.IdLessTotal | src/components/IframePortalLayer.tsx:10 | any two distinct ids are ordered |
| IdOrder.SortByIdSorted | src/components/IframePortalLayer.tsx:10 | the sorted copy is ordered by id and is a permutation of the list |
| IdOrder.StrictlySortedUnique | src/components/StreamGrid.tsx:107 | two strictly id-sorted permutations of each other are equal |
| IdOrder.SortByIdPermutationInvariant | src/components/StreamGrid.tsx:107 | with unique ids, sorting by id gives the same list for every ordering of the registry |
| StreamGrid.InsertRemove | src/components/StreamGrid.tsx:69 | removing what was just inserted at an index gives the list back |
| StreamGrid.RemoveInsert | src/components/StreamGrid.tsx:69 | putting a removed entry back where it was gives the list back |
| StreamGrid.ArrayMoveEffect | src/components/StreamGrid.tsx:69 | `arrayMove` puts the moved entry at the target index, keeps the others in relative order and is a permutation |
| StreamGrid.ArrayMoveUndo | src/components/StreamGrid.tsx:69 | moving back undoes a move |
| StreamGrid.ArrayMoveInPlace | src/components/StreamGrid.tsx:69 | a move onto the same index changes nothing |
| StreamGrid.DroppedOrderEffect | src/components/StreamGrid.tsx:66-69 | the dragged entry lands at the target's old index, the others keep their order, and the result is a permutation |
| StreamGrid.DragEndNoDrop | src/components/StreamGrid.tsx:66 | a drop on nothing or on the dragged entry changes no store state |
| StreamGrid.DragEndReorders | src/components/StreamGrid.tsx:66-71 | outside featured and sidebar modes, a drop only reorders the list |
| StreamGrid.DragEndRefeatures | src/components/StreamGrid.tsx:73-75 | in featured and sidebar modes, the new first entry is featured, chat-selected and the only unmuted one, and the layout is kept |
| StreamGrid.FeatureHead | src/components/StreamGrid.tsx:74 | featuring the entry already at the front keeps the order: it is unmuted and selected for chat, and the others are muted in place |
| StreamGrid.DragEndKeepsWellFormed | src/components/StreamGrid.tsx:59-77 | a drag end keeps the registry invariant |
| StreamGrid.DragController.constructor | src/components/StreamGrid.tsx:30-32 | nothing is dragged, the flyout is hidden and there is no ghost layout |
| StreamGrid.DragController.DragStart | src/components/StreamGrid.tsx:45-47 | only the dragged id is recorded |
| StreamGrid.DragController.DragMove | src/components/StreamGrid.tsx:49-57 | the flyout shows exactly while the pointer-down `clientY` is below 100 |
| StreamGrid.DragController.HoverLayout | src/components/StreamGrid.tsx:123 | only the ghost layout changes |
| StreamGrid.DragController.SelectLayout | src/components/StreamGrid.tsx:124-127 | picking a layout sets only the store's layout and hides the flyout |
| StreamGrid.DragController.DragEnd | src/components/StreamGrid.tsx:59-77 | the drag state goes back to idle, the store takes the drag-end state, and the invariant is kept |
| StreamGrid.FeaturedSpan | src/components/StreamGrid.tsx:166 | the featured slot spans at least one row, and `n - 1` rows for two or more streams |
| StreamGrid.Slots | src/components/StreamGrid.tsx:152-191 | one slot per stream |
| StreamGrid.SlotIdsPermutationInvariant | src/components/StreamGrid.tsx:107 | the slot keys come out in the same order whatever the registry order |
| StreamGrid.SlotOrderIsListIndex | src/components/StreamGrid.tsx:153-158 | every stream has a slot, whose CSS order is its registry index |
| StreamGrid.SlotPlacement | src/components/StreamGrid.tsx:154-177 | in featured mode index 0 sits in column 1 spanning the featured rows and the others in column 2; sidebar mode swaps the columns; other modes place nothing and mark nothing featured |
| ResizableGrid.CeilSqrt | src/components/ResizableGrid.tsx:119 | the least `r` with `r*r >= n` |
| ResizableGrid.CeilDiv | src/components/ResizableGrid.tsx:120 | the least `k` with `k*b >= a` |
| ResizableGrid.Slice | src/components/ResizableGrid.tsx:125 | `slice` with clamped ends is no longer than the list and non-empty when its start is inside the list and before its end |
| ResizableGrid.PartitionBound | src/components/ResizableGrid.tsx:119-120 | with `rows = ceil(sqrt n)` and `perRow = ceil(n/rows)`, the first `rows-1` rows do not use up all `n` streams |
| ResizableGrid.RowsFit | src/components/ResizableGrid.tsx:119-120 | `rows` rows of `perRow` hold all streams, and the last row still starts inside the list |
| ResizableGrid.RowChildrenLeaves | src/components/ResizableGrid.tsx:132-141 | a row shows exactly its streams, in order |
| ResizableGrid.RowsFromLeaves | src/components/ResizableGrid.tsx:124-149 | the rows together show the stream list in order |
| ResizableGrid.RowSizes | src/components/ResizableGrid.tsx:124-126 | every row has between 1 and `perRow` streams, so the empty-row skip never fires |
| ResizableGrid.RowNonEmpty | src/components/ResizableGrid.tsx:125-126 | a row before the last full one is never empty |
| ResizableGrid.TilingLeaves | src/components/ResizableGrid.tsx:41-150 | the tree renders nothing for no streams and otherwise every stream exactly once, in list order, for every count |
| ResizableGrid.RowChildrenAlternate | src/components/ResizableGrid.tsx:137-139 | within a row, a column handle follows every panel but the last |
| ResizableGrid.RowsAlternate | src/components/ResizableGrid.tsx:144-146 | a row handle follows every row but the last |
| ResizableGrid.TilingSeparated | src/components/ResizableGrid.tsx:52-150 | in every group of the tree, handles sit only between two neighbouring panels |
| InteractiveGrid.Clamp | src/components/InteractiveGrid.tsx:23 | the clamped value lies in [10, 90] and equals the input inside that range |
| InteractiveGrid.ShownIsFirstFour | src/components/InteractiveGrid.tsx:10-121 | the view shows the first four streams in order: nothing for none, one in full, two side by side, then a two-by-two grid |
| InteractiveGrid.NoSlotBeyondFour | src/components/InteractiveGrid.tsx:76-77 | with unique ids, no stream past index 3 is shown |
| InteractiveGrid.SizesSumToWhole | src/components/InteractiveGrid.tsx:50-121 | widths are `columns[0]` and `100 - columns[0]`, heights `rows[0]` and `100 - rows[0]`, each pair summing to 100 |
| InteractiveGrid.RenderShape | src/components/InteractiveGrid.tsx:10-79 | the view's shape follows the stream count alone |
| InteractiveGrid.DragMoveEffect | src/components/InteractiveGrid.tsx:21-27 | after a splitter drag, entry 0 of the dragged axis and its complement both lie in [10, 90]; the other axis and all other state are unchanged |
| InteractiveGrid.MoveAllEffect | src/components/InteractiveGrid.tsx:12-37 | one move with several pairs installed sets entry 0 of every axis that has a pair to its clamped pointer position, and changes nothing else |
| InteractiveGrid.Splitter.constructor | src/components/InteractiveGrid.tsx:8 | no splitter is active and no listener is installed |
| InteractiveGrid.Splitter.MouseDown | src/components/InteractiveGrid.tsx:12-38 | the axis is marked resizing and one more listener pair for it is installed after the ones already there |
| InteractiveGrid.Splitter.MouseMove | src/components/InteractiveGrid.tsx:15-28 | every installed pair, oldest first, applies its axis's update of entry 0 to the clamped percentage; with no pair nothing changes; the invariant is kept |
| InteractiveGrid.Splitter.MouseUp | src/components/InteractiveGrid.tsx:30-34 | each pair's handler runs, so resizing stops and every installed pair is removed |
| PortalLayer.TileOf | src/components/IframePortalLayer.tsx:15-34 | a stream gets a tile exactly when it has a rectangle, placed on it, keyed by id, at z-index 20 when featured and 10 otherwise |
| PortalLayer.ProjectCovers | src/components/IframePortalLayer.tsx:14-37 | every tile plays a listed stream on its rectangle, and every listed stream with a rectangle gets a tile |
| PortalLayer.ProjectKeysUnique | src/components/IframePortalLayer.tsx:19-20 | with unique ids, no two tiles share a key |
| PortalLayer.TileExactlyWhenRect | src/components/IframePortalLayer.tsx:15-16 | a listed stream has a tile exactly when it has a rectangle |
| PortalLayer.TilesPlaced | src/components/IframePortalLayer.tsx:10-37 | every emitted tile belongs to a listed stream and sits on its rectangle with the z-index rule; keys are unique |
| PortalLayer.TilesPermutationInvariant | src/components/IframePortalLayer.tsx:10-14 | reordering the registry leaves the emitted tiles exactly as they were |
| StreamTile.EmbedUrl | src/components/StreamTile.tsx:32-41 | the embed URL is empty exactly for platforms other than Twitch and Kick |
| StreamTile.EmbedUrlInputs | src/components/StreamTile.tsx:32-41 | the embed URL depends only on platform, name, host and (for Twitch) mute state |
| StreamTile.EmbedUrlMuteFlag | src/components/StreamTile.tsx:33-39 | Kick ignores mute; a Twitch URL ends in `&muted=true` exactly when the stream is muted |
| StreamTile.EmbedUrlExtendsStoredUrl | src/components/StreamTile.tsx:35-38 | for a freshly added stream, the Twitch embed URL is the stored player URL followed by `&muted=false`, and the Kick embed URL is the stored URL |
| StreamTile.TileState.constructor | src/components/StreamTile.tsx:14-15 | a tile starts loading, with no error and the player mounted |
| StreamTile.TileState.OnLoad | src/components/StreamTile.tsx:103 | load clears loading, keeps the error flag and plays unless the tile had failed |
| StreamTile.TileState.OnError | src/components/StreamTile.tsx:104 | an error sets the error, clears loading and unmounts the player |
| StreamTile.TileState.Retry | src/components/StreamTile.tsx:43-46 | retry goes back to loading with no error and remounts the player |
| ChatPanel.ActiveChatStream | src/components/ChatPanel.tsx:13 | the chat stream is the first entry with the active id, else the first entry, else none |
| ChatPanel.ChatUrl | src/components/ChatPanel.tsx:15-29 | the chat URL is empty exactly with no stream or a platform other than Twitch and Kick |
| ChatPanel.PopoutUrl | src/components/ChatPanel.tsx:31-38 | a popout opens exactly when there is a chat stream |
| ChatPanel.PopoutMatchesChat | src/components/ChatPanel.tsx:21-35 | the Kick popout is the embedded chat; the Twitch popout and chat share the popout base; other platforms embed nothing but pop out the kick.cx URL |
| ChatPanel.TabClickSelects | src/components/ChatPanel.tsx:72 | clicking a tab changes only the chat id, and the panel then shows that stream |
| ChatPanel.DanglingChatFallsBack | src/components/ChatPanel.tsx:13 | an unset or dangling chat id falls back to the first stream |
| MapPanel.MapUrl | src/components/MapPanel.tsx:15-25 | the map URL is never empty |
| MapPanel.PopoutUrl | src/components/MapPanel.tsx:27-31 | the popout opens the same URL that is embedded |
| MapPanel.MapUrlPrecedence | src/components/MapPanel.tsx:15-25 | a custom URL always wins, and otherwise only the first stream's name matters |
| MapPanel.MapUrlOnRtirl | src/components/MapPanel.tsx:19-24 | without a custom URL the map is on the RTIRL embed base, bare exactly when there are no streams |
| Pkce.ReplaceAll | src/utils/pkce.ts:16-17 | a global character replacement keeps the length |
| Pkce.RemoveAll | src/utils/pkce.ts:18 | removing a character never lengthens the text |
| Pkce.RewriteAllConcat | src/utils/pkce.ts:15-18 | the character rewrites distribute over concatenation |
| Pkce.ReplaceChainIsRewrite | src/utils/pkce.ts:15-18 | the three `replace` calls equal one per-character rewrite |
| Pkce.RewriteEncode | src/utils/pkce.ts:15-18 | rewriting padded standard base64 gives unpadded base64url, group by group |
| Pkce.Base64UrlEncodeIsBase64Url | src/utils/pkce.ts:14-19 | `base64UrlEncode` is exactly unpadded base64url (section 5 of RFC 4648) |
| Pkce.Base64UrlSymbols | src/utils/pkce.ts:14-19 | every output character is in the URL-safe alphabet |
| Pkce.Base64UrlLength | src/utils/pkce.ts:14-19 | `n` bytes encode to `ceil(4n/3)` characters |
| Pkce.GroupRoundTrip | src/utils/pkce.ts:15 | splitting three bytes into four 6-bit values and joining them gives the bytes back |
| Pkce.DecodeBase64Url | src/utils/pkce.ts:14-19 | decoding the encoding gives the bytes back |
| Pkce.Base64UrlEncodeInjective | src/utils/pkce.ts:14-19 | different byte strings never encode to the same text |
| Pkce.Base64UrlEncodeShape | src/utils/pkce.ts:14-19 | the output holds no `+`, `/` or `=`, only URL-safe symbols, and has `ceil(4n/3)` characters |
| Pkce.CodeVerifier | src/utils/pkce.ts:1-5 | the verifier of 32 random bytes has 43 URL-safe characters, within the 43–128 of section 4.1 of RFC 7636 |
| Pkce.CodeChallenge | src/utils/pkce.ts:7-12 | the challenge of a 32-byte SHA-256 digest has 43 URL-safe characters |

## Left out

- `validateAndAddStream` (src/store/useStreamStore.ts:277-311), `useMetadataSync` and `useAutocomplete` do network I/O. Only their effect, `addStream` and `updateStreamMetadata`, is modelled.
- `FlexGrid.tsx` wraps the flexlayout-react library. Its state is the opaque string `flexLayoutState`, so the interactive layout mode as rendered by `StreamGrid` is not modelled beyond that string.
- `InteractiveGrid.tsx` is modelled as written, although `StreamGrid` mounts `FlexGrid` and `ResizableGrid`, not it.
- Measurement in `StreamSlot.tsx` (ResizeObserver, `getBoundingClientRect`) is DOM I/O. Only its `setStreamRect` calls, with a rectangle or null, are inputs.
- The resize handles' `mousedown` and the window `mouseup` listener of `ResizableGrid.tsx` call `setIsResizing`, which the store does not define, so they throw and change no store state; they are not modelled. Panel sizes (`defaultSize`, `minSize`, drag behaviour) belong to react-resizable-panels and are kept only as constants.
- InteractiveGrid.Splitter.MouseMove: the pointer-to-percent conversion from `getBoundingClientRect` and the null check on the container ref are DOM reads. The percentages across and down the container are parameters.
- InteractiveGrid.Splitter.MouseMove: requires a non-empty proportion list on every axis that has a pair installed. JavaScript would write past the end of an empty array.
- Store.StreamStore.UpdateGridProportion: requires the index inside the axis. JavaScript would grow the array with holes.
- InteractiveGrid.Render: requires non-empty `columns` and `rows`, because JavaScript would print `undefined%`.
- StreamGrid.DragController.DragEnd: requires both dragged and target ids to be listed, because the `arrayMove` library body is not part of this model and a `findIndex` of -1 is not modelled.
- StreamGrid.DragController.DragEnd: dnd-kit's collision detection and sensors are library code. The `active` and `over` ids are parameters.
- `localeCompare` is modelled as lexicographic order on characters, a total order. Locale collation is not modelled.
- `Math.sqrt` and `Math.ceil` become the exact integer ceilings, which agree for the stream counts the application handles.
- Percentages, volume and geometry are real numbers, not IEEE doubles.
- Strings are sequences of Unicode scalar values. `s.length` is modelled as a count of UTF-16 code units (`Text.JsLength`), since that is what the 2-to-100 bound of `isValidStreamInput` counts. `trim`, `indexOf` and `split` work on characters; with the ASCII separators used here they cut in the same places as on code units.
- Text.ToLower: lowers ASCII letters only, where JavaScript lowers every cased letter (`É` to `é`). The duplicate test of `addStream` therefore tells apart names taken from URLs that differ only in the case of a non-ASCII letter, which JavaScript treats as the same channel.
- Store.StreamStore.ReorderStreams: keeps the registry invariant only for a permutation or the empty list, because the action accepts any list.
- The random bytes of `generateCodeVerifier`, the SHA-256 digest, `TextEncoder` and `btoa`'s Latin-1 conversion of bytes are foreign calls. Bytes and digest are parameters.
- `window.open` is modelled by returning the URL it would open.
- The wheel-volume step of `SidebarStreamList.tsx` is not modelled, because it is float arithmetic on volume; the volume setter it calls is modelled.
- zustand `persist` storage I/O, `stayAlive.ts` and the service worker are browser APIs. Only `partialize` and rehydration are modelled.
- Presentation components (`Header`, `StreamSelector`, `SettingsModal`, `Sidebar`, `BottomNav`, `SnapFlyout`, `LayoutSelector`, `StatusPanel`, `App`) and CSS are not modelled.
