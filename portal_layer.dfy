/** `IframePortalLayer`: one absolutely placed player per stream that has a
    measured rectangle, laid over the grid. The players are emitted in id
    order, so moving a stream in the list never remounts its iframe. */
module PortalLayer {
  import opened Basics
  import opened Registry
  import opened StreamLists
  import opened IdOrder

  const FeaturedLayer := 20
  const OtherLayer := 10

  /** One emitted player: its key, the stream it plays, its position and size
      in pixels and its stacking layer. */
  datatype Tile = Tile(
    key: string,
    stream: Stream,
    top: real,
    left: real,
    width: real,
    height: real,
    zIndex: int,
    isFeatured: bool)

  /** A tile that sits exactly on the rectangle recorded for its stream, with
      the featured stream on the upper layer. */
  predicate PlacedOn(t: Tile, rects: map<string, Rect>, featured: Option<string>) {
    && t.key == t.stream.id
    && t.stream.id in rects
    && var rect := rects[t.stream.id];
    && t.top == rect.top && t.left == rect.left
    && t.width == rect.width && t.height == rect.height
    && t.isFeatured == (featured == Some(t.stream.id))
    && t.zIndex == (if featured == Some(t.stream.id) then FeaturedLayer else OtherLayer)
  }

  /** The body of the `map` callback for one stream: no rectangle, no tile. */
  function TileOf(st: Stream, rects: map<string, Rect>, featured: Option<string>): (r: Option<Tile>)
    ensures r.Some? <==> st.id in rects
    ensures r.Some? ==> r.value.stream == st && PlacedOn(r.value, rects, featured)
  {
    if st.id !in rects then None
    else
      var rect := rects[st.id];
      var isFeatured := Some(st.id) == featured;
      Some(Tile(st.id, st, rect.top, rect.left, rect.width, rect.height,
                if isFeatured then FeaturedLayer else OtherLayer, isFeatured))
  }

  /** The tiles of a list, in its order, skipping streams with no rectangle. */
  function Project(l: seq<Stream>, rects: map<string, Rect>, featured: Option<string>): seq<Tile> {
    if l == [] then []
    else
      var head := TileOf(l[0], rects, featured);
      (if head.Some? then [head.value] else []) + Project(l[1..], rects, featured)
  }

  /** What the layer renders for a store state. */
  function Tiles(s: State): seq<Tile> {
    Project(SortById(s.streams), s.streamRects, s.featuredStreamId)
  }

  /** Every tile plays a listed stream and sits on its rectangle; every listed
      stream with a rectangle gets a tile. */
  lemma {:induction false} ProjectCovers(l: seq<Stream>, rects: map<string, Rect>, featured: Option<string>)
    ensures forall k :: 0 <= k < |Project(l, rects, featured)| ==>
      Project(l, rects, featured)[k].stream in l && PlacedOn(Project(l, rects, featured)[k], rects, featured)
    ensures forall st :: st in l && st.id in rects ==>
      exists k :: 0 <= k < |Project(l, rects, featured)| && Project(l, rects, featured)[k].stream == st
  {
    if l != [] {
      var r := Project(l, rects, featured);
      var head := TileOf(l[0], rects, featured);
      var front := if head.Some? then [head.value] else [];
      var rest := Project(l[1..], rects, featured);
      ProjectCovers(l[1..], rects, featured);
      assert r == front + rest;
      forall k | 0 <= k < |r| ensures r[k].stream in l && PlacedOn(r[k], rects, featured) {
        if k < |front| {
          assert r[k] == head.value && head.value.stream == l[0];
        } else {
          assert r[k] == rest[k - |front|];
          assert rest[k - |front|].stream in l[1..];
        }
      }
      forall st | st in l && st.id in rects ensures exists k :: 0 <= k < |r| && r[k].stream == st {
        if st == l[0] {
          assert r[0].stream == st;
        } else {
          assert st in l[1..];
          var k :| 0 <= k < |rest| && rest[k].stream == st;
          assert r[k + |front|].stream == st;
        }
      }
    }
  }

  /** An id no listed stream has is the key of no tile. */
  lemma ProjectAvoids(l: seq<Stream>, rects: map<string, Rect>, featured: Option<string>, id: string)
    requires !HasId(l, id)
    ensures forall k :: 0 <= k < |Project(l, rects, featured)| ==> Project(l, rects, featured)[k].key != id
  {
    ProjectCovers(l, rects, featured);
    forall k | 0 <= k < |Project(l, rects, featured)| ensures Project(l, rects, featured)[k].key != id {
      var st := Project(l, rects, featured)[k].stream;
      var m :| 0 <= m < |l| && l[m] == st;
    }
  }

  /** With unique ids in the list, no two tiles share a key. */
  lemma {:induction false} ProjectKeysUnique(l: seq<Stream>, rects: map<string, Rect>, featured: Option<string>)
    requires IdsUnique(l)
    ensures forall i, j :: 0 <= i < j < |Project(l, rects, featured)| ==>
      Project(l, rects, featured)[i].key != Project(l, rects, featured)[j].key
  {
    if l != [] {
      var r := Project(l, rects, featured);
      var head := TileOf(l[0], rects, featured);
      var front := if head.Some? then [head.value] else [];
      var rest := Project(l[1..], rects, featured);
      assert IdsUnique(l[1..]) && !HasId(l[1..], l[0].id) by {
        AbsentOutside(l, 0);
        assert l[1..] == l[0 + 1..];
      }
      ProjectKeysUnique(l[1..], rects, featured);
      ProjectAvoids(l[1..], rects, featured, l[0].id);
      assert r == front + rest;
      forall i, j | 0 <= i < j < |r| ensures r[i].key != r[j].key {
        if |front| == 1 && i == 0 {
          assert r[0].key == l[0].id && r[j] == rest[j - 1];
        } else {
          assert r[i] == rest[i - |front|] && r[j] == rest[j - |front|];
        }
      }
    }
  }

  /** A listed stream has a tile exactly when it has a rectangle; the tile
      sits on that rectangle, on layer 20 when the stream is featured and 10
      otherwise. */
  lemma TileExactlyWhenRect(s: State, st: Stream)
    requires st in s.streams
    ensures st.id in s.streamRects <==> exists k :: 0 <= k < |Tiles(s)| && Tiles(s)[k].stream == st
  {
    var sorted := SortById(s.streams);
    assert st in multiset(s.streams);
    assert st in sorted by { assert st in multiset(sorted); }
    assert Tiles(s) == Project(sorted, s.streamRects, s.featuredStreamId);
    ProjectCovers(sorted, s.streamRects, s.featuredStreamId);
    if k :| 0 <= k < |Tiles(s)| && Tiles(s)[k].stream == st {
      assert PlacedOn(Tiles(s)[k], s.streamRects, s.featuredStreamId);
    }
  }

  /** Every tile of the layer belongs to a listed stream, sits on its
      rectangle and is keyed by its id, each key once when ids are unique. */
  lemma TilesPlaced(s: State)
    ensures forall k :: 0 <= k < |Tiles(s)| ==>
      Tiles(s)[k].stream in s.streams && PlacedOn(Tiles(s)[k], s.streamRects, s.featuredStreamId)
    ensures IdsUnique(s.streams) ==>
      forall i, j :: 0 <= i < j < |Tiles(s)| ==> Tiles(s)[i].key != Tiles(s)[j].key
  {
    var sorted := SortById(s.streams);
    ProjectCovers(sorted, s.streamRects, s.featuredStreamId);
    forall k | 0 <= k < |Tiles(s)| ensures Tiles(s)[k].stream in s.streams {
      assert Tiles(s)[k].stream in multiset(sorted);
    }
    if IdsUnique(s.streams) {
      PermutationKeepsIdsUnique(s.streams, sorted);
      ProjectKeysUnique(sorted, s.streamRects, s.featuredStreamId);
    }
  }

  /** Reordering the registry list (with unique ids) leaves the emitted
      tiles exactly as they were. */
  lemma TilesPermutationInvariant(s: State, reordered: seq<Stream>)
    requires IdsUnique(s.streams) && multiset(reordered) == multiset(s.streams)
    ensures Tiles(s.(streams := reordered)) == Tiles(s)
  {
    SortByIdPermutationInvariant(s.streams, reordered);
  }
}
