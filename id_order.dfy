/** The "stable" order in which the grid emits its slots and the portal layer
    its tiles: a copy of the stream list sorted by id with
    `a.id.localeCompare(b.id)`. The comparison is taken as the order of
    character codes, a strict total order on ids. */
module IdOrder {
  import opened Registry
  import opened StreamLists

  /** `a` sorts strictly before `b`. */
  predicate IdLess(a: string, b: string)
    decreases |a|
  {
    if a == [] then b != []
    else if b == [] then false
    else if a[0] != b[0] then a[0] < b[0]
    else IdLess(a[1..], b[1..])
  }

  predicate IdLessEq(a: string, b: string) {
    a == b || IdLess(a, b)
  }

  lemma {:induction false} IdLessIrreflexive(a: string)
    ensures !IdLess(a, a)
  {
    if a != [] {
      IdLessIrreflexive(a[1..]);
    }
  }

  lemma {:induction false} IdLessTransitive(a: string, b: string, c: string)
    requires IdLess(a, b) && IdLess(b, c)
    ensures IdLess(a, c)
  {
    if a != [] && b != [] && c != [] && a[0] == b[0] && b[0] == c[0] {
      IdLessTransitive(a[1..], b[1..], c[1..]);
    }
  }

  /** Any two distinct ids are ordered one way or the other. */
  lemma {:induction false} IdLessTotal(a: string, b: string)
    requires a != b
    ensures IdLess(a, b) || IdLess(b, a)
  {
    if a != [] && b != [] && a[0] == b[0] {
      assert a == [a[0]] + a[1..] && b == [b[0]] + b[1..];
      IdLessTotal(a[1..], b[1..]);
    }
  }

  lemma IdLessAsymmetric(a: string, b: string)
    requires IdLess(a, b)
    ensures !IdLess(b, a)
  {
    if IdLess(b, a) {
      IdLessTransitive(a, b, a);
      IdLessIrreflexive(a);
    }
  }

  predicate SortedById(l: seq<Stream>) {
    forall i, j :: 0 <= i < j < |l| ==> IdLessEq(l[i].id, l[j].id)
  }

  /** Ids strictly increase along the list. */
  predicate StrictlySortedById(l: seq<Stream>) {
    forall i, j :: 0 <= i < j < |l| ==> IdLess(l[i].id, l[j].id)
  }

  /** Insert `x` before the first entry whose id is not smaller. */
  function Insert(x: Stream, l: seq<Stream>): (r: seq<Stream>)
    ensures multiset(r) == multiset(l) + multiset{x}
    ensures |r| == |l| + 1
  {
    if l == [] || IdLessEq(x.id, l[0].id) then [x] + l
    else
      assert l == [l[0]] + l[1..];
      [l[0]] + Insert(x, l[1..])
  }

  /** `[...l].sort((a, b) => a.id.localeCompare(b.id))`; an entry goes in
      front of later entries with an equal id, as a stable sort keeps them. */
  function SortById(l: seq<Stream>): (r: seq<Stream>)
    ensures multiset(r) == multiset(l) && |r| == |l|
  {
    if l == [] then []
    else
      assert l == [l[0]] + l[1..];
      Insert(l[0], SortById(l[1..]))
  }

  lemma {:induction false} InsertSorted(x: Stream, l: seq<Stream>)
    requires SortedById(l)
    ensures SortedById(Insert(x, l))
  {
    var r := Insert(x, l);
    if l == [] || IdLessEq(x.id, l[0].id) {
      forall i, j | 0 <= i < j < |r| ensures IdLessEq(r[i].id, r[j].id) {
        if i == 0 && j > 1 {
          assert r[j] == l[j - 1];
          if x.id != l[0].id && l[0].id != l[j - 1].id {
            IdLessTransitive(x.id, l[0].id, l[j - 1].id);
          }
        }
      }
    } else {
      InsertSorted(x, l[1..]);
      var t := Insert(x, l[1..]);
      assert r == [l[0]] + t;
      IdLessTotal(x.id, l[0].id);
      forall i, j | 0 <= i < j < |r| ensures IdLessEq(r[i].id, r[j].id) {
        if i == 0 {
          assert r[j] == t[j - 1] && r[j] in multiset(l[1..]) + multiset{x};
          if r[j] != x {
            assert r[j] in multiset(l[1..]);
            var k :| 0 <= k < |l[1..]| && l[1..][k] == r[j];
            assert l[k + 1] == r[j];
          }
        } else {
          assert r[i] == t[i - 1] && r[j] == t[j - 1];
        }
      }
    }
  }

  /** The sorted copy is sorted by id and holds exactly the listed entries. */
  lemma {:induction false} SortByIdSorted(l: seq<Stream>)
    ensures SortedById(SortById(l)) && multiset(SortById(l)) == multiset(l)
  {
    if l != [] {
      SortByIdSorted(l[1..]);
      InsertSorted(l[0], SortById(l[1..]));
    }
  }

  /** Reordering keeps ids unique. */
  lemma PermutationKeepsIdsUnique(a: seq<Stream>, b: seq<Stream>)
    requires multiset(a) == multiset(b) && IdsUnique(a)
    ensures IdsUnique(b)
  {
    forall i, j | 0 <= i < j < |b| ensures b[i].id != b[j].id {
      var x, y := b[i], b[j];
      if x == y {
        CountTwo(b, i, j);
        TwoIndices(a, x);
      } else {
        assert x in multiset(a) && y in multiset(a);
        var i' :| 0 <= i' < |a| && a[i'] == x;
        var j' :| 0 <= j' < |a| && a[j'] == y;
        if i' < j' {
          assert a[i'].id != a[j'].id;
        } else {
          assert a[j'].id != a[i'].id;
        }
      }
    }
  }

  lemma SortedUniqueStrict(l: seq<Stream>)
    requires SortedById(l) && IdsUnique(l)
    ensures StrictlySortedById(l)
  {
  }

  /** Two lists with ids strictly increasing and the same entries start
      with the same entry: the one with the least id. */
  lemma SameHead(a: seq<Stream>, b: seq<Stream>)
    requires StrictlySortedById(a) && StrictlySortedById(b) && multiset(a) == multiset(b)
    requires a != []
    ensures b != [] && a[0] == b[0]
  {
    assert a[0] in multiset(b);
    var k :| 0 <= k < |b| && b[k] == a[0];
    assert b[0] in multiset(a);
    var m :| 0 <= m < |a| && a[m] == b[0];
    if k != 0 {
      if m == 0 {
        IdLessIrreflexive(a[0].id);
      } else {
        IdLessAsymmetric(b[0].id, a[0].id);
      }
      assert false;
    }
  }

  /** Two lists with ids strictly increasing and the same entries are equal. */
  lemma {:induction false} StrictlySortedUnique(a: seq<Stream>, b: seq<Stream>)
    requires StrictlySortedById(a) && StrictlySortedById(b) && multiset(a) == multiset(b)
    ensures a == b
  {
    if a == [] {
      assert |b| == 0 by { assert |multiset(a)| == |multiset(b)|; }
    } else {
      SameHead(a, b);
      assert multiset(a[1..]) == multiset(b[1..]) by {
        assert a == [a[0]] + a[1..] && b == [b[0]] + b[1..];
        assert multiset(a[1..]) == multiset(a) - multiset{a[0]};
        assert multiset(b[1..]) == multiset(b) - multiset{b[0]};
      }
      StrictlySortedUnique(a[1..], b[1..]);
      assert a == [a[0]] + a[1..] && b == [b[0]] + b[1..];
    }
  }

  /** The sorted copy does not depend on the order of the registry list: any
      reordering of a list with unique ids sorts to the same sequence. */
  lemma SortByIdPermutationInvariant(a: seq<Stream>, b: seq<Stream>)
    requires IdsUnique(a) && multiset(a) == multiset(b)
    ensures SortById(a) == SortById(b)
  {
    SortByIdSorted(a);
    SortByIdSorted(b);
    PermutationKeepsIdsUnique(a, SortById(a));
    PermutationKeepsIdsUnique(a, SortById(b));
    SortedUniqueStrict(SortById(a));
    SortedUniqueStrict(SortById(b));
    StrictlySortedUnique(SortById(a), SortById(b));
  }
}
