/** General facts about stream lists: uniqueness under permutation and
    filtering, and what `find`, `findIndex` and `filter` return on a list
    whose ids are unique. */
module StreamLists {
  import opened Basics
  import opened Registry

  /** An element counted twice sits at two distinct indices. */
  lemma {:induction false} TwoIndices(a: seq<Stream>, x: Stream)
    requires multiset(a)[x] >= 2
    ensures exists i, j :: 0 <= i < j < |a| && a[i] == x && a[j] == x
  {
    assert a == [a[0]] + a[1..];
    assert multiset(a) == multiset([a[0]]) + multiset(a[1..]);
    if a[0] == x {
      assert x in multiset(a[1..]);
      var k :| 0 <= k < |a[1..]| && a[1..][k] == x;
      assert a[k + 1] == x;
    } else {
      TwoIndices(a[1..], x);
      var i, j :| 0 <= i < j < |a[1..]| && a[1..][i] == x && a[1..][j] == x;
      assert a[i + 1] == x && a[j + 1] == x;
    }
  }

  /** An element at two distinct indices is counted at least twice. */
  lemma CountTwo(b: seq<Stream>, i: nat, j: nat)
    requires i < j < |b| && b[i] == b[j]
    ensures multiset(b)[b[i]] >= 2
  {
    assert b == b[..j] + b[j..];
    assert b[i] == b[..j][i];
    assert b[j] == b[j..][0];
    assert multiset(b) == multiset(b[..j]) + multiset(b[j..]);
  }

  lemma ClashSymmetric(a: Stream, b: Stream)
    ensures Clash(a, b) <==> Clash(b, a)
  {
  }

  /** Reordering keeps the registry invariant: it depends only on which
      entries are listed. */
  lemma PermutationKeepsWellFormed(a: seq<Stream>, b: seq<Stream>)
    requires multiset(a) == multiset(b) && WellFormed(a)
    ensures WellFormed(b)
  {
    forall i | 0 <= i < |b| ensures b[i].id != "" {
      assert b[i] in multiset(a);
    }
    forall i, j | 0 <= i < j < |b| ensures !Clash(b[i], b[j]) {
      var x, y := b[i], b[j];
      if x == y {
        CountTwo(b, i, j);
        TwoIndices(a, x);
      } else {
        assert x in multiset(a) && y in multiset(a);
        var i' :| 0 <= i' < |a| && a[i'] == x;
        var j' :| 0 <= j' < |a| && a[j'] == y;
        if i' < j' {
          assert !Clash(a[i'], a[j']);
        } else {
          assert !Clash(a[j'], a[i']);
          ClashSymmetric(x, y);
        }
      }
    }
  }

  /** A list with a head is well formed exactly when its tail is, the head's
      id is not empty, and the head clashes with no entry of the tail. */
  lemma WellFormedCons(x: Stream, t: seq<Stream>)
    ensures WellFormed([x] + t) <==> WellFormed(t) && x.id != "" && forall y :: y in t ==> !Clash(x, y)
  {
    var l := [x] + t;
    assert forall k :: 0 <= k < |t| ==> l[k + 1] == t[k];
    if WellFormed(t) && x.id != "" && forall y :: y in t ==> !Clash(x, y) {
      forall i, j | 0 <= i < j < |l| ensures !Clash(l[i], l[j]) {
        if i == 0 {
          assert l[j] == t[j - 1] && l[j] in t;
        } else {
          assert l[i] == t[i - 1] && l[j] == t[j - 1];
        }
      }
    }
    if WellFormed(l) {
      forall y | y in t ensures !Clash(x, y) {
        var k :| 0 <= k < |t| && t[k] == y;
        assert l[0] == x && l[k + 1] == y;
      }
      forall i, j | 0 <= i < j < |t| ensures !Clash(t[i], t[j]) {
        assert l[i + 1] == t[i] && l[j + 1] == t[j];
      }
      forall i | 0 <= i < |t| ensures t[i].id != "" {
        assert l[i + 1] == t[i];
      }
    }
  }

  /** Filtering keeps the relative order: it distributes over concatenation. */
  lemma {:induction false} FilterOutConcat(a: seq<Stream>, b: seq<Stream>, id: string)
    ensures FilterOut(a + b, id) == FilterOut(a, id) + FilterOut(b, id)
  {
    if a == [] {
      assert a + b == b;
    } else {
      assert (a + b)[0] == a[0];
      assert (a + b)[1..] == a[1..] + b;
      FilterOutConcat(a[1..], b, id);
    }
  }

  /** Filtering out an id the list does not hold changes nothing. */
  lemma {:induction false} FilterOutAbsent(l: seq<Stream>, id: string)
    requires !HasId(l, id)
    ensures FilterOut(l, id) == l
  {
    if l != [] {
      assert forall i :: 0 <= i < |l[1..]| ==> l[1..][i] == l[i + 1];
      FilterOutAbsent(l[1..], id);
      assert l == [l[0]] + l[1..];
    }
  }

  /** Removing entries keeps the registry invariant. */
  lemma {:induction false} FilterOutKeepsWellFormed(l: seq<Stream>, id: string)
    requires WellFormed(l)
    ensures WellFormed(FilterOut(l, id))
  {
    if l != [] {
      assert l == [l[0]] + l[1..];
      WellFormedCons(l[0], l[1..]);
      FilterOutKeepsWellFormed(l[1..], id);
      var rest := FilterOut(l[1..], id);
      if l[0].id != id {
        WellFormedCons(l[0], rest);
      }
    }
  }

  /** With unique ids, `find` by id returns exactly the listed entry with that id. */
  lemma FindByIdUnique(l: seq<Stream>, id: string, st: Stream)
    requires IdsUnique(l)
    ensures FindById(l, id) == Some(st) <==> st in l && st.id == id
  {
    if st in l && st.id == id {
      var k :| 0 <= k < |l| && l[k] == st;
      assert HasId(l, id);
      var r := FindById(l, id).value;
      var k' :| 0 <= k' < |l| && l[k'] == r;
      assert k == k';
    }
  }

  lemma WellFormedIdsUnique(l: seq<Stream>)
    requires WellFormed(l)
    ensures IdsUnique(l)
  {
    forall i, j | 0 <= i < j < |l| ensures l[i].id != l[j].id {
      assert !Clash(l[i], l[j]);
    }
  }

  /** With unique ids, no entry before or after index `i` has the id of `l[i]`. */
  lemma AbsentOutside(l: seq<Stream>, i: nat)
    requires IdsUnique(l) && i < |l|
    ensures !HasId(l[..i], l[i].id) && !HasId(l[i + 1..], l[i].id)
  {
    var id := l[i].id;
    var before, after := l[..i], l[i + 1..];
    forall k | 0 <= k < |before| ensures before[k].id != id {
      assert before[k] == l[k];
    }
    forall k | 0 <= k < |after| ensures after[k].id != id {
      assert after[k] == l[i + 1 + k];
    }
  }

  /** Filtering out the id of the one entry that has it leaves its neighbours. */
  lemma FilterOutSplice(before: seq<Stream>, x: Stream, after: seq<Stream>)
    requires !HasId(before, x.id) && !HasId(after, x.id)
    ensures FilterOut(before + [x] + after, x.id) == before + after
  {
    var id := x.id;
    assert FilterOut([x], id) == [] by {
      assert [x][1..] == [];
    }
    assert FilterOut(before + [x], id) == before by {
      FilterOutConcat(before, [x], id);
      FilterOutAbsent(before, id);
    }
    FilterOutConcat(before + [x], after, id);
    FilterOutAbsent(after, id);
  }

  /** With unique ids, filtering out the id of `l[i]` leaves the entries
      before and after it. */
  lemma FilterOutAt(l: seq<Stream>, i: nat)
    requires IdsUnique(l) && i < |l|
    ensures FilterOut(l, l[i].id) == l[..i] + l[i + 1..]
  {
    AbsentOutside(l, i);
    assert l == l[..i] + [l[i]] + l[i + 1..];
    FilterOutSplice(l[..i], l[i], l[i + 1..]);
  }

  /** Lists that agree entry by entry on id, name and platform are well formed together. */
  lemma SameKeysKeepWellFormed(a: seq<Stream>, b: seq<Stream>)
    requires |a| == |b|
    requires forall k :: 0 <= k < |a| ==>
      a[k].id == b[k].id && a[k].channelName == b[k].channelName && a[k].platform == b[k].platform
    requires WellFormed(a)
    ensures WellFormed(b)
  {
    forall i, j | 0 <= i < j < |b| ensures !Clash(b[i], b[j]) {
      assert !Clash(a[i], a[j]);
    }
  }
}
