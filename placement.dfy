/**
 * The ordering of the members of one container: the tasks of a list or the
 * lists of a board. A container is seen through its position map, from member
 * id to stored position. This module defines what a dense ordering is and the
 * rewrites the services apply to a position map: rank assignment from a
 * submitted order, closing the gap a departing member leaves, opening a slot
 * for an arriving member, and the append position `max + 1`.
 */
module Placement {
  type Id = nat

  /** The ids a submitted order mentions. */
  function Elems(s: seq<Id>): set<Id> { set x | x in s }

  predicate Distinct(s: seq<Id>) {
    forall i, j :: 0 <= i < j < |s| ==> s[i] != s[j]
  }

  /**
   * The check both reorder services run before any write: the order is as
   * long as the container's membership and mentions exactly its ids.
   */
  predicate AcceptsOrder(order: seq<Id>, members: set<Id>) {
    |order| == |members| && Elems(order) == members
  }

  lemma {:induction false} ElemsCard(s: seq<Id>)
    ensures |Elems(s)| <= |s|
    ensures Distinct(s) <==> |Elems(s)| == |s|
  {
    if s != [] {
      var t := s[1..];
      ElemsCard(t);
      assert Elems(s) == {s[0]} + Elems(t);
      if s[0] in Elems(t) {
        var j :| 0 <= j < |t| && t[j] == s[0];
        assert s[0] == s[j + 1];
        assert !Distinct(s);
      } else {
        assert |Elems(s)| == |Elems(t)| + 1;
        if Distinct(t) {
          forall i, k | 0 <= i < k < |s| ensures s[i] != s[k] {
            if i > 0 {
              assert s[i] == t[i - 1] && s[k] == t[k - 1];
            } else {
              assert s[k] == t[k - 1];
            }
          }
        } else {
          var i, k :| 0 <= i < k < |t| && t[i] == t[k];
          assert s[i + 1] == s[k + 1];
        }
      }
    }
  }

  /** The reorder check accepts exactly the permutations of the membership. */
  lemma AcceptsExactlyPermutations(order: seq<Id>, members: set<Id>)
    ensures AcceptsOrder(order, members) <==> Distinct(order) && Elems(order) == members
  {
    ElemsCard(order);
  }

  /**
   * The rank map the reorder services build from a submitted order: the k-th
   * id gets rank k + 1. As in a dictionary built left to right, a repeated id
   * keeps the rank of its last occurrence.
   */
  function RankMap(order: seq<Id>): (r: map<Id, nat>)
    ensures r.Keys == Elems(order)
    ensures forall x :: x in r ==> 1 <= r[x] <= |order|
  {
    if order == [] then map[]
    else
      var init := order[..|order| - 1];
      assert order == init + [order[|order| - 1]];
      RankMap(init)[order[|order| - 1] := |order|]
  }

  lemma {:induction false} RankOfIndex(order: seq<Id>, k: nat)
    requires Distinct(order) && k < |order|
    ensures order[k] in RankMap(order) && RankMap(order)[order[k]] == k + 1
  {
    var n := |order|;
    if k < n - 1 {
      var init := order[..n - 1];
      assert Distinct(init) by {
        forall i, j | 0 <= i < j < |init| ensures init[i] != init[j] {
          assert init[i] == order[i] && init[j] == order[j];
        }
      }
      RankOfIndex(init, k);
      assert order[k] == init[k] && order[k] != order[n - 1];
    }
  }

  predicate InRange(pos: map<Id, nat>) {
    forall a :: a in pos ==> 1 <= pos[a] <= |pos|
  }

  predicate Injective(pos: map<Id, nat>) {
    forall a, b :: a in pos && b in pos && a != b ==> pos[a] != pos[b]
  }

  /** Dense: every member sits in 1..N and no two members share a position. */
  predicate Dense(pos: map<Id, nat>) { InRange(pos) && Injective(pos) }

  /** The positions a container of `n` members occupies when it is dense. */
  function Slots(n: nat): (s: set<nat>)
    ensures forall i :: i in s <==> 1 <= i <= n
    ensures |s| == n
  {
    if n == 0 then {} else Slots(n - 1) + {n}
  }

  lemma {:induction false} InjectiveValuesCard(pos: map<Id, nat>)
    requires Injective(pos)
    ensures |pos.Values| == |pos|
    decreases |pos|
  {
    if pos != map[] {
      var a :| a in pos;
      var q := pos - {a};
      assert q.Keys == pos.Keys - {a};
      assert pos.Keys == q.Keys + {a};
      assert Injective(q);
      InjectiveValuesCard(q);
      assert pos.Values == q.Values + {pos[a]} by {
        forall v | v in pos.Values ensures v in q.Values + {pos[a]} {
          var b :| b in pos && pos[b] == v;
          if b != a { assert q[b] == v; }
        }
      }
      assert pos[a] !in q.Values;
    }
  }

  lemma SubsetOfSameSize(a: set<nat>, b: set<nat>)
    requires a <= b && |a| == |b|
    ensures a == b
  {
    assert b == (b - a) + a;
    assert (b - a) * a == {};
    assert |b - a| == 0;
  }

  /** A dense container of N members occupies exactly the positions 1..N. */
  lemma DenseIsOneToN(pos: map<Id, nat>)
    requires Dense(pos)
    ensures pos.Values == Slots(|pos|)
  {
    InjectiveValuesCard(pos);
    SubsetOfSameSize(pos.Values, Slots(|pos|));
  }

  lemma RankMapInjective(order: seq<Id>)
    requires Distinct(order)
    ensures Injective(RankMap(order))
  {
    var r := RankMap(order);
    forall a, b | a in r && b in r && a != b ensures r[a] != r[b] {
      var i :| 0 <= i < |order| && order[i] == a;
      var j :| 0 <= j < |order| && order[j] == b;
      RankOfIndex(order, i);
      RankOfIndex(order, j);
    }
  }

  /** A submitted permutation, turned into ranks, is a dense ordering of its ids. */
  lemma RankMapDense(order: seq<Id>)
    requires Distinct(order)
    ensures Dense(RankMap(order)) && |RankMap(order)| == |order|
  {
    ElemsCard(order);
    assert |RankMap(order)| == |RankMap(order).Keys| == |order|;
    RankMapInjective(order);
  }

  /**
   * Lists and tasks are listed by (position, id): `a` comes before `b` when its
   * position is smaller, or equal with a smaller id.
   */
  predicate ListedBefore(pos: map<Id, nat>, a: Id, b: Id)
    requires a in pos && b in pos
  {
    pos[a] < pos[b] || (pos[a] == pos[b] && a < b)
  }

  /** After rank assignment the container lists in exactly the submitted order. */
  lemma RankMapListsInOrder(order: seq<Id>, i: nat, j: nat)
    requires Distinct(order) && i < j < |order|
    ensures order[i] in RankMap(order) && order[j] in RankMap(order)
    ensures ListedBefore(RankMap(order), order[i], order[j])
  {
    RankOfIndex(order, i);
    RankOfIndex(order, j);
  }

  lemma {:induction false} MaxExists(s: set<nat>)
    requires s != {}
    ensures exists m :: m in s && forall x :: x in s ==> x <= m
  {
    var a :| a in s;
    if s != {a} {
      MaxExists(s - {a});
      var m :| m in s - {a} && forall x :: x in s - {a} ==> x <= m;
      var top := if a > m then a else m;
      forall x | x in s ensures x <= top {
        if x != a { assert x in s - {a}; }
      }
    } else {
      assert forall x :: x in s ==> x <= a;
    }
  }

  /**
   * The largest stored position of a container, 0 when it is empty: the
   * database's `Max("position")` aggregate followed by `or 0`.
   */
  function MaxPosition(pos: map<Id, nat>): (m: nat)
    ensures forall a :: a in pos ==> pos[a] <= m
    ensures pos != map[] ==> exists a :: a in pos && pos[a] == m
    ensures pos == map[] ==> m == 0
  {
    if pos == map[] then 0
    else
      var a :| a in pos;
      assert pos[a] in pos.Values;
      MaxExists(pos.Values);
      var m :| m in pos.Values && forall x :: x in pos.Values ==> x <= m;
      assert forall b :: b in pos ==> pos[b] in pos.Values;
      m
  }

  /** The append position of a dense container of N members is N + 1. */
  lemma DenseAppendPosition(pos: map<Id, nat>)
    requires Dense(pos)
    ensures MaxPosition(pos) + 1 == |pos| + 1
  {
    if pos != map[] {
      DenseIsOneToN(pos);
      assert |pos| in Slots(|pos|);
    }
  }

  /** Closing the gap at `p`: every position above `p` moves down by one. */
  function Compacted(pos: map<Id, nat>, p: nat): map<Id, nat> {
    map a | a in pos :: if pos[a] > p then pos[a] - 1 else pos[a]
  }

  /** Opening a slot at `p`: every position at or above `p` moves up by one. */
  function OpenedAt(pos: map<Id, nat>, p: nat): map<Id, nat> {
    map a | a in pos :: if pos[a] >= p then pos[a] + 1 else pos[a]
  }

  lemma RemovedSize(pos: map<Id, nat>, x: Id)
    requires x in pos
    ensures |pos - {x}| == |pos| - 1
  {
    assert (pos - {x}).Keys == pos.Keys - {x};
    assert pos.Keys == (pos - {x}).Keys + {x};
  }

  lemma CompactedInRange(pos: map<Id, nat>, x: Id)
    requires Dense(pos) && x in pos
    ensures InRange(Compacted(pos - {x}, pos[x]))
  {
    var c := Compacted(pos - {x}, pos[x]);
    RemovedSize(pos, x);
    assert c.Keys == (pos - {x}).Keys;
    assert |c| == |pos| - 1;
    forall a | a in c ensures 1 <= c[a] <= |c| {
      assert pos[a] != pos[x];
    }
  }

  lemma CompactedInjective(pos: map<Id, nat>, x: Id)
    requires Injective(pos) && x in pos
    ensures Injective(Compacted(pos - {x}, pos[x]))
  {
    var c := Compacted(pos - {x}, pos[x]);
    forall a, b | a in c && b in c && a != b ensures c[a] != c[b] {
      assert pos[a] != pos[x] && pos[b] != pos[x] && pos[a] != pos[b];
    }
  }

  /** Closing a gap and dropping a member commute. */
  lemma CompactedWithout(pos: map<Id, nat>, p: nat, x: Id)
    ensures Compacted(pos, p) - {x} == Compacted(pos - {x}, p)
  {
    assert (Compacted(pos, p) - {x}).Keys == (pos - {x}).Keys;
  }

  /** Removing a member and closing its gap keeps a dense container dense. */
  lemma CompactAfterRemoval(pos: map<Id, nat>, x: Id)
    requires Dense(pos) && x in pos
    ensures Dense(Compacted(pos - {x}, pos[x]))
    ensures |Compacted(pos - {x}, pos[x])| == |pos| - 1
  {
    RemovedSize(pos, x);
    assert Compacted(pos - {x}, pos[x]).Keys == (pos - {x}).Keys;
    CompactedInRange(pos, x);
    CompactedInjective(pos, x);
  }

  lemma AddedSize(pos: map<Id, nat>, x: Id, p: nat)
    requires x !in pos
    ensures |pos[x := p]| == |pos| + 1
  {
    assert (pos[x := p]).Keys == pos.Keys + {x};
  }

  lemma OpenedInRange(pos: map<Id, nat>, x: Id, p: nat)
    requires InRange(pos) && x !in pos && 1 <= p <= |pos| + 1
    ensures InRange(OpenedAt(pos, p)[x := p])
  {
    var o := OpenedAt(pos, p);
    var n := o[x := p];
    assert o.Keys == pos.Keys;
    AddedSize(o, x, p);
    forall a | a in n ensures 1 <= n[a] <= |n| {
      if a != x { assert n[a] == o[a]; }
    }
  }

  lemma OpenedInjective(pos: map<Id, nat>, x: Id, p: nat)
    requires Injective(pos) && x !in pos
    ensures Injective(OpenedAt(pos, p)[x := p])
  {
    var n := OpenedAt(pos, p)[x := p];
    forall a, b | a in n && b in n && a != b ensures n[a] != n[b] {
      if a != x && b != x { assert pos[a] != pos[b]; }
    }
  }

  /** Opening a slot at p in 1..N+1 and placing a new member there keeps density. */
  lemma InsertAtSlot(pos: map<Id, nat>, x: Id, p: nat)
    requires Dense(pos) && x !in pos && 1 <= p <= |pos| + 1
    ensures Dense(OpenedAt(pos, p)[x := p])
    ensures |OpenedAt(pos, p)[x := p]| == |pos| + 1
  {
    assert OpenedAt(pos, p).Keys == pos.Keys;
    AddedSize(OpenedAt(pos, p), x, p);
    OpenedInRange(pos, x, p);
    OpenedInjective(pos, x, p);
  }

  /** Appending a new member at `max + 1` keeps a dense container dense. */
  lemma AppendAtEnd(pos: map<Id, nat>, x: Id)
    requires Dense(pos) && x !in pos
    ensures Dense(pos[x := MaxPosition(pos) + 1])
    ensures |pos[x := MaxPosition(pos) + 1]| == |pos| + 1
  {
    DenseAppendPosition(pos);
    assert (pos[x := MaxPosition(pos) + 1]).Keys == pos.Keys + {x};
  }
}
