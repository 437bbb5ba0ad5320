/** A ring of intrusive links seen as the sequence of its members, which are
    numbered. */
module Rings {
  import opened PriorityOrder

  /** Queue removal; nothing happens to a thread that is on no ring. */
  function Without(ring: seq<nat>, t: nat): seq<nat>
  {
    if t in ring then RemoveAt(ring, IndexOf(ring, t)) else ring
  }

  ghost predicate Distinct(ring: seq<nat>)
  {
    forall i, j :: 0 <= i < j < |ring| ==> ring[i] != ring[j]
  }

  lemma WithoutMembers(ring: seq<nat>, t: nat)
    requires Distinct(ring)
    ensures Distinct(Without(ring, t))
    ensures forall u :: u in Without(ring, t) <==> u in ring && u != t
  {
    if t in ring {
      var p, r := IndexOf(ring, t), Without(ring, t);
      forall u | u in ring && u != t ensures u in r {
        var i := IndexOf(ring, u);
        assert r[if i < p then i else i - 1] == u;
      }
    }
  }

  lemma InsertAtMembers(ring: seq<nat>, p: nat, t: nat)
    requires p <= |ring|
    ensures forall u :: u in InsertAt(ring, p, t) <==> u in ring || u == t
  {
    forall u ensures u in InsertAt(ring, p, t) <==> u in ring || u == t {
      assert ring == ring[..p] + ring[p..];
      assert u in ring <==> u in ring[..p] || u in ring[p..];
    }
  }

  lemma InsertAtDistinct(ring: seq<nat>, p: nat, t: nat)
    requires p <= |ring| && Distinct(ring) && t !in ring
    ensures Distinct(InsertAt(ring, p, t))
  {
    var r := InsertAt(ring, p, t);
    forall i, j | 0 <= i < j < |r| ensures r[i] != r[j] {
      assert i != p ==> r[i] == ring[if i < p then i else i - 1];
      assert j != p ==> r[j] == ring[if j < p then j else j - 1];
    }
  }

  function MembersOf(ring: seq<nat>): set<nat> { set t | t in ring }

  lemma MembersBehind(t: nat, ring: seq<nat>)
    ensures MembersOf([t] + ring) == {t} + MembersOf(ring)
    ensures MembersOf([]) == {}
  {}

  // -------------------------------------------------- by key

  function KeyOf(t: nat, key: map<nat, int>): int { if t in key then key[t] else 0 }

  function KeysBy(ring: seq<nat>, key: map<nat, int>): (ks: seq<int>)
    ensures |ks| == |ring|
    ensures forall i :: 0 <= i < |ring| ==> ks[i] == KeyOf(ring[i], key)
  {
    seq(|ring|, i requires 0 <= i < |ring| => KeyOf(ring[i], key))
  }

  /** Queue insertion, as both implementations of include/queue.h do it. */
  function Enqueued(ring: seq<nat>, t: nat, key: map<nat, int>, lt: Before): seq<nat>
  {
    InsertAt(ring, Slot(KeysBy(ring, key), KeyOf(t, key), lt), t)
  }
}
