/** The order both queue implementations keep, and where they place a new
    element. BEFORE of include/queue.h is any strict weak order on keys that stay
    fixed while queued: descending priority for wait queues, ascending timeout
    for the sleep queue, and the empty relation for mutex queues. */
module PriorityOrder {

  type Before = (int, int) -> bool

  ghost predicate StrictWeak(lt: Before)
  {
    && (forall a, b :: lt(a, b) ==> !lt(b, a))
    && (forall a, b, c :: lt(a, c) ==> lt(a, b) || lt(b, c))
  }

  lemma StrictWeakOrder(lt: Before, a: int, b: int, c: int)
    requires StrictWeak(lt)
    ensures lt(a, b) ==> !lt(b, a)
    ensures lt(a, b) && !lt(c, b) ==> lt(a, c)
    ensures !lt(b, a) && lt(b, c) ==> lt(a, c)
    ensures !lt(b, a) && !lt(c, b) ==> !lt(c, a)
  {
    assert lt(a, b) ==> lt(a, c) || lt(c, b);
    assert lt(b, c) ==> lt(b, a) || lt(a, c);
    assert lt(c, a) ==> lt(c, b) || lt(b, a);
  }

  /** The three BEFORE relations of include/thread.h. */
  const BY_PRIORITY: Before := (a, b) => a > b
  const BY_TIMEOUT: Before := (a, b) => a < b
  const UNORDERED: Before := (a, b) => false

  lemma KernelOrdersAreStrictWeak()
    ensures StrictWeak(BY_PRIORITY) && StrictWeak(BY_TIMEOUT) && StrictWeak(UNORDERED)
  {}

  /** No element is BEFORE one that stands in front of it. */
  ghost predicate Sorted(keys: seq<int>, lt: Before)
  {
    forall i, j :: 0 <= i < j < |keys| ==> !lt(keys[j], keys[i])
  }

  /** The place of a new key k: in front of the first key k is BEFORE, so behind
      every smaller key and behind every equal one. */
  function Slot(keys: seq<int>, k: int, lt: Before): (p: nat)
    ensures p <= |keys|
    ensures forall i :: 0 <= i < p ==> !lt(k, keys[i])
    ensures p < |keys| ==> lt(k, keys[p])
  {
    if keys == [] || lt(k, keys[0]) then 0 else 1 + Slot(keys[1..], k, lt)
  }

  function IndexOf<T(==)>(s: seq<T>, x: T): (i: nat)
    requires x in s
    ensures i < |s| && s[i] == x
    ensures x !in s[..i]
  {
    if s[0] == x then 0 else 1 + IndexOf(s[1..], x)
  }

  function InsertAt<T>(s: seq<T>, p: nat, x: T): (r: seq<T>)
    requires p <= |s|
    ensures |r| == |s| + 1 && r[p] == x
    ensures forall i {:trigger r[i]} :: 0 <= i < p ==> r[i] == s[i]
    ensures forall i {:trigger r[i]} :: p < i < |r| ==> r[i] == s[i - 1]
  {
    s[..p] + [x] + s[p..]
  }

  function RemoveAt<T>(s: seq<T>, p: nat): (r: seq<T>)
    requires p < |s|
    ensures |r| == |s| - 1
    ensures forall i {:trigger r[i]} :: 0 <= i < p ==> r[i] == s[i]
    ensures forall i {:trigger r[i]} :: p <= i < |r| ==> r[i] == s[i + 1]
  {
    s[..p] + s[p + 1..]
  }

  /** In a sorted queue the slot splits the keys in two, so a scan from the
      tail, a scan from the head and a descent from the root all find it. */
  lemma {:induction false} SlotIsTheOnlySplit(keys: seq<int>, k: int, lt: Before, p: nat)
    requires p <= |keys|
    requires forall i :: 0 <= i < p ==> !lt(k, keys[i])
    requires forall i :: p <= i < |keys| ==> lt(k, keys[i])
    ensures p == Slot(keys, k, lt)
  {
    if p > 0 {
      SlotIsTheOnlySplit(keys[1..], k, lt, p - 1);
    }
  }

  lemma SlotSplits(keys: seq<int>, k: int, lt: Before)
    requires StrictWeak(lt) && Sorted(keys, lt)
    ensures forall i :: Slot(keys, k, lt) <= i < |keys| ==> lt(k, keys[i]) && !lt(keys[i], k)
  {
    var p := Slot(keys, k, lt);
    forall i | p <= i < |keys| ensures lt(k, keys[i]) && !lt(keys[i], k) {
      StrictWeakOrder(lt, k, keys[p], keys[i]);
      StrictWeakOrder(lt, k, keys[i], k);
    }
  }

  lemma InsertKeepsSorted(keys: seq<int>, k: int, lt: Before)
    requires StrictWeak(lt) && Sorted(keys, lt)
    ensures Sorted(InsertAt(keys, Slot(keys, k, lt), k), lt)
  {
    SlotSplits(keys, k, lt);
    SplitInsertKeepsSorted(keys, k, lt, Slot(keys, k, lt));
  }

  lemma SplitInsertKeepsSorted(keys: seq<int>, k: int, lt: Before, p: nat)
    requires p <= |keys| && Sorted(keys, lt)
    requires forall i :: 0 <= i < p ==> !lt(k, keys[i])
    requires forall i :: p <= i < |keys| ==> !lt(keys[i], k)
    ensures Sorted(InsertAt(keys, p, k), lt)
  {
    var r := InsertAt(keys, p, k);
    forall i, j | 0 <= i < j < |r| ensures !lt(r[j], r[i]) {
      if j == p { assert r[i] == keys[i]; }
      else if i == p { assert r[j] == keys[j - 1]; }
      else {
        assert r[i] == keys[if i < p then i else i - 1];
        assert r[j] == keys[if j < p then j else j - 1];
      }
    }
  }

  lemma RemoveKeepsSorted(keys: seq<int>, p: nat, lt: Before)
    requires p < |keys| && Sorted(keys, lt)
    ensures Sorted(RemoveAt(keys, p), lt)
  {
    var r := RemoveAt(keys, p);
    forall i, j | 0 <= i < j < |r| ensures !lt(r[j], r[i]) {
      assert r[i] == keys[if i < p then i else i + 1];
      assert r[j] == keys[if j < p then j else j + 1];
    }
  }
}
