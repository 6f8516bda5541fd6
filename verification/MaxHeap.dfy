/** The binary max-heap of `priority_queue` as operations on sequences, and why they work. */
module MaxHeap {

  datatype KeyVal<V> = KeyVal(key: int, val: V)

  function Parent(pos: nat): (p: nat)
    requires 0 < pos
    ensures p < pos
  {
    if pos % 2 == 1 then (pos - 1) / 2 else (pos - 2) / 2
  }

  /** Every element is at most its parent. */
  ghost predicate Heap<V>(s: seq<KeyVal<V>>) {
    forall i, j :: 0 < j < |s| && i == Parent(j) ==> s[i].key >= s[j].key
  }

  function Swap<V>(s: seq<KeyVal<V>>, i: nat, j: nat): (r: seq<KeyVal<V>>)
    requires i < |s| && j < |s|
    ensures |r| == |s|
  {
    s[i := s[j]][j := s[i]]
  }

  function Swim<V>(s: seq<KeyVal<V>>, pos: nat): (r: seq<KeyVal<V>>)
    requires pos < |s|
    ensures |r| == |s|
    decreases pos
  {
    if pos == 0 || s[Parent(pos)].key >= s[pos].key then s else Swim(Swap(s, pos, Parent(pos)), Parent(pos))
  }

  /** The larger child of `pos`, the left one on a tie. */
  function LargerChild<V>(s: seq<KeyVal<V>>, pos: nat): (c: nat)
    requires 2 * pos + 1 < |s|
    ensures 0 < c < |s| && Parent(c) == pos
    ensures forall j :: 0 < j < |s| && Parent(j) == pos ==> s[c].key >= s[j].key
  {
    var l, r := 2 * pos + 1, 2 * pos + 2;
    if r >= |s| || s[l].key >= s[r].key then l else r
  }

  function Sink<V>(s: seq<KeyVal<V>>, pos: nat): (r: seq<KeyVal<V>>)
    requires pos < |s|
    ensures |r| == |s|
    decreases |s| - pos
  {
    if 2 * pos + 1 >= |s| then s
    else
      var c := LargerChild(s, pos);
      if s[pos].key >= s[c].key then s else Sink(Swap(s, pos, c), c)
  }

  lemma {:induction false} SwimBag<V>(s: seq<KeyVal<V>>, pos: nat)
    requires pos < |s|
    ensures multiset(Swim(s, pos)) == multiset(s)
    decreases pos
  {
    if pos != 0 && s[Parent(pos)].key < s[pos].key {
      SwimBag(Swap(s, pos, Parent(pos)), Parent(pos));
    }
  }

  lemma {:induction false} SinkBag<V>(s: seq<KeyVal<V>>, pos: nat)
    requires pos < |s|
    ensures multiset(Sink(s, pos)) == multiset(s)
    decreases |s| - pos
  {
    if 2 * pos + 1 < |s| {
      var c := LargerChild(s, pos);
      if s[pos].key < s[c].key {
        SinkBag(Swap(s, pos, c), c);
      }
    }
  }

  function Insert<V>(s: seq<KeyVal<V>>, e: KeyVal<V>): (r: seq<KeyVal<V>>)
    ensures |r| == |s| + 1 && multiset(r) == multiset(s) + multiset{e}
  {
    SwimBag(s + [e], |s|);
    Swim(s + [e], |s|)
  }

  function Dequeue<V>(s: seq<KeyVal<V>>): (r: seq<KeyVal<V>>)
    requires 0 < |s|
    ensures |r| == |s| - 1 && multiset(r) == multiset(s) - multiset{s[0]}
  {
    var n := |s| - 1;
    assert s == s[..n] + [s[n]];
    if n == 0 then []
    else
      SinkBag(s[..n][0 := s[n]], 0);
      Sink(s[..n][0 := s[n]], 0)
  }

  /** The first `k` pairs whose value is not `v`, inserted one by one into a new heap. */
  function Rebuild<V(==)>(s: seq<KeyVal<V>>, v: V, k: nat): (r: seq<KeyVal<V>>)
    requires k <= |s|
    ensures |r| <= k
  {
    if k == 0 then []
    else if s[k - 1].val != v then Insert(Rebuild(s, v, k - 1), s[k - 1])
    else Rebuild(s, v, k - 1)
  }

  function Erase<V(==)>(s: seq<KeyVal<V>>, v: V): (r: seq<KeyVal<V>>)
    ensures |r| <= |s|
  {
    Rebuild(s, v, |s|)
  }

  // ---------- Heap order ----------

  /** Heap order except that `pos` may exceed its parent. */
  ghost predicate HeapButUp<V>(s: seq<KeyVal<V>>, pos: nat) {
    && (forall i, j :: 0 < j < |s| && i == Parent(j) && j != pos ==> s[i].key >= s[j].key)
    && (forall g, j :: 0 < j < |s| && Parent(j) == pos && 0 < pos && g == Parent(pos) ==> s[g].key >= s[j].key)
  }

  /** Heap order except that the children of `pos` may exceed it. */
  ghost predicate HeapButDown<V>(s: seq<KeyVal<V>>, pos: nat) {
    && (forall i, j :: 0 < j < |s| && i == Parent(j) && i != pos ==> s[i].key >= s[j].key)
    && (forall g, j :: 0 < j < |s| && Parent(j) == pos && 0 < pos && g == Parent(pos) ==> s[g].key >= s[j].key)
  }

  lemma {:induction false} SwimRestores<V>(s: seq<KeyVal<V>>, pos: nat)
    requires pos < |s| && HeapButUp(s, pos)
    ensures Heap(Swim(s, pos))
    decreases pos
  {
    if pos != 0 && s[Parent(pos)].key < s[pos].key {
      SwimRestores(Swap(s, pos, Parent(pos)), Parent(pos));
    }
  }

  lemma {:induction false} SinkRestores<V>(s: seq<KeyVal<V>>, pos: nat)
    requires pos < |s| && HeapButDown(s, pos)
    ensures Heap(Sink(s, pos))
    decreases |s| - pos
  {
    if 2 * pos + 1 < |s| {
      var c := LargerChild(s, pos);
      if s[pos].key < s[c].key {
        SinkRestores(Swap(s, pos, c), c);
      }
    } else {
      assert forall j :: 0 < j < |s| ==> Parent(j) != pos;
    }
  }

  lemma InsertHeap<V>(s: seq<KeyVal<V>>, e: KeyVal<V>)
    requires Heap(s)
    ensures Heap(Insert(s, e))
  {
    assert forall j :: 0 < j <= |s| ==> Parent(j) != |s|;
    SwimRestores(s + [e], |s|);
  }

  lemma DequeueHeap<V>(s: seq<KeyVal<V>>)
    requires Heap(s) && 0 < |s|
    ensures Heap(Dequeue(s))
  {
    var n := |s| - 1;
    if n > 0 {
      SinkRestores(s[..n][0 := s[n]], 0);
    }
  }

  lemma {:induction false} TopIsMaximal<V>(s: seq<KeyVal<V>>, i: nat)
    requires Heap(s) && i < |s|
    ensures s[0].key >= s[i].key
    decreases i
  {
    if i > 0 {
      TopIsMaximal(s, Parent(i));
    }
  }

  lemma {:induction false} RebuildIsHeap<V>(s: seq<KeyVal<V>>, v: V, k: nat)
    requires k <= |s|
    ensures Heap(Rebuild(s, v, k))
  {
    if k > 0 {
      RebuildIsHeap(s, v, k - 1);
      hide Heap, Insert;
      if s[k - 1].val != v {
        InsertHeap(Rebuild(s, v, k - 1), s[k - 1]);
      }
    }
  }

  lemma InsertCounts<V>(r: seq<KeyVal<V>>, x: KeyVal<V>, e: KeyVal<V>)
    ensures multiset(Insert(r, x))[e] == multiset(r)[e] + (if x == e then 1 else 0)
  {
    hide Swim;
  }

  lemma PrefixCounts<V>(s: seq<KeyVal<V>>, k: nat, e: KeyVal<V>)
    requires 0 < k <= |s|
    ensures multiset(s[..k])[e] == multiset(s[..k - 1])[e] + (if s[k - 1] == e then 1 else 0)
  {
    assert s[..k] == s[..k - 1] + [s[k - 1]];
  }

  lemma {:induction false} RebuildCounts<V>(s: seq<KeyVal<V>>, v: V, k: nat, e: KeyVal<V>)
    requires k <= |s|
    ensures multiset(Rebuild(s, v, k))[e] == if e.val == v then 0 else multiset(s[..k])[e]
  {
    if k > 0 {
      RebuildCounts(s, v, k - 1, e);
      var before, after := Rebuild(s, v, k - 1), Rebuild(s, v, k);
      assert after == if s[k - 1].val != v then Insert(before, s[k - 1]) else before;
      hide Rebuild, Insert;
      InsertCounts(before, s[k - 1], e);
      PrefixCounts(s, k, e);
    }
  }

  /** Erasing gives a heap, drops every pair with value `v` and keeps every other pair with its count. */
  lemma EraseHeap<V(!new)>(s: seq<KeyVal<V>>, v: V)
    ensures Heap(Erase(s, v))
    ensures forall e :: multiset(Erase(s, v))[e] == if e.val == v then 0 else multiset(s)[e]
  {
    hide Heap, Rebuild;
    RebuildIsHeap(s, v, |s|);
    assert s[..|s|] == s;
    forall e: KeyVal<V>
      ensures multiset(Erase(s, v))[e] == if e.val == v then 0 else multiset(s)[e]
    {
      RebuildCounts(s, v, |s|, e);
    }
  }

  // ---------- Draining and whole runs ----------

  function Drain<V>(s: seq<KeyVal<V>>): seq<KeyVal<V>>
    decreases |s|
  {
    if s == [] then [] else [s[0]] + Drain(Dequeue(s))
  }

  lemma TopBoundsBag<V>(s: seq<KeyVal<V>>, e: KeyVal<V>)
    requires Heap(s) && e in multiset(s)
    ensures s[0].key >= e.key
  {
    var k :| 0 <= k < |s| && s[k] == e;
    TopIsMaximal(s, k);
  }

  ghost predicate NonIncreasing<V>(s: seq<KeyVal<V>>) {
    forall i, j :: 0 <= i < j < |s| ==> s[i].key >= s[j].key
  }

  lemma TopFirst<V>(s: seq<KeyVal<V>>, rest: seq<KeyVal<V>>)
    requires Heap(s) && 0 < |s|
    requires NonIncreasing(rest) && multiset(rest) == multiset(s) - multiset{s[0]}
    ensures NonIncreasing([s[0]] + rest)
    ensures multiset([s[0]] + rest) == multiset(s)
  {
    hide Heap;
    forall j | 0 <= j < |rest|
      ensures s[0].key >= rest[j].key
    {
      assert rest[j] in multiset(rest);
      TopBoundsBag(s, rest[j]);
    }
    assert s[0] in multiset(s);
  }

  /** Dequeuing until empty sorts by key, largest first, and loses and invents nothing. */
  lemma {:induction false} DrainSorts<V>(s: seq<KeyVal<V>>)
    requires Heap(s)
    ensures multiset(Drain(s)) == multiset(s)
    ensures NonIncreasing(Drain(s))
    decreases |s|
  {
    if s != [] {
      hide Heap, Dequeue, NonIncreasing;
      DequeueHeap(s);
      DrainSorts(Dequeue(s));
      TopFirst(s, Drain(Dequeue(s)));
    }
  }

  datatype Op<V> = Enqueue(e: KeyVal<V>) | RemoveTop | EraseValue(v: V)

  function Apply<V(==)>(s: seq<KeyVal<V>>, op: Op<V>): seq<KeyVal<V>>
    requires op.RemoveTop? ==> 0 < |s|
  {
    match op
    case Enqueue(e) => Insert(s, e)
    case RemoveTop => Dequeue(s)
    case EraseValue(v) => Erase(s, v)
  }

  /** What each operation means on the multiset of pairs. */
  ghost predicate BagStep<V(!new)>(b: multiset<KeyVal<V>>, op: Op<V>, b': multiset<KeyVal<V>>) {
    match op
    case Enqueue(e) => b' == b + multiset{e}
    case RemoveTop => exists top :: top in b && b' == b - multiset{top} && forall e :: e in b ==> top.key >= e.key
    case EraseValue(v) => forall e :: b'[e] == if e.val == v then 0 else b[e]
  }

  ghost predicate CanRun<V>(s: seq<KeyVal<V>>, ops: seq<Op<V>>)
    decreases |ops|
  {
    ops == [] || ((ops[0].RemoveTop? ==> 0 < |s|) && CanRun(Apply(s, ops[0]), ops[1..]))
  }

  ghost function States<V>(s: seq<KeyVal<V>>, ops: seq<Op<V>>): (r: seq<seq<KeyVal<V>>>)
    requires CanRun(s, ops)
    ensures |r| == |ops| + 1 && r[0] == s
    decreases |ops|
  {
    if ops == [] then [s] else [s] + States(Apply(s, ops[0]), ops[1..])
  }

  lemma StepRefinesBag<V(!new)>(s: seq<KeyVal<V>>, op: Op<V>)
    requires Heap(s) && (op.RemoveTop? ==> 0 < |s|)
    ensures Heap(Apply(s, op)) && BagStep(multiset(s), op, multiset(Apply(s, op)))
  {
    match op
    case Enqueue(e) => InsertHeap(s, e);
    case RemoveTop =>
      DequeueHeap(s);
      forall e | e in multiset(s)
        ensures s[0].key >= e.key
      {
        TopBoundsBag(s, e);
      }
      assert s[0] in multiset(s);
    case EraseValue(v) => EraseHeap(s, v);
  }

  /** In every run of insert, dequeue and erase, every state is a heap and every step is the multiset's. */
  lemma {:induction false} RunRefinesBag<V(!new)>(s: seq<KeyVal<V>>, ops: seq<Op<V>>)
    requires Heap(s) && CanRun(s, ops)
    ensures forall k :: 0 <= k <= |ops| ==> Heap(States(s, ops)[k])
    ensures forall k :: 0 <= k < |ops| ==>
              BagStep(multiset(States(s, ops)[k]), ops[k], multiset(States(s, ops)[k + 1]))
    decreases |ops|
  {
    hide Heap, BagStep, Apply;
    if ops != [] {
      var next, all := Apply(s, ops[0]), States(s, ops);
      StepRefinesBag(s, ops[0]);
      RunRefinesBag(next, ops[1..]);
      var rest := States(next, ops[1..]);
      assert all == [s] + rest;
      forall k | 0 <= k < |ops|
        ensures BagStep(multiset(all[k]), ops[k], multiset(all[k + 1]))
      {
        if k > 0 {
          assert BagStep(multiset(rest[k - 1]), ops[1..][k - 1], multiset(rest[k]));
        }
      }
    }
  }
}
