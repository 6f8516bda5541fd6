/** `bodos::priority_queue`: the heap in a growable array. */
module PriorityQueue {
  import opened MaxHeap

  const DEFAULT_SIZE: nat := 5

  class PriorityQueue<V(==, 0)> {
    var mem: array<KeyVal<V>>
    var size: nat
    var count: nat

    ghost predicate Shaped()
      reads this
    {
      count <= size == mem.Length && 0 < size
    }

    ghost predicate Valid()
      reads this, mem
    {
      Shaped() && Heap(mem[..count])
    }

    ghost function Contents(): seq<KeyVal<V>>
      requires Shaped()
      reads this, mem
    {
      mem[..count]
    }

    /** The kernel uses the default of 5; `start_size` 0 would make the first insert write outside. */
    constructor (startSize: nat := DEFAULT_SIZE)
      requires 0 < startSize
      ensures Valid() && fresh(mem) && Contents() == [] && size == startSize
    {
      mem := new KeyVal<V>[startSize];
      size, count := startSize, 0;
    }

    method Insert(elem: KeyVal<V>)
      requires Valid()
      modifies this, mem
      ensures Valid() && (mem == old(mem) || fresh(mem))
      ensures Contents() == MaxHeap.Insert(old(Contents()), elem)
      ensures size == if old(count) == old(size) then 2 * old(size) else old(size)
    {
      hide Heap, MaxHeap.Swim;
      ghost var s := Contents();
      if count == size {
        IncreaseMem(size * 2);
      }
      var currpos := count;
      Append(elem);
      InsertHeap(s, elem);
      Swim(currpos);
    }

    method Append(elem: KeyVal<V>)
      requires Shaped() && count < size
      modifies mem, `count
      ensures Shaped() && count == old(count) + 1
      ensures mem[..count] == old(mem[..count]) + [elem]
    {
      mem[count] := elem;
      count := count + 1;
    }

    method IncreaseMem(newSize: nat)
      requires Valid() && count < newSize
      modifies this
      ensures Valid() && fresh(mem) && size == newSize && count == old(count)
      ensures Contents() == old(Contents())
    {
      var t := new KeyVal<V>[newSize];
      var i := 0;
      while i < count
        modifies t
        invariant 0 <= i <= count
        invariant t[..i] == mem[..i]
      {
        t[i] := mem[i];
        i := i + 1;
      }
      mem := t;
      size := newSize;
    }

    method Swim(pos: nat)
      requires Shaped() && pos < count
      modifies mem
      ensures mem[..count] == MaxHeap.Swim(old(mem[..count]), pos)
      decreases pos
    {
      if pos == 0 {
        return;
      }
      var kv, parpos := mem[pos], Parent(pos);
      if mem[parpos].key >= kv.key {
        return;
      }
      ghost var s := mem[..count];
      mem[pos] := mem[parpos];
      mem[parpos] := kv;
      assert mem[..count] == Swap(s, pos, parpos);
      Swim(parpos);
    }

    method Sink(pos: nat)
      requires Shaped() && (count == 0 || pos < count) && pos < size
      modifies mem
      ensures count > 0 ==> mem[..count] == MaxHeap.Sink(old(mem[..count]), pos)
      decreases count - pos
    {
      var kv := mem[pos];
      var l, r := 2 * pos + 1, 2 * pos + 2;
      if l >= count {
        return;
      }
      ghost var s := mem[..count];
      var newpos := if r >= count || mem[l].key >= mem[r].key then l else r;
      assert newpos == LargerChild(s, pos);
      if kv.key >= mem[newpos].key {
        return;
      }
      mem[pos] := mem[newpos];
      mem[newpos] := kv;
      assert mem[..count] == Swap(s, pos, newpos);
      Sink(newpos);
    }

    method Dequeue() returns (kv: KeyVal<V>)
      requires Valid() && 0 < count
      modifies this, mem
      ensures Valid() && mem == old(mem)
      ensures kv == old(Contents())[0]
      ensures Contents() == MaxHeap.Dequeue(old(Contents()))
    {
      ghost var s := Contents();
      count := count - 1;
      kv := mem[0];
      mem[0] := mem[count];
      assert 0 < count ==> mem[..count] == s[..count][0 := s[count]];
      DequeueHeap(s);
      Sink(0);
    }

    method Top() returns (kv: KeyVal<V>)
      requires Valid() && 0 < count
      ensures kv == Contents()[0]
    {
      kv := mem[0];
    }

    /** A new queue with the pairs that stay, inserted one by one. */
    method Refilled(val: V) returns (pq: PriorityQueue<V>)
      requires Valid()
      ensures pq.Valid() && fresh(pq) && fresh(pq.mem)
      ensures pq.Contents() == MaxHeap.Erase(Contents(), val)
    {
      hide Heap, MaxHeap.Insert;
      pq := new PriorityQueue<V>();
      for i := 0 to count
        invariant pq.Valid() && fresh(pq) && fresh(pq.mem)
        invariant pq.Contents() == Rebuild(Contents(), val, i)
      {
        if mem[i].val != val {
          pq.Insert(mem[i]);
        }
      }
    }

    /** Removes every pair with the value, by refilling a new queue, and returns how many there were. */
    method Erase(val: V) returns (removed: nat)
      requires Valid()
      modifies this
      ensures Valid() && fresh(mem)
      ensures Contents() == MaxHeap.Erase(old(Contents()), val)
      ensures removed == |old(Contents())| - |Contents()|
    {
      hide Heap, MaxHeap.Erase;
      var pq := Refilled(val);
      var c := count;
      mem, size, count := pq.mem, pq.size, pq.count;
      return c - count;
    }
  }
}
