/** `bodos::queue`: a singly linked list that grows at the tail. */
module LinkedQueue {

  /** `s` without the occurrences of `e`. */
  function Without<T(==)>(s: seq<T>, e: T): (r: seq<T>)
    ensures |r| <= |s|
  {
    if s == [] then []
    else
      var init, last := s[..|s| - 1], s[|s| - 1];
      if last == e then Without(init, e) else Without(init, e) + [last]
  }

  /** Every other element keeps its multiplicity ... */
  lemma {:induction false} WithoutCounts<T>(s: seq<T>, e: T, x: T)
    ensures multiset(Without(s, e))[x] == if x == e then 0 else multiset(s)[x]
  {
    if s != [] {
      var init, last := s[..|s| - 1], s[|s| - 1];
      WithoutCounts(init, e, x);
      assert multiset(s) == multiset(init) + multiset{last} by { assert s == init + [last]; }
    }
  }

  /** ... and its place: the parts of a list are filtered one after the other. */
  lemma {:induction false} WithoutInOrder<T>(s: seq<T>, t: seq<T>, e: T)
    ensures Without(s + t, e) == Without(s, e) + Without(t, e)
    decreases |t|
  {
    if t == [] {
      assert s + t == s;
    } else {
      var init, last := t[..|t| - 1], t[|t| - 1];
      WithoutInOrder(s, init, e);
      assert (s + t)[..|s + t| - 1] == s + init;
    }
  }

  class Node<T> {
    var value: T
    var next: Node?<T>

    constructor (value: T)
      ensures this.value == value && next == null
    {
      this.value, next := value, null;
    }
  }

  class Queue<T(==)> {
    var head: Node?<T>
    var size: nat
    ghost var spine: seq<Node<T>>
    ghost var contents: seq<T>
    ghost var Repr: set<object>

    ghost predicate Valid()
      reads this, Repr
      ensures Valid() ==> this in Repr
    {
      && this in Repr
      && (forall i :: 0 <= i < |spine| ==> spine[i] in Repr)
      && (forall i, j :: 0 <= i < j < |spine| ==> spine[i] != spine[j])
      && size == |spine| == |contents|
      && (forall i :: 0 <= i < |spine| ==> spine[i].value == contents[i])
      && head == NodeAt(0)
      && (forall i {:trigger spine[i].next} :: 0 <= i < |spine| ==> spine[i].next == NodeAt(i + 1))
    }

    ghost function NodeAt(i: nat): Node?<T>
      reads this
    {
      if i < |spine| then spine[i] else null
    }

    constructor ()
      ensures Valid() && fresh(Repr) && contents == []
    {
      head, size := null, 0;
      spine, contents, Repr := [], [], {this};
    }

    method Insert(elem: T) returns (ok: bool)
      requires Valid()
      modifies Repr
      ensures Valid() && fresh(Repr - old(Repr))
      ensures ok && contents == old(contents) + [elem]
    {
      var curr, prev: Node?<T> := head, null;
      ghost var i := 0;
      while curr != null
        invariant 0 <= i <= |spine| && curr == NodeAt(i) && prev == (if i == 0 then null else spine[i - 1])
        decreases |spine| - i
      {
        prev := curr;
        curr := curr.next;
        i := i + 1;
      }
      var node := new Node(elem);
      if prev != null {
        prev.next := node;
      } else {
        head := node;
      }
      size := size + 1;
      spine, contents := spine + [node], contents + [elem];
      Repr := Repr + {node};
      ok := true;
    }

    /** The first node whose value satisfies the predicate. */
    method Find(pred: T -> bool) returns (node: Node?<T>, ghost i: nat)
      requires Valid()
      ensures i <= |spine| && node == NodeAt(i)
      ensures forall j :: 0 <= j < i ==> !pred(contents[j])
      ensures node == null <==> forall j :: 0 <= j < |contents| ==> !pred(contents[j])
      ensures node != null ==> node in Repr && node.value == contents[i] && pred(node.value)
    {
      node, i := head, 0;
      while node != null && !pred(node.value)
        invariant i <= |spine| && node == NodeAt(i)
        invariant forall j :: 0 <= j < i ==> !pred(contents[j])
        decreases |spine| - i
      {
        node := node.next;
        i := i + 1;
      }
    }

    /** Unlinks every node with the value. */
    method EraseItem(elem: T) returns (count: nat)
      requires Valid()
      modifies Repr
      ensures Valid() && Repr == old(Repr)
      ensures contents == Without(old(contents), elem)
      ensures count == |old(contents)| - |contents|
    {
      var curr, prev: Node?<T> := head, null;
      ghost var i, done, s := 0, 0, contents;
      count := 0;
      while curr != null
        invariant Valid() && Repr == old(Repr)
        invariant 0 <= i <= |spine| && curr == NodeAt(i) && prev == (if i == 0 then null else spine[i - 1])
        invariant i <= done <= |s| && count == done - i && |spine| - i == |s| - done
        invariant contents[..i] == Without(s[..done], elem)
        invariant contents[i..] == s[done..]
        decreases |s| - done
      {
        assert s[..done + 1] == s[..done] + [s[done]];
        assert curr.value == contents[i..][0] == s[done];
        ghost var c := contents;
        assert c[i + 1..] == c[i..][1..] == s[done + 1..];
        if curr.value == elem {
          Unlink(prev, curr, i);
          assert contents[..i] == c[..i] && contents[i..] == c[i + 1..];
          curr := curr.next;
          count := count + 1;
        } else {
          assert c[..i + 1] == c[..i] + [c[i]];
          prev := curr;
          curr := curr.next;
          i := i + 1;
        }
        done := done + 1;
      }
      assert s[..done] == s && contents[..i] == contents;
    }

    method Unlink(prev: Node?<T>, curr: Node<T>, ghost i: nat)
      requires Valid() && i < |spine| && curr == spine[i] && prev == (if i == 0 then null else spine[i - 1])
      modifies Repr
      ensures Valid() && Repr == old(Repr)
      ensures spine == old(spine)[..i] + old(spine)[i + 1..] && curr.next == NodeAt(i)
      ensures contents == old(contents)[..i] + old(contents)[i + 1..]
    {
      if prev != null {
        prev.next := curr.next;
      } else {
        head := curr.next;
      }
      size := size - 1;
      spine, contents := spine[..i] + spine[i + 1..], contents[..i] + contents[i + 1..];
    }
  }
}
