/** `alist`: a doubly linked list with head, tail and size, refining a sequence. */
module Lists {

  class Node<T> {
    var next: Node?<T>
    var prev: Node?<T>
    var elem: T

    constructor (elem: T)
      ensures this.elem == elem && next == null && prev == null
    {
      this.elem, next, prev := elem, null, null;
    }

    /** `node::next(link)`: links `link` in behind this node. */
    method InsertNext(link: Node<T>)
      modifies this`next, link`next, link`prev, if next != null then {next} else {}
      requires link != this && next != this && next != link
      ensures next == link && link.prev == this && link.next == old(next)
      ensures old(next) != null ==>
                old(next).prev == link && old(next).next == old(next.next) && old(next).elem == old(next.elem)
    {
      link.next := next;
      link.prev := this;
      if next != null { next.prev := link; }
      next := link;
    }

    /** `node::prev(link)`: links `link` in before this node. */
    method InsertPrev(link: Node<T>)
      modifies this`prev, link`next, link`prev, if prev != null then {prev} else {}
      requires link != this && prev != this && prev != link
      ensures prev == link && link.next == this && link.prev == old(prev)
      ensures old(prev) != null ==>
                old(prev).next == link && old(prev).prev == old(prev.prev) && old(prev).elem == old(prev.elem)
    {
      link.next := this;
      link.prev := prev;
      if prev != null { prev.next := link; }
      prev := link;
    }

    /** `~node`: the neighbours are linked to each other. */
    method Unlink()
      requires next != this && prev != this && (next == null || next != prev)
      modifies if next != null then {next} else {}, if prev != null then {prev} else {}
      ensures next != null ==> next.prev == prev && next.next == old(next.next) && next.elem == old(next.elem)
      ensures prev != null ==> prev.next == next && prev.prev == old(prev.prev) && prev.elem == old(prev.elem)
    {
      if prev != null { prev.next := next; }
      if next != null { next.prev := prev; }
    }
  }

  /** `s` without its k-th element. */
  function Without<X>(s: seq<X>, k: nat): (r: seq<X>)
    requires k < |s|
    ensures |r| == |s| - 1
    ensures forall i {:trigger r[i]} :: 0 <= i < k ==> r[i] == s[i]
    ensures forall i {:trigger r[i]} :: k <= i < |r| ==> r[i] == s[i + 1]
  {
    seq(|s| - 1, i requires 0 <= i < |s| - 1 => if i < k then s[i] else s[i + 1])
  }

  lemma WithoutIsSplice<X>(s: seq<X>, k: nat)
    requires k < |s|
    ensures Without(s, k) == s[..k] + s[k + 1..]
  {
  }

  lemma DistinctWithout<X>(s: seq<X>, k: nat)
    requires k < |s| && forall i, j :: 0 <= i < j < |s| ==> s[i] != s[j]
    ensures forall i, j :: 0 <= i < j < |s| - 1 ==> Without(s, k)[i] != Without(s, k)[j]
  {
  }

  class AList<T> {
    var head: Node?<T>
    var tail: Node?<T>
    var size: int
    ghost var nodes: seq<Node<T>>

    ghost predicate Valid()
      reads this, nodes
    {
      size == |nodes| && head == At(0) && tail == At(|nodes| - 1) && Linked()
    }

    /** The nodes are distinct and linked in order, both ways. */
    ghost predicate Linked()
      reads this, nodes
    {
      && (forall i, j :: 0 <= i < j < |nodes| ==> nodes[i] != nodes[j])
      && (forall i {:trigger nodes[i].next} :: 0 <= i < |nodes| ==> nodes[i].next == At(i + 1))
      && (forall i {:trigger nodes[i].prev} :: 0 <= i < |nodes| ==> nodes[i].prev == At(i - 1))
    }

    /** The i-th node, or null off either end. */
    ghost function At(i: int): Node?<T>
      reads this
    {
      if 0 <= i < |nodes| then nodes[i] else null
    }

    /** The elements from head to tail. */
    ghost function Contents(): (s: seq<T>)
      reads this, nodes
      ensures |s| == |nodes| && forall i :: 0 <= i < |s| ==> s[i] == nodes[i].elem
    {
      seq(|nodes|, i requires 0 <= i < |nodes| reads this, nodes => nodes[i].elem)
    }

    constructor ()
      ensures Valid() && Contents() == [] && nodes == []
    {
      head, tail, size, nodes := null, null, 0, [];
    }

    predicate Empty()
      reads this
    {
      size <= 0
    }

    method Append(elem: T) returns (nd: Node<T>)
      requires Valid()
      modifies this, nodes
      ensures Valid() && fresh(nd) && nodes == old(nodes) + [nd]
      ensures Contents() == old(Contents()) + [elem]
    {
      nd := new Node(elem);
      if tail != null {
        tail.InsertNext(nd);
      } else {
        head := nd;
      }
      tail := nd;
      size := size + 1;
      nodes := nodes + [nd];
    }

    method Prepend(elem: T) returns (nd: Node<T>)
      requires Valid()
      modifies this, nodes
      ensures Valid() && fresh(nd) && nodes == [nd] + old(nodes)
      ensures Contents() == [elem] + old(Contents())
    {
      nd := new Node(elem);
      if head != null {
        head.InsertPrev(nd);
      } else {
        tail := nd;
      }
      head := nd;
      size := size + 1;
      nodes := [nd] + nodes;
    }

    /** `append(rhs)`: a list is never appended to itself. */
    method AppendAll(rhs: AList<T>)
      requires Valid() && rhs.Valid()
      requires rhs != this ==> forall n :: n in nodes ==> n !in rhs.nodes
      modifies this, nodes
      ensures Valid() && (rhs != this ==> rhs.Valid() && rhs.Contents() == old(rhs.Contents()))
      ensures Contents() == if rhs == this then old(Contents()) else old(Contents()) + old(rhs.Contents())
      ensures fresh(set n | n in nodes && n !in old(nodes))
    {
      if rhs == this { return; }
      var iter := rhs.head;
      ghost var k, mine, theirs := 0, Contents(), rhs.Contents();
      while iter != null
        invariant 0 <= k <= |rhs.nodes| && iter == rhs.At(k)
        invariant Valid() && unchanged(rhs) && unchanged(set n | n in old(rhs.nodes))
        invariant forall n :: n in nodes ==> n !in rhs.nodes
        invariant fresh(set n | n in nodes && n !in old(nodes))
        invariant Contents() == mine + theirs[..k]
        decreases |rhs.nodes| - k
      {
        var nd := Append(iter.elem);
        iter := iter.next;
        assert theirs[..k + 1] == theirs[..k] + [theirs[k]];
        k := k + 1;
      }
    }

    /** Deleting `nd` links its neighbours to each other and leaves every other link alone. */
    method Delete(nd: Node<T>, ghost k: nat)
      requires Linked() && k < |nodes| && nodes[k] == nd
      modifies nodes
      ensures forall i {:trigger nodes[i].next} :: 0 <= i < |nodes| && i != k ==>
                nodes[i].next == At(if i + 1 == k then k + 1 else i + 1)
      ensures forall i {:trigger nodes[i].prev} :: 0 <= i < |nodes| && i != k ==>
                nodes[i].prev == At(if i == k + 1 then k - 1 else i - 1)
      ensures forall i {:trigger nodes[i].elem} :: 0 <= i < |nodes| ==> nodes[i].elem == old(nodes[i].elem)
    {
      assert nd.next == At(k + 1) && nd.prev == At(k - 1);
      nd.Unlink();
    }

    /** The nodes without `nd` are linked in order again. */
    method TakeOut(nd: Node<T>, ghost k: nat)
      requires Linked() && k < |nodes| && nodes[k] == nd
      modifies nodes, this`nodes
      ensures Linked() && nodes == Without(old(nodes), k)
      ensures Contents() == Without(old(Contents()), k)
    {
      Delete(nd, k);
      ghost var was := nodes;
      nodes := Without(was, k);
      DistinctWithout(was, k);
      assert forall i {:trigger nodes[i].elem} :: 0 <= i < |nodes| ==>
               nodes[i] == was[if i < k then i else i + 1];
    }

    /** Takes `nd` out and returns its successor. */
    method Remove(nd: Node<T>, ghost k: nat) returns (successor: Node?<T>)
      requires Valid() && k < |nodes| && nodes[k] == nd
      modifies this, nodes
      ensures Valid() && nodes == Without(old(nodes), k)
      ensures Contents() == Without(old(Contents()), k)
      ensures successor == At(k)
    {
      ghost var was := nodes;
      MoveEnds(nd, k);
      successor := nd.next;
      TakeOut(nd, k);
      size := size - 1;
      assert nodes == Without(was, k);
    }

    /** Head and tail step off the node. */
    method MoveEnds(nd: Node<T>, ghost k: nat)
      requires Valid() && k < |nodes| && nodes[k] == nd
      modifies this`head, this`tail
      ensures head == (if k == 0 then At(1) else At(0))
      ensures tail == At(if k == |nodes| - 1 then |nodes| - 2 else |nodes| - 1)
      ensures nd.next == At(k + 1)
    {
      assert nd.next == At(k + 1) && nd.prev == At(k - 1);
      if nd == head { head := nd.next; }
      if nd == tail { tail := nd.prev; }
    }

    method RemoveFirst()
      requires Valid()
      modifies this, nodes
      ensures Valid()
      ensures Contents() == if old(Contents()) == [] then [] else old(Contents())[1..]
      ensures forall i :: 0 <= i < |nodes| ==> nodes[i] in old(nodes)
    {
      if !Empty() { var _ := Remove(head, 0); }
    }

    method RemoveLast()
      requires Valid()
      modifies this, nodes
      ensures Valid()
      ensures Contents() == if old(Contents()) == [] then [] else old(Contents())[..|old(Contents())| - 1]
      ensures forall i :: 0 <= i < |nodes| ==> nodes[i] in old(nodes)
    {
      if !Empty() { var _ := Remove(tail, |nodes| - 1); }
    }

    method Clear()
      requires Valid()
      modifies this, nodes
      ensures Valid() && Contents() == []
    {
      while !Empty()
        invariant Valid() && forall i :: 0 <= i < |nodes| ==> nodes[i] in old(nodes)
        decreases |nodes|
      {
        RemoveFirst();
      }
    }

    /** The first node whose element is the `same` as `needle`, or the end; `same` is the element type's
        operator==. */
    method Find(needle: T, same: (T, T) -> bool) returns (iter: Node?<T>, ghost k: nat)
      requires Valid()
      ensures k <= |nodes| && iter == At(k)
      ensures forall i :: 0 <= i < k ==> !same(Contents()[i], needle)
      ensures iter != null ==> same(iter.elem, needle)
    {
      iter := head;
      k := 0;
      while iter != null
        invariant k <= |nodes| && iter == At(k)
        invariant forall i :: 0 <= i < k ==> !same(Contents()[i], needle)
        decreases |nodes| - k
      {
        if same(iter.elem, needle) { return; }
        iter := iter.next;
        k := k + 1;
      }
    }
  }
}
