/** The generic doubly linked list: every operation keeps a well-formed chain and changes the
    sequence of its values as it should. */
module AdList {

  datatype Option<+T> = None | Some(value: T)

  class ListNode<T> {
    var prev: ListNode?<T>
    var next: ListNode?<T>
    var value: T

    constructor (value: T)
      ensures this.value == value && prev == null && next == null
    {
      this.value, prev, next := value, null, null;
    }
  }

  /** The node at position `i`, and none outside. */
  ghost function NodeAt<T>(nodes: seq<ListNode<T>>, i: int): ListNode?<T> {
    if 0 <= i < |nodes| then nodes[i] else null
  }

  /** The node at position `i` is linked to its neighbours. */
  ghost predicate Linked<T>(nodes: seq<ListNode<T>>, i: nat)
    requires i < |nodes|
    reads nodes`prev, nodes`next
  {
    nodes[i].prev == NodeAt(nodes, i - 1) && nodes[i].next == NodeAt(nodes, i + 1)
  }

  ghost predicate Distinct<T>(nodes: seq<ListNode<T>>) {
    forall i, j | 0 <= i < j < |nodes| :: nodes[i] != nodes[j]
  }

  ghost predicate Chain<T>(nodes: seq<ListNode<T>>)
    reads nodes`prev, nodes`next
  {
    Distinct(nodes) && forall i | 0 <= i < |nodes| :: Linked(nodes, i)
  }

  ghost function Values<T>(nodes: seq<ListNode<T>>): (values: seq<T>)
    reads nodes`value
    ensures |values| == |nodes|
    ensures forall i | 0 <= i < |nodes| :: values[i] == nodes[i].value
  {
    if nodes == [] then [] else Values(nodes[..|nodes| - 1]) + [nodes[|nodes| - 1].value]
  }

  lemma ValuesJoin<T>(p: seq<ListNode<T>>, q: seq<ListNode<T>>)
    ensures Values(p + q) == Values(p) + Values(q)
  {
    hide Values;
  }

  lemma ValuesSlices<T>(nodes: seq<ListNode<T>>, i: nat)
    requires i <= |nodes|
    ensures Values(nodes[..i]) == Values(nodes)[..i] && Values(nodes[i..]) == Values(nodes)[i..]
  {
    hide Values;
  }

  lemma ValuesWith<T>(nodes: seq<ListNode<T>>, at: nat, node: ListNode<T>)
    requires at <= |nodes|
    ensures Values(nodes[..at] + [node] + nodes[at..]) == Values(nodes)[..at] + [node.value] + Values(nodes)[at..]
  {
    ValuesOne(node);
    ValuesSlices(nodes, at);
    ValuesJoin(nodes[..at], [node]);
    ValuesJoin(nodes[..at] + [node], nodes[at..]);
  }

  lemma ValuesWithout<T>(nodes: seq<ListNode<T>>, at: nat)
    requires at < |nodes|
    ensures Values(nodes[..at] + nodes[at + 1..]) == Values(nodes)[..at] + Values(nodes)[at + 1..]
  {
    ValuesSlices(nodes, at);
    ValuesSlices(nodes, at + 1);
    ValuesJoin(nodes[..at], nodes[at + 1..]);
  }

  lemma ValuesRotated<T>(nodes: seq<ListNode<T>>)
    requires nodes != []
    ensures var last := |nodes| - 1;
            Values([nodes[last]] + nodes[..last]) == [nodes[last].value] + Values(nodes)[..last]
  {
    ValuesOne(nodes[|nodes| - 1]);
    ValuesSlices(nodes, |nodes| - 1);
    ValuesJoin([nodes[|nodes| - 1]], nodes[..|nodes| - 1]);
  }

  lemma DistinctWithout<T>(nodes: seq<ListNode<T>>, at: nat)
    requires at < |nodes| && Distinct(nodes)
    ensures Distinct(nodes[..at] + nodes[at + 1..])
  {
  }

  lemma ValuesOne<T>(node: ListNode<T>)
    ensures Values([node]) == [node.value]
  {
  }

  class List<T> {
    var head: ListNode?<T>
    var tail: ListNode?<T>
    var len: nat
    /** The method that copies a value, if one is set; it can fail. */
    var dup: Option<T -> Option<T>>
    ghost var nodes: seq<ListNode<T>>

    ghost predicate Valid()
      reads this`head, this`tail, this`len, this`nodes, nodes`prev, nodes`next
    {
      && len == |nodes| && head == NodeAt(nodes, 0) && tail == NodeAt(nodes, len - 1)
      && Chain(nodes)
    }

    ghost function Contents(): seq<T>
      reads this`nodes, nodes`value
    {
      Values(nodes)
    }

    /** listCreate */
    constructor ()
      ensures Valid() && nodes == [] && dup == None
    {
      head, tail, len, dup, nodes := null, null, 0, None, [];
    }

    /** listAddNodeHead */
    method AddNodeHead(value: T)
      requires Valid()
      modifies this`head, this`tail, this`len, this`nodes, nodes`prev, nodes`next
      ensures Valid() && Contents() == [value] + old(Contents())
      ensures |nodes| == old(|nodes|) + 1 && fresh(nodes[0]) && nodes == [nodes[0]] + old(nodes)
    {
      hide Values;
      var node := new ListNode(value);
      if len == 0 {
        head, tail := node, node;
      } else {
        node.prev := null;
        node.next := head;
        head.prev := node;
        head := node;
      }
      len := len + 1;
      ghost var was := nodes;
      nodes := [node] + nodes;
      forall i | 0 <= i < |nodes| ensures Linked(nodes, i) {
        if i > 0 { assert nodes[i] == was[i - 1] && old(Linked(was, i - 1)); }
      }
      ValuesOne(node);
      ValuesJoin([node], was);
    }

    /** listAddNodeTail */
    method AddNodeTail(value: T)
      requires Valid()
      modifies this`head, this`tail, this`len, this`nodes, nodes`prev, nodes`next
      ensures Valid() && Contents() == old(Contents()) + [value] && dup == old(dup)
      ensures |nodes| == old(|nodes|) + 1 && fresh(nodes[|nodes| - 1]) && nodes == old(nodes) + [nodes[|nodes| - 1]]
    {
      hide Values;
      var node := new ListNode(value);
      if len == 0 {
        head, tail := node, node;
      } else {
        node.prev := tail;
        node.next := null;
        tail.next := node;
        tail := node;
      }
      len := len + 1;
      ghost var was := nodes;
      nodes := nodes + [node];
      forall i | 0 <= i < |nodes| ensures Linked(nodes, i) {
        if i < |was| { assert nodes[i] == was[i] && old(Linked(was, i)); }
      }
      ValuesOne(node);
      ValuesJoin(was, [node]);
    }

    /** One round of listDup: a copy of the value at the tail, unless the copying fails. */
    method AddCopy(value: T) returns (ok: bool)
      requires Valid()
      modifies this`head, this`tail, this`len, this`nodes, nodes`prev, nodes`next
      ensures Valid() && ok == Copied(dup, value).Some?
      ensures ok ==> Contents() == old(Contents()) + [Copied(dup, value).value]
      ensures ok ==> |nodes| == old(|nodes|) + 1 && fresh(nodes[|nodes| - 1]) && nodes == old(nodes) + [nodes[|nodes| - 1]]
    {
      hide Values, Chain, Linked, Distinct;
      var copied := value;
      if dup.Some? {
        match dup.value(value)
        case None => return false;
        case Some(v) => copied := v;
      }
      AddNodeTail(copied);
      return true;
    }

    /** listInsertNode */
    method InsertNode(oldNode: ListNode<T>, value: T, after: bool, ghost i: nat)
      requires Valid() && i < |nodes| && nodes[i] == oldNode
      modifies this`head, this`tail, this`len, this`nodes, nodes`prev, nodes`next
      ensures Valid()
      ensures var at := if after then i + 1 else i;
              && Contents() == old(Contents())[..at] + [value] + old(Contents())[at..]
              && |nodes| == old(|nodes|) + 1 && fresh(nodes[at])
              && nodes == old(nodes)[..at] + [nodes[at]] + old(nodes)[at..]
    {
      hide Values;
      var node := new ListNode(value);
      assert Linked(nodes, i);
      if after {
        node.prev := oldNode;
        node.next := oldNode.next;
        if tail == oldNode { tail := node; }
      } else {
        node.next := oldNode;
        node.prev := oldNode.prev;
        if head == oldNode { head := node; }
      }
      LinkIn(node, if after then i + 1 else i);
    }

    /** The end of listInsertNode: the neighbours of a node that already points at them. */
    method LinkIn(node: ListNode<T>, ghost at: nat)
      requires len == |nodes| && Chain(nodes) && at <= |nodes| && node !in nodes
      requires node.prev == NodeAt(nodes, at - 1) && node.next == NodeAt(nodes, at)
      requires head == if at == 0 then node else NodeAt(nodes, 0)
      requires tail == if at == len then node else NodeAt(nodes, len - 1)
      modifies this`len, this`nodes, nodes`prev, nodes`next
      ensures Valid() && nodes == old(nodes)[..at] + [node] + old(nodes)[at..]
      ensures Contents() == old(Contents())[..at] + [node.value] + old(Contents())[at..]
    {
      hide Values;
      if node.prev != null { node.prev.next := node; }
      if node.next != null { node.next.prev := node; }
      len := len + 1;
      ghost var was := nodes;
      nodes := was[..at] + [node] + was[at..];
      forall k | 0 <= k < |nodes| ensures Linked(nodes, k) {
        if k < at {
          assert nodes[k] == was[k] && old(Linked(was, k));
        } else if k > at {
          assert nodes[k] == was[k - 1] && old(Linked(was, k - 1));
        }
      }
      ValuesWith(was, at, node);
    }

    /** listDelNode */
    method DelNode(node: ListNode<T>, ghost i: nat)
      requires Valid() && i < |nodes| && nodes[i] == node
      modifies this`head, this`tail, this`len, this`nodes, nodes`prev, nodes`next
      ensures Valid()
      ensures Contents() == old(Contents())[..i] + old(Contents())[i + 1..]
      ensures nodes == old(nodes)[..i] + old(nodes)[i + 1..]
    {
      hide Values;
      assert Linked(nodes, i);
      if node.prev != null {
        node.prev.next := node.next;
      } else {
        head := node.next;
      }
      if node.next != null {
        node.next.prev := node.prev;
      } else {
        tail := node.prev;
      }
      len := len - 1;
      ghost var was := nodes;
      nodes := was[..i] + was[i + 1..];
      forall k | 0 <= k < |nodes| ensures Linked(nodes, k) {
        if k < i {
          assert nodes[k] == was[k] && old(Linked(was, k));
        } else {
          assert nodes[k] == was[k + 1] && old(Linked(was, k + 1));
        }
      }
      DistinctWithout(was, i);
      assert head == NodeAt(nodes, 0) && tail == NodeAt(nodes, len - 1);
      ValuesWithout(was, i);
    }

    /** listIndex: a negative index counts from the tail. */
    method Index(index: int) returns (n: ListNode?<T>)
      requires Valid()
      ensures n == NodeAt(nodes, if index < 0 then |nodes| + index else index)
    {
      if index < 0 {
        var k := -index - 1;
        n := tail;
        ghost var at := |nodes| - 1;
        while k != 0 && n != null
          invariant 0 <= k && n == NodeAt(nodes, at) && at < |nodes|
          invariant n != null ==> at - k == |nodes| + index
          invariant n == null ==> |nodes| + index < 0
        {
          assert Linked(nodes, at);
          n := n.prev;
          at := at - 1;
          k := k - 1;
        }
      } else {
        var k := index;
        n := head;
        ghost var at := 0;
        while k != 0 && n != null
          invariant 0 <= k && n == NodeAt(nodes, at) && 0 <= at
          invariant n != null ==> at + k == index
          invariant n == null ==> index >= |nodes|
        {
          assert Linked(nodes, at);
          n := n.next;
          at := at + 1;
          k := k - 1;
        }
      }
    }

    /** listRotate: the tail becomes the head. */
    method Rotate()
      requires Valid()
      modifies this`head, this`tail, this`len, this`nodes, nodes`prev, nodes`next
      ensures Valid()
      ensures len == old(len)
      ensures len > 1 ==> nodes == [old(nodes[len - 1])] + old(nodes[..len - 1])
      ensures len > 1 ==> Contents() == [old(Contents()[len - 1])] + old(Contents()[..len - 1])
      ensures len <= 1 ==> nodes == old(nodes) && Contents() == old(Contents())
    {
      hide Values;
      if len <= 1 { return; }
      var oldTail := tail;
      assert Linked(nodes, len - 1);
      assert oldTail == nodes[len - 1] && oldTail.prev == nodes[len - 2];
      tail := oldTail.prev;
      tail.next := null;
      head.prev := oldTail;
      oldTail.prev := null;
      oldTail.next := head;
      head := oldTail;
      ghost var was := nodes;
      nodes := [oldTail] + was[..len - 1];
      forall k | 0 <= k < |nodes| ensures Linked(nodes, k) {
        if k > 0 { assert nodes[k] == was[k - 1] && old(Linked(was, k - 1)); }
      }
      ValuesRotated(was);
    }
  }

  /** listIter: where the iteration stands, in either direction. */
  class ListIter<T> {
    var next: ListNode?<T>
    const fromHead: bool

    /** listGetIterator, and listRewind and listRewindTail */
    constructor (list: List<T>, fromHead: bool)
      requires list.Valid()
      ensures this.fromHead == fromHead
      ensures next == NodeAt(list.nodes, if fromHead then 0 else |list.nodes| - 1)
    {
      this.fromHead := fromHead;
      next := if fromHead then list.head else list.tail;
    }

    /** listNext: the link is read before the node is handed out, so the caller may delete
        that node. */
    method Next(ghost list: List<T>, ghost at: int) returns (current: ListNode?<T>)
      requires list.Valid() && next == NodeAt(list.nodes, at)
      modifies this`next
      ensures current == NodeAt(list.nodes, at)
      ensures current != null ==> next == NodeAt(list.nodes, if fromHead then at + 1 else at - 1)
      ensures current == null ==> next == null
    {
      current := next;
      if current != null {
        assert Linked(list.nodes, at);
        next := if fromHead then current.next else current.prev;
      }
    }
  }

  /** What the copying method makes of a value. */
  function Copied<T>(dup: Option<T -> Option<T>>, value: T): Option<T> {
    if dup == None then Some(value) else dup.value(value)
  }

  ghost predicate AreCopies<T>(dup: Option<T -> Option<T>>, values: seq<T>, copies: seq<T>) {
    |copies| == |values| && forall i | 0 <= i < |values| :: Some(copies[i]) == Copied(dup, values[i])
  }

  lemma NoCopies<T>(dup: Option<T -> Option<T>>, values: seq<T>, copies: seq<T>)
    requires copies == []
    ensures AreCopies(dup, values[..0], copies)
  {
  }

  lemma CopyAppended<T>(dup: Option<T -> Option<T>>, values: seq<T>, k: nat, copies: seq<T>)
    requires k < |values| && AreCopies(dup, values[..k], copies) && Copied(dup, values[k]).Some?
    ensures AreCopies(dup, values[..k + 1], copies + [Copied(dup, values[k]).value])
  {
  }

  lemma NodeAtInside<T>(nodes: seq<ListNode<T>>, k: nat)
    requires k <= |nodes|
    ensures NodeAt(nodes, k) == null <==> k == |nodes|
    ensures k < |nodes| ==> NodeAt(nodes, k) == nodes[k]
  {
  }

  lemma ValidEnds<T>(list: List<T>)
    requires list.Valid()
    ensures list.len == |list.nodes|
  {
  }

  /** listDup: all or nothing. */
  method Dup<T>(orig: List<T>) returns (copy: List?<T>)
    requires orig.Valid()
    ensures copy == null ==> exists i | 0 <= i < |orig.nodes| :: Copied(orig.dup, orig.Contents()[i]) == None
    ensures copy != null ==>
              && fresh(copy) && fresh(copy.nodes) && copy.Valid() && copy.dup == orig.dup && |copy.nodes| == |orig.nodes|
              && AreCopies(orig.dup, orig.Contents(), copy.Contents())
  {
    hide Values, Chain, Linked, Distinct, Copied, AreCopies, List.Valid, NodeAt;
    ValidEnds(orig);
    copy := new List<T>();
    copy.dup := orig.dup;
    var iter := new ListIter<T>(orig, true);
    ghost var k, values := 0, orig.Contents();
    NoCopies(orig.dup, values, copy.Contents());
    while true
      invariant 0 <= k <= |orig.nodes| && iter.next == NodeAt(orig.nodes, k)
      invariant fresh(iter) && iter.fromHead && copy.Valid() && copy.dup == orig.dup
      invariant fresh(copy) && fresh(copy.nodes) && |copy.nodes| == k
      invariant AreCopies(orig.dup, values[..k], copy.Contents())
      decreases |orig.nodes| - k
    {
      NodeAtInside(orig.nodes, k);
      var node := iter.Next(orig, k);
      if node == null { break; }
      ghost var had := copy.Contents();
      assert node.value == values[k];
      var ok := copy.AddCopy(node.value);
      if !ok {
        assert Copied(orig.dup, orig.Contents()[k]) == None;
        return null;
      }
      CopyAppended(orig.dup, values, k, had);
      k := k + 1;
    }
    assert values[..k] == values;
  }

  /** listSearchKey: the first node that matches. */
  method SearchKey<T>(list: List<T>, matches: T -> bool) returns (found: ListNode?<T>, ghost at: nat)
    requires list.Valid()
    ensures at <= |list.nodes| && found == NodeAt(list.nodes, at)
    ensures forall i | 0 <= i < at :: !matches(list.Contents()[i])
    ensures found != null ==> matches(found.value)
  {
    hide Values, Chain;
    var iter := new ListIter<T>(list, true);
    at := 0;
    found := iter.Next(list, 0);
    while found != null
      invariant 0 <= at <= |list.nodes| && found == NodeAt(list.nodes, at)
      invariant found != null ==> iter.next == NodeAt(list.nodes, at + 1)
      invariant fresh(iter) && iter.fromHead
      invariant forall i | 0 <= i < at :: !matches(list.Contents()[i])
      decreases |list.nodes| - at
    {
      if matches(found.value) { return; }
      at := at + 1;
      found := iter.Next(list, at);
    }
  }
}
