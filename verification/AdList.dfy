/** The doubly linked list that keeps the block hashes and the excluded threads:
    nodes relinked in place, and an iterator that follows their links. */
module AdList {
  import opened Options

  class ListNode<T> {
    var prev: ListNode?<T>
    var next: ListNode?<T>
    var value: T

    constructor (value: T)
      ensures prev == null && next == null && this.value == value
    {
      prev, next, this.value := null, null, value;
    }
  }

  /** Node `i` of a chain, and null beyond either end. */
  ghost function At<T>(nodes: seq<ListNode<T>>, i: int): (n: ListNode?<T>)
  {
    if 0 <= i < |nodes| then nodes[i] else null
  }

  /** `nodes` are different and linked in this order, both ways. */
  ghost predicate Linked<T>(nodes: seq<ListNode<T>>)
    reads nodes
  {
    && (forall i, j :: 0 <= i < j < |nodes| ==> nodes[i] != nodes[j])
    && (forall i, j :: 0 <= i < j == i + 1 < |nodes| ==> nodes[i].next == nodes[j] && nodes[j].prev == nodes[i])
    && (|nodes| > 0 ==> nodes[0].prev == null && nodes[|nodes| - 1].next == null)
  }

  lemma Neighbours<T>(nodes: seq<ListNode<T>>, i: nat)
    requires Linked(nodes) && i < |nodes|
    ensures nodes[i].prev == At(nodes, i - 1) && nodes[i].next == At(nodes, i + 1)
    ensures (nodes[i].prev == null <==> i == 0) && (nodes[i].next == null <==> i == |nodes| - 1)
  {
    if i > 0 {
      var j := i - 1;
      assert nodes[j].next == nodes[i];
    }
    if i + 1 < |nodes| {
      var j := i + 1;
      assert nodes[j].prev == nodes[i];
    }
  }

  function Inserted<T>(s: seq<T>, i: nat, x: T): (r: seq<T>)
    requires i <= |s|
  {
    s[..i] + [x] + s[i..]
  }

  function Without<T>(s: seq<T>, i: nat): (r: seq<T>)
    requires i < |s|
  {
    s[..i] + s[i + 1..]
  }

  /** Element `i` of what insertion makes is the new one and the others keep their order;
      removal undoes it, and is undone by it. */
  lemma RemovalUndoes<T>(s: seq<T>, i: nat, x: T)
    requires i <= |s|
    ensures var r := Inserted(s, i, x);
            |r| == |s| + 1 && r[i] == x && r[..i] == s[..i] && r[i + 1..] == s[i..] && Without(r, i) == s
    ensures i < |s| ==> |Without(s, i)| == |s| - 1 && Inserted(Without(s, i), i, s[i]) == s
  {
    assert Without(Inserted(s, i, x), i) == s;
    assert i < |s| ==> Inserted(Without(s, i), i, s[i]) == s;
  }

  function Rotated<T>(s: seq<T>): (r: seq<T>)
  {
    if |s| <= 1 then s else [s[|s| - 1]] + s[..|s| - 1]
  }

  class List<T(==)> {
    var head: ListNode?<T>
    var tail: ListNode?<T>
    var dup: Option<T -> Option<T>>
    var matches: Option<(T, T) -> bool>
    var len: nat
    ghost var nodes: seq<ListNode<T>>

    ghost predicate Valid()
      reads this, nodes
    {
      && len == |nodes|
      && head == At(nodes, 0)
      && tail == At(nodes, len - 1)
      && Linked(nodes)
    }

    constructor ()
      ensures Valid() && nodes == [] && dup == None && matches == None
    {
      head, tail, len := null, null, 0;
      dup, matches := None, None;
      nodes := [];
    }

    method AddNodeHead(value: T)
      requires Valid()
      modifies this`head, this`tail, this`len, this`nodes, nodes`prev
      ensures Valid()
      ensures |nodes| == |old(nodes)| + 1 && fresh(nodes[0]) && nodes[1..] == old(nodes)
      ensures nodes[0].value == value
    {
      var node := new ListNode(value);
      if len == 0 {
        head, tail := node, node;
      } else {
        node.next := head;
        head.prev := node;
        head := node;
      }
      len := len + 1;
      nodes := [node] + nodes;
    }

    method AddNodeTail(value: T)
      requires Valid()
      modifies this`head, this`tail, this`len, this`nodes, nodes`next
      ensures Valid()
      ensures |nodes| == |old(nodes)| + 1 && fresh(nodes[|old(nodes)|]) && nodes[..|old(nodes)|] == old(nodes)
      ensures nodes[|old(nodes)|].value == value
    {
      var node := new ListNode(value);
      if len == 0 {
        head, tail := node, node;
      } else {
        node.prev := tail;
        tail.next := node;
        tail := node;
      }
      len := len + 1;
      nodes := nodes + [node];
    }

    /** Second half of `listInsertNode`: let the neighbours of a node that carries
        its own links point back at it. */
    method LinkIn(node: ListNode<T>, ghost k: nat)
      requires len == |nodes| && Linked(nodes) && k <= |nodes| && node !in nodes
      requires node.prev == At(nodes, k - 1) && node.next == At(nodes, k)
      modifies this`len, this`nodes, nodes`prev, nodes`next
      ensures len == |nodes| && Linked(nodes) && nodes == Inserted(old(nodes), k, node)
    {
      if node.prev != null {
        node.prev.next := node;
      }
      if node.next != null {
        node.next.prev := node;
      }
      len := len + 1;
      nodes := Inserted(nodes, k, node);
    }

    /** Insert beside a node of the list. */
    method InsertNode(oldNode: ListNode<T>, value: T, after: bool, ghost i: nat)
      requires Valid() && i < |nodes| && nodes[i] == oldNode
      modifies this`head, this`tail, this`len, this`nodes, nodes`prev, nodes`next
      ensures Valid()
      ensures |nodes| == |old(nodes)| + 1
      ensures var k := if after then i + 1 else i;
              fresh(nodes[k]) && nodes[k].value == value && nodes == Inserted(old(nodes), k, nodes[k])
    {
      hide Linked;
      Neighbours(nodes, i);
      Ends(nodes, i);
      var node := new ListNode(value);
      if after {
        node.prev := oldNode;
        node.next := oldNode.next;
        if tail == oldNode {
          tail := node;
        }
      } else {
        node.next := oldNode;
        node.prev := oldNode.prev;
        if head == oldNode {
          head := node;
        }
      }
      LinkIn(node, if after then i + 1 else i);
    }

    /** Remove a node of the list. */
    method DelNode(node: ListNode<T>, ghost i: nat)
      requires Valid() && i < |nodes| && nodes[i] == node
      modifies this`head, this`tail, this`len, this`nodes, nodes`prev, nodes`next
      ensures Valid()
      ensures nodes == Without(old(nodes), i)
    {
      Neighbours(nodes, i);
      if node.prev != null {
        node.prev.next := node.next;
      } else {
        head := node.next;
      }
      if node.next != null {
        node.next.prev := node.prev;
      } else {
        tail := node.prev;
      }
      len := len - 1;
      nodes := Without(nodes, i);
      ghost var was := old(nodes);
      forall a, b | 0 <= a < b == a + 1 < |nodes|
        ensures nodes[a].next == nodes[b] && nodes[b].prev == nodes[a]
      {
        var c, d := if a < i then a else a + 1, if b < i then b else b + 1;
        assert nodes[a] == was[c] && nodes[b] == was[d];
      }
    }

    /** First half of `listRotate`: cut the tail off, leaving its own links alone. */
    method DetachTail() returns (last: ListNode<T>)
      requires Valid() && len > 1
      modifies this`tail, this`nodes, nodes`next
      ensures |nodes| == len - 1 && nodes == old(nodes)[..len - 1] && last == old(nodes)[len - 1]
      ensures Linked(nodes) && head == At(nodes, 0) && tail == At(nodes, len - 2)
    {
      last := tail;
      Neighbours(nodes, len - 1);
      tail := last.prev;
      tail.next := null;
      nodes := nodes[..len - 1];
    }

    /** Second half: put the node in front. */
    method AttachHead(last: ListNode<T>)
      requires |nodes| == len - 1 > 0 && last !in nodes
      requires Linked(nodes) && head == At(nodes, 0) && tail == At(nodes, len - 2)
      modifies this`head, this`nodes, nodes`prev, last`prev, last`next
      ensures Valid() && nodes == [last] + old(nodes)
    {
      head.prev := last;
      last.prev := null;
      last.next := head;
      head := last;
      nodes := [last] + nodes;
    }

    /** The tail node becomes the head. */
    method Rotate()
      requires Valid()
      modifies this`head, this`tail, this`nodes, nodes`prev, nodes`next
      ensures Valid()
      ensures nodes == Rotated(old(nodes))
    {
      hide Linked;
      if len <= 1 {
        return;
      }
      LastApart(nodes);
      var last := DetachTail();
      AttachHead(last);
    }

    /** The node at an index: from the head if it is not negative, else from the
        tail; null when out of range. */
    method Index(index: int) returns (n: ListNode?<T>)
      requires Valid()
      ensures n == At(nodes, if index < 0 then |nodes| + index else index)
    {
      if index < 0 {
        var k := -index - 1;
        n := tail;
        while k != 0 && n != null
          invariant k >= 0 && n == At(nodes, |nodes| + index + k)
        {
          Neighbours(nodes, |nodes| + index + k);
          k := k - 1;
          n := n.prev;
        }
      } else {
        var k := index;
        n := head;
        while k != 0 && n != null
          invariant 0 <= k <= index && n == At(nodes, index - k)
        {
          Neighbours(nodes, index - k);
          k := k - 1;
          n := n.next;
        }
      }
    }

    ghost predicate Hit(key: T, v: T)
      reads this`matches
    {
      match matches
      case Some(f) => f(v, key)
      case None => key == v
    }

    /** The first node that matches, null exactly when none does. */
    method SearchKey(key: T) returns (n: ListNode?<T>)
      requires Valid()
      ensures n == null ==> forall i :: 0 <= i < |nodes| ==> !Hit(key, nodes[i].value)
      ensures n != null ==> exists i :: 0 <= i < |nodes| && nodes[i] == n && Hit(key, n.value)
                                        && forall k :: 0 <= k < i ==> !Hit(key, nodes[k].value)
    {
      var iter := new ListIter.Head(this);
      n := iter.Next(this, 0);
      ghost var at := 0;
      while n != null
        invariant 0 <= at <= |nodes| && n == At(nodes, at)
        invariant iter.next == At(nodes, at + 1) && iter.direction.FromHead?
        invariant fresh(iter)
        invariant forall k :: 0 <= k < at ==> !Hit(key, nodes[k].value)
        decreases |nodes| - at
      {
        if matches.Some? {
          if matches.value(n.value, key) {
            return;
          }
        } else if key == n.value {
          return;
        }
        at := at + 1;
        n := iter.Next(this, at);
      }
    }

    /** What `dup` makes of one value: itself when no method is set. */
    ghost function Copied(v: T): (c: Option<T>)
      reads this`dup
    {
      match dup
      case Some(f) => f(v)
      case None => Some(v)
    }

    method CopyValue(v: T) returns (c: Option<T>)
      ensures c == Copied(v)
    {
      if dup.Some? {
        c := dup.value(v);
      } else {
        c := Some(v);
      }
    }

    /** `copy` holds the copies of the first values, in other nodes. */
    ghost predicate CopyOf(copy: List<T>)
      reads this, nodes, copy, copy.nodes
    {
      && copy != this && copy.Valid() && (forall k :: 0 <= k < |copy.nodes| ==> copy.nodes[k] !in nodes)
      && copy.dup == dup && copy.matches == matches
      && |copy.nodes| <= |nodes|
      && forall i :: 0 <= i < |copy.nodes| ==> Copied(nodes[i].value) == Some(copy.nodes[i].value)
    }

    /** One round of `listDup`. */
    method CopyNext(copy: List<T>, n: ListNode<T>) returns (ok: bool)
      requires Valid() && CopyOf(copy) && |copy.nodes| < |nodes| && n == nodes[|copy.nodes|]
      modifies copy`head, copy`tail, copy`len, copy`nodes, copy.nodes`next
      ensures Valid() && CopyOf(copy)
      ensures ok <==> Copied(n.value) != None
      ensures !ok ==> copy.nodes == old(copy.nodes)
      ensures ok ==> |copy.nodes| == |old(copy.nodes)| + 1 && copy.nodes[..|old(copy.nodes)|] == old(copy.nodes)
                     && fresh(copy.nodes[|old(copy.nodes)|])
    {
      hide Linked;
      var value := copy.CopyValue(n.value);
      ok := value != None;
      if ok {
        copy.AddNodeTail(value.value);
      }
    }

    lemma CopyComplete(copy: List<T>)
      requires CopyOf(copy)
      ensures |copy.nodes| == |nodes| ==> forall i :: 0 <= i < |nodes| ==> Copied(nodes[i].value) != None
    {
    }

    /** The empty copy. */
    method StartCopy() returns (copy: List<T>)
      ensures fresh(copy) && CopyOf(copy) && copy.nodes == []
    {
      copy := new List<T>();
      copy.dup, copy.matches := dup, matches;
    }

    /** A list of its own nodes with the copied values; null when one copy fails.
        The original does not change. */
    method Dup() returns (copy: List?<T>)
      requires Valid()
      ensures copy == null <==> exists i :: 0 <= i < |nodes| && Copied(nodes[i].value) == None
      ensures copy != null ==> CopyOf(copy) && |copy.nodes| == |nodes|
      ensures copy != null ==> fresh(copy) && forall k :: 0 <= k < |copy.nodes| ==> fresh(copy.nodes[k])
    {
      hide Linked, CopyOf, Copied;
      var c := StartCopy();
      var iter := new ListIter.Head(this);
      var n := iter.Next(this, 0);
      while n != null
        invariant Valid() && CopyOf(c) && |c.nodes| <= |nodes| && n == At(nodes, |c.nodes|)
        invariant iter.next == At(nodes, |c.nodes| + 1) && iter.direction.FromHead?
        invariant fresh(iter) && fresh(c) && forall k :: 0 <= k < |c.nodes| ==> fresh(c.nodes[k])
        decreases |nodes| - |c.nodes|
      {
        var ok := CopyNext(c, n);
        if !ok {
          return null;
        }
        n := iter.Next(this, |c.nodes|);
      }
      CopyComplete(c);
      copy := c;
    }

    /** The nodes that `listRelease` frees: each node once, by counting `len` down. */
    method Release() returns (freed: seq<ListNode<T>>)
      requires Valid()
      ensures freed == nodes
    {
      var current, left := head, len;
      freed := [];
      while left != 0
        invariant 0 <= left <= len == |nodes| && current == At(nodes, len - left)
        invariant freed == nodes[..len - left]
      {
        Neighbours(nodes, len - left);
        left := left - 1;
        freed := freed + [current];
        current := current.next;
      }
    }
  }

  datatype Direction = FromHead | FromTail

  class ListIter<T(==)> {
    var next: ListNode?<T>
    var direction: Direction

    constructor Head(list: List<T>)
      ensures next == list.head && direction == FromHead
    {
      next, direction := list.head, FromHead;
    }

    constructor Tail(list: List<T>)
      ensures next == list.tail && direction == FromTail
    {
      next, direction := list.tail, FromTail;
    }

    /** Return the node under the iterator and step to its neighbour. */
    method Next(ghost list: List<T>, ghost at: int) returns (current: ListNode?<T>)
      requires list.Valid() && next == At(list.nodes, at)
      modifies this`next
      ensures current == At(list.nodes, at)
      ensures current != null ==> next == At(list.nodes, if direction.FromHead? then at + 1 else at - 1)
      ensures current == null ==> next == null
    {
      current := next;
      if current != null {
        Neighbours(list.nodes, at);
        if direction == FromHead {
          next := current.next;
        } else {
          next := current.prev;
        }
      }
    }

    /** Remove the node that `listNext` has just returned: the iterator then stands on
        the node that would have come next, in either direction. */
    method NextThenDelete(list: List<T>, ghost at: nat)
      requires list.Valid() && at < |list.nodes| && next == At(list.nodes, at)
      modifies this`next, list`head, list`tail, list`len, list`nodes, list.nodes`prev, list.nodes`next
      ensures list.Valid() && list.nodes == Without(old(list.nodes), at)
      ensures next == At(list.nodes, if direction.FromHead? then at else at - 1)
    {
      hide Linked;
      var current := Next(list, at);
      list.DelNode(current, at);
    }
  }

  /** Only the first node is the head, and only the last one is the tail. */
  lemma Ends<T>(nodes: seq<ListNode<T>>, i: nat)
    requires Linked(nodes) && i < |nodes|
    ensures nodes[i] == nodes[0] <==> i == 0
    ensures nodes[i] == nodes[|nodes| - 1] <==> i == |nodes| - 1
  {
  }

  lemma LastApart<T>(nodes: seq<ListNode<T>>)
    requires Linked(nodes) && |nodes| > 0
    ensures nodes[|nodes| - 1] !in nodes[..|nodes| - 1]
  {
  }

  function RotatedTimes<T>(s: seq<T>, k: nat): (r: seq<T>)
  {
    if k == 0 then s else Rotated(RotatedTimes(s, k - 1))
  }

  lemma {:induction false} RotatedSplit<T>(s: seq<T>, k: nat)
    requires k <= |s|
    ensures RotatedTimes(s, k) == s[|s| - k..] + s[..|s| - k]
  {
    if k > 0 {
      RotatedSplit(s, k - 1);
      var m := |s| - k;
      var t := s[m + 1..] + s[..m + 1];
      assert RotatedTimes(s, k) == Rotated(t);
      assert |t| == |s| && t[|t| - 1] == s[m];
      assert t[..|t| - 1] == s[m + 1..] + s[..m];
    }
  }

  /** As many rotations as there are nodes bring back the first order. */
  lemma RotationCycles<T>(s: seq<T>)
    ensures RotatedTimes(s, |s|) == s
  {
    RotatedSplit(s, |s|);
  }
}
