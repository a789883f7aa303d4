/** The doubly linked list of lib/dplist.c on the heap. There the list is a pointer that may be NULL; here a list
    always exists. malloc and free are followed by ghost sets. */
module DPList {
  import opened Config
  import opened ListSpec

  class Node<T> {
    var prev: Node?<T>
    var next: Node?<T>
    const element: T

    constructor (element: T)
      ensures this.element == element && prev == null && next == null
    {
      this.element := element;
      prev, next := null, null;
    }
  }

  ghost function NodeSet<T>(nodes: seq<Node<T>>): set<Node<T>> {
    set n | n in nodes
  }

  ghost function ElementsOf<T>(nodes: seq<Node<T>>): (s: seq<T>)
    ensures |s| == |nodes|
  {
    seq(|nodes|, i requires 0 <= i < |nodes| => nodes[i].element)
  }

  lemma InsertedNode<T>(nodes: seq<Node<T>>, node: Node<T>, k: nat)
    requires k <= |nodes|
    ensures ElementsOf(InsertAt(nodes, node, k)) == InsertAt(ElementsOf(nodes), node.element, k)
    ensures NodeSet(InsertAt(nodes, node, k)) == NodeSet(nodes) + {node}
  {
    var after := InsertAt(nodes, node, k);
    assert after[k] == node;
    assert forall i :: 0 <= i < |nodes| ==> nodes[i] == after[if i < k then i else i + 1];
  }

  lemma NextPrefix<T>(nodes: seq<Node<T>>, k: nat)
    requires k < |nodes| && Distinct(nodes)
    ensures NodeSet(nodes[..k + 1]) == NodeSet(nodes[..k]) + {nodes[k]}
    ensures ElementsOf(nodes[..k + 1]) == ElementsOf(nodes[..k]) + [nodes[k].element]
    ensures nodes[k] !in NodeSet(nodes[..k])
  {
    assert nodes[..k + 1] == nodes[..k] + [nodes[k]];
  }

  lemma RemovedNode<T>(nodes: seq<Node<T>>, k: nat)
    requires k < |nodes| && Distinct(nodes)
    ensures ElementsOf(RemoveAt(nodes, k)) == RemoveAt(ElementsOf(nodes), k)
    ensures NodeSet(RemoveAt(nodes, k)) == NodeSet(nodes) - {nodes[k]}
  {
    var after := RemoveAt(nodes, k);
    assert forall i :: 0 <= i < |nodes| && i != k ==> nodes[i] == after[if i < k then i else i - 1];
  }

  /** The node that the next pointer of the i-th node should point to. */
  ghost function After<T>(nodes: seq<Node<T>>, i: nat): Node?<T>
    requires i < |nodes|
  {
    if i == |nodes| - 1 then null else nodes[i + 1]
  }

  ghost predicate Linked<T>(nodes: seq<Node<T>>)
    reads nodes`next
  {
    forall i {:trigger nodes[i].next} :: 0 <= i < |nodes| ==> nodes[i].next == After(nodes, i)
  }

  ghost predicate LinkedBack<T>(nodes: seq<Node<T>>, prevs: seq<Node?<T>>)
    reads nodes`prev
  {
    |prevs| == |nodes| && forall i {:trigger nodes[i].prev} :: 0 <= i < |nodes| ==> nodes[i].prev == prevs[i]
  }

  /** The node that the prev pointer of the i-th node should point to. */
  ghost function Before<T>(nodes: seq<Node<T>>, i: nat): Node?<T>
    requires i <= |nodes|
  {
    if i == 0 then null else nodes[i - 1]
  }

  /** The prev pointers after an insertion at place k, for nodes with these prev pointers. At the front of a list
      that is not empty the new node becomes its own predecessor and the old head keeps the predecessor it had. */
  ghost function PrevsInserted<T>(nodes: seq<Node<T>>, prevs: seq<Node?<T>>, node: Node<T>, k: nat)
    : (r: seq<Node?<T>>)
    requires |prevs| == |nodes| && k <= |nodes|
    ensures |r| == |nodes| + 1
  {
    if nodes == [] then [null]
    else if k == 0 then [node] + prevs
    else if k == |nodes| then prevs + [nodes[k - 1]]
    else prevs[..k] + [nodes[k - 1], node] + prevs[k + 1..]
  }

  /** The prev pointers after a removal at place k: the successor of the removed node gets the right one. */
  ghost function PrevsRemoved<T>(nodes: seq<Node<T>>, prevs: seq<Node?<T>>, k: nat): (r: seq<Node?<T>>)
    requires |prevs| == |nodes| && k < |nodes|
    ensures |r| == |nodes| - 1
  {
    if k == |nodes| - 1 then prevs[..k] else prevs[..k] + [Before(nodes, k)] + prevs[k + 2..]
  }

  /** All prev pointers invert the next pointers. */
  ghost predicate Inverse<T>(nodes: seq<Node<T>>, prevs: seq<Node?<T>>) {
    |prevs| == |nodes| && forall i :: 0 <= i < |nodes| ==> prevs[i] == Before(nodes, i)
  }

  /** An insertion keeps the two directions inverse to each other if and only if it is not at the front of a list
      that is not empty. */
  lemma InsertionKeepsInverse<T>(nodes: seq<Node<T>>, prevs: seq<Node?<T>>, node: Node<T>, k: nat)
    requires |prevs| == |nodes| && k <= |nodes| && (0 < k < |nodes| ==> prevs[k] == Before(nodes, k))
    ensures Inverse(InsertAt(nodes, node, k), PrevsInserted(nodes, prevs, node, k))
            <==> nodes == [] || (k > 0 && Inverse(nodes, prevs))
  {
    var nodes', prevs' := InsertAt(nodes, node, k), PrevsInserted(nodes, prevs, node, k);
    if nodes != [] && k > 0 {
      forall i | 0 <= i < |nodes| && i != k
        ensures prevs[i] == Before(nodes, i) <==>
                prevs'[if i < k then i else i + 1] == Before(nodes', if i < k then i else i + 1)
      {
      }
    } else if nodes != [] {
      assert prevs'[0] == node;
    }
  }

  /** A removal leaves the two directions inverse to each other if and only if they were, except perhaps at the
      removed node and at its successor. */
  lemma RemovalKeepsInverse<T>(nodes: seq<Node<T>>, prevs: seq<Node?<T>>, k: nat)
    requires |prevs| == |nodes| && k < |nodes|
    ensures Inverse(RemoveAt(nodes, k), PrevsRemoved(nodes, prevs, k))
            <==> forall i :: 0 <= i < |nodes| && i != k && i != k + 1 ==> prevs[i] == Before(nodes, i)
  {
    var nodes', prevs' := RemoveAt(nodes, k), PrevsRemoved(nodes, prevs, k);
    forall i | 0 <= i < |nodes| && i != k && i != k + 1
      ensures prevs[i] == Before(nodes, i) <==>
              prevs'[if i < k then i else i - 1] == Before(nodes', if i < k then i else i - 1)
    {
    }
    assert k < |nodes'| ==> prevs'[k] == Before(nodes', k);
  }

  /** The next pointers once a node has been linked in before the k-th. */
  lemma SplicedNext<T>(nodes: seq<Node<T>>, node: Node<T>, k: nat)
    requires 1 <= k < |nodes|
    requires forall i {:trigger nodes[i].next} :: 0 <= i < |nodes| && i != k - 1 ==> nodes[i].next == After(nodes, i)
    requires nodes[k - 1].next == node && node.next == nodes[k]
    ensures Linked(InsertAt(nodes, node, k))
  {
    var after := InsertAt(nodes, node, k);
    forall i | 0 <= i < |after|
      ensures after[i].next == After(after, i)
    {
      assert after[i] == if i < k then nodes[i] else if i == k then node else nodes[i - 1];
    }
  }

  /** And the prev pointers. */
  lemma SplicedPrev<T>(nodes: seq<Node<T>>, prevs: seq<Node?<T>>, node: Node<T>, k: nat)
    requires 1 <= k < |nodes| && |prevs| == |nodes|
    requires forall i {:trigger nodes[i].prev} :: 0 <= i < |nodes| && i != k ==> nodes[i].prev == prevs[i]
    requires nodes[k].prev == node && node.prev == nodes[k - 1]
    ensures LinkedBack(InsertAt(nodes, node, k), PrevsInserted(nodes, prevs, node, k))
  {
    var after := InsertAt(nodes, node, k);
    forall i | 0 <= i < |after|
      ensures after[i].prev == PrevsInserted(nodes, prevs, node, k)[i]
    {
      assert after[i] == if i < k then nodes[i] else if i == k then node else nodes[i - 1];
    }
  }

  /** The next pointers once the k-th node has been passed over. */
  lemma UnsplicedNext<T>(nodes: seq<Node<T>>, k: nat)
    requires 1 <= k < |nodes| - 1
    requires forall i {:trigger nodes[i].next} :: 0 <= i < |nodes| && i != k - 1 ==> nodes[i].next == After(nodes, i)
    requires nodes[k - 1].next == nodes[k + 1]
    ensures Linked(RemoveAt(nodes, k))
  {
    var after := RemoveAt(nodes, k);
    forall i | 0 <= i < |after|
      ensures after[i].next == After(after, i)
    {
      assert after[i] == if i < k then nodes[i] else nodes[i + 1];
    }
  }

  lemma UnsplicedPrev<T>(nodes: seq<Node<T>>, prevs: seq<Node?<T>>, k: nat)
    requires 1 <= k < |nodes| - 1 && |prevs| == |nodes|
    requires forall i {:trigger nodes[i].prev} :: 0 <= i < |nodes| && i != k + 1 ==> nodes[i].prev == prevs[i]
    requires nodes[k + 1].prev == nodes[k - 1]
    ensures LinkedBack(RemoveAt(nodes, k), PrevsRemoved(nodes, prevs, k))
  {
    var after := RemoveAt(nodes, k);
    forall i | 0 <= i < |after|
      ensures after[i].prev == PrevsRemoved(nodes, prevs, k)[i]
    {
      assert after[i] == if i < k then nodes[i] else nodes[i + 1];
    }
  }

  class List<T> {
    var head: Node?<T>
    const compare: (T, T) -> int

    ghost var nodes: seq<Node<T>>      // the linked nodes, from the head on
    ghost var prevs: seq<Node?<T>>     // their prev pointers
    ghost var obtained: set<Node<T>>   // every node ever obtained from malloc
    ghost var freed: set<Node<T>>      // those given back to free
    ghost var disposed: seq<T>         // the elements handed to element_free, in order

    /** The next pointers chain 'nodes', without a cycle. */
    ghost predicate Forward()
      reads this`head, this`nodes, nodes`next
    {
      Distinct(nodes) && head == (if nodes == [] then null else nodes[0]) && Linked(nodes)
    }

    ghost predicate Tracks()
      reads this`nodes, this`prevs, nodes`prev
    {
      LinkedBack(nodes, prevs)
    }

    /** Each node obtained is either linked or released. */
    ghost predicate Ledger()
      reads this`nodes, this`obtained, this`freed
    {
      obtained == NodeSet(nodes) + freed && NodeSet(nodes) !! freed
    }

    /** A list, whatever its prev pointers are. */
    ghost predicate Chain()
      reads this`head, this`nodes, this`prevs, this`obtained, this`freed, nodes
    {
      Forward() && Tracks() && Ledger()
    }

    /** The prev pointer of the node at place k is right. */
    ghost predicate Intact(k: nat)
      requires |prevs| == |nodes| && k < |nodes|
      reads this`nodes, this`prevs
    {
      prevs[k] == Before(nodes, k)
    }

    /** A list whose prev pointers invert its next pointers. */
    ghost predicate Valid()
      reads this`head, this`nodes, this`prevs, this`obtained, this`freed, nodes
    {
      Chain() && Inverse(nodes, prevs)
    }

    ghost function Elements(): (s: seq<T>)
      reads this`nodes
      ensures |s| == |nodes|
    {
      ElementsOf(nodes)
    }

    constructor (compare: (T, T) -> int)
      ensures Valid() && nodes == [] && obtained == {} && disposed == []
      ensures this.compare == compare
    {
      head := null;
      this.compare := compare;
      nodes, prevs, obtained, freed, disposed := [], [], {}, {}, [];
    }

    /** free(n): only for a node that was obtained and not released before. */
    ghost method Free(n: Node<T>)
      requires n in obtained && n !in freed
      modifies this`freed
      ensures freed == old(freed) + {n}
    {
      freed := freed + {n};
    }

    method Size() returns (n: nat)
      requires Chain()
      ensures n == |nodes|
    {
      n := 0;
      if head != null {
        n := 1;
        var next: Node<T> := head;
        while next.next != null
          invariant 1 <= n <= |nodes| && next == nodes[n - 1]
          decreases |nodes| - n
        {
          n := n + 1;
          next := next.next;
        }
      }
    }

    method GetReferenceAtIndex(index: int) returns (r: Node?<T>)
      requires Chain()
      ensures r == if nodes == [] then null else nodes[Clamp(index, |nodes|)]
    {
      if head == null {
        return null;
      }
      var searched: Node<T> := head;
      if index <= 0 {
        return searched;
      }
      var counter := 0;
      while searched.next != null
        invariant 0 <= counter < |nodes| && searched == nodes[counter] && counter < index
        decreases |nodes| - counter
      {
        searched := searched.next;
        counter := counter + 1;
        if counter >= index {
          return searched;
        }
      }
      return searched;
    }

    method GetElementAtIndex(index: int) returns (e: Option<T>)
      requires Chain()
      ensures e == if nodes == [] then None else Some(Elements()[Clamp(index, |nodes|)])
    {
      if head == null {
        return None;
      }
      var searched: Node<T> := head;
      if index <= 0 {
        return Some(searched.element);
      }
      var counter := 0;
      while searched.next != null
        invariant 0 <= counter < |nodes| && searched == nodes[counter] && counter < index
        decreases |nodes| - counter
      {
        searched := searched.next;
        counter := counter + 1;
        if counter >= index {
          return Some(searched.element);
        }
      }
      return Some(searched.element);
    }

    /** The branches of the insertion for an empty list and for the front of a list. */
    method LinkFirst(node: Node<T>)
      requires Forward() && Tracks() && node !in nodes
      modifies this`head, this`nodes, this`prevs, node
      ensures Forward() && Tracks()
      ensures nodes == [node] + old(nodes) && prevs == PrevsInserted(old(nodes), old(prevs), node, 0)
    {
      prevs := PrevsInserted(nodes, prevs, node, 0);
      if head == null {
        node.prev, node.next := null, null;
        head := node;
      } else {
        node.prev := null;
        node.next := head;
        head := node;
        head.prev := node;
      }
      nodes := [node] + nodes;
    }

    /** The branch of the insertion before the node with index k. */
    method LinkMiddle(node: Node<T>, searched: Node<T>, ghost k: nat)
      requires Forward() && Tracks() && node !in nodes
      requires 1 <= k < |nodes| && searched == nodes[k] && Intact(k)
      modifies this`nodes, this`prevs, node, nodes
      ensures Forward() && Tracks()
      ensures nodes == InsertAt(old(nodes), node, k) && prevs == PrevsInserted(old(nodes), old(prevs), node, k)
    {
      node.prev := searched.prev;
      node.next := searched;
      searched.prev.next := node;
      searched.prev := node;
      assert Linked(InsertAt(nodes, node, k)) by { SplicedNext(nodes, node, k); }
      assert LinkedBack(InsertAt(nodes, node, k), PrevsInserted(nodes, prevs, node, k)) by {
        SplicedPrev(nodes, prevs, node, k);
      }
      prevs := PrevsInserted(nodes, prevs, node, k);
      nodes := InsertAt(nodes, node, k);
    }

    /** The branch of the insertion after the last node. */
    method LinkLast(node: Node<T>, last: Node<T>)
      requires Forward() && Tracks() && node !in nodes
      requires nodes != [] && last == nodes[|nodes| - 1]
      modifies this`nodes, this`prevs, node, last
      ensures Forward() && Tracks()
      ensures nodes == old(nodes) + [node] && prevs == PrevsInserted(old(nodes), old(prevs), node, |old(nodes)|)
    {
      prevs := PrevsInserted(nodes, prevs, node, |nodes|);
      node.next := null;
      node.prev := last;
      last.next := node;
      nodes := nodes + [node];
    }

    /** The branches of the insertion together. */
    method Link(node: Node<T>, index: int)
      requires Chain() && node !in nodes && (1 <= index < |nodes| ==> Intact(index))
      modifies this`head, this`nodes, this`prevs, node, nodes
      ensures Forward() && Tracks()
      ensures var k := InsertionPoint(index, |old(nodes)|);
              nodes == InsertAt(old(nodes), node, k) && prevs == PrevsInserted(old(nodes), old(prevs), node, k)
    {
      if head == null || index <= 0 {
        LinkFirst(node);
        assert nodes == InsertAt(old(nodes), node, 0);
      } else {
        var searched := GetReferenceAtIndex(index);
        var size := Size();
        if index <= size - 1 {
          LinkMiddle(node, searched, index);
        } else {
          LinkLast(node, searched);
          assert nodes == InsertAt(old(nodes), node, |old(nodes)|);
        }
      }
    }

    /** Insertion by index. It follows one prev pointer, that of the node it inserts before, unless that is the first;
        this one must be right. The next pointers are right afterwards in every case. */
    method InsertAtIndex(element: T, index: int)
      requires Chain()
      requires 1 <= index < |nodes| ==> Intact(index)
      modifies this`head, this`nodes, this`prevs, this`obtained, nodes
      ensures Chain()
      ensures Elements() == InsertAt(old(Elements()), element, InsertionPoint(index, |old(nodes)|))
      ensures |nodes| == |old(nodes)| + 1
      ensures var k := InsertionPoint(index, |old(nodes)|);
              && fresh(nodes[k]) && nodes == InsertAt(old(nodes), nodes[k], k)
              && prevs == PrevsInserted(old(nodes), old(prevs), nodes[k], k)
      ensures Valid() <==> old(nodes) == [] || (index >= 1 && old(Valid()))
    {
      var node := new Node(element);
      InsertedNode(nodes, node, InsertionPoint(index, |nodes|));
      InsertionKeepsInverse(nodes, prevs, node, InsertionPoint(index, |nodes|));
      Link(node, index);
      obtained := obtained + {node};
    }

    /** The insertion at index dpl_size. */
    method InsertLast(element: T)
      requires Chain()
      modifies this`head, this`nodes, this`prevs, this`obtained, nodes
      ensures Chain() && (old(Valid()) ==> Valid())
      ensures Elements() == old(Elements()) + [element]
      ensures |nodes| == |old(nodes)| + 1 && nodes[..|old(nodes)|] == old(nodes) && fresh(nodes[|old(nodes)|])
    {
      ghost var es := Elements();
      var size := Size();
      InsertAtIndex(element, size);
      assert InsertAt(es, element, |es|) == es + [element];
    }

    /** The branches of the removal for a single node and for the front of a list. */
    method UnlinkFirst(size: nat) returns (node: Node<T>)
      requires Forward() && Tracks() && nodes != [] && size == |nodes|
      modifies this`head, this`nodes, this`prevs, nodes
      ensures Forward() && Tracks() && node == old(nodes)[0]
      ensures nodes == RemoveAt(old(nodes), 0) && prevs == PrevsRemoved(old(nodes), old(prevs), 0)
    {
      node := head;
      if size == 1 {
        head := null;
      } else {
        head := node.next;
        head.prev := null;
      }
      prevs := PrevsRemoved(nodes, prevs, 0);
      nodes := RemoveAt(nodes, 0);
    }

    /** The branch of the removal for the last of several nodes. */
    method UnlinkLast(size: nat) returns (node: Node<T>)
      requires Chain() && size == |nodes| > 1 && Intact(size - 1)
      modifies this`nodes, this`prevs, nodes
      ensures Forward() && Tracks() && node == old(nodes)[size - 1]
      ensures nodes == RemoveAt(old(nodes), size - 1) && prevs == PrevsRemoved(old(nodes), old(prevs), size - 1)
    {
      var last := GetReferenceAtIndex(size - 1);
      node := last;
      node.prev.next := null;
      prevs := PrevsRemoved(nodes, prevs, size - 1);
      nodes := RemoveAt(nodes, size - 1);
    }

    /** The branch of the removal for a node with two neighbours. */
    method UnlinkMiddle(index: nat) returns (node: Node<T>)
      requires Chain() && 1 <= index < |nodes| - 1 && Intact(index)
      modifies this`nodes, this`prevs, nodes
      ensures Forward() && Tracks() && node == old(nodes)[index]
      ensures nodes == RemoveAt(old(nodes), index) && prevs == PrevsRemoved(old(nodes), old(prevs), index)
    {
      var middle := GetReferenceAtIndex(index);
      node := middle;
      var previous, next := node.prev, node.next;
      assert previous == nodes[index - 1] && next == nodes[index + 1];
      previous.next := next;
      next.prev := previous;
      assert Linked(RemoveAt(nodes, index)) by { UnsplicedNext(nodes, index); }
      assert LinkedBack(RemoveAt(nodes, index), PrevsRemoved(nodes, prevs, index)) by {
        UnsplicedPrev(nodes, prevs, index);
      }
      prevs := PrevsRemoved(nodes, prevs, index);
      nodes := RemoveAt(nodes, index);
    }

    /** The three branches of the removal together. */
    method Unlink(index: int, size: nat) returns (node: Node<T>)
      requires Chain() && size == |nodes| > 0
      requires Clamp(index, size) > 0 ==> Intact(Clamp(index, size))
      modifies this`head, this`nodes, this`prevs, nodes
      ensures Forward() && Tracks() && node == old(nodes)[Clamp(index, size)]
      ensures nodes == RemoveAt(old(nodes), Clamp(index, size))
      ensures prevs == PrevsRemoved(old(nodes), old(prevs), Clamp(index, size))
    {
      if size == 1 || index <= 0 {
        node := UnlinkFirst(size);
      } else if index >= size - 1 {
        node := UnlinkLast(size);
      } else {
        node := UnlinkMiddle(index);
      }
    }

    /** The node just unlinked is the only one that is neither linked nor released. */
    ghost predicate Detached(node: Node<T>)
      reads this`head, this`nodes, this`prevs, this`obtained, this`freed, nodes
    {
      && Forward() && Tracks()
      && obtained == NodeSet(nodes) + {node} + freed
      && NodeSet(nodes) !! freed && node !in nodes && node !in freed
    }

    /** All of the removal but the release of the node. */
    method Detach(index: int) returns (node: Node<T>)
      requires Chain() && nodes != []
      requires Clamp(index, |nodes|) > 0 ==> Intact(Clamp(index, |nodes|))
      modifies this`head, this`nodes, this`prevs, nodes
      ensures Detached(node) && node == old(nodes)[Clamp(index, |old(nodes)|)]
      ensures nodes == RemoveAt(old(nodes), Clamp(index, |old(nodes)|))
      ensures prevs == PrevsRemoved(old(nodes), old(prevs), Clamp(index, |old(nodes)|))
      ensures Elements() == RemoveAt(old(Elements()), Clamp(index, |old(nodes)|))
      ensures old(Inverse(nodes, prevs)) ==> Inverse(nodes, prevs)
    {
      ghost var k := Clamp(index, |nodes|);
      assert Inverse(nodes, prevs) ==> Inverse(RemoveAt(nodes, k), PrevsRemoved(nodes, prevs, k)) by {
        RemovalKeepsInverse(nodes, prevs, k);
      }
      RemovedNode(nodes, k);
      var size := Size();
      node := Unlink(index, size);
    }

    /** The end of every branch of the removal: the element is disposed of if asked, and the node released. */
    method Release(node: Node<T>, freeElement: bool)
      requires Detached(node)
      modifies this`freed, this`disposed
      ensures Chain()
      ensures freed == old(freed) + {node}
      ensures disposed == old(disposed) + if freeElement then [node.element] else []
    {
      if freeElement {
        disposed := disposed + [node.element];
      }
      Free(node);
    }

    /** Removal by index: the node at the clamped position is unlinked and released. The removal follows the prev
        pointer of that node, unless it is the first. */
    method RemoveAtIndex(index: int, freeElement: bool)
      requires Chain()
      requires nodes != [] && Clamp(index, |nodes|) > 0 ==> Intact(Clamp(index, |nodes|))
      modifies this`head, this`nodes, this`prevs, this`freed, this`disposed, nodes
      ensures Chain() && (old(Valid()) ==> Valid())
      ensures old(nodes) == [] ==> nodes == [] && freed == old(freed) && disposed == old(disposed)
      ensures old(nodes) != [] ==>
        var k := Clamp(index, |old(nodes)|);
        && nodes == RemoveAt(old(nodes), k) && prevs == PrevsRemoved(old(nodes), old(prevs), k)
        && Elements() == RemoveAt(old(Elements()), k)
        && freed == old(freed) + {old(nodes)[k]}
        && disposed == old(disposed) + if freeElement then [old(Elements())[k]] else []
    {
      if head == null {
        return;
      }
      var node := Detach(index);
      Release(node, freeElement);
    }

    /** Index of the first element that compares equal, -1 if there is none. */
    method GetIndexOfElement(element: T) returns (index: int)
      requires Chain()
      ensures var k := FirstWhere(Elements(), e => compare(element, e) == 0);
              index == if k < |nodes| then k else -1
    {
      var matches := e => compare(element, e) == 0;
      var searched := head;
      index := 0;
      while searched != null
        invariant 0 <= index <= |nodes|
        invariant searched == if index < |nodes| then nodes[index] else null
        invariant forall i :: 0 <= i < index ==> !matches(Elements()[i])
        decreases |nodes| - index
      {
        if compare(element, searched.element) == 0 {
          FirstWhereIs(Elements(), matches, index);
          return;
        }
        searched := searched.next;
        index := index + 1;
      }
      FirstWhereIs(Elements(), matches, |nodes|);
      return -1;
    }

    /** Index of a reference in the list, -1 if it is null or no node of the list. */
    method GetIndexOfReference(reference: Node?<T>) returns (index: int)
      requires Chain()
      ensures if reference != null && reference in nodes then 0 <= index < |nodes| && nodes[index] == reference
              else index == -1
    {
      if head == null || reference == null {
        return -1;
      }
      var searched: Node<T> := head;
      index := 0;
      if searched == reference {
        return;
      }
      while searched.next != null
        invariant 0 <= index < |nodes| && searched == nodes[index]
        invariant forall i :: 0 <= i <= index ==> nodes[i] != reference
        decreases |nodes| - index
      {
        searched := searched.next;
        index := index + 1;
        if reference == searched {
          return;
        }
      }
      return -1;
    }

    method GetElementAtReference(reference: Node?<T>) returns (e: Option<T>)
      requires Chain()
      ensures e == if reference != null && reference in nodes then Some(reference.element) else None
    {
      if head == null || reference == null {
        return None;
      }
      var searched: Node<T> := head;
      ghost var k := 0;
      if searched == reference {
        return Some(reference.element);
      }
      while searched.next != null
        invariant 0 <= k < |nodes| && searched == nodes[k]
        invariant forall i :: 0 <= i <= k ==> nodes[i] != reference
        decreases |nodes| - k
      {
        searched := searched.next;
        k := k + 1;
        if searched == reference {
          return Some(reference.element);
        }
      }
      return None;
    }

    method GetNextReference(reference: Node?<T>) returns (r: Node?<T>)
      requires Chain()
      ensures forall i :: 0 <= i < |nodes| - 1 && nodes[i] == reference ==> r == nodes[i + 1]
      ensures (forall i :: 0 <= i < |nodes| - 1 ==> nodes[i] != reference) ==> r == null
    {
      if head == null || reference == null {
        return null;
      }
      var searched: Node<T> := head;
      ghost var k := 0;
      if searched == reference {
        if searched.next != null {
          return reference.next;
        }
      }
      while searched.next != null
        invariant 0 <= k < |nodes| && searched == nodes[k]
        invariant forall i :: 0 <= i <= k && i < |nodes| - 1 ==> nodes[i] != reference
        decreases |nodes| - k
      {
        searched := searched.next;
        k := k + 1;
        if searched == reference {
          if searched.next != null {
            return reference.next;
          }
        }
      }
      return null;
    }

    /** The prev pointer of a linked node other than the first. */
    method GetPreviousReference(reference: Node?<T>) returns (r: Node?<T>)
      requires Chain()
      ensures forall i :: 1 <= i < |nodes| && nodes[i] == reference ==> r == prevs[i]
      ensures (forall i :: 1 <= i < |nodes| ==> nodes[i] != reference) ==> r == null
    {
      if head == null || reference == null {
        return null;
      }
      var searched: Node<T> := head;
      ghost var k := 0;
      if searched == reference {
        return null;
      }
      while searched.next != null
        invariant 0 <= k < |nodes| && searched == nodes[k]
        invariant forall i :: 0 <= i <= k ==> nodes[i] != reference
        decreases |nodes| - k
      {
        searched := searched.next;
        k := k + 1;
        if searched == reference {
          return reference.prev;
        }
      }
      return null;
    }

    /** Sorted insertion. It runs off the end of the list, and nothing is inserted, if and only if the list is not
        empty and the element exceeds every stored one. Otherwise the element lands where the scan stops; the
        prev pointers suffer when that is the front of a non-empty list. */
    method InsertSorted(element: T) returns (ok: bool)
      requires Chain()
      requires var k := SortedPoint(Elements(), element, compare); 0 < k < |nodes| ==> Intact(k)
      modifies this`head, this`nodes, this`prevs, this`obtained, nodes
      ensures Chain()
      ensures ok <==> old(nodes) == [] || SortedPoint(old(Elements()), element, compare) < |old(nodes)|
      ensures !ok ==> nodes == old(nodes) && prevs == old(prevs)
      ensures ok ==>
        var k := SortedPoint(old(Elements()), element, compare);
        && Elements() == InsertAt(old(Elements()), element, k)
        && |nodes| == |old(nodes)| + 1 && fresh(nodes[k]) && nodes == InsertAt(old(nodes), nodes[k], k)
        && prevs == PrevsInserted(old(nodes), old(prevs), nodes[k], k)
    {
      ghost var stops := e => compare(element, e) <= 0;
      if head == null {
        InsertAtIndex(element, 0);
        return true;
      }
      var counter := 0;
      var current := head;
      while current != null && compare(element, current.element) > 0
        invariant 0 <= counter <= |nodes|
        invariant current == if counter < |nodes| then nodes[counter] else null
        invariant forall i :: 0 <= i < counter ==> !stops(Elements()[i])
        decreases |nodes| - counter
      {
        current := current.next;
        counter := counter + 1;
      }
      FirstWhereIs(Elements(), stops, counter);
      if current == null {
        return false;
      }
      InsertAtIndex(element, counter);
      return true;
    }

    /** Removal of the first element that compares equal. It dereferences the null head, and 'ok' is false,
        exactly on the empty list. */
    method RemoveElement(element: T, freeElement: bool) returns (ok: bool)
      requires Chain()
      requires var k := FirstWhere(Elements(), e => compare(element, e) == 0); 0 < k < |nodes| ==> Intact(k)
      modifies this`head, this`nodes, this`prevs, this`freed, this`disposed, nodes
      ensures ok <==> old(nodes) != []
      ensures Chain() && (old(Valid()) ==> Valid())
      ensures var k := FirstWhere(old(Elements()), e => compare(element, e) == 0);
        if k < |old(nodes)| then
          && Elements() == RemoveAt(old(Elements()), k)
          && nodes == RemoveAt(old(nodes), k) && prevs == PrevsRemoved(old(nodes), old(prevs), k)
          && freed == old(freed) + {old(nodes)[k]}
          && disposed == old(disposed) + (if freeElement then [old(Elements())[k]] else [])
        else nodes == old(nodes) && prevs == old(prevs) && freed == old(freed) && disposed == old(disposed)
    {
      if head == null {
        return false;
      }
      ghost var matches := e => compare(element, e) == 0;
      var current: Node<T> := head;
      var counter := 0;
      if compare(element, current.element) == 0 {
        FirstWhereIs(Elements(), matches, counter);
        RemoveAtIndex(counter, freeElement);
        return true;
      }
      while current.next != null
        invariant 0 <= counter < |nodes| && current == nodes[counter]
        invariant forall i :: 0 <= i <= counter ==> !matches(Elements()[i])
        decreases |nodes| - counter
      {
        current := current.next;
        counter := counter + 1;
        if compare(element, current.element) == 0 {
          FirstWhereIs(Elements(), matches, counter);
          RemoveAtIndex(counter, freeElement);
          return true;
        }
      }
      FirstWhereIs(Elements(), matches, |nodes|);
      return true;
    }

    /** The end of the list: every node still linked is released once, and if asked every element is handed to
        element_free once, in order. Nothing obtained is left unreleased. */
    method Destroy(freeElement: bool)
      requires Chain()
      modifies this`head, this`nodes, this`prevs, this`freed, this`disposed
      ensures head == null && nodes == []
      ensures freed == obtained
      ensures disposed == old(disposed) + if freeElement then old(Elements()) else []
    {
      if head != null {
        var next: Node<T> := head;
        ghost var k := 0;
        while next.next != null
          invariant nodes == old(nodes) && 0 <= k < |nodes| && next == nodes[k]
          invariant freed == old(freed) + NodeSet(nodes[..k])
          invariant disposed == old(disposed) + if freeElement then ElementsOf(nodes[..k]) else []
          decreases |nodes| - k
        {
          NextPrefix(nodes, k);
          var current := next;
          next := current.next;
          if freeElement {
            disposed := disposed + [current.element];
          }
          Free(current);
          k := k + 1;
        }
        NextPrefix(nodes, k);
        if freeElement {
          disposed := disposed + [next.element];
        }
        Free(next);
        head := null;
        assert nodes[..k + 1] == nodes;
      }
      nodes, prevs := [], [];
    }
  }

  /** Sorted insertion into a sorted list, for a comparison that orders its elements and the new one: it succeeds if
      and only if the list is empty or the new element does not exceed the last, and then the list is sorted again
      and has gained exactly this element. */
  method InsertSortedKeepsOrder<T>(list: List<T>, element: T) returns (ok: bool)
    requires list.Valid() && Sorted(list.Elements(), list.compare)
    requires TotalPreorder(list.Elements() + [element], list.compare)
    modifies list, list.nodes
    ensures list.Chain() && Sorted(list.Elements(), list.compare)
    ensures ok <==> old(list.nodes) == [] || list.compare(element, old(list.Elements())[|old(list.nodes)| - 1]) <= 0
    ensures multiset(list.Elements()) == multiset(old(list.Elements())) + if ok then multiset{element} else multiset{}
  {
    ghost var es := list.Elements();
    SortedInsertion(es, element, list.compare);
    if es != [] {
      SortedPointInside(es, element, list.compare);
    }
    ok := list.InsertSorted(element);
  }

  /** References and indices undo each other. */
  method ReferencesInvertIndices<T>(list: List<T>, i: int)
    returns (index: int, direct: Option<T>, indirect: Option<T>)
    requires list.Chain() && list.nodes != []
    ensures index == Clamp(i, |list.nodes|)
    ensures direct == indirect == Some(list.Elements()[index])
  {
    var reference := list.GetReferenceAtIndex(i);
    index := list.GetIndexOfReference(reference);
    direct := list.GetElementAtIndex(i);
    indirect := list.GetElementAtReference(reference);
    assert list.nodes[index] == reference;
  }

  /** On neighbouring nodes next and previous undo each other, in both orders. */
  method PreviousUndoesNext<T>(list: List<T>, reference: Node<T>, ghost i: nat) returns (back: Node?<T>)
    requires list.Valid() && i + 1 < |list.nodes| && reference == list.nodes[i]
    ensures back == reference
  {
    var next := list.GetNextReference(reference);
    assert next == list.nodes[i + 1];
    back := list.GetPreviousReference(next);
  }

  method NextUndoesPrevious<T>(list: List<T>, reference: Node<T>, ghost i: nat) returns (forth: Node?<T>)
    requires list.Valid() && 0 < i < |list.nodes| && reference == list.nodes[i]
    ensures forth == reference
  {
    var previous := list.GetPreviousReference(reference);
    assert previous == list.nodes[i - 1];
    forth := list.GetNextReference(previous);
  }

  /** A removal undoes the insertion at the same index, whatever the index: also at the front, where the removal
      repairs the prev pointer that the insertion broke. */
  method RemoveUndoesInsert<T>(list: List<T>, element: T, index: int)
    requires list.Valid()
    modifies list, list.nodes
    ensures list.Valid() && list.nodes == old(list.nodes) && list.disposed == old(list.disposed)
    ensures list.obtained - list.freed == old(list.obtained - list.freed)
  {
    ghost var nodes, prevs := list.nodes, list.prevs;
    ghost var k := InsertionPoint(index, |nodes|);
    list.InsertAtIndex(element, index);
    RepairedAfterRemoval(nodes, prevs, list.nodes[k], k);
    list.RemoveAtIndex(index, false);
  }

  /** Right prev pointers are back after the removal of a node just inserted. */
  lemma RepairedAfterRemoval<T>(nodes: seq<Node<T>>, prevs: seq<Node?<T>>, node: Node<T>, k: nat)
    requires Inverse(nodes, prevs) && k <= |nodes|
    ensures var nodes', prevs' := InsertAt(nodes, node, k), PrevsInserted(nodes, prevs, node, k);
            && RemoveAt(nodes', k) == nodes && PrevsRemoved(nodes', prevs', k) == prevs
            && (k > 0 ==> prevs'[k] == Before(nodes', k))
  {
  }

  /** After two insertions at the front the first node is its own predecessor, and the second has none. */
  method FrontInsertionBreaksPrev<T>(a: T, b: T, compare: (T, T) -> int) returns (list: List<T>)
    ensures list.Chain() && list.Elements() == [b, a]
    ensures list.nodes[0].prev == list.nodes[0] && list.nodes[1].prev == null
    ensures !list.Valid()
  {
    list := new List<T>(compare);
    list.InsertAtIndex(a, 0);
    list.InsertAtIndex(b, 0);
  }

  /** The sorted insertion of 2 into a list that holds 1 runs off the end, and on the empty list the removal of an
      element dereferences null. */
  method SortedInsertionRunsOff() returns (list: List<int>, removed: bool, inserted: bool)
    ensures !removed && !inserted && list.Elements() == [1]
  {
    list := new List<int>((x: int, y: int) => x - y);
    removed := list.RemoveElement(1, false);
    inserted := list.InsertSorted(1);
    assert list.Elements() == [1];
    inserted := list.InsertSorted(2);
  }
}
