/** The shared buffer on the heap (sbuffer.c): a linked queue with a head and a tail pointer, scanned in
    place. malloc and free are followed by ghost sets, so "released while linked" and "never released"
    can be stated. The rwlock makes each method one atomic step of module BufferProtocol. */
module SBuffer {
  import opened Config
  import opened BufferSpec

  class Node {
    var seenD: bool
    var seenS: bool
    var next: Node?
    var data: Reading

    constructor (data: Reading)
      ensures this.data == data && next == null && !seenD && !seenS
    {
      this.data := data;
      next := null;
      seenD, seenS := false, false;
    }
  }

  lemma AnswerKeepsProtocol(cells: seq<Cell>, w: Reader, term: bool)
    requires Protocol(cells)
    ensures Protocol(BufferSpec.Read(cells, w, term).cells)
  {
    ReadIsPrivateDequeue(cells, w, term);
  }

  lemma AnswerCodes(cells: seq<Cell>, w: Reader, term: bool)
    requires Protocol(cells)
    ensures var code := BufferSpec.Read(cells, w, term).code;
            && (code == EMPTY_BUFF <==> cells == [])
            && (code == SUCCESS <==> Pending(cells, w) != [] && !(term && CleansHead(cells)))
  {
    ReadIsPrivateDequeue(cells, w, term);
  }

  /** What the clean-up gives back: the old head unless it was alone, and with the termination flag also the
      node the scan would have gone on with. */
  ghost function ReleasedByCleanup(ns: seq<Node>, term: bool): set<Node>
    requires ns != []
  {
    if |ns| == 1 then if term then {ns[0]} else {} else if term then {ns[0], ns[1]} else {ns[0]}
  }

  /** The nodes that are neither linked nor released: nothing can release them any more. */
  ghost function Unaccounted(obtained: set<Node>, freed: set<Node>, nodes: seq<Node>): set<Node> {
    obtained - freed - NodeSet(nodes)
  }

  ghost function NodeSet(nodes: seq<Node>): set<Node> {
    set n | n in nodes
  }

  class SBuffer {
    var head: Node?
    var tail: Node?

    ghost var nodes: seq<Node>      // the linked nodes, from head to tail
    ghost var cells: seq<Cell>      // what they hold
    ghost var obtained: set<Node>   // every node ever obtained from malloc
    ghost var freed: set<Node>      // those given back to free

    /** head, next and tail describe the queue 'nodes', which has no cycle; tail is null iff head is. */
    ghost predicate Shape()
      reads this, nodes
    {
      && (forall i, j :: 0 <= i < j < |nodes| ==> nodes[i] != nodes[j])
      && (nodes == [] ==> head == null && tail == null)
      && (nodes != [] ==> head == nodes[0] && tail == nodes[|nodes| - 1] && nodes[|nodes| - 1].next == null)
      && (forall i {:trigger nodes[i].next} :: 0 <= i < |nodes| - 1 ==> nodes[i].next == nodes[i + 1])
    }

    ghost predicate Holds()
      reads this, nodes
    {
      && |cells| == |nodes|
      && forall i :: 0 <= i < |nodes| ==>
          cells[i] == Cell(nodes[i].data, nodes[i].seenD, nodes[i].seenS)
    }

    /** Linked and released nodes come from malloc. */
    ghost predicate Ledger()
      reads this
    {
      freed <= obtained && forall n :: n in nodes ==> n in obtained
    }

    ghost function Lost(): set<Node>
      reads this
    {
      Unaccounted(obtained, freed, nodes)
    }

    /** No linked node has been released. */
    ghost predicate Live()
      reads this
    {
      forall n :: n in nodes ==> n !in freed
    }

    ghost predicate Valid()
      reads this, nodes
    {
      Shape() && Holds() && Protocol(cells) && Ledger() && Live()
    }

    constructor ()
      ensures Valid() && cells == [] && obtained == {}
    {
      head, tail := null, null;
      nodes, cells := [], [];
      obtained, freed := {}, {};
    }

    /** free(n): n must have come from malloc and must not have been released before. */
    ghost method Free(n: Node)
      requires n in obtained && n !in freed
      modifies this`freed
      ensures freed == old(freed) + {n}
    {
      freed := freed + {n};
    }

    method Insert(data: Reading)
      requires Valid()
      modifies this, nodes
      ensures Valid()
      ensures cells == BufferSpec.Insert(old(cells), data)
      ensures |nodes| == |old(nodes)| + 1 && nodes[..|old(nodes)|] == old(nodes) && fresh(nodes[|old(nodes)|])
      ensures freed == old(freed) && obtained == old(obtained) + {nodes[|old(nodes)|]}
    {
      InsertAppends(cells, data);
      var dummy := new Node(data);
      LinkLast(dummy);
    }

    /** The pointer updates of an insertion. */
    method LinkLast(dummy: Node)
      requires Valid() && dummy !in obtained
      requires dummy.next == null && !dummy.seenD && !dummy.seenS
      modifies this, nodes
      ensures Shape() && Holds() && Ledger() && Live()
      ensures nodes == old(nodes) + [dummy] && cells == BufferSpec.Insert(old(cells), dummy.data)
      ensures freed == old(freed) && obtained == old(obtained) + {dummy}
    {
      if tail == null {
        head, tail := dummy, dummy;
      } else {
        tail.next := dummy;
        tail := tail.next;
      }
      nodes := nodes + [dummy];
      cells := BufferSpec.Insert(cells, dummy.data);
      obtained := obtained + {dummy};
    }

    /** The clean-up inside the scan, at a node that both readers have seen. The source unlinks the head of the
        queue but releases the node the scan has reached: that they are the same is what the caller must
        know. When the flag is passed, the node the scan would go on with is released as well: that is the
        unlinked node if it was alone, and the new head if it was not. */
    method UnlinkHead(current: Node, term: bool) returns (onward: Node)
      requires Valid() && CleansHead(cells) && current == head
      modifies this`head, this`tail, this`nodes, this`cells, this`freed
      ensures Shape() && Holds() && Ledger()
      ensures nodes == old(nodes)[1..] && cells == old(cells)[1..]
      ensures onward == old(nodes)[if |old(nodes)| == 1 then 0 else 1]
      ensures Live() <==> !(term && |old(nodes)| > 1)
      ensures freed == old(freed) + ReleasedByCleanup(old(nodes), term)
      ensures nodes == [] ==> onward.next == null
    {
      onward := current;
      if head == tail {
        head, tail := null, null;
      } else {
        head := head.next;
        Free(current);
        onward := head;
      }
      nodes, cells := nodes[1..], cells[1..];
      if term {
        Free(onward);
      }
    }

    /** The flag of w is set on a linked node. */
    method MarkSeen(current: Node, w: Reader, ghost k: nat)
      requires Shape() && Holds() && Ledger() && Live()
      requires k < |nodes| && current == nodes[k]
      modifies this`cells, current`seenD, current`seenS
      ensures Shape() && Holds() && Ledger() && Live()
      ensures cells == old(cells)[k := old(cells)[k].MarkedBy(w)]
    {
      if w == DATAMGR {
        current.seenD := true;
      } else {
        current.seenS := true;
      }
      cells := cells[k := cells[k].MarkedBy(w)];
    }

    /** Delivery inside the scan: the first node w has not seen is marked, and its reading is copied out.
        'before' are the cells at the start of the scan. */
    method Deliver(current: Node, w: Reader, ghost k: nat, ghost before: seq<Cell>, ghost term: bool)
      returns (data: Option<Reading>)
      requires Shape() && Holds() && Ledger() && Live()
      requires Protocol(before) && !(term && CleansHead(before)) && cells == AfterCleanup(before)
      requires k < |nodes| && current == nodes[k]
      requires !cells[k].SeenBy(w) && forall i :: 0 <= i < k ==> cells[i].SeenBy(w)
      modifies this`cells, current`seenD, current`seenS
      ensures Shape() && Holds() && Protocol(cells) && Ledger() && Live()
      ensures BufferSpec.Read(before, w, term) == Reply(SUCCESS, data, cells, false)
    {
      FirstUnseenIs(cells, w, k);
      MarkSeen(current, w, k);
      data := Some(current.data);
      AnswerKeepsProtocol(before, w, term);
    }

    /** What a read that started with these cells, nodes and released nodes leaves behind. The answer and the cells
        are those of the value-level read. */
    ghost predicate Answered(w: Reader, term: bool, cells0: seq<Cell>, nodes0: seq<Node>, freed0: set<Node>,
                             code: Code, data: Option<Reading>)
      requires |cells0| == |nodes0|
      reads this, nodes
    {
      && Shape() && Holds() && Protocol(cells) && Ledger()
      && BufferSpec.Read(cells0, w, term) == Reply(code, data, cells, ReleasesLinkedHead(cells0, term))
      && (Live() <==> !ReleasesLinkedHead(cells0, term))
      && (CleansHead(cells0) ==> nodes == nodes0[1..] && freed == freed0 + ReleasedByCleanup(nodes0, term))
      && (!CleansHead(cells0) ==> nodes == nodes0 && freed == freed0)
    }

    /** The scan before it looks at node k: nothing has changed before node 0; after it the head has been cleaned up
        if it had to be, and w has seen all nodes passed. */
    ghost predicate Scanning(w: Reader, term: bool, cells0: seq<Cell>, nodes0: seq<Node>, freed0: set<Node>,
                             current: Node?, k: nat)
      requires |cells0| == |nodes0|
      reads this, nodes
    {
      && Shape() && Holds() && Ledger() && Live() && Protocol(cells0) && cells0 != []
      && k <= |nodes| && current == (if k < |nodes| then nodes[k] else null)
      && (forall i :: 0 <= i < k ==> cells[i].SeenBy(w))
      && (k == 0 && current != null ==> cells == cells0 && nodes == nodes0 && freed == freed0)
      && (k > 0 || current == null ==>
            && cells == AfterCleanup(cells0) && !(term && CleansHead(cells0))
            && (CleansHead(cells0) ==> nodes == nodes0[1..] && freed == freed0 + ReleasedByCleanup(nodes0, term))
            && (!CleansHead(cells0) ==> nodes == nodes0 && freed == freed0))
    }

    /** The two deliveries inside the scan: node k is delivered if it is linked and w has not seen it. The only node
        that is not linked here is a lone head that has just been unlinked. */
    method Offer(node: Node, w: Reader, ghost k: nat, ghost before: seq<Cell>, ghost term: bool)
      returns (taken: bool, data: Option<Reading>)
      requires Shape() && Holds() && Ledger() && Live()
      requires Protocol(before) && !(term && CleansHead(before)) && cells == AfterCleanup(before)
      requires k <= |nodes| && forall i :: 0 <= i < k ==> cells[i].SeenBy(w)
      requires if k < |nodes| then node == nodes[k] else node.seenD && node.seenS
      modifies this`cells, node`seenD, node`seenS
      ensures Shape() && Holds() && Ledger() && Live()
      ensures taken ==> Protocol(cells) && BufferSpec.Read(before, w, term) == Reply(SUCCESS, data, cells, false)
      ensures !taken ==> cells == old(cells) && (k < |nodes| ==> cells[k].SeenBy(w))
    {
      if !node.seenD && w == DATAMGR {
        data := Deliver(node, w, k, before, term);
        return true, data;
      }
      if !node.seenS && w == SQLMGR {
        data := Deliver(node, w, k, before, term);
        return true, data;
      }
      return false, None;
    }

    /** The first part of the body: a node seen by both, which can only be the head, is unlinked. With the flag the
        read ends there. */
    method CleanUp(w: Reader, term: bool, current: Node, ghost k: nat,
                   ghost cells0: seq<Cell>, ghost nodes0: seq<Node>, ghost freed0: set<Node>)
      returns (ended: bool, node: Node)
      requires |cells0| == |nodes0| && Scanning(w, term, cells0, nodes0, freed0, current, k)
      modifies this`head, this`tail, this`nodes, this`cells, this`freed
      ensures ended ==> Answered(w, term, cells0, nodes0, freed0, NO_NEW_DATA, None)
      ensures !ended ==>
        && Shape() && Holds() && Ledger() && Live()
        && !(term && CleansHead(cells0)) && cells == AfterCleanup(cells0)
        && (CleansHead(cells0) ==> nodes == nodes0[1..] && freed == freed0 + ReleasedByCleanup(nodes0, term))
        && (!CleansHead(cells0) ==> nodes == nodes0 && freed == freed0)
        && k <= |nodes| && |nodes| <= |old(nodes)| && (forall i :: 0 <= i < k ==> cells[i].SeenBy(w))
        && if k < |nodes| then node == nodes[k]
           else nodes == [] && node == current && node.seenD && node.seenS && node.next == null
    {
      node := current;
      if node.seenS && node.seenD {
        assert node == head by { CleanupKeepsPending(cells0); }
        node := UnlinkHead(node, term);
        if term {
          AnswerKeepsProtocol(cells0, w, term);
          return true, node;
        }
      }
      ended := false;
    }

    /** The body of the scan. */
    method Look(w: Reader, term: bool, current: Node, ghost k: nat,
                ghost cells0: seq<Cell>, ghost nodes0: seq<Node>, ghost freed0: set<Node>)
      returns (done: bool, code: Code, data: Option<Reading>, next: Node?, ghost k': nat)
      requires |cells0| == |nodes0| && Scanning(w, term, cells0, nodes0, freed0, current, k)
      modifies this`head, this`tail, this`nodes, this`cells, this`freed, nodes
      ensures done ==> Answered(w, term, cells0, nodes0, freed0, code, data)
      ensures !done ==> Scanning(w, term, cells0, nodes0, freed0, next, k') && (k' > 0 || next == null)
      ensures !done ==> |nodes| - k' < |old(nodes)| - k
    {
      var node;
      next, k' := null, k;
      done, node := CleanUp(w, term, current, k, cells0, nodes0, freed0);
      if done {
        return true, NO_NEW_DATA, None, next, k';
      }
      done, data := Offer(node, w, k, cells0, term);
      if done {
        return true, SUCCESS, data, next, k';
      }
      return false, NO_NEW_DATA, None, node.next, if nodes == [] then 0 else k + 1;
    }

    /** The scan of one reader. Whatever the flag, the queue keeps its shape and answers as the value-level
        read does. A linked node has been released exactly in the situation ReleasesLinkedHead, and the node
        that is unlinked stays unreleased exactly when it was alone and the flag is not passed. */
    method Read(w: Reader, term: bool) returns (code: Code, data: Option<Reading>)
      requires Valid()
      modifies this`head, this`tail, this`nodes, this`cells, this`freed, nodes
      ensures Answered(w, term, old(cells), old(nodes), old(freed), code, data)
      ensures code == EMPTY_BUFF <==> old(nodes) == []
      ensures code == SUCCESS <==> Pending(old(cells), w) != [] && !(term && CleansHead(old(cells)))
    {
      AnswerCodes(cells, w, term);
      if head == null {
        return EMPTY_BUFF, None;
      }
      var current, done := head, false;
      ghost var k := 0;
      while current != null
        invariant Scanning(w, term, old(cells), old(nodes), old(freed), current, k)
        decreases |nodes| - k
      {
        done, code, data, current, k := Look(w, term, current, k, old(cells), old(nodes), old(freed));
        if done {
          return;
        }
      }
      NothingLeft(w, term, old(cells), old(nodes), old(freed), k);
      return NO_NEW_DATA, None;
    }

    /** A scan that has passed every node answers that there is no new data. */
    lemma NothingLeft(w: Reader, term: bool, cells0: seq<Cell>, nodes0: seq<Node>, freed0: set<Node>, k: nat)
      requires |cells0| == |nodes0| && Scanning(w, term, cells0, nodes0, freed0, null, k)
      ensures Answered(w, term, cells0, nodes0, freed0, NO_NEW_DATA, None)
    {
      FirstUnseenIs(cells, w, |cells|);
      AnswerKeepsProtocol(cells0, w, term);
    }

    /** The same scan without side effects. */
    method GetInfo(w: Reader) returns (code: Code)
      requires Valid()
      ensures code == BufferSpec.GetInfo(cells, w)
      ensures code == EMPTY_BUFF <==> nodes == []
      ensures code == SUCCESS <==> Pending(cells, w) != []
    {
      GetInfoAnswers(cells, w);
      if head == null {
        return EMPTY_BUFF;
      }
      var current := head;
      ghost var k := 0;
      while current != null
        invariant k <= |nodes|
        invariant current == if k < |nodes| then nodes[k] else null
        invariant forall i :: 0 <= i < k ==> cells[i].SeenBy(w)
        decreases |nodes| - k
      {
        if !current.seenD && w == DATAMGR {
          FirstUnseenIs(cells, w, k);
          return SUCCESS;
        }
        if !current.seenS && w == SQLMGR {
          FirstUnseenIs(cells, w, k);
          return SUCCESS;
        }
        current := current.next;
        k := k + 1;
      }
      FirstUnseenIs(cells, w, |cells|);
      return NO_NEW_DATA;
    }

    /** A plain dequeue, outside the two-reader protocol. */
    method Remove() returns (code: Code, data: Option<Reading>)
      requires Valid()
      modifies this`head, this`tail, this`nodes, this`cells, this`freed
      ensures Valid()
      ensures old(cells) == [] ==> code == EMPTY_BUFF && data == None && nodes == [] && freed == old(freed)
      ensures old(cells) != [] ==>
        && code == SUCCESS && data == Some(old(cells)[0].data)
        && cells == old(cells)[1..] && nodes == old(nodes)[1..] && freed == old(freed) + {old(nodes)[0]}
    {
      if head == null {
        return EMPTY_BUFF, None;
      }
      DequeueSkipsUnseen(cells, DATAMGR);
      code, data := SUCCESS, Some(head.data);
      var dummy := head;
      if head == tail {
        head, tail := null, null;
      } else {
        head := head.next;
      }
      nodes, cells := nodes[1..], cells[1..];
      Free(dummy);
    }

    /** The end of the buffer releases every linked node once. Everything ever obtained has then been
        released exactly if nothing had been lost before. */
    method Destroy()
      requires Valid()
      modifies this`head, this`nodes, this`freed
      ensures head == null && nodes == []
      ensures freed == old(freed) + NodeSet(old(nodes))
      ensures obtained - freed == old(Lost())
      ensures freed == obtained <==> old(Lost()) == {}
    {
      ghost var k := 0;
      while head != null
        invariant nodes == old(nodes) && k <= |nodes|
        invariant head == if k < |nodes| then nodes[k] else null
        invariant freed == old(freed) + NodeSet(nodes[..k])
        decreases |nodes| - k
      {
        var dummy := head;
        head := head.next;
        Free(dummy);
        k := k + 1;
      }
      assert nodes[..k] == nodes;
      assert obtained - freed == old(Lost());
      assert freed <= obtained by { assert NodeSet(nodes) <= obtained; }
      assert forall n :: n in obtained - freed <==> n in obtained && n !in freed;
      assert obtained - freed == {} <==> obtained <= freed;
      nodes := [];
    }
  }

  /** The clean-up loses a node exactly when it unlinks a lone head without the termination flag. */
  lemma OnlyLoneHeadIsLost(obtained: set<Node>, freed: set<Node>, ns: seq<Node>, term: bool)
    requires ns != [] && forall i, j :: 0 <= i < j < |ns| ==> ns[i] != ns[j]
    requires forall n :: n in ns ==> n in obtained && n !in freed
    ensures Unaccounted(obtained, freed + ReleasedByCleanup(ns, term), ns[1..])
            == Unaccounted(obtained, freed, ns) + if |ns| == 1 && !term then {ns[0]} else {}
  {
    assert forall n :: n in ns <==> n == ns[0] || n in ns[1..];
  }

  /** How many more nodes are lost after a read that has cleaned up or not. */
  lemma ReadLoses(obtained: set<Node>, freed: set<Node>, ns: seq<Node>, cleans: bool, term: bool)
    requires cleans ==> ns != []
    requires forall i, j :: 0 <= i < j < |ns| ==> ns[i] != ns[j]
    requires forall n :: n in ns ==> n in obtained && n !in freed
    ensures |Unaccounted(obtained, if cleans then freed + ReleasedByCleanup(ns, term) else freed,
                         if cleans then ns[1..] else ns)|
            == |Unaccounted(obtained, freed, ns)| + if cleans && |ns| == 1 && !term then 1 else 0
  {
    if cleans {
      OnlyLoneHeadIsLost(obtained, freed, ns, term);
      assert ns[0] !in Unaccounted(obtained, freed, ns);
    }
  }

  /** An insertion loses nothing. */
  lemma InsertLosesNone(obtained: set<Node>, freed: set<Node>, ns: seq<Node>, n: Node)
    requires n !in obtained
    ensures Unaccounted(obtained + {n}, freed, ns + [n]) == Unaccounted(obtained, freed, ns)
  {
  }
}
