/** The shared buffer on values: a queue of cells with one "seen" flag per reader.
    The heap-level buffer of module SBuffer is proved to compute exactly these functions. */
module BufferSpec {
  import opened Config

  datatype Cell = Cell(data: Reading, seenD: bool, seenS: bool) {
    predicate SeenBy(w: Reader) {
      if w.DATAMGR? then seenD else seenS
    }

    predicate SeenByBoth() {
      seenD && seenS
    }

    function MarkedBy(w: Reader): Cell {
      if w.DATAMGR? then this.(seenD := true) else this.(seenS := true)
    }
  }

  /** What one read answers: the code, the reading copied out, the cells that stay linked, and
      whether the first of them has been released although it is still linked. */
  datatype Reply = Reply(code: Code, data: Option<Reading>, cells: seq<Cell>, headFreed: bool)

  function Data(cells: seq<Cell>): (r: seq<Reading>)
    ensures |r| == |cells|
  {
    seq(|cells|, i requires 0 <= i < |cells| => cells[i].data)
  }

  function Insert(cells: seq<Cell>, r: Reading): seq<Cell> {
    cells + [Cell(r, false, false)]
  }

  /** Index of the first cell that w has not seen, |cells| if there is none. */
  function FirstUnseen(cells: seq<Cell>, w: Reader): (k: nat)
    ensures k <= |cells|
    ensures forall i :: 0 <= i < k ==> cells[i].SeenBy(w)
    ensures k < |cells| ==> !cells[k].SeenBy(w)
  {
    if cells == [] || !cells[0].SeenBy(w) then 0 else 1 + FirstUnseen(cells[1..], w)
  }

  /** The readings w has still to receive. */
  function Pending(cells: seq<Cell>, w: Reader): seq<Reading> {
    Data(cells)[FirstUnseen(cells, w)..]
  }

  /** The head is unlinked when both readers have seen it. */
  predicate CleansHead(cells: seq<Cell>) {
    cells != [] && cells[0].SeenByBoth()
  }

  function AfterCleanup(cells: seq<Cell>): seq<Cell> {
    if CleansHead(cells) then cells[1..] else cells
  }

  /** The one situation in which a read releases a node that stays linked: the termination flag is
      passed, the head is unlinked, and it was not the only node. */
  predicate ReleasesLinkedHead(cells: seq<Cell>, term: bool) {
    term && CleansHead(cells) && |cells| > 1
  }

  /** The one situation in which a read unlinks a node that is never released: the head is unlinked, it was the
      only node, and the termination flag is not passed. */
  predicate StrandsHead(cells: seq<Cell>, term: bool) {
    !term && CleansHead(cells) && |cells| == 1
  }

  function Read(cells: seq<Cell>, w: Reader, term: bool): Reply {
    if cells == [] then Reply(EMPTY_BUFF, None, cells, false)
    else
      var rest := AfterCleanup(cells);
      var k := FirstUnseen(rest, w);
      if term && CleansHead(cells) then Reply(NO_NEW_DATA, None, rest, ReleasesLinkedHead(cells, term))
      else if k == |rest| then Reply(NO_NEW_DATA, None, rest, false)
      else Reply(SUCCESS, Some(rest[k].data), rest[k := rest[k].MarkedBy(w)], false)
  }

  function GetInfo(cells: seq<Cell>, w: Reader): Code {
    if cells == [] then EMPTY_BUFF
    else if FirstUnseen(cells, w) < |cells| then SUCCESS
    else NO_NEW_DATA
  }

  predicate SeenAt(cells: seq<Cell>, w: Reader, i: int) {
    0 <= i < |cells| && cells[i].SeenBy(w)
  }

  /** The flags of w mark a prefix of the queue. */
  ghost predicate MarksPrefix(cells: seq<Cell>, w: Reader) {
    forall i :: 0 <= i < |cells| ==> (SeenAt(cells, w, i) <==> i < FirstUnseen(cells, w))
  }

  /** The hidden invariant of the two-reader scan: each reader's flags mark a prefix, and only the
      head can be marked by both. */
  ghost predicate Protocol(cells: seq<Cell>) {
    && MarksPrefix(cells, DATAMGR)
    && MarksPrefix(cells, SQLMGR)
    && (forall i :: 0 <= i < |cells| && cells[i].SeenByBoth() ==> i == 0)
  }

  /** FirstUnseen is the only index with these bounds. */
  lemma {:induction false} FirstUnseenIs(cells: seq<Cell>, w: Reader, k: nat)
    requires k <= |cells|
    requires forall i :: 0 <= i < k ==> cells[i].SeenBy(w)
    requires k < |cells| ==> !cells[k].SeenBy(w)
    ensures FirstUnseen(cells, w) == k
  {
    if k > 0 {
      FirstUnseenIs(cells[1..], w, k - 1);
    }
  }

  /** A queue whose flags of w mark exactly the first k cells. */
  lemma MarksFirst(cells: seq<Cell>, w: Reader, k: nat)
    requires k <= |cells|
    requires forall i :: 0 <= i < |cells| ==> (cells[i].SeenBy(w) <==> i < k)
    ensures FirstUnseen(cells, w) == k && MarksPrefix(cells, w)
  {
    FirstUnseenIs(cells, w, k);
  }

  /** An insertion appends to the pending readings of w. */
  lemma InsertAppendsFor(cells: seq<Cell>, r: Reading, w: Reader)
    requires MarksPrefix(cells, w)
    ensures MarksPrefix(Insert(cells, r), w)
    ensures Pending(Insert(cells, r), w) == Pending(cells, w) + [r]
  {
    var after := Insert(cells, r);
    forall i | 0 <= i < |after|
      ensures after[i].SeenBy(w) <==> i < FirstUnseen(cells, w)
    {
      assert i < |cells| ==> (SeenAt(cells, w, i) <==> i < FirstUnseen(cells, w));
    }
    MarksFirst(after, w, FirstUnseen(cells, w));
  }

  /** An insertion keeps the protocol and reaches both readers. */
  lemma InsertAppends(cells: seq<Cell>, r: Reading)
    requires Protocol(cells)
    ensures Protocol(Insert(cells, r))
    ensures Pending(Insert(cells, r), DATAMGR) == Pending(cells, DATAMGR) + [r]
    ensures Pending(Insert(cells, r), SQLMGR) == Pending(cells, SQLMGR) + [r]
  {
    InsertAppendsFor(cells, r, DATAMGR);
    InsertAppendsFor(cells, r, SQLMGR);
  }

  lemma CleanupKeepsPendingFor(cells: seq<Cell>, w: Reader)
    requires MarksPrefix(cells, w)
    ensures MarksPrefix(AfterCleanup(cells), w)
    ensures Pending(AfterCleanup(cells), w) == Pending(cells, w)
  {
    if CleansHead(cells) {
      var rest := cells[1..];
      forall i | 0 <= i < |rest|
        ensures rest[i].SeenBy(w) <==> i < FirstUnseen(cells, w) - 1
      {
        assert SeenAt(cells, w, i + 1) <==> i + 1 < FirstUnseen(cells, w);
      }
      MarksFirst(rest, w, FirstUnseen(cells, w) - 1);
    }
  }

  /** Unlinking a head seen by both loses nothing for either reader. */
  lemma CleanupKeepsPending(cells: seq<Cell>)
    requires Protocol(cells)
    ensures Protocol(AfterCleanup(cells))
    ensures !CleansHead(AfterCleanup(cells))
    ensures Pending(AfterCleanup(cells), DATAMGR) == Pending(cells, DATAMGR)
    ensures Pending(AfterCleanup(cells), SQLMGR) == Pending(cells, SQLMGR)
  {
    CleanupKeepsPendingFor(cells, DATAMGR);
    CleanupKeepsPendingFor(cells, SQLMGR);
    var rest := AfterCleanup(cells);
    if CleansHead(cells) {
      assert forall i :: 0 <= i < |rest| ==> rest[i] == cells[i + 1];
    }
  }

  /** Marking the first cell w has not seen moves the marks of w on by one, and leaves those of the other reader. */
  lemma MarkMovesOn(cells: seq<Cell>, w: Reader)
    requires MarksPrefix(cells, w) && MarksPrefix(cells, w.Other())
    requires FirstUnseen(cells, w) < |cells|
    ensures var k, o := FirstUnseen(cells, w), FirstUnseen(cells, w.Other());
            var after := cells[k := cells[k].MarkedBy(w)];
            && FirstUnseen(after, w) == k + 1 && MarksPrefix(after, w)
            && FirstUnseen(after, w.Other()) == o && MarksPrefix(after, w.Other())
  {
    var k, o := FirstUnseen(cells, w), FirstUnseen(cells, w.Other());
    var after := cells[k := cells[k].MarkedBy(w)];
    forall i | 0 <= i < |after|
      ensures after[i].SeenBy(w) <==> i < k + 1
      ensures after[i].SeenBy(w.Other()) <==> i < o
    {
      assert SeenAt(cells, w, i) <==> i < k;
      assert SeenAt(cells, w.Other(), i) <==> i < o;
    }
    MarksFirst(after, w, k + 1);
    MarksFirst(after, w.Other(), o);
  }

  lemma MarkKeepsProtocol(cells: seq<Cell>, w: Reader)
    requires Protocol(cells) && !CleansHead(cells)
    requires FirstUnseen(cells, w) < |cells|
    ensures var k := FirstUnseen(cells, w); Protocol(cells[k := cells[k].MarkedBy(w)])
  {
    var k, o := FirstUnseen(cells, w), FirstUnseen(cells, w.Other());
    var after := cells[k := cells[k].MarkedBy(w)];
    MarkMovesOn(cells, w);
    assert k == 0 || o == 0 by {
      assert SeenAt(cells, w, 0) <==> 0 < k;
      assert SeenAt(cells, w.Other(), 0) <==> 0 < o;
    }
    forall i | 0 <= i < |after| && after[i].SeenByBoth()
      ensures i == 0
    {
      assert SeenAt(after, w, i) && SeenAt(after, w.Other(), i);
    }
    assert MarksPrefix(after, DATAMGR) && MarksPrefix(after, SQLMGR);
  }

  /** Marking the first cell w has not seen takes it off the pending readings of w and leaves those of
      the other reader alone. */
  lemma MarkTakesFront(cells: seq<Cell>, w: Reader)
    requires Protocol(cells) && !CleansHead(cells)
    requires FirstUnseen(cells, w) < |cells|
    ensures var k := FirstUnseen(cells, w);
            var after := cells[k := cells[k].MarkedBy(w)];
            && Protocol(after)
            && Pending(cells, w) == [cells[k].data] + Pending(after, w)
            && Pending(after, w.Other()) == Pending(cells, w.Other())
  {
    var k := FirstUnseen(cells, w);
    var after := cells[k := cells[k].MarkedBy(w)];
    MarkKeepsProtocol(cells, w);
    MarkMovesOn(cells, w);
    assert Data(after) == Data(cells);
  }

  /** A read keeps the protocol and is a dequeue from the private queue of its reader. The other reader's
      queue never changes. Nothing is taken exactly when the queue is empty or the early return of
      the terminated clean-up is taken. */
  lemma ReadIsPrivateDequeue(cells: seq<Cell>, w: Reader, term: bool)
    requires Protocol(cells)
    ensures var r := Read(cells, w, term);
            && Protocol(r.cells)
            && Pending(r.cells, w.Other()) == Pending(cells, w.Other())
            && (r.code == SUCCESS <==> r.data.Some?)
            && (r.code == SUCCESS <==> Pending(cells, w) != [] && !(term && CleansHead(cells)))
            && (r.code == EMPTY_BUFF <==> cells == [])
            && (r.data.Some? ==> Pending(cells, w) == [r.data.value] + Pending(r.cells, w))
            && (r.data.None? ==> Pending(r.cells, w) == Pending(cells, w))
  {
    if cells != [] {
      var rest := AfterCleanup(cells);
      CleanupKeepsPending(cells);
      if !(term && CleansHead(cells)) && FirstUnseen(rest, w) < |rest| {
        MarkTakesFront(rest, w);
      }
    }
  }

  /** The readings stay in the order of insertion: a read removes at most one, from the front. */
  lemma ReadKeepsData(cells: seq<Cell>, w: Reader, term: bool)
    ensures Data(Read(cells, w, term).cells) == Data(AfterCleanup(cells))
    ensures Data(AfterCleanup(cells)) == if CleansHead(cells) then Data(cells)[1..] else Data(cells)
  {
  }

  /** The buffer holds at most one reading more than the slower reader still has to receive. */
  lemma LengthBound(cells: seq<Cell>)
    requires Protocol(cells)
    ensures |cells| <= |Pending(cells, DATAMGR)| + 1 || |cells| <= |Pending(cells, SQLMGR)| + 1
  {
    if |cells| > 1 {
      assert !cells[1].SeenByBoth();
      assert SeenAt(cells, DATAMGR, 1) <==> 1 < FirstUnseen(cells, DATAMGR);
      assert SeenAt(cells, SQLMGR, 1) <==> 1 < FirstUnseen(cells, SQLMGR);
    }
  }

  /** What the three answers of getinfo say. */
  lemma GetInfoAnswers(cells: seq<Cell>, w: Reader)
    ensures GetInfo(cells, w) == EMPTY_BUFF <==> cells == []
    ensures GetInfo(cells, w) == SUCCESS <==> Pending(cells, w) != []
  {
    assert |Pending(cells, w)| == |cells| - FirstUnseen(cells, w);
  }

  /** getinfo announces exactly the code of the read that follows, except when that read takes the early
      return of the terminated clean-up although its reader has readings left. */
  lemma GetInfoForetellsRead(cells: seq<Cell>, w: Reader, term: bool)
    ensures GetInfo(cells, w) == Read(cells, w, term).code
            <==> !(term && CleansHead(cells) && Pending(cells, w) != [])
  {
    if CleansHead(cells) {
      var rest := cells[1..];
      var k := FirstUnseen(cells, w);
      assert forall i :: 0 <= i < |rest| ==> rest[i] == cells[i + 1];
      FirstUnseenIs(rest, w, k - 1);
    }
  }

  /** A plain dequeue keeps the protocol, but a reader that had not seen the head never receives it. */
  lemma DequeueSkipsUnseen(cells: seq<Cell>, w: Reader)
    requires cells != [] && Protocol(cells)
    ensures Protocol(cells[1..])
    ensures Pending(cells[1..], w) == if cells[0].SeenBy(w) then Pending(cells, w) else Pending(cells, w)[1..]
  {
    var rest := cells[1..];
    forall v: Reader, i | 0 <= i < |rest|
      ensures rest[i].SeenBy(v) <==> i < FirstUnseen(cells, v) - 1
    {
      assert v.DATAMGR? || v.SQLMGR?;
      assert SeenAt(cells, v, i + 1) <==> i + 1 < FirstUnseen(cells, v);
    }
    MarksFirst(rest, DATAMGR, if cells[0].SeenBy(DATAMGR) then FirstUnseen(cells, DATAMGR) - 1 else 0);
    MarksFirst(rest, SQLMGR, if cells[0].SeenBy(SQLMGR) then FirstUnseen(cells, SQLMGR) - 1 else 0);
    assert forall i :: 0 <= i < |rest| ==> rest[i] == cells[i + 1];
    assert Data(rest) == Data(cells)[1..];
  }
}
