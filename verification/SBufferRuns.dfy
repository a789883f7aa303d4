/** The heap-level buffer driven through a whole schedule. */
module SBufferRuns {
  import opened Config
  import opened BufferSpec
  import opened BufferProtocol
  import SBuffer

  /** Along every safe schedule the linked queue on the heap goes through the states of module BufferProtocol
      and hands out exactly the readings recorded there. No linked node has been released, and the nodes that
      nothing can release any more are as many as the schedule has reads that strand the head. */
  method Execute(ops: seq<Op>) returns (b: SBuffer.SBuffer, gotD: seq<Reading>, gotS: seq<Reading>)
    requires Safe(INIT, ops)
    ensures b.Valid() && fresh(b) && fresh(b.nodes)
    ensures b.cells == Run(INIT, ops).cells
    ensures gotD == Run(INIT, ops).gotD && gotS == Run(INIT, ops).gotS
    ensures |b.Lost()| == Stranded(INIT, ops)
  {
    b := new SBuffer.SBuffer();
    gotD, gotS := [], [];
    ghost var s := INIT;
    var i := 0;
    while i < |ops|
      invariant 0 <= i <= |ops|
      invariant b.Valid() && fresh(b) && fresh(b.nodes)
      invariant s.live && s.cells == b.cells && s.gotD == gotD && s.gotS == gotS
      invariant Run(INIT, ops) == Run(s, ops[i..]) && Safe(s, ops[i..])
      invariant Stranded(INIT, ops) == |b.Lost()| + Stranded(s, ops[i..])
      decreases |ops| - i
    {
      ghost var before := b.nodes;
      gotD, gotS := Perform(b, ops[i], s, gotD, gotS);
      assert forall n :: n in b.nodes ==> n in before || fresh(n);
      forall k | 0 <= k < |b.nodes|
        ensures fresh(b.nodes[k])
      {
        assert b.nodes[k] in b.nodes;
      }
      s := Step(s, ops[i]);
      i := i + 1;
    }
  }

  /** One operation. */
  method Perform(b: SBuffer.SBuffer, op: Op, ghost s: Sys, gotD: seq<Reading>, gotS: seq<Reading>)
    returns (newD: seq<Reading>, newS: seq<Reading>)
    requires b.Valid() && s.live && s.cells == b.cells && s.gotD == gotD && s.gotS == gotS
    requires !(op.Get? && ReleasesLinkedHead(s.cells, op.term))
    modifies b, b.nodes
    ensures b.Valid() && forall n :: n in b.nodes ==> n in old(b.nodes) || fresh(n)
    ensures var t := Step(s, op); t.live && t.cells == b.cells && t.gotD == newD && t.gotS == newS
    ensures |b.Lost()| == |old(b.Lost())| + if Strands(s, op) then 1 else 0
  {
    newD, newS := gotD, gotS;
    match op
    case Put(r) =>
      PerformPut(b, r);
    case Get(w, term) =>
      newD, newS := PerformGet(b, w, term, s, gotD, gotS);
    case Info(w) =>
      var code := b.GetInfo(w);
  }

  method PerformPut(b: SBuffer.SBuffer, r: Reading)
    requires b.Valid()
    modifies b, b.nodes
    ensures b.Valid() && forall n :: n in b.nodes ==> n in old(b.nodes) || fresh(n)
    ensures b.cells == Insert(old(b.cells), r)
    ensures b.Lost() == old(b.Lost())
  {
    ghost var nodes, obtained := b.nodes, b.obtained;
    b.Insert(r);
    ghost var n := b.nodes[|nodes|];
    assert b.nodes == nodes + [n];
    SBuffer.InsertLosesNone(obtained, b.freed, nodes, n);
  }

  method PerformGet(b: SBuffer.SBuffer, w: Reader, term: bool, ghost s: Sys, gotD: seq<Reading>, gotS: seq<Reading>)
    returns (newD: seq<Reading>, newS: seq<Reading>)
    requires b.Valid() && s.live && s.cells == b.cells && s.gotD == gotD && s.gotS == gotS
    requires !ReleasesLinkedHead(s.cells, term)
    modifies b, b.nodes
    ensures b.Valid() && forall n :: n in b.nodes ==> n in old(b.nodes)
    ensures var t := Step(s, Get(w, term)); t.live && t.cells == b.cells && t.gotD == newD && t.gotS == newS
    ensures |b.Lost()| == |old(b.Lost())| + if StrandsHead(s.cells, term) then 1 else 0
  {
    GetDelivers(s, w, term);
    newD, newS := gotD, gotS;
    var data := PerformRead(b, w, term);
    if data.Some? {
      if w == DATAMGR {
        newD := gotD + [data.value];
      } else {
        newS := gotS + [data.value];
      }
    }
  }

  lemma GetDelivers(s: Sys, w: Reader, term: bool)
    requires s.live && !ReleasesLinkedHead(s.cells, term)
    ensures var t, data := Step(s, Get(w, term)), Read(s.cells, w, term).data;
            && t.live && t.cells == Read(s.cells, w, term).cells
            && t.gotD == (if data.Some? && w == DATAMGR then s.gotD + [data.value] else s.gotD)
            && t.gotS == (if data.Some? && w == SQLMGR then s.gotS + [data.value] else s.gotS)
  {
  }

  method PerformRead(b: SBuffer.SBuffer, w: Reader, term: bool) returns (data: Option<Reading>)
    requires b.Valid() && !ReleasesLinkedHead(b.cells, term)
    modifies b, b.nodes
    ensures b.Valid() && forall n :: n in b.nodes ==> n in old(b.nodes)
    ensures data == Read(old(b.cells), w, term).data && b.cells == Read(old(b.cells), w, term).cells
    ensures |b.Lost()| == |old(b.Lost())| + if StrandsHead(old(b.cells), term) then 1 else 0
  {
    SBuffer.ReadLoses(b.obtained, b.freed, b.nodes, CleansHead(b.cells), term);
    data := LiveRead(b, w, term);
  }

  /** A read that releases no linked node. */
  method LiveRead(b: SBuffer.SBuffer, w: Reader, term: bool) returns (data: Option<Reading>)
    requires b.Valid() && !ReleasesLinkedHead(b.cells, term)
    modifies b, b.nodes
    ensures b.Valid() && b.obtained == old(b.obtained)
    ensures data == Read(old(b.cells), w, term).data && b.cells == Read(old(b.cells), w, term).cells
    ensures CleansHead(old(b.cells)) ==>
      b.nodes == old(b.nodes)[1..] && b.freed == old(b.freed) + SBuffer.ReleasedByCleanup(old(b.nodes), term)
    ensures !CleansHead(old(b.cells)) ==> b.nodes == old(b.nodes) && b.freed == old(b.freed)
  {
    var code;
    code, data := b.Read(w, term);
  }

  /** From the first operation to the end of the buffer: everything obtained has been released if and only if no
      read of the schedule strands the head, and otherwise one node is missing for every such read. */
  method ExecuteAndDestroy(ops: seq<Op>) returns (b: SBuffer.SBuffer)
    requires Safe(INIT, ops)
    ensures b.freed <= b.obtained && |b.obtained - b.freed| == Stranded(INIT, ops)
    ensures b.freed == b.obtained <==> Stranded(INIT, ops) == 0
  {
    var gotD, gotS;
    b, gotD, gotS := Execute(ops);
    b.Destroy();
  }
}
