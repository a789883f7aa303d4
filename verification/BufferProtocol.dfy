/** Runs of the shared buffer: every operation holds the read-write lock for its whole body, so an
    execution of the three threads is a sequence of atomic operations. */
module BufferProtocol {
  import opened Config
  import opened BufferSpec

  datatype Op = Put(r: Reading) | Get(w: Reader, term: bool) | Info(w: Reader)

  /** The buffer with its history: all readings inserted, and those each reader has received.
      'live' is false once a linked node has been released; nothing is claimed after that. */
  datatype Sys = Sys(cells: seq<Cell>, live: bool, history: seq<Reading>, gotD: seq<Reading>, gotS: seq<Reading>) {
    function Got(w: Reader): seq<Reading> {
      if w.DATAMGR? then gotD else gotS
    }

    function Receive(w: Reader, d: Option<Reading>): Sys {
      match d
      case None => this
      case Some(r) => if w.DATAMGR? then this.(gotD := gotD + [r]) else this.(gotS := gotS + [r])
    }
  }

  const INIT: Sys := Sys([], true, [], [], [])

  function Step(s: Sys, op: Op): Sys {
    if !s.live then s
    else match op
      case Put(r) => s.(cells := Insert(s.cells, r), history := s.history + [r])
      case Get(w, term) =>
        var a := Read(s.cells, w, term);
        s.(cells := a.cells, live := !a.headFreed).Receive(w, a.data)
      case Info(w) => s
  }

  /** The operations are performed in turn. */
  function Run(s: Sys, ops: seq<Op>): Sys
    decreases |ops|
  {
    if ops == [] then s else Run(Step(s, ops[0]), ops[1..])
  }

  /** What w has received followed by what it has still to receive is everything inserted. */
  ghost predicate Accounted(s: Sys, w: Reader) {
    s.Got(w) + Pending(s.cells, w) == s.history
  }

  /** The cells carry exactly the latest part of the history. */
  ghost predicate HoldsLatest(s: Sys) {
    |s.cells| <= |s.history| && IsSuffix(Data(s.cells), s.history)
  }

  ghost predicate IsSuffix(a: seq<Reading>, b: seq<Reading>) {
    |a| <= |b| && forall i :: 0 <= i < |a| ==> a[i] == b[|b| - |a| + i]
  }

  /** What holds between any two operations. */
  ghost predicate Consistent(s: Sys) {
    Protocol(s.cells) && Accounted(s, DATAMGR) && Accounted(s, SQLMGR) && HoldsLatest(s)
  }

  lemma StepProtocol(s: Sys, op: Op)
    requires Protocol(s.cells)
    ensures Protocol(Step(s, op).cells)
  {
    match op
    case Put(r) => InsertAppends(s.cells, r);
    case Get(w, term) => ReadIsPrivateDequeue(s.cells, w, term);
    case Info(w) =>
  }

  lemma ConcatAssociates(a: seq<Reading>, b: seq<Reading>, c: seq<Reading>)
    ensures a + (b + c) == (a + b) + c
  {
  }

  lemma GetAccounted(s: Sys, v: Reader, term: bool, w: Reader)
    requires s.live && Protocol(s.cells) && Accounted(s, w)
    ensures Accounted(Step(s, Get(v, term)), w)
  {
    var a := Read(s.cells, v, term);
    ReadIsPrivateDequeue(s.cells, v, term);
    assert Step(s, Get(v, term)).cells == a.cells;
    if v != w {
      assert w == v.Other();
    } else if a.data.Some? {
      ConcatAssociates(s.Got(w), [a.data.value], Pending(a.cells, w));
    }
  }

  lemma StepAccounted(s: Sys, op: Op, w: Reader)
    requires Protocol(s.cells) && Accounted(s, w)
    ensures Accounted(Step(s, op), w)
  {
    if s.live {
      match op
      case Put(r) =>
        InsertAppendsFor(s.cells, r, w);
        ConcatAssociates(s.Got(w), Pending(s.cells, w), [r]);
      case Get(v, term) =>
        GetAccounted(s, v, term, w);
      case Info(_) =>
    }
  }

  lemma SuffixMoves(a: seq<Reading>, b: seq<Reading>, r: Reading)
    requires IsSuffix(a, b)
    ensures IsSuffix(a + [r], b + [r])
    ensures a != [] ==> IsSuffix(a[1..], b)
  {
  }

  lemma StepHoldsLatest(s: Sys, op: Op)
    requires HoldsLatest(s)
    ensures HoldsLatest(Step(s, op))
  {
    if s.live && !op.Info? {
      SuffixMoves(Data(s.cells), s.history, if op.Put? then op.r else Reading(0, 0.0, 0));
      if op.Put? {
        assert Data(Insert(s.cells, op.r)) == Data(s.cells) + [op.r];
      } else {
        ReadKeepsData(s.cells, op.w, op.term);
      }
    }
  }

  lemma StepConsistent(s: Sys, op: Op)
    requires Consistent(s)
    ensures Consistent(Step(s, op))
  {
    StepProtocol(s, op);
    StepAccounted(s, op, DATAMGR);
    StepAccounted(s, op, SQLMGR);
    StepHoldsLatest(s, op);
  }

  lemma {:induction false} RunConsistent(s: Sys, ops: seq<Op>)
    requires Consistent(s)
    ensures Consistent(Run(s, ops))
    decreases |ops|
  {
    if ops != [] {
      StepConsistent(s, ops[0]);
      RunConsistent(Step(s, ops[0]), ops[1..]);
    }
  }

  /** In every run, whatever the interleaving, each reader has received a prefix of the inserted readings,
      each once and in order; what the buffer holds is the latest part of them, and at most one more than
      the slower reader misses. */
  lemma EveryRunDeliversPrefixes(ops: seq<Op>)
    ensures var s := Run(INIT, ops);
            && s.gotD <= s.history
            && s.gotS <= s.history
            && |s.cells| <= |s.history|
            && Data(s.cells) == s.history[|s.history| - |s.cells|..]
            && (|s.cells| <= |s.history| - |s.gotD| + 1 || |s.cells| <= |s.history| - |s.gotS| + 1)
            && Protocol(s.cells)
  {
    RunConsistent(INIT, ops);
    var s := Run(INIT, ops);
    LengthBound(s.cells);
    assert Accounted(s, DATAMGR) && Accounted(s, SQLMGR);
  }

  function Puts(ops: seq<Op>): seq<Reading> {
    if ops == [] then []
    else (if ops[0].Put? then [ops[0].r] else []) + Puts(ops[1..])
  }

  /** A schedule, from s, in which no read passes the termination flag while the head has been seen by both
      readers and is not alone. */
  predicate Safe(s: Sys, ops: seq<Op>)
    decreases |ops|
  {
    ops == [] ||
    (!(ops[0].Get? && ReleasesLinkedHead(s.cells, ops[0].term)) && Safe(Step(s, ops[0]), ops[1..]))
  }

  lemma {:induction false} DeadStaysDead(s: Sys, ops: seq<Op>)
    requires !s.live
    ensures Run(s, ops) == s
    decreases |ops|
  {
    if ops != [] {
      DeadStaysDead(s, ops[1..]);
    }
  }

  /** The queue is left with a released head if and only if the schedule is not safe; along a safe schedule
      everything that is put enters the history. */
  lemma {:induction false} LiveIffSafe(s: Sys, ops: seq<Op>)
    requires s.live
    ensures Run(s, ops).live <==> Safe(s, ops)
    ensures Safe(s, ops) ==> Run(s, ops).history == s.history + Puts(ops)
    decreases |ops|
  {
    if ops != [] {
      var t := Step(s, ops[0]);
      if t.live {
        LiveIffSafe(t, ops[1..]);
      } else {
        DeadStaysDead(t, ops[1..]);
      }
    }
  }

  /** As long as no read passes the termination flag, every schedule is safe. */
  lemma {:induction false} UnterminatedIsSafe(s: Sys, ops: seq<Op>)
    requires forall k :: 0 <= k < |ops| && ops[k].Get? ==> !ops[k].term
    ensures Safe(s, ops)
    decreases |ops|
  {
    if ops != [] {
      UnterminatedIsSafe(Step(s, ops[0]), ops[1..]);
    }
  }

  /** The unsafe situation does occur: two readings are in the buffer, both readers take the first, and
      the next read passes the termination flag. */
  lemma TerminatedReadReleasesLinkedNode(a: Reading, b: Reading, w: Reader)
    ensures var s := Run(INIT, [Put(a), Put(b), Get(DATAMGR, false), Get(SQLMGR, false)]);
            && s.live
            && Pending(s.cells, w) == [b]
            && !Run(s, [Get(w, true)]).live
            && Data(Run(s, [Get(w, true)]).cells) == [b]
  {
    var s1 := Step(Step(INIT, Put(a)), Put(b));
    assert s1.cells == [Cell(a, false, false), Cell(b, false, false)];
    FirstUnseenIs(s1.cells, DATAMGR, 0);
    var s2 := Step(s1, Get(DATAMGR, false));
    assert s2.cells == [Cell(a, true, false), Cell(b, false, false)];
    FirstUnseenIs(s2.cells, SQLMGR, 0);
    var s3 := Step(s2, Get(SQLMGR, false));
    assert s3.cells == [Cell(a, true, true), Cell(b, false, false)];
    FirstUnseenIs(s3.cells, w, 1);
    var ops := [Put(a), Put(b), Get(DATAMGR, false), Get(SQLMGR, false)];
    assert ops[1..] == [Put(b), Get(DATAMGR, false), Get(SQLMGR, false)];
    assert ops[1..][1..] == [Get(DATAMGR, false), Get(SQLMGR, false)];
    assert ops[1..][1..][1..] == [Get(SQLMGR, false)];
    assert Run(INIT, ops) == Run(s1, [Get(DATAMGR, false), Get(SQLMGR, false)]);
    assert Run(s1, [Get(DATAMGR, false), Get(SQLMGR, false)]) == s3;
  }

  // ---- Nodes that are never released ----

  /** The operation is a read that strands the head: it unlinks a lone head without the termination flag. */
  predicate Strands(s: Sys, op: Op) {
    op.Get? && StrandsHead(s.cells, op.term)
  }

  /** How many operations of the schedule strand the head. */
  function Stranded(s: Sys, ops: seq<Op>): nat
    decreases |ops|
  {
    if ops == [] then 0 else (if Strands(s, ops[0]) then 1 else 0) + Stranded(Step(s, ops[0]), ops[1..])
  }

  /** The head is stranded by a reader that reads without having asked for data: both readers take the only reading,
      and one of them reads again. */
  lemma ThirdReadStrandsNode(a: Reading, w: Reader)
    ensures var ops := [Put(a), Get(DATAMGR, false), Get(SQLMGR, false), Get(w, false)];
            Safe(INIT, ops) && Stranded(INIT, ops) == 1
  {
    var ops := [Put(a), Get(DATAMGR, false), Get(SQLMGR, false), Get(w, false)];
    UnterminatedIsSafe(INIT, ops);
    var s1 := Step(INIT, Put(a));
    var s2 := Step(s1, Get(DATAMGR, false));
    var s3 := Step(s2, Get(SQLMGR, false));
    assert s1.cells == [Cell(a, false, false)];
    assert s2.cells == [Cell(a, true, false)] by { FirstUnseenIs(s1.cells, DATAMGR, 0); }
    assert s3.cells == [Cell(a, true, true)] by { FirstUnseenIs(s2.cells, SQLMGR, 0); }
    var ops1, ops2, ops3 := ops[1..], ops[1..][1..], [Get(w, false)];
    assert ops1[0] == Get(DATAMGR, false) && ops2[0] == Get(SQLMGR, false) && ops2[1..] == ops3 && ops3[1..] == [];
    assert Stranded(INIT, ops) == Stranded(s1, ops1);
    assert Stranded(s1, ops1) == Stranded(s2, ops2);
    assert Stranded(s2, ops2) == Stranded(s3, ops3);
    assert Stranded(s3, ops3) == 1 + Stranded(Step(s3, ops3[0]), ops3[1..]);
  }

  // ---- The reference design: one private queue per reader ----

  /** What a private queue of w, initially q, answers to the reads of w. */
  function FifoReplies(q: seq<Reading>, ops: seq<Op>, w: Reader): seq<Option<Reading>>
    decreases |ops|
  {
    if ops == [] then []
    else match ops[0]
      case Put(r) => FifoReplies(q + [r], ops[1..], w)
      case Get(v, _) =>
        if v != w then FifoReplies(q, ops[1..], w)
        else if q == [] then [None] + FifoReplies(q, ops[1..], w)
        else [Some(q[0])] + FifoReplies(q[1..], ops[1..], w)
      case Info(_) => FifoReplies(q, ops[1..], w)
  }

  /** What the shared buffer answers to the reads of w. */
  function Replies(s: Sys, ops: seq<Op>, w: Reader): seq<Option<Reading>>
    decreases |ops|
  {
    if ops == [] then []
    else
      var rest := Replies(Step(s, ops[0]), ops[1..], w);
      if ops[0].Get? && ops[0].w == w then [Read(s.cells, w, ops[0].term).data] + rest else rest
  }

  /** One operation of a safe schedule, seen from the private queue of w. */
  lemma StepOfPrivateFifo(s: Sys, op: Op, w: Reader)
    requires Consistent(s) && s.live
    requires !(op.Get? && ReleasesLinkedHead(s.cells, op.term))
    ensures Step(s, op).live
    ensures var q, q' := Pending(s.cells, w), Pending(Step(s, op).cells, w);
            match op
            case Put(r) => q' == q + [r]
            case Info(_) => q' == q
            case Get(v, term) =>
              if v != w then q' == q
              else if q == [] then q' == q && Read(s.cells, w, term).data == None
              else q' == q[1..] && Read(s.cells, w, term).data == Some(q[0])
  {
    match op
    case Put(r) => InsertAppends(s.cells, r);
    case Info(_) =>
    case Get(v, term) =>
      ReadIsPrivateDequeue(s.cells, v, term);
      assert v != w ==> w == v.Other();
  }

  /** The shared buffer refines two independent private queues: in every safe run, each read answers
      exactly what a queue that only sees the insertions and this reader's own reads would answer. */
  lemma {:induction false} RefinesPrivateFifo(s: Sys, ops: seq<Op>, w: Reader)
    requires Consistent(s) && s.live
    requires Safe(s, ops)
    ensures Replies(s, ops, w) == FifoReplies(Pending(s.cells, w), ops, w)
    decreases |ops|
  {
    if ops != [] {
      StepConsistent(s, ops[0]);
      StepOfPrivateFifo(s, ops[0], w);
      RefinesPrivateFifo(Step(s, ops[0]), ops[1..], w);
    }
  }

  /** The part of a schedule that reader w can notice. */
  function Project(ops: seq<Op>, w: Reader): seq<Op> {
    if ops == [] then []
    else
      var rest := Project(ops[1..], w);
      match ops[0]
      case Put(_) => [ops[0]] + rest
      case Get(v, _) => if v == w then [Get(w, false)] + rest else rest
      case Info(_) => rest
  }

  lemma {:induction false} FifoIgnoresTheRest(q: seq<Reading>, ops: seq<Op>, w: Reader)
    ensures FifoReplies(q, Project(ops, w), w) == FifoReplies(q, ops, w)
    decreases |ops|
  {
    if ops != [] {
      var rest := Project(ops[1..], w);
      match ops[0]
      case Put(r) =>
        assert ([ops[0]] + rest)[1..] == rest;
        FifoIgnoresTheRest(q + [r], ops[1..], w);
      case Get(v, _) =>
        assert ([Get(w, false)] + rest)[1..] == rest;
        if v == w && q != [] {
          FifoIgnoresTheRest(q[1..], ops[1..], w);
        } else {
          FifoIgnoresTheRest(q, ops[1..], w);
        }
      case Info(_) =>
        FifoIgnoresTheRest(q, ops[1..], w);
    }
  }

  /** Non-interference: two safe schedules that agree on the insertions and on when w reads give w the same
      answers, whatever the other reader does and whenever it does it. */
  lemma OtherReaderIsInvisible(ops1: seq<Op>, ops2: seq<Op>, w: Reader)
    requires Safe(INIT, ops1) && Safe(INIT, ops2)
    requires Project(ops1, w) == Project(ops2, w)
    ensures Replies(INIT, ops1, w) == Replies(INIT, ops2, w)
  {
    RefinesPrivateFifo(INIT, ops1, w);
    RefinesPrivateFifo(INIT, ops2, w);
    FifoIgnoresTheRest([], ops1, w);
    FifoIgnoresTheRest([], ops2, w);
  }

  lemma DrainedMeansAllReceived(ops: seq<Op>, w: Reader)
    requires Safe(INIT, ops)
    requires Pending(Run(INIT, ops).cells, w) == []
    ensures Run(INIT, ops).Got(w) == Puts(ops)
  {
    LiveIffSafe(INIT, ops);
    RunConsistent(INIT, ops);
    assert Accounted(Run(INIT, ops), w);
    assert INIT.history + Puts(ops) == Puts(ops);
  }

  /** Any two safe schedules with the same insertions that leave nothing pending have delivered the
      same readings, in the same order, to both readers: all of them. */
  lemma DrainedSchedulesAgree(ops1: seq<Op>, ops2: seq<Op>, w1: Reader, w2: Reader)
    requires Safe(INIT, ops1) && Safe(INIT, ops2)
    requires Puts(ops1) == Puts(ops2)
    requires Pending(Run(INIT, ops1).cells, w1) == [] && Pending(Run(INIT, ops2).cells, w2) == []
    ensures Run(INIT, ops1).Got(w1) == Run(INIT, ops2).Got(w2) == Puts(ops1)
  {
    DrainedMeansAllReceived(ops1, w1);
    DrainedMeansAllReceived(ops2, w2);
  }

  /** An operation other than a read by w only ever appends to what w has still to receive. */
  lemma OthersOnlyAppend(s: Sys, op: Op, w: Reader)
    requires Protocol(s.cells)
    requires !(op.Get? && op.w == w)
    ensures Pending(s.cells, w) <= Pending(Step(s, op).cells, w)
  {
    match op
    case Put(r) =>
      InsertAppends(s.cells, r);
    case Get(v, term) =>
      ReadIsPrivateDequeue(s.cells, v, term);
      assert w == v.Other();
    case Info(_) =>
  }

  /** A positive answer of getinfo stays true while w itself does not read: after any further insertions,
      getinfo calls and reads by the other reader, the first pending reading of w is still the same, and an
      unterminated read delivers it. */
  lemma {:induction false} GetInfoSuccessIsStable(s: Sys, w: Reader, more: seq<Op>)
    requires Protocol(s.cells)
    requires GetInfo(s.cells, w) == SUCCESS
    requires forall k :: 0 <= k < |more| && more[k].Get? ==> more[k].w != w
    ensures var t := Run(s, more);
            && GetInfo(t.cells, w) == SUCCESS
            && Pending(s.cells, w) <= Pending(t.cells, w)
            && Read(t.cells, w, false).data == Some(Pending(s.cells, w)[0])
    decreases |more|
  {
    if more == [] {
      ReadIsPrivateDequeue(s.cells, w, false);
    } else {
      StepProtocol(s, more[0]);
      OthersOnlyAppend(s, more[0], w);
      assert |Pending(Step(s, more[0]).cells, w)| > 0;
      GetInfoSuccessIsStable(Step(s, more[0]), w, more[1..]);
    }
  }
}
