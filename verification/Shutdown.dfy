/** The end of a run: from which states, once the termination flag is up, the consumers can still release a node
    that is linked. */
module Shutdown {
  import opened Config
  import opened BufferSpec
  import opened BufferProtocol
  import opened SensorSpec
  import opened SensorStream
  import opened Pipeline

  /** The only step that releases a linked node: a consumer enters its read with the flag while the head has been
      seen by both and is not alone. */
  lemma ReleaseIff(x: World, e: Action)
    requires Windowed(x.sensors)
    requires x.sys.live
    ensures !Next(x, e).sys.live <==>
            && e.Sched? && x.ThreadOf(e.w).pc.Call?
            && ReleasesLinkedHead(x.sys.cells, x.ThreadOf(e.w).pc.term)
  {
    if e.Sched? {
      AdvanceIsPrivate(x, e.w, e.dbOk);
    }
  }

  /** The reads that a consumer will still make once the flag is up, each with the flag it passes: a consumer that
      has set quit finishes its turn, any other makes one more turn, and only a read already prepared can pass no
      flag. */
  function ReadsToCome(t: Thread): seq<bool> {
    var again := if t.quit then [] else [true];
    match t.pc
    case Done => []
    case Top => again
    case Holding(_) => again
    case Waiting => [true]
    case Poll => [true] + again
    case Polled(_) => [true] + again
    case Load(_) => [true] + again
    case Call(_, term) => [term] + again
  }

  /** Whether reads to come can release a linked node, for a queue of n nodes of which one reader has seen the first
      k and the other the first o. The head has to be seen by both and not alone when a read passes the flag. */
  predicate Dangerous(n: nat, k: nat, o: nat, mine: seq<bool>, theirs: seq<bool>) {
    n > 1 &&
    if k > 0 && o > 0 then
      || (mine != [] && mine[0]) || (theirs != [] && theirs[0])
      || (n > 2 && mine != [] && (theirs != [] || o > 1))
      || (n > 2 && theirs != [] && (mine != [] || k > 1))
    else if k > 0 then theirs != [] && |mine| + |theirs| > 1
    else if o > 0 then mine != [] && |mine| + |theirs| > 1
    else mine != [] && theirs != [] && |mine| + |theirs| > 2
  }

  /** The same, for consumer w and the other one. */
  predicate InDanger(x: World, w: Reader) {
    var cells, v := x.sys.cells, w.Other();
    Dangerous(|cells|, FirstUnseen(cells, w), FirstUnseen(cells, v),
              ReadsToCome(x.ThreadOf(w)), ReadsToCome(x.ThreadOf(v)))
  }

  /** There are at most two reads to come, and the last one passes the flag. */
  predicate Form(coming: seq<bool>) {
    |coming| <= 2 && (coming != [] ==> coming[|coming| - 1])
  }

  // ---- One read, on the numbers ----

  lemma PendingCounts(cells: seq<Cell>, w: Reader)
    ensures |Pending(cells, w)| == |cells| - FirstUnseen(cells, w)
  {
  }

  lemma ReadShortens(cells: seq<Cell>, w: Reader, term: bool)
    ensures |Read(cells, w, term).cells| == |cells| - if CleansHead(cells) then 1 else 0
  {
  }

  /** A read takes one reading off the pending ones of its reader, if there is one and it does not return early. */
  lemma ReadTakes(cells: seq<Cell>, w: Reader, term: bool)
    requires Protocol(cells)
    ensures var p, after := |Pending(cells, w)|, Read(cells, w, term).cells;
            && |Pending(after, w)| == p - (if p > 0 && !(term && CleansHead(cells)) then 1 else 0)
            && |Pending(after, w.Other())| == |Pending(cells, w.Other())|
  {
    ReadIsPrivateDequeue(cells, w, term);
  }

  /** The effect of a read on the length of the queue and on how much of it each reader has seen. */
  lemma ReadCounts(cells: seq<Cell>, w: Reader, term: bool)
    requires Protocol(cells)
    ensures var n, k, o := |cells|, FirstUnseen(cells, w), FirstUnseen(cells, w.Other());
            var after := Read(cells, w, term).cells;
            var cut := if k > 0 && o > 0 then 1 else 0;
            && (k <= 1 || o <= 1)
            && (CleansHead(cells) <==> k > 0 && o > 0)
            && |after| == n - cut && FirstUnseen(after, w.Other()) == o - cut
            && FirstUnseen(after, w) == k - cut + if k < n && !(term && cut == 1) then 1 else 0
  {
    var v, after := w.Other(), Read(cells, w, term).cells;
    HeadCounts(cells, w);
    ReadShortens(cells, w, term);
    assert FirstUnseen(after, v) == |after| - (|cells| - FirstUnseen(cells, v)) by {
      ReadTakes(cells, w, term);
      PendingCounts(cells, v);
      PendingCounts(after, v);
    }
    var p := |cells| - FirstUnseen(cells, w);
    assert FirstUnseen(after, w) == |after| - (p - if p > 0 && !(term && CleansHead(cells)) then 1 else 0) by {
      ReadTakes(cells, w, term);
      PendingCounts(cells, w);
      PendingCounts(after, w);
    }
  }

  lemma HeadCounts(cells: seq<Cell>, w: Reader)
    requires Protocol(cells)
    ensures var k, o := FirstUnseen(cells, w), FirstUnseen(cells, w.Other());
            (k <= 1 || o <= 1) && (CleansHead(cells) <==> k > 0 && o > 0)
  {
    assert SeenAt(cells, w, 0) <==> 0 < |cells| && 0 < FirstUnseen(cells, w);
    assert SeenAt(cells, w.Other(), 0) <==> 0 < |cells| && 0 < FirstUnseen(cells, w.Other());
    if |cells| > 1 {
      assert SeenAt(cells, w, 1) <==> 1 < FirstUnseen(cells, w);
      assert SeenAt(cells, w.Other(), 1) <==> 1 < FirstUnseen(cells, w.Other());
      assert !cells[1].SeenByBoth();
    }
  }

  /** Out of danger, a read releases nothing that is linked and stays out of danger. */
  lemma ReadKeepsSafe(n: nat, k: nat, o: nat, mine: seq<bool>, theirs: seq<bool>)
    requires k <= n && o <= n && (k <= 1 || o <= 1) && Form(mine) && Form(theirs) && mine != []
    requires !Dangerous(n, k, o, mine, theirs)
    ensures var cut := if k > 0 && o > 0 then 1 else 0;
            var mark := if k < n && !(mine[0] && cut == 1) then 1 else 0;
            && !(mine[0] && cut == 1 && n > 1)
            && !Dangerous(n - cut, k - cut + mark, o - cut, mine[1..], theirs)
  {
  }

  /** In danger, the next read of one of the two releases a linked node or leaves the danger. */
  lemma DangerProgresses(n: nat, k: nat, o: nat, mine: seq<bool>, theirs: seq<bool>) returns (me: bool)
    requires k <= n && o <= n && (k <= 1 || o <= 1) && Form(mine) && Form(theirs)
    requires Dangerous(n, k, o, mine, theirs)
    ensures me ==> mine != [] && ReadLeavesDanger(n, k, o, mine, theirs)
    ensures !me ==> theirs != [] && ReadLeavesDanger(n, o, k, theirs, mine)
  {
    me := mine != [] && ReadLeavesDanger(n, k, o, mine, theirs);
  }

  predicate ReadLeavesDanger(n: nat, k: nat, o: nat, mine: seq<bool>, theirs: seq<bool>)
    requires k <= n && o <= n && mine != []
  {
    var cut := if k > 0 && o > 0 then 1 else 0;
    var mark := if k < n && !(mine[0] && cut == 1) then 1 else 0;
    (mine[0] && cut == 1 && n > 1) || Dangerous(n - cut, k - cut + mark, o - cut, mine[1..], theirs)
  }

  // ---- The same for the threads ----

  /** The flag is up, and the marks and the reads to come are as they always are then. */
  ghost predicate Closing(x: World) {
    && Windowed(x.sensors) && x.flag && Protocol(x.sys.cells)
    && Form(ReadsToCome(x.dataThread)) && Form(ReadsToCome(x.sqlThread))
  }

  lemma FormOfReads(x: World, w: Reader)
    requires ThreadOk(x, w) && x.flag
    ensures Form(ReadsToCome(x.ThreadOf(w)))
  {
    var t := x.ThreadOf(w);
    if t.pc.Call? && !t.quit {
      assert ReadsToCome(t)[1];
    }
  }

  lemma InvIsClosing(x: World, initial: seq<Sensor>)
    requires Windowed(x.sensors) && Inv(x, initial) && x.flag
    ensures Closing(x)
  {
    FormOfReads(x, DATAMGR);
    FormOfReads(x, SQLMGR);
  }

  /** Only the read itself shortens the list of reads to come. */
  lemma OwnStepReads(x: World, w: Reader, dbOk: bool)
    requires Windowed(x.sensors) && x.flag
    ensures var before, after := ReadsToCome(x.ThreadOf(w)), ReadsToCome(Advance(x, w, dbOk).ThreadOf(w));
            if x.ThreadOf(w).pc.Call? then before != [] && before[0] == x.ThreadOf(w).pc.term && after == before[1..]
            else after == before
  {
    if x.ThreadOf(w).pc.Call? {
      CallStep(x, w, dbOk);
    } else if x.ThreadOf(w).pc.Holding? {
      HoldingStep(x, w, dbOk);
    } else {
      LocalStepReads(x, w, dbOk);
    }
  }

  lemma LocalStepReads(x: World, w: Reader, dbOk: bool)
    requires Windowed(x.sensors) && x.flag && !x.ThreadOf(w).pc.Call? && !x.ThreadOf(w).pc.Holding?
    ensures ReadsToCome(Advance(x, w, dbOk).ThreadOf(w)) == ReadsToCome(x.ThreadOf(w))
  {
  }

  lemma ClosingBoth(x: World, w: Reader)
    requires Windowed(x.sensors) && x.flag && Protocol(x.sys.cells)
    requires Form(ReadsToCome(x.ThreadOf(w))) && Form(ReadsToCome(x.ThreadOf(w.Other())))
    ensures Closing(x)
  {
  }

  lemma AdvanceClosing(x: World, w: Reader, dbOk: bool)
    requires Closing(x)
    ensures Closing(Advance(x, w, dbOk))
  {
    var y, pc := Advance(x, w, dbOk), x.ThreadOf(w).pc;
    AdvanceIsPrivate(x, w, dbOk);
    OwnStepReads(x, w, dbOk);
    assert Protocol(y.sys.cells) by {
      if pc.Call? {
        StepProtocol(x.sys, Get(w, pc.term));
      }
    }
    assert Windowed(y.sensors);
    ClosingBoth(y, w);
  }

  lemma CallResults(x: World, w: Reader, dbOk: bool)
    requires Windowed(x.sensors) && x.flag && x.sys.live && x.ThreadOf(w).pc.Call?
    ensures var y, v := Advance(x, w, dbOk), w.Other();
            var mine, theirs := ReadsToCome(x.ThreadOf(w)), ReadsToCome(x.ThreadOf(v));
            && mine != [] && mine[0] == x.ThreadOf(w).pc.term
            && y.sys.cells == Read(x.sys.cells, w, mine[0]).cells
            && (y.sys.live <==> !ReleasesLinkedHead(x.sys.cells, mine[0]))
            && ReadsToCome(y.ThreadOf(w)) == mine[1..] && ReadsToCome(y.ThreadOf(v)) == theirs
  {
    AdvanceIsPrivate(x, w, dbOk);
    OwnStepReads(x, w, dbOk);
  }

  /** What the step of a consumer that is about to read does to the numbers. */
  lemma CallMoves(x: World, w: Reader, dbOk: bool)
    requires Windowed(x.sensors) && Protocol(x.sys.cells) && x.flag && x.sys.live && x.ThreadOf(w).pc.Call?
    ensures var y, v := Advance(x, w, dbOk), w.Other();
            var n, k, o := |x.sys.cells|, FirstUnseen(x.sys.cells, w), FirstUnseen(x.sys.cells, v);
            var mine, theirs := ReadsToCome(x.ThreadOf(w)), ReadsToCome(x.ThreadOf(v));
            var cut := if k > 0 && o > 0 then 1 else 0;
            && (y.sys.live <==> !(mine[0] && cut == 1 && n > 1))
            && (!y.sys.live || InDanger(y, w) <==> ReadLeavesDanger(n, k, o, mine, theirs))
  {
    CallResults(x, w, dbOk);
    ReadCounts(x.sys.cells, w, x.ThreadOf(w).pc.term);
  }

  lemma DangerIsMutual(x: World, w: Reader)
    ensures InDanger(x, w) <==> InDanger(x, w.Other())
  {
    assert w.Other().Other() == w;
  }

  /** Out of danger, a step of w releases nothing that is linked and stays out of danger. */
  lemma OwnStepKeepsSafe(x: World, w: Reader, dbOk: bool)
    requires Closing(x) && x.sys.live && !InDanger(x, w)
    ensures var y := Advance(x, w, dbOk); y.sys.live && !InDanger(y, w)
  {
    var cells, v := x.sys.cells, w.Other();
    if x.ThreadOf(w).pc.Call? {
      CallMoves(x, w, dbOk);
      OwnStepReads(x, w, dbOk);
      HeadCounts(cells, w);
      ReadKeepsSafe(|cells|, FirstUnseen(cells, w), FirstUnseen(cells, v),
                    ReadsToCome(x.ThreadOf(w)), ReadsToCome(x.ThreadOf(v)));
    } else {
      AdvanceIsPrivate(x, w, dbOk);
      OwnStepReads(x, w, dbOk);
    }
  }

  lemma StepKeepsSafe(x: World, e: Action)
    requires Closing(x) && x.sys.live && !InDanger(x, DATAMGR)
    ensures var y := Next(x, e); Closing(y) && y.sys.live && !InDanger(y, DATAMGR)
  {
    if e.Sched? {
      AdvanceClosing(x, e.w, e.dbOk);
      DangerIsMutual(x, DATAMGR);
      OwnStepKeepsSafe(x, e.w, e.dbOk);
      DangerIsMutual(Advance(x, e.w, e.dbOk), DATAMGR);
    } else {
      assert Next(x, e) == x;
    }
  }

  /** Out of danger, no continuation releases a linked node. */
  lemma {:induction false} SafeForever(x: World, es: seq<Action>)
    requires Closing(x) && x.sys.live && !InDanger(x, DATAMGR)
    ensures Exec(x, es).sys.live
    decreases |es|
  {
    if es != [] {
      StepKeepsSafe(x, es[0]);
      SafeForever(Next(x, es[0]), es[1..]);
    }
  }

  // ---- The mutex of the consumers ----

  /** The consumer is between locking the mutex and unlocking it or waiting. */
  predicate HoldsLock(t: Thread) {
    t.pc == Poll || t.pc.Polled?
  }

  /** The step enters the part that is guarded by the mutex, from the head of the loop or out of the wait. */
  predicate Locks(x: World, e: Action) {
    e.Sched? &&
    var t := x.ThreadOf(e.w);
    t.pc == Waiting || (t.pc == Top && !t.quit)
  }

  /** The mutex is respected: a consumer locks it only when the other does not hold it. */
  predicate Exclusive(x: World, es: seq<Action>)
    requires Windowed(x.sensors)
    decreases |es|
  {
    es == [] ||
    (!(Locks(x, es[0]) && HoldsLock(x.ThreadOf(es[0].w.Other()))) && Exclusive(Next(x, es[0]), es[1..]))
  }

  lemma {:induction false} ExclusiveJoin(x: World, es: seq<Action>, fs: seq<Action>)
    requires Windowed(x.sensors)
    requires Exclusive(x, es) && Exclusive(Exec(x, es), fs)
    ensures Exclusive(x, es + fs)
    decreases |es|
  {
    if es == [] {
      assert es + fs == fs;
    } else {
      assert (es + fs)[1..] == es[1..] + fs;
      ExclusiveJoin(Next(x, es[0]), es[1..], fs);
    }
  }

  lemma ExclusiveCons(x: World, e: Action, es: seq<Action>)
    requires Windowed(x.sensors)
    requires !(Locks(x, e) && HoldsLock(x.ThreadOf(e.w.Other()))) && Exclusive(Next(x, e), es)
    ensures Exclusive(x, [e] + es)
  {
    assert ([e] + es)[1..] == es;
  }

  /** With the flag up, a consumer that holds the mutex can be scheduled until it has let it go. Neither the buffer
      nor the reads to come change. */
  lemma {:induction false} DriveOutOfLock(x: World, v: Reader) returns (es: seq<Action>, y: World)
    requires Closing(x) && x.sys.live
    ensures y == Exec(x, es) && Exclusive(x, es) && Closing(y) && y.sys == x.sys
    ensures !HoldsLock(y.ThreadOf(v)) && y.ThreadOf(v.Other()) == x.ThreadOf(v.Other())
    ensures ReadsToCome(y.ThreadOf(v)) == ReadsToCome(x.ThreadOf(v))
    decreases StepsLeft(x.ThreadOf(v))
  {
    if !HoldsLock(x.ThreadOf(v)) {
      es, y := [], x;
    } else {
      var e := Sched(v, true);
      AdvanceClosing(x, v, true);
      AdvanceIsPrivate(x, v, true);
      OwnStepReads(x, v, true);
      OwnStepsDecrease(x, v, true);
      var rest;
      rest, y := DriveOutOfLock(Advance(x, v, true), v);
      es := [e] + rest;
      ExecCons(x, e, rest);
      ExclusiveCons(x, e, rest);
    }
  }

  /** In danger, what the next read of w leads to. */
  ghost predicate NextReadLeavesDanger(x: World, w: Reader) {
    var cells, v := x.sys.cells, w.Other();
    && ReadsToCome(x.ThreadOf(w)) != []
    && ReadLeavesDanger(|cells|, FirstUnseen(cells, w), FirstUnseen(cells, v),
                        ReadsToCome(x.ThreadOf(w)), ReadsToCome(x.ThreadOf(v)))
  }

  function ToCome(x: World): nat {
    |ReadsToCome(x.dataThread)| + |ReadsToCome(x.sqlThread)|
  }

  /** A consumer that has a read to come, while the other does not hold the mutex, is scheduled until it has made
      it. */
  lemma {:induction false} DriveRead(x: World, w: Reader) returns (es: seq<Action>, y: World)
    requires Closing(x) && x.sys.live && NextReadLeavesDanger(x, w) && !HoldsLock(x.ThreadOf(w.Other()))
    ensures y == Exec(x, es) && Exclusive(x, es) && Closing(y) && ToCome(y) < ToCome(x)
    ensures !y.sys.live || InDanger(y, w)
    decreases StepsLeft(x.ThreadOf(w))
  {
    var e := Sched(w, true);
    var z := Advance(x, w, true);
    AdvanceClosing(x, w, true);
    AdvanceIsPrivate(x, w, true);
    OwnStepReads(x, w, true);
    if x.ThreadOf(w).pc.Call? {
      CallMoves(x, w, true);
      es, y := [e] + [], z;
      ExecCons(x, e, []);
      ExclusiveCons(x, e, []);
    } else {
      OwnStepsDecrease(x, w, true);
      var rest;
      rest, y := DriveRead(z, w);
      es := [e] + rest;
      ExecCons(x, e, rest);
      ExclusiveCons(x, e, rest);
    }
  }

  /** The same, wherever the other consumer is: if it holds the mutex, it lets it go first. */
  lemma DriveTurn(x: World, w: Reader) returns (es: seq<Action>, y: World)
    requires Closing(x) && x.sys.live && NextReadLeavesDanger(x, w)
    ensures y == Exec(x, es) && Exclusive(x, es) && Closing(y) && ToCome(y) < ToCome(x)
    ensures !y.sys.live || InDanger(y, w)
  {
    var z;
    es, z := DriveOutOfLock(x, w.Other());
    assert z.ThreadOf(w) == x.ThreadOf(w);
    var rest;
    rest, y := DriveRead(z, w);
    ExecJoin(x, es, rest);
    ExclusiveJoin(x, es, rest);
    es := es + rest;
  }

  /** In danger, the two consumers can be scheduled, with respect for the mutex, so that a linked node is released. */
  lemma {:induction false} DriveToRelease(x: World) returns (es: seq<Action>)
    requires Closing(x) && x.sys.live && InDanger(x, DATAMGR)
    ensures Exclusive(x, es) && !Exec(x, es).sys.live
    decreases ToCome(x)
  {
    var cells := x.sys.cells;
    HeadCounts(cells, DATAMGR);
    var first := DangerProgresses(|cells|, FirstUnseen(cells, DATAMGR), FirstUnseen(cells, SQLMGR),
                                  ReadsToCome(x.dataThread), ReadsToCome(x.sqlThread));
    var y;
    es, y := DriveTurn(x, if first then DATAMGR else SQLMGR);
    if y.sys.live {
      DangerIsMutual(y, DATAMGR);
      var rest := DriveToRelease(y);
      ExecJoin(x, es, rest);
      ExclusiveJoin(x, es, rest);
      es := es + rest;
    }
  }

  /** Once the flag is up, some continuation releases a linked node if and only if the state is in danger, which can
      be read off the length of the queue, the marks of the two readers, and where they are in their loops. It makes
      no difference whether the continuation has to respect the mutex. Every state that the threads reach with the
      flag up is a closing one (InvIsClosing). */
  lemma ReleaseIsReachableIff(x: World)
    requires Closing(x) && x.sys.live
    ensures (exists es :: !Exec(x, es).sys.live) <==> InDanger(x, DATAMGR)
    ensures (exists es :: Exclusive(x, es) && !Exec(x, es).sys.live) <==> InDanger(x, DATAMGR)
  {
    if InDanger(x, DATAMGR) {
      var es := DriveToRelease(x);
    } else {
      forall es: seq<Action>
        ensures Exec(x, es).sys.live
      {
        SafeForever(x, es);
      }
    }
  }

  /** When the flag is raised while both consumers are at the head of their loops, the shutdown is safe, whatever
      they do afterwards, if and only if at most one reading is in the buffer or neither of them has taken the
      first. */
  lemma ShutdownIsSafeIff(x: World, initial: seq<Sensor>)
    requires Windowed(x.sensors) && Inv(x, initial) && !x.flag
    requires x.dataThread.pc == Top && x.sqlThread.pc == Top
    ensures (forall es :: Exec(Next(x, Terminate), es).sys.live) <==>
            |x.sys.cells| <= 1 || (!x.sys.cells[0].seenD && !x.sys.cells[0].seenS)
    ensures (forall es :: Exclusive(Next(x, Terminate), es) ==> Exec(Next(x, Terminate), es).sys.live) <==>
            |x.sys.cells| <= 1 || (!x.sys.cells[0].seenD && !x.sys.cells[0].seenS)
  {
    var y := Next(x, Terminate);
    NextInv(x, Terminate, initial);
    InvIsClosing(y, initial);
    ReleaseIsReachableIff(y);
    if |x.sys.cells| > 1 {
      assert SeenAt(x.sys.cells, DATAMGR, 0) <==> 0 < FirstUnseen(x.sys.cells, DATAMGR);
      assert SeenAt(x.sys.cells, SQLMGR, 0) <==> 0 < FirstUnseen(x.sys.cells, SQLMGR);
    }
  }

  lemma SmallStaysSafe(x: World, e: Action)
    requires Windowed(x.sensors)
    requires x.sys.live && x.flag && |x.sys.cells| <= 1
    ensures var y := Next(x, e); y.sys.live && y.flag && |y.sys.cells| <= 1
  {
    ReleaseIff(x, e);
    if e.Sched? {
      AdvanceIsPrivate(x, e.w, e.dbOk);
    }
  }

  /** A shutdown is safe, whatever the consumers do afterwards, if at most one reading is in the buffer when the flag
      is raised. */
  lemma {:induction false} ShutdownWithSmallBufferIsSafe(x: World, es: seq<Action>)
    requires Windowed(x.sensors)
    requires x.sys.live && x.flag && |x.sys.cells| <= 1
    ensures Exec(x, es).sys.live
    decreases |es|
  {
    if es != [] {
      SmallStaysSafe(x, es[0]);
      ShutdownWithSmallBufferIsSafe(Next(x, es[0]), es[1..]);
    }
  }

  // ---- The unsafe end occurs ----

  /** The action e, n times. */
  function Times(e: Action, n: nat): seq<Action> {
    if n == 0 then [] else [e] + Times(e, n - 1)
  }

  /** A whole turn of consumer w through its loop. */
  function Turn(w: Reader): seq<Action> {
    Times(Sched(w, true), 6)
  }

  lemma SixSteps(x: World, e: Action)
    requires Windowed(x.sensors)
    ensures Exec(x, Times(e, 6)) == Next(Next(Next(Next(Next(Next(x, e), e), e), e), e), e)
  {
    var x3 := Next(Next(Next(x, e), e), e);
    ExecCons(x, e, Times(e, 5));
    ExecCons(Next(x, e), e, Times(e, 4));
    ExecCons(Next(Next(x, e), e), e, Times(e, 3));
    ExecCons(x3, e, Times(e, 2));
    ExecCons(Next(x3, e), e, Times(e, 1));
    ExecCons(Next(Next(x3, e), e), e, []);
    assert Times(e, 1) == [e] + [];
  }

  /** The first four steps of a turn lead into the call, if there is data or the flag is up. */
  lemma TurnReachesCall(x: World, w: Reader, go: Action)
    requires Windowed(x.sensors) && x.sys.live && go == Sched(w, true)
    requires x.ThreadOf(w) == Thread(Top, false, 0) && (x.flag || GetInfo(x.sys.cells, w) == SUCCESS)
    ensures var y := Next(Next(Next(Next(x, go), go), go), go);
            y == x.WithThread(w, Thread(Call(GetInfo(x.sys.cells, w) == SUCCESS, x.flag), x.flag, 0))
  {
    var x1 := Next(x, go);
    assert x1 == x.WithThread(w, Thread(Poll, x.flag, 0));
    var x2 := Next(x1, go);
    assert x2 == x.WithThread(w, Thread(Polled(GetInfo(x.sys.cells, w)), x.flag, 0));
    var x3 := Next(x2, go);
    assert x3 == x.WithThread(w, Thread(Load(GetInfo(x.sys.cells, w) == SUCCESS), x.flag, 0));
  }

  /** The last two steps of a turn: the read, and the processing of what it delivered. */
  lemma TurnReturns(x: World, w: Reader, go: Action)
    requires Windowed(x.sensors) && x.sys.live && !x.flag && go == Sched(w, true)
    requires x.ThreadOf(w) == Thread(Call(true, false), false, 0)
    requires Read(x.sys.cells, w, false).data.Some?
    ensures var y := Next(Next(x, go), go);
            && y.sys == BufferProtocol.Step(x.sys, Get(w, false)) && y.sys.live && !y.flag
            && y.ThreadOf(w) == Thread(Top, false, 0) && y.ThreadOf(w.Other()) == x.ThreadOf(w.Other())
            && y.Handled(w) == x.Handled(w) + [Read(x.sys.cells, w, false).data.value]
  {
    var data := Read(x.sys.cells, w, false).data;
    var x1 := x.(sys := BufferProtocol.Step(x.sys, Get(w, false))).WithThread(w, Thread(Holding(data), false, 0));
    assert Next(x, go) == x1 && x1.sys.live;
    var x2 := Process(x1, w, data, true);
    assert x2.Handled(w) == x.Handled(w) + [data.value];
    assert Next(x1, go) == x2.WithThread(w, Thread(Top, false, 0));
  }

  /** While data is there and the flag is down, a turn takes and processes one reading. */
  lemma TurnTakesOne(x: World, w: Reader)
    requires Windowed(x.sensors) && x.sys.live && !x.flag && Protocol(x.sys.cells)
    requires x.ThreadOf(w) == Thread(Top, false, 0) && Pending(x.sys.cells, w) != []
    ensures var y := Exec(x, Turn(w));
            && y.sys == BufferProtocol.Step(x.sys, Get(w, false)) && y.sys.live && !y.flag
            && y.ThreadOf(w) == x.ThreadOf(w) && y.ThreadOf(w.Other()) == x.ThreadOf(w.Other())
            && y.Handled(w) == x.Handled(w) + [Pending(x.sys.cells, w)[0]]
            && Pending(y.sys.cells, w) == Pending(x.sys.cells, w)[1..]
            && y.sys.history == x.sys.history && Protocol(y.sys.cells)
  {
    var go := Sched(w, true);
    ReadIsPrivateDequeue(x.sys.cells, w, false);
    assert GetInfo(x.sys.cells, w) == SUCCESS by { GetInfoForetellsRead(x.sys.cells, w, false); }
    SixSteps(x, go);
    TurnReachesCall(x, w, go);
    TurnReturns(x.WithThread(w, Thread(Call(true, false), false, 0)), w, go);
  }

  /** With two readings in the buffer, a turn of a consumer that has seen neither marks the first. */
  lemma TurnMarksFirst(x: World, w: Reader, first: Cell, second: Cell)
    requires Windowed(x.sensors) && x.sys.live && !x.flag && x.ThreadOf(w) == Thread(Top, false, 0)
    requires x.sys.cells == [first, second] && !first.SeenBy(w) && !second.seenD && !second.seenS
    ensures var y := Exec(x, Turn(w));
            && y.sys.cells == [first.MarkedBy(w), second] && y.sys.live && !y.flag
            && y.ThreadOf(w) == x.ThreadOf(w) && y.ThreadOf(w.Other()) == x.ThreadOf(w.Other())
  {
    TwoCells(x.sys.cells, w, first, second);
    TurnTakesOne(x, w);
  }

  lemma TwoCells(cells: seq<Cell>, w: Reader, first: Cell, second: Cell)
    requires cells == [first, second] && !first.SeenBy(w) && !second.seenD && !second.seenS
    ensures Protocol(cells) && Pending(cells, w) != []
    ensures Read(cells, w, false).cells == [first.MarkedBy(w), second]
  {
    MarksFirst(cells, w, 0);
    MarksFirst(cells, w.Other(), if first.SeenBy(w.Other()) then 1 else 0);
  }

  /** A consumer that is scheduled alone respects the mutex if the other does not hold it. */
  lemma {:induction false} AloneIsExclusive(x: World, w: Reader, n: nat)
    requires Windowed(x.sensors) && !HoldsLock(x.ThreadOf(w.Other()))
    ensures Exclusive(x, Times(Sched(w, true), n))
    decreases n
  {
    if n > 0 {
      AdvanceKeepsOther(x, w, true);
      AloneIsExclusive(Next(x, Sched(w, true)), w, n - 1);
      ExclusiveCons(x, Sched(w, true), Times(Sched(w, true), n - 1));
    }
  }

  /** The state in which two readings are in the buffer and both consumers have taken the first. */
  lemma BothTakeFirst(a: Reading, b: Reading) returns (x: World, es: seq<Action>)
    ensures x == Exec(Boot([]), es) && Exclusive(Boot([]), es)
    ensures x.sys.cells == [Cell(a, true, true), Cell(b, false, false)]
    ensures x.sys.live && !x.flag
    ensures x.dataThread == x.sqlThread == Thread(Top, false, 0)
  {
    var x0 := Boot([]);
    es := [Produce(a)] + [Produce(b)];
    ExecCons(x0, Produce(a), [Produce(b)]);
    ExecCons(Next(x0, Produce(a)), Produce(b), []);
    assert [Produce(b)] + [] == [Produce(b)];
    ExclusiveCons(Next(x0, Produce(a)), Produce(b), []);
    ExclusiveCons(x0, Produce(a), [Produce(b)]);
    x := Exec(x0, es);
    TurnMarksFirst(x, DATAMGR, Cell(a, false, false), Cell(b, false, false));
    ExecJoin(x0, es, Turn(DATAMGR));
    AloneIsExclusive(x, DATAMGR, 6);
    ExclusiveJoin(x0, es, Turn(DATAMGR));
    x := Exec(x, Turn(DATAMGR));
    assert x.ThreadOf(SQLMGR) == Thread(Top, false, 0);
    TurnMarksFirst(x, SQLMGR, Cell(a, true, false), Cell(b, false, false));
    ExecJoin(x0, es + Turn(DATAMGR), Turn(SQLMGR));
    AloneIsExclusive(x, SQLMGR, 6);
    ExclusiveJoin(x0, es + Turn(DATAMGR), Turn(SQLMGR));
    x := Exec(x, Turn(SQLMGR));
    es := es + Turn(DATAMGR) + Turn(SQLMGR);
    assert x.ThreadOf(DATAMGR) == Thread(Top, false, 0);
  }

  /** The unsafe situation is reachable by the threads themselves, with respect for the mutex: two readings are
      produced, each consumer takes the first, the producer terminates, and a consumer that comes around releases
      the node it should deliver. */
  lemma ShutdownCanReleaseLinkedNode(a: Reading, b: Reading)
    ensures exists es :: Exclusive(Boot([]), es) && !Exec(Boot([]), es).sys.live
  {
    var x, es := BothTakeFirst(a, b);
    var y := Next(x, Terminate);
    assert exists more :: Exclusive(y, more) && !Exec(y, more).sys.live by {
      BootInv([]);
      ExecInv(Boot([]), es, []);
      ShutdownIsSafeIff(x, []);
    }
    var more :| Exclusive(y, more) && !Exec(y, more).sys.live;
    assert Exec(x, [Terminate] + more) == Exec(y, more) by { ExecCons(x, Terminate, more); }
    ExclusiveCons(x, Terminate, more);
    ExecJoin(Boot([]), es, [Terminate] + more);
    ExclusiveJoin(Boot([]), es, [Terminate] + more);
  }
}
