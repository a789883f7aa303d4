/** The three threads together. The producer inserts readings and finally raises the termination flag; each of the
    two consumers runs its loop (datamgr.c:145-190, sensor_db.c:35-78), one shared access per step, so every
    interleaving of the accesses is a sequence of events. */
module Pipeline {
  import opened Config
  import opened BufferSpec
  import opened BufferProtocol
  import opened SensorSpec
  import opened SensorStream

  /** Where a consumer is. 'found' remembers whether its last getinfo answered SUCCESS. */
  datatype Pc =
    | Top                                // head of the outer loop
    | Poll                               // about to call getinfo
    | Polled(code: Code)                 // getinfo has answered; about to read the flag
    | Waiting                            // inside the wait on the condition variable
    | Load(found: bool)                  // out of the wait loop; about to load the flag as an argument
    | Call(found: bool, term: bool)      // about to enter sbuffer_read
    | Holding(data: Option<Reading>)     // sbuffer_read has returned
    | Done

  /** A consumer: its program counter, its quit variable, and the number of reads it has made with quit set. */
  datatype Thread = Thread(pc: Pc, quit: bool, late: nat)

  /** The shared state and the private state of the consumers, with what each has processed so far and, for the
      database, whether each insertion succeeded. */
  datatype World = World(
    sys: Sys, flag: bool, dataThread: Thread, sqlThread: Thread,
    sensors: seq<Sensor>, handledD: seq<Reading>,
    rows: seq<Reading>, handledS: seq<Reading>, stored: seq<bool>)
  {
    function ThreadOf(w: Reader): Thread {
      if w.DATAMGR? then dataThread else sqlThread
    }

    function WithThread(w: Reader, t: Thread): World {
      if w.DATAMGR? then this.(dataThread := t) else this.(sqlThread := t)
    }

    function Handled(w: Reader): seq<Reading> {
      if w.DATAMGR? then handledD else handledS
    }
  }

  /** Produce and Terminate are steps of the connection manager; Sched lets one consumer make a step, whose database
      insertion, if it makes one, succeeds or fails. */
  datatype Action = Produce(r: Reading) | Terminate | Sched(w: Reader, dbOk: bool)

  ghost predicate Parsed(sensors: seq<Sensor>) {
    Fresh(sensors, RUN_AVG_LENGTH)
  }

  function Boot(sensors: seq<Sensor>): World {
    World(INIT, false, Thread(Top, false, 0), Thread(Top, false, 0), sensors, [], [], [], [])
  }

  /** The consumer is through with what it holds. */
  function Process(x: World, w: Reader, data: Option<Reading>, dbOk: bool): (y: World)
    requires Windowed(x.sensors)
    ensures Windowed(y.sensors)
  {
    match data
    case None => x
    case Some(r) =>
      if w.DATAMGR? then x.(sensors := Handle(x.sensors, r), handledD := x.handledD + [r])
      else x.(rows := if dbOk then x.rows + [r] else x.rows, handledS := x.handledS + [r], stored := x.stored + [dbOk])
  }

  /** One step of the consumer w. */
  function Advance(x: World, w: Reader, dbOk: bool): (y: World)
    requires Windowed(x.sensors)
    ensures Windowed(y.sensors)
  {
    var t := x.ThreadOf(w);
    match t.pc
    case Top =>
      x.WithThread(w, if t.quit then t.(pc := Done) else t.(pc := Poll, quit := x.flag))
    case Poll =>
      x.WithThread(w, t.(pc := Polled(GetInfo(x.sys.cells, w))))
    case Polled(code) =>
      x.WithThread(w, t.(pc := if code != SUCCESS && !x.flag then Waiting else Load(code == SUCCESS)))
    case Waiting =>
      x.WithThread(w, t.(pc := Poll, quit := t.quit || x.flag))
    case Load(found) =>
      x.WithThread(w, t.(pc := Call(found, x.flag)))
    case Call(found, term) =>
      var answer := Read(x.sys.cells, w, term);
      x.(sys := BufferProtocol.Step(x.sys, Get(w, term)))
      .WithThread(w, Thread(Holding(answer.data), t.quit, if t.quit then t.late + 1 else t.late))
    case Holding(data) =>
      Process(x, w, data, dbOk).WithThread(w, t.(pc := Top))
    case Done => x
  }

  /** One step of the whole. Nothing happens any more once a linked node has been released, and the producer is
      silent after it has raised the flag. */
  function Next(x: World, e: Action): (y: World)
    requires Windowed(x.sensors)
    ensures Windowed(y.sensors)
  {
    if !x.sys.live then x
    else match e
      case Produce(r) => if x.flag then x else x.(sys := BufferProtocol.Step(x.sys, Put(r)))
      case Terminate => x.(flag := true)
      case Sched(w, dbOk) => Advance(x, w, dbOk)
  }

  function Exec(x: World, es: seq<Action>): (y: World)
    requires Windowed(x.sensors)
    ensures Windowed(y.sensors)
    decreases |es|
  {
    if es == [] then x else Exec(Next(x, es[0]), es[1..])
  }

  // ---- The invariant ----

  function InFlight(t: Thread): seq<Reading> {
    if t.pc.Holding? && t.pc.data.Some? then [t.pc.data.value] else []
  }

  /** A consumer and the buffer: what it has received is what it has processed and what it holds; after a positive
      getinfo there is a reading for it; without one it leaves the wait loop only because of the flag; and once quit
      is set it makes at most one more read. */
  ghost predicate ThreadOk(x: World, w: Reader) {
    var t := x.ThreadOf(w);
    && x.sys.Got(w) == x.Handled(w) + InFlight(t)
    && (t.pc == Polled(SUCCESS) || t.pc == Load(true) || (t.pc.Call? && t.pc.found) ==> Pending(x.sys.cells, w) != [])
    && (t.pc == Load(false) ==> x.flag)
    && (t.pc.Call? && !t.pc.found ==> t.pc.term)
    && (t.pc.Call? && t.pc.term ==> x.flag)
    && (t.pc.Call? && t.quit ==> t.pc.term)
    && (t.quit ==> x.flag)
    && (t.pc == Done ==> t.quit)
    && t.late <= 1
    && (t.late == 1 ==> t.quit && (t.pc.Holding? || t.pc == Top || t.pc == Done))
  }

  /** The rows of the database are the processed readings whose insertion succeeded. */
  function Kept(rs: seq<Reading>, ok: seq<bool>): seq<Reading>
    requires |rs| == |ok|
  {
    if rs == [] then [] else Kept(rs[..|rs| - 1], ok[..|ok| - 1]) + if ok[|ok| - 1] then [rs[|rs| - 1]] else []
  }

  ghost predicate Outputs(x: World, initial: seq<Sensor>) {
    && Windowed(initial)
    && x.sensors == Fold(initial, x.handledD)
    && |x.stored| == |x.handledS|
    && x.rows == Kept(x.handledS, x.stored)
  }

  ghost predicate Inv(x: World, initial: seq<Sensor>) {
    && Consistent(x.sys)
    && ThreadOk(x, DATAMGR) && ThreadOk(x, SQLMGR)
    && Outputs(x, initial)
    && (!x.flag ==> x.sys.live)
  }

  // ---- Every step keeps it ----

  /** Consumer w, when its own step changes neither the buffer nor the flag. */
  lemma LocalStepOk(x: World, w: Reader, dbOk: bool)
    requires Windowed(x.sensors)
    requires ThreadOk(x, w) && !x.ThreadOf(w).pc.Call?
    ensures ThreadOk(Advance(x, w, dbOk), w)
  {
    if x.ThreadOf(w).pc.Holding? {
      HoldingStep(x, w, dbOk);
    } else {
      QuietStepOk(x, w, dbOk);
    }
  }

  /** The end of a turn. */
  lemma HoldingStep(x: World, w: Reader, dbOk: bool)
    requires Windowed(x.sensors) && x.ThreadOf(w).pc.Holding?
    ensures var y := Advance(x, w, dbOk);
            && y.ThreadOf(w) == x.ThreadOf(w).(pc := Top) && y.sys == x.sys && y.flag == x.flag
            && y.Handled(w) == x.Handled(w) + InFlight(x.ThreadOf(w))
  {
  }

  /** A step that neither reads nor processes. */
  lemma QuietStepOk(x: World, w: Reader, dbOk: bool)
    requires Windowed(x.sensors) && ThreadOk(x, w)
    requires !x.ThreadOf(w).pc.Call? && !x.ThreadOf(w).pc.Holding?
    ensures ThreadOk(Advance(x, w, dbOk), w)
  {
    if x.ThreadOf(w).pc == Poll {
      PollStepOk(x, w, dbOk);
    }
  }

  lemma PollStepOk(x: World, w: Reader, dbOk: bool)
    requires Windowed(x.sensors) && ThreadOk(x, w) && x.ThreadOf(w).pc == Poll
    ensures ThreadOk(Advance(x, w, dbOk), w)
  {
    GetInfoAnswers(x.sys.cells, w);
  }

  lemma CallStepOk(x: World, w: Reader, dbOk: bool)
    requires Windowed(x.sensors)
    requires ThreadOk(x, w) && x.ThreadOf(w).pc.Call? && x.sys.live
    ensures ThreadOk(Advance(x, w, dbOk), w)
  {
    assert InFlight(x.ThreadOf(w)) == [];
  }

  /** What a consumer relies on survives any change that leaves its own data alone, keeps the flag up and only adds
      to what it has still to receive. */
  lemma ThreadOkCarries(x: World, y: World, v: Reader)
    requires ThreadOk(x, v)
    requires y.ThreadOf(v) == x.ThreadOf(v) && y.Handled(v) == x.Handled(v) && y.sys.Got(v) == x.sys.Got(v)
    requires x.flag ==> y.flag
    requires Pending(x.sys.cells, v) <= Pending(y.sys.cells, v)
    ensures ThreadOk(y, v)
  {
  }

  /** A step changes the buffer only by the read, and never the flag. */
  lemma AdvanceMovesSys(x: World, w: Reader, dbOk: bool)
    requires Windowed(x.sensors)
    ensures var y, pc := Advance(x, w, dbOk), x.ThreadOf(w).pc;
            y.flag == x.flag && y.sys == if pc.Call? then BufferProtocol.Step(x.sys, Get(w, pc.term)) else x.sys
  {
  }

  lemma AdvanceKeepsOther(x: World, w: Reader, dbOk: bool)
    requires Windowed(x.sensors)
    ensures var y, v := Advance(x, w, dbOk), w.Other();
            y.ThreadOf(v) == x.ThreadOf(v) && y.Handled(v) == x.Handled(v)
  {
  }

  lemma GetIsPrivate(s: Sys, w: Reader, term: bool)
    ensures BufferProtocol.Step(s, Get(w, term)).Got(w.Other()) == s.Got(w.Other())
  {
  }

  /** A step of w leaves the other consumer's data alone. */
  lemma AdvanceIsPrivate(x: World, w: Reader, dbOk: bool)
    requires Windowed(x.sensors)
    ensures var y, v, pc := Advance(x, w, dbOk), w.Other(), x.ThreadOf(w).pc;
            && y.ThreadOf(v) == x.ThreadOf(v) && y.Handled(v) == x.Handled(v) && y.sys.Got(v) == x.sys.Got(v)
            && y.flag == x.flag
            && y.sys == if pc.Call? then BufferProtocol.Step(x.sys, Get(w, pc.term)) else x.sys
  {
    AdvanceMovesSys(x, w, dbOk);
    AdvanceKeepsOther(x, w, dbOk);
    if x.ThreadOf(w).pc.Call? {
      GetIsPrivate(x.sys, w, x.ThreadOf(w).pc.term);
    }
  }

  /** The other consumer, when w makes a step. */
  lemma OtherStepOk(x: World, w: Reader, dbOk: bool)
    requires Windowed(x.sensors)
    requires Protocol(x.sys.cells) && ThreadOk(x, w.Other())
    ensures ThreadOk(Advance(x, w, dbOk), w.Other())
  {
    AdvanceIsPrivate(x, w, dbOk);
    var pc := x.ThreadOf(w).pc;
    if pc.Call? {
      OthersOnlyAppend(x.sys, Get(w, pc.term), w.Other());
    }
    ThreadOkCarries(x, Advance(x, w, dbOk), w.Other());
  }

  lemma ProduceOk(x: World, r: Reading, w: Reader)
    requires Windowed(x.sensors)
    requires Protocol(x.sys.cells) && ThreadOk(x, w)
    ensures ThreadOk(Next(x, Produce(r)), w)
  {
    OthersOnlyAppend(x.sys, Put(r), w);
    ThreadOkCarries(x, Next(x, Produce(r)), w);
  }

  lemma KeptAppend(rs: seq<Reading>, ok: seq<bool>, r: Reading, b: bool)
    requires |rs| == |ok|
    ensures Kept(rs + [r], ok + [b]) == Kept(rs, ok) + if b then [r] else []
  {
    assert (rs + [r])[..|rs|] == rs && (ok + [b])[..|ok|] == ok;
  }

  lemma ProcessKeepsOutputs(x: World, w: Reader, data: Option<Reading>, dbOk: bool, initial: seq<Sensor>)
    requires Windowed(x.sensors)
    requires Outputs(x, initial)
    ensures Outputs(Process(x, w, data, dbOk), initial)
  {
    if data.Some? {
      if w.DATAMGR? {
        FoldAppend(initial, x.handledD, data.value);
      } else {
        KeptAppend(x.handledS, x.stored, data.value, dbOk);
      }
    }
  }

  lemma OutputsMoveOnlyInHolding(x: World, w: Reader, dbOk: bool)
    requires Windowed(x.sensors)
    ensures var y, pc := Advance(x, w, dbOk), x.ThreadOf(w).pc;
            var z := if pc.Holding? then Process(x, w, pc.data, dbOk) else x;
            y.(sys := z.sys, dataThread := z.dataThread, sqlThread := z.sqlThread) == z
  {
  }

  lemma AdvanceKeepsOutputs(x: World, w: Reader, dbOk: bool, initial: seq<Sensor>)
    requires Windowed(x.sensors)
    requires Outputs(x, initial)
    ensures Outputs(Advance(x, w, dbOk), initial)
  {
    OutputsMoveOnlyInHolding(x, w, dbOk);
    if x.ThreadOf(w).pc.Holding? {
      ProcessKeepsOutputs(x, w, x.ThreadOf(w).pc.data, dbOk, initial);
    }
  }

  /** As long as the flag is down, no step releases a linked node. */
  lemma FlagDownStaysLive(x: World, w: Reader, dbOk: bool)
    requires Windowed(x.sensors)
    requires x.sys.live && !x.flag && ThreadOk(x, w)
    ensures Advance(x, w, dbOk).sys.live
  {
  }

  lemma AdvanceInv(x: World, w: Reader, dbOk: bool, initial: seq<Sensor>)
    requires Windowed(x.sensors)
    requires Inv(x, initial) && x.sys.live
    ensures Inv(Advance(x, w, dbOk), initial)
  {
    var pc, y := x.ThreadOf(w).pc, Advance(x, w, dbOk);
    assert ThreadOk(y, w) by {
      if pc.Call? {
        CallStepOk(x, w, dbOk);
      } else {
        LocalStepOk(x, w, dbOk);
      }
    }
    assert ThreadOk(y, w.Other()) by { OtherStepOk(x, w, dbOk); }
    assert Outputs(y, initial) by { AdvanceKeepsOutputs(x, w, dbOk, initial); }
    assert Consistent(y.sys) by {
      AdvanceIsPrivate(x, w, dbOk);
      if pc.Call? {
        StepConsistent(x.sys, Get(w, pc.term));
      }
    }
    assert !y.flag ==> y.sys.live by {
      AdvanceIsPrivate(x, w, dbOk);
      if !x.flag {
        FlagDownStaysLive(x, w, dbOk);
      }
    }
  }

  lemma NextInv(x: World, e: Action, initial: seq<Sensor>)
    requires Windowed(x.sensors)
    requires Inv(x, initial)
    ensures Inv(Next(x, e), initial)
  {
    if x.sys.live {
      match e
      case Produce(r) =>
        StepConsistent(x.sys, Put(r));
        ProduceOk(x, r, DATAMGR);
        ProduceOk(x, r, SQLMGR);
      case Terminate =>
      case Sched(w, dbOk) =>
        AdvanceInv(x, w, dbOk, initial);
    }
  }

  lemma {:induction false} ExecInv(x: World, es: seq<Action>, initial: seq<Sensor>)
    requires Windowed(x.sensors)
    requires Inv(x, initial)
    ensures Inv(Exec(x, es), initial)
    decreases |es|
  {
    if es != [] {
      NextInv(x, es[0], initial);
      ExecInv(Next(x, es[0]), es[1..], initial);
    }
  }

  lemma BootInv(sensors: seq<Sensor>)
    requires Parsed(sensors)
    ensures Inv(Boot(sensors), sensors)
  {
  }

  // ---- Reads after quit, and database rows, counted from the outside ----

  /** How many reads w makes in these steps with quit set. */
  function LateReads(x: World, es: seq<Action>, w: Reader): nat
    requires Windowed(x.sensors)
    decreases |es|
  {
    if es == [] then 0
    else
      var t := x.ThreadOf(w);
      (if x.sys.live && es[0].Sched? && es[0].w == w && t.pc.Call? && t.quit then 1 else 0)
      + LateReads(Next(x, es[0]), es[1..], w)
  }

  lemma OwnLate(x: World, w: Reader, dbOk: bool)
    requires Windowed(x.sensors)
    ensures var t := x.ThreadOf(w);
            Advance(x, w, dbOk).ThreadOf(w).late == t.late + if t.pc.Call? && t.quit then 1 else 0
  {
  }

  lemma {:induction false} LateIsCounted(x: World, es: seq<Action>, w: Reader)
    requires Windowed(x.sensors)
    ensures Exec(x, es).ThreadOf(w).late == x.ThreadOf(w).late + LateReads(x, es, w)
    decreases |es|
  {
    if es != [] {
      var y := Next(x, es[0]);
      if es[0].Sched? {
        OwnLate(x, w, es[0].dbOk);
        AdvanceKeepsOther(x, es[0].w, es[0].dbOk);
        assert es[0].w != w ==> es[0].w.Other() == w;
      }
      LateIsCounted(y, es[1..], w);
    }
  }

  /** The outcomes of the database insertions made in these steps. */
  function DbOutcomes(x: World, es: seq<Action>): seq<bool>
    requires Windowed(x.sensors)
    decreases |es|
  {
    if es == [] then [] else OutcomeOf(x, es[0]) + DbOutcomes(Next(x, es[0]), es[1..])
  }

  function OutcomeOf(x: World, e: Action): seq<bool> {
    var pc := x.sqlThread.pc;
    if x.sys.live && e.Sched? && e.w == SQLMGR && pc.Holding? && pc.data.Some? then [e.dbOk] else []
  }

  lemma StepStores(x: World, e: Action)
    requires Windowed(x.sensors)
    ensures Next(x, e).stored == x.stored + OutcomeOf(x, e)
  {
    if x.sys.live && e.Sched? {
      OutputsMoveOnlyInHolding(x, e.w, e.dbOk);
    }
  }

  lemma {:induction false} StoredAreOutcomes(x: World, es: seq<Action>)
    requires Windowed(x.sensors)
    ensures Exec(x, es).stored == x.stored + DbOutcomes(x, es)
    decreases |es|
  {
    if es != [] {
      var y := Next(x, es[0]);
      assert y.stored == x.stored + OutcomeOf(x, es[0]) by { StepStores(x, es[0]); }
      StoredAreOutcomes(y, es[1..]);
      OutcomesAssociate(x.stored, OutcomeOf(x, es[0]), DbOutcomes(y, es[1..]));
    }
  }

  lemma OutcomesAssociate(a: seq<bool>, b: seq<bool>, c: seq<bool>)
    ensures (a + b) + c == a + (b + c)
  {
  }

  function Trues(ok: seq<bool>): nat {
    if ok == [] then 0 else Trues(ok[..|ok| - 1]) + if ok[|ok| - 1] then 1 else 0
  }

  /** The readings kept are those whose insertion succeeded, in their order: as many as there are successes, and the
      reading of the k-th insertion, if that succeeded, comes after as many as succeeded before it. */
  lemma {:induction false} KeptAre(rs: seq<Reading>, ok: seq<bool>, k: nat)
    requires |rs| == |ok|
    ensures |Kept(rs, ok)| == Trues(ok)
    ensures k < |ok| && ok[k] ==> Trues(ok[..k]) < Trues(ok) && Kept(rs, ok)[Trues(ok[..k])] == rs[k]
    decreases |rs|
  {
    if rs != [] {
      var n := |rs| - 1;
      KeptAre(rs[..n], ok[..n], k);
      if k < n {
        assert ok[..n][..k] == ok[..k];
      }
    }
  }

  // ---- What holds in every reachable state ----

  /** Each consumer has processed a prefix of what was inserted, in order; the database holds those whose insertion
      succeeded; and before the flag is raised nothing linked has been released. */
  lemma EveryExecution(sensors: seq<Sensor>, es: seq<Action>)
    requires Parsed(sensors)
    ensures var x := Exec(Boot(sensors), es);
            && x.handledD <= x.sys.history
            && x.handledS <= x.sys.history
            && |x.stored| == |x.handledS|
            && x.rows == Kept(x.handledS, x.stored)
            && (!x.flag ==> x.sys.live)
            && x.stored == DbOutcomes(Boot(sensors), es)
            && LateReads(Boot(sensors), es, DATAMGR) <= 1 && LateReads(Boot(sensors), es, SQLMGR) <= 1
  {
    BootInv(sensors);
    ExecInv(Boot(sensors), es, sensors);
    StoredAreOutcomes(Boot(sensors), es);
    LateIsCounted(Boot(sensors), es, DATAMGR);
    LateIsCounted(Boot(sensors), es, SQLMGR);
    var x := Exec(Boot(sensors), es);
    assert Accounted(x.sys, DATAMGR) && Accounted(x.sys, SQLMGR);
  }

  /** End to end: in every interleaving, the window of a known sensor holds the last readings with its id among those
      processed, padded with zeros; its timestamp is that of the latest one and its average goes with the window,
      whatever the database thread has done. */
  lemma SensorsFollowTheStream(sensors: seq<Sensor>, es: seq<Action>, id: SensorId)
    requires Parsed(sensors) && Lookup(sensors, id) < |sensors|
    ensures var x := Exec(Boot(sensors), es);
            && x.handledD <= x.sys.history && |x.sensors| == |sensors|
            && var after := x.sensors[Lookup(sensors, id)];
               var mine := With(x.handledD, id);
               && after.window == Padded(Values(mine), RUN_AVG_LENGTH)
               && (mine != [] ==> after.lastMod == mine[|mine| - 1].ts && after.avg == Average(after.window))
  {
    EveryExecution(sensors, es);
    BootInv(sensors);
    ExecInv(Boot(sensors), es, sensors);
    WindowIsLatestReadings(sensors, Exec(Boot(sensors), es).handledD, id, RUN_AVG_LENGTH);
  }

  lemma {:induction false} KeptAll(rs: seq<Reading>, ok: seq<bool>)
    requires |rs| == |ok| && forall i :: 0 <= i < |ok| ==> ok[i]
    ensures Kept(rs, ok) == rs
    decreases |rs|
  {
    if rs != [] {
      KeptAll(rs[..|rs| - 1], ok[..|ok| - 1]);
      assert rs == rs[..|rs| - 1] + [rs[|rs| - 1]];
    }
  }

  lemma SameLengthPrefixes(a: seq<Reading>, b: seq<Reading>, h: seq<Reading>)
    requires a <= h && b <= h && |a| == |b|
    ensures a == b
  {
  }

  /** Whenever both consumers have processed the same number of readings and no insertion has failed, replaying the
      database rows from the initial sensor list reproduces the data manager's sensors. */
  lemma ReplayReproducesSensors(sensors: seq<Sensor>, es: seq<Action>)
    requires Parsed(sensors)
    requires var x := Exec(Boot(sensors), es);
             |x.handledD| == |x.handledS| && forall i :: 0 <= i < |x.stored| ==> x.stored[i]
    ensures var x := Exec(Boot(sensors), es); x.sensors == Fold(sensors, x.rows)
  {
    var x := Exec(Boot(sensors), es);
    EveryExecution(sensors, es);
    SameLengthPrefixes(x.handledD, x.handledS, x.sys.history);
    KeptAll(x.handledS, x.stored);
    assert Outputs(x, sensors) by {
      BootInv(sensors);
      ExecInv(Boot(sensors), es, sensors);
    }
  }

  /** The gap between getinfo and sbuffer_read, in which the lock is not held, is harmless: in every reachable state a
      consumer about to enter the read without the flag receives the next reading of the history. */
  lemma ReadAfterGapSucceeds(sensors: seq<Sensor>, es: seq<Action>, w: Reader)
    requires Parsed(sensors)
    ensures var x := Exec(Boot(sensors), es);
            var pc := x.ThreadOf(w).pc;
            pc.Call? && !pc.term ==>
              && |x.sys.Got(w)| < |x.sys.history|
              && Read(x.sys.cells, w, false).code == SUCCESS
              && Read(x.sys.cells, w, false).data == Some(x.sys.history[|x.sys.Got(w)|])
  {
    var x := Exec(Boot(sensors), es);
    assert Consistent(x.sys) && ThreadOk(x, w) by {
      BootInv(sensors);
      ExecInv(Boot(sensors), es, sensors);
    }
    assert Accounted(x.sys, w);
    if x.ThreadOf(w).pc.Call? && !x.ThreadOf(w).pc.term {
      ReadIsPrivateDequeue(x.sys.cells, w, false);
    }
  }

  // ---- What the producer has put in ----

  /** The readings that a schedule produces, in order. */
  function Produced(es: seq<Action>): seq<Reading> {
    if es == [] then [] else (if es[0].Produce? then [es[0].r] else []) + Produced(es[1..])
  }

  /** The effect of one step on the history and the flag. */
  lemma NextHistory(x: World, e: Action)
    requires Windowed(x.sensors)
    ensures var y := Next(x, e);
            && (if x.sys.live && !x.flag && e.Produce? then y.sys.history == x.sys.history + [e.r]
                else y.sys.history == x.sys.history)
            && y.flag == (x.flag || (x.sys.live && e.Terminate?))
            && (!x.sys.live ==> !y.sys.live)
  {
    if e.Sched? {
      AdvanceIsPrivate(x, e.w, e.dbOk);
    }
  }

  /** The history is closed once the flag is up or the run has ended. */
  lemma {:induction false} ClosedHistory(x: World, es: seq<Action>)
    requires Windowed(x.sensors) && (x.flag || !x.sys.live)
    ensures var y := Exec(x, es); y.sys.history == x.sys.history && (y.flag || !y.sys.live)
    decreases |es|
  {
    if es != [] {
      NextHistory(x, es[0]);
      ClosedHistory(Next(x, es[0]), es[1..]);
    }
  }

  /** The history is what has been produced before the flag was raised or the run ended; all of what has been
      produced, if neither has happened. */
  lemma {:induction false} HistoryIsProduced(x: World, es: seq<Action>)
    requires Windowed(x.sensors)
    ensures var y, all := Exec(x, es), x.sys.history + Produced(es);
            y.sys.history <= all && (y.sys.live && !y.flag ==> y.sys.history == all)
    decreases |es|
  {
    if x.flag || !x.sys.live {
      ClosedHistory(x, es);
    } else if es != [] {
      var put, rest := if es[0].Produce? then [es[0].r] else [], Produced(es[1..]);
      assert Next(x, es[0]).sys.history == x.sys.history + put by { NextHistory(x, es[0]); }
      HistoryIsProduced(Next(x, es[0]), es[1..]);
      assert x.sys.history + Produced(es) == (x.sys.history + put) + rest by {
        ConcatAssociates(x.sys.history, put, rest);
      }
    }
  }

  // ---- Schedules ----

  lemma {:induction false} ExecJoin(x: World, es: seq<Action>, fs: seq<Action>)
    requires Windowed(x.sensors)
    ensures Exec(x, es + fs) == Exec(Exec(x, es), fs)
    decreases |es|
  {
    if es == [] {
      assert es + fs == fs;
    } else {
      assert (es + fs)[1..] == es[1..] + fs;
      ExecJoin(Next(x, es[0]), es[1..], fs);
    }
  }

  lemma ExecCons(x: World, e: Action, es: seq<Action>)
    requires Windowed(x.sensors)
    ensures Exec(x, [e] + es) == Exec(Next(x, e), es)
  {
    assert ([e] + es)[1..] == es;
  }

  predicate IsStepOf(e: Action, w: Reader) {
    e.Sched? && e.w == w
  }

  /** How often w is scheduled. */
  function TimesScheduled(es: seq<Action>, w: Reader): nat {
    if es == [] then 0 else (if IsStepOf(es[0], w) then 1 else 0) + TimesScheduled(es[1..], w)
  }

  lemma {:induction false} DeadExec(x: World, es: seq<Action>)
    requires Windowed(x.sensors) && !x.sys.live
    ensures Exec(x, es) == x
    decreases |es|
  {
    if es != [] {
      DeadExec(x, es[1..]);
    }
  }

  // ---- Progress of the consumers ----

  /** How many more steps of its own a consumer with pending readings needs, while the flag is down, to be through
      with its next reading. */
  function Effort(pc: Pc): nat {
    match pc
    case Holding(data) => if data.Some? then 1 else 7
    case Call(_, _) => 2
    case Load(_) => 3
    case Polled(code) => if code == SUCCESS then 4 else 7
    case Poll => 5
    case Top => 6
    case Waiting => 6
    case Done => 0
  }

  /** How many readings the consumer has been given or could be given, but has not processed. */
  ghost function Backlog(x: World, w: Reader): nat {
    |InFlight(x.ThreadOf(w))| + |Pending(x.sys.cells, w)|
  }

  lemma BacklogOf(x: World, w: Reader)
    ensures Backlog(x, w) == |InFlight(x.ThreadOf(w))| + |x.sys.cells| - FirstUnseen(x.sys.cells, w)
  {
  }

  lemma CallStep(x: World, w: Reader, dbOk: bool)
    requires Windowed(x.sensors) && x.ThreadOf(w).pc.Call?
    ensures var y, term := Advance(x, w, dbOk), x.ThreadOf(w).pc.term;
            && y.Handled(w) == x.Handled(w) && y.sys == BufferProtocol.Step(x.sys, Get(w, term))
            && y.ThreadOf(w).pc == Holding(Read(x.sys.cells, w, term).data) && y.ThreadOf(w).quit == x.ThreadOf(w).quit
  {
  }

  /** The read, with the flag down. */
  lemma CallProgresses(x: World, w: Reader, dbOk: bool)
    requires Windowed(x.sensors) && Protocol(x.sys.cells) && ThreadOk(x, w)
    requires x.sys.live && !x.flag && x.ThreadOf(w).pc.Call?
    ensures var y := Advance(x, w, dbOk);
            y.Handled(w) == x.Handled(w) && Backlog(y, w) == Backlog(x, w) && Effort(y.ThreadOf(w).pc) == 1
  {
    var answer := Read(x.sys.cells, w, false);
    assert answer.data.Some? && |Pending(x.sys.cells, w)| == 1 + |Pending(answer.cells, w)| by {
      ReadIsPrivateDequeue(x.sys.cells, w, false);
    }
    CallStep(x, w, dbOk);
    assert BufferProtocol.Step(x.sys, Get(w, false)).cells == answer.cells;
  }

  /** A step that is neither, with the flag down. */
  lemma LocalStepProgresses(x: World, w: Reader, dbOk: bool)
    requires Windowed(x.sensors) && ThreadOk(x, w) && !x.flag && Backlog(x, w) > 0
    requires !x.ThreadOf(w).pc.Call? && !x.ThreadOf(w).pc.Holding?
    ensures var y := Advance(x, w, dbOk);
            && y.Handled(w) == x.Handled(w) && Backlog(y, w) == Backlog(x, w)
            && Effort(y.ThreadOf(w).pc) == Effort(x.ThreadOf(w).pc) - 1 > 0
  {
    BacklogOf(x, w);
  }

  /** A step of its own, with the flag down: the consumer gets through with a reading, or comes closer to that. */
  lemma OwnStepProgresses(x: World, w: Reader, dbOk: bool)
    requires Windowed(x.sensors) && Protocol(x.sys.cells) && ThreadOk(x, w)
    requires x.sys.live && !x.flag && Backlog(x, w) > 0
    ensures var y := Advance(x, w, dbOk);
            var pc, pc' := x.ThreadOf(w).pc, y.ThreadOf(w).pc;
            if Effort(pc) == 1
            then |y.Handled(w)| == |x.Handled(w)| + 1 && Backlog(y, w) == Backlog(x, w) - 1 && Effort(pc') == 6
            else |y.Handled(w)| == |x.Handled(w)| && Backlog(y, w) == Backlog(x, w) && Effort(pc') == Effort(pc) - 1
  {
    if x.ThreadOf(w).pc.Call? {
      CallProgresses(x, w, dbOk);
    } else if x.ThreadOf(w).pc.Holding? {
      HoldingStep(x, w, dbOk);
    } else {
      LocalStepProgresses(x, w, dbOk);
    }
  }

  /** A step of somebody else takes nothing from the consumer. */
  lemma OthersLeaveBacklog(x: World, e: Action, w: Reader)
    requires Windowed(x.sensors) && Protocol(x.sys.cells)
    requires !(e.Sched? && e.w == w)
    ensures var y := Next(x, e);
            && y.ThreadOf(w) == x.ThreadOf(w) && y.Handled(w) == x.Handled(w) && Backlog(y, w) >= Backlog(x, w)
  {
    match e
    case Produce(r) => OthersOnlyAppend(x.sys, Put(r), w);
    case Terminate =>
    case Sched(v, dbOk) =>
      AdvanceIsPrivate(x, v, dbOk);
      assert v.Other() == w;
      if x.ThreadOf(v).pc.Call? {
        OthersOnlyAppend(x.sys, Get(v, x.ThreadOf(v).pc.term), w);
      }
  }

  lemma {:induction false} FlagStaysUp(x: World, es: seq<Action>)
    requires Windowed(x.sensors) && x.flag
    ensures Exec(x, es).flag
    decreases |es|
  {
    if es != [] {
      FlagStaysUp(Next(x, es[0]), es[1..]);
    }
  }

  /** How often the consumer has to be scheduled, while the flag is down, to get through with n readings. */
  function Need(pc: Pc, n: nat): nat {
    if n == 0 then 0 else Effort(pc) + 6 * (n - 1)
  }

  lemma HandledGrows(x: World, w: Reader, dbOk: bool)
    requires Windowed(x.sensors)
    ensures x.Handled(w) <= Advance(x, w, dbOk).Handled(w)
  {
    if x.ThreadOf(w).pc.Holding? {
      HoldingStep(x, w, dbOk);
    }
  }

  lemma NeedAtMost(pc: Pc, n: nat)
    ensures Need(pc, n) <= 6 * n + 1
  {
  }

  /** One step brings the consumer closer to being through with n readings: m of them are still to be dealt with. */
  lemma StepProgresses(x: World, e: Action, w: Reader, n: nat) returns (m: nat)
    requires Windowed(x.sensors) && Protocol(x.sys.cells) && ThreadOk(x, w) && x.sys.live && !x.flag
    requires n <= Backlog(x, w)
    ensures var y := Next(x, e);
            && |y.Handled(w)| + m >= |x.Handled(w)| + n && m <= Backlog(y, w)
            && Need(y.ThreadOf(w).pc, m) + (if IsStepOf(e, w) && n > 0 then 1 else 0) <= Need(x.ThreadOf(w).pc, n)
  {
    m := n;
    if IsStepOf(e, w) {
      if n > 0 {
        OwnStepProgresses(x, w, e.dbOk);
        m := if Effort(x.ThreadOf(w).pc) == 1 then n - 1 else n;
      } else {
        HandledGrows(x, w, e.dbOk);
      }
    } else {
      OthersLeaveBacklog(x, e, w);
    }
  }

  /** Progress of a consumer that is scheduled: along any interleaving that ends with the flag still down, wherever
      in its loop the consumer is at the start, it gets through with n of the readings that are waiting for it, if
      it is scheduled six times for each of them, and at most once more. */
  lemma {:induction false} ScheduledConsumerDrains(x: World, es: seq<Action>, w: Reader, n: nat, initial: seq<Sensor>)
    requires Windowed(x.sensors) && Inv(x, initial) && !Exec(x, es).flag
    requires n <= Backlog(x, w)
    requires TimesScheduled(es, w) >= Need(x.ThreadOf(w).pc, n)
    ensures |Exec(x, es).Handled(w)| >= |x.Handled(w)| + n
    decreases |es|
  {
    assert !x.flag by {
      if x.flag {
        FlagStaysUp(x, es);
      }
    }
    if es != [] {
      var m := StepProgresses(x, es[0], w, n);
      NextInv(x, es[0], initial);
      ScheduledConsumerDrains(Next(x, es[0]), es[1..], w, m, initial);
    }
  }

  lemma BacklogAccounts(x: World, w: Reader, initial: seq<Sensor>)
    requires Windowed(x.sensors) && Inv(x, initial)
    ensures |x.Handled(w)| + Backlog(x, w) == |x.sys.history|
    ensures x.Handled(w) <= x.sys.history
  {
    assert ThreadOk(x, w) && Accounted(x.sys, w);
  }

  lemma PrefixesOfOne(a: seq<Reading>, b: seq<Reading>, c: seq<Reading>)
    requires b <= c
    ensures a <= b ==> a <= c
    ensures a <= c && |a| <= |b| ==> a <= b
  {
  }

  lemma {:induction false} HistoryGrows(x: World, es: seq<Action>)
    requires Windowed(x.sensors)
    ensures x.sys.history <= Exec(x, es).sys.history
    decreases |es|
  {
    if es != [] {
      var y := Next(x, es[0]);
      assert x.sys.history <= y.sys.history by { NextHistory(x, es[0]); }
      HistoryGrows(y, es[1..]);
      PrefixesOfOne(x.sys.history, y.sys.history, Exec(y, es[1..]).sys.history);
    }
  }

  /** Whatever has been inserted at some moment, a consumer has processed once it has been scheduled six times for
      each of the readings that it had then not processed, and once more, in any interleaving and as long as the
      flag is down. */
  lemma InsertedIsProcessed(sensors: seq<Sensor>, es: seq<Action>, more: seq<Action>, w: Reader)
    requires Parsed(sensors)
    requires var x := Exec(Boot(sensors), es);
             && !Exec(x, more).flag
             && TimesScheduled(more, w) > 6 * (|x.sys.history| - |x.Handled(w)|)
    ensures var x := Exec(Boot(sensors), es); x.sys.history <= Exec(x, more).Handled(w)
  {
    var x := Exec(Boot(sensors), es);
    var y := Exec(x, more);
    assert Inv(x, sensors) && Inv(y, sensors) by {
      BootInv(sensors);
      ExecInv(Boot(sensors), es, sensors);
      ExecInv(x, more, sensors);
    }
    BacklogDrains(x, more, w, sensors);
  }

  lemma BacklogDrains(x: World, more: seq<Action>, w: Reader, initial: seq<Sensor>)
    requires Windowed(x.sensors) && Inv(x, initial) && Inv(Exec(x, more), initial) && !Exec(x, more).flag
    requires TimesScheduled(more, w) > 6 * (|x.sys.history| - |x.Handled(w)|)
    ensures x.sys.history <= Exec(x, more).Handled(w)
  {
    var y := Exec(x, more);
    assert |y.Handled(w)| >= |x.sys.history| by {
      BacklogAccounts(x, w, initial);
      NeedAtMost(x.ThreadOf(w).pc, Backlog(x, w));
      ScheduledConsumerDrains(x, more, w, Backlog(x, w), initial);
    }
    assert y.Handled(w) <= y.sys.history by { BacklogAccounts(y, w, initial); }
    assert x.sys.history <= y.sys.history by { HistoryGrows(x, more); }
    PrefixesOfOne(x.sys.history, y.Handled(w), y.sys.history);
  }

  // ---- Termination of the consumers ----

  /** How many more steps of its own a consumer makes at most, once the flag is up. */
  function StepsLeft(t: Thread): nat {
    match t.pc
    case Done => 0
    case Top => if t.quit then 1 else 7
    case Holding(_) => if t.quit then 2 else 8
    case Call(_, _) => if t.quit then 3 else 9
    case Load(_) => if t.quit then 4 else 10
    case Polled(_) => if t.quit then 5 else 11
    case Poll => if t.quit then 6 else 12
    case Waiting => 7
  }

  lemma OwnStepsDecrease(x: World, w: Reader, dbOk: bool)
    requires Windowed(x.sensors) && x.flag
    ensures var before, after := StepsLeft(x.ThreadOf(w)), StepsLeft(Advance(x, w, dbOk).ThreadOf(w));
            if before > 0 then after < before else after == before
  {
  }

  lemma StepsLeftDecreases(x: World, e: Action, w: Reader)
    requires Windowed(x.sensors) && x.sys.live && x.flag
    ensures var y := Next(x, e);
            && y.flag
            && if IsStepOf(e, w) && StepsLeft(x.ThreadOf(w)) > 0
               then StepsLeft(y.ThreadOf(w)) < StepsLeft(x.ThreadOf(w))
               else StepsLeft(y.ThreadOf(w)) == StepsLeft(x.ThreadOf(w))
  {
    if e.Sched? {
      AdvanceIsPrivate(x, e.w, e.dbOk);
      if e.w == w {
        OwnStepsDecrease(x, w, e.dbOk);
      } else {
        assert e.w.Other() == w;
      }
    }
  }

  /** Once the flag is up, a consumer that is scheduled twelve times has left its loop, unless the run has ended
      with the release of a linked node. */
  lemma {:induction false} FlagStopsConsumers(x: World, es: seq<Action>, w: Reader)
    requires Windowed(x.sensors) && x.flag
    requires TimesScheduled(es, w) >= StepsLeft(x.ThreadOf(w))
    ensures var y := Exec(x, es); !y.sys.live || y.ThreadOf(w).pc == Done
    decreases |es|
  {
    if es != [] {
      if x.sys.live {
        StepsLeftDecreases(x, es[0], w);
      }
      if x.sys.live {
        FlagStopsConsumers(Next(x, es[0]), es[1..], w);
      } else {
        DeadExec(x, es);
      }
    }
  }
}
