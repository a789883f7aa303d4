/** The executions of the threads as schedules of buffer operations, and the heap-level buffer driven by them. */
module PipelineRuns {
  import opened Config
  import opened BufferSpec
  import opened BufferProtocol
  import opened SensorSpec
  import opened SensorStream
  import opened Pipeline
  import SBuffer
  import SBufferRuns

  /** The buffer operation that a step consists of, if it is one. */
  function OpOf(x: World, e: Action): seq<Op> {
    if !x.sys.live then []
    else match e
      case Produce(r) => if x.flag then [] else [Put(r)]
      case Terminate => []
      case Sched(w, _) =>
        match x.ThreadOf(w).pc
        case Poll => [Info(w)]
        case Call(_, term) => [Get(w, term)]
        case _ => []
  }

  function OpsOf(x: World, es: seq<Action>): seq<Op>
    requires Windowed(x.sensors)
    decreases |es|
  {
    if es == [] then [] else OpOf(x, es[0]) + OpsOf(Next(x, es[0]), es[1..])
  }

  lemma OneOp(s: Sys, op: Op)
    ensures Run(s, [op]) == Step(s, op)
    ensures Stranded(s, [op]) == if Strands(s, op) then 1 else 0
  {
    assert [op][1..] == [];
  }

  lemma {:induction false} RunJoin(s: Sys, ops: seq<Op>, more: seq<Op>)
    ensures Run(s, ops + more) == Run(Run(s, ops), more)
    ensures Stranded(s, ops + more) == Stranded(s, ops) + Stranded(Run(s, ops), more)
    decreases |ops|
  {
    if ops == [] {
      assert ops + more == more;
    } else {
      assert (ops + more)[1..] == ops[1..] + more;
      RunJoin(Step(s, ops[0]), ops[1..], more);
    }
  }

  lemma LoneSeenHead(cells: seq<Cell>, w: Reader)
    requires CleansHead(cells) && |cells| == 1
    ensures Pending(cells, w) == []
  {
    assert cells[0].SeenBy(w);
    FirstUnseenIs(cells, w, 1);
  }

  /** A consumer that enters its read without the flag has a reading to receive, so it does not strand the head. */
  lemma CallStrandsNone(x: World, w: Reader)
    requires ThreadOk(x, w) && x.ThreadOf(w).pc.Call?
    ensures !StrandsHead(x.sys.cells, x.ThreadOf(w).pc.term)
  {
    if StrandsHead(x.sys.cells, x.ThreadOf(w).pc.term) {
      LoneSeenHead(x.sys.cells, w);
    }
  }

  /** A step does to the buffer what its operation does. */
  lemma StepIsOp(x: World, e: Action)
    requires Windowed(x.sensors) && ThreadOk(x, DATAMGR) && ThreadOk(x, SQLMGR)
    ensures Run(x.sys, OpOf(x, e)) == Next(x, e).sys
    ensures Stranded(x.sys, OpOf(x, e)) == 0
  {
    if OpOf(x, e) != [] {
      OneOp(x.sys, OpOf(x, e)[0]);
    }
    if e.Sched? {
      AdvanceMovesSys(x, e.w, e.dbOk);
      if x.ThreadOf(e.w).pc.Call? {
        CallStrandsNone(x, e.w);
      }
    }
  }

  lemma {:induction false} ExecIsRun(x: World, es: seq<Action>, initial: seq<Sensor>)
    requires Windowed(x.sensors) && Inv(x, initial)
    ensures Run(x.sys, OpsOf(x, es)) == Exec(x, es).sys
    ensures Stranded(x.sys, OpsOf(x, es)) == 0
    decreases |es|
  {
    if es != [] {
      NextInv(x, es[0], initial);
      StepIsOp(x, es[0]);
      ExecIsRun(Next(x, es[0]), es[1..], initial);
      RunJoin(x.sys, OpOf(x, es[0]), OpsOf(Next(x, es[0]), es[1..]));
    }
  }

  /** Every execution of the threads is a schedule of buffer operations in which no read strands the head; it is
      safe if and only if the execution ends live. */
  lemma ExecutionIsSchedule(sensors: seq<Sensor>, es: seq<Action>)
    requires Parsed(sensors)
    ensures var x, ops := Exec(Boot(sensors), es), OpsOf(Boot(sensors), es);
            && Run(INIT, ops) == x.sys
            && Stranded(INIT, ops) == 0
            && (Safe(INIT, ops) <==> x.sys.live)
  {
    BootInv(sensors);
    ExecIsRun(Boot(sensors), es, sensors);
    LiveIffSafe(INIT, OpsOf(Boot(sensors), es));
  }

  /** The heap buffer used by the threads: in every execution that ends live it hands out what they receive, and its
      end releases everything that was ever obtained. */
  method ExecuteThreads(sensors: seq<Sensor>, es: seq<Action>)
    returns (b: SBuffer.SBuffer, gotD: seq<Reading>, gotS: seq<Reading>)
    requires Parsed(sensors) && Exec(Boot(sensors), es).sys.live
    ensures gotD == Exec(Boot(sensors), es).sys.gotD && gotS == Exec(Boot(sensors), es).sys.gotS
    ensures b.freed == b.obtained
  {
    ExecutionIsSchedule(sensors, es);
    b, gotD, gotS := SBufferRuns.Execute(OpsOf(Boot(sensors), es));
    b.Destroy();
  }
}
