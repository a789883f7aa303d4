/** The connection manager as the producer of the pipeline: what the consumers see of each connection. */
module Gateway {
  import opened Config
  import C = ConnSpec
  import P = ConnProtocol
  import L = Pipeline
  import opened SensorSpec
  import opened SensorStream

  /** The readings of a log, in the order of insertion into the buffer. */
  function Inserted(log: seq<(C.Sock, Reading)>): (r: seq<Reading>)
    ensures |r| == |log|
  {
    seq(|log|, i requires 0 <= i < |log| => log[i].1)
  }

  lemma {:induction false} FromPrefix(log: seq<(C.Sock, Reading)>, m: nat, sock: C.Sock)
    requires m <= |log|
    ensures C.From(log[..m], sock) <= C.From(log, sock)
    decreases |log|
  {
    if m < |log| {
      var n := |log| - 1;
      assert log == log[..n] + [log[n]];
      P.FromAppend(log[..n], log[n], sock);
      assert log[..n][..m] == log[..m];
      FromPrefix(log[..n], m, sock);
    } else {
      assert log[..m] == log;
    }
  }

  /** The connection manager is the producer of these threads: what they have been given so far is the first part of
      what it has inserted. */
  ghost predicate ProducedBy(es: seq<L.Action>, log: seq<(C.Sock, Reading)>) {
    L.Produced(es) <= Inserted(log)
  }

  lemma ProducedByMore(es: seq<L.Action>, log: seq<(C.Sock, Reading)>, more: seq<(C.Sock, Reading)>)
    requires ProducedBy(es, log) && log <= more
    ensures ProducedBy(es, more)
  {
    assert Inserted(log) <= Inserted(more);
    L.PrefixesOfOne(L.Produced(es), Inserted(log), Inserted(more));
  }

  lemma HandledIsPrefix(log: seq<(C.Sock, Reading)>, sensors: seq<Sensor>, es: seq<L.Action>, reader: Reader)
    requires L.Parsed(sensors) && ProducedBy(es, log)
    ensures var handled := L.Exec(L.Boot(sensors), es).Handled(reader);
            |handled| <= |log| && handled == Inserted(log[..|handled|])
  {
    var x := L.Exec(L.Boot(sensors), es);
    L.EveryExecution(sensors, es);
    L.HistoryIsProduced(L.Boot(sensors), es);
    assert [] + L.Produced(es) == L.Produced(es);
    L.PrefixesOfOne(x.sys.history, L.Produced(es), Inserted(log));
    L.PrefixesOfOne(x.Handled(reader), x.sys.history, Inserted(log));
    assert Inserted(log)[..|x.Handled(reader)|] == Inserted(log[..|x.Handled(reader)|]);
  }

  /** From socket to consumer, for threads that have been given what the connection manager had inserted when its run
      ended, or the first part of that: each consumer has processed a prefix of the merged stream, and what it has
      processed of any one connection is exactly what that connection sent first, in the order it was sent. */
  lemma ConsumersKeepConnectionOrder(w: C.World, server: C.Sock, inputs: seq<C.Input>,
                                     sensors: seq<Sensor>, es: seq<L.Action>, reader: Reader, sock: C.Sock)
    requires P.Monotone(w.clock)
    requires forall k :: 0 <= k < |inputs| ==> !inputs[k].events(0).hangup
    requires P.RunFits(w, C.Start(w, server), inputs, server)
    requires L.Parsed(sensors)
    requires ProducedBy(es, C.Rounds(w, C.Start(w, server), inputs).log)
    ensures var log := C.Rounds(w, C.Start(w, server), inputs).log;
            var handled := L.Exec(L.Boot(sensors), es).Handled(reader);
            && |handled| <= |log|
            && handled == Inserted(log[..|handled|])
            && var mine := C.From(log[..|handled|], sock);
               forall j :: 0 <= j < |mine| ==> mine[j] == w.sent(sock, j)
  {
    var log := C.Rounds(w, C.Start(w, server), inputs).log;
    HandledIsPrefix(log, sensors, es, reader);
    P.EveryRunIsGood(w, inputs, server);
    FromPrefix(log, |L.Exec(L.Boot(sensors), es).Handled(reader)|, sock);
  }

  /** The same at any moment of the run, after n visits of its k-th round: each consumer has processed a prefix of
      what the connection manager has inserted by then, and of any one connection exactly what it sent first, in
      order. */
  lemma ConsumersKeepOrderAtAnyMoment(w: C.World, server: C.Sock, inputs: seq<C.Input>, k: nat, n: nat,
                                      sensors: seq<Sensor>, es: seq<L.Action>, reader: Reader, sock: C.Sock)
    requires P.Monotone(w.clock)
    requires forall j :: 0 <= j < |inputs| ==> !inputs[j].events(0).hangup
    requires P.RunFits(w, C.Start(w, server), inputs, server) && k < |inputs|
    requires L.Parsed(sensors)
    requires ProducedBy(es, P.Moment(w, C.Start(w, server), inputs, k, n).log)
    ensures var log := P.Moment(w, C.Start(w, server), inputs, k, n).log;
            var handled := L.Exec(L.Boot(sensors), es).Handled(reader);
            && |handled| <= |log|
            && handled == Inserted(log[..|handled|])
            && var mine := C.From(log[..|handled|], sock);
               forall j :: 0 <= j < |mine| ==> mine[j] == w.sent(sock, j)
  {
    var now := P.Moment(w, C.Start(w, server), inputs, k, n).log;
    var end := C.Rounds(w, C.Start(w, server), inputs).log;
    var m := |L.Exec(L.Boot(sensors), es).Handled(reader)|;
    P.MomentLog(w, C.Start(w, server), inputs, k, n);
    HandledIsPrefix(now, sensors, es, reader);
    ProducedByMore(es, now, end);
    ConsumersKeepConnectionOrder(w, server, inputs, sensors, es, reader, sock);
    assert now[..m] == end[..m];
  }

  /** And at any moment the window of a known sensor holds the last readings with its id among a prefix of what the
      connection manager has taken from its sockets by then. */
  lemma WindowFollowsSockets(w: C.World, server: C.Sock, inputs: seq<C.Input>, k: nat, n: nat,
                             sensors: seq<Sensor>, es: seq<L.Action>, id: SensorId)
    requires forall j :: 0 <= j < |inputs| ==> !inputs[j].events(0).hangup
    requires k < |inputs|
    requires L.Parsed(sensors) && Lookup(sensors, id) < |sensors|
    requires ProducedBy(es, P.Moment(w, C.Start(w, server), inputs, k, n).log)
    ensures var log := P.Moment(w, C.Start(w, server), inputs, k, n).log;
            var x := L.Exec(L.Boot(sensors), es);
            && |x.handledD| <= |log| && |x.sensors| == |sensors|
            && x.sensors[Lookup(sensors, id)].window
               == Padded(Values(With(Inserted(log[..|x.handledD|]), id)), RUN_AVG_LENGTH)
            && log <= C.Rounds(w, C.Start(w, server), inputs).log
  {
    P.MomentLog(w, C.Start(w, server), inputs, k, n);
    L.SensorsFollowTheStream(sensors, es, id);
    HandledIsPrefix(P.Moment(w, C.Start(w, server), inputs, k, n).log, sensors, es, DATAMGR);
  }
}
