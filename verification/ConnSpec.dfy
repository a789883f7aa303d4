/** One poll round of the connection manager on values (connmgr.c:92-221). Poll results, accepted sockets,
    received readings and the clock are inputs. */
module ConnSpec {
  import opened Config
  import opened ListSpec

  /** Identity of a socket object; accept never returns the same one twice. */
  type Sock = int

  /** An element of the connection list. The server, at index 0, uses only the first two fields. 'taken' is the read
      position of the socket: how many readings have been received from it. */
  datatype Conn = Conn(sock: Sock, lastMod: int, id: SensorId, temp: real, ts: int, taken: nat)

  function NewConn(sock: Sock, now: int): Conn {
    Conn(sock, now, 0, 0.0, 0, 0)
  }

  /** What the next receive on the socket delivers. */
  function Incoming(w: World, c: Conn): Reading {
    w.sent(c.sock, c.taken)
  }

  /** A reading has been received: it overwrites all fields but the socket, whose read position moves on. */
  function Updated(c: Conn, now: int, r: Reading): Conn {
    Conn(c.sock, now, r.id, r.value, r.ts, c.taken + 1)
  }

  /** A slot of poll_list; calloc leaves it empty. */
  datatype Slot = Slot(fd: Option<Sock>, readable: bool, hangup: bool)

  const EMPTY_SLOT: Slot := Slot(None, false, false)

  /** What does not change during a run: the time-out, the answer of the n-th call of time(), and the n-th
      reading sent on each connection. */
  datatype World = World(timeout: int, clock: nat -> int, sent: (Sock, nat) -> Reading)

  datatype Event = Event(readable: bool, hangup: bool)

  /** What one round meets: the events poll reports for each slot, and the outcome of an accept. */
  datatype Input = Input(events: nat -> Event, accepted: Option<Sock>)

  datatype Visit = Visit(index: nat, sock: Sock, slot: Slot)

  /** The variables of the loop, with the histories the properties speak of: sockets accepted and closed, readings
      inserted into the buffer with the connection they came from, all values given to the server's last_mod,
      the time at which the loop quits, and the visits of the current round. */
  datatype State = State(
    conns: seq<Conn>,
    counter: int,
    quit: bool,
    ticks: nat,
    accepted: seq<Sock>,
    closed: seq<Sock>,
    log: seq<(Sock, Reading)>,
    marks: seq<int>,
    quitAt: int,
    visits: seq<Visit>
  )

  function Now(w: World, s: State): int {
    w.clock(s.ticks)
  }

  function Tick(s: State): State {
    s.(ticks := s.ticks + 1)
  }

  /** server_node->last_mod = time(NULL) */
  function TouchServer(w: World, s: State): State
    requires s.conns != []
  {
    Tick(s.(conns := s.conns[0 := s.conns[0].(lastMod := Now(w, s))], marks := s.marks + [Now(w, s)]))
  }

  /** A sensor connection is closed and removed. */
  function Drop(w: World, s: State, i: nat): State
    requires 0 < i < |s.conns|
  {
    TouchServer(w, s.(conns := RemoveAt(s.conns, i), closed := s.closed + [s.conns[i].sock]))
  }

  /** The listening socket is readable. */
  function Accept(w: World, s: State, accepted: Option<Sock>): State
    requires s.conns != []
  {
    match accepted
    case None => TouchServer(w, s)
    case Some(x) =>
      TouchServer(w, Tick(s.(conns := s.conns + [NewConn(x, Now(w, s))], accepted := s.accepted + [x])))
  }

  /** The readings of the log that came from this connection. */
  function From(log: seq<(Sock, Reading)>, sock: Sock): seq<Reading> {
    if log == [] then [] else (if log[0].0 == sock then [log[0].1] else []) + From(log[1..], sock)
  }

  /** A sensor connection is readable: one reading is received and inserted into the buffer. */
  function Receive(w: World, s: State, i: nat): State
    requires 0 < i < |s.conns|
  {
    var c := s.conns[i];
    var r := Incoming(w, c);
    Tick(s.(conns := s.conns[i := Updated(c, Now(w, s), r)], log := s.log + [(c.sock, r)]))
  }

  /** With only the server left: quit if it has been inactive for longer than the time-out. */
  function CheckIdle(w: World, s: State): State
    requires s.conns != []
  {
    if |s.conns| != 1 then s
    else if Now(w, s) - s.conns[0].lastMod > w.timeout then Tick(s.(quit := true, quitAt := Now(w, s)))
    else Tick(s.(counter := s.counter - 1))
  }

  predicate Expired(w: World, s: State, i: nat)
    requires i < |s.conns|
  {
    i != 0 && Now(w, s) - s.conns[i].lastMod > w.timeout
  }

  /** The body of the inner loop for index i; the flag says whether it breaks off the round. No hang-up is ever
      reported for the listening socket. */
  function Body(w: World, s: State, i: nat, slot: Slot, accepted: Option<Sock>): (r: (State, bool))
    requires i < |s.conns| && (i == 0 ==> !slot.hangup)
    ensures r.0.conns != []
    ensures |r.0.conns| <= |s.conns| + (if i == 0 then 1 else 0)
  {
    var s0 := s.(visits := s.visits + [Visit(i, s.conns[i].sock, slot)]);
    if Expired(w, s0, i) then (Drop(w, Tick(s0), i), true)
    else
      var s1 := if i != 0 then Tick(s0) else s0;
      if slot.hangup then (Drop(w, s1, i), true)
      else
        var s2 :=
          if !slot.readable then s1
          else if i == 0 then Accept(w, s1, accepted)
          else Receive(w, s1, i);
        (CheckIdle(w, s2), false)
  }

  /** The loop quits only with the server alone in the list. */
  lemma QuitsAlone(w: World, s: State, i: nat, slot: Slot, accepted: Option<Sock>)
    requires i < |s.conns| && (i == 0 ==> !slot.hangup) && !s.quit
    ensures var t := Body(w, s, i, slot, accepted).0; t.quit ==> |t.conns| == 1
  {
  }

  /** The inner loop from index i on. The slots always reach one place beyond the list while index 0 is
      still to be visited, so every access to poll_list is in bounds. */
  function Loop(w: World, s: State, i: nat, slots: seq<Slot>, accepted: Option<Sock>): (t: State)
    requires s.conns != [] && |s.conns| + (if i == 0 then 1 else 0) <= |slots|
    requires !slots[0].hangup
    ensures t.conns != []
    decreases |slots| - i
  {
    if i >= |s.conns| then s
    else
      var (t, broken) := Body(w, s, i, slots[i], accepted);
      if broken then t else Loop(w, t, i + 1, slots, accepted)
  }

  /** poll_list after poll(): one slot per connection, and one more that stays empty. */
  function Slots(conns: seq<Conn>, events: nat -> Event): (r: seq<Slot>)
    ensures |r| == |conns| + 1
  {
    seq(|conns|, i requires 0 <= i < |conns| => Slot(Some(conns[i].sock), events(i).readable, events(i).hangup))
    + [EMPTY_SLOT]
  }

  function Round(w: World, s: State, input: Input): (t: State)
    requires s.conns != [] && !input.events(0).hangup
    ensures t.conns != []
  {
    Loop(w, s.(visits := []), 0, Slots(s.conns, input.events), input.accepted)
  }

  /** Rounds are performed until the loop quits. */
  function Rounds(w: World, s: State, inputs: seq<Input>): (t: State)
    requires s.conns != [] && forall k :: 0 <= k < |inputs| ==> !inputs[k].events(0).hangup
    ensures t.conns != []
    decreases |inputs|
  {
    if inputs == [] || s.quit then s else Rounds(w, Round(w, s, inputs[0]), inputs[1..])
  }

  /** The state in which the loop is entered: the list holds the server alone. */
  function Start(w: World, server: Sock): State {
    State([NewConn(server, w.clock(1))], w.timeout, false, 2, [], [], [], [w.clock(1)], 0, [])
  }
}
