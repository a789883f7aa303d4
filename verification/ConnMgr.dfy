/** The connection manager on the heap (connmgr.c): connection records updated in place, kept in a doubly
    linked list that grows and shrinks while a poll array is walked beside it. */
module ConnMgr {
  import opened Config
  import opened ListSpec
  import opened DPList
  import opened ConnSpec

  /** sensor_node_t with the read position of its socket; the server record uses only the first two fields. */
  class Record {
    var socket: Option<Sock>
    var lastMod: int
    var id: SensorId
    var temp: real
    var ts: int
    var taken: nat

    constructor (socket: Sock, lastMod: int)
      ensures Is(NewConn(socket, lastMod), true)
    {
      this.socket, this.lastMod := Some(socket), lastMod;
      id, temp, ts, taken := 0, 0.0, 0, 0;
    }

    ghost predicate Is(c: Conn, open: bool)
      reads this
    {
      && socket == (if open then Some(c.sock) else None)
      && lastMod == c.lastMod && id == c.id && temp == c.temp && ts == c.ts && taken == c.taken
    }

    /** tcp_receive, for the three fields of a reading: the next one of the socket's stream. */
    method TcpReceive(w: World) returns (r: Reading)
      requires socket.Some?
      modifies this`taken
      ensures r == w.sent(socket.value, old(taken)) && taken == old(taken) + 1
    {
      r := w.sent(socket.value, taken);
      taken := taken + 1;
    }

    /** At time 'now' the socket is readable: the reading received overwrites all fields but the socket. */
    method Receive(w: World, now: int, ghost c: Conn) returns (r: Reading)
      requires Is(c, true)
      modifies this`lastMod, this`id, this`temp, this`ts, this`taken
      ensures r == Incoming(w, c) && Is(Updated(c, now, r), true)
      ensures lastMod == now && id == r.id && temp == r.value && ts == r.ts && socket == old(socket)
    {
      lastMod := now;
      r := TcpReceive(w);
      id := r.id;
      temp := r.value;
      ts := r.ts;
    }
  }

  /** The codes tcp_close can return. */
  datatype TcpCode = TCP_NO_ERROR | TCP_SOCKET_ERROR

  /** The records are pairwise different objects and hold these values, except perhaps at index i. All sockets are
      open, but the server's only until the loop quits. */
  ghost predicate RepresentBut(records: seq<Record>, conns: seq<Conn>, quit: bool, i: int)
    reads records
  {
    && |records| == |conns|
    && Distinct(records)
    && forall j :: 0 <= j < |records| && j != i ==> records[j].Is(conns[j], j > 0 || !quit)
  }

  ghost predicate Represent(records: seq<Record>, conns: seq<Conn>, quit: bool)
    reads records
  {
    RepresentBut(records, conns, quit, -1)
  }

  lemma RepresentUpdated(records: seq<Record>, conns: seq<Conn>, quit: bool, i: nat, c: Conn)
    requires RepresentBut(records, conns, quit, i) && i < |records| && records[i].Is(c, i > 0 || !quit)
    ensures Represent(records, conns[i := c], quit)
  {
  }

  lemma RepresentRemoved(records: seq<Record>, conns: seq<Conn>, quit: bool, i: nat)
    requires RepresentBut(records, conns, quit, i) && 0 < i < |records|
    ensures Represent(RemoveAt(records, i), RemoveAt(conns, i), quit)
  {
  }

  lemma RepresentAppended(records: seq<Record>, conns: seq<Conn>, quit: bool, r: Record, c: Conn)
    requires Represent(records, conns, quit) && records != [] && r !in records && r.Is(c, true)
    ensures Represent(records + [r], conns + [c], quit)
  {
  }

  class Manager {
    const connections: List<Record>
    const server: Record
    var counter: int
    var quit: bool
    var ticks: nat                    // calls of time() so far
    var log: seq<(Sock, Reading)>     // the readings received and passed on
    ghost var closings: seq<Sock>     // the sockets that tcp_close really closed
    ghost var s: State                // the value of the whole
    ghost var Repr: set<object>       // this object, the list, its nodes and the records

    /** The fields agree with the value s; the list is not looked at. */
    ghost predicate Mirrors(records: seq<Record>)
      reads this`s, this`counter, this`quit, this`ticks, this`log, this`closings, records
    {
      && Represent(records, s.conns, s.quit)
      && records != [] && server == records[0]
      && counter == s.counter && quit == s.quit && ticks == s.ticks && log == s.log
      && closings == s.closed + if s.quit then [s.conns[0].sock] else []
    }

    ghost predicate Owns()
      reads this`Repr, connections`nodes
    {
      && this in Repr && connections in Repr
      && (forall n :: n in connections.nodes ==> n in Repr)
      && (forall e :: e in connections.Elements() ==> e in Repr)
    }

    ghost predicate Valid()
      reads this, connections, connections.nodes, connections.Elements()
    {
      Owns() && connections.Valid() && Mirrors(connections.Elements())
    }

    /** The listening socket has been opened; the list receives the server at index 0. The comparison callback is
        never used by this manager; it tells records apart. */
    constructor (w: World, socket: Sock)
      ensures fresh(Repr) && s == Start(w, socket)
      ensures Valid()
    {
      var record := new Record(socket, w.clock(1));
      var list := CreateList(record);
      connections, server := list, record;
      counter, quit, ticks, log, closings := w.timeout, false, 2, [], [];
      s := Start(w, socket);
      Repr := {this, list, record, list.nodes[0]};
    }

    static method CreateList(record: Record) returns (list: List<Record>)
      ensures fresh(list) && list.Valid() && list.Elements() == [record]
      ensures fresh(list.nodes[0])
    {
      list := new List<Record>((x: Record, y: Record) => if x == y then 0 else 1);
      list.InsertAtIndex(record, 0);
    }

    /** tcp_close: closing a null socket is an error and does nothing. */
    method TcpClose(c: Record) returns (code: TcpCode)
      modifies c`socket, this`closings
      ensures code == if old(c.socket).Some? then TCP_NO_ERROR else TCP_SOCKET_ERROR
      ensures c.socket == None
      ensures closings == old(closings) + if old(c.socket).Some? then [old(c.socket).value] else []
    {
      if c.socket == None {
        return TCP_SOCKET_ERROR;
      }
      closings := closings + [c.socket.value];
      c.socket := None;
      return TCP_NO_ERROR;
    }

    /** conn_free, the element_free callback: it closes the socket of the record once more. */
    method ConnFree(c: Record)
      modifies c`socket, this`closings
      ensures c.socket == None
      ensures closings == old(closings) + if old(c.socket).Some? then [old(c.socket).value] else []
    {
      var code := TcpClose(c);
    }

    /** server_node->last_mod = time(NULL) */
    method Touch(w: World, ghost records: seq<Record>)
      requires Mirrors(records)
      modifies this`ticks, this`s, server`lastMod
      ensures Mirrors(records)
      ensures s == TouchServer(w, old(s))
    {
      server.lastMod := w.clock(ticks);
      ticks := ticks + 1;
      RepresentUpdated(records, s.conns, s.quit, 0, s.conns[0].(lastMod := Now(w, s)));
      s := TouchServer(w, s);
    }

    method TouchValid(w: World)
      requires Valid()
      modifies this`ticks, this`s, server`lastMod
      ensures Valid()
      ensures s == TouchServer(w, old(s))
    {
      Touch(w, connections.Elements());
    }

    /** The loop closes the socket of the i-th record, which never fails. What remains is a list node to remove. */
    method CloseRecord(c: Record, ghost i: nat, ghost records: seq<Record>) returns (code: TcpCode)
      requires Mirrors(records) && !quit && 0 < i < |records| && c == records[i]
      modifies c`socket, this`closings, this`s
      ensures code == TCP_NO_ERROR && c.socket == None && Mirrors(RemoveAt(records, i))
      ensures s == old(s).(conns := RemoveAt(old(s).conns, i), closed := old(s).closed + [old(s).conns[i].sock])
    {
      code := TcpClose(c);
      RepresentRemoved(records, s.conns, s.quit, i);
      s := s.(conns := RemoveAt(s.conns, i), closed := s.closed + [s.conns[i].sock]);
    }

    /** The end of the removal of a record that the loop has closed: the callback closes the socket once more, without
        effect, and the node just unlinked is released. */
    method DisposeClosed(node: DPList.Node<Record>, ghost c: Record, ghost rest: seq<Record>)
      requires Owns() && Mirrors(rest) && connections.Elements() == rest
      requires connections.Detached(node) && Inverse(connections.nodes, connections.prevs)
      requires c == node.element && c !in rest && c.socket == None
      modifies connections`freed, connections`disposed, c`socket, this`closings
      ensures Valid()
      ensures connections.disposed == old(connections.disposed) + [c]
      ensures connections.freed == old(connections.freed) + {node}
    {
      ConnFree(node.element);
      connections.Release(node, true);
    }

    method DetachRecord(i: nat) returns (node: DPList.Node<Record>)
      requires Owns() && connections.Valid() && 0 < i < |connections.nodes|
      modifies connections`head, connections`nodes, connections`prevs, connections.nodes
      ensures Owns() && connections.Detached(node) && Inverse(connections.nodes, connections.prevs)
      ensures connections.nodes == RemoveAt(old(connections.nodes), i) && node == old(connections.nodes)[i]
      ensures connections.Elements() == RemoveAt(old(connections.Elements()), i)
    {
      node := connections.Detach(i);
    }

    /** dpl_remove_at_index, with the callback in its place, for a record that the loop has closed. The other fields
        already describe the shorter list. */
    method RemoveRecord(i: nat, ghost c: Record, ghost records: seq<Record>)
      requires Owns() && connections.Valid() && connections.Elements() == records && 0 < i < |records|
      requires Mirrors(RemoveAt(records, i)) && Distinct(records) && c == records[i] && c.socket == None
      modifies connections, connections.nodes, c`socket, this`closings
      ensures Valid() && connections.nodes == RemoveAt(old(connections.nodes), i)
      ensures connections.disposed == old(connections.disposed) + [c]
      ensures connections.freed == old(connections.freed) + {old(connections.nodes)[i]}
    {
      ghost var rest := RemoveAt(records, i);
      assert c !in rest;
      var node := DetachRecord(i);
      DisposeClosed(node, c, rest);
    }

    method CloseAndRemove(i: nat, c: Record)
      requires Valid() && !quit && 0 < i < |s.conns| && c == connections.Elements()[i]
      modifies this`closings, this`s, c`socket, connections, connections.nodes
      ensures Valid()
      ensures s == old(s).(conns := RemoveAt(old(s).conns, i), closed := old(s).closed + [old(s).conns[i].sock])
    {
      ghost var records := connections.Elements();
      var code := CloseRecord(c, i, records);
      RemoveRecord(i, c, records);
    }

    /** A connection that has timed out or hung up. */
    method DropConnection(w: World, i: nat)
      requires Valid() && !quit && 0 < i < |s.conns|
      modifies Repr
      ensures Valid() && Repr == old(Repr)
      ensures s == Drop(w, old(s), i)
    {
      var found := connections.GetElementAtIndex(i);
      CloseAndRemove(i, found.value);
      TouchValid(w);
    }

    /** A list node for a new record is linked at index dpl_size; the fields already describe the longer list. */
    method AppendRecord(record: Record, ghost records: seq<Record>)
      requires Owns() && connections.Valid() && connections.Elements() == records && Mirrors(records + [record])
      modifies this`Repr, connections, connections.nodes
      ensures fresh(Repr - old(Repr) - {record})
      ensures Valid() && connections.Elements() == records + [record]
    {
      connections.InsertLast(record);
      ghost var nodes, n := old(connections.nodes), connections.nodes[|records|];
      assert Mirrors(records + [record]) && connections.nodes == nodes + [n];
      Repr := Repr + {record, n};
      assert Owns();
    }

    /** A record for a new connection. */
    method CreateRecord(w: World, x: Sock, ghost records: seq<Record>) returns (record: Record)
      requires Mirrors(records) && !quit
      modifies this`ticks, this`s
      ensures fresh(record) && Mirrors(records + [record])
      ensures s == Tick(old(s).(conns := old(s).conns + [NewConn(x, Now(w, old(s)))],
                                accepted := old(s).accepted + [x]))
    {
      ghost var c := NewConn(x, Now(w, s));
      record := new Record(x, w.clock(ticks));
      ticks := ticks + 1;
      RepresentAppended(records, s.conns, s.quit, record, c);
      s := Tick(s.(conns := s.conns + [c], accepted := s.accepted + [x]));
    }

    /** A new connection is put at the end of the list. */
    method Admit(w: World, x: Sock)
      requires Valid() && !quit
      modifies this`ticks, this`s, this`Repr, connections, connections.nodes
      ensures Valid() && fresh(Repr - old(Repr))
      ensures s == Tick(old(s).(conns := old(s).conns + [NewConn(x, Now(w, old(s)))],
                                accepted := old(s).accepted + [x]))
    {
      ghost var records := connections.Elements();
      var record := CreateRecord(w, x, records);
      AppendRecord(record, records);
    }

    /** The listening socket is readable. */
    method AcceptConnection(w: World, accepted: Option<Sock>)
      requires Valid() && !quit
      modifies this`ticks, this`s, this`Repr, server`lastMod, connections, connections.nodes
      ensures Valid() && fresh(Repr - old(Repr))
      ensures s == Accept(w, old(s), accepted)
    {
      if accepted.Some? {
        Admit(w, accepted.value);
      }
      TouchValid(w);
    }

    /** A sensor connection is readable: a reading is received and passed on. */
    method ReceiveReading(w: World, c: Record, ghost i: nat, ghost records: seq<Record>)
      requires Mirrors(records) && 0 < i < |records| && c == records[i]
      modifies this`ticks, this`log, this`s, c
      ensures Mirrors(records)
      ensures s == Receive(w, old(s), i)
    {
      ghost var t := Receive(w, s, i);
      var reading := c.Receive(w, w.clock(ticks), s.conns[i]);
      RepresentUpdated(records, s.conns, s.quit, i, t.conns[i]);
      ticks := ticks + 1;
      log := log + [(c.socket.value, reading)];
      s := t;
    }

    /** With only the server left, the listening socket is closed and the loop quits, or it counts down. */
    method CheckInactivity(w: World, size: nat, ghost records: seq<Record>)
      requires Mirrors(records) && !quit && size == |records|
      modifies this`ticks, this`counter, this`quit, this`closings, this`s, server`socket
      ensures Mirrors(records)
      ensures s == CheckIdle(w, old(s))
    {
      if size == 1 {
        var now := w.clock(ticks);
        ticks := ticks + 1;
        if now - server.lastMod > w.timeout {
          var code := TcpClose(server);
          quit := true;
        } else {
          counter := counter - 1;
        }
      }
      s := CheckIdle(w, s);
    }

    /** A readable connection is served. */
    method ServeReadable(w: World, i: nat, searched: Record, accepted: Option<Sock>)
      requires Valid() && !quit && i < |s.conns| && searched == connections.Elements()[i]
      modifies Repr
      ensures Valid() && fresh(Repr - old(Repr)) && !quit
      ensures s == if i == 0 then Accept(w, old(s), accepted) else Receive(w, old(s), i)
    {
      if i == 0 {
        AcceptConnection(w, accepted);
      } else {
        ReceiveReading(w, searched, i, connections.Elements());
      }
    }

    method CheckSize(w: World)
      requires Valid() && !quit
      modifies this`ticks, this`counter, this`quit, this`closings, this`s, server`socket
      ensures Valid()
      ensures s == CheckIdle(w, old(s))
    {
      var size := connections.Size();
      CheckInactivity(w, size, connections.Elements());
    }

    /** The rest of the body of the inner loop, for a connection that is neither expired nor hung up. */
    method Serve(w: World, i: nat, searched: Record, readable: bool, accepted: Option<Sock>)
      requires Valid() && !quit && i < |s.conns| && searched == connections.Elements()[i]
      modifies Repr
      ensures Valid() && fresh(Repr - old(Repr))
      ensures s == CheckIdle(w, if !readable then old(s) else if i == 0 then Accept(w, old(s), accepted)
                                else Receive(w, old(s), i))
    {
      if readable {
        ServeReadable(w, i, searched, accepted);
      }
      CheckSize(w);
    }

    /** The visit of index i begins: for a sensor the time is read and compared. */
    method HasExpired(w: World, i: nat, searched: Record, slot: Slot) returns (expired: bool)
      requires Valid() && i < |s.conns| && searched == connections.Elements()[i]
      modifies this`ticks, this`s
      ensures Valid()
      ensures var s0 := old(s).(visits := old(s).visits + [Visit(i, old(s).conns[i].sock, slot)]);
              (s == if i != 0 then Tick(s0) else s0) && expired == Expired(w, s0, i)
    {
      s := s.(visits := s.visits + [Visit(i, s.conns[i].sock, slot)]);
      expired := false;
      if i != 0 {
        expired := w.clock(ticks) - searched.lastMod > w.timeout;
        ticks := ticks + 1;
        s := Tick(s);
      }
    }

    /** The body of the inner loop. */
    method VisitConnection(w: World, i: nat, slot: Slot, accepted: Option<Sock>) returns (broken: bool)
      requires Valid() && !quit && i < |s.conns| && (i == 0 ==> !slot.hangup)
      modifies Repr
      ensures Valid() && fresh(Repr - old(Repr))
      ensures (s, broken) == Body(w, old(s), i, slot, accepted)
    {
      var found := connections.GetElementAtIndex(i);
      var searched := found.value;
      var expired := HasExpired(w, i, searched, slot);
      if expired {
        DropConnection(w, i);
        return true;
      }
      if slot.hangup {
        DropConnection(w, i);
        return true;
      }
      Serve(w, i, searched, slot.readable, accepted);
      return false;
    }

    /** poll_list is allocated with one slot more than there are connections, and filled. */
    method Fill(size: nat) returns (pollList: array<Slot>)
      requires Valid() && !quit && size == |s.conns|
      ensures fresh(pollList) && pollList.Length == size + 1 && pollList[size] == EMPTY_SLOT
      ensures forall j :: 0 <= j < size ==> pollList[j] == Slot(Some(s.conns[j].sock), false, false)
    {
      pollList := new Slot[size + 1](_ => EMPTY_SLOT);
      pollList[0] := Slot(server.socket, false, false);
      for i := 1 to size
        invariant pollList[size] == EMPTY_SLOT
        invariant forall j :: 0 <= j < i ==> pollList[j] == Slot(Some(s.conns[j].sock), false, false)
      {
        var found := connections.GetElementAtIndex(i);
        pollList[i] := Slot(found.value.socket, false, false);
      }
    }

    /** The system reports the events of the connections. */
    method Poll(events: nat -> Event) returns (pollList: array<Slot>)
      requires Valid() && !quit
      ensures fresh(pollList) && pollList[..] == Slots(s.conns, events)
    {
      var size := connections.Size();
      pollList := Fill(size);
      for i := 0 to size
        invariant pollList[size] == EMPTY_SLOT
        invariant forall j :: i <= j < size ==> pollList[j] == Slot(Some(s.conns[j].sock), false, false)
        invariant forall j :: 0 <= j < i ==>
          pollList[j] == Slot(Some(s.conns[j].sock), events(j).readable, events(j).hangup)
      {
        pollList[i] := pollList[i].(readable := events(i).readable, hangup := events(i).hangup);
      }
    }

    /** One round. */
    method PollRound(w: World, input: Input)
      requires Valid() && !quit && !input.events(0).hangup
      modifies Repr
      ensures Valid() && fresh(Repr - old(Repr))
      ensures s == Round(w, old(s), input)
    {
      var pollList := Poll(input.events);
      s := s.(visits := []);
      Walk(w, pollList, input.accepted);
    }

    /** The walk along poll_list is at index i: what it will lead to, and that all further accesses are in bounds. */
    ghost predicate Walking(w: World, i: nat, slots: seq<Slot>, accepted: Option<Sock>, result: State)
      reads this`s, this`quit
    {
      && s.conns != [] && i <= |slots| && |s.conns| + (if i == 0 then 1 else 0) <= |slots| && !slots[0].hangup
      && (quit ==> |s.conns| == 1 && i > 0)
      && Loop(w, s, i, slots, accepted) == result
    }

    /** One step of the walk. */
    method WalkStep(w: World, i: nat, ghost slots: seq<Slot>, slot: Slot, accepted: Option<Sock>, ghost result: State)
      returns (broken: bool, size: nat)
      requires Valid() && i < |s.conns| && Walking(w, i, slots, accepted, result) && slot == slots[i]
      modifies Repr
      ensures Valid() && fresh(Repr - old(Repr)) && size == |s.conns|
      ensures if broken then s == result else Walking(w, i + 1, slots, accepted, result)
    {
      QuitsAlone(w, s, i, slot, accepted);
      broken := VisitConnection(w, i, slot, accepted);
      size := connections.Size();
    }

    /** The inner loop. Every access to poll_list is in bounds although the list changes while it is walked. */
    method Walk(w: World, pollList: array<Slot>, accepted: Option<Sock>)
      requires Valid() && !quit && |s.conns| < pollList.Length && !pollList[0].hangup && pollList !in Repr
      modifies Repr
      ensures Valid() && fresh(Repr - old(Repr))
      ensures s == Loop(w, old(s), 0, pollList[..], accepted)
    {
      ghost var slots := pollList[..];
      ghost var result := Loop(w, s, 0, slots, accepted);
      var i, broken := 0, false;
      var size := connections.Size();
      while !broken && i < size
        invariant Valid() && fresh(Repr - old(Repr)) && size == |s.conns|
        invariant if broken then s == result else Walking(w, i, slots, accepted, result)
        decreases |slots| - i, !broken
      {
        broken, size := WalkStep(w, i, slots, pollList[i], accepted, result);
        i := i + 1;
      }
    }

    /** The outer loop, for the inputs of as many rounds as there are. */
    method EventLoop(w: World, inputs: seq<Input>)
      requires Valid() && forall k :: 0 <= k < |inputs| ==> !inputs[k].events(0).hangup
      modifies Repr
      ensures Valid() && fresh(Repr - old(Repr))
      ensures s == Rounds(w, old(s), inputs)
    {
      var k := 0;
      while !quit && k < |inputs|
        invariant Valid() && k <= |inputs|
        invariant Rounds(w, old(s), inputs) == Rounds(w, s, inputs[k..])
        invariant fresh(Repr - old(Repr))
        decreases |inputs| - k
      {
        PollRound(w, inputs[k]);
        k := k + 1;
      }
    }

    /** connmgr_free_list(connections, false): every list node is released, none of the records is. */
    method FreeList()
      requires Valid()
      modifies connections
      ensures connections.nodes == [] && connections.freed == connections.obtained
      ensures connections.disposed == old(connections.disposed)
    {
      connections.Destroy(false);
    }
  }
}
