/** What every poll round, and every run of rounds, of the connection manager guarantees. */
module ConnProtocol {
  import opened Config
  import opened ListSpec
  import opened ConnSpec

  function Socks(conns: seq<Conn>): (r: seq<Sock>)
    ensures |r| == |conns|
  {
    seq(|conns|, i requires 0 <= i < |conns| => conns[i].sock)
  }

  /** The sockets of 'all', in their order, that are not in 'gone'. */
  function Without(all: seq<Sock>, gone: seq<Sock>): seq<Sock> {
    if all == [] then [] else (if all[0] in gone then [] else [all[0]]) + Without(all[1..], gone)
  }

  /** Bookkeeping of sockets: the list is the server followed by the accepted sockets that have not been
      closed, in accept order; no socket is closed twice, and only accepted ones are. */
  ghost predicate Balanced(s: State, server: Sock) {
    && s.conns != []
    && Socks(s.conns) == [server] + Without(s.accepted, s.closed)
    && Distinct(s.accepted) && server !in s.accepted
    && Distinct(s.closed)
    && (forall x :: x in s.closed ==> x in s.accepted)
  }

  /** The inputs of a round fit the state: accept returns a new socket, and no hang-up is reported for the server. */
  ghost predicate Fits(s: State, input: Input, server: Sock) {
    && !input.events(0).hangup
    && (input.accepted.Some? ==> input.accepted.value !in s.accepted && input.accepted.value != server)
  }

  lemma {:induction false} WithoutKeeps(all: seq<Sock>, gone: seq<Sock>)
    ensures forall x :: x in Without(all, gone) <==> x in all && x !in gone
  {
    if all != [] {
      WithoutKeeps(all[1..], gone);
    }
  }

  lemma {:induction false} WithoutAppend(all: seq<Sock>, x: Sock, gone: seq<Sock>)
    requires x !in gone
    ensures Without(all + [x], gone) == Without(all, gone) + [x]
  {
    if all != [] {
      assert (all + [x])[1..] == all[1..] + [x];
      WithoutAppend(all[1..], x, gone);
    }
  }

  lemma {:induction false} WithoutSame(all: seq<Sock>, gone: seq<Sock>, x: Sock)
    requires x !in all
    ensures Without(all, gone + [x]) == Without(all, gone)
  {
    if all != [] {
      WithoutSame(all[1..], gone, x);
    }
  }

  lemma RemoveFromCons(a: Sock, rest: seq<Sock>, i: nat)
    requires i <= |rest|
    ensures RemoveAt([a] + rest, i) == if i == 0 then rest else [a] + RemoveAt(rest, i - 1)
  {
    if i > 0 {
      assert ([a] + rest)[..i] == [a] + rest[..i - 1];
    }
  }

  /** Closing the i-th remaining socket removes exactly that one. */
  lemma {:induction false} WithoutOneMore(all: seq<Sock>, gone: seq<Sock>, i: nat, x: Sock)
    requires Distinct(all) && i < |Without(all, gone)| && x == Without(all, gone)[i]
    ensures Without(all, gone + [x]) == RemoveAt(Without(all, gone), i)
  {
    var a, tail := all[0], all[1..];
    var rest := Without(tail, gone);
    assert a !in tail && Distinct(tail);
    var gone' := gone + [x];
    assert a in gone' <==> a in gone || a == x;
    if a in gone {
      assert Without(all, gone) == rest && Without(all, gone') == Without(tail, gone');
      WithoutOneMore(tail, gone, i, x);
    } else {
      assert Without(all, gone) == [a] + rest;
      RemoveFromCons(a, rest, i);
      if i == 0 {
        assert Without(all, gone') == Without(tail, gone');
        WithoutSame(tail, gone, x);
      } else {
        assert x == rest[i - 1];
        assert x in tail by { WithoutKeeps(tail, gone); }
        assert Without(all, gone') == [a] + Without(tail, gone');
        WithoutOneMore(tail, gone, i - 1, x);
      }
    }
  }

  // ---- Conservation of sockets ----

  lemma TouchBalanced(w: World, s: State, server: Sock)
    requires Balanced(s, server)
    ensures Balanced(TouchServer(w, s), server)
  {
    assert Socks(TouchServer(w, s).conns) == Socks(s.conns);
  }

  lemma DropBalanced(w: World, s: State, i: nat, server: Sock)
    requires Balanced(s, server) && 0 < i < |s.conns|
    ensures Balanced(Drop(w, s, i), server)
  {
    var x := s.conns[i].sock;
    var rest := Without(s.accepted, s.closed);
    var t := s.(conns := RemoveAt(s.conns, i), closed := s.closed + [x]);
    assert Socks(s.conns)[i] == x && rest[i - 1] == x && rest[i - 1] in rest;
    assert x in s.accepted && x !in s.closed by { WithoutKeeps(s.accepted, s.closed); }
    assert Without(t.accepted, t.closed) == RemoveAt(rest, i - 1) by {
      WithoutOneMore(s.accepted, s.closed, i - 1, x);
    }
    assert Socks(t.conns) == [server] + RemoveAt(rest, i - 1) by {
      assert Socks(t.conns) == RemoveAt(Socks(s.conns), i);
      RemoveFromCons(server, rest, i);
    }
    TouchBalanced(w, t, server);
  }

  lemma AcceptBalanced(w: World, s: State, accepted: Option<Sock>, server: Sock)
    requires Balanced(s, server)
    requires accepted.Some? ==> accepted.value !in s.accepted && accepted.value != server
    ensures Balanced(Accept(w, s, accepted), server)
  {
    match accepted
    case None => TouchBalanced(w, s, server);
    case Some(x) =>
      var t := Tick(s.(conns := s.conns + [NewConn(x, Now(w, s))], accepted := s.accepted + [x]));
      WithoutAppend(s.accepted, x, s.closed);
      assert Socks(t.conns) == Socks(s.conns) + [x];
      TouchBalanced(w, t, server);
  }

  lemma ReceiveBalanced(w: World, s: State, i: nat, server: Sock)
    requires Balanced(s, server) && 0 < i < |s.conns|
    ensures Balanced(Receive(w, s, i), server)
  {
    assert Socks(Receive(w, s, i).conns) == Socks(s.conns);
  }

  lemma BalancedCarries(s: State, t: State, server: Sock)
    requires Balanced(s, server)
    requires t.conns == s.conns && t.accepted == s.accepted && t.closed == s.closed
    ensures Balanced(t, server)
  {
  }

  /** A readable connection is served. */
  lemma ServeBalanced(w: World, s: State, i: nat, accepted: Option<Sock>, server: Sock)
    requires Balanced(s, server) && i < |s.conns|
    requires i == 0 && accepted.Some? ==> accepted.value !in s.accepted && accepted.value != server
    ensures Balanced(if i == 0 then Accept(w, s, accepted) else Receive(w, s, i), server)
  {
    if i == 0 {
      AcceptBalanced(w, s, accepted, server);
    } else {
      ReceiveBalanced(w, s, i, server);
    }
  }

  lemma BodyBalanced(w: World, s: State, i: nat, slot: Slot, accepted: Option<Sock>, server: Sock)
    requires Balanced(s, server) && i < |s.conns| && (i == 0 ==> !slot.hangup)
    requires i == 0 && accepted.Some? ==> accepted.value !in s.accepted && accepted.value != server
    ensures Balanced(Body(w, s, i, slot, accepted).0, server)
  {
    var s0 := s.(visits := s.visits + [Visit(i, s.conns[i].sock, slot)]);
    var s1 := if i != 0 then Tick(s0) else s0;
    BalancedCarries(s, s1, server);
    if Expired(w, s0, i) || slot.hangup {
      DropBalanced(w, s1, i, server);
    } else {
      var s2 := if !slot.readable then s1 else if i == 0 then Accept(w, s1, accepted) else Receive(w, s1, i);
      assert Balanced(s2, server) by {
        if slot.readable {
          ServeBalanced(w, s1, i, accepted, server);
        }
      }
      BalancedCarries(s2, CheckIdle(w, s2), server);
    }
  }

  lemma {:induction false} LoopBalanced(w: World, s: State, i: nat, slots: seq<Slot>, accepted: Option<Sock>,
                                        server: Sock)
    requires Balanced(s, server)
    requires |s.conns| + (if i == 0 then 1 else 0) <= |slots| && !slots[0].hangup
    requires i == 0 && accepted.Some? ==> accepted.value !in s.accepted && accepted.value != server
    ensures Balanced(Loop(w, s, i, slots, accepted), server)
    decreases |slots| - i
  {
    if i < |s.conns| {
      BodyBalanced(w, s, i, slots[i], accepted, server);
      var (t, broken) := Body(w, s, i, slots[i], accepted);
      if !broken {
        LoopBalanced(w, t, i + 1, slots, accepted, server);
      }
    }
  }

  lemma RoundBalanced(w: World, s: State, input: Input, server: Sock)
    requires Balanced(s, server) && Fits(s, input, server)
    ensures Balanced(Round(w, s, input), server)
  {
    LoopBalanced(w, s.(visits := []), 0, Slots(s.conns, input.events), input.accepted, server);
  }

  // ---- poll_list against the connection list ----

  /** The k-th visit inspects index k; up to the connections present at the start of the round, the slot belongs to
      the connection now at that index and shows the events reported for it; a connection accepted in this round
      meets the empty slot. */
  ghost predicate Aligned(start: seq<Conn>, events: nat -> Event, visits: seq<Visit>) {
    forall k :: 0 <= k < |visits| ==>
      && visits[k].index == k <= |start|
      && (k < |start| ==>
            && visits[k].sock == start[k].sock
            && visits[k].slot == Slot(Some(start[k].sock), events(k).readable, events(k).hangup))
      && (k == |start| ==> visits[k].slot == EMPTY_SLOT)
  }

  ghost predicate Extends(start: seq<Conn>, conns: seq<Conn>, i: nat) {
    && |start| <= |conns| <= |start| + (if i == 0 then 0 else 1)
    && forall k :: 0 <= k < |start| ==> conns[k].sock == start[k].sock
  }

  lemma BodyExtends(w: World, s: State, i: nat, slot: Slot, accepted: Option<Sock>, start: seq<Conn>)
    requires Extends(start, s.conns, i) && i < |s.conns| && (i == 0 ==> !slot.hangup)
    ensures var (t, broken) := Body(w, s, i, slot, accepted);
            && t.visits == s.visits + [Visit(i, s.conns[i].sock, slot)]
            && (!broken ==> Extends(start, t.conns, i + 1))
  {
  }

  lemma VisitAligned(start: seq<Conn>, conns: seq<Conn>, events: nat -> Event, visits: seq<Visit>, i: nat)
    requires Extends(start, conns, i) && i < |conns| && |visits| == i && Aligned(start, events, visits)
    ensures Aligned(start, events, visits + [Visit(i, conns[i].sock, Slots(start, events)[i])])
  {
  }

  lemma {:induction false} LoopAligned(w: World, s: State, i: nat, slots: seq<Slot>, accepted: Option<Sock>,
                                       start: seq<Conn>, events: nat -> Event)
    requires s.conns != [] && slots == Slots(start, events) && !slots[0].hangup
    requires Extends(start, s.conns, i) && |s.visits| == i && Aligned(start, events, s.visits)
    ensures Aligned(start, events, Loop(w, s, i, slots, accepted).visits)
    decreases |slots| - i
  {
    if i < |s.conns| {
      BodyExtends(w, s, i, slots[i], accepted, start);
      VisitAligned(start, s.conns, events, s.visits, i);
      var (t, broken) := Body(w, s, i, slots[i], accepted);
      if !broken {
        LoopAligned(w, t, i + 1, slots, accepted, start, events);
      }
    }
  }

  /** Although connections are inserted and removed while poll_list is walked, the events inspected at an index are
      always those of the connection at that index. */
  lemma RoundAligned(w: World, s: State, input: Input)
    requires s.conns != [] && !input.events(0).hangup
    ensures Aligned(s.conns, input.events, Round(w, s, input).visits)
  {
    LoopAligned(w, s.(visits := []), 0, Slots(s.conns, input.events), input.accepted, s.conns, input.events);
  }

  // ---- Time ----

  ghost predicate Monotone(clock: nat -> int) {
    forall i, j :: 0 <= i <= j ==> clock(i) <= clock(j)
  }

  /** The server's last_mod is the latest mark, no mark lies in the future, and when the loop has quit,
      more than the time-out had passed since every mark. */
  ghost predicate Timed(w: World, s: State) {
    && s.conns != [] && s.marks != []
    && s.conns[0].lastMod == s.marks[|s.marks| - 1]
    && (forall k :: 0 <= k < |s.marks| ==> s.marks[k] <= s.marks[|s.marks| - 1])
    && s.marks[|s.marks| - 1] <= Now(w, s)
    && (s.quit ==> |s.conns| == 1 && forall k :: 0 <= k < |s.marks| ==> s.quitAt - s.marks[k] > w.timeout)
  }

  lemma TickTimed(w: World, s: State)
    requires Monotone(w.clock) && Timed(w, s)
    ensures Timed(w, Tick(s))
  {
    assert w.clock(s.ticks) <= w.clock(s.ticks + 1);
  }

  lemma TouchTimed(w: World, s: State)
    requires Monotone(w.clock) && Timed(w, s) && !s.quit
    ensures Timed(w, TouchServer(w, s))
  {
    assert w.clock(s.ticks) <= w.clock(s.ticks + 1);
  }

  lemma AcceptTimed(w: World, s: State, accepted: Option<Sock>)
    requires Monotone(w.clock) && Timed(w, s) && !s.quit
    ensures Timed(w, Accept(w, s, accepted)) && !Accept(w, s, accepted).quit
  {
    match accepted
    case None => TouchTimed(w, s);
    case Some(x) =>
      var t := s.(conns := s.conns + [NewConn(x, Now(w, s))], accepted := s.accepted + [x]);
      TickTimed(w, t);
      TouchTimed(w, Tick(t));
  }

  lemma ReceiveTimed(w: World, s: State, i: nat)
    requires Monotone(w.clock) && Timed(w, s) && !s.quit && 0 < i < |s.conns|
    ensures Timed(w, Receive(w, s, i)) && !Receive(w, s, i).quit
  {
    assert w.clock(s.ticks) <= w.clock(s.ticks + 1);
  }

  lemma CheckIdleTimed(w: World, s: State)
    requires Monotone(w.clock) && Timed(w, s) && !s.quit
    ensures Timed(w, CheckIdle(w, s))
  {
    assert w.clock(s.ticks) <= w.clock(s.ticks + 1);
  }

  lemma BodyTimed(w: World, s: State, i: nat, slot: Slot, accepted: Option<Sock>)
    requires Monotone(w.clock) && Timed(w, s) && !s.quit
    requires i < |s.conns| && (i == 0 ==> !slot.hangup)
    ensures Timed(w, Body(w, s, i, slot, accepted).0)
  {
    var s0 := s.(visits := s.visits + [Visit(i, s.conns[i].sock, slot)]);
    TickTimed(w, s0);
    var s1 := if i != 0 then Tick(s0) else s0;
    if Expired(w, s0, i) || slot.hangup {
      TouchTimed(w, s1.(conns := RemoveAt(s1.conns, i), closed := s1.closed + [s1.conns[i].sock]));
    } else {
      var s2 := if !slot.readable then s1 else if i == 0 then Accept(w, s1, accepted) else Receive(w, s1, i);
      if slot.readable && i == 0 {
        AcceptTimed(w, s1, accepted);
      } else if slot.readable {
        ReceiveTimed(w, s1, i);
      }
      CheckIdleTimed(w, s2);
    }
  }

  lemma {:induction false} LoopTimed(w: World, s: State, i: nat, slots: seq<Slot>, accepted: Option<Sock>)
    requires Monotone(w.clock) && Timed(w, s)
    requires |s.conns| + (if i == 0 then 1 else 0) <= |slots| && !slots[0].hangup
    requires i == 0 ==> !s.quit
    ensures Timed(w, Loop(w, s, i, slots, accepted))
    decreases |slots| - i
  {
    if i < |s.conns| {
      BodyTimed(w, s, i, slots[i], accepted);
      var (t, broken) := Body(w, s, i, slots[i], accepted);
      if !broken {
        LoopTimed(w, t, i + 1, slots, accepted);
      }
    }
  }

  // ---- What one round does ----

  /** The connections, in the order of the log, whose readings it holds. */
  function Sources(log: seq<(Sock, Reading)>): (r: seq<Sock>)
    ensures |r| == |log|
  {
    seq(|log|, i requires 0 <= i < |log| => log[i].0)
  }

  /** The sensors among the visits whose slot was readable. */
  function Readable(visits: seq<Visit>): seq<Sock> {
    if visits == [] then []
    else (if visits[0].index > 0 && visits[0].slot.readable then [visits[0].sock] else []) + Readable(visits[1..])
  }

  /** How often the listening socket was found readable, which is how often an accept was attempted. */
  function Attempts(visits: seq<Visit>): nat {
    if visits == [] then 0
    else (if visits[0].index == 0 && visits[0].slot.readable then 1 else 0) + Attempts(visits[1..])
  }

  /** From s to t, after the visits 'seen', one reading was inserted for each readable sensor served, and nothing was
      closed, or, when the round broke off, exactly the connection visited last, which was not served. The server's
      last_mod has been renewed once for every accept attempt and for the closing. */
  ghost predicate Served(s: State, t: State, seen: seq<Visit>, broken: bool) {
    && t.visits == s.visits + seen
    && (broken ==> seen != [])
    && Sources(t.log) == Sources(s.log) + Readable(ServedOf(seen, broken))
    && |t.marks| == |s.marks| + Attempts(ServedOf(seen, broken)) + (if broken then 1 else 0)
    && t.closed == if broken then s.closed + [seen[|seen| - 1].sock] else s.closed
  }

  lemma BodyServes(w: World, s: State, i: nat, slot: Slot, accepted: Option<Sock>)
    requires i < |s.conns| && (i == 0 ==> !slot.hangup)
    ensures var (t, broken) := Body(w, s, i, slot, accepted);
            Served(s, t, [Visit(i, s.conns[i].sock, slot)], broken)
  {
    var v := [Visit(i, s.conns[i].sock, slot)];
    var (t, broken) := Body(w, s, i, slot, accepted);
    assert v[1..] == [] && v[..0] == [];
    if !broken && i > 0 && slot.readable {
      assert Sources(t.log) == Sources(s.log) + [s.conns[i].sock];
    } else {
      assert t.log == s.log;
    }
  }

  lemma ReadableCons(v: Visit, rest: seq<Visit>)
    ensures Readable([v] + rest) == Readable([v]) + Readable(rest)
    ensures Attempts([v] + rest) == Attempts([v]) + Attempts(rest)
  {
    assert ([v] + rest)[1..] == rest;
    assert [v][1..] == [];
  }

  /** The visits of which a reading is expected. */
  ghost function ServedOf(seen: seq<Visit>, broken: bool): seq<Visit>
    requires broken ==> seen != []
  {
    if broken then seen[..|seen| - 1] else seen
  }

  lemma ServedOfCons(v: Visit, rest: seq<Visit>, broken: bool)
    requires broken ==> rest != []
    ensures ServedOf([v] + rest, broken) == [v] + ServedOf(rest, broken)
  {
  }

  lemma ServedJoins(s: State, t: State, u: State, v: Visit, rest: seq<Visit>, broken: bool)
    requires Served(s, t, [v], false) && Served(t, u, rest, broken)
    ensures Served(s, u, [v] + rest, broken)
  {
    var served := ServedOf([v] + rest, broken);
    assert served == [v] + ServedOf(rest, broken) by { ServedOfCons(v, rest, broken); }
    ReadableCons(v, ServedOf(rest, broken));
    assert ServedOf([v], false) == [v];
    assert u.visits == s.visits + ([v] + rest);
    assert Sources(u.log) == Sources(s.log) + Readable(served) by {
      SocksAssociate(Sources(s.log), Readable([v]), Readable(ServedOf(rest, broken)));
    }
  }

  lemma SocksAssociate(a: seq<Sock>, b: seq<Sock>, c: seq<Sock>)
    ensures (a + b) + c == a + (b + c)
  {
  }

  lemma {:induction false} LoopServes(w: World, s: State, i: nat, slots: seq<Slot>, accepted: Option<Sock>)
    returns (seen: seq<Visit>, broken: bool)
    requires s.conns != [] && |s.conns| + (if i == 0 then 1 else 0) <= |slots| && !slots[0].hangup
    ensures Served(s, Loop(w, s, i, slots, accepted), seen, broken)
    decreases |slots| - i
  {
    if i >= |s.conns| {
      seen, broken := [], false;
      assert s.visits + [] == s.visits;
    } else {
      BodyServes(w, s, i, slots[i], accepted);
      var (t, b) := Body(w, s, i, slots[i], accepted);
      var v := Visit(i, s.conns[i].sock, slots[i]);
      if b {
        seen, broken := [v], true;
      } else {
        seen, broken := LoopServes(w, t, i + 1, slots, accepted);
        ServedJoins(s, t, Loop(w, t, i + 1, slots, accepted), v, seen, broken);
        seen := [v] + seen;
      }
    }
  }

  /** A round inserts exactly one reading for every readable sensor it visits, in list order, and closes at most one
      connection: the one whose visit ends the round, and that one is not served. The server's activity time is
      renewed once for every accept attempt and once for the closing. */
  lemma RoundServes(w: World, s: State, input: Input)
    requires s.conns != [] && !input.events(0).hangup
    ensures var t := Round(w, s, input);
            var broken := |t.closed| > |s.closed|;
            && (broken ==> t.visits != [])
            && t.closed == (if broken then s.closed + [t.visits[|t.visits| - 1].sock] else s.closed)
            && Sources(t.log) == Sources(s.log) + Readable(ServedOf(t.visits, broken))
            && |t.marks| == |s.marks| + Attempts(ServedOf(t.visits, broken)) + (if broken then 1 else 0)
  {
    var seen, broken := LoopServes(w, s.(visits := []), 0, Slots(s.conns, input.events), input.accepted);
    assert [] + seen == seen;
  }

  lemma BodyLogGrows(w: World, s: State, i: nat, slot: Slot, accepted: Option<Sock>)
    requires i < |s.conns| && (i == 0 ==> !slot.hangup)
    ensures s.log <= Body(w, s, i, slot, accepted).0.log
  {
  }

  lemma LogPrefixes(a: seq<(Sock, Reading)>, b: seq<(Sock, Reading)>, c: seq<(Sock, Reading)>)
    requires a <= b <= c
    ensures a <= c
  {
  }

  /** What has been inserted in the middle of a round is the first part of what the round ends with. */
  lemma {:induction false} LoopLogGrows(w: World, s: State, i: nat, slots: seq<Slot>, accepted: Option<Sock>)
    requires s.conns != [] && |s.conns| + (if i == 0 then 1 else 0) <= |slots| && !slots[0].hangup
    ensures s.log <= Loop(w, s, i, slots, accepted).log
    decreases |slots| - i
  {
    if i < |s.conns| {
      BodyLogGrows(w, s, i, slots[i], accepted);
      var (t, broken) := Body(w, s, i, slots[i], accepted);
      if !broken {
        LoopLogGrows(w, t, i + 1, slots, accepted);
        LogPrefixes(s.log, t.log, Loop(w, t, i + 1, slots, accepted).log);
      }
    }
  }

  /** And what has been inserted after some rounds is the first part of what further rounds end with. */
  lemma {:induction false} RoundsLogGrows(w: World, s: State, inputs: seq<Input>)
    requires s.conns != [] && forall k :: 0 <= k < |inputs| ==> !inputs[k].events(0).hangup
    ensures s.log <= Rounds(w, s, inputs).log
    decreases |inputs|
  {
    if inputs != [] && !s.quit {
      var t := Round(w, s, inputs[0]);
      LoopLogGrows(w, s.(visits := []), 0, Slots(s.conns, inputs[0].events), inputs[0].accepted);
      RoundsLogGrows(w, t, inputs[1..]);
      LogPrefixes(s.log, t.log, Rounds(w, t, inputs[1..]).log);
    }
  }

  /** The state of the inner loop after n more visits, or when it has ended if that is earlier. */
  function AfterVisits(w: World, s: State, i: nat, slots: seq<Slot>, accepted: Option<Sock>, n: nat): (t: State)
    requires s.conns != [] && |s.conns| + (if i == 0 then 1 else 0) <= |slots| && !slots[0].hangup
    ensures t.conns != []
    decreases n
  {
    if n == 0 || i >= |s.conns| then s
    else
      var (t, broken) := Body(w, s, i, slots[i], accepted);
      if broken then t else AfterVisits(w, t, i + 1, slots, accepted, n - 1)
  }

  lemma {:induction false} AfterVisitsLog(w: World, s: State, i: nat, slots: seq<Slot>, accepted: Option<Sock>, n: nat)
    requires s.conns != [] && |s.conns| + (if i == 0 then 1 else 0) <= |slots| && !slots[0].hangup
    ensures AfterVisits(w, s, i, slots, accepted, n).log <= Loop(w, s, i, slots, accepted).log
    decreases n
  {
    if n == 0 || i >= |s.conns| {
      LoopLogGrows(w, s, i, slots, accepted);
    } else {
      var (t, broken) := Body(w, s, i, slots[i], accepted);
      if !broken {
        AfterVisitsLog(w, t, i + 1, slots, accepted, n - 1);
      }
    }
  }

  /** A moment of a run: k rounds have been performed, and n visits of the next one if the loop has not quit. */
  function Moment(w: World, s: State, inputs: seq<Input>, k: nat, n: nat): (t: State)
    requires s.conns != [] && forall j :: 0 <= j < |inputs| ==> !inputs[j].events(0).hangup
    requires k < |inputs|
    decreases |inputs|
  {
    if s.quit then s
    else if k == 0 then
      AfterVisits(w, s.(visits := []), 0, Slots(s.conns, inputs[0].events), inputs[0].accepted, n)
    else Moment(w, Round(w, s, inputs[0]), inputs[1..], k - 1, n)
  }

  /** What has been inserted at any moment of a run, also in the middle of a round, is the first part of what the run
      ends with. */
  lemma {:induction false} MomentLog(w: World, s: State, inputs: seq<Input>, k: nat, n: nat)
    requires s.conns != [] && forall j :: 0 <= j < |inputs| ==> !inputs[j].events(0).hangup
    requires k < |inputs|
    ensures Moment(w, s, inputs, k, n).log <= Rounds(w, s, inputs).log
    decreases |inputs|
  {
    if !s.quit {
      var t := Round(w, s, inputs[0]);
      if k == 0 {
        AfterVisitsLog(w, s.(visits := []), 0, Slots(s.conns, inputs[0].events), inputs[0].accepted, n);
        RoundsLogGrows(w, t, inputs[1..]);
        LogPrefixes(Moment(w, s, inputs, k, n).log, t.log, Rounds(w, t, inputs[1..]).log);
      } else {
        MomentLog(w, t, inputs[1..], k - 1, n);
      }
    }
  }

  lemma BodyLeavesLater(w: World, s: State, i: nat, slot: Slot, accepted: Option<Sock>, k: nat)
    requires Monotone(w.clock) && i < k < |s.conns| && (i == 0 ==> !slot.hangup)
    ensures var (t, broken) := Body(w, s, i, slot, accepted);
            && Now(w, s) <= Now(w, t)
            && (!broken ==> k < |t.conns| && t.conns[k] == s.conns[k] && t.closed == s.closed)
            && (broken ==> |t.closed| > |s.closed|)
            && t.visits == s.visits + [Visit(i, s.conns[i].sock, slot)]
  {
    var t := Body(w, s, i, slot, accepted).0;
    assert s.ticks <= t.ticks;
    assert w.clock(s.ticks) <= w.clock(t.ticks);
  }

  lemma BodyDrops(w: World, s: State, i: nat, slot: Slot, accepted: Option<Sock>)
    requires 0 < i < |s.conns|
    requires slot.hangup || Now(w, s) - s.conns[i].lastMod > w.timeout
    ensures var (t, broken) := Body(w, s, i, slot, accepted);
            broken && |t.closed| > |s.closed| && t.visits == s.visits + [Visit(i, s.conns[i].sock, slot)]
  {
  }

  /** The last visit of a round that closes a connection is at or before index k. */
  ghost predicate ClosesBy(s: State, t: State, k: nat) {
    |t.closed| > |s.closed| && t.visits != [] && t.visits[|t.visits| - 1].index <= k
  }

  lemma {:induction false} LoopIsPrompt(w: World, s: State, i: nat, slots: seq<Slot>, accepted: Option<Sock>, k: nat)
    requires Monotone(w.clock) && i <= k && 0 < k < |s.conns|
    requires |s.conns| + (if i == 0 then 1 else 0) <= |slots| && !slots[0].hangup
    requires slots[k].hangup || Now(w, s) - s.conns[k].lastMod > w.timeout
    ensures ClosesBy(s, Loop(w, s, i, slots, accepted), k)
    decreases |slots| - i
  {
    var (t, broken) := Body(w, s, i, slots[i], accepted);
    if i == k {
      assert broken && ClosesBy(s, t, k) by { BodyDrops(w, s, i, slots[i], accepted); }
    } else {
      BodyLeavesLater(w, s, i, slots[i], accepted, k);
      if !broken {
        LoopIsPrompt(w, t, i + 1, slots, accepted, k);
        assert t.closed == s.closed;
      }
    }
  }

  /** A sensor that has hung up, or was already expired when the round began, is not passed over: the round closes
      it, or another one before it in the list. */
  lemma RoundIsPrompt(w: World, s: State, input: Input, k: nat)
    requires Monotone(w.clock) && 0 < k < |s.conns| && !input.events(0).hangup
    requires input.events(k).hangup || Now(w, s) - s.conns[k].lastMod > w.timeout
    ensures var t := Round(w, s, input);
            && |t.closed| > |s.closed| && t.visits != []
            && t.visits[|t.visits| - 1].index <= k
  {
    LoopIsPrompt(w, s.(visits := []), 0, Slots(s.conns, input.events), input.accepted, k);
  }

  /** When the connection at this index was last active, as recorded at the start of the round; for one accepted in
      the round, at the index just beyond, the time of the accept. */
  function Activity(start: seq<Conn>, acceptTime: int, index: nat): int {
    if index < |start| then start[index].lastMod else acceptTime
  }

  /** The activity times from index i on, apart from the server's, are as they were at the start. */
  ghost predicate Unvisited(start: seq<Conn>, acceptTime: int, conns: seq<Conn>, i: nat) {
    && |start| <= |conns| <= |start| + (if i == 0 then 0 else 1)
    && forall j :: i <= j < |conns| && j > 0 ==> conns[j].lastMod == Activity(start, acceptTime, j)
  }

  /** The connection of this visit has hung up, or was inactive for longer than the time-out. */
  ghost predicate Justified(w: World, t: State, v: Visit, start: seq<Conn>, acceptTime: int) {
    v.index <= |start| && (v.slot.hangup || Now(w, t) - Activity(start, acceptTime, v.index) > w.timeout)
  }

  ghost predicate ClosesWithCause(w: World, s: State, t: State, start: seq<Conn>, acceptTime: int) {
    |t.closed| > |s.closed| ==> t.visits != [] && Justified(w, t, t.visits[|t.visits| - 1], start, acceptTime)
  }

  lemma BodyHasCause(w: World, s: State, i: nat, slot: Slot, accepted: Option<Sock>, start: seq<Conn>, acceptTime: int)
    requires Monotone(w.clock) && i < |s.conns| && (i == 0 ==> !slot.hangup)
    requires Unvisited(start, acceptTime, s.conns, i) && (i == 0 ==> acceptTime == Now(w, s))
    ensures var (t, broken) := Body(w, s, i, slot, accepted);
            && t.visits == s.visits + [Visit(i, s.conns[i].sock, slot)]
            && (broken ==> Justified(w, t, t.visits[|t.visits| - 1], start, acceptTime))
            && (!broken ==> Unvisited(start, acceptTime, t.conns, i + 1) && t.closed == s.closed)
  {
    var t := Body(w, s, i, slot, accepted).0;
    assert w.clock(s.ticks) <= w.clock(t.ticks);
  }

  lemma {:induction false} LoopHasCause(w: World, s: State, i: nat, slots: seq<Slot>, accepted: Option<Sock>,
                                        start: seq<Conn>, acceptTime: int)
    requires Monotone(w.clock) && s.conns != []
    requires |s.conns| + (if i == 0 then 1 else 0) <= |slots| && !slots[0].hangup
    requires Unvisited(start, acceptTime, s.conns, i) && (i == 0 ==> acceptTime == Now(w, s))
    ensures ClosesWithCause(w, s, Loop(w, s, i, slots, accepted), start, acceptTime)
    decreases |slots| - i
  {
    if i < |s.conns| {
      BodyHasCause(w, s, i, slots[i], accepted, start, acceptTime);
      var (t, broken) := Body(w, s, i, slots[i], accepted);
      if !broken {
        LoopHasCause(w, t, i + 1, slots, accepted, start, acceptTime);
        assert t.closed == s.closed;
      } else {
        assert ClosesWithCause(w, s, t, start, acceptTime);
      }
    }
  }

  /** No sensor is closed without cause: the one a round closes has hung up, or more than the time-out has passed
      since its last activity, which is the one recorded for it when the round began, or its accept in this round.
      */
  lemma RoundHasCause(w: World, s: State, input: Input)
    requires Monotone(w.clock) && s.conns != [] && !input.events(0).hangup
    ensures var t := Round(w, s, input);
            |t.closed| > |s.closed| ==>
              && t.visits != []
              && var v := t.visits[|t.visits| - 1];
                 && v.index <= |s.conns|
                 && (v.slot.hangup
                     || Now(w, t) - (if v.index < |s.conns| then s.conns[v.index].lastMod else Now(w, s)) > w.timeout)
  {
    LoopHasCause(w, s.(visits := []), 0, Slots(s.conns, input.events), input.accepted, s.conns, Now(w, s));
  }

  // ---- The records ----

  lemma {:induction false} FromAppend(log: seq<(Sock, Reading)>, e: (Sock, Reading), sock: Sock)
    ensures From(log + [e], sock) == From(log, sock) + if e.0 == sock then [e.1] else []
  {
    if log != [] {
      assert (log + [e])[1..] == log[1..] + [e];
      FromAppend(log[1..], e, sock);
    }
  }

  /** A record shows the latest of the readings inserted from its connection, or zeros if there is none yet; and the
      read position of the socket is behind exactly those. */
  ghost predicate Shows(c: Conn, sent: seq<Reading>) {
    && c.taken == |sent|
    && if sent == [] then c.id == 0 && c.temp == 0.0 && c.ts == 0
       else
         var r := sent[|sent| - 1];
         c.id == r.id && c.temp == r.value && c.ts == r.ts
  }

  ghost predicate RecordsCurrent(s: State) {
    && (forall i :: 0 < i < |s.conns| ==> Shows(s.conns[i], From(s.log, s.conns[i].sock)))
    && (forall k :: 0 <= k < |s.log| ==> s.log[k].0 in s.accepted)
  }

  lemma {:induction false} FromNobody(log: seq<(Sock, Reading)>, sock: Sock)
    requires forall k :: 0 <= k < |log| ==> log[k].0 != sock
    ensures From(log, sock) == []
  {
    if log != [] {
      FromNobody(log[1..], sock);
    }
  }

  lemma BalancedSocks(s: State, server: Sock)
    requires Balanced(s, server)
    ensures Distinct(Socks(s.conns))
    ensures forall i :: 0 < i < |s.conns| ==> s.conns[i].sock in s.accepted
  {
    var rest := Without(s.accepted, s.closed);
    WithoutDistinct(s.accepted, s.closed);
    WithoutKeeps(s.accepted, s.closed);
    forall i | 0 < i < |s.conns|
      ensures s.conns[i].sock in s.accepted
    {
      assert Socks(s.conns)[i] == rest[i - 1] && rest[i - 1] in rest;
    }
    assert server !in rest;
  }

  lemma ReceiveCurrent(w: World, s: State, i: nat, server: Sock)
    requires Balanced(s, server) && RecordsCurrent(s) && 0 < i < |s.conns|
    ensures RecordsCurrent(Receive(w, s, i))
  {
    BalancedSocks(s, server);
    var t, sock := Receive(w, s, i), s.conns[i].sock;
    var e := t.log[|s.log|];
    forall j | 0 < j < |t.conns|
      ensures Shows(t.conns[j], From(t.log, t.conns[j].sock))
    {
      FromAppend(s.log, e, t.conns[j].sock);
      if j != i {
        assert Socks(s.conns)[j] != Socks(s.conns)[i];
      }
    }
  }

  lemma AcceptCurrent(w: World, s: State, accepted: Option<Sock>)
    requires RecordsCurrent(s) && s.conns != []
    requires accepted.Some? ==> accepted.value !in s.accepted
    ensures RecordsCurrent(Accept(w, s, accepted))
  {
    if accepted.Some? {
      FromNobody(s.log, accepted.value);
    }
  }

  lemma DropCurrent(w: World, s: State, i: nat)
    requires RecordsCurrent(s) && 0 < i < |s.conns|
    ensures RecordsCurrent(Drop(w, s, i))
  {
    var t := Drop(w, s, i);
    assert forall j :: 0 < j < |t.conns| ==> t.conns[j] == s.conns[if j < i then j else j + 1];
  }

  lemma BodyCurrent(w: World, s: State, i: nat, slot: Slot, accepted: Option<Sock>, server: Sock)
    requires Balanced(s, server) && RecordsCurrent(s) && i < |s.conns| && (i == 0 ==> !slot.hangup)
    requires i == 0 && accepted.Some? ==> accepted.value !in s.accepted
    ensures RecordsCurrent(Body(w, s, i, slot, accepted).0)
  {
    var s0 := s.(visits := s.visits + [Visit(i, s.conns[i].sock, slot)]);
    var s1 := if i != 0 then Tick(s0) else s0;
    if Expired(w, s0, i) || slot.hangup {
      DropCurrent(w, s1, i);
    } else if slot.readable && i == 0 {
      AcceptCurrent(w, s1, accepted);
    } else if slot.readable {
      ReceiveCurrent(w, s1, i, server);
    }
  }

  lemma {:induction false} LoopCurrent(w: World, s: State, i: nat, slots: seq<Slot>, accepted: Option<Sock>,
                                       server: Sock)
    requires Balanced(s, server) && RecordsCurrent(s)
    requires |s.conns| + (if i == 0 then 1 else 0) <= |slots| && !slots[0].hangup
    requires i == 0 && accepted.Some? ==> accepted.value !in s.accepted && accepted.value != server
    ensures RecordsCurrent(Loop(w, s, i, slots, accepted))
    decreases |slots| - i
  {
    if i < |s.conns| {
      BodyBalanced(w, s, i, slots[i], accepted, server);
      BodyCurrent(w, s, i, slots[i], accepted, server);
      var (t, broken) := Body(w, s, i, slots[i], accepted);
      if !broken {
        LoopCurrent(w, t, i + 1, slots, accepted, server);
      }
    }
  }

  // ---- The order of the merged stream ----

  /** What entered the buffer from one connection is what that connection sent, from its first reading on. */
  ghost predicate KeepsOrder(w: World, s: State, sock: Sock) {
    forall j :: 0 <= j < |From(s.log, sock)| ==> From(s.log, sock)[j] == w.sent(sock, j)
  }

  /** The reading received is the next one of its connection, because the record at index i is still the one whose
      read position counts what has been inserted from this socket. */
  lemma ReceiveKeepsOrder(w: World, s: State, i: nat, sock: Sock)
    requires KeepsOrder(w, s, sock) && RecordsCurrent(s) && 0 < i < |s.conns|
    ensures KeepsOrder(w, Receive(w, s, i), sock)
  {
    var c := s.conns[i];
    assert Shows(c, From(s.log, c.sock));
    FromAppend(s.log, (c.sock, Incoming(w, c)), sock);
  }

  lemma BodyKeepsOrder(w: World, s: State, i: nat, slot: Slot, accepted: Option<Sock>, sock: Sock)
    requires KeepsOrder(w, s, sock) && RecordsCurrent(s) && i < |s.conns| && (i == 0 ==> !slot.hangup)
    ensures KeepsOrder(w, Body(w, s, i, slot, accepted).0, sock)
  {
    var s0 := s.(visits := s.visits + [Visit(i, s.conns[i].sock, slot)]);
    if i > 0 {
      ReceiveKeepsOrder(w, Tick(s0), i, sock);
    }
  }

  lemma {:induction false} LoopKeepsOrder(w: World, s: State, i: nat, slots: seq<Slot>, accepted: Option<Sock>,
                                          server: Sock, sock: Sock)
    requires KeepsOrder(w, s, sock) && Balanced(s, server) && RecordsCurrent(s)
    requires |s.conns| + (if i == 0 then 1 else 0) <= |slots| && !slots[0].hangup
    requires i == 0 && accepted.Some? ==> accepted.value !in s.accepted && accepted.value != server
    ensures KeepsOrder(w, Loop(w, s, i, slots, accepted), sock)
    decreases |slots| - i
  {
    if i < |s.conns| {
      BodyKeepsOrder(w, s, i, slots[i], accepted, sock);
      BodyBalanced(w, s, i, slots[i], accepted, server);
      BodyCurrent(w, s, i, slots[i], accepted, server);
      var (t, broken) := Body(w, s, i, slots[i], accepted);
      if !broken {
        LoopKeepsOrder(w, t, i + 1, slots, accepted, server, sock);
      }
    }
  }

  // ---- Whole runs ----

  /** Every round of the run meets inputs that fit the state it starts from. */
  ghost predicate RunFits(w: World, s: State, inputs: seq<Input>, server: Sock)
    requires s.conns != []
    decreases |inputs|
  {
    inputs == [] || s.quit ||
    (Fits(s, inputs[0], server) && RunFits(w, Round(w, s, inputs[0]), inputs[1..], server))
  }

  ghost predicate Good(w: World, s: State, server: Sock) {
    Balanced(s, server) && Timed(w, s) && RecordsCurrent(s) && forall x: Sock :: KeepsOrder(w, s, x)
  }

  lemma RoundGood(w: World, s: State, input: Input, server: Sock)
    requires Monotone(w.clock) && Good(w, s, server) && !s.quit && Fits(s, input, server)
    ensures Good(w, Round(w, s, input), server)
  {
    RoundBalanced(w, s, input, server);
    var s0 := s.(visits := []);
    LoopTimed(w, s0, 0, Slots(s.conns, input.events), input.accepted);
    LoopCurrent(w, s0, 0, Slots(s.conns, input.events), input.accepted, server);
    forall x: Sock
      ensures KeepsOrder(w, Round(w, s, input), x)
    {
      assert KeepsOrder(w, s0, x) by { assert KeepsOrder(w, s, x); }
      LoopKeepsOrder(w, s0, 0, Slots(s.conns, input.events), input.accepted, server, x);
    }
  }

  lemma {:induction false} RoundsGood(w: World, s: State, inputs: seq<Input>, server: Sock)
    requires Monotone(w.clock) && Good(w, s, server)
    requires forall k :: 0 <= k < |inputs| ==> !inputs[k].events(0).hangup
    requires RunFits(w, s, inputs, server)
    ensures Good(w, Rounds(w, s, inputs), server)
    decreases |inputs|
  {
    if inputs != [] && !s.quit {
      RoundGood(w, s, inputs[0], server);
      RoundsGood(w, Round(w, s, inputs[0]), inputs[1..], server);
    }
  }

  lemma StartGood(w: World, server: Sock)
    requires Monotone(w.clock)
    ensures Good(w, Start(w, server), server)
  {
    assert w.clock(1) <= w.clock(2);
    assert Socks(Start(w, server).conns) == [server] + [];
  }

  lemma {:induction false} DistinctCount(s: seq<Sock>, x: Sock)
    requires Distinct(s)
    ensures multiset(s)[x] == if x in s then 1 else 0
  {
    if s != [] {
      assert s == [s[0]] + s[1..];
      assert multiset(s) == multiset{s[0]} + multiset(s[1..]);
      DistinctCount(s[1..], x);
    }
  }

  lemma {:induction false} WithoutDistinct(all: seq<Sock>, gone: seq<Sock>)
    requires Distinct(all)
    ensures Distinct(Without(all, gone))
  {
    if all != [] {
      WithoutDistinct(all[1..], gone);
      WithoutKeeps(all[1..], gone);
      assert all[0] !in all[1..];
    }
  }

  /** Conservation: the accepted sockets are, with multiplicity, those of the sensors in the list and those closed. */
  lemma BalancedConserves(s: State, server: Sock)
    requires Balanced(s, server)
    ensures multiset(s.accepted) == multiset(Socks(s.conns)[1..]) + multiset(s.closed)
  {
    var rest := Without(s.accepted, s.closed);
    assert Socks(s.conns)[1..] == rest;
    WithoutKeeps(s.accepted, s.closed);
    WithoutDistinct(s.accepted, s.closed);
    forall x: Sock
      ensures multiset(s.accepted)[x] == (multiset(rest) + multiset(s.closed))[x]
    {
      DistinctCount(s.accepted, x);
      DistinctCount(rest, x);
      DistinctCount(s.closed, x);
    }
  }

  /** Over a whole run: sockets are conserved and the list is the server followed by the open sensors in accept
      order; what entered the buffer keeps the order of every connection; and when the loop has quit, no sensor socket
      is left open and more than the time-out had passed since start-up, the last accept attempt and the last
      removal. */
  lemma EveryRunIsGood(w: World, inputs: seq<Input>, server: Sock)
    requires Monotone(w.clock)
    requires forall k :: 0 <= k < |inputs| ==> !inputs[k].events(0).hangup
    requires RunFits(w, Start(w, server), inputs, server)
    ensures var s := Rounds(w, Start(w, server), inputs);
            && Socks(s.conns) == [server] + Without(s.accepted, s.closed)
            && multiset(s.accepted) == multiset(Socks(s.conns)[1..]) + multiset(s.closed)
            && Distinct(s.accepted)
            && RecordsCurrent(s)
            && (forall x: Sock, j :: 0 <= j < |From(s.log, x)| ==> From(s.log, x)[j] == w.sent(x, j))
            && (s.quit ==> Socks(s.conns) == [server] && multiset(s.accepted) == multiset(s.closed))
            && (s.quit ==> forall k :: 0 <= k < |s.marks| ==> s.quitAt - s.marks[k] > w.timeout)
  {
    StartGood(w, server);
    RoundsGood(w, Start(w, server), inputs, server);
    var s := Rounds(w, Start(w, server), inputs);
    BalancedConserves(s, server);
    forall x: Sock, j | 0 <= j < |From(s.log, x)|
      ensures From(s.log, x)[j] == w.sent(x, j)
    {
      assert KeepsOrder(w, s, x);
    }
    if s.quit {
      assert |Socks(s.conns)| == 1;
      assert Socks(s.conns)[1..] == [];
      assert multiset(Socks(s.conns)[1..]) == multiset{};
    }
  }

  // ---- Progress ----

  ghost predicate Silent(input: Input) {
    forall i: nat :: input.events(i) == Event(false, false)
  }

  ghost predicate AllExpired(w: World, s: State) {
    forall i :: 0 < i < |s.conns| ==> Now(w, s) - s.conns[i].lastMod > w.timeout
  }

  /** A silent round with expired sensors closes exactly the oldest one. */
  lemma SilentRoundDropsOldest(w: World, s: State, input: Input)
    requires Monotone(w.clock) && Silent(input) && AllExpired(w, s) && |s.conns| > 1 && !s.quit
    ensures var t := Round(w, s, input);
            && |t.conns| == |s.conns| - 1 && !t.quit
            && Socks(t.conns) == RemoveAt(Socks(s.conns), 1)
            && t.closed == s.closed + [s.conns[1].sock]
            && AllExpired(w, t)
  {
    var slots := Slots(s.conns, input.events);
    var s0 := s.(visits := []);
    assert input.events(0) == Event(false, false) && input.events(1) == Event(false, false);
    var s1 := Body(w, s0, 0, slots[0], input.accepted).0;
    assert s1 == s0.(visits := [Visit(0, s.conns[0].sock, slots[0])]);
    assert Expired(w, s1, 1);
    var t := Round(w, s, input);
    assert t == Loop(w, s0, 0, slots, input.accepted) == Loop(w, s1, 1, slots, input.accepted);
    assert t.ticks == s.ticks + 2;
    assert w.clock(s.ticks) <= w.clock(t.ticks);
    assert forall i :: 0 < i < |t.conns| ==> t.conns[i] == s.conns[i + 1];
  }

  lemma RemoveSecond(q: seq<Sock>)
    requires |q| > 1
    ensures RemoveAt(q, 1)[0] == q[0]
    ensures q[1..] == [q[1]] + RemoveAt(q, 1)[1..]
  {
  }

  /** If all n sensors are expired and nothing happens, n rounds close them, one each, oldest first. */
  lemma {:induction false} SilenceDrains(w: World, s: State, inputs: seq<Input>)
    requires Monotone(w.clock) && AllExpired(w, s) && s.conns != [] && !s.quit
    requires |inputs| == |s.conns| - 1
    requires forall k :: 0 <= k < |inputs| ==> Silent(inputs[k]) && !inputs[k].events(0).hangup
    ensures var t := Rounds(w, s, inputs);
            && !t.quit
            && Socks(t.conns) == [s.conns[0].sock]
            && t.closed == s.closed + Socks(s.conns)[1..]
    decreases |inputs|
  {
    if inputs == [] {
      assert Socks(s.conns) == [s.conns[0].sock];
    } else {
      SilentRoundDropsOldest(w, s, inputs[0]);
      var t := Round(w, s, inputs[0]);
      SilenceDrains(w, t, inputs[1..]);
      RemoveSecond(Socks(s.conns));
      assert Socks(t.conns)[0] == t.conns[0].sock;
    }
  }

  /** With only the server left, a silent round quits if and only if the server has been idle for longer than the
      time-out. */
  lemma SilentServerQuits(w: World, s: State, input: Input)
    requires Silent(input) && !input.events(0).hangup && |s.conns| == 1 && !s.quit
    ensures Round(w, s, input).quit <==> Now(w, s) - s.conns[0].lastMod > w.timeout
  {
    assert input.events(0) == Event(false, false);
    var slots := Slots(s.conns, input.events);
    var s1 := Body(w, s.(visits := []), 0, slots[0], input.accepted).0;
    assert |s1.conns| == 1;
    assert Round(w, s, input) == Loop(w, s1, 1, slots, input.accepted) == s1;
  }
}
