/** What a poll round does with the events it is given, and what the activity times recorded over a run mean. */
module ConnActivity {
  import opened Config
  import opened ListSpec
  import opened ConnSpec
  import opened ConnProtocol

  // ---- One iteration ----

  /** The iteration begins: the visit is recorded, and for a sensor the time has been read. */
  function Begun(s: State, i: nat, slot: Slot): State
    requires i < |s.conns|
  {
    var s0 := s.(visits := s.visits + [Visit(i, s.conns[i].sock, slot)]);
    if i != 0 then Tick(s0) else s0
  }

  /** The clock and the server's activity time: whatever is marked is marked with a time of this step. */
  ghost predicate Marks(w: World, s: State, t: State) {
    && Now(w, s) <= Now(w, t)
    && |s.marks| <= |t.marks| && (forall k :: 0 <= k < |s.marks| ==> t.marks[k] == s.marks[k])
    && (forall k :: |s.marks| <= k < |t.marks| ==> Now(w, s) <= t.marks[k] <= Now(w, t))
    && (t.quit && !s.quit ==> Now(w, s) <= t.quitAt <= Now(w, t))
    && (s.quit ==> t.quit && t.quitAt == s.quitAt)
  }

  lemma MarksJoin(w: World, s: State, t: State, u: State)
    requires Marks(w, s, t) && Marks(w, t, u)
    ensures Marks(w, s, u)
  {
    forall k | |s.marks| <= k < |u.marks|
      ensures Now(w, s) <= u.marks[k] <= Now(w, u)
    {
      if k < |t.marks| {
        assert u.marks[k] == t.marks[k];
      }
    }
  }

  lemma BodyMarks(w: World, s: State, i: nat, slot: Slot, accepted: Option<Sock>)
    requires Monotone(w.clock) && i < |s.conns| && (i == 0 ==> !slot.hangup) && !s.quit
    ensures Marks(w, s, Body(w, s, i, slot, accepted).0)
  {
    var t := Body(w, s, i, slot, accepted).0;
    assert forall j, k :: s.ticks <= j <= k <= t.ticks ==> w.clock(j) <= w.clock(k);
  }

  /** One iteration that does not end the round: the record visited is renewed if its slot is readable, with a time of
      this step; a record that is accepted is new; every other sensor's record stays as it is. */
  lemma BodyRenews(w: World, s: State, i: nat, slot: Slot, accepted: Option<Sock>)
    requires Monotone(w.clock) && i < |s.conns| && (i == 0 ==> !slot.hangup)
    requires !Body(w, s, i, slot, accepted).1
    ensures var t := Body(w, s, i, slot, accepted).0;
            && |t.conns| == |s.conns| + (if i == 0 && slot.readable && accepted.Some? then 1 else 0)
            && (forall j :: 0 < j < |s.conns| && j != i ==> t.conns[j] == s.conns[j])
            && (i > 0 ==> t.conns[i].sock == s.conns[i].sock)
            && (i > 0 && slot.readable ==> Now(w, s) <= t.conns[i].lastMod <= Now(w, t))
            && (i > 0 && !slot.readable ==> t.conns[i] == s.conns[i])
            && (|t.conns| > |s.conns| ==>
                  && t.conns[|s.conns|].sock == accepted.value
                  && Now(w, s) <= t.conns[|s.conns|].lastMod <= Now(w, t))
  {
    var t := Body(w, s, i, slot, accepted).0;
    assert forall j, k :: s.ticks <= j <= k <= t.ticks ==> w.clock(j) <= w.clock(k);
  }

  /** One iteration that ends the round removes exactly the sensor visited. */
  lemma BodyRemoves(w: World, s: State, i: nat, slot: Slot, accepted: Option<Sock>)
    requires i < |s.conns| && (i == 0 ==> !slot.hangup)
    requires Body(w, s, i, slot, accepted).1
    ensures var t := Body(w, s, i, slot, accepted).0;
            && 0 < i && |t.conns| == |s.conns| - 1 && |t.closed| > |s.closed| && t.visits != []
            && forall j :: 0 < j < |t.conns| ==> t.conns[j] == s.conns[if j < i then j else j + 1]
  {
  }

  // ---- One round ----

  lemma {:induction false} LoopMarks(w: World, s: State, i: nat, slots: seq<Slot>, accepted: Option<Sock>)
    requires Monotone(w.clock) && s.conns != [] && (s.quit ==> |s.conns| == 1 && i > 0)
    requires |s.conns| + (if i == 0 then 1 else 0) <= |slots| && !slots[0].hangup
    ensures Marks(w, s, Loop(w, s, i, slots, accepted))
    decreases |slots| - i
  {
    if i < |s.conns| {
      BodyMarks(w, s, i, slots[i], accepted);
      QuitsAlone(w, s, i, slots[i], accepted);
      var (t, broken) := Body(w, s, i, slots[i], accepted);
      if !broken {
        LoopMarks(w, t, i + 1, slots, accepted);
        MarksJoin(w, s, t, Loop(w, t, i + 1, slots, accepted));
      }
    }
  }

  /** Every time given to the server's last_mod in a round lies within the round, and so does the time at which it
      quits. */
  lemma RoundMarks(w: World, s: State, input: Input)
    requires Monotone(w.clock) && s.conns != [] && !input.events(0).hangup && !s.quit
    ensures Marks(w, s, Round(w, s, input))
  {
    LoopMarks(w, s.(visits := []), 0, Slots(s.conns, input.events), input.accepted);
  }

  lemma {:induction false} LoopAccepts(w: World, s: State, i: nat, slots: seq<Slot>, accepted: Option<Sock>)
    requires s.conns != [] && |s.conns| + (if i == 0 then 1 else 0) <= |slots| && !slots[0].hangup
    ensures Loop(w, s, i, slots, accepted).accepted
            == s.accepted + if i == 0 && slots[0].readable && accepted.Some? then [accepted.value] else []
    decreases |slots| - i
  {
    if i < |s.conns| {
      var (t, broken) := Body(w, s, i, slots[i], accepted);
      assert t.accepted == s.accepted + if i == 0 && slots[0].readable && accepted.Some? then [accepted.value] else [];
      if !broken {
        LoopAccepts(w, t, i + 1, slots, accepted);
      }
    }
  }

  /** What a round accepts: the socket that accept returned, if the listening socket was reported readable. */
  function Accepts(input: Input): seq<Sock> {
    if input.events(0).readable && input.accepted.Some? then [input.accepted.value] else []
  }

  lemma RoundAccepts(w: World, s: State, input: Input)
    requires s.conns != [] && !input.events(0).hangup
    ensures Round(w, s, input).accepted == s.accepted + Accepts(input)
  {
    LoopAccepts(w, s.(visits := []), 0, Slots(s.conns, input.events), input.accepted);
  }

  lemma BodyGrows(w: World, s: State, i: nat, slot: Slot, accepted: Option<Sock>)
    requires i < |s.conns| && (i == 0 ==> !slot.hangup)
    ensures var (t, broken) := Body(w, s, i, slot, accepted);
            && |t.visits| == |s.visits| + 1
            && (!broken ==> t.closed == s.closed && |t.conns| >= |s.conns|)
            && (broken ==> i > 0 && |t.closed| > |s.closed| && |t.conns| == |s.conns| - 1)
  {
  }

  /** The number of visits after a loop that began with i of them. */
  ghost predicate VisitsAll(s: State, t: State, i: nat) {
    && (|t.closed| > |s.closed| ==> |t.visits| > i && 1 < |t.visits| <= |t.conns| + 1)
    && (|t.closed| <= |s.closed| ==> t.closed == s.closed && |t.visits| == |t.conns|)
  }

  lemma {:induction false} LoopVisitsAll(w: World, s: State, i: nat, slots: seq<Slot>, accepted: Option<Sock>)
    requires s.conns != [] && |s.conns| + (if i == 0 then 1 else 0) <= |slots| && !slots[0].hangup
    requires |s.visits| == i <= |s.conns|
    ensures VisitsAll(s, Loop(w, s, i, slots, accepted), i)
    decreases |slots| - i
  {
    if i < |s.conns| {
      BodyGrows(w, s, i, slots[i], accepted);
      var (t, broken) := Body(w, s, i, slots[i], accepted);
      if !broken {
        LoopVisitsAll(w, t, i + 1, slots, accepted);
        assert t.closed == s.closed;
      }
    }
  }

  /** How many connections a round serves: all it visits, except the one it closes. */
  function ServedCount(s: State, t: State): nat
    requires |t.closed| > |s.closed| ==> t.visits != []
  {
    |t.visits| - if |t.closed| > |s.closed| then 1 else 0
  }

  /** A round that closes nothing visits every connection, those present and one it accepts; and each visit goes by
      the events reported for that connection. */
  lemma RoundVisits(w: World, s: State, input: Input)
    requires s.conns != [] && !input.events(0).hangup
    ensures var t := Round(w, s, input);
            && Aligned(s.conns, input.events, t.visits)
            && (|t.closed| > |s.closed| ==> 1 < |t.visits| <= |t.conns| + 1)
            && (|t.closed| <= |s.closed| ==> t.closed == s.closed && |t.visits| == |t.conns|)
  {
    RoundAligned(w, s, input);
    LoopVisitsAll(w, s.(visits := []), 0, Slots(s.conns, input.events), input.accepted);
  }

  /** The sensors among the first n connections for which readable data is reported. */
  function Ready(conns: seq<Conn>, events: nat -> Event, n: nat): seq<Sock>
    requires n <= |conns|
  {
    if n <= 1 then []
    else Ready(conns, events, n - 1) + if events(n - 1).readable then [conns[n - 1].sock] else []
  }

  lemma {:induction false} ReadableJoin(a: seq<Visit>, b: seq<Visit>)
    ensures Readable(a + b) == Readable(a) + Readable(b)
    ensures Attempts(a + b) == Attempts(a) + Attempts(b)
    decreases |a|
  {
    if a == [] {
      assert a + b == b;
    } else {
      assert (a + b)[1..] == a[1..] + b;
      ReadableJoin(a[1..], b);
    }
  }

  lemma ReadableOne(v: Visit)
    ensures Readable([v]) == if v.index > 0 && v.slot.readable then [v.sock] else []
    ensures Attempts([v]) == if v.index == 0 && v.slot.readable then 1 else 0
  {
    assert [v][1..] == [];
  }

  lemma {:induction false} ReadableIsReady(start: seq<Conn>, events: nat -> Event, visits: seq<Visit>)
    requires Aligned(start, events, visits) && start != []
    ensures Readable(visits) == Ready(start, events, if |visits| < |start| then |visits| else |start|)
    ensures Attempts(visits) == if visits != [] && events(0).readable then 1 else 0
    decreases |visits|
  {
    if visits != [] {
      var n := |visits| - 1;
      assert visits == visits[..n] + [visits[n]];
      ReadableIsReady(start, events, visits[..n]);
      ReadableJoin(visits[..n], [visits[n]]);
      ReadableOne(visits[n]);
    }
  }

  /** Over the events alone: a round inserts one reading for each of the sensors present that are reported readable,
      in list order, as far as it serves them; it renews the server's activity time once if the listening socket is
      reported readable and once if it closes a sensor. */
  lemma RoundServesEvents(w: World, s: State, input: Input)
    requires s.conns != [] && !input.events(0).hangup
    ensures var t := Round(w, s, input);
            && (|t.closed| > |s.closed| ==> t.visits != [])
            && var n := ServedCount(s, t);
               && Sources(t.log)
                  == Sources(s.log) + Ready(s.conns, input.events, if n < |s.conns| then n else |s.conns|)
               && |t.marks| == |s.marks| + (if input.events(0).readable then 1 else 0) + |t.closed| - |s.closed|
  {
    var t := Round(w, s, input);
    RoundServes(w, s, input);
    RoundVisits(w, s, input);
    var served := ServedOf(t.visits, |t.closed| > |s.closed|);
    assert Aligned(s.conns, input.events, served);
    assert served != [];
    ReadableIsReady(s.conns, input.events, served);
  }

  /** The sensors in the middle of a round that began in state s, before index i is visited: those already visited are
      renewed if they were reported readable, one that was accepted is new, and the others are as they were. */
  ghost predicate Renewed(w: World, s: State, u: State, i: nat, input: Input) {
    && |s.conns| <= |u.conns| && Now(w, s) <= Now(w, u)
    && (i == 0 ==> |u.conns| == |s.conns|)
    && forall j :: 0 < j < |u.conns| ==> RenewedAt(w, s, u, u.conns[j], j, i, input)
  }

  /** The record c was at index o when the round began, or is the one accepted; its activity time lies within the
      round if it was accepted, or served, being one of the first n and reported readable. */
  ghost predicate RenewedAt(w: World, s: State, u: State, c: Conn, o: nat, n: nat, input: Input) {
    && (o < |s.conns| ==> c.sock == s.conns[o].sock)
    && (o >= |s.conns| ==> o == |s.conns| && input.events(0).readable && input.accepted == Some(c.sock))
    && if o >= |s.conns| || (o < n && input.events(o).readable) then Now(w, s) <= c.lastMod <= Now(w, u)
       else c == s.conns[o]
  }

  lemma BodyKeepsRenewed(w: World, s: State, u: State, i: nat, input: Input)
    requires Monotone(w.clock) && s.conns != [] && !input.events(0).hangup && !u.quit
    requires Renewed(w, s, u, i, input) && i < |u.conns| <= |s.conns| + (if i == 0 then 0 else 1)
    requires !Body(w, u, i, Slots(s.conns, input.events)[i], input.accepted).1
    ensures Renewed(w, s, Body(w, u, i, Slots(s.conns, input.events)[i], input.accepted).0, i + 1, input)
  {
    var slot := Slots(s.conns, input.events)[i];
    var t := Body(w, u, i, slot, input.accepted).0;
    BodyRenews(w, u, i, slot, input.accepted);
    BodyMarks(w, u, i, slot, input.accepted);
    forall j | 0 < j < |t.conns|
      ensures RenewedAt(w, s, t, t.conns[j], j, i + 1, input)
    {
      assert j < |u.conns| ==> RenewedAt(w, s, u, u.conns[j], j, i, input);
    }
  }

  /** The sensors when the round has ended with n of them served; if it closed one, that was at index n. */
  ghost predicate Outcome(w: World, s: State, t: State, n: nat, closes: bool, input: Input) {
    forall j :: 0 < j < |t.conns| ==>
      RenewedAt(w, s, t, t.conns[j], if closes && j >= n then j + 1 else j, n, input)
  }

  lemma BodyEndsRenewed(w: World, s: State, u: State, i: nat, input: Input)
    requires Monotone(w.clock) && s.conns != [] && !input.events(0).hangup && !u.quit
    requires Renewed(w, s, u, i, input) && i < |u.conns| <= |s.conns| + (if i == 0 then 0 else 1)
    requires Body(w, u, i, Slots(s.conns, input.events)[i], input.accepted).1
    ensures Outcome(w, s, Body(w, u, i, Slots(s.conns, input.events)[i], input.accepted).0, i, true, input)
  {
    var slot := Slots(s.conns, input.events)[i];
    var t := Body(w, u, i, slot, input.accepted).0;
    BodyRemoves(w, u, i, slot, input.accepted);
    BodyMarks(w, u, i, slot, input.accepted);
    forall j | 0 < j < |t.conns|
      ensures RenewedAt(w, s, t, t.conns[j], if j >= i then j + 1 else j, i, input)
    {
      var o := if j >= i then j + 1 else j;
      assert RenewedAt(w, s, u, u.conns[o], o, i, input);
    }
  }

  /** The round is in progress and has come to index i. */
  ghost predicate Midway(w: World, s: State, u: State, i: nat, input: Input) {
    && Renewed(w, s, u, i, input) && u.conns != []
    && |u.conns| <= |s.conns| + (if i == 0 then 0 else 1)
    && |u.visits| == i <= |u.conns| && u.closed == s.closed
    && (u.quit ==> |u.conns| == 1 && i > 0)
  }

  lemma BodyMidway(w: World, s: State, u: State, i: nat, input: Input)
    requires Monotone(w.clock) && s.conns != [] && !input.events(0).hangup
    requires Midway(w, s, u, i, input) && i < |u.conns|
    requires !Body(w, u, i, Slots(s.conns, input.events)[i], input.accepted).1
    ensures Midway(w, s, Body(w, u, i, Slots(s.conns, input.events)[i], input.accepted).0, i + 1, input)
  {
    var slot := Slots(s.conns, input.events)[i];
    BodyKeepsRenewed(w, s, u, i, input);
    BodyGrows(w, u, i, slot, input.accepted);
    QuitsAlone(w, u, i, slot, input.accepted);
    assert |Body(w, u, i, slot, input.accepted).0.conns| <= |s.conns| + 1 by {
      BodyRenews(w, u, i, slot, input.accepted);
    }
  }

  lemma {:induction false} LoopRenews(w: World, s: State, u: State, i: nat, input: Input) returns (n: nat, closes: bool)
    requires Monotone(w.clock) && s.conns != [] && !input.events(0).hangup
    requires Midway(w, s, u, i, input)
    ensures var t := Loop(w, u, i, Slots(s.conns, input.events), input.accepted);
            && Outcome(w, s, t, n, closes, input)
            && (closes <==> |t.closed| > |s.closed|)
            && |t.visits| == n + if closes then 1 else 0
    decreases |s.conns| + 1 - i
  {
    if i >= |u.conns| {
      n, closes := i, false;
    } else {
      var slot := Slots(s.conns, input.events)[i];
      var (t, broken) := Body(w, u, i, slot, input.accepted);
      if broken {
        BodyEndsRenewed(w, s, u, i, input);
        BodyGrows(w, u, i, slot, input.accepted);
        n, closes := i, true;
      } else {
        BodyMidway(w, s, u, i, input);
        n, closes := LoopRenews(w, s, t, i + 1, input);
      }
    }
  }

  /** What a round does to every sensor that stays: one that it serves, because readable data is reported for it, or
      accepts gets a time within the round as its activity time; the record of any other is not touched. */
  lemma RoundRenews(w: World, s: State, input: Input)
    requires Monotone(w.clock) && s.conns != [] && !input.events(0).hangup && !s.quit
    ensures var t := Round(w, s, input);
            && (|t.closed| > |s.closed| ==> t.visits != [])
            && Outcome(w, s, t, ServedCount(s, t), |t.closed| > |s.closed|, input)
  {
    var n, closes := LoopRenews(w, s, s.(visits := []), 0, input);
  }

  // ---- Runs ----

  /** The states of a run before each of its rounds, and at its end. */
  function Trace(w: World, s: State, inputs: seq<Input>): (r: seq<State>)
    requires s.conns != [] && forall k :: 0 <= k < |inputs| ==> !inputs[k].events(0).hangup
    ensures r != [] && r[0] == s && |r| <= |inputs| + 1
    ensures forall k :: 0 <= k < |r| ==> r[k].conns != []
    ensures r[|r| - 1] == Rounds(w, s, inputs)
    decreases |inputs|
  {
    if inputs == [] || s.quit then [s] else [s] + Trace(w, Round(w, s, inputs[0]), inputs[1..])
  }

  lemma {:induction false} TraceStep(w: World, s: State, inputs: seq<Input>, k: nat)
    requires s.conns != [] && forall j :: 0 <= j < |inputs| ==> !inputs[j].events(0).hangup
    requires k + 1 < |Trace(w, s, inputs)|
    ensures var r := Trace(w, s, inputs); !r[k].quit && r[k + 1] == Round(w, r[k], inputs[k])
    decreases |inputs|
  {
    if k > 0 {
      TraceStep(w, Round(w, s, inputs[0]), inputs[1..], k - 1);
    }
  }

  lemma {:induction false} TraceGood(w: World, s: State, inputs: seq<Input>, server: Sock, k: nat)
    requires Monotone(w.clock) && Good(w, s, server)
    requires forall j :: 0 <= j < |inputs| ==> !inputs[j].events(0).hangup
    requires RunFits(w, s, inputs, server)
    requires k < |Trace(w, s, inputs)|
    ensures var r := Trace(w, s, inputs); Good(w, r[k], server) && (k + 1 < |r| ==> Fits(r[k], inputs[k], server))
    decreases |inputs|
  {
    if inputs != [] && !s.quit && k > 0 {
      RoundGood(w, s, inputs[0], server);
      TraceGood(w, Round(w, s, inputs[0]), inputs[1..], server, k - 1);
    }
  }

  /** The socket is active in the round from s to t: it is accepted, or it is among the sensors served and reported
      readable. */
  ghost predicate Active(s: State, t: State, input: Input, x: Sock) {
    || x in Accepts(input)
    || exists o :: 0 < o < |s.conns| && s.conns[o].sock == x && input.events(o).readable
                   && o < |t.visits| - if |t.closed| > |s.closed| then 1 else 0
  }

  /** The connection is active in the round from s to t, and its recorded activity is no later. */
  ghost predicate ActiveUntil(w: World, s: State, t: State, input: Input, c: Conn) {
    Active(s, t, input, c.sock) && c.lastMod <= Now(w, t)
  }

  /** The activity time recorded for a connection: it is not before any round in which the connection was active,
      and in one of those rounds. */
  ghost predicate Tracks(w: World, r: seq<State>, inputs: seq<Input>, m: nat, c: Conn)
    requires m < |r| && m <= |inputs|
  {
    && (forall k :: 0 <= k < m && Active(r[k], r[k + 1], inputs[k], c.sock) ==> Now(w, r[k]) <= c.lastMod)
    && (exists k :: 0 <= k < m && ActiveUntil(w, r[k], r[k + 1], inputs[k], c))
  }

  /** A run from the start of the connection manager whose inputs fit. */
  ghost predicate FitRun(w: World, server: Sock, inputs: seq<Input>) {
    && Monotone(w.clock)
    && (forall k :: 0 <= k < |inputs| ==> !inputs[k].events(0).hangup)
    && RunFits(w, Start(w, server), inputs, server)
  }

  function RunOf(w: World, server: Sock, inputs: seq<Input>): (r: seq<State>)
    requires forall k :: 0 <= k < |inputs| ==> !inputs[k].events(0).hangup
    ensures r != [] && |r| <= |inputs| + 1
    ensures forall k :: 0 <= k < |r| ==> r[k].conns != []
  {
    Trace(w, Start(w, server), inputs)
  }

  /** What is known of round k of a run. */
  lemma RunStep(w: World, server: Sock, inputs: seq<Input>, k: nat)
    requires FitRun(w, server, inputs) && k + 1 < |RunOf(w, server, inputs)|
    ensures var r := RunOf(w, server, inputs);
            && Good(w, r[k], server) && Fits(r[k], inputs[k], server) && !r[k].quit
            && r[k + 1] == Round(w, r[k], inputs[k])
  {
    StartGood(w, server);
    TraceGood(w, Start(w, server), inputs, server, k);
    TraceStep(w, Start(w, server), inputs, k);
  }

  lemma {:induction false} RunMarks(w: World, server: Sock, inputs: seq<Input>, k: nat, m: nat)
    requires FitRun(w, server, inputs) && k <= m < |RunOf(w, server, inputs)|
    ensures var r := RunOf(w, server, inputs); Marks(w, r[k], r[m])
    decreases m - k
  {
    var r := RunOf(w, server, inputs);
    if k < m {
      RunStep(w, server, inputs, k);
      RoundMarks(w, r[k], inputs[k]);
      RunMarks(w, server, inputs, k + 1, m);
      MarksJoin(w, r[k], r[k + 1], r[m]);
    }
  }

  /** A sensor that a round neither serves nor finds readable is not active in it. */
  lemma UntouchedIsInactive(w: World, s: State, input: Input, server: Sock, o: nat)
    requires Good(w, s, server) && Fits(s, input, server) && 0 < o < |s.conns|
    requires var t := Round(w, s, input);
             !(o < |t.visits| - (if |t.closed| > |s.closed| then 1 else 0) && input.events(o).readable)
    ensures !Active(s, Round(w, s, input), input, s.conns[o].sock)
  {
    BalancedSocks(s, server);
    forall k | 0 < k < |s.conns| && s.conns[k].sock == s.conns[o].sock
      ensures k == o
    {
      assert Socks(s.conns)[k] == Socks(s.conns)[o];
    }
  }

  lemma TracksNew(w: World, server: Sock, inputs: seq<Input>, m: nat, c: Conn)
    requires FitRun(w, server, inputs) && m + 1 < |RunOf(w, server, inputs)|
    requires var r := RunOf(w, server, inputs);
             Active(r[m], r[m + 1], inputs[m], c.sock) && Now(w, r[m]) <= c.lastMod <= Now(w, r[m + 1])
    ensures Tracks(w, RunOf(w, server, inputs), inputs, m + 1, c)
  {
    var r := RunOf(w, server, inputs);
    forall k | 0 <= k < m + 1
      ensures Now(w, r[k]) <= c.lastMod
    {
      RunMarks(w, server, inputs, k, m);
    }
    assert ActiveUntil(w, r[m], r[m + 1], inputs[m], c);
  }

  lemma TracksOld(w: World, r: seq<State>, inputs: seq<Input>, m: nat, c: Conn)
    requires m + 1 < |r| && m + 1 <= |inputs|
    requires Tracks(w, r, inputs, m, c) && !Active(r[m], r[m + 1], inputs[m], c.sock)
    ensures Tracks(w, r, inputs, m + 1, c)
  {
    var k :| 0 <= k < m && ActiveUntil(w, r[k], r[k + 1], inputs[k], c);
    assert ActiveUntil(w, r[k], r[k + 1], inputs[k], c);
  }

  /** A sensor that a round leaves was renewed because it was active in the round, or it was not and is unchanged. */
  lemma RoundLeaves(w: World, s: State, input: Input, server: Sock, j: nat)
    requires Monotone(w.clock) && Good(w, s, server) && Fits(s, input, server) && !s.quit
    requires 0 < j < |Round(w, s, input).conns|
    ensures var t := Round(w, s, input);
            var c := t.conns[j];
            if Active(s, Round(w, s, input), input, c.sock) then Now(w, s) <= c.lastMod <= Now(w, t)
            else exists o :: 0 < o < |s.conns| && s.conns[o] == c
  {
    var t := Round(w, s, input);
    RoundRenews(w, s, input);
    var n := ServedCount(s, t);
    var c, o := t.conns[j], if |t.closed| > |s.closed| && j >= n then j + 1 else j;
    assert RenewedAt(w, s, t, c, o, n, input);
    if o < |s.conns| && !(o < n && input.events(o).readable) {
      UntouchedIsInactive(w, s, input, server, o);
    }
  }

  /** One round keeps the activity times right. */
  lemma RoundTracks(w: World, server: Sock, inputs: seq<Input>, m: nat, j: nat)
    requires FitRun(w, server, inputs)
    requires var r := RunOf(w, server, inputs);
             && m + 1 < |r| && 0 < j < |r[m + 1].conns|
             && forall i :: 0 < i < |r[m].conns| ==> Tracks(w, r, inputs, m, r[m].conns[i])
    ensures var r := RunOf(w, server, inputs); Tracks(w, r, inputs, m + 1, r[m + 1].conns[j])
  {
    var r := RunOf(w, server, inputs);
    var c := r[m + 1].conns[j];
    RunStep(w, server, inputs, m);
    RoundLeaves(w, r[m], inputs[m], server, j);
    if Active(r[m], r[m + 1], inputs[m], c.sock) {
      TracksNew(w, server, inputs, m, c);
    } else {
      TracksOld(w, r, inputs, m, c);
    }
  }

  /** In every run, the activity time recorded for a sensor is that of its latest activity: it was accepted or
      served in the round in which the time lies, and in no later one. */
  lemma {:induction false} RunTracks(w: World, server: Sock, inputs: seq<Input>, m: nat)
    requires FitRun(w, server, inputs) && m < |RunOf(w, server, inputs)|
    ensures var r := RunOf(w, server, inputs);
            forall j :: 0 < j < |r[m].conns| ==> Tracks(w, r, inputs, m, r[m].conns[j])
    decreases m
  {
    var r := RunOf(w, server, inputs);
    if m > 0 {
      RunTracks(w, server, inputs, m - 1);
      forall j | 0 < j < |r[m].conns|
        ensures Tracks(w, r, inputs, m, r[m].conns[j])
      {
        RoundTracks(w, server, inputs, m - 1, j);
      }
    }
  }

  /** The closing that a round makes: the connection visited last is closed; if its slot shows no hang-up, the time-
      out has passed since the activity recorded for it, or since the round began if it was accepted in the round.
      */
  lemma RoundCloses(w: World, s: State, input: Input)
    requires Monotone(w.clock) && s.conns != [] && !input.events(0).hangup
    requires |Round(w, s, input).closed| > |s.closed|
    ensures var t := Round(w, s, input);
            && 1 < |t.visits| <= |s.conns| + 1
            && var i := |t.visits| - 1;
               && t.visits[i].index == i && t.closed == s.closed + [t.visits[i].sock]
               && (i < |s.conns| ==> t.visits[i].sock == s.conns[i].sock)
               && ((i < |s.conns| && input.events(i).hangup)
                   || Now(w, t) - (if i < |s.conns| then s.conns[i].lastMod else Now(w, s)) > w.timeout)
  {
    RoundServes(w, s, input);
    RoundVisits(w, s, input);
    RoundHasCause(w, s, input);
  }

  lemma ActivityIsRecorded(w: World, server: Sock, inputs: seq<Input>, m: nat, k: nat, i: nat)
    requires FitRun(w, server, inputs) && k < m < |RunOf(w, server, inputs)|
    requires var r := RunOf(w, server, inputs);
             0 < i < |r[m].conns| && Active(r[k], r[k + 1], inputs[k], r[m].conns[i].sock)
    ensures var r := RunOf(w, server, inputs); Now(w, r[k]) <= r[m].conns[i].lastMod
  {
    var r := RunOf(w, server, inputs);
    RunTracks(w, server, inputs, m);
    assert Tracks(w, r, inputs, m, r[m].conns[i]);
  }

  /** No sensor is closed that has been active within the time-out: if round m closes one for which no hang-up is
      reported, then more than the time-out has passed since every round in which it was accepted or served. */
  lemma ClosedHasBeenSilent(w: World, server: Sock, inputs: seq<Input>, m: nat, k: nat) returns (i: nat, sock: Sock)
    requires FitRun(w, server, inputs) && k <= m && m + 1 < |RunOf(w, server, inputs)|
    requires var r := RunOf(w, server, inputs); |r[m + 1].closed| > |r[m].closed|
    ensures var r := RunOf(w, server, inputs);
            && r[m + 1].closed == r[m].closed + [sock] && 0 < i <= |r[m].conns|
            && (i < |r[m].conns| ==> sock == r[m].conns[i].sock)
            && ((i < |r[m].conns| && inputs[m].events(i).hangup)
                || (Active(r[k], r[k + 1], inputs[k], sock) ==> Now(w, r[m + 1]) - Now(w, r[k]) > w.timeout))
  {
    var r := RunOf(w, server, inputs);
    var s, t := r[m], r[m + 1];
    RunStep(w, server, inputs, m);
    RoundCloses(w, s, inputs[m]);
    i, sock := |t.visits| - 1, t.visits[|t.visits| - 1].sock;
    if i < |s.conns| {
      if k == m {
        UntouchedIsInactive(w, s, inputs[m], server, i);
      } else if Active(r[k], r[k + 1], inputs[k], sock) {
        ActivityIsRecorded(w, server, inputs, m, k, i);
      }
    } else {
      RunMarks(w, server, inputs, k, m);
    }
  }

  /** And one that has been silent for longer than the time-out is not passed over: if more than the time-out has
      passed at the beginning of round m since the end of every round in which the sensor at index i was active,
      then round m closes it or one before it. */
  lemma SilentIsClosed(w: World, server: Sock, inputs: seq<Input>, m: nat, i: nat)
    requires FitRun(w, server, inputs) && m + 1 < |RunOf(w, server, inputs)|
    requires var r := RunOf(w, server, inputs);
             && 0 < i < |r[m].conns|
             && forall k :: 0 <= k < m && Active(r[k], r[k + 1], inputs[k], r[m].conns[i].sock) ==>
                  Now(w, r[m]) - Now(w, r[k + 1]) > w.timeout
    ensures var r := RunOf(w, server, inputs);
            && |r[m + 1].closed| > |r[m].closed| && r[m + 1].visits != []
            && r[m + 1].visits[|r[m + 1].visits| - 1].index <= i
  {
    var r := RunOf(w, server, inputs);
    RunStep(w, server, inputs, m);
    assert Tracks(w, r, inputs, m, r[m].conns[i]) by { RunTracks(w, server, inputs, m); }
    RoundIsPrompt(w, r[m], inputs[m], i);
  }

  /** The sockets accepted in these rounds. */
  function AllAccepts(inputs: seq<Input>): seq<Sock> {
    if inputs == [] then [] else AllAccepts(inputs[..|inputs| - 1]) + Accepts(inputs[|inputs| - 1])
  }

  /** In every run, the sockets that accept has returned are exactly, and in this order, those that are in the list
      or have been closed. */
  lemma {:induction false} RunAccepts(w: World, server: Sock, inputs: seq<Input>, m: nat)
    requires FitRun(w, server, inputs) && m < |RunOf(w, server, inputs)|
    ensures var s := RunOf(w, server, inputs)[m];
            && s.accepted == AllAccepts(inputs[..m])
            && Socks(s.conns) == [server] + Without(AllAccepts(inputs[..m]), s.closed)
    decreases m
  {
    var r := RunOf(w, server, inputs);
    assert Balanced(r[m], server) by {
      StartGood(w, server);
      TraceGood(w, Start(w, server), inputs, server, m);
    }
    if m > 0 {
      RunAccepts(w, server, inputs, m - 1);
      assert r[m].accepted == r[m - 1].accepted + Accepts(inputs[m - 1]) by {
        RunStep(w, server, inputs, m - 1);
        RoundAccepts(w, r[m - 1], inputs[m - 1]);
      }
      assert inputs[..m][..m - 1] == inputs[..m - 1];
    }
  }

  /** The server is active in the round from s to t: an accept is attempted, or a sensor is closed. */
  ghost predicate ServerActive(s: State, t: State, input: Input) {
    input.events(0).readable || |t.closed| > |s.closed|
  }

  /** The server is renewed in exactly those rounds in which it is active. */
  lemma RoundMarksActivity(w: World, s: State, input: Input)
    requires Monotone(w.clock) && s.conns != [] && !input.events(0).hangup && !s.quit
    ensures var t := Round(w, s, input);
            Marks(w, s, t) && (ServerActive(s, t, input) <==> |t.marks| > |s.marks|)
  {
    RoundMarks(w, s, input);
    RoundServesEvents(w, s, input);
    RoundVisits(w, s, input);
  }

  /** The time lies between these states. */
  ghost predicate Between(w: World, s: State, t: State, at: int) {
    Now(w, s) <= at <= Now(w, t)
  }

  lemma MarkStays(w: World, s: State, t: State, end: State) returns (at: int)
    requires Marks(w, s, t) && |t.marks| > |s.marks| && Marks(w, t, end)
    ensures Between(w, s, t, at) && at in end.marks
  {
    at := t.marks[|s.marks|];
    assert end.marks[|s.marks|] == at;
  }

  lemma RunRoundMarks(w: World, server: Sock, inputs: seq<Input>, k: nat)
    requires FitRun(w, server, inputs) && k + 1 < |RunOf(w, server, inputs)|
    ensures var s, t := RunOf(w, server, inputs)[k], RunOf(w, server, inputs)[k + 1];
            Marks(w, s, t) && (ServerActive(s, t, inputs[k]) <==> |t.marks| > |s.marks|)
  {
    RunStep(w, server, inputs, k);
    RoundMarksActivity(w, RunOf(w, server, inputs)[k], inputs[k]);
  }

  /** A time marked in round k is still marked at the end of the run. */
  lemma MarkPersists(w: World, server: Sock, inputs: seq<Input>, k: nat) returns (at: int)
    requires FitRun(w, server, inputs) && k + 1 < |RunOf(w, server, inputs)|
    requires var r := RunOf(w, server, inputs); ServerActive(r[k], r[k + 1], inputs[k])
    ensures var r := RunOf(w, server, inputs);
            Between(w, r[k], r[k + 1], at) && at in r[|r| - 1].marks
  {
    var r := RunOf(w, server, inputs);
    RunRoundMarks(w, server, inputs, k);
    RunMarks(w, server, inputs, k + 1, |r| - 1);
    at := MarkStays(w, r[k], r[k + 1], r[|r| - 1]);
  }

  /** The time at which the loop quits, against all times given to the server's last_mod. */
  lemma QuitTime(w: World, server: Sock, inputs: seq<Input>)
    requires FitRun(w, server, inputs)
    requires var r := RunOf(w, server, inputs); |r| > 1 && r[|r| - 1].quit
    ensures var r := RunOf(w, server, inputs);
            var n := |r| - 1;
            && Now(w, r[n - 1]) <= r[n].quitAt <= Now(w, r[n])
            && r[n].quitAt - w.clock(1) > w.timeout
            && forall at :: at in r[n].marks ==> r[n].quitAt - at > w.timeout
  {
    var r := RunOf(w, server, inputs);
    var n := |r| - 1;
    assert Now(w, r[n - 1]) <= r[n].quitAt <= Now(w, r[n]) by {
      RunStep(w, server, inputs, n - 1);
      RoundMarks(w, r[n - 1], inputs[n - 1]);
    }
    assert Timed(w, r[n]) by {
      StartGood(w, server);
      TraceGood(w, Start(w, server), inputs, server, n);
    }
    assert r[n].marks[0] == w.clock(1) by { RunMarks(w, server, inputs, 0, n); }
  }

  /** When the loop has quit, more than the time-out had passed since the start and since a moment in each of the
      rounds in which an accept was attempted or a sensor was closed. */
  lemma QuitAfterSilence(w: World, server: Sock, inputs: seq<Input>, k: nat) returns (at: int)
    requires FitRun(w, server, inputs) && k + 1 < |RunOf(w, server, inputs)|
    requires var r := RunOf(w, server, inputs); r[|r| - 1].quit
    ensures var r := RunOf(w, server, inputs);
            var n := |r| - 1;
            && Now(w, r[n - 1]) <= r[n].quitAt <= Now(w, r[n])
            && r[n].quitAt - w.clock(1) > w.timeout
            && (ServerActive(r[k], r[k + 1], inputs[k]) ==>
                  Between(w, r[k], r[k + 1], at) && r[n].quitAt - at > w.timeout)
  {
    QuitTime(w, server, inputs);
    at := 0;
    if ServerActive(RunOf(w, server, inputs)[k], RunOf(w, server, inputs)[k + 1], inputs[k]) {
      at := MarkPersists(w, server, inputs, k);
    }
  }

  /** Where a time given to the server's last_mod comes from. */
  ghost predicate FromActivity(w: World, r: seq<State>, inputs: seq<Input>, m: nat, at: int)
    requires m < |r| && m <= |inputs|
  {
    || at == w.clock(1)
    || exists k :: 0 <= k < m && ServerActive(r[k], r[k + 1], inputs[k]) && Between(w, r[k], r[k + 1], at)
  }

  lemma {:induction false} MarkComesFrom(w: World, server: Sock, inputs: seq<Input>, m: nat, i: nat)
    requires FitRun(w, server, inputs) && m < |RunOf(w, server, inputs)|
    requires i < |RunOf(w, server, inputs)[m].marks|
    ensures var r := RunOf(w, server, inputs); FromActivity(w, r, inputs, m, r[m].marks[i])
    decreases m
  {
    var r := RunOf(w, server, inputs);
    if m > 0 {
      var s, t := r[m - 1], r[m];
      RunRoundMarks(w, server, inputs, m - 1);
      if i < |s.marks| {
        MarkComesFrom(w, server, inputs, m - 1, i);
        assert t.marks[i] == s.marks[i];
      } else {
        assert Between(w, r[m - 1], r[m - 1 + 1], t.marks[i]);
      }
    }
  }

  /** With only the server left and nothing happening, the loop does quit once more than the time-out has passed
      since the start and since the end of every round in which an accept was attempted or a sensor was closed. */
  lemma IdleServerQuits(w: World, server: Sock, inputs: seq<Input>, m: nat)
    requires FitRun(w, server, inputs) && m + 1 < |RunOf(w, server, inputs)|
    requires var r := RunOf(w, server, inputs);
             && |r[m].conns| == 1 && Silent(inputs[m]) && Now(w, r[m]) - w.clock(1) > w.timeout
             && forall k :: 0 <= k < m && ServerActive(r[k], r[k + 1], inputs[k]) ==>
                  Now(w, r[m]) - Now(w, r[k + 1]) > w.timeout
    ensures RunOf(w, server, inputs)[m + 1].quit
  {
    var r := RunOf(w, server, inputs);
    RunStep(w, server, inputs, m);
    MarkComesFrom(w, server, inputs, m, |r[m].marks| - 1);
    SilentServerQuits(w, r[m], inputs[m]);
  }

  /** The countdown that is reported: with only the server left, each silent round that does not quit takes one off.
      */
  lemma {:induction false} SilentCountdown(w: World, s: State, inputs: seq<Input>)
    requires forall k :: 0 <= k < |inputs| ==> Silent(inputs[k]) && !inputs[k].events(0).hangup
    requires |s.conns| == 1 && !s.quit && !Rounds(w, s, inputs).quit
    ensures var t := Rounds(w, s, inputs); t.counter == s.counter - |inputs| && t.conns == s.conns
    decreases |inputs|
  {
    if inputs != [] {
      SilentRoundCounts(w, s, inputs[0]);
      SilentCountdown(w, Round(w, s, inputs[0]), inputs[1..]);
    }
  }

  /** From the start the countdown begins at the time-out. */
  lemma CountdownFromStart(w: World, server: Sock, inputs: seq<Input>)
    requires forall k :: 0 <= k < |inputs| ==> Silent(inputs[k]) && !inputs[k].events(0).hangup
    requires !Rounds(w, Start(w, server), inputs).quit
    ensures Rounds(w, Start(w, server), inputs).counter == w.timeout - |inputs|
  {
    SilentCountdown(w, Start(w, server), inputs);
  }

  lemma SilentRoundCounts(w: World, s: State, input: Input)
    requires Silent(input) && !input.events(0).hangup && |s.conns| == 1 && !s.quit
    ensures var t := Round(w, s, input); t.conns == s.conns && (!t.quit ==> t.counter == s.counter - 1)
  {
    assert input.events(0) == Event(false, false);
    var slots := Slots(s.conns, input.events);
    var s1 := Body(w, s.(visits := []), 0, slots[0], input.accepted).0;
    assert Round(w, s, input) == Loop(w, s1, 1, slots, input.accepted) == s1;
  }
}
