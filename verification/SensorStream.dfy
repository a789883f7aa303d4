/** The data manager's sensor list under a stream of readings (datamgr.c:172-189). */
module SensorStream {
  import opened Config
  import opened ListSpec
  import opened SensorSpec

  /** Index of the first sensor with this id, |sensors| if there is none. */
  function Lookup(sensors: seq<Sensor>, id: SensorId): (k: nat)
    ensures k <= |sensors|
    ensures forall i :: 0 <= i < k ==> sensors[i].id != id
    ensures k < |sensors| ==> sensors[k].id == id
  {
    FirstWhere(sensors, (s: Sensor) => s.id == id)
  }

  /** Every sensor has a window to shift. */
  ghost predicate Windowed(sensors: seq<Sensor>) {
    forall i :: 0 <= i < |sensors| ==> sensors[i].window != []
  }

  /** One reading: an unknown id changes nothing, otherwise the first sensor with that id is updated. */
  function Handle(sensors: seq<Sensor>, r: Reading): (t: seq<Sensor>)
    requires Windowed(sensors)
    ensures |t| == |sensors|
    ensures forall i :: 0 <= i < |t| ==> t[i].id == sensors[i].id && t[i].room == sensors[i].room
    ensures forall i :: 0 <= i < |t| ==> |t[i].window| == |sensors[i].window|
  {
    var k := Lookup(sensors, r.id);
    if k == |sensors| then sensors else sensors[k := AddTemp(sensors[k].(lastMod := r.ts), r.value)]
  }

  function Fold(sensors: seq<Sensor>, rs: seq<Reading>): (t: seq<Sensor>)
    requires Windowed(sensors)
    ensures |t| == |sensors|
    ensures forall i :: 0 <= i < |t| ==> t[i].id == sensors[i].id && t[i].room == sensors[i].room
    ensures forall i :: 0 <= i < |t| ==> |t[i].window| == |sensors[i].window|
    decreases |rs|
  {
    if rs == [] then sensors else Fold(Handle(sensors, rs[0]), rs[1..])
  }

  lemma {:induction false} FoldAppend(sensors: seq<Sensor>, rs: seq<Reading>, r: Reading)
    requires Windowed(sensors)
    ensures Fold(sensors, rs + [r]) == Handle(Fold(sensors, rs), r)
    decreases |rs|
  {
    if rs == [] {
      assert (rs + [r])[1..] == [];
    } else {
      assert (rs + [r])[1..] == rs[1..] + [r];
      FoldAppend(Handle(sensors, rs[0]), rs[1..], r);
    }
  }

  /** The readings in rs that carry this id. */
  function With(rs: seq<Reading>, id: SensorId): seq<Reading> {
    if rs == [] then [] else (if rs[0].id == id then [rs[0]] else []) + With(rs[1..], id)
  }

  function Values(rs: seq<Reading>): (v: seq<real>)
    ensures |v| == |rs|
  {
    seq(|rs|, i requires 0 <= i < |rs| => rs[i].value)
  }

  /** What a sensor looks like after it has taken the readings 'mine', all of them its own. */
  ghost predicate Took(before: Sensor, mine: seq<Reading>, after: Sensor) {
    && after.id == before.id && after.room == before.room
    && |after.window| == |before.window| > 0
    && after.window == (before.window + Values(mine))[|mine|..]
    && (mine == [] ==> after == before)
    && (mine != [] ==> after.lastMod == mine[|mine| - 1].ts && after.avg == Average(after.window))
  }

  lemma TookOneMore(before: Sensor, r: Reading, middle: Sensor, mine: seq<Reading>, after: Sensor)
    requires before.window != []
    requires middle == AddTemp(before.(lastMod := r.ts), r.value)
    requires Took(middle, mine, after)
    ensures Took(before, [r] + mine, after)
  {
    assert Values([r] + mine) == [r.value] + Values(mine);
    assert (before.window + Values([r] + mine))[|mine| + 1..] == (middle.window + Values(mine))[|mine|..];
  }

  lemma LookupIs(sensors: seq<Sensor>, id: SensorId, k: nat)
    requires k < |sensors| && sensors[k].id == id
    requires forall i :: 0 <= i < k ==> sensors[i].id != id
    ensures Lookup(sensors, id) == k
  {
    FirstWhereIs(sensors, (s: Sensor) => s.id == id, k);
  }

  /** The sensor found under an id has taken exactly the readings of the stream that carry this id, and the
      sensors shadowed by an earlier one with the same id are untouched. */
  lemma {:induction false} FoldTakes(sensors: seq<Sensor>, rs: seq<Reading>, k: nat)
    requires Windowed(sensors)
    requires k < |sensors|
    ensures Lookup(sensors, sensors[k].id) == k ==> Took(sensors[k], With(rs, sensors[k].id), Fold(sensors, rs)[k])
    ensures Lookup(sensors, sensors[k].id) != k ==> Fold(sensors, rs)[k] == sensors[k]
    decreases |rs|
  {
    var id := sensors[k].id;
    if rs == [] {
      assert (sensors[k].window + Values([]))[0..] == sensors[k].window;
    } else {
      var next := Handle(sensors, rs[0]);
      var m := Lookup(sensors, id);
      LookupIs(next, id, m);
      FoldTakes(next, rs[1..], k);
      if m == k && rs[0].id == id {
        TookOneMore(sensors[k], rs[0], next[k], With(rs[1..], id), Fold(sensors, rs)[k]);
      } else {
        assert With(rs, id) == With(rs[1..], id) || m != k;
        assert next[k] == sensors[k];
      }
    }
  }

  /** A sensor list as parsed from the room map: every window is filled with zeros. */
  ghost predicate Fresh(sensors: seq<Sensor>, n: nat) {
    n > 0 && forall i :: 0 <= i < |sensors| ==> sensors[i].window == seq(n, _ => 0.0)
  }

  /** From a freshly parsed list, the window of the sensor found under an id holds the last n readings with this id,
      padded with zeros on the left; the timestamp is that of the latest one, and the average goes with the window. */
  lemma WindowIsLatestReadings(sensors: seq<Sensor>, rs: seq<Reading>, id: SensorId, n: nat)
    requires Fresh(sensors, n)
    requires Lookup(sensors, id) < |sensors|
    ensures var after := Fold(sensors, rs)[Lookup(sensors, id)];
            var mine := With(rs, id);
            && after.id == id
            && after.window == Padded(Values(mine), n)
            && (mine != [] ==> after.lastMod == mine[|mine| - 1].ts && after.avg == Average(Padded(Values(mine), n)))
  {
    var k := Lookup(sensors, id);
    assert sensors[k].id == id;
    FoldTakes(sensors, rs, k);
    var mine := With(rs, id);
    var zeros := seq(n, _ => 0.0);
    assert (zeros + Values(mine))[|mine|..] == Padded(Values(mine), n);
  }
}
