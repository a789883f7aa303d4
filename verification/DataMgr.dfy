/** The data manager on the heap (datamgr.c): sensors whose window is an array shifted in place, kept in a
    doubly linked list. */
module DataMgr {
  import opened Config
  import opened ListSpec
  import opened DPList
  import opened SensorSpec
  import opened SensorStream

  /** A line of the room map, with what malloc happened to leave in the two fields that parsing does not set. */
  datatype RoomLine = RoomLine(room: SensorId, id: SensorId, garbageAvg: real, garbageTime: int)

  function ParsedLine(line: RoomLine): Sensor {
    Sensor(line.id, line.room, line.garbageAvg, line.garbageTime, seq(RUN_AVG_LENGTH, _ => 0.0))
  }

  function Parsed(roomMap: seq<RoomLine>): (s: seq<Sensor>)
    ensures Fresh(s, RUN_AVG_LENGTH)
  {
    seq(|roomMap|, i requires 0 <= i < |roomMap| => ParsedLine(roomMap[i]))
  }

  class SensorNode {
    const id: SensorId
    const room: SensorId
    var runningAvg: real
    var lastMod: int
    const window: array<real>

    /** As parsed from the room map: the window is zeroed; average and timestamp keep whatever malloc left. */
    constructor (id: SensorId, room: SensorId, garbageAvg: real, garbageTime: int)
      ensures View() == Sensor(id, room, garbageAvg, garbageTime, seq(RUN_AVG_LENGTH, _ => 0.0))
      ensures fresh(window) && window.Length == RUN_AVG_LENGTH
    {
      this.id, this.room := id, room;
      runningAvg, lastMod := garbageAvg, garbageTime;
      window := new real[RUN_AVG_LENGTH](_ => 0.0);
    }

    ghost function View(): Sensor
      reads this, window
    {
      Sensor(id, room, runningAvg, lastMod, window[..])
    }

    /** The window is shifted by one place while its values are summed and its zeros are discounted. */
    method ShiftWindow(temp: real) returns (sum: real, counter: nat)
      requires window.Length == RUN_AVG_LENGTH
      modifies window
      ensures window[..] == Shift(old(window[..]), temp)
      ensures sum == Sum(window[..]) && counter == Divisor(window[..])
    {
      ghost var before := window[..];
      sum, counter := 0.0, RUN_AVG_LENGTH;
      for i := 1 to RUN_AVG_LENGTH
        invariant forall j :: 0 <= j < i - 1 ==> window[j] == before[j + 1]
        invariant forall j :: i - 1 <= j < RUN_AVG_LENGTH ==> window[j] == before[j]
        invariant sum == Sum(before[1..i])
        invariant counter == RUN_AVG_LENGTH - Zeros(before[1..i])
      {
        OneMore(before, i);
        window[i - 1] := window[i];
        sum := sum + window[i - 1];
        if window[i - 1] == 0.0 {
          counter := counter - 1;
        }
      }
      sum := sum + temp;
      window[RUN_AVG_LENGTH - 1] := temp;
      assert window[..] == Shift(before, temp);
      assert before[1..RUN_AVG_LENGTH] == before[1..];
      DivisorOfShift(before, temp);
    }

    /** The sensor takes a value: the average is renewed and compared with the limits. */
    method AddNewTemp(temp: real, minTemp: real, maxTemp: real) returns (hot: bool, cold: bool)
      requires window.Length == RUN_AVG_LENGTH
      modifies this`runningAvg, window
      ensures View() == AddTemp(old(View()), temp)
      ensures hot <==> runningAvg > maxTemp
      ensures cold <==> runningAvg < minTemp
      ensures hot ==> exists x :: x in Averaged(window[..]) && x > maxTemp
      ensures cold ==> exists x :: x in Averaged(window[..]) && x < minTemp
    {
      var sum, counter := ShiftWindow(temp);
      runningAvg := sum / counter as real;
      ReportHasWitness(window[..], minTemp, maxTemp);
      hot, cold := runningAvg > maxTemp, runningAvg < minTemp;
    }

    /** element_copy2: a new sensor with the same contents and a window of its own. */
    method Copy() returns (copy: SensorNode)
      requires window.Length == RUN_AVG_LENGTH
      ensures fresh(copy) && fresh(copy.window) && copy.window.Length == RUN_AVG_LENGTH
      ensures copy.View() == View()
    {
      copy := new SensorNode(id, room, runningAvg, lastMod);
      for c := 0 to RUN_AVG_LENGTH
        invariant copy.window[..c] == window[..c]
        invariant copy.runningAvg == runningAvg && copy.lastMod == lastMod
      {
        copy.window[c] := window[c];
      }
      assert copy.window[..] == window[..];
    }
  }

  lemma OneMore(window: seq<real>, i: nat)
    requires 1 <= i < |window|
    ensures Sum(window[1..i + 1]) == Sum(window[1..i]) + window[i]
    ensures Zeros(window[1..i + 1]) == Zeros(window[1..i]) + if window[i] == 0.0 then 1 else 0
  {
    assert window[1..i + 1] == window[1..i] + [window[i]];
    SumAppend(window[1..i], [window[i]]);
    ZerosAppend(window[1..i], [window[i]]);
  }

  lemma DivisorOfShift(window: seq<real>, v: real)
    requires window != []
    ensures Divisor(Shift(window, v)) == |window| - Zeros(window[1..])
    ensures Sum(Shift(window, v)) == Sum(window[1..]) + v
  {
    var after := Shift(window, v);
    assert after[..|after| - 1] == window[1..];
    SumAppend(window[1..], [v]);
  }

  /** element_compare2: sensors are compared by id. */
  function CompareSensors(x: SensorNode, y: SensorNode): int {
    if x.id > y.id then 1 else if x.id == y.id then 0 else -1
  }

  lemma CompareSensorsOrders(es: seq<SensorNode>, compare: (SensorNode, SensorNode) -> int)
    requires compare == CompareSensors
    ensures TotalPreorder(es, compare)
    ensures forall x, y :: x in es && y in es ==> (compare(x, y) == 0 <==> x.id == y.id)
  {
  }

  /** A sorted list of sensors stays sorted under sorted insertion, which fails exactly for an id above the last
      one. */
  method InsertSensorSorted(list: List<SensorNode>, sensor: SensorNode) returns (ok: bool)
    requires list.Valid() && list.compare == CompareSensors && Sorted(list.Elements(), list.compare)
    modifies list, list.nodes
    ensures list.Chain() && Sorted(list.Elements(), list.compare)
    ensures ok <==> old(list.nodes) == [] || sensor.id <= old(list.Elements()[|list.nodes| - 1].id)
    ensures multiset(list.Elements()) == multiset(old(list.Elements())) + if ok then multiset{sensor} else multiset{}
  {
    CompareSensorsOrders(list.Elements() + [sensor], list.compare);
    ok := InsertSortedKeepsOrder(list, sensor);
  }

  /** The sensor nodes are pairwise different objects with windows of their own, and hold these values. */
  ghost predicate Represent(es: seq<SensorNode>, sensors: seq<Sensor>)
    reads es, set e | e in es :: e.window
  {
    && |sensors| == |es|
    && (forall i, j :: 0 <= i < j < |es| ==> es[i] != es[j] && es[i].window != es[j].window)
    && (forall i :: 0 <= i < |es| ==> es[i].window.Length == RUN_AVG_LENGTH && es[i].View() == sensors[i])
  }

  lemma RepresentAppended(es: seq<SensorNode>, sensors: seq<Sensor>, e: SensorNode)
    requires Represent(es, sensors) && e.window.Length == RUN_AVG_LENGTH
    requires forall i :: 0 <= i < |es| ==> es[i] != e && es[i].window != e.window
    ensures Represent(es + [e], sensors + [e.View()])
  {
  }

  class Manager {
    const list: List<SensorNode>
    ghost var sensors: seq<Sensor>   // the contents of the list
    ghost var Repr: set<object>      // this object, the list, its nodes, the sensors and their windows

    ghost predicate Owns()
      reads this`Repr, list`nodes
    {
      && this in Repr && list in Repr
      && (forall n :: n in list.nodes ==> n in Repr)
      && (forall e :: e in list.Elements() ==> e in Repr && e.window in Repr)
    }

    ghost predicate Valid()
      reads this, list, list.nodes, list.Elements(), set e | e in list.Elements() :: e.window
    {
      Owns() && list.Valid() && Represent(list.Elements(), sensors)
    }

    /** The room map is parsed into the list, in order. */
    constructor (roomMap: seq<RoomLine>)
      ensures fresh(Repr)
      ensures Valid()
      ensures sensors == Parsed(roomMap)
      ensures |sensors| == |roomMap| && forall k :: 0 <= k < |roomMap| ==>
        && sensors[k].id == roomMap[k].id && sensors[k].room == roomMap[k].room
        && forall i :: 0 <= i < |sensors[k].window| ==> sensors[k].window[i] == 0.0
    {
      list := new List<SensorNode>(CompareSensors);
      sensors := [];
      Repr := {this, list};
      new;
      ParseAll(roomMap);
    }

    method ParseAll(roomMap: seq<RoomLine>)
      requires Valid() && sensors == []
      modifies Repr
      ensures fresh(Repr - old(Repr))
      ensures Valid()
      ensures sensors == Parsed(roomMap)
    {
      for i := 0 to |roomMap|
        invariant Valid() && fresh(Repr - old(Repr))
        invariant sensors == Parsed(roomMap[..i])
      {
        Parse(roomMap[i]);
        assert Parsed(roomMap[..i + 1]) == Parsed(roomMap[..i]) + [ParsedLine(roomMap[i])];
      }
      assert roomMap[..|roomMap|] == roomMap;
    }

    /** A list node for a new sensor is linked at index dpl_size. */
    method AppendSensor(sensor: SensorNode, ghost es: seq<SensorNode>)
      requires Owns() && list.Valid() && es == list.Elements() && Represent(es + [sensor], sensors)
      modifies this`Repr, list, list.nodes
      ensures fresh(Repr - old(Repr) - {sensor, sensor.window})
      ensures Valid()
    {
      list.InsertLast(sensor);
      ghost var nodes, n := old(list.nodes), list.nodes[|es|];
      assert Represent(es + [sensor], sensors) && list.nodes == nodes + [n];
      Repr := Repr + {sensor, sensor.window, n};
      assert Owns();
    }

    /** A sensor for a line of the room map. */
    method CreateSensor(line: RoomLine, ghost es: seq<SensorNode>) returns (sensor: SensorNode)
      requires Represent(es, sensors)
      modifies this`sensors
      ensures fresh(sensor) && fresh(sensor.window)
      ensures Represent(es + [sensor], sensors) && sensors == old(sensors) + [ParsedLine(line)]
    {
      sensor := new SensorNode(line.id, line.room, line.garbageAvg, line.garbageTime);
      RepresentAppended(es, sensors, sensor);
      sensors := sensors + [sensor.View()];
    }

    /** One line of the room map. */
    method Parse(line: RoomLine)
      requires Valid()
      modifies Repr
      ensures Valid() && fresh(Repr - old(Repr))
      ensures sensors == old(sensors) + [ParsedLine(line)]
    {
      ghost var es := list.Elements();
      var sensor := CreateSensor(line, es);
      AppendSensor(sensor, es);
    }

    /** Position of the first sensor with this id, -1 if there is none. */
    method GetIndexOfSensorId(id: SensorId) returns (index: int)
      requires Valid()
      ensures var k := Lookup(sensors, id); index == if k < |sensors| then k else -1
    {
      index := 0;
      var size := list.Size();
      while index < size
        invariant 0 <= index <= size
        invariant forall i :: 0 <= i < index ==> sensors[i].id != id
      {
        var sensor := list.GetElementAtIndex(index);
        if sensor.value.id == id {
          LookupIs(sensors, id, index);
          return;
        }
        index := index + 1;
      }
      index := -1;
    }

    /** One delivered reading. */
    method HandleReading(r: Reading, minTemp: real, maxTemp: real) returns (known: bool, hot: bool, cold: bool)
      requires Valid()
      modifies Repr
      ensures Valid() && Repr == old(Repr)
      ensures sensors == Handle(old(sensors), r)
      ensures known <==> Lookup(old(sensors), r.id) < |old(sensors)|
      ensures !known ==> sensors == old(sensors) && !hot && !cold
      ensures known ==>
        var avg := sensors[Lookup(old(sensors), r.id)].avg;
        (hot <==> avg > maxTemp) && (cold <==> avg < minTemp)
    {
      hot, cold := false, false;
      var index := GetIndexOfSensorId(r.id);
      known := index != -1;
      if known {
        var found := list.GetElementAtIndex(index);
        hot, cold := Update(found.value, index, r, minTemp, maxTemp);
      }
    }

    /** The sensor found takes the reading. */
    method Update(sensor: SensorNode, ghost k: nat, r: Reading, minTemp: real, maxTemp: real)
      returns (hot: bool, cold: bool)
      requires Valid()
      requires k == Lookup(sensors, r.id) < |sensors| && sensor == list.Elements()[k]
      modifies this`sensors, sensor`runningAvg, sensor`lastMod, sensor.window
      ensures Valid()
      ensures sensors == Handle(old(sensors), r)
      ensures (hot <==> sensors[k].avg > maxTemp) && (cold <==> sensors[k].avg < minTemp)
    {
      ghost var es := list.Elements();
      hot, cold := TakeReading(sensor, r, minTemp, maxTemp, es, k);
    }

    method TakeReading(sensor: SensorNode, r: Reading, minTemp: real, maxTemp: real,
                       ghost es: seq<SensorNode>, ghost k: nat)
      returns (hot: bool, cold: bool)
      requires Represent(es, sensors) && k == Lookup(sensors, r.id) < |sensors| && sensor == es[k]
      modifies this`sensors, sensor`runningAvg, sensor`lastMod, sensor.window
      ensures Represent(es, sensors)
      ensures sensors == Handle(old(sensors), r)
      ensures (hot <==> sensors[k].avg > maxTemp) && (cold <==> sensors[k].avg < minTemp)
    {
      sensor.lastMod := r.ts;
      hot, cold := sensor.AddNewTemp(r.value, minTemp, maxTemp);
      sensors := Handle(sensors, r);
      forall i | 0 <= i < |es|
        ensures es[i].View() == sensors[i]
      {
        if i != k {
          assert es[i].window != es[k].window;
        }
      }
    }

    /** The readings delivered one after the other. */
    method HandleAll(rs: seq<Reading>, minTemp: real, maxTemp: real)
      requires Valid()
      modifies Repr
      ensures Valid() && Repr == old(Repr)
      ensures sensors == Fold(old(sensors), rs)
    {
      var k := 0;
      while k < |rs|
        invariant Valid() && Repr == old(Repr) && k <= |rs|
        invariant Fold(old(sensors), rs) == Fold(sensors, rs[k..])
        decreases |rs| - k
      {
        var known, hot, cold := HandleReading(rs[k], minTemp, maxTemp);
        assert rs[k..][1..] == rs[k + 1..];
        k := k + 1;
      }
    }
  }

  /** The first line of the room map with this id, |roomMap| if there is none. */
  function FirstLine(roomMap: seq<RoomLine>, id: SensorId): (k: nat)
    ensures k <= |roomMap|
    ensures forall i :: 0 <= i < k ==> roomMap[i].id != id
    ensures k < |roomMap| ==> roomMap[k].id == id
  {
    if roomMap == [] || roomMap[0].id == id then 0 else 1 + FirstLine(roomMap[1..], id)
  }

  /** What the sensor of the first line with an id looks like after a stream of readings. */
  ghost predicate Follows(roomMap: seq<RoomLine>, rs: seq<Reading>, id: SensorId, sensors: seq<Sensor>) {
    var k, mine := FirstLine(roomMap, id), With(rs, id);
    k < |roomMap| && |sensors| == |roomMap| ==>
      && sensors[k].id == id && sensors[k].room == roomMap[k].room
      && sensors[k].window == Padded(Values(mine), RUN_AVG_LENGTH)
      && (mine != [] ==> sensors[k].lastMod == mine[|mine| - 1].ts && sensors[k].avg == Average(sensors[k].window))
  }

  lemma FoldFollows(roomMap: seq<RoomLine>, rs: seq<Reading>, id: SensorId)
    ensures Follows(roomMap, rs, id, Fold(Parsed(roomMap), rs))
  {
    var k := FirstLine(roomMap, id);
    if k < |roomMap| {
      LookupIs(Parsed(roomMap), id, k);
      WindowIsLatestReadings(Parsed(roomMap), rs, id, RUN_AVG_LENGTH);
    }
  }

  /** The room map is parsed and a stream of readings is delivered: the sensor of the first line with an id is in
      the room of this line and holds the latest readings with this id, padded with zeros. */
  method ParseAndHandle(roomMap: seq<RoomLine>, rs: seq<Reading>, minTemp: real, maxTemp: real)
    returns (m: Manager)
    ensures m.Valid() && fresh(m.Repr)
    ensures m.sensors == Fold(Parsed(roomMap), rs) && |m.sensors| == |roomMap|
    ensures forall id: SensorId :: Follows(roomMap, rs, id, m.sensors)
  {
    m := new Manager(roomMap);
    m.HandleAll(rs, minTemp, maxTemp);
    forall id: SensorId
      ensures Follows(roomMap, rs, id, m.sensors)
    {
      FoldFollows(roomMap, rs, id);
    }
  }
}
