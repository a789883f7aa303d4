/** The data manager on values (datamgr.c): the sliding window of a sensor, its running average, and the fold
    of a stream of readings into the sensor list. */
module SensorSpec {
  import opened Config

  datatype Sensor = Sensor(id: SensorId, room: SensorId, avg: real, lastMod: int, window: seq<real>)

  // ---- The running average ----

  function Sum(s: seq<real>): real {
    if s == [] then 0.0 else s[0] + Sum(s[1..])
  }

  function Zeros(s: seq<real>): (n: nat)
    ensures n <= |s|
  {
    if s == [] then 0 else (if s[0] == 0.0 then 1 else 0) + Zeros(s[1..])
  }

  /** The window moves by one and takes the new value. */
  function Shift(window: seq<real>, v: real): seq<real>
    requires window != []
  {
    window[1..] + [v]
  }

  /** The divisor: the window length less the zero slots among the values that stay. The new value is always
      counted. */
  function Divisor(window: seq<real>): (d: nat)
    requires window != []
    ensures 1 <= d <= |window|
  {
    |window| - Zeros(window[..|window| - 1])
  }

  /** The running average that goes with a window that has just taken its last value. */
  function Average(window: seq<real>): real
    requires window != []
  {
    Sum(window) / Divisor(window) as real
  }

  function AddTemp(s: Sensor, v: real): Sensor
    requires s.window != []
  {
    var w := Shift(s.window, v);
    s.(window := w, avg := Average(w))
  }

  function NonZero(s: seq<real>): seq<real> {
    if s == [] then [] else (if s[0] == 0.0 then [] else [s[0]]) + NonZero(s[1..])
  }

  function Mean(s: seq<real>): real
    requires s != []
  {
    Sum(s) / |s| as real
  }

  lemma {:induction false} SumAppend(s: seq<real>, t: seq<real>)
    ensures Sum(s + t) == Sum(s) + Sum(t)
  {
    if s == [] {
      assert s + t == t;
    } else {
      assert (s + t)[1..] == s[1..] + t;
      SumAppend(s[1..], t);
    }
  }

  lemma {:induction false} NonZeroCounts(s: seq<real>)
    ensures Sum(NonZero(s)) == Sum(s)
    ensures |NonZero(s)| == |s| - Zeros(s)
    ensures forall x :: x in NonZero(s) <==> x in s && x != 0.0
  {
    if s != [] {
      NonZeroCounts(s[1..]);
      SumAppend(if s[0] == 0.0 then [] else [s[0]], NonZero(s[1..]));
    }
  }

  /** The values the average is taken over: the non-zero ones among the older values, and the new one. */
  function Averaged(window: seq<real>): (r: seq<real>)
    requires window != []
    ensures r != []
  {
    NonZero(window[..|window| - 1]) + [window[|window| - 1]]
  }

  /** The running average is exactly the mean of these values. */
  lemma AverageIsMean(window: seq<real>)
    requires window != []
    ensures Average(window) == Mean(Averaged(window))
  {
    var older, newest := window[..|window| - 1], window[|window| - 1];
    NonZeroCounts(older);
    SumAppend(NonZero(older), [newest]);
    assert window == older + [newest];
    SumAppend(older, [newest]);
  }

  lemma {:induction false} SumBetween(s: seq<real>, lo: real, hi: real)
    requires forall i :: 0 <= i < |s| ==> lo <= s[i] <= hi
    ensures lo * |s| as real <= Sum(s) <= hi * |s| as real
  {
    if s != [] {
      SumBetween(s[1..], lo, hi);
    }
  }

  lemma DivideBounds(x: real, n: nat, lo: real, hi: real)
    requires n > 0 && lo * n as real <= x <= hi * n as real
    ensures lo <= x / n as real <= hi
  {
  }

  /** Whatever bounds the averaged values bounds the average; in particular it lies between their least and
      their greatest. */
  lemma AverageBetween(window: seq<real>, lo: real, hi: real)
    requires window != []
    requires forall i :: 0 <= i < |Averaged(window)| ==> lo <= Averaged(window)[i] <= hi
    ensures lo <= Average(window) <= hi
  {
    AverageIsMean(window);
    SumBetween(Averaged(window), lo, hi);
    DivideBounds(Sum(Averaged(window)), |Averaged(window)|, lo, hi);
  }

  function Greatest(s: seq<real>): (m: real)
    requires s != []
    ensures m in s && forall i :: 0 <= i < |s| ==> s[i] <= m
  {
    if |s| == 1 then s[0]
    else
      var m := Greatest(s[1..]);
      if s[0] >= m then s[0] else m
  }

  function Least(s: seq<real>): (m: real)
    requires s != []
    ensures m in s && forall i :: 0 <= i < |s| ==> m <= s[i]
  {
    if |s| == 1 then s[0]
    else
      var m := Least(s[1..]);
      if s[0] <= m then s[0] else m
  }

  /** A too-hot (too-cold) report is never made unless one of the averaged values is itself beyond the limit. */
  lemma ReportHasWitness(window: seq<real>, minTemp: real, maxTemp: real)
    requires window != []
    ensures Average(window) > maxTemp ==> exists x :: x in Averaged(window) && x > maxTemp
    ensures Average(window) < minTemp ==> exists x :: x in Averaged(window) && x < minTemp
  {
    var a := Averaged(window);
    AverageBetween(window, Least(a), Greatest(a));
    assert Greatest(a) in a && Least(a) in a;
  }

  // ---- The average against the mean of the latest readings ----

  /** The last n values of s, preceded by zeros where s is shorter. */
  function Padded(s: seq<real>, n: nat): (r: seq<real>)
    ensures |r| == n
  {
    if |s| >= n then s[|s| - n..] else seq(n - |s|, _ => 0.0) + s
  }

  function Latest(s: seq<real>, n: nat): seq<real> {
    if |s| >= n then s[|s| - n..] else s
  }

  lemma {:induction false} ZerosAppend(s: seq<real>, t: seq<real>)
    ensures Zeros(s + t) == Zeros(s) + Zeros(t)
  {
    if s == [] {
      assert s + t == t;
    } else {
      assert (s + t)[1..] == s[1..] + t;
      ZerosAppend(s[1..], t);
    }
  }

  lemma {:induction false} ZeroPadding(n: nat)
    ensures var z := seq(n, _ => 0.0); Sum(z) == 0.0 && Zeros(z) == n
  {
    var z := seq(n, _ => 0.0);
    if n > 0 {
      ZeroPadding(n - 1);
      assert z[1..] == seq(n - 1, _ => 0.0);
    }
  }

  lemma {:induction false} NoZeros(s: seq<real>)
    ensures Zeros(s) == 0 <==> 0.0 !in s
  {
    if s != [] {
      NoZeros(s[1..]);
      assert 0.0 in s <==> s[0] == 0.0 || 0.0 in s[1..];
    }
  }

  lemma SameQuotient(x: real, m: nat, d: nat)
    requires m >= d > 0
    ensures x / d as real == x / m as real <==> x == 0.0 || d == m
  {
    if x / d as real == x / m as real && d != m {
      var q := x / d as real;
      assert x == q * d as real && x == q * m as real;
      assert q * (m - d) as real == 0.0;
      assert q == 0.0;
    }
  }

  /** After readings vs the average is the mean of the last min(|vs|, n) of them if and only if none of those, apart
      from the newest, is zero, or they sum to zero. A genuine reading of zero is mistaken for an empty slot. */
  lemma AverageIsMeanOfLatest(vs: seq<real>, n: nat)
    requires n > 0 && vs != []
    ensures var l := Latest(vs, n);
            Average(Padded(vs, n)) == Mean(l) <==> 0.0 !in l[..|l| - 1] || Sum(l) == 0.0
  {
    var l, w := Latest(vs, n), Padded(vs, n);
    var m := |l|;
    var pad := seq(n - m, _ => 0.0);
    assert w == pad + l;
    assert w[..n - 1] == pad + l[..m - 1];
    ZeroPadding(n - m);
    SumAppend(pad, l);
    ZerosAppend(pad, l[..m - 1]);
    NoZeros(l[..m - 1]);
    SameQuotient(Sum(l), m, Divisor(w));
  }

  /** The discrepancy is real: 0 and then 10 are averaged to 10, not to 5. */
  lemma ZeroReadingIsDropped()
    ensures Average(Padded([0.0, 10.0], RUN_AVG_LENGTH)) == 10.0
    ensures Mean([0.0, 10.0]) == 5.0
  {
    var w := Padded([0.0, 10.0], RUN_AVG_LENGTH);
    assert w == [0.0, 0.0, 0.0, 0.0, 10.0];
    ZeroPadding(4);
    assert w[..4] == seq(4, _ => 0.0);
    assert w == w[..4] + [10.0];
    SumAppend(w[..4], [10.0]);
    assert Sum([10.0]) == 10.0;
    assert Divisor(w) == 1;
  }
}
