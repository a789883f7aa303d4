/** Sequence meaning of the list operations of dplist.c: clamped positions, first matches and the
    position chosen by the sorted insertion. */
module ListSpec {

  /** The position an index denotes in a list of n > 0 elements. */
  function Clamp(index: int, n: nat): (k: nat)
    requires n > 0
    ensures k < n
    ensures 0 <= index < n ==> k == index
  {
    if index <= 0 then 0 else if index >= n - 1 then n - 1 else index
  }

  /** Where an insertion at 'index' lands in a list of n elements. */
  function InsertionPoint(index: int, n: nat): (k: nat)
    ensures k <= n
  {
    if n == 0 || index <= 0 then 0 else if index <= n - 1 then index else n
  }

  function Distance(a: int, b: int): nat {
    if a <= b then b - a else a - b
  }

  /** Lookups and removals go to the existing place nearest to the index, insertions to the nearest of the places
      before, between and after the elements. */
  lemma NearestPlaces(index: int, n: nat, j: nat)
    ensures j < n ==> Distance(index, Clamp(index, n)) <= Distance(index, j)
    ensures j <= n ==> Distance(index, InsertionPoint(index, n)) <= Distance(index, j)
  {
  }

  function InsertAt<T>(s: seq<T>, x: T, k: nat): seq<T>
    requires k <= |s|
  {
    s[..k] + [x] + s[k..]
  }

  function RemoveAt<T>(s: seq<T>, k: nat): seq<T>
    requires k < |s|
  {
    s[..k] + s[k + 1..]
  }

  ghost predicate Distinct<T>(s: seq<T>) {
    forall i, j :: 0 <= i < j < |s| ==> s[i] != s[j]
  }

  /** Index of the first element that p accepts, |s| if there is none. */
  function FirstWhere<T>(s: seq<T>, p: T -> bool): (k: nat)
    ensures k <= |s|
    ensures forall i :: 0 <= i < k ==> !p(s[i])
    ensures k < |s| ==> p(s[k])
  {
    if s == [] || p(s[0]) then 0 else 1 + FirstWhere(s[1..], p)
  }

  lemma {:induction false} FirstWhereIs<T>(s: seq<T>, p: T -> bool, k: nat)
    requires k <= |s|
    requires forall i :: 0 <= i < k ==> !p(s[i])
    requires k < |s| ==> p(s[k])
    ensures FirstWhere(s, p) == k
  {
    if k > 0 {
      FirstWhereIs(s[1..], p, k - 1);
    }
  }

  // ---- Sorted insertion ----

  /** The comparison callback orders these elements: total and transitive. */
  ghost predicate TotalPreorder<T>(elements: seq<T>, cmp: (T, T) -> int) {
    && (forall x, y {:trigger cmp(x, y)} :: x in elements && y in elements ==> cmp(x, y) <= 0 || cmp(y, x) <= 0)
    && (forall x, y, z {:trigger cmp(x, y), cmp(y, z)} :: x in elements && y in elements && z in elements ==>
          cmp(x, y) <= 0 && cmp(y, z) <= 0 ==> cmp(x, z) <= 0)
  }

  ghost predicate Sorted<T>(s: seq<T>, cmp: (T, T) -> int) {
    forall i, j :: 0 <= i < j < |s| ==> cmp(s[i], s[j]) <= 0
  }

  /** Where the scan of the sorted insertion stops: the first element that x does not exceed. */
  function SortedPoint<T>(s: seq<T>, x: T, cmp: (T, T) -> int): (k: nat)
    ensures k <= |s|
  {
    FirstWhere(s, e => cmp(x, e) <= 0)
  }

  /** Instances of the order, for elements that are given by their places. */
  lemma Transitive<T>(s: seq<T>, cmp: (T, T) -> int, i: nat, j: nat, k: nat)
    requires TotalPreorder(s, cmp) && i < |s| && j < |s| && k < |s|
    requires cmp(s[i], s[j]) <= 0 && cmp(s[j], s[k]) <= 0
    ensures cmp(s[i], s[k]) <= 0
  {
    assert s[i] in s && s[j] in s && s[k] in s;
  }

  lemma Total<T>(s: seq<T>, cmp: (T, T) -> int, i: nat, j: nat)
    requires TotalPreorder(s, cmp) && i < |s| && j < |s|
    ensures cmp(s[i], s[j]) <= 0 || cmp(s[j], s[i]) <= 0
  {
    assert s[i] in s && s[j] in s;
  }

  /** In a sorted list the scan stops inside the list if and only if x does not exceed the last element. */
  lemma SortedPointInside<T>(s: seq<T>, x: T, cmp: (T, T) -> int)
    requires TotalPreorder(s + [x], cmp) && Sorted(s, cmp) && s != []
    ensures SortedPoint(s, x, cmp) < |s| <==> cmp(x, s[|s| - 1]) <= 0
  {
    var k := SortedPoint(s, x, cmp);
    if k < |s| - 1 {
      Transitive(s + [x], cmp, |s|, k, |s| - 1);
    }
  }

  ghost predicate Separates<T>(s: seq<T>, x: T, k: nat, cmp: (T, T) -> int)
    requires k <= |s|
  {
    && (forall i :: 0 <= i < k ==> cmp(s[i], x) <= 0)
    && (forall i :: k <= i < |s| ==> cmp(x, s[i]) <= 0)
  }

  lemma SortedPointSeparates<T>(s: seq<T>, x: T, cmp: (T, T) -> int)
    requires TotalPreorder(s + [x], cmp) && Sorted(s, cmp)
    ensures Separates(s, x, SortedPoint(s, x, cmp), cmp)
  {
    var k := SortedPoint(s, x, cmp);
    forall i | 0 <= i < k
      ensures cmp(s[i], x) <= 0
    {
      assert !(cmp(x, s[i]) <= 0);
      Total(s + [x], cmp, i, |s|);
    }
    forall i | k <= i < |s|
      ensures cmp(x, s[i]) <= 0
    {
      assert cmp(x, s[k]) <= 0;
      if i > k {
        Transitive(s + [x], cmp, |s|, k, i);
      }
    }
  }

  lemma SeparatedStaysSorted<T>(s: seq<T>, x: T, k: nat, cmp: (T, T) -> int)
    requires Sorted(s, cmp) && k <= |s| && Separates(s, x, k, cmp)
    ensures Sorted(InsertAt(s, x, k), cmp)
  {
    var t := InsertAt(s, x, k);
    forall i, j | 0 <= i < j < |t|
      ensures cmp(t[i], t[j]) <= 0
    {
      assert t[i] == if i < k then s[i] else if i == k then x else s[i - 1];
      assert t[j] == if j < k then s[j] else if j == k then x else s[j - 1];
    }
  }

  /** Inserting there keeps the list sorted and adds exactly x. */
  lemma SortedInsertion<T>(s: seq<T>, x: T, cmp: (T, T) -> int)
    requires TotalPreorder(s + [x], cmp) && Sorted(s, cmp)
    ensures var k := SortedPoint(s, x, cmp);
            && Sorted(InsertAt(s, x, k), cmp)
            && multiset(InsertAt(s, x, k)) == multiset(s) + multiset{x}
  {
    var k := SortedPoint(s, x, cmp);
    assert Sorted(InsertAt(s, x, k), cmp) by {
      SortedPointSeparates(s, x, cmp);
      SeparatedStaysSorted(s, x, k, cmp);
    }
    InsertAdds(s, x, k);
  }

  lemma InsertAdds<T>(s: seq<T>, x: T, k: nat)
    requires k <= |s|
    ensures multiset(InsertAt(s, x, k)) == multiset(s) + multiset{x}
  {
    assert s == s[..k] + s[k..];
  }
}
