/** Python's insertion-ordered `dict` (and `OrderedDict`) as a value: the keys in
    iteration order together with the items.  Assigning to a present key keeps its
    position, assigning to an absent key appends it. */
module OrderedDict {

  datatype Dict<K(==,!new), V> = Dict(order: seq<K>, items: map<K, V>) {

    ghost predicate Valid() {
      && Distinct(order)
      && (forall k :: k in items <==> k in order)
    }

    /** `d[k] = v`. */
    function Put(k: K, v: V): Dict<K, V> {
      Dict(if k in items then order else order + [k], items[k := v])
    }

    /** `del d[k]` (or `pop(k, None)`: an absent key is left absent). */
    function Remove(k: K): Dict<K, V> {
      Dict(Without(order, k), items - {k})
    }

    /** `d.move_to_end(k)` for a present key. */
    function MoveToEnd(k: K): Dict<K, V> {
      Dict(Without(order, k) + [k], items)
    }
  }

  function Empty<K(!new), V>(): Dict<K, V> {
    Dict([], map[])
  }

  ghost predicate Distinct<K(!new)>(s: seq<K>) {
    forall i, j :: 0 <= i < j < |s| ==> s[i] != s[j]
  }

  /** `s` with every occurrence of `k` taken out, order kept. */
  function Without<K(==,!new)>(s: seq<K>, k: K): (r: seq<K>)
    ensures |r| <= |s|
    ensures forall x :: x in r <==> x in s && x != k
  {
    if s == [] then []
    else if s[0] == k then Without(s[1..], k)
    else [s[0]] + Without(s[1..], k)
  }

  lemma {:induction false} WithoutAbsent<K(!new)>(s: seq<K>, k: K)
    requires k !in s
    ensures Without(s, k) == s
  {
    if s != [] {
      WithoutAbsent(s[1..], k);
      assert s == [s[0]] + s[1..];
    }
  }

  lemma WithoutFirst<K(!new)>(s: seq<K>)
    requires Distinct(s) && s != []
    ensures Without(s, s[0]) == s[1..]
  {
    WithoutAbsent(s[1..], s[0]);
  }

  lemma {:induction false} WithoutKeepsDistinct<K(!new)>(s: seq<K>, k: K)
    requires Distinct(s)
    ensures Distinct(Without(s, k))
    ensures k in s ==> |Without(s, k)| == |s| - 1
  {
    if s != [] {
      WithoutKeepsDistinct(s[1..], k);
      if s[0] == k {
        assert k !in s[1..];
        WithoutAbsent(s[1..], k);
      } else {
        var r := Without(s[1..], k);
        assert s[0] !in r;
        assert Without(s, k) == [s[0]] + r;
      }
    }
  }

  lemma WithoutSplit<K(!new)>(s: seq<K>, t: seq<K>, k: K)
    ensures Without(s + t, k) == Without(s, k) + Without(t, k)
  {
    if s == [] {
      assert s + t == t;
    } else {
      assert (s + t)[1..] == s[1..] + t;
      WithoutSplit(s[1..], t, k);
    }
  }

  lemma PutValid<K(!new), V>(d: Dict<K, V>, k: K, v: V)
    requires d.Valid()
    ensures d.Put(k, v).Valid()
  {
  }

  lemma RemoveValid<K(!new), V>(d: Dict<K, V>, k: K)
    requires d.Valid()
    ensures d.Remove(k).Valid()
    ensures k in d.items ==> |d.Remove(k).order| == |d.order| - 1
  {
    WithoutKeepsDistinct(d.order, k);
  }

  lemma MoveToEndValid<K(!new), V>(d: Dict<K, V>, k: K)
    requires d.Valid() && k in d.items
    ensures d.MoveToEnd(k).Valid()
    ensures |d.MoveToEnd(k).order| == |d.order|
  {
    WithoutKeepsDistinct(d.order, k);
  }

  /** Distinct members of a set are no more than it has, and all of it if none is missing. */
  lemma {:induction false} DistinctSize<K(!new)>(s: seq<K>, elements: set<K>)
    requires Distinct(s) && forall x :: x in s ==> x in elements
    ensures |s| <= |elements|
    ensures (forall x :: x in elements ==> x in s) ==> |s| == |elements|
  {
    if s == [] {
      assert (forall x :: x in elements ==> x in s) ==> elements == {};
    } else {
      assert s == [s[0]] + s[1..];
      DistinctSize(s[1..], elements - {s[0]});
    }
  }

  /** The number of items of a valid dictionary is the length of its key list. */
  lemma SizeIsOrder<K(!new), V>(d: Dict<K, V>)
    requires d.Valid()
    ensures |d.items| == |d.order|
  {
    DistinctSize(d.order, d.items.Keys);
  }

  // --------------------------------------------------------------- order of last use

  ghost predicate SortedBy<T(!new)>(s: seq<T>, f: T -> int) {
    forall i, j :: 0 <= i < j < |s| ==> f(s[i]) < f(s[j])
  }

  lemma {:induction false} SortedWithout<T(!new)>(s: seq<T>, f: T -> int, k: T)
    requires SortedBy(s, f)
    ensures SortedBy(Without(s, k), f)
  {
    if s != [] {
      SortedWithout(s[1..], f, k);
      var rest := Without(s[1..], k);
      if s[0] != k {
        assert forall x :: x in rest ==> x in s[1..];
        assert forall x :: x in rest ==> f(s[0]) < f(x);
        assert Without(s, k) == [s[0]] + rest;
      }
    }
  }

  /** A list sorted by last use stays so when its newest member moves to the end. */
  lemma SortedAppend<T(!new)>(front: seq<T>, c: T, f: T -> int, g: T -> int, now: int)
    requires SortedBy(front, f) && c !in front
    requires forall x :: x in front ==> f(x) < now && g(x) == f(x)
    requires g(c) == now
    ensures SortedBy(front + [c], g)
  {
    assert forall i :: 0 <= i < |front| ==> front[i] in front;
  }
}
