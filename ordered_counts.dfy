/** A JavaScript `Map<string, number>` used as a counter: `map.set(v, (map.get(v) ?? 0) + 1)`.
    Entries are kept in insertion order, because `Array.from(map.entries())` lists them in
    that order and the stable sorts that follow break ties by it. */
module OrderedCounts {

  datatype Entry = Entry(value: string, count: nat)

  /** Distinct values, each counted at least once. */
  ghost predicate Valid(c: seq<Entry>) {
    && (forall i, j :: 0 <= i < j < |c| ==> c[i].value != c[j].value)
    && (forall i :: 0 <= i < |c| ==> c[i].count > 0)
  }

  function Values(c: seq<Entry>): (vs: seq<string>)
    ensures |vs| == |c| && forall i :: 0 <= i < |c| ==> vs[i] == c[i].value
  {
    if c == [] then [] else [c[0].value] + Values(c[1..])
  }

  /** `map.get(v) ?? 0` */
  function Get(c: seq<Entry>, v: string): nat {
    if c == [] then 0 else if c[0].value == v then c[0].count else Get(c[1..], v)
  }

  /** Sum of all counts. */
  function Total(c: seq<Entry>): nat {
    if c == [] then 0 else c[0].count + Total(c[1..])
  }

  /** `map.set(v, (map.get(v) ?? 0) + 1)`: an existing entry keeps its place, a new one goes last. */
  function Increment(c: seq<Entry>, v: string): seq<Entry> {
    if c == [] then [Entry(v, 1)]
    else if c[0].value == v then [Entry(v, c[0].count + 1)] + c[1..]
    else [c[0]] + Increment(c[1..], v)
  }

  /** Only the count of `v` changes, by one. */
  lemma {:induction false} IncrementGet(c: seq<Entry>, v: string, w: string)
    ensures Get(Increment(c, v), w) == Get(c, w) + (if w == v then 1 else 0)
  {
    if c != [] && c[0].value != v {
      IncrementGet(c[1..], v, w);
    }
  }

  /** The keys keep their insertion order; a new key goes last. */
  lemma {:induction false} IncrementValues(c: seq<Entry>, v: string)
    ensures Values(Increment(c, v)) == if v in Values(c) then Values(c) else Values(c) + [v]
  {
    if c != [] {
      if c[0].value == v {
        assert Values(Increment(c, v)) == [v] + Values(c[1..]);
      } else {
        IncrementValues(c[1..], v);
        assert v in Values(c) <==> v in Values(c[1..]);
        assert Values(c) == [c[0].value] + Values(c[1..]);
      }
    }
  }

  lemma {:induction false} IncrementValid(c: seq<Entry>, v: string)
    requires Valid(c)
    ensures Valid(Increment(c, v))
  {
    IncrementValues(c, v);
    var r := Increment(c, v);
    assert |r| == |Values(r)|;
    forall i | 0 <= i < |r| ensures r[i].count > 0 {
      if c != [] && c[0].value != v && i > 0 {
        IncrementValid(c[1..], v);
        assert r[i] == Increment(c[1..], v)[i - 1];
      }
    }
    forall i, j | 0 <= i < j < |r| ensures r[i].value != r[j].value {
      assert Values(r)[i] == r[i].value && Values(r)[j] == r[j].value;
      if j < |c| {
        assert Values(c)[i] == c[i].value && Values(c)[j] == c[j].value;
      } else {
        assert Values(c)[i] == c[i].value;
      }
    }
  }

  lemma {:induction false} TotalIncrement(c: seq<Entry>, v: string)
    ensures Total(Increment(c, v)) == Total(c) + 1
  {
    if c != [] && c[0].value != v {
      TotalIncrement(c[1..], v);
    }
  }

  lemma {:induction false} GetOfEntry(c: seq<Entry>, i: nat)
    requires Valid(c) && i < |c|
    ensures Get(c, c[i].value) == c[i].count
  {
    if i > 0 {
      GetOfEntry(c[1..], i - 1);
    }
  }

  lemma {:induction false} GetAbsent(c: seq<Entry>, v: string)
    requires v !in Values(c)
    ensures Get(c, v) == 0
  {
    if c != [] {
      GetAbsent(c[1..], v);
    }
  }

  lemma {:induction false} GetAtMostTotal(c: seq<Entry>, v: string)
    ensures Get(c, v) <= Total(c)
  {
    if c != [] && c[0].value != v {
      GetAtMostTotal(c[1..], v);
    }
  }
}
