/**
 The anti-consecutive weighted pick that the transition and effect engines
 share: the table's keys, less the previous pick when anti-consecutive
 selection is on, go to `random.choices`. Only the support of the pick is
 modelled: from Python 3.9 on, `random.choices` can return exactly the
 entries of positive weight, and raises when there is none (an empty table,
 or weights that sum to 0). The table is a Python dict, so its keys are
 distinct and in insertion order.
 */
module Weighted {
  import opened Common

  type Table<K> = seq<(K, real)>

  predicate DistinctKeys<K(==)>(t: Table<K>) {
    forall i, j :: 0 <= i < j < |t| ==> t[i].0 != t[j].0
  }

  /** `k` is a key of positive weight. */
  predicate Weighs<K(==)>(t: Table<K>, k: K) {
    exists i :: 0 <= i < |t| && t[i].0 == k && t[i].1 > 0.0
  }

  /** `keys.index(k)`, if `k` is a key. */
  function IndexOf<K(==)>(t: Table<K>, k: K): (r: Option<nat>)
    ensures r.Some? ==> r.value < |t| && t[r.value].0 == k
    ensures r.Some? ==> forall j :: 0 <= j < r.value ==> t[j].0 != k
    ensures r.None? ==> forall j :: 0 <= j < |t| ==> t[j].0 != k
    decreases |t|
  {
    if |t| == 0 then None
    else if t[0].0 == k then Some(0)
    else
      match IndexOf(t[1..], k)
      case None => None
      case Some(i) => Some(i + 1)
  }

  /** `keys.pop(keys.index(k))` with the weight beside it, when `k` is a key. */
  function Remove<K(==)>(t: Table<K>, k: K): (r: Table<K>)
    ensures IndexOf(t, k).None? ==> r == t
    ensures IndexOf(t, k).Some? ==> |r| == |t| - 1
    ensures forall j :: 0 <= j < |r| ==> r[j] in t
  {
    match IndexOf(t, k)
    case None => t
    case Some(i) =>
      var r := t[..i] + t[i + 1..];
      assert forall j :: 0 <= j < |r| ==> r[j] == if j < i then t[j] else t[j + 1];
      r
  }

  /** With distinct keys, removing `k` keeps every other entry and no `k`. */
  lemma RemoveExact<K>(t: Table<K>, k: K, e: (K, real))
    requires DistinctKeys(t)
    ensures e in Remove(t, k) <==> e in t && e.0 != k
  {
    var r := Remove(t, k);
    match IndexOf(t, k)
    case None =>
    case Some(i) =>
      assert r == t[..i] + t[i + 1..];
      if e in t && e.0 != k {
        var j :| 0 <= j < |t| && t[j] == e;
        if j < i {
          assert r[j] == e;
        } else {
          assert j != i;
          assert r[j - 1] == e;
        }
      }
      if e in r {
        var j :| 0 <= j < |r| && r[j] == e;
        if j < i {
          assert t[j] == e;
        } else {
          assert t[j + 1] == e;
          assert e.0 != k;
        }
      }
  }

  /** The keys `random.choices` can return: those of positive weight, in order. */
  function Support<K(==)>(t: Table<K>): (s: seq<K>)
    ensures forall j :: 0 <= j < |s| ==> Weighs(t, s[j])
    ensures forall i :: 0 <= i < |t| && t[i].1 > 0.0 ==> t[i].0 in s
    decreases |t|
  {
    if |t| == 0 then []
    else
      var rest := Support(t[1..]);
      assert forall i :: 1 <= i < |t| ==> t[i] == t[1..][i - 1];
      assert forall j :: 0 <= j < |rest| ==> Weighs(t, rest[j]) by {
        forall j | 0 <= j < |rest| ensures Weighs(t, rest[j]) {
          var i :| 0 <= i < |t[1..]| && t[1..][i].0 == rest[j] && t[1..][i].1 > 0.0;
          assert t[i + 1] == t[1..][i];
        }
      }
      if t[0].1 > 0.0 then [t[0].0] + rest else rest
  }

  lemma SupportExact<K>(t: Table<K>, k: K)
    ensures k in Support(t) <==> Weighs(t, k)
  {
    if k in Support(t) {
      var j :| 0 <= j < |Support(t)| && Support(t)[j] == k;
    }
  }

  /** The table the pick is drawn from. */
  function Offered<K(==)>(t: Table<K>, anti: bool, last: Option<K>): Table<K> {
    if anti && last.Some? then Remove(t, last.value) else t
  }

  function Candidates<K(==)>(t: Table<K>, anti: bool, last: Option<K>): seq<K> {
    Support(Offered(t, anti, last))
  }

  /** One pick; `None` stands for `random.choices` raising, as it does from
      Python 3.9 on when no offered key has positive weight. */
  function Pick<K(==)>(t: Table<K>, anti: bool, last: Option<K>, choice: nat): (r: Option<K>)
    ensures r.None? <==> |Candidates(t, anti, last)| == 0
    ensures r.Some? ==> r.value in Candidates(t, anti, last)
  {
    var c := Candidates(t, anti, last);
    if |c| == 0 then None else Some(c[choice % |c|])
  }

  /** What can be picked: exactly the keys of positive weight other than the
      previous pick, when anti-consecutive selection is on. */
  lemma CandidatesExact<K>(t: Table<K>, anti: bool, last: Option<K>, k: K)
    requires DistinctKeys(t)
    ensures k in Candidates(t, anti, last) <==> Weighs(t, k) && !(anti && last == Some(k))
  {
    SupportExact(Offered(t, anti, last), k);
    if anti && last.Some? {
      var r := Remove(t, last.value);
      if Weighs(r, k) {
        var i :| 0 <= i < |r| && r[i].0 == k && r[i].1 > 0.0;
        RemoveExact(t, last.value, r[i]);
        var j :| 0 <= j < |t| && t[j] == r[i];
      }
      if Weighs(t, k) && last != Some(k) {
        var i :| 0 <= i < |t| && t[i].0 == k && t[i].1 > 0.0;
        RemoveExact(t, last.value, t[i]);
        var j :| 0 <= j < |r| && r[j] == t[i];
      }
    }
  }

  /** Every candidate is the pick of some draw. */
  lemma PickCovers<K>(t: Table<K>, anti: bool, last: Option<K>, k: K)
    requires k in Candidates(t, anti, last)
    ensures exists choice: nat :: Pick(t, anti, last, choice) == Some(k)
  {
    var c := Candidates(t, anti, last);
    var i :| 0 <= i < |c| && c[i] == k;
    ModSmall(i, |c|);
    var choice: nat := i;
    assert Pick(t, anti, last, choice) == Some(c[i]);
  }

  /** The pick never repeats the previous one under anti-consecutive selection. */
  lemma PickAvoidsLast<K>(t: Table<K>, anti: bool, last: Option<K>, choice: nat)
    requires DistinctKeys(t)
    ensures var r := Pick(t, anti, last, choice);
      r.Some? ==> Weighs(t, r.value) && !(anti && last == r)
  {
    var r := Pick(t, anti, last, choice);
    if r.Some? {
      CandidatesExact(t, anti, last, r.value);
    }
  }
}
