/**
 * `groupby(key, dropna=True)[value]` over a sequence of (key, value) samples: samples whose key is
 * missing are dropped, the others are gathered into one group per distinct key holding the group's
 * total and size, from which `mean()` and `value_counts()` are read.
 */
module Grouping {
  import opened Wrappers
  import opened Sorting

  /** One row's grouping key (`None` for NaN or NaT) and the value aggregated. */
  datatype Sample<K> = Sample(key: Option<K>, value: real)

  /** One group: its key, the sum of its values and how many rows it has. */
  datatype Group<K> = Group(key: K, total: real, size: nat)

  function GroupTotal<K>(g: Group<K>): real { g.total }

  function GroupSize<K>(g: Group<K>): real { g.size as real }

  /** The sum of the values carrying key `k`. */
  function SumFor<K(==)>(s: seq<Sample<K>>, k: K): real
  {
    if s == [] then 0.0
    else SumFor(s[..|s| - 1], k) + (if s[|s| - 1].key == Some(k) then s[|s| - 1].value else 0.0)
  }

  /** How many samples carry key `k`. */
  function CountFor<K(==)>(s: seq<Sample<K>>, k: K): (n: nat)
    ensures n <= |s|
  {
    if s == [] then 0
    else CountFor(s[..|s| - 1], k) + (if s[|s| - 1].key == Some(k) then 1 else 0)
  }

  /** The keys present in `s`. */
  function KeysOf<K(==)>(s: seq<Sample<K>>): set<K>
  {
    if s == [] then {}
    else KeysOf(s[..|s| - 1]) + (if s[|s| - 1].key.Some? then {s[|s| - 1].key.value} else {})
  }

  /** The sum of all values whose key is present, and how many those are. */
  function KnownTotal<K>(s: seq<Sample<K>>): real
  {
    if s == [] then 0.0
    else KnownTotal(s[..|s| - 1]) + (if s[|s| - 1].key.Some? then s[|s| - 1].value else 0.0)
  }

  function KnownCount<K>(s: seq<Sample<K>>): (n: nat)
    ensures n <= |s|
  {
    if s == [] then 0
    else KnownCount(s[..|s| - 1]) + (if s[|s| - 1].key.Some? then 1 else 0)
  }

  /** The sum of all values, present key or not. */
  function Total<K>(s: seq<Sample<K>>): real
  {
    if s == [] then 0.0 else Total(s[..|s| - 1]) + s[|s| - 1].value
  }

  /** When every key is present no sample is dropped: the known count and total are the whole sample's. */
  lemma {:induction false} KnownAll<K>(s: seq<Sample<K>>)
    requires forall i :: 0 <= i < |s| ==> s[i].key.Some?
    ensures KnownCount(s) == |s| && KnownTotal(s) == Total(s)
  {
    if s != [] {
      var p := s[..|s| - 1];
      assert forall i :: 0 <= i < |p| ==> p[i] == s[i];
      KnownAll(p);
    }
  }

  /** A key occurs in `s` exactly when some sample carries it, and then it is counted. */
  lemma {:induction false} KeysOfCount<K(!new)>(s: seq<Sample<K>>, k: K)
    ensures k in KeysOf(s) <==> CountFor(s, k) >= 1
    ensures k in KeysOf(s) <==> exists i :: 0 <= i < |s| && s[i].key == Some(k)
  {
    if s != [] {
      var p := s[..|s| - 1];
      KeysOfCount(p, k);
      if exists i :: 0 <= i < |p| && p[i].key == Some(k) {
        var i :| 0 <= i < |p| && p[i].key == Some(k);
        assert s[i] == p[i];
      }
      if exists i :: 0 <= i < |s| && s[i].key == Some(k) {
        var i :| 0 <= i < |s| && s[i].key == Some(k);
        if i < |p| {
          assert p[i] == s[i];
        }
      }
    }
  }

  /** A key no sample carries contributes nothing. */
  lemma {:induction false} SumForAbsent<K(!new)>(s: seq<Sample<K>>, k: K)
    requires CountFor(s, k) == 0
    ensures SumFor(s, k) == 0.0
  {
    if s != [] {
      SumForAbsent(s[..|s| - 1], k);
    }
  }

  // ---------------------------------------------------------------- building the groups

  /** The position of the group with key `k`, if there is one. */
  function Find<K(==)>(gs: seq<Group<K>>, k: K): (r: Option<nat>)
    ensures r.Some? ==> r.value < |gs| && gs[r.value].key == k
    ensures r.None? ==> forall i :: 0 <= i < |gs| ==> gs[i].key != k
  {
    if gs == [] then None
    else if gs[0].key == k then Some(0)
    else match Find(gs[1..], k)
      case Some(i) => Some(i + 1)
      case None => None
  }

  /** Folds one more sample into the groups: dropped when its key is missing. */
  function Add<K(==)>(gs: seq<Group<K>>, x: Sample<K>): seq<Group<K>>
  {
    match x.key
    case None => gs
    case Some(k) =>
      match Find(gs, k)
      case Some(i) => gs[i := Group(k, gs[i].total + x.value, gs[i].size + 1)]
      case None => gs + [Group(k, x.value, 1)]
  }

  /** The groups of `s`, in the order their keys first occur. */
  function Groups<K(==)>(s: seq<Sample<K>>): seq<Group<K>>
  {
    if s == [] then [] else Add(Groups(s[..|s| - 1]), s[|s| - 1])
  }

  /** `gs` has one group per key of `s`, each with that key's total and count. */
  ghost predicate Tabulates<K(!new)>(gs: seq<Group<K>>, s: seq<Sample<K>>)
  {
    (forall i, j :: 0 <= i < j < |gs| ==> gs[i].key != gs[j].key) &&
    (forall i :: 0 <= i < |gs| ==>
      gs[i].total == SumFor(s, gs[i].key) && gs[i].size == CountFor(s, gs[i].key) && gs[i].size >= 1) &&
    (forall k :: k in KeysOf(s) <==> Find(gs, k).Some?)
  }

  /** Appending one sample adds its value and a count of one to its own key, and nothing elsewhere. */
  lemma Extend<K(!new)>(s: seq<Sample<K>>, x: Sample<K>)
    ensures forall k :: SumFor(s + [x], k) == SumFor(s, k) + (if x.key == Some(k) then x.value else 0.0)
    ensures forall k :: CountFor(s + [x], k) == CountFor(s, k) + (if x.key == Some(k) then 1 else 0)
    ensures KeysOf(s + [x]) == KeysOf(s) + (if x.key.Some? then {x.key.value} else {})
  {
    var t := s + [x];
    assert t[..|t| - 1] == s;
  }

  /** A sample whose key already has a group is added into that group. */
  lemma AddExisting<K(!new)>(gs: seq<Group<K>>, s: seq<Sample<K>>, x: Sample<K>, i: nat)
    requires Tabulates(gs, s) && x.key.Some? && Find(gs, x.key.value) == Some(i)
    ensures Tabulates(Add(gs, x), s + [x])
  {
    var t := s + [x];
    Extend(s, x);
    var ns := Add(gs, x);
    assert forall j :: 0 <= j < |ns| ==> ns[j].key == gs[j].key;
    forall q
      ensures q in KeysOf(t) <==> Find(ns, q).Some?
    {
      if Find(gs, q).Some? {
        assert ns[Find(gs, q).value].key == q;
      }
      if Find(ns, q).Some? {
        assert gs[Find(ns, q).value].key == q;
      }
    }
  }

  /** A sample with a new key opens a group of its own at the end. */
  lemma AddNew<K(!new)>(gs: seq<Group<K>>, s: seq<Sample<K>>, x: Sample<K>)
    requires Tabulates(gs, s) && x.key.Some? && Find(gs, x.key.value).None?
    ensures Tabulates(Add(gs, x), s + [x])
  {
    var t := s + [x];
    var k := x.key.value;
    Extend(s, x);
    KeysOfCount(s, k);
    SumForAbsent(s, k);
    var ns := Add(gs, x);
    assert ns == gs + [Group(k, x.value, 1)];
    forall q
      ensures q in KeysOf(t) <==> Find(ns, q).Some?
    {
      if Find(gs, q).Some? {
        assert ns[Find(gs, q).value].key == q;
      }
      if q == k {
        assert ns[|gs|].key == q;
      }
      if Find(ns, q).Some? && q != k {
        assert Find(ns, q).value < |gs|;
        assert gs[Find(ns, q).value].key == q;
      }
    }
  }

  lemma AddTabulates<K(!new)>(gs: seq<Group<K>>, s: seq<Sample<K>>, x: Sample<K>)
    requires Tabulates(gs, s)
    ensures Tabulates(Add(gs, x), s + [x])
  {
    if x.key.Some? {
      match Find(gs, x.key.value)
      case Some(i) => AddExisting(gs, s, x, i);
      case None => AddNew(gs, s, x);
    } else {
      Extend(s, x);
    }
  }

  /** The fold tabulates: one group per present key, with exactly that key's sum and count. */
  lemma {:induction false} GroupsTabulate<K(!new)>(s: seq<Sample<K>>)
    ensures Tabulates(Groups(s), s)
  {
    if s != [] {
      var p := s[..|s| - 1];
      GroupsTabulate(p);
      assert p + [s[|s| - 1]] == s;
      AddTabulates(Groups(p), p, s[|s| - 1]);
    }
  }

  /** Folding keeps the grand totals: the groups' sums add up to every present value, their sizes to every present row. */
  lemma {:induction false} GroupsTotal<K(!new)>(s: seq<Sample<K>>)
    ensures Sum(Groups(s), GroupTotal) == KnownTotal(s)
    ensures Sum(Groups(s), GroupSize) == KnownCount(s) as real
  {
    if s != [] {
      var p := s[..|s| - 1];
      var x := s[|s| - 1];
      GroupsTotal(p);
      var gs := Groups(p);
      if x.key.Some? {
        match Find(gs, x.key.value)
        case Some(i) =>
          var g := Group(x.key.value, gs[i].total + x.value, gs[i].size + 1);
          SumUpdate(gs, i, g, GroupTotal);
          SumUpdate(gs, i, g, GroupSize);
        case None =>
          var g := Group(x.key.value, x.value, 1);
          SumAppend(gs, [g], GroupTotal);
          SumAppend(gs, [g], GroupSize);
      }
    }
  }

  // ---------------------------------------------------------------- means and counts

  /** A row of `groupby(...).mean().reset_index()`. */
  datatype Mean<K> = Mean(key: K, value: real)

  /** A row of `value_counts().reset_index()`. */
  datatype Tally<K> = Tally(key: K, count: nat)

  function MeanKey<K>(m: Mean<K>): K { m.key }

  function MeanValue<K>(m: Mean<K>): real { m.value }

  function TallyKey<K>(t: Tally<K>): K { t.key }

  function TallyCount<K>(t: Tally<K>): real { t.count as real }

  /** A group's mean; every group built by `Groups` has at least one row (see `GroupsTabulate`). */
  function MeanOf<K>(g: Group<K>): real
  {
    if g.size == 0 then 0.0 else g.total / g.size as real
  }

  /** The mean of every group, in group order. */
  function MeanTable<K(==)>(s: seq<Sample<K>>): seq<Mean<K>>
  {
    var gs := Groups(s);
    seq(|gs|, i requires 0 <= i < |gs| => Mean(gs[i].key, MeanOf(gs[i])))
  }

  /** The size of every group, in group order. */
  function TallyTable<K(==)>(s: seq<Sample<K>>): seq<Tally<K>>
  {
    var gs := Groups(s);
    seq(|gs|, i requires 0 <= i < |gs| => Tally(gs[i].key, gs[i].size))
  }

  /**
   * One mean per present key and no other: the keys are distinct, a key has a row exactly when some
   * sample carries it, and the row's value is that key's sum divided by its count, which is at least one.
   */
  lemma MeanTableCorrect<K(!new)>(s: seq<Sample<K>>)
    ensures DistinctBy(MeanTable(s), MeanKey)
    ensures forall k :: k in KeysOf(s) <==> exists i :: 0 <= i < |MeanTable(s)| && MeanTable(s)[i].key == k
    ensures forall i :: 0 <= i < |MeanTable(s)| ==>
      CountFor(s, MeanTable(s)[i].key) >= 1 &&
      MeanTable(s)[i].value == SumFor(s, MeanTable(s)[i].key) / CountFor(s, MeanTable(s)[i].key) as real
  {
    GroupsTabulate(s);
    var gs := Groups(s);
    var r := MeanTable(s);
    forall k
      ensures k in KeysOf(s) <==> exists i :: 0 <= i < |r| && r[i].key == k
    {
      if k in KeysOf(s) {
        assert r[Find(gs, k).value].key == k;
      }
    }
  }

  /**
   * `value_counts`: one count per present key and no other, each at least one and equal to the
   * number of samples with that key, together counting every sample whose key is present.
   */
  lemma TallyTableCorrect<K(!new)>(s: seq<Sample<K>>)
    ensures DistinctBy(TallyTable(s), TallyKey)
    ensures forall k :: k in KeysOf(s) <==> exists i :: 0 <= i < |TallyTable(s)| && TallyTable(s)[i].key == k
    ensures forall i :: 0 <= i < |TallyTable(s)| ==>
      TallyTable(s)[i].count >= 1 && TallyTable(s)[i].count == CountFor(s, TallyTable(s)[i].key)
    ensures Sum(TallyTable(s), TallyCount) == KnownCount(s) as real
  {
    GroupsTabulate(s);
    GroupsTotal(s);
    var gs := Groups(s);
    var r := TallyTable(s);
    forall k
      ensures k in KeysOf(s) <==> exists i :: 0 <= i < |r| && r[i].key == k
    {
      if k in KeysOf(s) {
        assert r[Find(gs, k).value].key == k;
      }
    }
    SumPointwise(r, TallyCount, gs, GroupSize);
  }

  /** A mean times its count is its group's total. */
  lemma MeanOfTimes<K>(g: Group<K>)
    requires g.size >= 1
    ensures MeanOf(g) * g.size as real == g.total
  {
  }

  /** A row of the mean table weighted by how many samples carry its key. */
  function Weighted<K(==)>(s: seq<Sample<K>>, m: Mean<K>): real
  {
    m.value * CountFor(s, m.key) as real
  }

  /** `Weighted` as a function value, for sums over a table. */
  function WeightedBy<K(==)>(s: seq<Sample<K>>): Mean<K> -> real
  {
    (m: Mean<K>) => Weighted(s, m)
  }

  /** Row `i`: its mean times its count is its group's total. */
  lemma MeanTableRow<K(!new)>(s: seq<Sample<K>>, i: nat)
    requires i < |Groups(s)|
    ensures i < |MeanTable(s)| && Weighted(s, MeanTable(s)[i]) == Groups(s)[i].total
  {
    GroupsTabulate(s);
    var g := Groups(s)[i];
    assert MeanTable(s)[i] == Mean(g.key, MeanOf(g));
    assert CountFor(s, g.key) == g.size;
    MeanOfTimes(g);
  }

  /** Row by row, a mean times its count is its group's total. */
  lemma MeanTableRows<K(!new)>(s: seq<Sample<K>>)
    ensures |MeanTable(s)| == |Groups(s)|
    ensures forall i :: 0 <= i < |MeanTable(s)| ==> Weighted(s, MeanTable(s)[i]) == Groups(s)[i].total
  {
    forall i | 0 <= i < |MeanTable(s)|
      ensures Weighted(s, MeanTable(s)[i]) == Groups(s)[i].total
    {
      MeanTableRow(s, i);
    }
  }

  /** Weighting each mean by its group's count gives back the sum of all present values. */
  lemma MeanTableWeighted<K(!new)>(s: seq<Sample<K>>)
    ensures Sum(MeanTable(s), WeightedBy(s)) == KnownTotal(s)
  {
    MeanTableRows(s);
    GroupsTotal(s);
    SumPointwise(MeanTable(s), WeightedBy(s), Groups(s), GroupTotal);
  }

  /** The smallest and the largest value carrying key `k`. */
  function MinFor<K(==)>(s: seq<Sample<K>>, k: K): real
    requires CountFor(s, k) >= 1
  {
    var p := s[..|s| - 1];
    var x := s[|s| - 1];
    if x.key != Some(k) then MinFor(p, k)
    else if CountFor(p, k) == 0 then x.value
    else if x.value < MinFor(p, k) then x.value
    else MinFor(p, k)
  }

  function MaxFor<K(==)>(s: seq<Sample<K>>, k: K): real
    requires CountFor(s, k) >= 1
  {
    var p := s[..|s| - 1];
    var x := s[|s| - 1];
    if x.key != Some(k) then MaxFor(p, k)
    else if CountFor(p, k) == 0 then x.value
    else if x.value > MaxFor(p, k) then x.value
    else MaxFor(p, k)
  }

  /** The minimum and the maximum are values of the group, and bound all of them. */
  lemma {:induction false} MinMaxAttained<K(!new)>(s: seq<Sample<K>>, k: K)
    requires CountFor(s, k) >= 1
    ensures exists i :: 0 <= i < |s| && s[i].key == Some(k) && s[i].value == MinFor(s, k)
    ensures exists j :: 0 <= j < |s| && s[j].key == Some(k) && s[j].value == MaxFor(s, k)
  {
    var p := s[..|s| - 1];
    assert forall i :: 0 <= i < |p| ==> p[i] == s[i];
    if CountFor(p, k) >= 1 {
      MinMaxAttained(p, k);
    }
  }

  lemma {:induction false} MinMaxBound<K(!new)>(s: seq<Sample<K>>, k: K)
    requires CountFor(s, k) >= 1
    ensures forall i :: 0 <= i < |s| && s[i].key == Some(k) ==> MinFor(s, k) <= s[i].value <= MaxFor(s, k)
  {
    var p := s[..|s| - 1];
    assert forall i :: 0 <= i < |p| ==> p[i] == s[i];
    if CountFor(p, k) >= 1 {
      MinMaxBound(p, k);
    } else {
      KeysOfCount(p, k);
    }
  }

  /** How far the values of key `k` exceed `m`, added up: the sum minus `m` times the count. */
  function Excess<K(==)>(s: seq<Sample<K>>, k: K, m: real): real
  {
    if s == [] then 0.0
    else Excess(s[..|s| - 1], k, m) + (if s[|s| - 1].key == Some(k) then s[|s| - 1].value - m else 0.0)
  }

  lemma {:induction false} ExcessSum<K(!new)>(s: seq<Sample<K>>, k: K, m: real)
    ensures SumFor(s, k) == m * CountFor(s, k) as real + Excess(s, k, m)
  {
    if s != [] {
      var p := s[..|s| - 1];
      ExcessSum(p, k, m);
      var c := CountFor(p, k) as real;
      assert m * (c + 1.0) == m * c + m;
    }
  }

  lemma {:induction false} ExcessAtLeast<K(!new)>(s: seq<Sample<K>>, k: K, m: real)
    requires forall i :: 0 <= i < |s| && s[i].key == Some(k) ==> s[i].value >= m
    ensures Excess(s, k, m) >= 0.0
  {
    if s != [] {
      var p := s[..|s| - 1];
      assert forall i :: 0 <= i < |p| ==> p[i] == s[i];
      ExcessAtLeast(p, k, m);
    }
  }

  lemma {:induction false} ExcessAtMost<K(!new)>(s: seq<Sample<K>>, k: K, m: real)
    requires forall i :: 0 <= i < |s| && s[i].key == Some(k) ==> s[i].value <= m
    ensures Excess(s, k, m) <= 0.0
  {
    if s != [] {
      var p := s[..|s| - 1];
      assert forall i :: 0 <= i < |p| ==> p[i] == s[i];
      ExcessAtMost(p, k, m);
    }
  }

  /** The mean exceeds `m` by the excess per row. */
  lemma MeanExcess<K(!new)>(s: seq<Sample<K>>, k: K, m: real)
    requires CountFor(s, k) >= 1
    ensures Excess(s, k, m) >= 0.0 ==> SumFor(s, k) / CountFor(s, k) as real >= m
    ensures Excess(s, k, m) <= 0.0 ==> SumFor(s, k) / CountFor(s, k) as real <= m
  {
    ExcessSum(s, k, m);
    ShiftedMean(SumFor(s, k), CountFor(s, k) as real, m, Excess(s, k, m));
  }

  lemma ShiftedMean(total: real, count: real, m: real, e: real)
    requires count > 0.0 && total == m * count + e
    ensures e >= 0.0 ==> total / count >= m
    ensures e <= 0.0 ==> total / count <= m
  {
    assert total / count == m + e / count;
  }

  /** A present key's mean lies between the smallest and the largest of its values. */
  lemma MeanBetween<K(!new)>(s: seq<Sample<K>>, k: K)
    requires k in KeysOf(s)
    ensures CountFor(s, k) >= 1
    ensures MinFor(s, k) <= SumFor(s, k) / CountFor(s, k) as real <= MaxFor(s, k)
    ensures exists i :: 0 <= i < |s| && s[i].key == Some(k) && s[i].value == MinFor(s, k)
    ensures exists j :: 0 <= j < |s| && s[j].key == Some(k) && s[j].value == MaxFor(s, k)
  {
    KeysOfCount(s, k);
    MinMaxBound(s, k);
    ExcessAtLeast(s, k, MinFor(s, k));
    ExcessAtMost(s, k, MaxFor(s, k));
    MeanExcess(s, k, MinFor(s, k));
    MeanExcess(s, k, MaxFor(s, k));
    MinMaxAttained(s, k);
  }
}
