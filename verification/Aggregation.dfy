// Reducing a Family's Windows to its statistics. The map is visited in any
// order; what comes out is fixed by the Windows alone.
module Aggregation {
  import opened Basics
  import opened Sorting
  import opened Measurements
  import opened Window

  // A Window as a value: what it holds and whether it has filled.
  datatype WindowView = WindowView(contents: seq<Sample>, filled: bool)

  type Windows = map<string, WindowView>

  function LossRatio(s: seq<Sample>): Option<real> {
    if |s| == 0 then None else Some(Losses(s) as real / |s| as real)
  }

  function StatsOf(name: string, w: WindowView): TargetStats {
    TargetStats(name, MeanRttOf(w.contents), LossRatio(w.contents))
  }

  // ---- Sums over Targets, in no particular order

  function LossAt(ws: Windows, name: string): real {
    if name in ws && LossRatio(ws[name].contents).Some? then LossRatio(ws[name].contents).value else 0.0
  }

  function RttAt(ws: Windows, name: string): nat {
    if name in ws && MeanRttOf(ws[name].contents).Some? then MeanRttOf(ws[name].contents).value else 0
  }

  ghost function LossTotal(ws: Windows, names: set<string>): real {
    if names == {} then 0.0
    else
      var n :| n in names;
      LossAt(ws, n) + LossTotal(ws, names - {n})
  }

  ghost function RttTotal(ws: Windows, names: set<string>): nat {
    if names == {} then 0
    else
      var n :| n in names;
      RttAt(ws, n) + RttTotal(ws, names - {n})
  }

  // Whichever Target is taken first, the sum is the same.
  lemma {:induction false} LossTotalPick(ws: Windows, names: set<string>, x: string)
    requires x in names
    ensures LossTotal(ws, names) == LossAt(ws, x) + LossTotal(ws, names - {x})
  {
    var n :| n in names && LossTotal(ws, names) == LossAt(ws, n) + LossTotal(ws, names - {n});
    if n != x {
      LossTotalPick(ws, names - {n}, x);
      LossTotalPick(ws, names - {x}, n);
      assert names - {n} - {x} == names - {x} - {n};
    }
  }

  lemma {:induction false} RttTotalPick(ws: Windows, names: set<string>, x: string)
    requires x in names
    ensures RttTotal(ws, names) == RttAt(ws, x) + RttTotal(ws, names - {x})
  {
    var n :| n in names && RttTotal(ws, names) == RttAt(ws, n) + RttTotal(ws, names - {n});
    if n != x {
      RttTotalPick(ws, names - {n}, x);
      RttTotalPick(ws, names - {x}, n);
      assert names - {n} - {x} == names - {x} - {n};
    }
  }

  // The Targets whose Window yields a loss, and those whose Window yields an RTT.
  function Lossy(ws: Windows, names: set<string>): set<string> {
    set n | n in names && n in ws && LossRatio(ws[n].contents).Some?
  }

  function Timed(ws: Windows, names: set<string>): set<string> {
    set n | n in names && n in ws && MeanRttOf(ws[n].contents).Some?
  }

  ghost function MeanLoss(ws: Windows): Option<real> {
    var n := |Lossy(ws, ws.Keys)|;
    if n == 0 then None else Some(LossTotal(ws, ws.Keys) / n as real)
  }

  ghost function MeanRtt(ws: Windows): Option<nat> {
    var n := |Timed(ws, ws.Keys)|;
    if n == 0 then None else Some(Wrap64(RttTotal(ws, ws.Keys)) / n)
  }

  predicate ByTarget(a: TargetStats, b: TargetStats) {
    NameLeq(a.target, b.target)
  }

  // Each Target once, in name order, with its own statistics.
  ghost predicate PerTarget(ws: Windows, per: seq<TargetStats>) {
    && Sorted(per, ByTarget)
    && Covers(ws, ws.Keys, per)
  }

  ghost predicate Covers(ws: Windows, names: set<string>, per: seq<TargetStats>) {
    && |per| == |names|
    && (forall i :: 0 <= i < |per| ==> per[i].target in names && per[i].target in ws && per[i] == StatsOf(per[i].target, ws[per[i].target]))
    && (forall i, j :: 0 <= i < j < |per| ==> per[i].target != per[j].target)
  }

  // The whole promise, with no visiting order in it.
  ghost predicate IsAggregate(ws: Windows, s: FamilyStats) {
    && s.exactLoss == MeanLoss(ws)
    && s.rttMicros == MeanRtt(ws)
    && (s.windowFilled <==> ws != map[] && forall n :: n in ws ==> ws[n].filled)
    && PerTarget(ws, s.perTarget)
  }

  lemma ByTargetIsLinear()
    ensures LinearOrder(ByTarget)
  {
    forall a: TargetStats, b: TargetStats ensures ByTarget(a, b) || ByTarget(b, a) {
      NameLeqTotal(a.target, b.target);
    }
    forall a: TargetStats, b: TargetStats, c: TargetStats | ByTarget(a, b) && ByTarget(b, c) ensures ByTarget(a, c) {
      NameLeqTransitive(a.target, b.target, c.target);
    }
  }

  lemma SortedCover(ws: Windows, per: seq<TargetStats>)
    requires Covers(ws, ws.Keys, per)
    ensures PerTarget(ws, Sort(per, ByTarget))
  {
    ByTargetIsLinear();
    SortSorts(per, ByTarget);
    var sorted := Sort(per, ByTarget);
    forall i | 0 <= i < |sorted| ensures sorted[i] in per {
      assert sorted[i] in multiset(sorted);
    }
    DistinctIsOnce(per);
    forall i, j | 0 <= i < j < |sorted| ensures sorted[i].target != sorted[j].target {
      if sorted[i].target == sorted[j].target {
        assert sorted[i] in per && sorted[j] in per;
        TwiceCounted(sorted, i, j);
      }
    }
  }

  // A list with distinct names holds each entry once.
  lemma {:induction false} DistinctIsOnce(per: seq<TargetStats>)
    requires forall i, j :: 0 <= i < j < |per| ==> per[i].target != per[j].target
    ensures forall t :: multiset(per)[t] <= 1
  {
    if per != [] {
      var n := |per| - 1;
      DistinctIsOnce(per[..n]);
      assert per == per[..n] + [per[n]];
      assert per[n] !in per[..n];
    }
  }

  lemma TwiceCounted(s: seq<TargetStats>, i: nat, j: nat)
    requires i < j < |s| && s[i] == s[j]
    ensures multiset(s)[s[i]] >= 2
  {
    assert s == s[..i] + [s[i]] + s[i+1..j] + [s[j]] + s[j+1..];
  }

  // Two lists that keep the promise are one: the result is the same for every
  // visiting order.
  lemma {:induction false} PerTargetIsUnique(ws: Windows, a: seq<TargetStats>, b: seq<TargetStats>)
    requires PerTarget(ws, a) && PerTarget(ws, b)
    ensures a == b
  {
    CoverNames(ws, a);
    CoverNames(ws, b);
    forall i | 0 <= i < |a| ensures a[i] == b[i] {
      SameAt(ws, a, b, i);
    }
  }

  function NamesOf(per: seq<TargetStats>): set<string> {
    set i | 0 <= i < |per| :: per[i].target
  }

  lemma {:induction false} NamesCard(per: seq<TargetStats>)
    requires forall i, j :: 0 <= i < j < |per| ==> per[i].target != per[j].target
    ensures |NamesOf(per)| == |per|
  {
    if per != [] {
      var n := |per| - 1;
      NamesCard(per[..n]);
      assert forall i :: 0 <= i < n ==> per[..n][i] == per[i];
      assert NamesOf(per) == NamesOf(per[..n]) + {per[n].target};
    }
  }

  lemma CoverNames(ws: Windows, per: seq<TargetStats>)
    requires Covers(ws, ws.Keys, per)
    ensures NamesOf(per) == ws.Keys
  {
    NamesCard(per);
    SubsetOfSameSize(NamesOf(per), ws.Keys);
  }

  lemma {:induction false} SubsetOfSameSize(a: set<string>, b: set<string>)
    requires a <= b && |a| == |b|
    ensures a == b
  {
    if b != {} {
      var y :| y in b;
      if y in a {
        SubsetOfSameSize(a - {y}, b - {y});
      } else {
        assert a <= b - {y};
        SubsetCard(a, b - {y});
      }
    }
  }

  lemma {:induction false} SameAt(ws: Windows, a: seq<TargetStats>, b: seq<TargetStats>, i: nat)
    requires PerTarget(ws, a) && PerTarget(ws, b) && NamesOf(a) == NamesOf(b) && i < |a| && |a| == |b|
    ensures a[i] == b[i]
  {
    forall k | 0 <= k < i ensures a[k] == b[k] {
      SameAt(ws, a, b, k);
    }
    assert a[i].target in NamesOf(b) && b[i].target in NamesOf(a);
    var j :| 0 <= j < |b| && b[j].target == a[i].target;
    var k :| 0 <= k < |a| && a[k].target == b[i].target;
    assert j >= i && k >= i;
    NameLeqTotal(a[i].target, a[i].target);
    NameLeqTotal(b[i].target, b[i].target);
    assert NameLeq(b[i].target, b[j].target) by { assert j == i || ByTarget(b[i], b[j]); }
    assert NameLeq(a[i].target, a[k].target) by { assert k == i || ByTarget(a[i], a[k]); }
    NameLeqAntisymmetric(a[i].target, b[i].target);
  }

  lemma AggregateIsUnique(ws: Windows, a: FamilyStats, b: FamilyStats)
    requires IsAggregate(ws, a) && IsAggregate(ws, b)
    ensures a == b
  {
    PerTargetIsUnique(ws, a.perTarget, b.perTarget);
  }

  // And there always is one.
  lemma AggregateExists(ws: Windows) returns (s: FamilyStats)
    ensures IsAggregate(ws, s)
  {
    var per := ListAll(ws, ws.Keys);
    SortedCover(ws, per);
    s := FamilyStats(MeanRtt(ws), MeanLoss(ws), ws != map[] && forall n :: n in ws ==> ws[n].filled, Sort(per, ByTarget));
  }

  lemma {:induction false} ListAll(ws: Windows, names: set<string>) returns (per: seq<TargetStats>)
    requires names <= ws.Keys
    ensures Covers(ws, names, per)
  {
    if names == {} {
      per := [];
    } else {
      var n :| n in names;
      var rest := ListAll(ws, names - {n});
      per := rest + [StatsOf(n, ws[n])];
    }
  }

  // ---- What it comes to

  // A Family with one Target reports that Target's own statistics.
  lemma OneTargetInFull(ws: Windows, n: string, s: FamilyStats)
    requires ws.Keys == {n} && IsAggregate(ws, s)
    ensures var c := ws[n].contents;
            && s.exactLoss == (if c == [] then None else Some(Losses(c) as real / |c| as real))
            && s.rttMicros == MeanRttOf(c)
            && s.windowFilled == ws[n].filled
            && s.perTarget == [TargetStats(n, s.rttMicros, s.exactLoss)]
  {
    MeansOfOne(ws, n);
    assert n in ws && |s.perTarget| == |ws.Keys| == 1;
    assert s.perTarget == [StatsOf(n, ws[n])];
  }

  lemma MeansOfOne(ws: Windows, n: string)
    requires ws.Keys == {n}
    ensures var c := ws[n].contents;
            && MeanLoss(ws) == (if c == [] then None else Some(Losses(c) as real / |c| as real))
            && MeanRtt(ws) == MeanRttOf(c)
  {
    LossTotalPick(ws, {n}, n);
    RttTotalPick(ws, {n}, n);
    MeansFit(ws[n].contents);
    assert {n} - {n} == {};
    assert Lossy(ws, {n}) == if ws[n].contents != [] then {n} else {};
    assert Timed(ws, {n}) == if MeanRttOf(ws[n].contents).Some? then {n} else {};
  }

  // The per-Target list: every Target once, by name, with its own loss and mean
  // RTT, none of either for an empty Window.
  lemma PerTargetInFull(ws: Windows, s: FamilyStats)
    requires IsAggregate(ws, s)
    ensures forall n :: n in ws <==> exists i :: 0 <= i < |s.perTarget| && s.perTarget[i].target == n
    ensures forall i, j :: 0 <= i < j < |s.perTarget| ==>
              s.perTarget[i].target != s.perTarget[j].target && NameLeq(s.perTarget[i].target, s.perTarget[j].target)
    ensures forall i :: 0 <= i < |s.perTarget| ==>
              var t := s.perTarget[i];
              t.target in ws && var c := ws[t.target].contents;
                                && t.exactLoss == (if c == [] then None else Some(Losses(c) as real / |c| as real))
                                && t.rttMicros == MeanRttOf(c)
  {
    CoverNames(ws, s.perTarget);
    forall i, j | 0 <= i < j < |s.perTarget| ensures NameLeq(s.perTarget[i].target, s.perTarget[j].target) {
      assert ByTarget(s.perTarget[i], s.perTarget[j]);
    }
    forall n | n in ws ensures exists i :: 0 <= i < |s.perTarget| && s.perTarget[i].target == n {
      assert n in NamesOf(s.perTarget);
    }
  }

  // Two Targets count alike whatever their Windows hold; one without data
  // stays out of that mean, and the Family's Window is full when both are.
  lemma TwoTargetsInFull(ws: Windows, a: string, b: string, s: FamilyStats)
    requires a != b && ws.Keys == {a, b} && IsAggregate(ws, s)
    ensures s.windowFilled <==> ws[a].filled && ws[b].filled
    ensures var x, y := ws[a].contents, ws[b].contents;
            && (x != [] && y != [] ==>
                  s.exactLoss == Some((Losses(x) as real / |x| as real + Losses(y) as real / |y| as real) / 2.0))
            && (x != [] && y == [] ==> s.exactLoss == Some(Losses(x) as real / |x| as real))
            && (x == [] && y == [] ==> s.exactLoss == None)
    ensures var x, y := MeanRttOf(ws[a].contents), MeanRttOf(ws[b].contents);
            && (x.Some? && y.Some? ==> s.rttMicros == Some((x.value + y.value) % 0x1_0000_0000_0000_0000 / 2))
            && (x.Some? && y.None? ==> s.rttMicros == x)
            && (x.None? && y.None? ==> s.rttMicros == None)
  {
    MeanLossOfTwo(ws, a, b);
    OwnLoss(ws, a);
    OwnLoss(ws, b);
    MeanRttOfTwo(ws, a, b);
    FilledOfTwo(ws, a, b);
  }

  lemma FilledOfTwo(ws: Windows, a: string, b: string)
    requires a != b && ws.Keys == {a, b}
    ensures (ws != map[] && forall n :: n in ws ==> ws[n].filled) <==> ws[a].filled && ws[b].filled
  {
    assert a in ws && b in ws;
    assert forall n :: n in ws ==> n == a || n == b;
  }

  lemma MeanLossOfTwo(ws: Windows, a: string, b: string)
    requires a != b && ws.Keys == {a, b}
    ensures var x, y := ws[a].contents, ws[b].contents;
            && (x != [] && y != [] ==> MeanLoss(ws) == Some((LossAt(ws, a) + LossAt(ws, b)) / 2.0))
            && (x != [] && y == [] ==> MeanLoss(ws) == Some(LossAt(ws, a)))
            && (x == [] && y == [] ==> MeanLoss(ws) == None)
  {
    OfTwo(ws, a, b);
    SumsOfTwo(ws, a, b);
    if ws[b].contents == [] {
      OwnLoss(ws, b);
    }
    MeanOfTwo(LossTotal(ws, ws.Keys), |Lossy(ws, ws.Keys)|, LossAt(ws, a), LossAt(ws, b),
              ws[a].contents != [], ws[b].contents != []);
  }

  lemma MeanOfTwo(total: real, n: nat, p: real, q: real, hasP: bool, hasQ: bool)
    requires total == p + q && n == (if hasP then 1 else 0) + if hasQ then 1 else 0
    requires !hasQ ==> q == 0.0
    ensures var mean := if n == 0 then None else Some(total / n as real);
            && (hasP && hasQ ==> mean == Some((p + q) / 2.0))
            && (hasP && !hasQ ==> mean == Some(p))
            && (!hasP && !hasQ ==> mean == None)
  {
    if n > 0 {
      OverOneOrTwo(total, n as real);
    }
  }

  lemma OverOneOrTwo(total: real, d: real)
    requires d == 1.0 || d == 2.0
    ensures total / d == if d == 1.0 then total else total / 2.0
  {
    var mean := total / d;
    assert mean * d == total;
    assert mean * 1.0 == mean;
  }

  lemma OwnLoss(ws: Windows, a: string)
    requires a in ws
    ensures var x := ws[a].contents; LossAt(ws, a) == if x == [] then 0.0 else Losses(x) as real / |x| as real
  {
  }

  lemma MeanRttOfTwo(ws: Windows, a: string, b: string)
    requires a != b && ws.Keys == {a, b}
    ensures var x, y := MeanRttOf(ws[a].contents), MeanRttOf(ws[b].contents);
            && (x.Some? && y.Some? ==> MeanRtt(ws) == Some((x.value + y.value) % 0x1_0000_0000_0000_0000 / 2))
            && (x.Some? && y.None? ==> MeanRtt(ws) == x)
            && (x.None? && y.None? ==> MeanRtt(ws) == None)
  {
    OfTwo(ws, a, b);
    SumsOfTwo(ws, a, b);
    MeansFit(ws[a].contents);
    MeansFit(ws[b].contents);
  }

  // A mean never exceeds 64 bits.
  lemma MeansFit(s: seq<Sample>)
    ensures MeanRttOf(s).Some? ==> MeanRttOf(s).value < 0x1_0000_0000_0000_0000
  {
    LossesAreSamples(s);
    if MeanRttOf(s).Some? {
      Quotient(Wrap64(RttSum(s)), |s| - Losses(s));
    }
  }

  lemma Quotient(x: nat, n: nat)
    requires n > 0
    ensures x / n <= x
  {
    var q := x / n;
    assert x == n * q + x % n;
    TimesAtLeast(n, q);
  }

  lemma TimesAtLeast(n: nat, q: nat)
    requires n > 0
    ensures q <= n * q
  {
  }

  lemma SumsOfTwo(ws: Windows, a: string, b: string)
    requires a != b && ws.Keys == {a, b}
    ensures LossTotal(ws, ws.Keys) == LossAt(ws, a) + LossAt(ws, b)
    ensures RttTotal(ws, ws.Keys) == RttAt(ws, a) + RttAt(ws, b)
  {
    assert {a, b} - {a} == {b} && {b} - {b} == {};
    LossTotalPick(ws, {a, b}, a);
    LossTotalPick(ws, {b}, b);
    RttTotalPick(ws, {a, b}, a);
    RttTotalPick(ws, {b}, b);
  }

  lemma OfTwo(ws: Windows, a: string, b: string)
    requires a != b && ws.Keys == {a, b}
    ensures |Lossy(ws, ws.Keys)| == (if ws[a].contents != [] then 1 else 0) + if ws[b].contents != [] then 1 else 0
    ensures |Timed(ws, ws.Keys)|
            == (if MeanRttOf(ws[a].contents).Some? then 1 else 0) + if MeanRttOf(ws[b].contents).Some? then 1 else 0
  {
    PairCard(Lossy(ws, ws.Keys), a, b);
    PairCard(Timed(ws, ws.Keys), a, b);
  }

  lemma PairCard(some: set<string>, a: string, b: string)
    requires a != b && some <= {a, b}
    ensures |some| == (if a in some then 1 else 0) + if b in some then 1 else 0
  {
    var rest := some - {a} - {b};
    assert rest == {};
    assert |some - {a}| == |rest| + if b in some then 1 else 0;
  }

  // ---- Comparing with a percentage

  // An exact ratio against pct/100, by integers alone.
  lemma RatioComparesAsIntegers(lost: nat, total: nat, pct: int)
    requires total > 0
    ensures lost as real / total as real < pct as real / 100.0 <==> 100 * lost < pct * total
    ensures lost as real / total as real <= pct as real / 100.0 <==> 100 * lost <= pct * total
  {
    var a, b := lost as real, total as real;
    var q, p := a / b, pct as real / 100.0;
    assert q * b == a && p * 100.0 == pct as real;
    assert (100 * lost) as real == 100.0 * a && (pct * total) as real == pct as real * b;
    assert 100.0 * a == (100.0 * b) * q && pct as real * b == (100.0 * b) * p;
    if q < p {
      assert (100.0 * b) * q < (100.0 * b) * p;
    } else {
      assert (100.0 * b) * p <= (100.0 * b) * q;
      if p < q {
        assert (100.0 * b) * p < (100.0 * b) * q;
      }
    }
  }

  ghost function LostTotal(ws: Windows, names: set<string>): nat {
    if names == {} then 0
    else
      var n :| n in names;
      (if n in ws then Losses(ws[n].contents) else 0) + LostTotal(ws, names - {n})
  }

  // Windows in lockstep all hold as many Samples.
  ghost predicate Lockstep(ws: Windows, total: nat) {
    forall n :: n in ws ==> |ws[n].contents| == total
  }

  lemma {:induction false} LockstepTotals(ws: Windows, names: set<string>, total: nat)
    requires Lockstep(ws, total) && total > 0 && names <= ws.Keys
    ensures LossTotal(ws, names) == LostTotal(ws, names) as real / total as real
  {
    if names != {} {
      var n :| n in names && LossTotal(ws, names) == LossAt(ws, n) + LossTotal(ws, names - {n});
      LostTotalPick(ws, names, n);
      LockstepTotals(ws, names - {n}, total);
      assert LossAt(ws, n) == Losses(ws[n].contents) as real / total as real;
      AddFractions(Losses(ws[n].contents), LostTotal(ws, names - {n}), total);
    }
  }

  lemma AddFractions(a: nat, b: nat, t: nat)
    requires t > 0
    ensures a as real / t as real + b as real / t as real == (a + b) as real / t as real
  {
  }

  lemma NestedFraction(a: nat, t: nat, k: nat)
    requires t > 0 && k > 0
    ensures k * t > 0 && a as real / t as real / k as real == a as real / (k * t) as real
  {
    var x, y, z := a as real, t as real, k as real;
    assert (k * t) as real == z * y;
    var q := x / y / z;
    assert q * z == x / y;
    assert q * (z * y) == (q * z) * y == x;
  }

  lemma {:induction false} LostTotalPick(ws: Windows, names: set<string>, x: string)
    requires x in names
    ensures LostTotal(ws, names) == (if x in ws then Losses(ws[x].contents) else 0) + LostTotal(ws, names - {x})
  {
    var n :| n in names && LostTotal(ws, names) == (if n in ws then Losses(ws[n].contents) else 0) + LostTotal(ws, names - {n});
    if n != x {
      LostTotalPick(ws, names - {n}, x);
      LostTotalPick(ws, names - {x}, n);
      assert names - {n} - {x} == names - {x} - {n};
    }
  }

  // The mean loss of Windows in lockstep is all losses over all Samples, so
  // its comparison with a percentage is one of integers.
  lemma MeanLossComparesAsIntegers(ws: Windows, total: nat, pct: int)
    requires ws != map[] && Lockstep(ws, total) && total > 0
    ensures MeanLoss(ws).Some?
    ensures var lost, samples := LostTotal(ws, ws.Keys), |ws| * total;
            && MeanLoss(ws).value == lost as real / samples as real
            && (MeanLoss(ws).value < pct as real / 100.0 <==> 100 * lost < pct * samples)
            && (MeanLoss(ws).value <= pct as real / 100.0 <==> 100 * lost <= pct * samples)
  {
    assert Lossy(ws, ws.Keys) == ws.Keys;
    NonEmptyMap(ws);
    LockstepTotals(ws, ws.Keys, total);
    NestedFraction(LostTotal(ws, ws.Keys), total, |ws|);
    RatioComparesAsIntegers(LostTotal(ws, ws.Keys), |ws| * total, pct);
  }

  lemma NonEmptyMap(ws: Windows)
    requires ws != map[]
    ensures |ws.Keys| == |ws| > 0
  {
    var n :| n in ws;
    assert |ws.Keys| == |ws.Keys - {n}| + 1;
  }

  // ---- The code

  // The Window, as it stands, is this value.
  ghost predicate Shows(w: WindowStats, view: WindowView)
    reads w, w.samples
  {
    w.Valid() && view == WindowView(Recent(w.pushed, w.capacity), w.Filled())
  }

  // The accumulators after some Targets.
  datatype Sums = Sums(rttSum: nat, rttCount: nat, lossSum: real, lossCount: nat, allFilled: bool, per: seq<TargetStats>)

  ghost predicate SummedUp(ws: Windows, done: set<string>, a: Sums) {
    && done <= ws.Keys
    && a.rttSum == Wrap64(RttTotal(ws, done)) && a.rttCount == |Timed(ws, done)|
    && a.lossSum == LossTotal(ws, done) && a.lossCount == |Lossy(ws, done)|
    && (a.allFilled <==> forall n :: n in done ==> ws[n].filled)
    && Covers(ws, done, a.per)
  }

  // One Target added.
  function Added(a: Sums, name: string, w: WindowView): Sums {
    var ts := StatsOf(name, w);
    Sums(if ts.rttMicros.Some? then Wrap64(a.rttSum + ts.rttMicros.value) else a.rttSum,
         if ts.rttMicros.Some? then a.rttCount + 1 else a.rttCount,
         if ts.exactLoss.Some? then a.lossSum + ts.exactLoss.value else a.lossSum,
         if ts.exactLoss.Some? then a.lossCount + 1 else a.lossCount,
         a.allFilled && w.filled, a.per + [ts])
  }

  lemma RttOneMore(ws: Windows, done: set<string>, name: string)
    requires name in ws && name !in done
    ensures var rtt := MeanRttOf(ws[name].contents);
            && RttTotal(ws, done + {name}) == RttTotal(ws, done) + (if rtt.Some? then rtt.value else 0)
            && |Timed(ws, done + {name})| == |Timed(ws, done)| + if rtt.Some? then 1 else 0
  {
    var more := done + {name};
    assert more - {name} == done;
    RttTotalPick(ws, more, name);
    var t := Timed(ws, done);
    assert Timed(ws, more) == if MeanRttOf(ws[name].contents).Some? then t + {name} else t;
  }

  lemma LossOneMore(ws: Windows, done: set<string>, name: string)
    requires name in ws && name !in done
    ensures var loss := LossRatio(ws[name].contents);
            && LossTotal(ws, done + {name}) == LossTotal(ws, done) + (if loss.Some? then loss.value else 0.0)
            && |Lossy(ws, done + {name})| == |Lossy(ws, done)| + if loss.Some? then 1 else 0
  {
    var more := done + {name};
    assert more - {name} == done;
    LossTotalPick(ws, more, name);
    var l := Lossy(ws, done);
    assert Lossy(ws, more) == if LossRatio(ws[name].contents).Some? then l + {name} else l;
  }

  lemma CoverOneMore(ws: Windows, done: set<string>, per: seq<TargetStats>, name: string)
    requires Covers(ws, done, per) && name in ws && name !in done
    ensures Covers(ws, done + {name}, per + [StatsOf(name, ws[name])])
  {
  }

  lemma RttSumOneMore(ws: Windows, done: set<string>, sum: nat, name: string)
    requires name in ws && name !in done && sum == Wrap64(RttTotal(ws, done))
    ensures var rtt := MeanRttOf(ws[name].contents);
            && Wrap64(RttTotal(ws, done + {name})) == (if rtt.Some? then Wrap64(sum + rtt.value) else sum)
            && |Timed(ws, done + {name})| == |Timed(ws, done)| + if rtt.Some? then 1 else 0
  {
    RttOneMore(ws, done, name);
    WrappedSum(RttTotal(ws, done), RttAt(ws, name));
  }

  lemma SummedOneMore(ws: Windows, done: set<string>, a: Sums, name: string)
    requires SummedUp(ws, done, a) && name in ws && name !in done
    ensures SummedUp(ws, done + {name}, Added(a, name, ws[name]))
  {
    RttSumOneMore(ws, done, a.rttSum, name);
    LossOneMore(ws, done, name);
    CoverOneMore(ws, done, a.per, name);
  }

  lemma SummedAll(ws: Windows, a: Sums)
    requires ws != map[] && SummedUp(ws, ws.Keys, a)
    ensures IsAggregate(ws, FamilyStats(if a.rttCount == 0 then None else Some(a.rttSum / a.rttCount),
                                        if a.lossCount == 0 then None else Some(a.lossSum / a.lossCount as real),
                                        a.allFilled, Sort(a.per, ByTarget)))
  {
    SortedCover(ws, a.per);
  }

  lemma NothingToSum(ws: Windows)
    requires ws == map[]
    ensures IsAggregate(ws, FamilyStats(None, None, false, []))
  {
  }

  method Aggregate(targets: map<string, WindowStats>, ghost ws: Windows) returns (s: FamilyStats)
    requires ws.Keys == targets.Keys && forall n {:trigger targets[n]} :: n in targets ==> Shows(targets[n], ws[n])
    ensures IsAggregate(ws, s)
  {
    if targets == map[] {
      NothingToSum(ws);
      return FamilyStats(None, None, false, []);
    }
    var a := SumTargets(targets, ws);
    SummedAll(ws, a);
    s := FamilyStats(if a.rttCount == 0 then None else Some(a.rttSum / a.rttCount),
                     if a.lossCount == 0 then None else Some(a.lossSum / a.lossCount as real),
                     a.allFilled, Sort(a.per, ByTarget));
  }

  method SumTargets(targets: map<string, WindowStats>, ghost ws: Windows) returns (a: Sums)
    requires ws.Keys == targets.Keys && forall n {:trigger targets[n]} :: n in targets ==> Shows(targets[n], ws[n])
    ensures SummedUp(ws, ws.Keys, a)
  {
    a := Sums(0, 0, 0.0, 0, true, []);
    NothingSummed(ws);
    var todo := targets.Keys;
    while todo != {}
      invariant todo <= targets.Keys
      invariant SummedBut(ws, todo, a)
      decreases todo
    {
      var name :| name in todo;
      a := AddTarget(a, name, targets[name], ws, todo);
      todo := todo - {name};
    }
    SummedEvery(ws, a);
  }

  // Every Target but those to do is summed.
  ghost predicate SummedBut(ws: Windows, todo: set<string>, a: Sums) {
    SummedUp(ws, ws.Keys - todo, a)
  }

  lemma NothingSummed(ws: Windows)
    ensures SummedBut(ws, ws.Keys, Sums(0, 0, 0.0, 0, true, []))
  {
    assert ws.Keys - ws.Keys == {};
    assert Timed(ws, {}) == {} && Lossy(ws, {}) == {};
  }

  lemma SummedEvery(ws: Windows, a: Sums)
    requires SummedBut(ws, {}, a)
    ensures SummedUp(ws, ws.Keys, a)
  {
    assert ws.Keys - {} == ws.Keys;
  }

  method AddTarget(a: Sums, name: string, w: WindowStats, ghost ws: Windows, ghost todo: set<string>) returns (a': Sums)
    requires name in ws && name in todo && Shows(w, ws[name])
    requires SummedBut(ws, todo, a)
    ensures SummedBut(ws, todo - {name}, a')
  {
    SummedOneMore(ws, ws.Keys - todo, a, name);
    assert ws.Keys - todo + {name} == ws.Keys - (todo - {name});
    a' := AddWindow(a, name, w, ws[name]);
  }

  method AddWindow(a: Sums, name: string, w: WindowStats, ghost view: WindowView) returns (a': Sums)
    requires Shows(w, view)
    ensures a' == Added(a, name, view)
  {
    a' := a;
    var ts := Measure(name, w, view);
    if ts.rttMicros.Some? {
      a' := a'.(rttSum := Wrap64(a'.rttSum + ts.rttMicros.value), rttCount := a'.rttCount + 1);
    }
    if ts.exactLoss.Some? {
      a' := a'.(lossSum := a'.lossSum + ts.exactLoss.value, lossCount := a'.lossCount + 1);
    }
    a' := a'.(per := a'.per + [ts]);
    if !w.Filled() {
      a' := a'.(allFilled := false);
    }
  }

  method Measure(name: string, w: WindowStats, ghost view: WindowView) returns (ts: TargetStats)
    requires Shows(w, view)
    ensures ts == StatsOf(name, view)
  {
    var rtt := w.MeanRTT();
    var lost, total := w.LossCounts();
    ts := TargetStats(name, rtt, if total > 0 then Some(lost as real / total as real) else None);
  }
}
