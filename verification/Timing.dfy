// How many cycles a Family takes to turn, for any Window size, thresholds,
// ramps and number of Targets, when every Target's Window is in lockstep.
module Timing {
  import opened Config
  import opened Measurements
  import opened HealthSpec
  import opened HealthHistory
  import opened Window
  import opened Aggregation

  // ---- Windows over some cycles, one Sample per Target and cycle

  type Pushed = map<string, seq<Sample>>

  function SamplesOf(cycles: seq<map<string, Sample>>, n: string): seq<Sample> {
    if cycles == [] then []
    else
      var rest, last := SamplesOf(cycles[..|cycles|-1], n), cycles[|cycles|-1];
      if n in last then rest + [last[n]] else rest
  }

  // The Windows of size size after the cycles.
  function WindowsAfter(pushed: Pushed, cycles: seq<map<string, Sample>>, size: nat): Windows {
    map n | n in pushed ::
      var all := pushed[n] + SamplesOf(cycles, n);
      WindowView(Recent(all, size), |all| >= size)
  }

  predicate AllLost(s: seq<Sample>) {
    forall i :: 0 <= i < |s| ==> s[i].lost
  }

  predicate RepliesWithin(s: seq<Sample>, bound: nat) {
    forall i :: 0 <= i < |s| ==> !s[i].lost && s[i].rttMicros <= bound
  }

  // Every Target of a Family with size Samples of the kind a predicate names.
  ghost predicate Full(pushed: Pushed, size: nat) {
    pushed != map[] && forall n :: n in pushed ==> |pushed[n]| >= size
  }

  ghost predicate LostThroughout(pushed: Pushed, size: nat) {
    Full(pushed, size) && forall n :: n in pushed ==> AllLost(Recent(pushed[n], size))
  }

  ghost predicate CleanThroughout(pushed: Pushed, size: nat, bound: nat) {
    Full(pushed, size) && forall n :: n in pushed ==> RepliesWithin(Recent(pushed[n], size), bound)
  }

  ghost predicate EveryCycle(names: set<string>, cycles: seq<map<string, Sample>>) {
    forall j :: 0 <= j < |cycles| ==> names <= cycles[j].Keys
  }

  ghost predicate Replied(names: set<string>, cycles: seq<map<string, Sample>>, bound: nat) {
    EveryCycle(names, cycles)
    && forall j, n :: 0 <= j < |cycles| && n in names ==> !cycles[j][n].lost && cycles[j][n].rttMicros <= bound
  }

  ghost predicate Unanswered(names: set<string>, cycles: seq<map<string, Sample>>) {
    EveryCycle(names, cycles) && forall j, n :: 0 <= j < |cycles| && n in names ==> cycles[j][n].lost
  }

  // The results of the cycles, each aggregated from the Windows it leaves.
  ghost predicate Results(pushed: Pushed, cycles: seq<map<string, Sample>>, size: nat, ss: seq<FamilyStats>) {
    |ss| == |cycles| && forall j :: 0 <= j < |ss| ==> IsAggregate(WindowsAfter(pushed, cycles[..j+1], size), ss[j])
  }

  lemma {:induction false} SamplesPerCycle(cycles: seq<map<string, Sample>>, n: string)
    requires forall j :: 0 <= j < |cycles| ==> n in cycles[j]
    ensures |SamplesOf(cycles, n)| == |cycles|
    ensures forall j :: 0 <= j < |cycles| ==> SamplesOf(cycles, n)[j] == cycles[j][n]
  {
    if cycles != [] {
      SamplesPerCycle(cycles[..|cycles|-1], n);
    }
  }

  // A full Window after some more Samples: what is left of it, then those.
  lemma RecentAfter(pushed: seq<Sample>, more: seq<Sample>, size: nat)
    requires |pushed| >= size > 0
    ensures Recent(pushed + more, size)
            == if |more| < size then Recent(pushed, size)[|more|..] + more else Recent(more, size)
  {
  }

  lemma {:induction false} LossesOfLost(s: seq<Sample>)
    requires AllLost(s)
    ensures Losses(s) == |s|
  {
    if s != [] {
      LossesOfLost(s[..|s|-1]);
    }
  }

  lemma {:induction false} LossesOfReplies(s: seq<Sample>, bound: nat)
    requires RepliesWithin(s, bound)
    ensures Losses(s) == 0
  {
    if s != [] {
      LossesOfReplies(s[..|s|-1], bound);
    }
  }

  function Min(a: nat, b: nat): nat {
    if a < b then a else b
  }

  // Replies into a lost Window push its losses out one by one.
  lemma LossesRecovering(pushed: seq<Sample>, more: seq<Sample>, size: nat, bound: nat)
    requires |pushed| >= size > 0 && AllLost(Recent(pushed, size)) && RepliesWithin(more, bound)
    ensures Losses(Recent(pushed + more, size)) == size - Min(|more|, size)
  {
    RecentAfter(pushed, more, size);
    if |more| < size {
      var kept := Recent(pushed, size)[|more|..];
      assert AllLost(kept);
      LossesConcat(kept, more);
      LossesOfLost(kept);
      LossesOfReplies(more, bound);
    } else {
      LossesOfReplies(Recent(more, size), bound);
    }
  }

  // Losses into a clean Window add up until it is full of them.
  lemma LossesFailing(pushed: seq<Sample>, more: seq<Sample>, size: nat, bound: nat)
    requires |pushed| >= size > 0 && RepliesWithin(Recent(pushed, size), bound) && AllLost(more)
    ensures Losses(Recent(pushed + more, size)) == Min(|more|, size)
  {
    RecentAfter(pushed, more, size);
    if |more| < size {
      var kept := Recent(pushed, size)[|more|..];
      LossesConcat(kept, more);
      LossesOfReplies(kept, bound);
      LossesOfLost(more);
    } else {
      LossesOfLost(Recent(more, size));
    }
  }

  // ---- Bounded round trips

  lemma QuotientWithin(a: nat, n: nat, bound: nat)
    requires n > 0 && a <= bound * n
    ensures a / n <= bound
  {
    var q := a / n;
    ScaledOrder(n, bound + 1, q);
    assert n * q <= a;
    assert n * (bound + 1) == bound * n + n;
  }

  // Multiplying by a positive number keeps an order, and shows it.
  lemma ScaledOrder(k: nat, x: int, y: int)
    requires k > 0
    ensures x <= y <==> k * x <= k * y
  {
    assert k * y - k * x == k * (y - x);
    assert y - x >= 0 ==> k * (y - x) >= 0;
    assert y - x < 0 ==> k * (y - x) < 0;
  }

  lemma MeanRttWithin(s: seq<Sample>, bound: nat)
    requires RttsWithin(s, bound)
    ensures MeanRttOf(s).Some? ==> MeanRttOf(s).value <= bound
  {
    RttSumWithin(s, bound);
    if |s| > Losses(s) {
      QuotientWithin(Wrap64(RttSum(s)), |s| - Losses(s), bound);
    }
  }

  lemma OneMoreWithin(a: nat, total: nat, k: nat, bound: nat)
    requires a <= bound && total <= bound * k
    ensures a + total <= bound * (k + 1)
  {
    assert bound * (k + 1) == bound * k + bound;
  }

  lemma {:induction false} RttTotalWithin(ws: Windows, names: set<string>, bound: nat)
    requires forall n :: n in ws ==> RttsWithin(ws[n].contents, bound)
    ensures RttTotal(ws, names) <= bound * |Timed(ws, names)|
  {
    if names != {} {
      var n :| n in names && RttTotal(ws, names) == RttAt(ws, n) + RttTotal(ws, names - {n});
      RttTotalWithin(ws, names - {n}, bound);
      var rest := Timed(ws, names - {n});
      if n in Timed(ws, names) {
        MeanRttWithin(ws[n].contents, bound);
        assert Timed(ws, names) == rest + {n};
        OneMoreWithin(RttAt(ws, n), RttTotal(ws, names - {n}), |rest|, bound);
        assert |rest + {n}| == |rest| + 1;
      } else {
        assert Timed(ws, names) == rest && RttAt(ws, n) == 0;
      }
    }
  }

  // A Family's mean is within what bounds its Samples; no data reads as 0.
  lemma FamilyRttWithin(ws: Windows, s: FamilyStats, bound: nat)
    requires IsAggregate(ws, s) && forall n :: n in ws ==> RttsWithin(ws[n].contents, bound)
    ensures RttOf(s) <= bound
  {
    RttTotalWithin(ws, ws.Keys, bound);
    if |Timed(ws, ws.Keys)| > 0 {
      QuotientWithin(Wrap64(RttTotal(ws, ws.Keys)), |Timed(ws, ws.Keys)|, bound);
    }
  }

  // ---- The loss of a Family whose Targets lost as many each

  lemma {:induction false} EqualLosses(ws: Windows, names: set<string>, lost: nat)
    requires names <= ws.Keys && forall n :: n in ws ==> Losses(ws[n].contents) == lost
    ensures LostTotal(ws, names) == |names| * lost
  {
    if names != {} {
      var n :| n in names && LostTotal(ws, names) == (if n in ws then Losses(ws[n].contents) else 0) + LostTotal(ws, names - {n});
      EqualLosses(ws, names - {n}, lost);
      assert |names| == |names - {n}| + 1;
      OneMoreTimes(|names - {n}|, lost);
    }
  }

  lemma OneMoreTimes(k: nat, x: nat)
    ensures (k + 1) * x == k * x + x && x * (k + 1) == x * k + x
  {
  }

  lemma CancelTargets(k: nat, lost: nat, pct: int, size: nat)
    requires k > 0
    ensures 100 * (k * lost) <= pct * (k * size) <==> 100 * lost <= pct * size
    ensures 100 * (k * lost) < pct * (k * size) <==> 100 * lost < pct * size
  {
    Regroup(k, lost, 100);
    Regroup(k, size, pct);
    ScaledOrder(k, 100 * lost, pct * size);
    ScaledOrder(k, pct * size, 100 * lost);
  }

  lemma Regroup(k: int, x: int, y: int)
    ensures y * (k * x) == k * (y * x)
  {
  }

  lemma FamilyLossCompares(ws: Windows, s: FamilyStats, size: nat, lost: nat, pct: int)
    requires IsAggregate(ws, s) && ws != map[] && size > 0
    requires forall n :: n in ws ==> |ws[n].contents| == size && Losses(ws[n].contents) == lost
    ensures LossOf(s) <= pct as real / 100.0 <==> 100 * lost <= pct * size
    ensures LossOf(s) < pct as real / 100.0 <==> 100 * lost < pct * size
  {
    MeanLossComparesAsIntegers(ws, size, pct);
    EqualLosses(ws, ws.Keys, lost);
    NonEmptyMap(ws);
    CancelTargets(|ws|, lost, pct, size);
  }

  // The first cycle whose result is Good in a recovery, or Bad in a failure.
  function RecoveryTurn(t: Thresholds, size: nat): int {
    CeilDiv(size * (100 - t.lossPctUp), 100)
  }

  function FailureTurn(t: Thresholds, size: nat): int {
    CeilDiv(size * t.lossPctDown, 100)
  }

  function CeilDiv(a: int, b: int): int
    requires b > 0
  {
    (a + b - 1) / b
  }

  lemma CeilDivReached(a: int, j: int)
    ensures j >= CeilDiv(a, 100) <==> 100 * j >= a
  {
  }

  // ---- Recovery

  // Every Window full, with as many losses and every round trip bounded.
  ghost predicate Uniform(ws: Windows, size: nat, lost: int, bound: nat) {
    && ws != map[]
    && forall n :: n in ws ==>
         |ws[n].contents| == size && Losses(ws[n].contents) == lost && ws[n].filled && RttsWithin(ws[n].contents, bound)
  }

  // What such Windows aggregate to, in integers.
  ghost predicate Measures(s: FamilyStats, t: Thresholds, size: nat, lost: int, bound: nat) {
    && s.windowFilled && RttOf(s) <= bound
    && (LossOf(s) <= t.lossPctUp as real / 100.0 <==> 100 * lost <= t.lossPctUp * size)
    && (LossOf(s) < t.lossPctDown as real / 100.0 <==> 100 * lost < t.lossPctDown * size)
  }

  lemma UniformMeasures(ws: Windows, s: FamilyStats, t: Thresholds, size: nat, lost: nat, bound: nat)
    requires Uniform(ws, size, lost, bound) && size > 0 && IsAggregate(ws, s)
    ensures Measures(s, t, size, lost, bound)
  {
    FamilyRttWithin(ws, s, bound);
    FamilyLossCompares(ws, s, size, lost, t.lossPctUp);
    FamilyLossCompares(ws, s, size, lost, t.lossPctDown);
  }

  lemma GoodByIntegers(s: FamilyStats, t: Thresholds, size: nat, lost: int)
    requires ValidThresholds(t) && Measures(s, t, size, lost, MsToMicros(t.rttMsUp))
    ensures ClassOf(s, t) == Good <==> 100 * lost <= t.lossPctUp * size
  {
    BandIsClass(false, s, t);
  }

  lemma BadByIntegers(s: FamilyStats, t: Thresholds, size: nat, lost: int)
    requires ValidThresholds(t) && Measures(s, t, size, lost, MsToMicros(t.rttMsDown) - 1)
    ensures ClassOf(s, t) == Bad <==> 100 * lost >= t.lossPctDown * size
  {
    BandIsClass(true, s, t);
  }

  lemma RecoveringWindow(pushed: seq<Sample>, more: seq<Sample>, size: nat, bound: nat)
    requires |pushed| >= size > 0 && AllLost(Recent(pushed, size)) && RepliesWithin(more, bound)
    ensures var w := Recent(pushed + more, size);
            |w| == size && Losses(w) == size - Min(|more|, size) && RttsWithin(w, bound)
  {
    LossesRecovering(pushed, more, size, bound);
    RecentAfter(pushed, more, size);
  }

  lemma RecoveringWindows(pushed: Pushed, cycles: seq<map<string, Sample>>, size: nat, bound: nat)
    requires size > 0 && LostThroughout(pushed, size) && Replied(pushed.Keys, cycles, bound)
    ensures Uniform(WindowsAfter(pushed, cycles, size), size, size - Min(|cycles|, size), bound)
  {
    var ws := WindowsAfter(pushed, cycles, size);
    forall n | n in ws
      ensures |ws[n].contents| == size && Losses(ws[n].contents) == size - Min(|cycles|, size)
      ensures ws[n].filled && RttsWithin(ws[n].contents, bound)
    {
      SamplesPerCycle(cycles, n);
      RecoveringWindow(pushed[n], SamplesOf(cycles, n), size, bound);
    }
    var n :| n in pushed;
    assert n in ws;
  }

  // One cycle's result, some cycles into an all-reply stretch.
  lemma RecoveringClass(pushed: Pushed, cycles: seq<map<string, Sample>>, size: nat, t: Thresholds, s: FamilyStats)
    requires ValidThresholds(t) && size > 0
    requires LostThroughout(pushed, size) && Replied(pushed.Keys, cycles, MsToMicros(t.rttMsUp))
    requires IsAggregate(WindowsAfter(pushed, cycles, size), s)
    ensures s.windowFilled
    ensures ClassOf(s, t) == Good <==> |cycles| >= RecoveryTurn(t, size)
    ensures cycles == [] ==> !Passes(true, s, t)
  {
    var bound, lost := MsToMicros(t.rttMsUp), size - Min(|cycles|, size);
    RecoveringWindows(pushed, cycles, size, bound);
    UniformMeasures(WindowsAfter(pushed, cycles, size), s, t, size, lost, bound);
    GoodByIntegers(s, t, size, lost);
    RecoveryThreshold(t, size, |cycles|);
    if cycles == [] {
      FullLossIsDown(size, t.lossPctDown);
    }
  }

  lemma RepliedSoFar(names: set<string>, cycles: seq<map<string, Sample>>, bound: nat, j: nat)
    requires Replied(names, cycles, bound) && j <= |cycles|
    ensures Replied(names, cycles[..j], bound)
  {
  }

  // The whole stretch: Good from the turn on.
  lemma RecoveringClasses(pushed: Pushed, cycles: seq<map<string, Sample>>, size: nat, t: Thresholds, ss: seq<FamilyStats>, turn: int)
    requires ValidThresholds(t) && size > 0 && turn == RecoveryTurn(t, size)
    requires LostThroughout(pushed, size) && Replied(pushed.Keys, cycles, MsToMicros(t.rttMsUp))
    requires Results(pushed, cycles, size, ss)
    ensures forall j :: 0 <= j < |ss| ==> (ClassOf(ss[j], t) == Good <==> j + 1 >= turn)
  {
    forall j | 0 <= j < |ss| ensures ClassOf(ss[j], t) == Good <==> j + 1 >= turn {
      RepliedSoFar(pushed.Keys, cycles, MsToMicros(t.rttMsUp), j + 1);
      RecoveringClass(pushed, cycles[..j+1], size, t, ss[j]);
    }
  }

  lemma FullLossIsDown(size: nat, pct: int)
    requires pct <= 100
    ensures 100 * size >= pct * size
  {
  }

  lemma RecoveryThreshold(t: Thresholds, size: nat, j: nat)
    requires ValidThresholds(t)
    ensures 100 * (size - Min(j, size)) <= t.lossPctUp * size <==> j >= RecoveryTurn(t, size)
  {
    var pct := t.lossPctUp;
    Distribute(size, pct);
    CeilDivReached(size * (100 - pct), j);
  }

  lemma Distribute(size: nat, pct: int)
    requires 0 <= pct <= 100
    ensures size * (100 - pct) == 100 * size - pct * size && 0 <= pct * size <= 100 * size
  {
  }

  // Where the counters stand j cycles in, if results turn at cycle turn.
  ghost predicate Turning(f: FamilyView, j: nat, turn: int) {
    && f.cooked && f.healthy == f.hyst.healthy
    && (f.healthy <==> j + 1 >= turn + f.hyst.up)
    && (!f.healthy ==> f.hyst.healthyCount == if j < turn then 0 else j + 1 - turn)
  }

  // From a fully lost, unhealthy Family, cycles in which every Target replies
  // within rttMsUp turn it healthy on exactly cycle
  // ceil(W * (100 - lossPctUp) / 100) + consecutiveUp - 1, and it stays so.
  lemma RecoveryIsExact(f: FamilyView, t: Thresholds, size: nat, pushed: Pushed, s0: FamilyStats,
                        cycles: seq<map<string, Sample>>, ss: seq<FamilyStats>)
    requires ValidThresholds(t) && size > 0 && f.hyst.up > 0
    requires LostThroughout(pushed, size) && IsAggregate(WindowsAfter(pushed, [], size), s0)
    requires !ProbedFamily(f, s0, t).healthy
    requires Replied(pushed.Keys, cycles, MsToMicros(t.rttMsUp)) && Results(pushed, cycles, size, ss)
    ensures Ran(ProbedFamily(f, s0, t), ss, t).healthy
            <==> |ss| >= RecoveryTurn(t, size) + f.hyst.up - 1
  {
    RecoveringClass(pushed, [], size, t, s0);
    RecoveryTakesACycle(size, t.lossPctUp);
    var turn := RecoveryTurn(t, size);
    RecoveryStarts(f, s0, t, turn);
    RecoveringClasses(pushed, cycles, size, t, ss, turn);
    TurningAlong(ProbedFamily(f, s0, t), ss, t, turn);
  }

  // Results Good from the turn on.
  lemma {:induction false} TurningAlong(f: FamilyView, ss: seq<FamilyStats>, t: Thresholds, turn: int)
    requires ValidThresholds(t) && turn > 0 && f.hyst.up > 0 && Turning(f, 0, turn)
    requires forall j :: 0 <= j < |ss| ==> (ClassOf(ss[j], t) == Good <==> j + 1 >= turn)
    ensures Ran(f, ss, t).hyst.up == f.hyst.up && Turning(Ran(f, ss, t), |ss|, turn)
  {
    if ss != [] {
      var n := |ss| - 1;
      TurningAlong(f, ss[..n], t, turn);
      TurningNext(Ran(f, ss[..n], t), ss[n], t, n, turn);
    }
  }

  lemma RecoveryTakesACycle(size: nat, pct: int)
    requires size > 0 && 0 <= pct < 100
    ensures CeilDiv(size * (100 - pct), 100) > 0
  {
    assert size * (100 - pct) > 0;
  }

  lemma RecoveryStarts(f: FamilyView, s0: FamilyStats, t: Thresholds, turn: int)
    requires ValidThresholds(t) && turn > 0 && s0.windowFilled && !Passes(true, s0, t)
    requires f.hyst.up > 0 && !ProbedFamily(f, s0, t).healthy
    ensures ProbedFamily(f, s0, t).hyst.up == f.hyst.up && Turning(ProbedFamily(f, s0, t), 0, turn)
  {
    BandIsClass(true, s0, t);
    BandIsClass(false, s0, t);
  }

  // One more cycle, Good from the turn on.
  lemma TurningNext(f: FamilyView, s: FamilyStats, t: Thresholds, j: nat, turn: int)
    requires ValidThresholds(t) && turn > 0 && f.hyst.up > 0 && Turning(f, j, turn)
    requires ClassOf(s, t) == Good <==> j + 1 >= turn
    ensures ProbedFamily(f, s, t).hyst.up == f.hyst.up && Turning(ProbedFamily(f, s, t), j + 1, turn)
  {
    BandIsClass(f.healthy, s, t);
  }

  // ---- Failure

  lemma FailingWindow(pushed: seq<Sample>, more: seq<Sample>, size: nat, bound: nat)
    requires |pushed| >= size > 0 && RepliesWithin(Recent(pushed, size), bound) && AllLost(more)
    ensures var w := Recent(pushed + more, size);
            |w| == size && Losses(w) == Min(|more|, size) && RttsWithin(w, bound)
  {
    LossesFailing(pushed, more, size, bound);
    RecentAfter(pushed, more, size);
  }

  lemma FailingWindows(pushed: Pushed, cycles: seq<map<string, Sample>>, size: nat, bound: nat)
    requires size > 0 && CleanThroughout(pushed, size, bound) && Unanswered(pushed.Keys, cycles)
    ensures Uniform(WindowsAfter(pushed, cycles, size), size, Min(|cycles|, size), bound)
  {
    var ws := WindowsAfter(pushed, cycles, size);
    forall n | n in ws
      ensures |ws[n].contents| == size && Losses(ws[n].contents) == Min(|cycles|, size)
      ensures ws[n].filled && RttsWithin(ws[n].contents, bound)
    {
      SamplesPerCycle(cycles, n);
      FailingWindow(pushed[n], SamplesOf(cycles, n), size, bound);
    }
    var n :| n in pushed;
    assert n in ws;
  }

  // One cycle's result, some cycles into an unanswered stretch.
  lemma FailingClass(pushed: Pushed, cycles: seq<map<string, Sample>>, size: nat, t: Thresholds, s: FamilyStats)
    requires ValidThresholds(t) && size > 0
    requires CleanThroughout(pushed, size, MsToMicros(t.rttMsDown) - 1) && Unanswered(pushed.Keys, cycles)
    requires IsAggregate(WindowsAfter(pushed, cycles, size), s)
    ensures s.windowFilled
    ensures ClassOf(s, t) == Bad <==> |cycles| >= FailureTurn(t, size)
  {
    var bound, lost := MsToMicros(t.rttMsDown) - 1, Min(|cycles|, size);
    FailingWindows(pushed, cycles, size, bound);
    UniformMeasures(WindowsAfter(pushed, cycles, size), s, t, size, lost, bound);
    BadByIntegers(s, t, size, lost);
    FailureThreshold(t, size, |cycles|);
  }

  lemma UnansweredSoFar(names: set<string>, cycles: seq<map<string, Sample>>, j: nat)
    requires Unanswered(names, cycles) && j <= |cycles|
    ensures Unanswered(names, cycles[..j])
  {
  }

  // The whole stretch: Bad from the turn on.
  lemma FailingClasses(pushed: Pushed, cycles: seq<map<string, Sample>>, size: nat, t: Thresholds, ss: seq<FamilyStats>, turn: int)
    requires ValidThresholds(t) && size > 0 && turn == FailureTurn(t, size)
    requires CleanThroughout(pushed, size, MsToMicros(t.rttMsDown) - 1) && Unanswered(pushed.Keys, cycles)
    requires Results(pushed, cycles, size, ss)
    ensures forall j :: 0 <= j < |ss| ==> (ClassOf(ss[j], t) == Bad <==> j + 1 >= turn)
  {
    forall j | 0 <= j < |ss| ensures ClassOf(ss[j], t) == Bad <==> j + 1 >= turn {
      UnansweredSoFar(pushed.Keys, cycles, j + 1);
      FailingClass(pushed, cycles[..j+1], size, t, ss[j]);
    }
  }

  lemma FailureThreshold(t: Thresholds, size: nat, j: nat)
    requires ValidThresholds(t) && size > 0
    ensures 100 * Min(j, size) >= t.lossPctDown * size <==> j >= FailureTurn(t, size)
  {
    var pct := t.lossPctDown;
    assert 0 < pct * size <= 100 * size;
    CeilDivReached(size * pct, j);
  }

  ghost predicate Failing(f: FamilyView, j: nat, turn: int) {
    && f.cooked && f.healthy == f.hyst.healthy
    && (f.healthy <==> j + 1 < turn + f.hyst.down)
    && (f.healthy ==> f.hyst.unhealthyCount == if j < turn then 0 else j + 1 - turn)
  }

  // A healthy Family with a clean Window, then unanswered cycles.
  ghost predicate StartsFailing(f: FamilyView, t: Thresholds, size: nat, pushed: Pushed, s0: FamilyStats,
                                cycles: seq<map<string, Sample>>, ss: seq<FamilyStats>)
  {
    && ValidThresholds(t) && size > 0 && f.hyst.down > 0
    && CleanThroughout(pushed, size, MsToMicros(t.rttMsDown) - 1) && IsAggregate(WindowsAfter(pushed, [], size), s0)
    && (f.cooked ==> f.healthy == f.hyst.healthy) && ProbedFamily(f, s0, t).healthy
    && Unanswered(pushed.Keys, cycles) && Results(pushed, cycles, size, ss)
  }

  // Dually, from a clean healthy Window with every RTT below rttMsDown, cycles
  // no Target answers turn the Family unhealthy on exactly cycle
  // ceil(W * lossPctDown / 100) + consecutiveDown - 1, and it stays so.
  lemma FailureIsExact(f: FamilyView, t: Thresholds, size: nat, pushed: Pushed, s0: FamilyStats,
                       cycles: seq<map<string, Sample>>, ss: seq<FamilyStats>)
    requires StartsFailing(f, t, size, pushed, s0, cycles, ss)
    ensures !Ran(ProbedFamily(f, s0, t), ss, t).healthy
            <==> |ss| >= FailureTurn(t, size) + f.hyst.down - 1
  {
    FailingClass(pushed, [], size, t, s0);
    FailureTakesACycle(size, t.lossPctDown);
    var turn := FailureTurn(t, size);
    FailureStarts(f, s0, t, turn);
    FailingClasses(pushed, cycles, size, t, ss, turn);
    FailingAlong(ProbedFamily(f, s0, t), ss, t, turn);
  }

  // Results Bad from the turn on.
  lemma {:induction false} FailingAlong(f: FamilyView, ss: seq<FamilyStats>, t: Thresholds, turn: int)
    requires ValidThresholds(t) && turn > 0 && f.hyst.down > 0 && Failing(f, 0, turn)
    requires forall j :: 0 <= j < |ss| ==> (ClassOf(ss[j], t) == Bad <==> j + 1 >= turn)
    ensures Ran(f, ss, t).hyst.down == f.hyst.down && Failing(Ran(f, ss, t), |ss|, turn)
  {
    if ss != [] {
      var n := |ss| - 1;
      FailingAlong(f, ss[..n], t, turn);
      FailingNext(Ran(f, ss[..n], t), ss[n], t, n, turn);
    }
  }

  lemma FailureTakesACycle(size: nat, pct: int)
    requires size > 0 && pct > 0
    ensures CeilDiv(size * pct, 100) > 0
  {
    assert size * pct > 0;
  }

  lemma FailureStarts(f: FamilyView, s0: FamilyStats, t: Thresholds, turn: int)
    requires ValidThresholds(t) && turn > 0 && s0.windowFilled && ClassOf(s0, t) != Bad
    requires f.hyst.down > 0 && (f.cooked ==> f.healthy == f.hyst.healthy) && ProbedFamily(f, s0, t).healthy
    ensures ProbedFamily(f, s0, t).hyst.down == f.hyst.down && Failing(ProbedFamily(f, s0, t), 0, turn)
  {
    BandIsClass(true, s0, t);
    BandIsClass(false, s0, t);
  }

  // One more cycle, Bad from the turn on.
  lemma FailingNext(f: FamilyView, s: FamilyStats, t: Thresholds, j: nat, turn: int)
    requires ValidThresholds(t) && turn > 0 && f.hyst.down > 0 && Failing(f, j, turn)
    requires ClassOf(s, t) == Bad <==> j + 1 >= turn
    ensures ProbedFamily(f, s, t).hyst.down == f.hyst.down && Failing(ProbedFamily(f, s, t), j + 1, turn)
  {
    BandIsClass(f.healthy, s, t);
  }

  // ---- The default settings

  const DEFAULTS := Thresholds(30, 10, 500, 250)

  // A fully lost Window of 10 recovers on cycle 13 with a ramp of 5, for any
  // number of Targets.
  lemma DefaultRecoveryTakesThirteen(f: FamilyView, pushed: Pushed, s0: FamilyStats, cycles: seq<map<string, Sample>>, ss: seq<FamilyStats>)
    requires f.hyst.up == 5 && LostThroughout(pushed, 10) && IsAggregate(WindowsAfter(pushed, [], 10), s0)
    requires !ProbedFamily(f, s0, DEFAULTS).healthy
    requires Replied(pushed.Keys, cycles, 250_000) && Results(pushed, cycles, 10, ss)
    ensures Ran(ProbedFamily(f, s0, DEFAULTS), ss, DEFAULTS).healthy <==> |ss| >= 13
  {
    RecoveryIsExact(f, DEFAULTS, 10, pushed, s0, cycles, ss);
  }
}
