// Bounded failover and recovery: from what a Pinger reads to what Groups
// choose, in a number of cycles fixed by the configuration.
module Bounded {
  import opened Basics
  import opened Config
  import opened Selector
  import opened Icmp
  import opened Measurements
  import opened HealthSpec
  import opened HealthHistory
  import opened Window
  import opened Aggregation
  import opened Timing
  import opened PingerSpec
  import opened Probing
  import opened Failover
  import opened DecisionSpec
  import opened GroupInvariant
  import opened FailoverRuns
  import opened FailoverTheorems
  import opened Recovery
  import opened EndToEnd

  // ---- From a Pinger's ticks to results

  // Histories along some ticks, the Sample each Target got, and the results.
  ghost predicate Ticks(hs: seq<History>, cycles: seq<map<string, Sample>>, size: nat, ss: seq<FamilyStats>) {
    && |hs| == |cycles| + 1 && |ss| == |cycles|
    && forall j :: 0 <= j < |cycles| ==> Ticked(hs[j], cycles[j], hs[j+1]) && IsAggregate(HeldOf(hs[j+1], size), ss[j])
  }

  lemma {:induction false} HistoryAfter(hs: seq<History>, cycles: seq<map<string, Sample>>, size: nat, ss: seq<FamilyStats>, j: nat, t: string)
    requires Ticks(hs, cycles, size, ss) && j <= |cycles| && t in hs[0]
    ensures t in hs[j] && hs[j].Keys == hs[0].Keys
    ensures hs[j][t] == hs[0][t] + SamplesOf(cycles[..j], t)
  {
    if j > 0 {
      HistoryAfter(hs, cycles, size, ss, j - 1, t);
      assert Ticked(hs[j-1], cycles[j-1], hs[j]);
      assert cycles[..j][..j-1] == cycles[..j-1];
    }
  }

  lemma {:induction false} KeysKept(hs: seq<History>, cycles: seq<map<string, Sample>>, size: nat, ss: seq<FamilyStats>, j: nat)
    requires Ticks(hs, cycles, size, ss) && j <= |cycles|
    ensures hs[j].Keys == hs[0].Keys
  {
    if j > 0 {
      KeysKept(hs, cycles, size, ss, j - 1);
      assert Ticked(hs[j-1], cycles[j-1], hs[j]);
    }
  }

  // What a Pinger reports over its ticks are the results of its cycles.
  lemma TicksGiveResults(hs: seq<History>, cycles: seq<map<string, Sample>>, size: nat, ss: seq<FamilyStats>)
    requires Ticks(hs, cycles, size, ss)
    ensures Results(hs[0], cycles, size, ss)
    ensures HeldOf(hs[0], size) == WindowsAfter(hs[0], [], size)
  {
    forall j | 0 <= j < |ss| ensures IsAggregate(WindowsAfter(hs[0], cycles[..j+1], size), ss[j]) {
      KeysKept(hs, cycles, size, ss, j + 1);
      forall t | t in hs[0] ensures hs[j+1][t] == hs[0][t] + SamplesOf(cycles[..j+1], t) {
        HistoryAfter(hs, cycles, size, ss, j + 1, t);
      }
      assert HeldOf(hs[j+1], size) == WindowsAfter(hs[0], cycles[..j+1], size);
    }
    forall t | t in hs[0] ensures hs[0][t] + SamplesOf([], t) == hs[0][t] {
    }
  }

  // ---- From results to votes

  lemma {:induction false} RanConcat(f: FamilyView, a: seq<FamilyStats>, b: seq<FamilyStats>, t: Thresholds)
    ensures Ran(f, a + b, t) == Ran(Ran(f, a, t), b, t)
  {
    if b == [] {
      assert a + b == a;
    } else {
      RanConcat(f, a, b[..|b|-1], t);
      assert (a + b)[..|a + b|-1] == a + b[..|b|-1];
    }
  }

  // A Family after some results, then one more, then a stretch of them.
  lemma RanInThree(f: FamilyView, before: seq<FamilyStats>, s0: FamilyStats, ss: seq<FamilyStats>, t: Thresholds)
    ensures Ran(f, before + [s0] + ss, t) == Ran(ProbedFamily(Ran(f, before, t), s0, t), ss, t)
  {
    RanConcat(f, before + [s0], ss, t);
    assert (before + [s0])[..|before|] == before;
  }

  // A reachable Family: its verdict is its Hysteresis's, its ramps the
  // configured ones.
  lemma ReachedFamily(cfg: WanConfig, fam: Family, ss: seq<FamilyStats>)
    requires ValidThresholds(cfg.thresholds)
    ensures var f, h := Ran(ColdFamily(cfg, fam), ss, cfg.thresholds), FreshHysteresis(cfg.consecutiveUp, cfg.consecutiveDown);
            f.hyst.up == h.up && f.hyst.down == h.down && (f.cooked ==> f.healthy == f.hyst.healthy)
  {
    VerdictIsHistory(cfg, fam, ss);
  }

  // The cycle a failing Family turns on, and a recovering one.
  function FailureCycle(cfg: WanConfig, size: nat): int {
    FailureTurn(cfg.thresholds, size) + FreshHysteresis(cfg.consecutiveUp, cfg.consecutiveDown).down - 1
  }

  function RecoveryCycle(cfg: WanConfig, size: nat): int {
    RecoveryTurn(cfg.thresholds, size) + FreshHysteresis(cfg.consecutiveUp, cfg.consecutiveDown).up - 1
  }

  // A Family's results, cut at one of interest: those before it, its own Windows
  // by Target, and the cycles and results since.
  datatype Stretch = Stretch(before: seq<FamilyStats>, s0: FamilyStats, pushed: Pushed, cycles: seq<map<string, Sample>>,
                             size: nat, ss: seq<FamilyStats>)

  // Up to a healthy clean Window s0, then unanswered.
  ghost predicate FailsFrom(cfg: WanConfig, f: Family, told: seq<FamilyStats>, st: Stretch) {
    && ValidThresholds(cfg.thresholds) && told == st.before + [st.s0] + st.ss && st.size > 0
    && CleanThroughout(st.pushed, st.size, MsToMicros(cfg.thresholds.rttMsDown) - 1)
    && IsAggregate(WindowsAfter(st.pushed, [], st.size), st.s0)
    && Ran(ColdFamily(cfg, f), st.before + [st.s0], cfg.thresholds).healthy
    && Unanswered(st.pushed.Keys, st.cycles) && Results(st.pushed, st.cycles, st.size, st.ss)
  }

  // Up to an unhealthy, fully lost Window s0, then all answered.
  ghost predicate RecoversFrom(cfg: WanConfig, f: Family, told: seq<FamilyStats>, st: Stretch) {
    && ValidThresholds(cfg.thresholds) && told == st.before + [st.s0] + st.ss && st.size > 0
    && LostThroughout(st.pushed, st.size) && IsAggregate(WindowsAfter(st.pushed, [], st.size), st.s0)
    && !Ran(ColdFamily(cfg, f), st.before + [st.s0], cfg.thresholds).healthy
    && Replied(st.pushed.Keys, st.cycles, MsToMicros(cfg.thresholds.rttMsUp))
    && Results(st.pushed, st.cycles, st.size, st.ss)
  }

  // What one tick of a Pinger meets.
  datatype Tick = Tick(present: bool, sequence: Word, sends: seq<Option<nat>>, cancelled: bool, received: seq<Read>)

  // No reply to this Pinger is read, if anything is.
  ghost predicate Silent(f: Family, ident: Word, c: Tick) {
    c.present && !c.cancelled ==> forall j, slot :: 0 <= j < |c.received| ==> !Answers(f, ident, slot, c.received[j])
  }

  ghost predicate Cycles(f: Family, ident: Word, targets: seq<string>, ticks: seq<Tick>, cycles: seq<map<string, Sample>>) {
    && |cycles| == |ticks|
    && forall j :: 0 <= j < |ticks| ==>
         && |ticks[j].sends| == |targets|
         && cycles[j] == CycleSamples(ticks[j].present, f, ident, targets, ticks[j].sequence, ticks[j].sends,
                                      ticks[j].cancelled, ticks[j].received)
  }

  // A silent network, or an absent interface, answers no Target.
  lemma SilentTicksAreUnanswered(f: Family, ident: Word, targets: seq<string>, ticks: seq<Tick>, cycles: seq<map<string, Sample>>,
                                 names: set<string>)
    requires Cycles(f, ident, targets, ticks, cycles) && forall j :: 0 <= j < |ticks| ==> Silent(f, ident, ticks[j])
    requires names == set t | t in targets
    ensures Unanswered(names, cycles)
  {
    forall j, t | 0 <= j < |cycles| && t in names ensures t in cycles[j] && cycles[j][t].lost {
      var c := ticks[j];
      assert Silent(f, ident, c);
      SilenceIsUnanswered(c.present, f, ident, targets, c.sequence, c.sends, c.cancelled, c.received, t);
    }
  }

  // So a Pinger whose ticks meet silence after a clean Window fails its Family.
  lemma SilentPingerFails(cfg: WanConfig, f: Family, told: seq<FamilyStats>, st: Stretch, ident: Word, targets: seq<string>,
                          hs: seq<History>, ticks: seq<Tick>)
    requires ValidThresholds(cfg.thresholds) && told == st.before + [st.s0] + st.ss && st.size > 0
    requires Ticks(hs, st.cycles, st.size, st.ss) && st.pushed == hs[0] && hs[0].Keys == set t | t in targets
    requires Cycles(f, ident, targets, ticks, st.cycles) && forall j :: 0 <= j < |ticks| ==> Silent(f, ident, ticks[j])
    requires CleanThroughout(hs[0], st.size, MsToMicros(cfg.thresholds.rttMsDown) - 1) && IsAggregate(HeldOf(hs[0], st.size), st.s0)
    requires Ran(ColdFamily(cfg, f), st.before + [st.s0], cfg.thresholds).healthy
    ensures FailsFrom(cfg, f, told, st)
  {
    TicksGiveResults(hs, st.cycles, st.size, st.ss);
    SilentTicksAreUnanswered(f, ident, targets, ticks, st.cycles, hs[0].Keys);
  }

  // The stretch starts from a reachable Family that took s0 in.
  lemma StretchStarts(cfg: WanConfig, f: Family, before: seq<FamilyStats>, s0: FamilyStats, ss: seq<FamilyStats>) returns (start: FamilyView)
    requires ValidThresholds(cfg.thresholds)
    ensures var cold, t, h := ColdFamily(cfg, f), cfg.thresholds, FreshHysteresis(cfg.consecutiveUp, cfg.consecutiveDown);
            && start.hyst.up == h.up && start.hyst.down == h.down && (start.cooked ==> start.healthy == start.hyst.healthy)
            && Ran(cold, before + [s0], t) == ProbedFamily(start, s0, t)
            && Ran(cold, before + [s0] + ss, t) == Ran(ProbedFamily(start, s0, t), ss, t)
  {
    var cold, t := ColdFamily(cfg, f), cfg.thresholds;
    start := Ran(cold, before, t);
    RanInThree(cold, before, s0, ss, t);
    RanInThree(cold, before, s0, [], t);
    assert before + [s0] + [] == before + [s0];
    ReachedFamily(cfg, f, before);
  }

  lemma FailingFamily(cfg: WanConfig, f: Family, told: seq<FamilyStats>, st: Stretch)
    requires FailsFrom(cfg, f, told, st)
    ensures !Ran(ColdFamily(cfg, f), told, cfg.thresholds).healthy <==> |st.ss| >= FailureCycle(cfg, st.size)
  {
    var start := StretchStarts(cfg, f, st.before, st.s0, st.ss);
    assert StartsFailing(start, cfg.thresholds, st.size, st.pushed, st.s0, st.cycles, st.ss);
    FailureIsExact(start, cfg.thresholds, st.size, st.pushed, st.s0, st.cycles, st.ss);
  }

  lemma RecoveringFamily(cfg: WanConfig, f: Family, told: seq<FamilyStats>, st: Stretch)
    requires RecoversFrom(cfg, f, told, st)
    ensures Ran(ColdFamily(cfg, f), told, cfg.thresholds).healthy <==> |st.ss| >= RecoveryCycle(cfg, st.size)
  {
    var start := StretchStarts(cfg, f, st.before, st.s0, st.ss);
    RecoveryIsExact(start, cfg.thresholds, st.size, st.pushed, st.s0, st.cycles, st.ss);
  }

  // A full Window has been among the results, so the Family votes as its verdict.
  lemma {:induction false} FullWindowCooks(f: FamilyView, ss: seq<FamilyStats>, t: Thresholds, i: nat)
    requires i < |ss| && ss[i].windowFilled
    ensures Ran(f, ss, t).cooked
  {
    if i < |ss| - 1 {
      FullWindowCooks(f, ss[..|ss|-1], t, i);
    }
  }

  // A full Window reports itself full.
  lemma FullWindowReports(pushed: Pushed, size: nat, s0: FamilyStats)
    requires Full(pushed, size) && IsAggregate(WindowsAfter(pushed, [], size), s0)
    ensures s0.windowFilled
  {
    var n :| n in pushed;
    assert n in WindowsAfter(pushed, [], size);
  }

  lemma FamilyAtEnd(env: Setting, trace: seq<DaemonView>, events: seq<DaemonEvent>, n: string, f: Family, told: seq<FamilyStats>, i: nat)
    requires env.cfg.Valid() && IsRun(env, trace, events) && n in env.cfg.wans && env.cfg.wans[n].Probes(f)
    requires told == ResultsFor(events, n, f) && i < |told| && told[i].windowFilled
    ensures n in trace[|events|].health && f in trace[|events|].health[n].families
    ensures Votes(trace[|events|].health[n].families[f])
            <==> Ran(ColdFamily(env.cfg.wans[n], f), told, env.cfg.wans[n].thresholds).healthy
  {
    assert events[..|events|] == events;
    FamiliesFollowTheirResults(env, trace, events, |events|, n, f);
    FullWindowCooks(ColdFamily(env.cfg.wans[n], f), told, env.cfg.wans[n].thresholds, i);
  }

  // In every run a Family that goes unanswered from a clean, healthy Window
  // loses its vote on exactly the FailureCycle-th result, whatever else happens.
  lemma FailureCostsTheVote(env: Setting, trace: seq<DaemonView>, events: seq<DaemonEvent>, n: string, f: Family, st: Stretch)
    requires env.cfg.Valid() && IsRun(env, trace, events) && n in env.cfg.wans && env.cfg.wans[n].Probes(f)
    requires FailsFrom(env.cfg.wans[n], f, ResultsFor(events, n, f), st)
    ensures n in trace[|events|].health && f in trace[|events|].health[n].families
    ensures !Votes(trace[|events|].health[n].families[f]) <==> |st.ss| >= FailureCycle(env.cfg.wans[n], st.size)
  {
    var cfg, told := env.cfg.wans[n], ResultsFor(events, n, f);
    FullWindowReports(st.pushed, st.size, st.s0);
    assert told[|st.before|] == st.s0;
    FamilyAtEnd(env, trace, events, n, f, told, |st.before|);
    FailingFamily(cfg, f, told, st);
  }

  // And one that is answered from a lost, unhealthy Window wins it on exactly
  // the RecoveryCycle-th.
  lemma RecoveryWinsTheVote(env: Setting, trace: seq<DaemonView>, events: seq<DaemonEvent>, n: string, f: Family, st: Stretch)
    requires env.cfg.Valid() && IsRun(env, trace, events) && n in env.cfg.wans && env.cfg.wans[n].Probes(f)
    requires RecoversFrom(env.cfg.wans[n], f, ResultsFor(events, n, f), st)
    ensures n in trace[|events|].health && f in trace[|events|].health[n].families
    ensures Votes(trace[|events|].health[n].families[f]) <==> |st.ss| >= RecoveryCycle(env.cfg.wans[n], st.size)
  {
    var cfg, told := env.cfg.wans[n], ResultsFor(events, n, f);
    FullWindowReports(st.pushed, st.size, st.s0);
    assert told[|st.before|] == st.s0;
    FamilyAtEnd(env, trace, events, n, f, told, |st.before|);
    RecoveringFamily(cfg, f, told, st);
  }

  // ---- From votes to Groups

  // Votes lost by these Families take the WAN down under its policy.
  ghost predicate Suffices(cfg: WanConfig, lost: set<Family>) {
    if cfg.policy == AnyFamily then forall f: Family :: cfg.Probes(f) ==> f in lost
    else exists f: Family :: cfg.Probes(f) && f in lost
  }

  lemma LostVotesDownWan(env: Setting, trace: seq<DaemonView>, events: seq<DaemonEvent>, n: string, lost: set<Family>)
    requires env.cfg.Valid() && IsRun(env, trace, events) && n in env.cfg.wans && Suffices(env.cfg.wans[n], lost)
    requires n in trace[|events|].health
    requires forall f :: f in lost && f in trace[|events|].health[n].families ==> !Votes(trace[|events|].health[n].families[f])
    ensures n !in HealthySet(trace[|events|].health)
  {
    FamiliesAreProbed(env, trace, events, |events|, n);
  }

  predicate Intends(d: DaemonView, g: string, n: string)
    requires g in d.slices
  {
    Intent(d.slices[g].group).has && Intent(d.slices[g].group).wan == n
  }

  // Families that went unanswered for long enough.
  ghost predicate Failed(cfg: WanConfig, events: seq<DaemonEvent>, n: string, stretches: map<Family, Stretch>) {
    forall f :: f in stretches ==>
      && cfg.Probes(f) && FailsFrom(cfg, f, ResultsFor(events, n, f), stretches[f])
      && |stretches[f].ss| >= FailureCycle(cfg, stretches[f].size)
  }

  // Bounded failover: in every run, once enough Families of a WAN for its policy
  // have gone unanswered for their FailureCycle, the WAN is unhealthy and no
  // Group intends it.
  lemma FailoverIsBounded(env: Setting, trace: seq<DaemonView>, events: seq<DaemonEvent>, n: string, stretches: map<Family, Stretch>)
    requires env.cfg.Valid() && IsRun(env, trace, events) && n in env.cfg.wans
    requires Failed(env.cfg.wans[n], events, n, stretches) && Suffices(env.cfg.wans[n], stretches.Keys)
    ensures n !in HealthySet(trace[|events|].health)
    ensures forall g :: g in env.cfg.groups ==> g in trace[|events|].slices && !Intends(trace[|events|], g, n)
  {
    forall f | f in stretches
      ensures n in trace[|events|].health && f in trace[|events|].health[n].families
      ensures !Votes(trace[|events|].health[n].families[f])
    {
      FailureCostsTheVote(env, trace, events, n, f, stretches[f]);
    }
    WanIsPresent(env, trace, events, n);
    LostVotesDownWan(env, trace, events, n, stretches.Keys);
    forall g | g in env.cfg.groups ensures g in trace[|events|].slices && !Intends(trace[|events|], g, n) {
      UnhealthyIsNotIntended(env, trace, events, g, n);
    }
  }

  lemma WanIsPresent(env: Setting, trace: seq<DaemonView>, events: seq<DaemonEvent>, n: string)
    requires env.cfg.Valid() && IsRun(env, trace, events) && n in env.cfg.wans
    ensures n in trace[|events|].health && trace[|events|].health[n].cfg == env.cfg.wans[n]
  {
    RunsAreSound(env, trace, events, |events|);
  }

  lemma UnhealthyIsNotIntended(env: Setting, trace: seq<DaemonView>, events: seq<DaemonEvent>, g: string, n: string)
    requires env.cfg.Valid() && IsRun(env, trace, events) && g in env.cfg.groups
    requires n !in HealthySet(trace[|events|].health)
    ensures g in trace[|events|].slices && !Intends(trace[|events|], g, n)
  {
    IntentIsAlwaysTheChoice(env, trace, events, |events|, g);
  }

  // Settled on the choice, with its WAN's routes in the table.
  ghost predicate Moved(env: Setting, d: DaemonView, g: string)
    requires env.cfg.Valid() && g in env.cfg.groups
  {
    && g in d.slices && Settled(d.slices[g].group)
    && IsChoice(env.cfg.groups[g].members, HealthySet(d.health), d.slices[g].group.selection)
    && (d.slices[g].group.selection.has ==>
          RoutesVia(env.WorldFor(d.gateways, false), d.slices[g].group.selection.wan, d.slices[g].table))
  }

  // A last event during which no kernel operation failed.
  ghost predicate EndsReliably(env: Setting, trace: seq<DaemonView>, events: seq<DaemonEvent>)
    requires env.cfg.Valid() && IsRun(env, trace, events)
  {
    |events| > 0 && ReliableStep(env, trace[|events|-1], events[|events|-1], trace[|events|])
  }

  lemma IntentMovesWithChoice(env: Setting, trace: seq<DaemonView>, events: seq<DaemonEvent>, g: string)
    requires env.cfg.Valid() && IsRun(env, trace, events) && |events| > 0 && g in env.cfg.groups
    ensures g in trace[|events|-1].slices && g in trace[|events|].slices
    ensures var members := env.cfg.groups[g].members;
            Intent(trace[|events|].slices[g].group) != Intent(trace[|events|-1].slices[g].group)
            <==> Choice(members, HealthySet(trace[|events|].health)) != Choice(members, HealthySet(trace[|events|-1].health))
  {
    IntentIsAlwaysTheChoice(env, trace, events, |events| - 1, g);
    IntentIsAlwaysTheChoice(env, trace, events, |events|, g);
  }

  lemma LastIsSound(env: Setting, trace: seq<DaemonView>, events: seq<DaemonEvent>)
    requires env.cfg.Valid() && IsRun(env, trace, events) && EndsReliably(env, trace, events)
    ensures SoundAndReliable(env, trace[|events|-1], events[|events|-1], trace[|events|])
  {
    RunsAreSound(env, trace, events, |events| - 1);
  }

  lemma LastMoveSettles(env: Setting, trace: seq<DaemonView>, events: seq<DaemonEvent>, g: string)
    requires env.cfg.Valid() && IsRun(env, trace, events) && EndsReliably(env, trace, events) && g in env.cfg.groups
    requires var members := env.cfg.groups[g].members;
             Choice(members, HealthySet(trace[|events|].health)) != Choice(members, HealthySet(trace[|events|-1].health))
    ensures g in trace[|events|].slices && Settled(trace[|events|].slices[g].group)
  {
    LastIsSound(env, trace, events);
    MovedChoiceSettles(env, trace[|events|-1], events[|events|-1], trace[|events|], g);
  }

  // A Group whose intent such an event moves is carried over with it.
  lemma MovedIntentIsCarried(env: Setting, trace: seq<DaemonView>, events: seq<DaemonEvent>, g: string)
    requires env.cfg.Valid() && IsRun(env, trace, events) && EndsReliably(env, trace, events) && g in env.cfg.groups
    requires g in trace[|events|-1].slices && g in trace[|events|].slices
    requires Intent(trace[|events|].slices[g].group) != Intent(trace[|events|-1].slices[g].group)
    ensures Moved(env, trace[|events|], g)
  {
    IntentMovesWithChoice(env, trace, events, g);
    LastMoveSettles(env, trace, events, g);
    SettledGroupsAreConverged(env, trace, events, |events|, g);
  }

  // Then traffic moves too: if no kernel operation fails during the event that
  // takes the WAN down, every Group that was on it is settled on another choice,
  // with that WAN's routes in its table.
  lemma FailoverMovesTraffic(env: Setting, trace: seq<DaemonView>, events: seq<DaemonEvent>, n: string, stretches: map<Family, Stretch>,
                             g: string)
    requires env.cfg.Valid() && IsRun(env, trace, events) && EndsReliably(env, trace, events) && n in env.cfg.wans
    requires Failed(env.cfg.wans[n], events, n, stretches) && Suffices(env.cfg.wans[n], stretches.Keys)
    requires g in env.cfg.groups && g in trace[|events|-1].slices && Intends(trace[|events|-1], g, n)
    ensures Moved(env, trace[|events|], g) && trace[|events|].slices[g].group.selection != Active(n, true)
  {
    FailoverIsBounded(env, trace, events, n, stretches);
    MovedIntentIsCarried(env, trace, events, g);
  }

  // The WAN's Health is left to this Family: its link is up, and under the
  // policy the other Families decide nothing.
  ghost predicate Pivotal(w: WanView, f: Family) {
    && LinkUp(w.carrier, w.operstate) && f in w.families
    && forall k :: k in w.families && k != f ==> (Votes(w.families[k]) <==> w.cfg.policy != AnyFamily)
  }

  lemma PivotDecides(w: WanView, f: Family)
    requires Pivotal(w, f)
    ensures WanHealthy(w) <==> Votes(w.families[f])
  {
  }

  // Bounded recovery: in every run, once a pivotal Family of a WAN is answered
  // from a lost, unhealthy Window, the WAN is healthy on exactly the
  // RecoveryCycle-th result, and then intended wherever it is preferred.
  lemma RecoveryIsBounded(env: Setting, trace: seq<DaemonView>, events: seq<DaemonEvent>, n: string, f: Family, st: Stretch)
    requires env.cfg.Valid() && IsRun(env, trace, events) && n in env.cfg.wans && env.cfg.wans[n].Probes(f)
    requires RecoversFrom(env.cfg.wans[n], f, ResultsFor(events, n, f), st)
    requires n in trace[|events|].health && Pivotal(trace[|events|].health[n], f)
    ensures n in HealthySet(trace[|events|].health) <==> |st.ss| >= RecoveryCycle(env.cfg.wans[n], st.size)
    ensures |st.ss| >= RecoveryCycle(env.cfg.wans[n], st.size) ==>
              forall g :: g in env.cfg.groups && IsBest(env.cfg.groups[g].members, HealthySet(trace[|events|].health), n) ==>
                g in trace[|events|].slices && Intends(trace[|events|], g, n)
  {
    RecoveryWinsTheVote(env, trace, events, n, f, st);
    PivotDecides(trace[|events|].health[n], f);
    forall g | g in env.cfg.groups && IsBest(env.cfg.groups[g].members, HealthySet(trace[|events|].health), n)
      ensures g in trace[|events|].slices && Intends(trace[|events|], g, n)
    {
      BestIsIntended(env, trace, events, g, n);
    }
  }

  lemma BestIsIntended(env: Setting, trace: seq<DaemonView>, events: seq<DaemonEvent>, g: string, n: string)
    requires env.cfg.Valid() && IsRun(env, trace, events) && g in env.cfg.groups
    requires IsBest(env.cfg.groups[g].members, HealthySet(trace[|events|].health), n)
    ensures g in trace[|events|].slices && Intends(trace[|events|], g, n)
  {
    IntentIsAlwaysTheChoice(env, trace, events, |events|, g);
    var members, healthy := env.cfg.groups[g].members, HealthySet(trace[|events|].health);
    assert n in members.Keys * healthy;
    ChoiceIsUnique(members, healthy, Choice(members, healthy), Active(n, true));
  }

  // And traffic moves back, if no kernel operation fails during the event that
  // makes it the choice.
  lemma RecoveryMovesTraffic(env: Setting, trace: seq<DaemonView>, events: seq<DaemonEvent>, n: string, f: Family, st: Stretch, g: string)
    requires env.cfg.Valid() && IsRun(env, trace, events) && EndsReliably(env, trace, events) && n in env.cfg.wans && env.cfg.wans[n].Probes(f)
    requires RecoversFrom(env.cfg.wans[n], f, ResultsFor(events, n, f), st) && |st.ss| >= RecoveryCycle(env.cfg.wans[n], st.size)
    requires n in trace[|events|].health && Pivotal(trace[|events|].health[n], f)
    requires g in env.cfg.groups && IsBest(env.cfg.groups[g].members, HealthySet(trace[|events|].health), n)
    requires g in trace[|events|-1].slices && !Intends(trace[|events|-1], g, n)
    ensures Moved(env, trace[|events|], g) && trace[|events|].slices[g].group.selection == Active(n, true)
  {
    RecoveryIsBounded(env, trace, events, n, f, st);
    MovedIntentIsCarried(env, trace, events, g);
  }
}
