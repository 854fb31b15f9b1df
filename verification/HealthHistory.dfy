// What a Family's verdict means: the band-pass and the run counters, taken
// together, are a simple function of the history of results.
module HealthHistory {
  import opened Basics
  import opened Config
  import opened Measurements
  import opened HealthSpec
  import opened Failover

  // ---- Results, classified once and for all

  datatype Class = Good | Mid | Bad

  predicate IsBad(s: FamilyStats, t: Thresholds) {
    LossOf(s) >= t.lossPctDown as real / 100.0 || RttOf(s) >= MsToMicros(t.rttMsDown)
  }

  predicate IsGood(s: FamilyStats, t: Thresholds) {
    LossOf(s) <= t.lossPctUp as real / 100.0 && RttOf(s) <= MsToMicros(t.rttMsUp)
  }

  function ClassOf(s: FamilyStats, t: Thresholds): Class {
    if IsBad(s, t) then Bad else if IsGood(s, t) then Good else Mid
  }

  function ClassesOf(ss: seq<FamilyStats>, t: Thresholds): seq<Class> {
    if ss == [] then [] else ClassesOf(ss[..|ss|-1], t) + [ClassOf(ss[|ss|-1], t)]
  }

  // Which band a verdict uses, in terms of the class alone: a healthy Family
  // stays so unless Bad, an unhealthy one recovers on Good.
  lemma BandIsClass(prev: bool, s: FamilyStats, t: Thresholds)
    requires ValidThresholds(t)
    ensures Passes(prev, s, t) <==> if prev then ClassOf(s, t) != Bad else ClassOf(s, t) == Good
  {
    assert t.lossPctUp as real / 100.0 < t.lossPctDown as real / 100.0;
  }

  // The classes on the measurements themselves; a statistic without data
  // passes its thresholds.
  lemma ClassInFull(s: FamilyStats, t: Thresholds)
    requires ValidThresholds(t)
    ensures ClassOf(s, t) == Bad
            <==> (s.exactLoss.Some? && s.exactLoss.value * 100.0 >= t.lossPctDown as real)
                 || (s.rttMicros.Some? && s.rttMicros.value >= t.rttMsDown * 1000)
    ensures ClassOf(s, t) == Good
            <==> (s.exactLoss.Some? ==> s.exactLoss.value * 100.0 <= t.lossPctUp as real)
                 && (s.rttMicros.Some? ==> s.rttMicros.value <= t.rttMsUp * 1000)
  {
  }

  // ---- The history function

  // The length of the run of c the history ends in.
  function RunOf(c: Class, cs: seq<Class>): nat {
    if cs == [] || cs[|cs|-1] != c then 0 else 1 + RunOf(c, cs[..|cs|-1])
  }

  // The last completed run decides, else the seed.
  function History(seed: bool, cs: seq<Class>, up: nat, down: nat): bool {
    if cs == [] then seed
    else if RunOf(Bad, cs) >= down then false
    else if RunOf(Good, cs) >= up then true
    else History(seed, cs[..|cs|-1], up, down)
  }

  // k results of class c in a row end at position i.
  ghost predicate CompletedAt(cs: seq<Class>, c: Class, k: nat, i: int) {
    k <= i <= |cs| && forall j :: i - k <= j < i ==> cs[j] == c
  }

  ghost predicate NoneAfter(cs: seq<Class>, c: Class, k: nat, i: int) {
    forall j :: i < j <= |cs| ==> !CompletedAt(cs, c, k, j)
  }

  lemma {:induction false} RunIsCompletion(cs: seq<Class>, c: Class, k: nat)
    ensures RunOf(c, cs) >= k <==> CompletedAt(cs, c, k, |cs|)
  {
    if k > 0 && cs != [] {
      var rest := cs[..|cs|-1];
      RunIsCompletion(rest, c, k - 1);
      assert forall j :: 0 <= j < |rest| ==> rest[j] == cs[j];
    }
  }

  // Healthy means: up Goods in a row completed some time with no down Bads in
  // a row completed since, or a healthy seed and no such Bads ever.
  lemma {:induction false} HistoryIsLastRun(seed: bool, cs: seq<Class>, up: nat, down: nat)
    requires up > 0 && down > 0
    ensures History(seed, cs, up, down)
            <==> (seed && NoneAfter(cs, Bad, down, 0))
                 || exists i :: 0 < i <= |cs| && CompletedAt(cs, Good, up, i) && NoneAfter(cs, Bad, down, i)
  {
    if cs != [] {
      var n := |cs|;
      var rest := cs[..n-1];
      HistoryIsLastRun(seed, rest, up, down);
      RunIsCompletion(cs, Bad, down);
      RunIsCompletion(cs, Good, up);
      forall i, c, k | 0 <= i < n ensures CompletedAt(cs, c, k, i) <==> CompletedAt(rest, c, k, i) {
      }
      forall i | 0 <= i < n
        ensures NoneAfter(cs, Bad, down, i) <==> NoneAfter(rest, Bad, down, i) && !CompletedAt(cs, Bad, down, n)
      {
      }
    }
  }

  // ---- The machine follows it

  function Ran(f: FamilyView, ss: seq<FamilyStats>, t: Thresholds): FamilyView {
    if ss == [] then f else ProbedFamily(Ran(f, ss[..|ss|-1], t), ss[|ss|-1], t)
  }

  // The first result whose Windows have all filled, or the number of results.
  function FirstFull(ss: seq<FamilyStats>): (k: nat)
    ensures k <= |ss| && (k < |ss| ==> ss[k].windowFilled)
    ensures forall i :: 0 <= i < k ==> !ss[i].windowFilled
  {
    if ss == [] then 0 else
      var k := FirstFull(ss[..|ss|-1]);
      if k < |ss| - 1 || ss[|ss|-1].windowFilled then k else |ss|
  }

  lemma FirstFullGrows(ss: seq<FamilyStats>, s: FamilyStats)
    ensures FirstFull(ss + [s]) == if FirstFull(ss) < |ss| || s.windowFilled then FirstFull(ss) else |ss| + 1
  {
    assert (ss + [s])[..|ss|] == ss;
  }

  // The observations after the seed.
  function Observations(ss: seq<FamilyStats>, t: Thresholds): seq<Class> {
    var k := FirstFull(ss);
    if k < |ss| then ClassesOf(ss[k+1..], t) else []
  }

  // A Family a history cs since its seed left: the counter of runs against
  // its verdict is the run the history ends in.
  predicate Follows(f: FamilyView, seed: bool, cs: seq<Class>, up: nat, down: nat) {
    && f.cooked && f.healthy == f.hyst.healthy && f.hyst.up == up && f.hyst.down == down
    && f.healthy == History(seed, cs, up, down)
    && (f.healthy ==> f.hyst.unhealthyCount == RunOf(Bad, cs) < down)
    && (!f.healthy ==> f.hyst.healthyCount == RunOf(Good, cs) < up)
  }

  lemma ObservationFollows(f: FamilyView, s: FamilyStats, t: Thresholds, seed: bool, cs: seq<Class>, up: nat, down: nat)
    requires ValidThresholds(t) && up > 0 && down > 0
    requires Follows(f, seed, cs, up, down)
    ensures Follows(ProbedFamily(f, s, t), seed, cs + [ClassOf(s, t)], up, down)
  {
    BandIsClass(f.healthy, s, t);
    assert (cs + [ClassOf(s, t)])[..|cs|] == cs;
  }

  lemma SeedFollows(f: FamilyView, s: FamilyStats, t: Thresholds, up: nat, down: nat)
    requires ValidThresholds(t) && up > 0 && down > 0
    requires !f.cooked && f.hyst.up == up && f.hyst.down == down && s.windowFilled
    ensures Follows(ProbedFamily(f, s, t), ClassOf(s, t) != Bad, [], up, down)
  {
    BandIsClass(true, s, t);
  }

  lemma ObservationsGrow(ss: seq<FamilyStats>, s: FamilyStats, t: Thresholds)
    requires FirstFull(ss) < |ss|
    ensures Observations(ss + [s], t) == Observations(ss, t) + [ClassOf(s, t)]
  {
    FirstFullGrows(ss, s);
    ClassesFromGrow(ss, s, t, FirstFull(ss) + 1);
  }

  lemma ClassesFromGrow(ss: seq<FamilyStats>, s: FamilyStats, t: Thresholds, k: nat)
    requires k <= |ss|
    ensures ClassesOf((ss + [s])[k..], t) == ClassesOf(ss[k..], t) + [ClassOf(s, t)]
  {
    assert (ss + [s])[k..] == ss[k..] + [s];
    ClassesGrow(ss[k..], s, t);
  }

  lemma SeedIsNoObservation(ss: seq<FamilyStats>, s: FamilyStats, t: Thresholds)
    requires FirstFull(ss) == |ss|
    ensures Observations(ss + [s], t) == []
  {
    FirstFullGrows(ss, s);
  }

  lemma ClassesGrow(ss: seq<FamilyStats>, s: FamilyStats, t: Thresholds)
    ensures ClassesOf(ss + [s], t) == ClassesOf(ss, t) + [ClassOf(s, t)]
  {
    assert (ss + [s])[..|ss|] == ss;
  }

  // The verdict of a Family is its history's: unseeded until a first full
  // Window, which is healthy unless Bad, and from then on set by the most
  // recent completed run.
  lemma {:induction false} VerdictIsHistory(cfg: WanConfig, fam: Family, ss: seq<FamilyStats>)
    requires ValidThresholds(cfg.thresholds)
    ensures var t, f := cfg.thresholds, Ran(ColdFamily(cfg, fam), ss, cfg.thresholds);
            var h := FreshHysteresis(cfg.consecutiveUp, cfg.consecutiveDown);
            if FirstFull(ss) == |ss| then !f.cooked && !f.healthy && f.hyst == h
            else Follows(f, ClassOf(ss[FirstFull(ss)], t) != Bad, Observations(ss, t), h.up, h.down)
  {
    if ss != [] {
      var rest, s, t := ss[..|ss|-1], ss[|ss|-1], cfg.thresholds;
      assert ss == rest + [s];
      VerdictIsHistory(cfg, fam, rest);
      FirstFullGrows(rest, s);
      var f := Ran(ColdFamily(cfg, fam), rest, t);
      var h := FreshHysteresis(cfg.consecutiveUp, cfg.consecutiveDown);
      if FirstFull(rest) < |rest| {
        ObservationsGrow(rest, s, t);
        ObservationFollows(f, s, t, ClassOf(rest[FirstFull(rest)], t) != Bad, Observations(rest, t), h.up, h.down);
      } else if s.windowFilled {
        SeedIsNoObservation(rest, s, t);
        SeedFollows(f, s, t, h.up, h.down);
      }
    }
  }

  // ---- Flapping is bounded

  // What the flips after the seed cost: the run length each needed.
  function FlipCost(seed: bool, cs: seq<Class>, up: nat, down: nat): nat {
    if cs == [] then 0
    else
      var was, now := History(seed, cs[..|cs|-1], up, down), History(seed, cs, up, down);
      FlipCost(seed, cs[..|cs|-1], up, down) + if was == now then 0 else if now then up else down
  }

  // Every flip spends observations no other flip can: the thresholds of all
  // flips, and the run under way against the verdict, fit in the history.
  lemma {:induction false} FlipsSpendObservations(seed: bool, cs: seq<Class>, up: nat, down: nat)
    requires up > 0 && down > 0
    ensures FlipCost(seed, cs, up, down) + (if History(seed, cs, up, down) then RunOf(Bad, cs) else RunOf(Good, cs)) <= |cs|
    ensures if History(seed, cs, up, down) then RunOf(Bad, cs) < down else RunOf(Good, cs) < up
  {
    if cs != [] {
      FlipsSpendObservations(seed, cs[..|cs|-1], up, down);
    }
  }

  // ---- In the daemon

  lemma ProbedWanIsProbedFamily(w: WanView, f: Family, s: FamilyStats)
    requires f in w.families
    ensures ProbedWan(w, f, s).families == w.families[f := ProbedFamily(w.families[f], s, w.cfg.thresholds)]
    ensures ProbedWan(w, f, s).cfg == w.cfg
  {
  }

  // The results of one Family among the events.
  function ResultsFor(events: seq<DaemonEvent>, wan: string, f: Family): seq<FamilyStats> {
    if events == [] then []
    else
      var rest, e := ResultsFor(events[..|events|-1], wan, f), events[|events|-1];
      if e.ProbeEvent? && e.result.wan == wan && e.result.family == f then rest + [e.result.stats] else rest
  }

  ghost predicate FamilyIs(h: HealthView, wan: string, f: Family, cfg: WanConfig, v: FamilyView) {
    wan in h && h[wan].cfg == cfg && f in h[wan].families && h[wan].families[f] == v
  }

  lemma {:induction false} LinksKeepFamilies(h: HealthView, links: seq<LinkEvent>, wan: string, f: Family, cfg: WanConfig, v: FamilyView)
    requires FamilyIs(h, wan, f, cfg, v)
    ensures FamilyIs(LinkedAlong(h, links), wan, f, cfg, v)
  {
    if links != [] {
      LinksKeepFamilies(h, links[..|links|-1], wan, f, cfg, v);
    }
  }

  lemma EventRunsFamily(h: HealthView, ev: DaemonEvent, wan: string, f: Family, cfg: WanConfig, v: FamilyView)
    requires FamilyIs(h, wan, f, cfg, v)
    ensures FamilyIs(HealthAfter(h, ev), wan, f, cfg,
                     if ev.ProbeEvent? && ev.result.wan == wan && ev.result.family == f
                     then ProbedFamily(v, ev.result.stats, cfg.thresholds) else v)
  {
    match ev {
      case Prime(_, links) => LinksKeepFamilies(h, links, wan, f, cfg, v);
      case ProbeEvent(r) =>
        if r.wan in h && r.family in h[r.wan].families {
          ProbedWanIsProbedFamily(h[r.wan], r.family, r.stats);
        }
      case LinkSeen(_) =>
      case RouteSeen(_) =>
    }
  }

  // After any run of the daemon, whatever the links, routes and other WANs
  // did, a Family is what its own results make of it.
  lemma {:induction false} FamiliesFollowTheirResults(env: Setting, trace: seq<DaemonView>, events: seq<DaemonEvent>, i: nat,
                                                      wan: string, f: Family)
    requires env.cfg.Valid() && IsRun(env, trace, events) && i < |trace|
    requires wan in env.cfg.wans && env.cfg.wans[wan].Probes(f)
    ensures FamilyIs(trace[i].health, wan, f, env.cfg.wans[wan],
                     Ran(ColdFamily(env.cfg.wans[wan], f), ResultsFor(events[..i], wan, f), env.cfg.wans[wan].thresholds))
  {
    var cfg := env.cfg.wans[wan];
    if i > 0 {
      FamiliesFollowTheirResults(env, trace, events, i - 1, wan, f);
      assert Failover.Follows(env, trace[i-1], events[i-1], trace[i]);
      assert events[..i][..i-1] == events[..i-1];
      var rest := ResultsFor(events[..i-1], wan, f);
      EventRunsFamily(trace[i-1].health, events[i-1], wan, f, cfg, Ran(ColdFamily(cfg, f), rest, cfg.thresholds));
      var now := ResultsFor(events[..i], wan, f);
      assert now != rest ==> now[..|now|-1] == rest;
    }
  }
}
