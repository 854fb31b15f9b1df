// Every run of the daemon: one event keeps the invariant, so every reachable
// state has it. From it follow convergence, freshness of State, the flush
// history, the Hook chain and recovery after kernel failures.
module FailoverRuns {
  import opened Basics
  import opened Selector
  import opened HealthSpec
  import opened Apply
  import opened DecisionSpec
  import opened Failover
  import opened GroupInvariant

  ghost predicate GroupSound(env: Setting, d: DaemonView, g: string)
    requires env.cfg.Valid() && g in env.cfg.groups && g in d.slices
  {
    Sound(env.WorldFor(d.gateways, false), env.cfg.groups[g], HealthySet(d.health), d.slices[g])
  }

  ghost predicate HealthFits(env: Setting, h: HealthView) {
    h.Keys == env.cfg.wans.Keys && forall n :: n in h ==> h[n].cfg == env.cfg.wans[n]
  }

  ghost predicate Inv(env: Setting, d: DaemonView)
    requires env.cfg.Valid()
  {
    && HealthFits(env, d.health)
    && d.slices.Keys == env.cfg.groups.Keys
    && forall g :: g in env.cfg.groups ==> GroupSound(env, d, g)
  }

  // ---- Health events

  lemma {:induction false} LinkedAlongFits(env: Setting, h: HealthView, links: seq<LinkEvent>)
    requires HealthFits(env, h)
    ensures HealthFits(env, LinkedAlong(h, links))
  {
    if links != [] {
      LinkedAlongFits(env, h, links[..|links|-1]);
    }
  }

  lemma HealthKeepsFitting(env: Setting, h: HealthView, ev: DaemonEvent)
    requires HealthFits(env, h)
    ensures HealthFits(env, HealthAfter(h, ev))
  {
    if ev.Prime? {
      LinkedAlongFits(env, h, ev.links);
    }
  }

  // A WAN no event of the batch flipped is as healthy as before the batch.
  lemma {:induction false} UnflippedAlong(env: Setting, h: HealthView, links: seq<LinkEvent>, n: string)
    requires HealthFits(env, h) && n in h && n !in FlipsAlong(h, links)
    ensures n in LinkedAlong(h, links) && WanHealthy(LinkedAlong(h, links)[n]) == WanHealthy(h[n])
  {
    LinkedAlongFits(env, h, links);
    if links != [] {
      var rest := links[..|links|-1];
      LinkedAlongFits(env, h, rest);
      UnflippedAlong(env, h, rest, n);
      assert n !in Flips(LinkedAlong(h, rest), LinkedAlong(h, links));
    }
  }

  // No Member flipped: the Strategy, run again in full, chooses the same.
  lemma UnflippedChoice(env: Setting, g: GroupConfig, h: HealthView, ev: DaemonEvent)
    requires HealthFits(env, h) && KeyedByWan(g.members) && g.members.Keys <= env.cfg.wans.Keys
    requires g.members.Keys * FlippedBy(h, ev) == {}
    ensures Choice(g.members, HealthySet(h)) == Choice(g.members, HealthySet(HealthAfter(h, ev)))
  {
    var h' := HealthAfter(h, ev);
    HealthKeepsFitting(env, h, ev);
    forall n | n in g.members ensures n in HealthySet(h) <==> n in HealthySet(h') {
      assert n in FlippedBy(h, ev) ==> n in g.members.Keys * FlippedBy(h, ev);
      if ev.Prime? {
        UnflippedAlong(env, h, ev.links, n);
      }
    }
    assert g.members.Keys * HealthySet(h) == g.members.Keys * HealthySet(h');
    ChoiceIsLocal(g.members, HealthySet(h), HealthySet(h'));
  }

  // ---- One event

  lemma OneGatewayLearned(env: Setting, gws: Gateways, e: RouteEvent, r: bool)
    requires env.cfg.Valid()
    ensures LearnedAt(env.WorldFor(gws, r), env.WorldFor(Learned(gws, e), r), e.iface, e.family)
  {
  }

  // A Group that chose nothing yet promises nothing about Gateways.
  lemma UnselectedIgnoresGateways(w: World, w': World, g: GroupConfig, healthy: set<string>, s: Slice)
    requires KeyedByWan(g.members) && Sound(w, g, healthy, s) && w'.wans == w.wans
    requires !s.group.selection.has && Settled(s.group)
    ensures Sound(w', g, healthy, s)
  {
  }

  lemma ReliabilityIsIrrelevant(env: Setting, gws: Gateways, g: GroupConfig, healthy: set<string>, s: Slice)
    requires KeyedByWan(g.members)
    ensures Sound(env.WorldFor(gws, true), g, healthy, s) <==> Sound(env.WorldFor(gws, false), g, healthy, s)
  {
    var w, w' := env.WorldFor(gws, true), env.WorldFor(gws, false);
    assert RoutesVia(w, s.group.selection.wan, s.table) <==> RoutesVia(w', s.group.selection.wan, s.table) by {
      if s.group.selection.wan in env.cfg.wans {
        forall f: Family
          ensures RouteFor(env.cfg.wans[s.group.selection.wan], w.gateways, w.indexOf, f)
               == RouteFor(env.cfg.wans[s.group.selection.wan], w'.gateways, w'.indexOf, f)
        {
        }
      }
    }
  }

  // No Group has chosen or is choosing a WAN: the state that startup primes.
  ghost predicate Unselected(d: DaemonView) {
    forall g :: g in d.slices ==> !d.slices[g].group.selection.has && Settled(d.slices[g].group)
  }

  // One Group's part of an event.
  lemma GroupOfStep(env: Setting, d: DaemonView, ev: DaemonEvent, d': DaemonView, g: string) returns (w: World)
    requires env.cfg.Valid() && Follows(env, d, ev, d') && g in env.cfg.groups
    ensures g in d.slices && g in d'.slices
    ensures w.wans == env.cfg.wans && w.gateways == d'.gateways && w.indexOf == env.indexOf
    ensures SliceStep(w, env.cfg.groups[g], CallFor(env.cfg, env.cfg.groups[g], d.health, d.slices[g].group, ev),
                      d.slices[g], d'.slices[g])
  {
    var reliable, writes :| Step(env, d, ev, d', reliable, writes);
    w := env.WorldFor(d'.gateways, reliable);
  }

  lemma GroupStepKeeps(env: Setting, d: DaemonView, ev: DaemonEvent, d': DaemonView, reliable: bool, writes: bool, g: string)
    requires env.cfg.Valid() && Inv(env, d) && Step(env, d, ev, d', reliable, writes)
    requires ev.Prime? ==> Unselected(d)
    requires g in env.cfg.groups
    ensures GroupSound(env, d', g)
  {
    var cfg, s, s' := env.cfg.groups[g], d.slices[g], d'.slices[g];
    var w, w' := env.WorldFor(d.gateways, reliable), env.WorldFor(d'.gateways, reliable);
    var healthy, healthy' := HealthySet(d.health), HealthySet(d'.health);
    assert GroupSound(env, d, g);
    ReliabilityIsIrrelevant(env, d.gateways, cfg, healthy, s);
    ReliabilityIsIrrelevant(env, d'.gateways, cfg, healthy', s');
    assert SliceStep(w', cfg, CallFor(env.cfg, cfg, d.health, s.group, ev), s, s');
    if cfg.members.Keys * FlippedBy(d.health, ev) != {} {
      if ev.Prime? {
        UnselectedIgnoresGateways(w, w', cfg, healthy, s);
      } else {
        assert ev.RouteSeen? ==> FlippedBy(d.health, ev) == {};
      }
      RecomputeKeeps(w', cfg, healthy, healthy', s, s');
    } else {
      UnflippedChoice(env, cfg, d.health, ev);
      QuietStepKeeps(env, d, ev, d', reliable, writes, g);
    }
  }

  lemma QuietStepKeeps(env: Setting, d: DaemonView, ev: DaemonEvent, d': DaemonView, reliable: bool, writes: bool, g: string)
    requires env.cfg.Valid() && Inv(env, d) && Step(env, d, ev, d', reliable, writes)
    requires ev.Prime? ==> Unselected(d)
    requires g in env.cfg.groups && env.cfg.groups[g].members.Keys * FlippedBy(d.health, ev) == {}
    requires Choice(env.cfg.groups[g].members, HealthySet(d.health)) == Choice(env.cfg.groups[g].members, HealthySet(d'.health))
    ensures Sound(env.WorldFor(d'.gateways, reliable), env.cfg.groups[g], HealthySet(d'.health), d'.slices[g])
  {
    var cfg, s, s' := env.cfg.groups[g], d.slices[g], d'.slices[g];
    var w := env.WorldFor(d.gateways, reliable);
    var healthy, healthy' := HealthySet(d.health), HealthySet(d'.health);
    assert GroupSound(env, d, g);
    ReliabilityIsIrrelevant(env, d.gateways, cfg, healthy, s);
    assert Sound(w, cfg, healthy', s);
    QuietCallKeeps(env, d.health, d.gateways, ev, reliable, cfg, healthy', s, s');
  }

  // A call without a recompute, for Health under which nothing flipped.
  lemma QuietCallKeeps(env: Setting, h: HealthView, gws: Gateways, ev: DaemonEvent, reliable: bool, cfg: GroupConfig,
                       healthy: set<string>, s: Slice, s': Slice)
    requires env.cfg.Valid() && KeyedByWan(cfg.members) && cfg.members.Keys <= env.cfg.wans.Keys
    requires cfg.members.Keys * FlippedBy(h, ev) == {} && (ev.Prime? ==> !s.group.selection.has && Settled(s.group))
    requires Sound(env.WorldFor(gws, reliable), cfg, healthy, s)
    requires SliceStep(env.WorldFor(GatewaysAfter(gws, ev), reliable), cfg, CallFor(env.cfg, cfg, h, s.group, ev), s, s')
    ensures Sound(env.WorldFor(GatewaysAfter(gws, ev), reliable), cfg, healthy, s')
  {
    var w, w' := env.WorldFor(gws, reliable), env.WorldFor(GatewaysAfter(gws, ev), reliable);
    match ev {
      case Prime(_, _) => UnselectedIgnoresGateways(w, w', cfg, healthy, s);
      case ProbeEvent(r) => ProbedKeeps(w', cfg, healthy, r.wan, r.wan in FlippedBy(h, ev), s, s');
      case LinkSeen(_) =>
      case RouteSeen(e) =>
        OneGatewayLearned(env, gws, e, reliable);
        RouteKeeps(w, w', cfg, healthy, e, s, s');
    }
  }

  // A result retries its WAN's Groups, unless it flipped it.
  lemma ProbedKeeps(w: World, cfg: GroupConfig, healthy: set<string>, wan: string, flipped: bool, s: Slice, s': Slice)
    requires KeyedByWan(cfg.members) && cfg.members.Keys <= w.wans.Keys && Sound(w, cfg, healthy, s)
    requires SliceStep(w, cfg, if flipped then None else Some(ProbeOf(wan)), s, s')
    ensures Sound(w, cfg, healthy, s')
  {
    if !flipped {
      ProbeKeeps(w, cfg, healthy, wan, s, s');
    }
  }

  // A route event offers its observation to the Groups on its interface only.
  lemma RouteKeeps(w: World, w': World, cfg: GroupConfig, healthy: set<string>, e: RouteEvent, s: Slice, s': Slice)
    requires KeyedByWan(cfg.members) && cfg.members.Keys <= w.wans.Keys
    requires Sound(w, cfg, healthy, s) && LearnedAt(w, w', e.iface, e.family)
    requires var want := Intent(s.group);
             SliceStep(w', cfg, if want.has && want.wan in w.wans && w.wans[want.wan].iface == e.iface
                                then Some(Call.RouteObserved(want.wan, e.family)) else None, s, s')
    ensures Sound(w', cfg, healthy, s')
  {
    var want := Intent(s.group);
    if want.has && w.wans[want.wan].iface == e.iface {
      ObserveKeeps(w, w', cfg, healthy, e.iface, e.family, s, s');
    } else {
      UntouchedKeeps(w, w', cfg, healthy, e.iface, e.family, s);
    }
  }

  lemma StepKeeps(env: Setting, d: DaemonView, ev: DaemonEvent, d': DaemonView)
    requires env.cfg.Valid() && Inv(env, d) && Follows(env, d, ev, d')
    requires ev.Prime? ==> Unselected(d)
    ensures Inv(env, d')
  {
    var reliable, writes :| Step(env, d, ev, d', reliable, writes);
    HealthKeepsFitting(env, d.health, ev);
    forall g | g in env.cfg.groups ensures GroupSound(env, d', g) {
      GroupStepKeeps(env, d, ev, d', reliable, writes, g);
    }
  }

  lemma InitialIsSound(env: Setting, d: DaemonView)
    requires env.cfg.Valid() && Initial(env, d)
    ensures Inv(env, d) && Unselected(d)
  {
    assert HealthySet(d.health) == {} by {
      forall n | n in d.health ensures !WanHealthy(d.health[n]) {
      }
    }
    forall g | g in env.cfg.groups ensures GroupSound(env, d, g) {
      ChoiceIsUnique(env.cfg.groups[g].members, {}, Choice(env.cfg.groups[g].members, {}), NO_ACTIVE);
    }
  }

  lemma StepOfRun(env: Setting, trace: seq<DaemonView>, events: seq<DaemonEvent>, i: nat)
    requires env.cfg.Valid() && IsRun(env, trace, events) && i < |events|
    ensures Follows(env, trace[i], events[i], trace[i+1])
    ensures events[i].Prime? ==> i == 0
  {
  }

  // The main invariant: every state of every run is sound.
  lemma {:induction false} RunsAreSound(env: Setting, trace: seq<DaemonView>, events: seq<DaemonEvent>, i: nat)
    requires env.cfg.Valid() && IsRun(env, trace, events) && i < |trace|
    ensures Inv(env, trace[i])
  {
    InitialIsSound(env, trace[0]);
    if i > 0 {
      RunsAreSound(env, trace, events, i - 1);
      StepOfRun(env, trace, events, i - 1);
      StepKeeps(env, trace[i-1], events[i-1], trace[i]);
    }
  }
}
