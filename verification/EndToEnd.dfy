// The pieces composed: what the kernel's main table and links are, what the
// probes measured, and what the daemon then routes.
module EndToEnd {
  import opened Basics
  import opened Config
  import opened Measurements
  import opened HealthSpec
  import Apply
  import DecisionSpec
  import opened Failover
  import opened GroupInvariant
  import opened FailoverTheorems
  import opened HealthHistory
  import RouteTable
  import RouteDiscovery
  import LinkDiscovery

  // ---- Gateways

  function Learn(gws: Apply.Gateways, es: seq<RouteEvent>): Apply.Gateways {
    if es == [] then gws else Learned(Learn(gws, es[..|es|-1]), es[|es|-1])
  }

  lemma {:induction false} LearnConcat(gws: Apply.Gateways, a: seq<RouteEvent>, b: seq<RouteEvent>)
    ensures Learn(gws, a + b) == Learn(Learn(gws, a), b)
  {
    if b == [] {
      assert a + b == a;
    } else {
      LearnConcat(gws, a, b[..|b|-1]);
      assert (a + b)[..|a + b|-1] == a + b[..|b|-1];
    }
  }

  // A snapshot holds Adds only, so learning it at once is learning each.
  lemma {:induction false} AddsLearnAlong(gws: Apply.Gateways, es: seq<RouteEvent>)
    requires forall i :: 0 <= i < |es| ==> es[i].isAdd
    ensures LearnedAlong(gws, es) == Learn(gws, es)
  {
    if es != [] {
      AddsLearnAlong(gws, es[..|es|-1]);
    }
  }

  // The route events the daemon was told of, in order.
  function RoutesTold(events: seq<DaemonEvent>): seq<RouteEvent> {
    if events == [] then []
    else
      RoutesTold(events[..|events|-1]) + match events[|events|-1]
                                         case Prime(routes, _) => routes
                                         case RouteSeen(e) => [e]
                                         case _ => []
  }

  // The route events one discovery step reports.
  function ReportOf(a: RouteDiscovery.Action): seq<RouteEvent> {
    match a
    case ReadFamily(_, es) => es
    case ReadKey(_, e) => [e]
    case _ => []
  }

  // The route events discovery reported, in order.
  function RoutesReported(actions: seq<RouteDiscovery.Action>): seq<RouteEvent> {
    if actions == [] then [] else RoutesReported(actions[..|actions|-1]) + ReportOf(actions[|actions|-1])
  }

  ghost predicate PrimesWithAdds(events: seq<DaemonEvent>) {
    forall i :: 0 <= i < |events| && events[i].Prime? ==>
      forall j :: 0 <= j < |events[i].routes| ==> events[i].routes[j].isAdd
  }

  lemma {:induction false} DaemonLearns(env: Setting, trace: seq<DaemonView>, events: seq<DaemonEvent>, i: nat)
    requires env.cfg.Valid() && IsRun(env, trace, events) && PrimesWithAdds(events) && i < |trace|
    ensures trace[i].gateways == Learn(map[], RoutesTold(events[..i]))
  {
    if i > 0 {
      DaemonLearns(env, trace, events, i - 1);
      var ev := events[i-1];
      assert Failover.Follows(env, trace[i-1], ev, trace[i]);
      assert events[..i][..i-1] == events[..i-1];
      var before := RoutesTold(events[..i-1]);
      match ev {
        case Prime(routes, _) =>
          AddsLearnAlong(Learn(map[], before), routes);
          LearnConcat(map[], before, routes);
        case RouteSeen(e) =>
          LearnOne(before, e);
        case _ =>
          assert before + [] == before;
      }
    }
  }

  lemma LearnOne(before: seq<RouteEvent>, e: RouteEvent)
    ensures Learn(map[], before + [e]) == Learned(Learn(map[], before), e)
  {
    assert (before + [e])[..|before|] == before;
  }

  lemma StepShows(w: RouteTable.Watch, s: RouteDiscovery.World, a: RouteDiscovery.Action, s': RouteDiscovery.World, before: seq<RouteEvent>)
    requires RouteDiscovery.Next(w, s, a, s') && s.shown == Learn(map[], before)
    ensures s'.shown == Learn(map[], before + ReportOf(a))
  {
    match a {
      case ReadFamily(_, es) =>
        AddsLearnAlong(Learn(map[], before), es);
        LearnConcat(map[], before, es);
      case ReadKey(_, e) => LearnOne(before, e);
      case _ => assert before + [] == before;
    }
  }

  lemma {:induction false} DiscoveryShows(w: RouteTable.Watch, trace: seq<RouteDiscovery.World>, actions: seq<RouteDiscovery.Action>, i: nat)
    requires RouteDiscovery.IsRun(w, trace, actions) && i < |trace|
    ensures trace[i].shown == Learn(map[], RoutesReported(actions[..i]))
  {
    if i > 0 {
      DiscoveryShows(w, trace, actions, i - 1);
      assert actions[..i][..i-1] == actions[..i-1];
      StepShows(w, trace[i-1], actions[i-1], trace[i], RoutesReported(actions[..i-1]));
    }
  }

  // Told all that discovery reported, the daemon holds what discovery shows.
  lemma GatewaysAreShown(env: Setting, trace: seq<DaemonView>, events: seq<DaemonEvent>,
                         w: RouteTable.Watch, worlds: seq<RouteDiscovery.World>, actions: seq<RouteDiscovery.Action>)
    requires env.cfg.Valid() && IsRun(env, trace, events) && PrimesWithAdds(events)
    requires RouteDiscovery.IsRun(w, worlds, actions) && RoutesTold(events) == RoutesReported(actions)
    ensures trace[|events|].gateways == worlds[|actions|].shown
  {
    DaemonLearnsAll(env, trace, events);
    DiscoveryShowsAll(w, worlds, actions);
  }

  lemma DaemonLearnsAll(env: Setting, trace: seq<DaemonView>, events: seq<DaemonEvent>)
    requires env.cfg.Valid() && IsRun(env, trace, events) && PrimesWithAdds(events)
    ensures trace[|events|].gateways == Learn(map[], RoutesTold(events))
  {
    DaemonLearns(env, trace, events, |events|);
    assert events[..|events|] == events;
  }

  lemma DiscoveryShowsAll(w: RouteTable.Watch, trace: seq<RouteDiscovery.World>, actions: seq<RouteDiscovery.Action>)
    requires RouteDiscovery.IsRun(w, trace, actions)
    ensures trace[|actions|].shown == Learn(map[], RoutesReported(actions))
  {
    DiscoveryShows(w, trace, actions, |actions|);
    assert actions[..|actions|] == actions;
  }

  lemma DrainedShows(w: RouteTable.Watch, worlds: seq<RouteDiscovery.World>, actions: seq<RouteDiscovery.Action>, k: RouteTable.Key)
    requires RouteDiscovery.IsRun(w, worlds, actions) && Drained(worlds[|actions|])
    ensures RouteTable.Preferred(w, RouteDiscovery.Effective(worlds[|actions|]), k)
            == var shown := worlds[|actions|].shown; if k in shown then Some(shown[k]) else None
  {
    RouteDiscovery.DiscoveryIsNeverStale(w, worlds, actions, |actions|, k);
  }

  // Once the daemon has been told all that a drained discovery reported, its
  // Gateways are exactly those of the kernel's preferred defaults.
  lemma GatewaysAreTheKernels(env: Setting, trace: seq<DaemonView>, events: seq<DaemonEvent>,
                              w: RouteTable.Watch, worlds: seq<RouteDiscovery.World>, actions: seq<RouteDiscovery.Action>,
                              iface: string, f: Family)
    requires env.cfg.Valid() && IsRun(env, trace, events) && PrimesWithAdds(events)
    requires RouteDiscovery.IsRun(w, worlds, actions) && RoutesTold(events) == RoutesReported(actions)
    requires Drained(worlds[|actions|])
    ensures RouteTable.Preferred(w, RouteDiscovery.Effective(worlds[|actions|]), (iface, f))
            == var gws := trace[|events|].gateways; if (iface, f) in gws then Some(gws[(iface, f)]) else None
  {
    GatewaysAreShown(env, trace, events, w, worlds, actions);
    DrainedShows(w, worlds, actions, (iface, f));
  }

  predicate Drained(s: RouteDiscovery.World) {
    s.phase.Running? && s.queue == [] && s.work.Idle? && !s.rtnl.Unsent?
  }

  // A WAN's route for one Family: scope link if it is point-to-point, else
  // through the Gateway of a default that has one.
  predicate RoutesThrough(wan: WanConfig, index: int, t: Apply.Table, f: Family, default: Option<Option<Address>>) {
    && (wan.pointToPoint ==> f in t && t[f] == Apply.Route(index, None))
    && (!wan.pointToPoint && default.Some? && default.value.Some? ==> f in t && t[f] == Apply.Route(index, default.value))
  }

  // A settled Group then routes each probed Family of its WAN through the
  // very Gateway of the kernel's preferred default on the WAN's interface.
  lemma SettledGroupsUseTheKernelsGateways(env: Setting, trace: seq<DaemonView>, events: seq<DaemonEvent>,
                                           w: RouteTable.Watch, worlds: seq<RouteDiscovery.World>, actions: seq<RouteDiscovery.Action>,
                                           g: string, f: Family)
    requires env.cfg.Valid() && IsRun(env, trace, events) && PrimesWithAdds(events)
    requires RouteDiscovery.IsRun(w, worlds, actions) && RoutesTold(events) == RoutesReported(actions)
    requires Drained(worlds[|actions|])
    requires g in env.cfg.groups && g in trace[|events|].slices
    requires var v := trace[|events|].slices[g].group; Settled(v) && v.selection.has
    ensures var s := trace[|events|].slices[g];
            s.group.selection.wan in env.cfg.wans
            && var wan := env.cfg.wans[s.group.selection.wan];
               wan.Probes(f) ==>
                 RoutesThrough(wan, env.indexOf(wan.iface), s.table, f,
                               RouteTable.Preferred(w, RouteDiscovery.Effective(worlds[|actions|]), (wan.iface, f)))
  {
    SettledGroupsAreConverged(env, trace, events, |events|, g);
    var d := trace[|events|];
    var name := d.slices[g].group.selection.wan;
    GatewaysAreTheKernels(env, trace, events, w, worlds, actions, env.cfg.wans[name].iface, f);
    if env.cfg.wans[name].Probes(f) {
      RoutesAsCached(env.WorldFor(d.gateways, false), name, d.slices[g].table, f,
                     RouteTable.Preferred(w, RouteDiscovery.Effective(worlds[|actions|]), (env.cfg.wans[name].iface, f)));
    }
  }

  // Routes via a WAN, spelled out for one Family and its cached default.
  lemma RoutesAsCached(w: DecisionSpec.World, wan: string, t: Apply.Table, f: Family, cached: Option<Option<Address>>)
    requires RoutesVia(w, wan, t) && w.wans[wan].Probes(f)
    requires var k := (w.wans[wan].iface, f); cached == if k in w.gateways then Some(w.gateways[k]) else None
    ensures RoutesThrough(w.wans[wan], w.indexOf(w.wans[wan].iface), t, f, cached)
  {
    assert Apply.Holds(t, f, Apply.RouteFor(w.wans[wan], w.gateways, w.indexOf, f));
  }

  // ---- Links

  // The link events the daemon was told of, in order.
  function LinksTold(events: seq<DaemonEvent>): seq<LinkEvent> {
    if events == [] then []
    else
      LinksTold(events[..|events|-1]) + match events[|events|-1]
                                        case Prime(_, links) => links
                                        case LinkSeen(e) => [e]
                                        case _ => []
  }

  // What a WAN knows of its link: the last event, or nothing yet.
  predicate LinkIs(w: WanView, last: Option<LinkEvent>) {
    match last
    case None => w.carrier == CarrierUnknown && w.operstate == OPER_UNKNOWN
    case Some(e) => w.carrier == e.carrier && w.operstate == e.operstate
  }

  ghost predicate LinkKnown(h: HealthView, n: string, iface: string, told: seq<LinkEvent>) {
    n in h && h[n].cfg.iface == iface && LinkIs(h[n], LinkDiscovery.LastFor(told, iface))
  }

  lemma LinkKnownNext(h: HealthView, n: string, iface: string, told: seq<LinkEvent>, e: LinkEvent)
    requires LinkKnown(h, n, iface, told)
    ensures LinkKnown(Linked(h, e), n, iface, told + [e])
  {
    LinkDiscovery.LastAfter(told, e, iface);
  }

  lemma {:induction false} LinkKnownAlong(h: HealthView, n: string, iface: string, told: seq<LinkEvent>, links: seq<LinkEvent>)
    requires LinkKnown(h, n, iface, told)
    ensures LinkKnown(LinkedAlong(h, links), n, iface, told + links)
  {
    if links == [] {
      assert told + links == told;
    } else {
      var rest, e := links[..|links|-1], links[|links|-1];
      LinkKnownAlong(h, n, iface, told, rest);
      LinkKnownNext(LinkedAlong(h, rest), n, iface, told + rest, e);
      assert told + rest + [e] == told + links;
    }
  }

  lemma LinkKnownAfter(h: HealthView, n: string, iface: string, told: seq<LinkEvent>, ev: DaemonEvent)
    requires LinkKnown(h, n, iface, told)
    ensures LinkKnown(HealthAfter(h, ev), n, iface,
                      told + match ev case Prime(_, links) => links case LinkSeen(e) => [e] case _ => [])
  {
    match ev {
      case Prime(_, links) => LinkKnownAlong(h, n, iface, told, links);
      case LinkSeen(e) => LinkKnownNext(h, n, iface, told, e);
      case ProbeEvent(r) => assert told + [] == told;
      case RouteSeen(_) => assert told + [] == told;
    }
  }

  lemma {:induction false} WansKnowTheirLinks(env: Setting, trace: seq<DaemonView>, events: seq<DaemonEvent>, i: nat, n: string)
    requires env.cfg.Valid() && IsRun(env, trace, events) && i < |trace| && n in env.cfg.wans
    ensures LinkKnown(trace[i].health, n, env.cfg.wans[n].iface, LinksTold(events[..i]))
  {
    if i > 0 {
      WansKnowTheirLinks(env, trace, events, i - 1, n);
      assert Failover.Follows(env, trace[i-1], events[i-1], trace[i]);
      assert events[..i][..i-1] == events[..i-1];
      LinkKnownAfter(trace[i-1].health, n, env.cfg.wans[n].iface, LinksTold(events[..i-1]), events[i-1]);
    }
  }

  // The kernel's own word on a link: present, with IFF_LOWER_UP set, and not
  // absent, down or down for a lower layer.
  predicate KernelLinkUp(links: map<string, LinkDiscovery.Link>, iface: string) {
    iface in links && links[iface].flags & 0x10000 != 0 && links[iface].operstate !in {1, 2, 3}
  }

  // Once told all that discovery reported, with no change to its link still to
  // be served, a WAN is carrier-ready exactly when the kernel's link is up.
  lemma CarrierIsTheKernels(env: Setting, trace: seq<DaemonView>, events: seq<DaemonEvent>, interfaces: Option<set<string>>,
                            worlds: seq<LinkDiscovery.World>, actions: seq<LinkDiscovery.Action>, n: string)
    requires env.cfg.Valid() && IsRun(env, trace, events) && n in env.cfg.wans
    requires LinkDiscovery.IsRun(interfaces, worlds, actions) && LinksTold(events) == worlds[|actions|].emitted
    requires LinkDiscovery.Watches(interfaces, env.cfg.wans[n].iface) && worlds[|actions|].started
    requires !LinkDiscovery.Pending(worlds[|actions|], env.cfg.wans[n].iface)
    ensures n in trace[|events|].health
    ensures var w := trace[|events|].health[n];
            LinkUp(w.carrier, w.operstate) <==> KernelLinkUp(worlds[|actions|].links, env.cfg.wans[n].iface)
  {
    assert events[..|events|] == events;
    WansKnowTheirLinks(env, trace, events, |events|, n);
    LinkDiscovery.DiscoveryMissesNothing(interfaces, worlds, actions, |actions|, env.cfg.wans[n].iface);
  }

  // ---- Health

  // How a Family votes, from its results alone.
  predicate VoteOf(cfg: WanConfig, ss: seq<FamilyStats>) {
    FirstFull(ss) == |ss|
    || var t, h := cfg.thresholds, FreshHysteresis(cfg.consecutiveUp, cfg.consecutiveDown);
       History(ClassOf(ss[FirstFull(ss)], t) != Bad, Observations(ss, t), h.up, h.down)
  }

  // The policy over the probed Families' votes.
  ghost predicate VotesAgree(cfg: WanConfig, events: seq<DaemonEvent>) {
    if cfg.policy == AnyFamily then exists f :: cfg.Probes(f) && VoteOf(cfg, ResultsFor(events, cfg.name, f))
    else (exists f :: cfg.Probes(f)) && forall f :: cfg.Probes(f) ==> VoteOf(cfg, ResultsFor(events, cfg.name, f))
  }

  lemma {:induction false} FamiliesAreProbed(env: Setting, trace: seq<DaemonView>, events: seq<DaemonEvent>, i: nat, n: string)
    requires env.cfg.Valid() && IsRun(env, trace, events) && i < |trace| && n in env.cfg.wans
    ensures n in trace[i].health && trace[i].health[n].cfg == env.cfg.wans[n]
    ensures forall f :: f in trace[i].health[n].families <==> env.cfg.wans[n].Probes(f)
  {
    if i > 0 {
      FamiliesAreProbed(env, trace, events, i - 1, n);
      assert Failover.Follows(env, trace[i-1], events[i-1], trace[i]);
      EventKeepsFamilies(trace[i-1].health, events[i-1], n);
    }
  }

  lemma {:induction false} LinksKeepKeys(h: HealthView, links: seq<LinkEvent>, n: string)
    requires n in h
    ensures n in LinkedAlong(h, links) && LinkedAlong(h, links)[n].cfg == h[n].cfg
    ensures LinkedAlong(h, links)[n].families == h[n].families
  {
    if links != [] {
      LinksKeepKeys(h, links[..|links|-1], n);
    }
  }

  lemma EventKeepsFamilies(h: HealthView, ev: DaemonEvent, n: string)
    requires n in h
    ensures n in HealthAfter(h, ev) && HealthAfter(h, ev)[n].cfg == h[n].cfg
    ensures HealthAfter(h, ev)[n].families.Keys == h[n].families.Keys
  {
    if ev.Prime? {
      LinksKeepKeys(h, ev.links, n);
    }
  }

  lemma FamilyVotes(env: Setting, trace: seq<DaemonView>, events: seq<DaemonEvent>, n: string, f: Family)
    requires env.cfg.Valid() && IsRun(env, trace, events) && n in env.cfg.wans && env.cfg.wans[n].Probes(f)
    requires ValidThresholds(env.cfg.wans[n].thresholds)
    ensures n in trace[|events|].health && f in trace[|events|].health[n].families
    ensures Votes(trace[|events|].health[n].families[f]) <==> VoteOf(env.cfg.wans[n], ResultsFor(events, n, f))
  {
    assert events[..|events|] == events;
    FamiliesFollowTheirResults(env, trace, events, |events|, n, f);
    VerdictIsHistory(env.cfg.wans[n], f, ResultsFor(events, n, f));
  }

  // A WAN is healthy exactly when the kernel's link is up and its Families'
  // histories agree: nothing else the daemon has seen matters.
  lemma HealthIsLinkAndHistory(env: Setting, trace: seq<DaemonView>, events: seq<DaemonEvent>, interfaces: Option<set<string>>,
                               worlds: seq<LinkDiscovery.World>, actions: seq<LinkDiscovery.Action>, n: string)
    requires env.cfg.Valid() && IsRun(env, trace, events) && n in env.cfg.wans && ValidThresholds(env.cfg.wans[n].thresholds)
    requires LinkDiscovery.IsRun(interfaces, worlds, actions) && LinksTold(events) == worlds[|actions|].emitted
    requires LinkDiscovery.Watches(interfaces, env.cfg.wans[n].iface) && worlds[|actions|].started
    requires !LinkDiscovery.Pending(worlds[|actions|], env.cfg.wans[n].iface)
    ensures n in HealthySet(trace[|events|].health)
            <==> KernelLinkUp(worlds[|actions|].links, env.cfg.wans[n].iface) && VotesAgree(env.cfg.wans[n], events)
  {
    CarrierIsTheKernels(env, trace, events, interfaces, worlds, actions, n);
    FamiliesAreProbed(env, trace, events, |events|, n);
    var cfg, w := env.cfg.wans[n], trace[|events|].health[n];
    forall f | cfg.Probes(f) ensures Votes(w.families[f]) <==> VoteOf(cfg, ResultsFor(events, n, f)) {
      FamilyVotes(env, trace, events, n, f);
    }
    AgreementIsVotes(cfg, w.families, events);
  }

  lemma AgreementIsVotes(cfg: WanConfig, families: map<Family, FamilyView>, events: seq<DaemonEvent>)
    requires forall f :: f in families <==> cfg.Probes(f)
    requires forall f :: f in families ==> (Votes(families[f]) <==> VoteOf(cfg, ResultsFor(events, cfg.name, f)))
    ensures FamiliesAgree(cfg.policy, families) <==> VotesAgree(cfg, events)
  {
    if families == map[] {
      assert forall f :: !cfg.Probes(f);
    } else {
      var f :| f in families;
      assert cfg.Probes(f);
    }
  }
}
