// Freshness of the published State: although it is rewritten only on some
// events, after every event it equals a snapshot taken anew, in every field
// but the probe statistics.
module StateFile {
  import opened Basics
  import opened Config
  import opened Measurements
  import opened Selector
  import opened HealthSpec
  import opened Apply
  import opened DecisionSpec
  import opened Failover
  import opened FailoverRuns

  ghost predicate Fresh(env: Setting, d: DaemonView) {
    d.published.Some? && SameButStats(d.published.value, Current(env, d))
  }

  // What an entry shows is decided by the published facts and the Gateways.
  lemma SamePublicsSameEntry(w: WanView, w': WanView, gws: Gateways)
    requires w.cfg == w'.cfg && PublicsOf(w) == PublicsOf(w')
    ensures Unmeasured(EntryOf(gws, WanStateOf(w))) == Unmeasured(EntryOf(gws, WanStateOf(w')))
  {
    SamePublicsSameHealth(w, w');
    var p, p' := PublicsOf(w).verdicts, PublicsOf(w').verdicts;
    assert w.families.Keys == p.Keys == p'.Keys == w'.families.Keys;
    var u, u' := Unmeasured(EntryOf(gws, WanStateOf(w))), Unmeasured(EntryOf(gws, WanStateOf(w')));
    forall f | f in w.families ensures u.wan.families[f] == u'.wan.families[f] {
      assert p[f] == p'[f];
    }
    assert u.wan.families == u'.wan.families;
  }

  // A batch that flips a WAN has a transition to publish.
  lemma {:induction false} FlipsAlongArePublished(env: Setting, h: HealthView, links: seq<LinkEvent>)
    requires HealthFits(env, h) && FlipsAlong(h, links) != {}
    ensures TransitionAlong(h, links)
  {
    var rest := links[..|links|-1];
    LinkedAlongFits(env, h, rest);
    LinkedAlongFits(env, h, links);
    if FlipsAlong(h, rest) != {} {
      FlipsAlongArePublished(env, h, rest);
    } else {
      FlipsArePublished(LinkedAlong(h, rest), LinkedAlong(h, links));
    }
  }

  lemma {:induction false} NoTransitionAlong(env: Setting, h: HealthView, links: seq<LinkEvent>, n: string)
    requires HealthFits(env, h) && !TransitionAlong(h, links) && n in h
    ensures n in LinkedAlong(h, links) && PublicsOf(LinkedAlong(h, links)[n]) == PublicsOf(h[n])
  {
    LinkedAlongFits(env, h, links);
    if links != [] {
      var rest := links[..|links|-1];
      LinkedAlongFits(env, h, rest);
      NoTransitionAlong(env, h, rest, n);
    }
  }

  // Whatever is recomputed is republished.
  lemma RecomputeImpliesRepublish(env: Setting, d: DaemonView, ev: DaemonEvent)
    requires HealthFits(env, d.health) && FlippedBy(d.health, ev) != {}
    ensures RepublishedBy(d.health, d.gateways, ev)
  {
    match ev {
      case Prime(_, links) => FlipsAlongArePublished(env, d.health, links);
      case _ =>
        HealthKeepsFitting(env, d.health, ev);
        FlipsArePublished(d.health, HealthAfter(d.health, ev));
    }
  }

  // Unpublished events leave every WAN's shown entry alone.
  lemma UnpublishedKeepsEntries(env: Setting, d: DaemonView, ev: DaemonEvent, n: string)
    requires HealthFits(env, d.health) && !RepublishedBy(d.health, d.gateways, ev) && n in d.health
    ensures GatewaysAfter(d.gateways, ev) == d.gateways
    ensures n in HealthAfter(d.health, ev)
    ensures Unmeasured(EntryOf(d.gateways, WanStateOf(HealthAfter(d.health, ev)[n])))
            == Unmeasured(EntryOf(d.gateways, WanStateOf(d.health[n])))
  {
    var h' := HealthAfter(d.health, ev);
    HealthKeepsFitting(env, d.health, ev);
    if ev.Prime? {
      NoTransitionAlong(env, d.health, ev.links, n);
    }
    assert PublicsOf(h'[n]) == PublicsOf(d.health[n]);
    SamePublicsSameEntry(h'[n], d.health[n], d.gateways);
  }

  // A call that neither recomputes nor commits shows nothing new.
  lemma RetryWithoutCommitShowsNothing(cfg: GroupConfig, v: GroupView, call: Call, o: Outcome)
    requires !call.Recompute? && CommitMade(v, After(v, call, o)).None?
    ensures GroupStateOf(cfg, After(v, call, o)) == GroupStateOf(cfg, v)
  {
  }

  lemma UncommittedCallShowsNothing(w: World, cfg: GroupConfig, call: Option<Call>, s: Slice, s': Slice)
    requires SliceStep(w, cfg, call, s, s') && (call.Some? ==> !call.value.Recompute?)
    requires CommitMade(s.group, s'.group).None?
    ensures GroupStateOf(cfg, s'.group) == GroupStateOf(cfg, s.group)
  {
    if call.Some? {
      var o: Outcome :| s' == SliceAfter(w, cfg, s, call.value, o, s'.table);
      RetryWithoutCommitShowsNothing(cfg, s.group, call.value, o);
    }
  }

  // Without a flip no Group is asked to recompute.
  lemma QuietCall(cfg: DaemonConfig, g: GroupConfig, h: HealthView, v: GroupView, ev: DaemonEvent)
    requires KeyedByWan(g.members) && FlippedBy(h, ev) == {}
    ensures var call := CallFor(cfg, g, h, v, ev); call.Some? ==> !call.value.Recompute?
  {
  }

  lemma UnpublishedKeepsGroup(env: Setting, d: DaemonView, ev: DaemonEvent, d': DaemonView, g: string)
    requires env.cfg.Valid() && HealthFits(env, d.health) && Follows(env, d, ev, d') && g in env.cfg.groups
    requires !RepublishedBy(d.health, d.gateways, ev) && !AnyCommit(d, d')
    ensures SameGroup(env, d, d', g)
  {
    var cfg := env.cfg.groups[g];
    if FlippedBy(d.health, ev) != {} {
      RecomputeImpliesRepublish(env, d, ev);
    }
    var w := GroupOfStep(env, d, ev, d', g);
    QuietCall(env.cfg, cfg, d.health, d.slices[g].group, ev);
    UncommittedCallShowsNothing(w, cfg, CallFor(env.cfg, cfg, d.health, d.slices[g].group, ev), d.slices[g], d'.slices[g]);
  }

  // An event that publishes nothing leaves nothing to publish.
  lemma UnpublishedKeepsSnapshot(env: Setting, d: DaemonView, ev: DaemonEvent, d': DaemonView)
    requires env.cfg.Valid() && HealthFits(env, d.health) && Follows(env, d, ev, d')
    requires d'.health == HealthAfter(d.health, ev) && d'.gateways == GatewaysAfter(d.gateways, ev)
    requires d.slices.Keys == d'.slices.Keys == env.cfg.groups.Keys
    requires !RepublishedBy(d.health, d.gateways, ev) && !AnyCommit(d, d')
    ensures SameButStats(Current(env, d), Current(env, d'))
  {
    UnpublishedKeepsWans(env, d, ev);
    forall g | g in env.cfg.groups ensures SameGroup(env, d, d', g) {
      UnpublishedKeepsGroup(env, d, ev, d', g);
    }
    SamePartsSameSnapshot(env, d, d');
  }

  ghost predicate SameGroup(env: Setting, d: DaemonView, d': DaemonView, g: string) {
    && g in env.cfg.groups && g in d.slices && g in d'.slices
    && GroupStateOf(env.cfg.groups[g], d.slices[g].group) == GroupStateOf(env.cfg.groups[g], d'.slices[g].group)
  }

  lemma SameGroupsShown(env: Setting, d: DaemonView, d': DaemonView)
    requires d.slices.Keys == d'.slices.Keys == env.cfg.groups.Keys
    requires forall g :: g in env.cfg.groups ==> SameGroup(env, d, d', g)
    ensures Current(env, d).groups == Current(env, d').groups
  {
    var now, now' := Current(env, d).groups, Current(env, d').groups;
    assert now.Keys == now'.Keys == env.cfg.groups.Keys;
    forall g | g in now ensures now[g] == now'[g] {
      assert SameGroup(env, d, d', g);
    }
  }

  lemma SamePartsSameSnapshot(env: Setting, d: DaemonView, d': DaemonView)
    requires d.slices.Keys == d'.slices.Keys == env.cfg.groups.Keys
    requires forall g :: g in env.cfg.groups ==> SameGroup(env, d, d', g)
    requires d.health.Keys == d'.health.Keys
    requires forall n :: n in d'.health ==>
               Unmeasured(EntryOf(d.gateways, WanStateOf(d.health[n]))) == Unmeasured(EntryOf(d'.gateways, WanStateOf(d'.health[n])))
    ensures SameButStats(Current(env, d), Current(env, d'))
  {
    SameGroupsShown(env, d, d');
  }

  lemma UnpublishedKeepsWans(env: Setting, d: DaemonView, ev: DaemonEvent)
    requires HealthFits(env, d.health) && !RepublishedBy(d.health, d.gateways, ev)
    ensures var h', gws' := HealthAfter(d.health, ev), GatewaysAfter(d.gateways, ev);
            && d.health.Keys == h'.Keys
            && forall n :: n in h' ==> Unmeasured(EntryOf(d.gateways, WanStateOf(d.health[n]))) == Unmeasured(EntryOf(gws', WanStateOf(h'[n])))
  {
    HealthKeepsFitting(env, d.health, ev);
    forall n | n in d.health
      ensures Unmeasured(EntryOf(d.gateways, WanStateOf(d.health[n])))
              == Unmeasured(EntryOf(GatewaysAfter(d.gateways, ev), WanStateOf(HealthAfter(d.health, ev)[n])))
    {
      UnpublishedKeepsEntries(env, d, ev, n);
    }
  }

  lemma SameButStatsTransitive(a: Snapshot, b: Snapshot, c: Snapshot)
    requires SameButStats(a, b) && SameButStats(b, c)
    ensures SameButStats(a, c)
  {
  }

  lemma StepDetails(env: Setting, d: DaemonView, ev: DaemonEvent, d': DaemonView)
    requires env.cfg.Valid() && WrittenStep(env, d, ev, d')
    ensures Follows(env, d, ev, d')
    ensures d'.health == HealthAfter(d.health, ev) && d'.gateways == GatewaysAfter(d.gateways, ev)
    ensures d.slices.Keys == d'.slices.Keys == env.cfg.groups.Keys
    ensures d'.published == if RepublishedBy(d.health, d.gateways, ev) || AnyCommit(d, d')
                            then Some(Current(env, d')) else d.published
  {
    var reliable :| Step(env, d, ev, d', reliable, true);
  }

  // An event during which State writes succeed.
  ghost predicate WrittenStep(env: Setting, d: DaemonView, ev: DaemonEvent, d': DaemonView)
    requires env.cfg.Valid()
  {
    exists reliable :: Step(env, d, ev, d', reliable, true)
  }

  // One event keeps State fresh, as long as State writes succeed.
  lemma StepStaysFresh(env: Setting, d: DaemonView, ev: DaemonEvent, d': DaemonView)
    requires env.cfg.Valid() && HealthFits(env, d.health)
    requires WrittenStep(env, d, ev, d') && Fresh(env, d)
    ensures Fresh(env, d')
  {
    StepDetails(env, d, ev, d');
    if !RepublishedBy(d.health, d.gateways, ev) && !AnyCommit(d, d') {
      UnpublishedKeepsSnapshot(env, d, ev, d');
      SameButStatsTransitive(d.published.value, Current(env, d), Current(env, d'));
    }
  }

  // A run, from a bootstrap that wrote State, in which every State write succeeds.
  ghost predicate WritingRun(env: Setting, trace: seq<DaemonView>, events: seq<DaemonEvent>)
    requires env.cfg.Valid()
  {
    && |trace| == |events| + 1
    && Initial(env, trace[0]) && Fresh(env, trace[0])
    && forall i :: 0 <= i < |events| ==> WrittenStep(env, trace[i], events[i], trace[i+1])
  }

  ghost predicate Tracked(env: Setting, d: DaemonView) {
    HealthFits(env, d.health) && Fresh(env, d)
  }

  lemma StepKeepsTracked(env: Setting, trace: seq<DaemonView>, events: seq<DaemonEvent>, i: nat)
    requires env.cfg.Valid() && WritingRun(env, trace, events) && i < |events|
    requires Tracked(env, trace[i])
    ensures Tracked(env, trace[i+1])
  {
    assert WrittenStep(env, trace[i], events[i], trace[i+1]);
    StepDetails(env, trace[i], events[i], trace[i+1]);
    HealthKeepsFitting(env, trace[i].health, events[i]);
    StepStaysFresh(env, trace[i], events[i], trace[i+1]);
  }

  // After every event the State file is current, statistics aside.
  lemma {:induction false} StateIsAlwaysFresh(env: Setting, trace: seq<DaemonView>, events: seq<DaemonEvent>, i: nat)
    requires env.cfg.Valid() && WritingRun(env, trace, events) && i < |trace|
    ensures Tracked(env, trace[i])
  {
    if i > 0 {
      StateIsAlwaysFresh(env, trace, events, i - 1);
      StepKeepsTracked(env, trace, events, i - 1);
    }
  }

  // ---- When State is rewritten, spelled out

  // A link event that tells some WAN on its interface something new.
  predicate LinkTellsNews(h: HealthView, e: LinkEvent) {
    exists n :: n in h && h[n].cfg.iface == e.name && (h[n].carrier != e.carrier || h[n].operstate != e.operstate)
  }

  lemma LinkNewsIsTransition(h: HealthView, e: LinkEvent)
    ensures Transition(h, Linked(h, e)) <==> LinkTellsNews(h, e)
  {
    var h' := Linked(h, e);
    forall n | n in h
      ensures PublicsOf(h[n]) != PublicsOf(h'[n])
              <==> h[n].cfg.iface == e.name && (h[n].carrier != e.carrier || h[n].operstate != e.operstate)
    {
      assert PublicsOf(h[n]).verdicts == PublicsOf(h'[n]).verdicts;
    }
  }

  // The j-th event of a batch does, after those before it.
  predicate TellsNewsAt(h: HealthView, links: seq<LinkEvent>, j: int) {
    0 <= j < |links| && LinkTellsNews(LinkedAlong(h, links[..j]), links[j])
  }

  lemma EarlierNews(h: HealthView, links: seq<LinkEvent>, j: nat)
    requires j < |links| - 1
    ensures TellsNewsAt(h, links[..|links|-1], j) <==> TellsNewsAt(h, links, j)
  {
    assert links[..|links|-1][..j] == links[..j];
  }

  lemma LatestNews(h: HealthView, links: seq<LinkEvent>)
    requires links != []
    ensures var n := |links| - 1;
            Transition(LinkedAlong(h, links[..n]), LinkedAlong(h, links)) <==> TellsNewsAt(h, links, n)
  {
    var n := |links| - 1;
    LinkNewsIsTransition(LinkedAlong(h, links[..n]), links[n]);
  }

  lemma {:induction false} BatchNewsIsTransition(h: HealthView, links: seq<LinkEvent>)
    ensures TransitionAlong(h, links) <==> exists j :: TellsNewsAt(h, links, j)
  {
    if links != [] {
      var rest := links[..|links|-1];
      BatchNewsIsTransition(h, rest);
      LatestNews(h, links);
      if j :| TellsNewsAt(h, links, j) && j < |links| - 1 {
        EarlierNews(h, links, j);
      }
      if j :| TellsNewsAt(h, rest, j) {
        EarlierNews(h, links, j);
      }
    }
  }

  // A result tells something new exactly if it fills the Family's first Window
  // or moves its verdict.
  lemma ResultNewsIsTransition(h: HealthView, r: ProbeResult)
    ensures Transition(h, Probed(h, r))
            <==> r.wan in h && r.family in h[r.wan].families
                 && var f, f' := h[r.wan].families[r.family], Probed(h, r)[r.wan].families[r.family];
                    f.cooked != f'.cooked || f.healthy != f'.healthy
  {
    if r.wan in h && r.family in h[r.wan].families {
      var w, w' := h[r.wan], Probed(h, r)[r.wan];
      OneWanChanges(h, r.wan, w');
      OneVerdict(w, w', r.family);
    }
  }

  lemma OneVerdict(w: WanView, w': WanView, f: Family)
    requires f in w.families && f in w'.families && w' == w.(families := w.families[f := w'.families[f]])
    ensures PublicsOf(w) != PublicsOf(w')
            <==> w.families[f].cooked != w'.families[f].cooked || w.families[f].healthy != w'.families[f].healthy
  {
    var p, p' := PublicsOf(w), PublicsOf(w');
    assert p.verdicts[f] == Verdict(w.families[f].healthy, w.families[f].cooked);
    assert p'.verdicts[f] == Verdict(w'.families[f].healthy, w'.families[f].cooked);
    assert p'.verdicts == p.verdicts[f := p'.verdicts[f]];
  }

  // News worth a rewrite of State: startup routes, or a startup link event that
  // tells some; a result or a link event that does; a Gateway removed, first
  // seen or changed.
  ghost predicate IsNews(h: HealthView, gws: Gateways, ev: DaemonEvent) {
    match ev
    case Prime(routes, links) => routes != [] || exists j :: TellsNewsAt(h, links, j)
    case ProbeEvent(r) =>
      && r.wan in h && r.family in h[r.wan].families
      && var f, f' := h[r.wan].families[r.family], Probed(h, r)[r.wan].families[r.family];
         f.cooked != f'.cooked || f.healthy != f'.healthy
    case LinkSeen(e) => LinkTellsNews(h, e)
    case RouteSeen(e) => !e.isAdd || (e.iface, e.family) !in gws || gws[(e.iface, e.family)] != e.gateway
  }

  // Apart from commits, State is rewritten for news and for nothing else.
  lemma RewrittenForNews(h: HealthView, gws: Gateways, ev: DaemonEvent)
    ensures RepublishedBy(h, gws, ev) <==> IsNews(h, gws, ev)
  {
    match ev {
      case Prime(_, links) => BatchNewsIsTransition(h, links);
      case ProbeEvent(r) => ResultNewsIsTransition(h, r);
      case LinkSeen(e) => LinkNewsIsTransition(h, e);
      case RouteSeen(_) =>
    }
  }

  // ---- State, spelled out

  // What State shows of WAN n, statistics aside.
  ghost predicate ShowsWan(e: WanEntry, n: string, h: HealthView, gws: Gateways) {
    && n in h
    && var w := h[n];
       var iface := w.cfg.iface;
       && e.wan.iface == iface && e.wan.carrier == w.carrier
       && e.wan.operstate == (if 0 <= w.operstate <= 6 then w.operstate else 0)
       && (e.wan.healthy <==> n in HealthySet(h))
       && e.wan.families.Keys == w.families.Keys
       && (forall f :: f in w.families ==>
             && e.wan.families[f].healthy == w.families[f].healthy
             && e.wan.families[f].targets == if f == V4 then w.cfg.targetsV4 else w.cfg.targetsV6)
       && e.gatewayV4 == (if (iface, V4) in gws then gws[(iface, V4)] else None)
       && e.gatewayV6 == (if (iface, V6) in gws then gws[(iface, V6)] else None)
  }

  ghost predicate ShowsGroup(s: GroupState, g: GroupConfig, v: GroupView) {
    && s.strategy == g.strategy && s.decisionsTotal == v.decisionsTotal
    && s.selection == (if v.selection.has then Some(v.selection.wan) else None)
    && s.selectionSince == (if v.selectionSince == 0 then None else Some(v.selectionSince))
  }

  // A snapshot shows every WAN and Group as it is.
  ghost predicate ShowsAll(s: Snapshot, cfg: DaemonConfig, h: HealthView, gws: Gateways, groups: map<string, GroupView>) {
    && s.wans.Keys == h.Keys && (forall n :: n in h ==> ShowsWan(s.wans[n], n, h, gws))
    && s.groups.Keys == cfg.groups.Keys == groups.Keys
    && (forall g :: g in groups ==> ShowsGroup(s.groups[g], cfg.groups[g], groups[g]))
  }

  // A snapshot taken anew shows everything, each Family's statistics included.
  lemma SnapshotInFull(cfg: DaemonConfig, h: HealthView, gws: Gateways, groups: map<string, GroupView>)
    requires groups.Keys == cfg.groups.Keys
    ensures ShowsAll(SnapshotOf(cfg, h, gws, groups), cfg, h, gws, groups)
    ensures forall n, f :: n in h && f in h[n].families ==>
              SnapshotOf(cfg, h, gws, groups).wans[n].wan.families[f].stats == h[n].families[f].stats
  {
    var s := SnapshotOf(cfg, h, gws, groups);
    forall n | n in h ensures ShowsWan(s.wans[n], n, h, gws) {
    }
  }

  // Leaving the statistics out hides nothing else.
  lemma SameEntryShows(e: WanEntry, e': WanEntry, n: string, h: HealthView, gws: Gateways)
    requires Unmeasured(e) == Unmeasured(e') && ShowsWan(e', n, h, gws)
    ensures ShowsWan(e, n, h, gws)
  {
    var u, u' := Unmeasured(e).wan, Unmeasured(e').wan;
    assert e.wan.families.Keys == u.families.Keys == u'.families.Keys == e'.wan.families.Keys;
    forall f | f in e.wan.families
      ensures e.wan.families[f].healthy == e'.wan.families[f].healthy
      ensures e.wan.families[f].targets == e'.wan.families[f].targets
    {
      assert u.families[f] == u'.families[f];
    }
  }

  // After every event the State file shows every WAN and Group as it is, field
  // by field.
  lemma StateShowsEverything(env: Setting, trace: seq<DaemonView>, events: seq<DaemonEvent>, i: nat)
    requires env.cfg.Valid() && WritingRun(env, trace, events) && i < |trace|
    ensures trace[i].published.Some?
    ensures ShowsAll(trace[i].published.value, env.cfg, trace[i].health, trace[i].gateways, GroupsOf(trace[i].slices))
  {
    var d := trace[i];
    StateIsAlwaysFresh(env, trace, events, i);
    if i > 0 {
      StepDetails(env, trace[i-1], events[i-1], d);
    }
    SnapshotInFull(env.cfg, d.health, d.gateways, GroupsOf(d.slices));
    forall n | n in d.health ensures ShowsWan(d.published.value.wans[n], n, d.health, d.gateways) {
      SameEntryShows(d.published.value.wans[n], Current(env, d).wans[n], n, d.health, d.gateways);
    }
  }
}
