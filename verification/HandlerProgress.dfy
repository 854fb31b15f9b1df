// How far a handler's loops have got, as values: which Groups an event has
// already reached, whatever the order, and whether State is due a write.
module HandlerProgress {
  import opened Basics
  import opened Config
  import opened Selector
  import opened Measurements
  import opened HealthSpec
  import opened Apply
  import opened DecisionSpec
  import opened Failover
  import opened GroupInvariant
  import opened StateFile

  // What a commit does to the flush record and the vacated WAN alone.
  function Vacated(wans: map<string, WanConfig>, s: Slice, c: Commit): Slice {
    PublishedSlice(wans, map[], GroupConfig("", "", 0, 0, map[]), s, c).(hooks := s.hooks)
  }

  // A call is its move and then the publication of its commit, if any.
  lemma MovedThenPublished(w: World, g: GroupConfig, call: Call, o: Outcome, s: Slice, moved: Slice, s': Slice)
    requires o.at > 0 && moved == s.(group := After(s.group, call, o), table := moved.table)
    requires TableWritten(w, ApplyOf(s.group, call), s.table, moved.table, o.ok)
    requires s' == match CommitMade(s.group, moved.group)
                   case None => moved
                   case Some(c) => PublishedSlice(w.wans, w.gateways, g, moved, c)
    ensures Called(w, g, call, s, s')
    ensures s'.group == moved.group
  {
    assert s' == SliceAfter(w, g, s, call, o, moved.table);
    assert s'.table == moved.table;
  }

  // Each touched Group has been recomputed, once for all; the others are as before.
  ghost predicate Progress(w: World, cfg: DaemonConfig, healthy: set<string>, before: map<string, Slice>,
                           touched: set<string>, now: map<string, Slice>)
    requires cfg.Valid()
  {
    && before.Keys == now.Keys == cfg.groups.Keys
    && forall g :: g in cfg.groups ==> Advanced(w, cfg.groups[g], healthy, g in touched, before[g], now[g])
  }

  ghost predicate Advanced(w: World, g: GroupConfig, healthy: set<string>, touched: bool, s: Slice, s': Slice)
    requires KeyedByWan(g.members)
  {
    if touched then Called(w, g, Recompute(Choice(g.members, healthy)), s, s') else s' == s
  }

  lemma ProgressGrows(w: World, cfg: DaemonConfig, healthy: set<string>, before: map<string, Slice>,
                      touched: set<string>, now: map<string, Slice>, g: string, now': map<string, Slice>)
    requires cfg.Valid() && g in cfg.groups && Progress(w, cfg, healthy, before, touched, now)
    requires g in now' && now' == now[g := now'[g]]
    requires Called(w, cfg.groups[g], Recompute(Choice(cfg.groups[g].members, healthy)), now[g], now'[g])
    ensures Progress(w, cfg, healthy, before, touched + {g}, now')
  {
    if g in touched {
      RecomputeTwice(w, cfg.groups[g], Choice(cfg.groups[g].members, healthy), before[g], now[g], now'[g]);
    }
  }

  // The Groups with a Member among wans.
  ghost function Containing(cfg: DaemonConfig, wans: set<string>): set<string> {
    set g | g in cfg.groups && cfg.groups[g].members.Keys * wans != {}
  }

  function Elements(s: seq<string>): set<string> {
    set n | n in s
  }

  lemma ContainingGrows(cfg: DaemonConfig, flipped: seq<string>, i: nat)
    requires i < |flipped|
    ensures Containing(cfg, Elements(flipped[..i+1])) == Containing(cfg, Elements(flipped[..i])) + Containing(cfg, {flipped[i]})
  {
    assert Elements(flipped[..i+1]) == Elements(flipped[..i]) + {flipped[i]};
    forall g | g in cfg.groups
      ensures cfg.groups[g].members.Keys * Elements(flipped[..i+1]) != {}
              <==> cfg.groups[g].members.Keys * Elements(flipped[..i]) != {} || cfg.groups[g].members.Keys * {flipped[i]} != {}
    {
      var m := cfg.groups[g].members.Keys;
      assert m * Elements(flipped[..i+1]) == m * Elements(flipped[..i]) + m * {flipped[i]};
    }
  }

  lemma NothingProgressed(w: World, cfg: DaemonConfig, healthy: set<string>, slices: map<string, Slice>)
    requires cfg.Valid() && slices.Keys == cfg.groups.Keys
    ensures Progress(w, cfg, healthy, slices, Containing(cfg, Elements([])), slices)
  {
    assert Elements([]) == {};
    assert Containing(cfg, {}) == {};
  }

  // A retry of wan has reached every Group but those still to do.
  ghost predicate RetryPassed(w: World, cfg: DaemonConfig, wan: string, before: map<string, Slice>,
                              todo: set<string>, now: map<string, Slice>)
  {
    && before.Keys == now.Keys == cfg.groups.Keys
    && forall g :: g in cfg.groups ==> Retried(w, cfg.groups[g], wan, g !in todo, before[g], now[g])
  }

  ghost predicate Retried(w: World, g: GroupConfig, wan: string, reached: bool, s: Slice, s': Slice) {
    if reached then Called(w, g, ProbeOf(wan), s, s') else s' == s
  }

  lemma RetryPassedNext(w: World, cfg: DaemonConfig, wan: string, before: map<string, Slice>, todo: set<string>,
                        now: map<string, Slice>, g: string, now': map<string, Slice>)
    requires RetryPassed(w, cfg, wan, before, todo, now) && g in cfg.groups && g in todo
    requires g in now' && now' == now[g := now'[g]] && Called(w, cfg.groups[g], ProbeOf(wan), now[g], now'[g])
    ensures RetryPassed(w, cfg, wan, before, todo - {g}, now')
    ensures now[g] == before[g]
  {
  }

  ghost predicate AnyCommitted(before: map<string, Slice>, now: map<string, Slice>) {
    exists g :: g in before && g in now && CommitMade(before[g].group, now[g].group).Some?
  }

  // State has been due a write: from the start, or for a commit since.
  ghost predicate DueAfter(first: bool, before: map<string, Slice>, now: map<string, Slice>, due: bool) {
    due <==> first || AnyCommitted(before, now)
  }

  // The State a pass starts from: the slices, whether State is due a write
  // since the event began, and what the file held then.
  datatype Start = Start(slices: map<string, Slice>, due: bool, file: Option<Snapshot>)

  // Unless writes can fail, the file holds the current state if it was due a
  // write, else what it held.
  ghost predicate FileHolds(reliable: bool, published: Option<Snapshot>, due: bool, now: Snapshot, file: Option<Snapshot>) {
    reliable ==> published == if due then Some(now) else file
  }

  ghost predicate Retrying(w: World, cfg: DaemonConfig, h: HealthView, p: Start, wan: string, todo: set<string>,
                           now: map<string, Slice>, due: bool, reliable: bool, published: Option<Snapshot>)
  {
    && RetryPassed(w, cfg, wan, p.slices, todo, now)
    && DueAfter(p.due, p.slices, now, due)
    && FileHolds(reliable, published, due, Shown(cfg, h, w.gateways, now), p.file)
  }

  lemma NothingRetried(w: World, cfg: DaemonConfig, h: HealthView, p: Start, wan: string, reliable: bool, published: Option<Snapshot>)
    requires p.slices.Keys == cfg.groups.Keys
    requires FileHolds(reliable, published, p.due, Shown(cfg, h, w.gateways, p.slices), p.file)
    ensures Retrying(w, cfg, h, p, wan, cfg.groups.Keys, p.slices, p.due, reliable, published)
  {
  }

  lemma RetriedOneMore(w: World, cfg: DaemonConfig, h: HealthView, p: Start, wan: string, todo: set<string>,
                       now: map<string, Slice>, due: bool, reliable: bool, published: Option<Snapshot>,
                       g: string, now': map<string, Slice>, published': Option<Snapshot>)
    requires g in cfg.groups && g in todo
    requires Retrying(w, cfg, h, p, wan, todo, now, due, reliable, published)
    requires g in now' && now' == now[g := now'[g]] && Called(w, cfg.groups[g], ProbeOf(wan), now[g], now'[g])
    requires FileHolds(reliable, published', CommitMade(now[g].group, now'[g].group).Some?,
                       Shown(cfg, h, w.gateways, now'), published)
    ensures Retrying(w, cfg, h, p, wan, todo - {g}, now', due || CommitMade(now[g].group, now'[g].group).Some?,
                     reliable, published')
  {
    RetryPassedNext(w, cfg, wan, p.slices, todo, now, g, now');
    CommitsAddUp(p.due, p.slices, now, due, g, now');
    if CommitMade(now[g].group, now'[g].group).None? {
      UncommittedShowsNothing(w, cfg, h, w.gateways, g, ProbeOf(wan), now, now');
    }
  }

  lemma CommitsAddUp(first: bool, before: map<string, Slice>, now: map<string, Slice>, due: bool, g: string, now': map<string, Slice>)
    requires g in before && g in now && g in now' && before[g] == now[g] && now' == now[g := now'[g]]
    requires DueAfter(first, before, now, due)
    ensures DueAfter(first, before, now', due || CommitMade(now[g].group, now'[g].group).Some?)
  {
    if k :| k in before && k in now' && CommitMade(before[k].group, now'[k].group).Some? {
      assert k != g ==> now'[k] == now[k];
    }
    if k :| k in before && k in now && CommitMade(before[k].group, now[k].group).Some? {
      assert k != g && now'[k] == now[k];
    }
  }

  // A call that neither recomputes nor commits leaves the snapshot as it was.
  lemma UncommittedShowsNothing(w: World, cfg: DaemonConfig, h: HealthView, gws: Gateways, g: string, call: Call,
                                now: map<string, Slice>, now': map<string, Slice>)
    requires g in cfg.groups && g in now && g in now' && now' == now[g := now'[g]]
    requires !call.Recompute? && Called(w, cfg.groups[g], call, now[g], now'[g])
    requires CommitMade(now[g].group, now'[g].group).None?
    ensures Shown(cfg, h, gws, now') == Shown(cfg, h, gws, now)
  {
    UncommittedCall(w, cfg.groups[g], call, now[g], now'[g]);
    OneGroupShown(cfg, h, gws, g, now, now');
  }

  lemma UncommittedCall(w: World, g: GroupConfig, call: Call, s: Slice, s': Slice)
    requires !call.Recompute? && Called(w, g, call, s, s') && CommitMade(s.group, s'.group).None?
    ensures GroupStateOf(g, s'.group) == GroupStateOf(g, s.group)
  {
    var o: Outcome :| s' == SliceAfter(w, g, s, call, o, s'.table);
    RetryWithoutCommitShowsNothing(g, s.group, call, o);
  }

  lemma OneGroupShown(cfg: DaemonConfig, h: HealthView, gws: Gateways, g: string, now: map<string, Slice>, now': map<string, Slice>)
    requires g in cfg.groups && g in now && g in now' && now' == now[g := now'[g]]
    requires GroupStateOf(cfg.groups[g], now'[g].group) == GroupStateOf(cfg.groups[g], now[g].group)
    ensures Shown(cfg, h, gws, now') == Shown(cfg, h, gws, now)
  {
    var was, shown := GroupsOf(now), GroupsOf(now');
    var a := map k | k in was && k in cfg.groups :: GroupStateOf(cfg.groups[k], was[k]);
    var b := map k | k in shown && k in cfg.groups :: GroupStateOf(cfg.groups[k], shown[k]);
    assert a == b;
  }

  // The Groups touched part way through a pass over those containing wan.
  ghost function TouchedSoFar(cfg: DaemonConfig, touched: set<string>, wan: string, todo: set<string>): set<string> {
    touched + set g | g in cfg.groups && g !in todo && wan in cfg.groups[g].members
  }

  lemma TouchedNext(cfg: DaemonConfig, touched: set<string>, wan: string, todo: set<string>, g: string)
    requires g in cfg.groups
    ensures TouchedSoFar(cfg, touched, wan, todo - {g})
            == if wan in cfg.groups[g].members then TouchedSoFar(cfg, touched, wan, todo) + {g}
               else TouchedSoFar(cfg, touched, wan, todo)
  {
  }

  lemma TouchedFirstAndLast(cfg: DaemonConfig, touched: set<string>, wan: string)
    ensures TouchedSoFar(cfg, touched, wan, cfg.groups.Keys) == touched
    ensures TouchedSoFar(cfg, touched, wan, {}) == touched + Containing(cfg, {wan})
  {
    forall g | g in cfg.groups
      ensures cfg.groups[g].members.Keys * {wan} != {} <==> wan in cfg.groups[g].members
    {
      assert wan in cfg.groups[g].members ==> wan in cfg.groups[g].members.Keys * {wan};
    }
  }

  lemma UpdatedTwice<V>(m: map<string, V>, g: string, a: V, b: V)
    ensures m[g := a][g := b] == m[g := b]
  {
  }

  // ---- From a handler's loops to one step of the daemon

  // A Health event: the Groups containing a flipped WAN were recomputed, and
  // State was written if the event republishes.
  ghost predicate Recomputed(env: Setting, d: DaemonView, flipped: seq<string>, republish: bool, d': DaemonView,
                             reliable: bool, writes: bool)
    requires env.cfg.Valid()
  {
    && Progress(env.WorldFor(d'.gateways, reliable), env.cfg, HealthySet(d'.health), d.slices,
                Containing(env.cfg, Elements(flipped)), d'.slices)
    && FileHolds(writes, d'.published, republish, Current(env, d'), d.published)
  }

  // The report of a Health event: its flips, each listed, and whether State is
  // due a write.
  ghost predicate Reported(d: DaemonView, ev: DaemonEvent, flipped: seq<string>, republish: bool) {
    && !ev.RouteSeen? && (ev.ProbeEvent? ==> ev.result.wan in FlippedBy(d.health, ev))
    && (forall n :: n in flipped <==> n in FlippedBy(d.health, ev))
    && (republish <==> RepublishedBy(d.health, d.gateways, ev))
    && (flipped != [] ==> republish)
  }

  lemma RecomputedIsStep(env: Setting, d: DaemonView, ev: DaemonEvent, flipped: seq<string>, republish: bool, d': DaemonView,
                         reliable: bool, writes: bool)
    requires env.cfg.Valid() && Recomputed(env, d, flipped, republish, d', reliable, writes)
    requires d'.health == HealthAfter(d.health, ev) && d'.gateways == GatewaysAfter(d.gateways, ev)
    requires Reported(d, ev, flipped, republish)
    ensures Step(env, d, ev, d', reliable, writes)
  {
    assert Elements(flipped) == FlippedBy(d.health, ev);
    var w := env.WorldFor(d'.gateways, reliable);
    forall g | g in env.cfg.groups
      ensures SliceStep(w, env.cfg.groups[g], CallFor(env.cfg, env.cfg.groups[g], d.health, d.slices[g].group, ev),
                        d.slices[g], d'.slices[g])
    {
      assert Advanced(w, env.cfg.groups[g], HealthySet(d'.health), g in Containing(env.cfg, Elements(flipped)),
                      d.slices[g], d'.slices[g]);
    }
    NoCommitWithoutRecompute(env, d, flipped, republish, d', reliable, writes);
  }

  // Groups left alone commit nothing.
  lemma NoCommitWithoutRecompute(env: Setting, d: DaemonView, flipped: seq<string>, republish: bool, d': DaemonView,
                                 reliable: bool, writes: bool)
    requires env.cfg.Valid() && Recomputed(env, d, flipped, republish, d', reliable, writes)
    requires flipped != [] ==> republish
    ensures AnyCommit(d, d') ==> republish
    ensures flipped == [] ==> d'.slices == d.slices
  {
    if flipped == [] {
      assert Elements(flipped) == {};
      var w := env.WorldFor(d'.gateways, reliable);
      forall g | g in env.cfg.groups ensures d'.slices[g] == d.slices[g] {
        assert Advanced(w, env.cfg.groups[g], HealthySet(d'.health), g in Containing(env.cfg, {}), d.slices[g], d'.slices[g]);
      }
      assert d'.slices == d.slices;
    }
  }

  // A result that flips nothing: State was written if due, then every Group
  // was offered a retry.
  lemma RetriedIsStep(env: Setting, d: DaemonView, r: ProbeResult, p: Start, due: bool, d': DaemonView,
                      reliable: bool, writes: bool)
    requires env.cfg.Valid()
    requires d'.health == Probed(d.health, r) && d'.gateways == d.gateways
    requires Flips(d.health, d'.health) == {} && p == Start(d.slices, Transition(d.health, d'.health), d.published)
    requires Retrying(env.WorldFor(d'.gateways, reliable), env.cfg, d'.health, p, r.wan, {}, d'.slices, due, writes, d'.published)
    ensures Step(env, d, ProbeEvent(r), d', reliable, writes)
  {
    var w := env.WorldFor(d'.gateways, reliable);
    forall g | g in env.cfg.groups
      ensures SliceStep(w, env.cfg.groups[g], CallFor(env.cfg, env.cfg.groups[g], d.health, d.slices[g].group, ProbeEvent(r)),
                        d.slices[g], d'.slices[g])
    {
      QuietResultRetries(env.cfg, env.cfg.groups[g], d.health, d.slices[g].group, r);
      assert Retried(w, env.cfg.groups[g], r.wan, true, d.slices[g], d'.slices[g]);
    }
    SameCommits(d, d');
  }

  lemma QuietResultRetries(cfg: DaemonConfig, g: GroupConfig, h: HealthView, v: GroupView, r: ProbeResult)
    requires KeyedByWan(g.members) && Flips(h, Probed(h, r)) == {}
    ensures CallFor(cfg, g, h, v, ProbeEvent(r)) == Some(ProbeOf(r.wan))
  {
  }

  lemma SameCommits(d: DaemonView, d': DaemonView)
    ensures AnyCommit(d, d') <==> AnyCommitted(d.slices, d'.slices)
  {
  }

  // A result concerns its own WAN only.
  lemma ResultFlipsItsWan(h: HealthView, r: ProbeResult, flipped: seq<string>, republish: bool)
    requires Reports(flipped, republish, h, Probed(h, r))
    ensures Flips(h, Probed(h, r)) <= {r.wan}
    ensures flipped == [] || r.wan in flipped
    ensures flipped != [] ==> republish
  {
    var h' := Probed(h, r);
    assert forall n :: n in h && n != r.wan ==> h'[n] == h[n];
    if flipped != [] {
      assert flipped[0] in Flips(h, h');
    }
    if Flips(h, h') != {} {
      FlipsArePublished(h, h');
    }
  }

  lemma LinkFlipsArePublished(h: HealthView, e: LinkEvent, flipped: seq<string>, republish: bool)
    requires Reports(flipped, republish, h, Linked(h, e))
    ensures flipped != [] ==> republish
  {
    if flipped != [] {
      assert flipped[0] in Flips(h, Linked(h, e));
      FlipsArePublished(h, Linked(h, e));
    }
  }

  // ---- A route observation, WAN by WAN and Group by Group

  // The observation a Group takes once the given WANs have been reached.
  function ObservationFor(v: GroupView, f: Family, reached: set<string>): Option<Call> {
    if Intent(v).has && Intent(v).wan in reached then Some(RouteObserved(Intent(v).wan, f)) else None
  }

  ghost predicate Observed(w: World, g: GroupConfig, f: Family, reached: set<string>, s: Slice, s': Slice) {
    SliceStep(w, g, ObservationFor(s.group, f, reached), s, s')
  }

  // The WANs reached were observed on every Group, and wan on every Group but
  // those still to do.
  ghost predicate ObservePassed(w: World, cfg: DaemonConfig, f: Family, before: map<string, Slice>, reached: set<string>,
                                wan: string, todo: set<string>, now: map<string, Slice>)
  {
    && before.Keys == now.Keys == cfg.groups.Keys
    && forall g :: g in cfg.groups ==>
         Observed(w, cfg.groups[g], f, if g in todo then reached else reached + {wan}, before[g], now[g])
  }

  ghost predicate Observing(w: World, cfg: DaemonConfig, h: HealthView, p: Start, f: Family, reached: set<string>,
                            wan: string, todo: set<string>, now: map<string, Slice>, due: bool,
                            reliable: bool, published: Option<Snapshot>)
  {
    && ObservePassed(w, cfg, f, p.slices, reached, wan, todo, now)
    && DueAfter(p.due, p.slices, now, due)
    && FileHolds(reliable, published, due, Shown(cfg, h, w.gateways, now), p.file)
  }

  lemma NothingObserved(w: World, cfg: DaemonConfig, h: HealthView, p: Start, f: Family, reliable: bool)
    requires p.slices.Keys == cfg.groups.Keys && !p.due
    ensures Observing(w, cfg, h, p, f, {}, "", cfg.groups.Keys, p.slices, false, reliable, p.file)
  {
  }

  // One WAN's pass is over; the next may begin.
  lemma NextWan(w: World, cfg: DaemonConfig, h: HealthView, p: Start, f: Family, reached: set<string>, wan: string,
                next: string, now: map<string, Slice>, due: bool, reliable: bool, published: Option<Snapshot>)
    requires Observing(w, cfg, h, p, f, reached, wan, {}, now, due, reliable, published)
    ensures Observing(w, cfg, h, p, f, reached + {wan}, next, cfg.groups.Keys, now, due, reliable, published)
  {
  }

  lemma SkippedWan(w: World, cfg: DaemonConfig, h: HealthView, p: Start, f: Family, reached: set<string>, wan: string,
                   next: string, now: map<string, Slice>, due: bool, reliable: bool, published: Option<Snapshot>)
    requires Observing(w, cfg, h, p, f, reached, wan, cfg.groups.Keys, now, due, reliable, published)
    ensures Observing(w, cfg, h, p, f, reached, next, cfg.groups.Keys, now, due, reliable, published)
  {
  }

  // Observing one WAN on one Group, whatever WANs came before.
  lemma ObservedOnce(w: World, g: GroupConfig, f: Family, reached: set<string>, wan: string, s0: Slice, s: Slice, s': Slice)
    requires wan !in reached
    requires Observed(w, g, f, reached, s0, s) && Called(w, g, RouteObserved(wan, f), s, s')
    ensures Observed(w, g, f, reached + {wan}, s0, s')
    ensures s == s0 || s' == s
  {
    ObservedElsewhere(w, g, wan, f, s, s');
    if Intent(s0.group).has && Intent(s0.group).wan in reached {
      ObservedElsewhere(w, g, Intent(s0.group).wan, f, s0, s);
    }
  }

  lemma ObservedOneMore(w: World, cfg: DaemonConfig, h: HealthView, p: Start, f: Family, reached: set<string>, wan: string,
                        todo: set<string>, now: map<string, Slice>, due: bool, reliable: bool, published: Option<Snapshot>,
                        g: string, now': map<string, Slice>, published': Option<Snapshot>)
    requires g in cfg.groups && g in todo && wan !in reached
    requires Observing(w, cfg, h, p, f, reached, wan, todo, now, due, reliable, published)
    requires g in now' && now' == now[g := now'[g]] && Called(w, cfg.groups[g], RouteObserved(wan, f), now[g], now'[g])
    requires FileHolds(reliable, published', CommitMade(now[g].group, now'[g].group).Some?,
                       Shown(cfg, h, w.gateways, now'), published)
    ensures Observing(w, cfg, h, p, f, reached, wan, todo - {g}, now', due || CommitMade(now[g].group, now'[g].group).Some?,
                      reliable, published')
  {
    ObservedOnce(w, cfg.groups[g], f, reached, wan, p.slices[g], now[g], now'[g]);
    ObservePassedNext(w, cfg, f, p.slices, reached, wan, todo, now, g, now');
    DueOneMore(p.due, p.slices, now, due, g, now');
    if CommitMade(now[g].group, now'[g].group).None? {
      UncommittedShowsNothing(w, cfg, h, w.gateways, g, Call.RouteObserved(wan, f), now, now');
    }
  }

  lemma DueOneMore(first: bool, before: map<string, Slice>, now: map<string, Slice>, due: bool, g: string, now': map<string, Slice>)
    requires g in before && g in now && g in now' && now' == now[g := now'[g]]
    requires now[g] == before[g] || now'[g] == now[g]
    requires DueAfter(first, before, now, due)
    ensures DueAfter(first, before, now', due || CommitMade(now[g].group, now'[g].group).Some?)
  {
    if now[g] == before[g] {
      CommitsAddUp(first, before, now, due, g, now');
    } else {
      assert now' == now;
    }
  }

  lemma ObservePassedNext(w: World, cfg: DaemonConfig, f: Family, before: map<string, Slice>, reached: set<string>,
                          wan: string, todo: set<string>, now: map<string, Slice>, g: string, now': map<string, Slice>)
    requires ObservePassed(w, cfg, f, before, reached, wan, todo, now) && g in cfg.groups
    requires g in now' && now' == now[g := now'[g]]
    requires Observed(w, cfg.groups[g], f, reached + {wan}, before[g], now'[g])
    ensures ObservePassed(w, cfg, f, before, reached, wan, todo - {g}, now')
  {
  }

  // The WANs on an interface, but those still to do.
  function OnInterface(cfg: DaemonConfig, iface: string, todo: set<string>): set<string> {
    set n | n in cfg.wans && n !in todo && cfg.wans[n].iface == iface
  }

  lemma ObservedIsStep(env: Setting, d: DaemonView, e: RouteEvent, p: Start, due: bool, d': DaemonView, passed: Option<Snapshot>,
                       reliable: bool, writes: bool)
    requires env.cfg.Valid() && p == Start(d.slices, false, d.published)
    requires d'.health == d.health && d'.gateways == Learned(d.gateways, e)
    requires Observing(env.WorldFor(d'.gateways, reliable), env.cfg, d'.health, p, e.family, OnInterface(env.cfg, e.iface, {}), "",
                       env.cfg.groups.Keys, d'.slices, due, writes, passed)
    requires FileHolds(writes, d'.published, GatewayMoved(d.gateways, e), Current(env, d'), passed)
    ensures Step(env, d, RouteSeen(e), d', reliable, writes)
  {
    var w := env.WorldFor(d'.gateways, reliable);
    forall g | g in env.cfg.groups
      ensures SliceStep(w, env.cfg.groups[g], CallFor(env.cfg, env.cfg.groups[g], d.health, d.slices[g].group, RouteSeen(e)),
                        d.slices[g], d'.slices[g])
    {
      RouteCallIsObservation(env.cfg, env.cfg.groups[g], d.health, d.slices[g].group, e);
      assert Observed(w, env.cfg.groups[g], e.family, OnInterface(env.cfg, e.iface, {}), d.slices[g], d'.slices[g]);
    }
    SameCommits(d, d');
  }

  lemma RouteCallIsObservation(cfg: DaemonConfig, g: GroupConfig, h: HealthView, v: GroupView, e: RouteEvent)
    requires KeyedByWan(g.members)
    ensures CallFor(cfg, g, h, v, RouteSeen(e)) == ObservationFor(v, e.family, OnInterface(cfg, e.iface, {}))
  {
    assert Flips(h, h) == {};
  }
}
