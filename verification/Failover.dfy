// The daemon as a value and what one event may do to it. Each Group has a
// slice of its own: its Decision state, its routing table, its vacated WAN
// and the Hooks and flushes made for it. An event makes at most one call on
// each slice, so no order of visiting Groups or WANs appears here.
module Failover {
  import opened Basics
  import opened Config
  import opened Selector
  import opened Measurements
  import opened HealthSpec
  import opened Apply
  import opened DecisionSpec

  // The Gateways a Hook shows; None for a scope-link default or none at all.
  datatype HookGateways = HookGateways(v4Old: Option<Address>, v4New: Option<Address>,
                                       v6Old: Option<Address>, v6New: Option<Address>)

  const NO_GATEWAYS := HookGateways(None, None, None, None)

  datatype Hook = Hook(event: DecisionSpec.Event, group: string, wanOld: string, wanNew: string,
                       ifaceOld: string, ifaceNew: string, gateways: HookGateways,
                       familiesOld: seq<Family>, familiesNew: seq<Family>, table: int, mark: int, at: nat)

  datatype Slice = Slice(group: GroupView, vacated: Option<Active>, table: Table,
                         hooks: seq<Hook>, flushed: seq<string>)

  // ---- Publishing one commit

  function InterfaceFor(wans: map<string, WanConfig>, a: Active): string {
    if a.has && a.wan in wans then wans[a.wan].iface else ""
  }

  // The Families of a chosen WAN, v4 first; none without one.
  function FamiliesFor(wans: map<string, WanConfig>, a: Active): seq<Family> {
    if a.has && a.wan in wans then wans[a.wan].Families() else []
  }

  // What the configuration and the commit determine of a Hook.
  function HookFacts(wans: map<string, WanConfig>, g: GroupConfig, c: Commit): Hook {
    Hook(c.Event(), g.name, c.before.wan, c.after.wan, InterfaceFor(wans, c.before), InterfaceFor(wans, c.after),
         NO_GATEWAYS, FamiliesFor(wans, c.before), FamiliesFor(wans, c.after), g.table, g.mark, c.at)
  }

  // A scope-link default shows no Gateway.
  function ShownGateway(gws: Gateways, iface: string, f: Family): Option<Address> {
    if (iface, f) in gws then gws[(iface, f)] else None
  }

  function HookGatewaysOf(gws: Gateways, ifaceOld: string, ifaceNew: string): HookGateways {
    HookGateways(ShownGateway(gws, ifaceOld, V4), ShownGateway(gws, ifaceNew, V4),
                 ShownGateway(gws, ifaceOld, V6), ShownGateway(gws, ifaceNew, V6))
  }

  function HookOf(wans: map<string, WanConfig>, gws: Gateways, g: GroupConfig, c: Commit): Hook {
    var facts := HookFacts(wans, g, c);
    facts.(gateways := HookGatewaysOf(gws, facts.ifaceOld, facts.ifaceNew))
  }

  // The WAN whose flows a commit leaves behind, if traffic moved.
  function FlushFor(vacated: Option<Active>, c: Commit): Option<string> {
    match c.Event()
    case EventSwitch => Some(c.before.wan)
    case EventUp => if vacated.Some? && vacated.value.wan != c.after.wan then Some(vacated.value.wan) else None
    case _ => None
  }

  function VacatedAfter(vacated: Option<Active>, c: Commit): Option<Active> {
    match c.Event()
    case EventDown => Some(c.before)
    case EventUp => None
    case _ => vacated
  }

  function PublishedSlice(wans: map<string, WanConfig>, gws: Gateways, g: GroupConfig, s: Slice, c: Commit): Slice {
    var flush := FlushFor(s.vacated, c);
    s.(vacated := VacatedAfter(s.vacated, c),
       flushed := if flush.Some? && flush.value in wans then s.flushed + [flush.value] else s.flushed,
       hooks := if c.Event() != NoEvent then s.hooks + [HookOf(wans, gws, g, c)] else s.hooks)
  }

  function SliceAfter(w: World, g: GroupConfig, s: Slice, call: Call, o: Outcome, table: Table): Slice {
    var group := After(s.group, call, o);
    var moved := s.(group := group, table := table);
    match CommitMade(s.group, group)
    case None => moved
    case Some(c) => PublishedSlice(w.wans, w.gateways, g, moved, c)
  }

  // s' is what the call may leave of s, for some Apply outcome.
  ghost predicate Called(w: World, g: GroupConfig, call: Call, s: Slice, s': Slice) {
    exists o: Outcome ::
      && s' == SliceAfter(w, g, s, call, o, s'.table)
      && o.at > 0
      && TableWritten(w, ApplyOf(s.group, call), s.table, s'.table, o.ok)
  }

  // ---- The State file

  datatype WanEntry = WanEntry(wan: WanState, gatewayV4: Option<Address>, gatewayV6: Option<Address>)

  datatype Snapshot = Snapshot(wans: map<string, WanEntry>, groups: map<string, GroupState>)

  function EntryOf(gws: Gateways, s: WanState): WanEntry {
    WanEntry(s, ShownGateway(gws, s.iface, V4), ShownGateway(gws, s.iface, V6))
  }

  function SnapshotOf(cfg: DaemonConfig, h: HealthView, gws: Gateways, groups: map<string, GroupView>): Snapshot {
    Snapshot(map n | n in h :: EntryOf(gws, WanStateOf(h[n])),
             map g | g in groups && g in cfg.groups :: GroupStateOf(cfg.groups[g], groups[g]))
  }

  // A snapshot without its probe statistics.
  const NO_STATS := FamilyStats(None, None, false, [])

  function Unmeasured(e: WanEntry): WanEntry {
    e.(wan := e.wan.(families := map f | f in e.wan.families :: e.wan.families[f].(stats := NO_STATS)))
  }

  // Equal in every field but the probe statistics.
  ghost predicate SameButStats(a: Snapshot, b: Snapshot) {
    && a.groups == b.groups
    && a.wans.Keys == b.wans.Keys
    && forall n :: n in a.wans ==> Unmeasured(a.wans[n]) == Unmeasured(b.wans[n])
  }

  // ---- Events

  datatype RouteEvent = RouteEvent(isAdd: bool, iface: string, family: Family, gateway: Option<Address>)

  datatype DaemonEvent =
    | Prime(routes: seq<RouteEvent>, links: seq<LinkEvent>)
    | ProbeEvent(result: ProbeResult)
    | LinkSeen(link: LinkEvent)
    | RouteSeen(route: RouteEvent)

  datatype DaemonView = DaemonView(health: HealthView, gateways: Gateways, slices: map<string, Slice>,
                                   published: Option<Snapshot>)

  function GroupsOf(slices: map<string, Slice>): map<string, GroupView> {
    map g | g in slices :: slices[g].group
  }

  // What a State write of these parts would publish.
  function Shown(cfg: DaemonConfig, h: HealthView, gws: Gateways, slices: map<string, Slice>): Snapshot {
    SnapshotOf(cfg, h, gws, GroupsOf(slices))
  }

  // What a State write would publish now.
  function Current(env: Setting, d: DaemonView): Snapshot {
    Shown(env.cfg, d.health, d.gateways, d.slices)
  }

  function LinkedAlong(h: HealthView, links: seq<LinkEvent>): HealthView {
    if links == [] then h else Linked(LinkedAlong(h, links[..|links|-1]), links[|links|-1])
  }

  // Every WAN that some event of the batch flipped, even if another flipped it back.
  function FlipsAlong(h: HealthView, links: seq<LinkEvent>): set<string> {
    if links == [] then {}
    else FlipsAlong(h, links[..|links|-1])
         + Flips(LinkedAlong(h, links[..|links|-1]), LinkedAlong(h, links))
  }

  predicate TransitionAlong(h: HealthView, links: seq<LinkEvent>) {
    links != [] && (TransitionAlong(h, links[..|links|-1])
                    || Transition(LinkedAlong(h, links[..|links|-1]), LinkedAlong(h, links)))
  }

  function Learned(gws: Gateways, e: RouteEvent): Gateways {
    if e.isAdd then gws[(e.iface, e.family) := e.gateway] else gws - {(e.iface, e.family)}
  }

  function LearnedAlong(gws: Gateways, routes: seq<RouteEvent>): Gateways {
    if routes == [] then gws
    else
      var e := routes[|routes|-1];
      LearnedAlong(gws, routes[..|routes|-1])[(e.iface, e.family) := e.gateway]
  }

  // A removal, a first sighting or a different Gateway.
  predicate GatewayMoved(gws: Gateways, e: RouteEvent) {
    (e.iface, e.family) !in gws || !e.isAdd || gws[(e.iface, e.family)] != e.gateway
  }

  function HealthAfter(h: HealthView, ev: DaemonEvent): HealthView {
    match ev
    case Prime(_, links) => LinkedAlong(h, links)
    case ProbeEvent(r) => Probed(h, r)
    case LinkSeen(e) => Linked(h, e)
    case RouteSeen(_) => h
  }

  function GatewaysAfter(gws: Gateways, ev: DaemonEvent): Gateways {
    match ev
    case Prime(routes, _) => LearnedAlong(gws, routes)
    case RouteSeen(e) => Learned(gws, e)
    case _ => gws
  }

  // The WANs whose Groups the event recomputes.
  function FlippedBy(h: HealthView, ev: DaemonEvent): set<string> {
    match ev
    case Prime(_, links) => FlipsAlong(h, links)
    case _ => Flips(h, HealthAfter(h, ev))
  }

  predicate RepublishedBy(h: HealthView, gws: Gateways, ev: DaemonEvent) {
    match ev
    case Prime(routes, links) => routes != [] || TransitionAlong(h, links)
    case RouteSeen(e) => GatewayMoved(gws, e)
    case _ => Transition(h, HealthAfter(h, ev))
  }

  // The one call an event makes on a Group, if any.
  ghost function CallFor(cfg: DaemonConfig, g: GroupConfig, h: HealthView, v: GroupView, ev: DaemonEvent): Option<Call>
    requires KeyedByWan(g.members)
  {
    var recompute := Some(Recompute(Choice(g.members, HealthySet(HealthAfter(h, ev)))));
    if g.members.Keys * FlippedBy(h, ev) != {} then recompute
    else match ev
      case ProbeEvent(r) => if r.wan in FlippedBy(h, ev) then None else Some(ProbeOf(r.wan))
      case RouteSeen(e) =>
        var want := Intent(v);
        if want.has && want.wan in cfg.wans && cfg.wans[want.wan].iface == e.iface
        then Some(RouteObserved(want.wan, e.family)) else None
      case _ => None
  }

  ghost predicate SliceStep(w: World, g: GroupConfig, call: Option<Call>, s: Slice, s': Slice) {
    match call
    case None => s' == s
    case Some(c) => Called(w, g, c, s, s')
  }

  ghost predicate AnyCommit(d: DaemonView, d': DaemonView) {
    exists g :: g in d.slices && g in d'.slices && CommitMade(d.slices[g].group, d'.slices[g].group).Some?
  }

  // What stays fixed over a run: the configuration and the interface indexes.
  datatype Setting = Setting(cfg: DaemonConfig, indexOf: string -> int)
  {
    function WorldFor(gws: Gateways, reliable: bool): World {
      World(cfg.wans, gws, indexOf, reliable)
    }
  }

  // d' may follow d on event ev, for any kernel failures and any visiting
  // order; reliable says kernel operations do not fail during the event, and
  // writes that State writes do not.
  ghost predicate Step(env: Setting, d: DaemonView, ev: DaemonEvent, d': DaemonView, reliable: bool, writes: bool)
    requires env.cfg.Valid()
  {
    && d'.health == HealthAfter(d.health, ev)
    && d'.gateways == GatewaysAfter(d.gateways, ev)
    && d.slices.Keys == d'.slices.Keys == env.cfg.groups.Keys
    && (forall g :: g in env.cfg.groups ==>
          SliceStep(env.WorldFor(d'.gateways, reliable), env.cfg.groups[g],
                    CallFor(env.cfg, env.cfg.groups[g], d.health, d.slices[g].group, ev), d.slices[g], d'.slices[g]))
    && (writes ==>
          d'.published == if RepublishedBy(d.health, d.gateways, ev) || AnyCommit(d, d')
                          then Some(Current(env, d')) else d.published)
  }

  ghost predicate Follows(env: Setting, d: DaemonView, ev: DaemonEvent, d': DaemonView)
    requires env.cfg.Valid()
  {
    exists reliable, writes :: Step(env, d, ev, d', reliable, writes)
  }

  // A started daemon over whatever routes an earlier one left behind.
  ghost predicate Initial(env: Setting, d: DaemonView) {
    && d.health == ColdHealth(env.cfg.wans)
    && d.gateways == map[]
    && d.slices.Keys == env.cfg.groups.Keys
    && forall g :: g in d.slices ==> d.slices[g] == Slice(NEW_GROUP, None, d.slices[g].table, [], [])
  }

  // A run: startup snapshots at most once and first, then events.
  ghost predicate IsRun(env: Setting, trace: seq<DaemonView>, events: seq<DaemonEvent>)
    requires env.cfg.Valid()
  {
    && |trace| == |events| + 1
    && Initial(env, trace[0])
    && forall i :: 0 <= i < |events| ==>
         && (events[i].Prime? ==> i == 0)
         && Follows(env, trace[i], events[i], trace[i + 1])
  }
}
