// The daemon object: its handlers update Health, the Gateway cache, the
// Groups, the vacated map and the State file in place, visiting maps in any
// order. Each handler is proved to be one Failover.Step.
module Daemon {
  import opened Basics
  import opened Config
  import opened Selector
  import opened Measurements
  import opened HealthSpec
  import opened Health
  import opened Apply
  import opened DecisionSpec
  import opened Decision
  import opened Failover
  import opened StateFile
  import opened HandlerProgress

  // Where Hook notifications go; delivery is the queue's business.
  class HookSink {
    var submitted: Log<Hook>

    constructor ()
      ensures submitted == map[]
    {
      submitted := map[];
    }

    method Notify(h: Hook)
      modifies this
      ensures submitted == old(submitted)[h.group := LogOf(old(submitted), h.group) + [h]]
    {
      submitted := submitted[h.group := LogOf(submitted, h.group) + [h]];
    }
  }

  // The State file. A write replaces it whole or, unless reliable, leaves it.
  class StateWriter {
    var reliable: bool
    var published: Option<Snapshot>

    constructor ()
      ensures published == None && !reliable
    {
      reliable, published := false, None;
    }

    method Write(s: Snapshot)
      modifies this`published
      ensures reliable ==> published == Some(s)
      ensures published == old(published) || published == Some(s)
    {
      if !reliable {
        if * {
          return;
        }
      }
      published := Some(s);
    }
  }

  function Lookup<V>(m: map<string, V>, k: string): Option<V> {
    if k in m then Some(m[k]) else None
  }

  // Cold Health, no Gateways and an unwritten State file.
  method NewStores(cfg: DaemonConfig) returns (health: Wans, gateways: GatewayCache, writer: StateWriter)
    requires cfg.Valid()
    ensures fresh(health) && fresh(health.repr) && fresh(gateways) && fresh(writer)
    ensures health.repr !! {health as object, gateways, writer}
    ensures health.Valid() && health.view == ColdHealth(cfg.wans) && gateways.entries == map[]
  {
    health := new Wans(cfg.wans);
    gateways := new GatewayCache();
    writer := new StateWriter();
  }

  // One Group object per configured Group, all distinct.
  method NewGroups(cfg: DaemonConfig, applier: Applier) returns (groups: map<string, Group>, ghost objects: set<object>)
    ensures groups.Keys == cfg.groups.Keys && fresh(objects)
    ensures forall g {:trigger NewGroup(cfg, applier, groups[g], g)} ::
              g in groups ==> NewGroup(cfg, applier, groups[g], g) && groups[g] in objects
    ensures Distinct(groups)
  {
    groups, objects := map[], {};
    var todo := cfg.groups.Keys;
    while todo != {}
      invariant todo <= cfg.groups.Keys && groups.Keys == cfg.groups.Keys - todo
      invariant fresh(objects)
      invariant forall g :: g in groups ==> NewGroup(cfg, applier, groups[g], g) && groups[g] in objects
      invariant Distinct(groups)
      decreases todo
    {
      var g :| g in todo;
      todo := todo - {g};
      var group := new Group(cfg.groups[g], applier);
      objects := objects + {group};
      DistinctWith(groups, g, group);
      groups := groups[g := group];
    }
  }

  ghost predicate Distinct(groups: map<string, Group>) {
    forall g, k {:trigger Own(groups, g), Own(groups, k)} ::
      g in groups && k in groups && g != k ==> Own(groups, g) != Own(groups, k)
  }

  lemma DistinctWith(groups: map<string, Group>, g: string, group: Group)
    requires Distinct(groups) && g !in groups && forall k :: k in groups ==> groups[k] != group
    ensures Distinct(groups[g := group])
  {
    var more := groups[g := group];
    forall k, l | k in more && l in more && k != l ensures Own(more, k) != Own(more, l) {
      assert k in groups && l in groups ==> Own(groups, k) != Own(groups, l);
    }
  }

  function Own(groups: map<string, Group>, g: string): Group
    requires g in groups
  {
    groups[g]
  }

  ghost predicate NewGroup(cfg: DaemonConfig, applier: Applier, group: Group, g: string)
    reads group
  {
    g in cfg.groups && group.cfg == cfg.groups[g] && group.applier == applier && group.View() == NEW_GROUP
  }

  // A slice with its commit published, if one was made.
  function Published(wans: map<string, WanConfig>, gws: Gateways, g: GroupConfig, moved: Slice, committed: Option<Commit>): Slice {
    match committed
    case None => moved
    case Some(c) => PublishedSlice(wans, gws, g, moved, c)
  }

  function NewSlices(cfg: DaemonConfig, routes: Tables): map<string, Slice> {
    map g | g in cfg.groups :: Slice(NEW_GROUP, None, TableOf(routes, cfg.groups[g].table), [], [])
  }

  class Daemon {
    const cfg: DaemonConfig
    const kernel: Kernel
    const hooks: HookSink
    const writer: StateWriter
    const health: Wans
    const gateways: GatewayCache
    const applier: Applier
    const groups: map<string, Group>
    ghost const groupObjects: set<object>
    var vacated: map<string, Active>
    // What each Group's objects, table, Hooks and flushes amount to.
    ghost var slices: map<string, Slice>

    // One Group's object is the configured one.
    ghost predicate Wired(g: string) {
      && g in groups && g in cfg.groups && groups[g] in groupObjects
      && groups[g].cfg == cfg.groups[g] && groups[g].applier == applier && cfg.groups[g].name == g
    }

    // How the objects hang together; nothing here ever changes.
    ghost predicate Wiring() {
      && cfg.Valid()
      && applier.wans == cfg.wans && applier.kernel == kernel && applier.gateways == gateways
      && groups.Keys == cfg.groups.Keys
      && (forall g {:trigger Wired(g)} :: g in groups ==> Wired(g))
      && (forall g, k {:trigger Wired(g), Wired(k)} :: g in groups && k in groups && g != k ==>
            Own(groups, g) != Own(groups, k) && cfg.groups[g].table != cfg.groups[k].table)
      && groupObjects !! {this, kernel, hooks, writer, gateways, health}
      && health.repr !! groupObjects + {this, kernel, hooks, writer, gateways, health}
    }

    ghost function SliceOf(g: string): Slice
      requires Wired(g)
      reads this, kernel, hooks, groups[g]
    {
      Slice(groups[g].View(), Lookup(vacated, g), TableOf(kernel.routes, cfg.groups[g].table),
            LogOf(hooks.submitted, g), LogOf(kernel.flushes, g))
    }

    // One slice says what its objects hold.
    ghost predicate Mirrored(g: string)
      reads this, kernel, hooks, groupObjects
    {
      Wired(g) && g in slices && slices[g] == SliceOf(g)
    }

    // Every slice is mirrored.
    ghost predicate Ready()
      reads this, kernel, hooks, groupObjects
    {
      && slices.Keys == groups.Keys
      && forall g {:trigger Mirrored(g)} :: g in groups ==> Mirrored(g)
    }

    ghost predicate Valid()
      reads this, kernel, hooks, groupObjects, health, health.repr
    {
      Ready() && health.Valid()
    }

    ghost function View(): DaemonView
      reads this, health, gateways, writer
    {
      DaemonView(health.view, gateways.entries, slices, writer.published)
    }

    ghost function World(): World
      reads kernel, gateways
    {
      DecisionSpec.World(cfg.wans, gateways.entries, kernel.indexOf, kernel.reliable)
    }

    ghost function Now(): Snapshot
      reads this, health, gateways
    {
      Shown(cfg, health.view, gateways.entries, slices)
    }

    // Cold Health and one Group per configured Group, over whatever routes the
    // kernel's tables hold.
    constructor (cfg: DaemonConfig, kernel: Kernel, hooks: HookSink)
      requires cfg.Valid() && kernel.flushes == map[] && hooks.submitted == map[]
      ensures Wiring() && Valid() && this.cfg == cfg && this.kernel == kernel && this.hooks == hooks
      ensures fresh(writer) && fresh(health) && fresh(health.repr) && fresh(gateways) && fresh(groupObjects)
      ensures health.view == ColdHealth(cfg.wans) && gateways.entries == map[]
      ensures slices == NewSlices(cfg, kernel.routes)
    {
      this.cfg, this.kernel, this.hooks := cfg, kernel, hooks;
      var health, gateways, writer := NewStores(cfg);
      this.health, this.gateways, this.writer := health, gateways, writer;
      var applier := new Applier(cfg.wans, kernel, gateways);
      this.applier := applier;
      var groups, objects := NewGroups(cfg, applier);
      this.groups, groupObjects := groups, objects;
      vacated := map[];
      slices := NewSlices(cfg, kernel.routes);
      new;
      forall g, k | g in groups && k in groups && g != k
        ensures Own(groups, g) != Own(groups, k) && cfg.groups[g].table != cfg.groups[k].table
      {
        assert cfg.Declares(g) && cfg.Declares(k);
      }
      forall g | g in groups ensures Wired(g) && groups[g].View() == NEW_GROUP {
        assert NewGroup(cfg, applier, groups[g], g);
      }
      NewIsReady();
    }

    // Over new Groups the new slices are true.
    lemma NewIsReady()
      requires Wiring() && vacated == map[] && kernel.flushes == map[] && hooks.submitted == map[]
      requires slices == NewSlices(cfg, kernel.routes)
      requires forall g {:trigger Wired(g)} :: g in groups ==> groups[g].View() == NEW_GROUP
      ensures Ready()
    {
      assert slices.Keys == groups.Keys;
      forall g | g in groups ensures Mirrored(g) {
        assert Wired(g);
        NewSliceMirrors(g);
      }
    }

    lemma NewSliceMirrors(g: string)
      requires Wired(g) && g in slices && groups[g].View() == NEW_GROUP && vacated == map[]
      requires kernel.flushes == map[] && hooks.submitted == map[] && slices == NewSlices(cfg, kernel.routes)
      ensures Mirrored(g)
    {
    }

    // The initial State, published before any event.
    method Bootstrap()
      requires Wiring() && Valid() && health.view == ColdHealth(cfg.wans) && gateways.entries == map[]
      requires slices == NewSlices(cfg, kernel.routes)
      modifies writer`published
      ensures Valid()
      ensures Initial(Setting(cfg, kernel.indexOf), View())
      ensures writer.reliable ==> Fresh(Setting(cfg, kernel.indexOf), View())
    {
      WriteStateSnapshot();
    }

    // Writes the State file from the current state.
    method WriteStateSnapshot()
      requires Wiring() && Ready() && health.Valid()
      modifies writer`published
      ensures writer.reliable ==> writer.published == Some(Now())
    {
      var states := health.Snapshot();
      var wans := WanEntries(states);
      var groupStates := GroupStates();
      assert wans == Now().wans;
      writer.Write(Snapshot(wans, groupStates));
    }

    method WanEntries(states: map<string, WanState>) returns (wans: map<string, WanEntry>)
      ensures wans == map n | n in states :: EntryOf(gateways.entries, states[n])
    {
      wans := map[];
      var todo := states.Keys;
      while todo != {}
        invariant todo <= states.Keys && wans.Keys == states.Keys - todo
        invariant forall n :: n in wans ==> wans[n] == EntryOf(gateways.entries, states[n])
        decreases todo
      {
        var n :| n in todo;
        todo := todo - {n};
        var iface := states[n].iface;
        wans := wans[n := WanEntry(states[n], gateways.Get(iface, V4).0, gateways.Get(iface, V6).0)];
      }
    }

    method GroupStates() returns (out: map<string, GroupState>)
      requires Wiring() && Ready()
      ensures out == Now().groups
    {
      out := map[];
      var todo := groups.Keys;
      while todo != {}
        invariant todo <= groups.Keys && out.Keys == groups.Keys - todo
        invariant forall g :: g in out ==> out[g] == GroupStateOf(cfg.groups[g], slices[g].group)
        decreases todo
      {
        var g :| g in todo;
        todo := todo - {g};
        assert Mirrored(g);
        var s := groups[g].State();
        out := out[g := s];
      }
    }

    // ---- Publishing a commit

    // A change confined to one Group leaves the other mirrors true.
    twostate lemma OthersMirrored(g: string)
      requires Wiring() && old(Ready()) && g in groups
      requires g in slices && slices == old(slices)[g := slices[g]]
      requires forall o :: o in groupObjects && o != groups[g] ==> unchanged(o)
      requires forall k :: k != g ==> Lookup(vacated, k) == old(Lookup(vacated, k))
      requires forall k :: k != g ==> LogOf(hooks.submitted, k) == old(LogOf(hooks.submitted, k))
      requires forall k :: k != g ==> LogOf(kernel.flushes, k) == old(LogOf(kernel.flushes, k))
      requires forall t :: t != cfg.groups[g].table ==> TableOf(kernel.routes, t) == old(TableOf(kernel.routes, t))
      ensures forall k {:trigger Mirrored(k)} :: k in groups && k != g ==> Mirrored(k)
    {
      forall k | k in groups && k != g ensures Mirrored(k) {
        assert old(Mirrored(k));
        assert old(Mirrored(g));
      }
    }

    method FlushVacated(g: string, was: Active)
      requires Wiring() && Ready() && g in groups
      modifies this`slices, kernel`flushes
      ensures Ready()
      ensures slices == old(slices)[g := old(slices)[g].(flushed :=
                if was.wan in cfg.wans then old(slices)[g].flushed + [was.wan] else old(slices)[g].flushed)]
    {
      assert Mirrored(g);
      if was.wan !in cfg.wans {
        return;
      }
      kernel.FlushConntrack(g, was.wan);
      slices := slices[g := slices[g].(flushed := slices[g].flushed + [was.wan])];
      OthersMirrored(g);
      assert Mirrored(g);
    }

    method SetVacated(g: string, was: Option<Active>)
      requires Wiring() && Ready() && g in groups
      modifies this`slices, this`vacated
      ensures Ready()
      ensures slices == old(slices)[g := old(slices)[g].(vacated := was)]
    {
      assert Mirrored(g);
      vacated := if was.Some? then vacated[g := was.value] else vacated - {g};
      slices := slices[g := slices[g].(vacated := was)];
      OthersMirrored(g);
      assert Mirrored(g);
    }

    // Flushes the WAN that traffic left, and keeps the vacated map.
    method Vacate(g: string, c: Commit)
      requires Wiring() && Ready() && g in groups
      modifies this`vacated, this`slices, kernel`flushes
      ensures Ready()
      ensures slices == old(slices)[g := Vacated(cfg.wans, old(slices)[g], c)]
    {
      match c.Event() {
        case EventSwitch =>
          FlushVacated(g, c.before);
        case EventDown =>
          SetVacated(g, Some(c.before));
        case EventUp =>
          VacateUp(g, c);
        case NoEvent =>
      }

    }

    method VacateUp(g: string, c: Commit)
      requires Wiring() && Ready() && g in groups && c.Event() == EventUp
      modifies this`vacated, this`slices, kernel`flushes
      ensures Ready()
      ensures slices == old(slices)[g := Vacated(cfg.wans, old(slices)[g], c)]
    {
      assert Mirrored(g);
      if g !in vacated {
        assert slices == slices[g := slices[g]];
        return;
      }
      var was := vacated[g];
      SetVacated(g, None);
      if was.wan != c.after.wan {
        FlushVacated(g, was);
      }
      UpdatedTwice(old(slices), g, old(slices)[g].(vacated := None), slices[g]);
    }

    // Externalizes one commit: conntrack, State, then Hooks.
    method PublishDecision(g: string, c: Commit)
      requires Wiring() && Ready() && health.Valid() && g in groups
      modifies this`vacated, this`slices, kernel`flushes, hooks, writer`published
      ensures Ready() && health.Valid()
      ensures slices == old(slices)[g := PublishedSlice(cfg.wans, gateways.entries, cfg.groups[g], old(slices)[g], c)]
      ensures StateWritten(true, old(writer.published))
    {
      Vacate(g, c);
      ghost var vacated := slices[g];
      WriteAndNotify(g, c);
      UpdatedTwice(old(slices), g, vacated, slices[g]);
    }

    method WriteAndNotify(g: string, c: Commit)
      requires Wiring() && Ready() && health.Valid() && g in groups
      modifies this`slices, hooks, writer`published
      ensures Ready()
      ensures slices == old(slices)[g := old(slices)[g].(hooks :=
                if c.Event() != NoEvent then old(slices)[g].hooks + [HookOf(cfg.wans, gateways.entries, cfg.groups[g], c)] else old(slices)[g].hooks)]
      ensures writer.reliable ==> writer.published == Some(Now())
    {
      WriteStateSnapshot();
      if c.Event() != NoEvent {
        NotifyHooks(g, c);
      }
    }

    method NotifyHooks(g: string, c: Commit)
      requires Wiring() && Ready() && g in groups
      modifies this`slices, hooks
      ensures Ready()
      ensures slices == old(slices)[g := old(slices)[g].(hooks := old(slices)[g].hooks + [HookOf(cfg.wans, gateways.entries, cfg.groups[g], c)])]
      ensures GroupsOf(slices) == old(GroupsOf(slices))
    {
      assert Mirrored(g);
      var group := cfg.groups[g];
      var ifaceOld, ifaceNew := InterfaceFor(cfg.wans, c.before), InterfaceFor(cfg.wans, c.after);
      var shown := HookGateways(gateways.Get(ifaceOld, V4).0, gateways.Get(ifaceNew, V4).0,
                                gateways.Get(ifaceOld, V6).0, gateways.Get(ifaceNew, V6).0);
      var hook := Hook(c.Event(), group.name, c.before.wan, c.after.wan, ifaceOld, ifaceNew, shown,
                       FamiliesFor(cfg.wans, c.before), FamiliesFor(cfg.wans, c.after), group.table, group.mark, c.at);
      hooks.Notify(hook);
      slices := slices[g := slices[g].(hooks := slices[g].hooks + [hook])];
      OthersMirrored(g);
      assert Mirrored(g);
    }

    // ---- Calls on one Group

    // Mirrored but for g's Decision state and table, which a call just moved.
    ghost predicate ReadyBut(g: string)
      reads this, kernel, hooks, groupObjects
    {
      && Wired(g)
      && slices.Keys == groups.Keys
      && (forall k {:trigger Mirrored(k)} :: k in groups && k != g ==> Mirrored(k))
      && SliceOf(g) == slices[g].(group := groups[g].View(), table := TableOf(kernel.routes, cfg.groups[g].table))
    }

    // g's object and table are what the call makes of its slice.
    ghost predicate Moved(g: string, call: Call, o: Outcome, committed: Option<Commit>)
      requires Wired(g) && g in slices
      reads this, kernel, gateways, groups[g]
    {
      && o.at > 0
      && groups[g].View() == After(slices[g].group, call, o)
      && TableWritten(World(), ApplyOf(slices[g].group, call), slices[g].table, TableOf(kernel.routes, cfg.groups[g].table), o.ok)
      && committed == CommitMade(slices[g].group, groups[g].View())
    }

    twostate lemma OneGroupMoved(g: string)
      requires Wiring() && old(Ready()) && g in groups
      requires forall o :: o in groupObjects && o != groups[g] ==> unchanged(o)
      requires unchanged(this) && unchanged(hooks) && kernel.flushes == old(kernel.flushes)
      requires forall t :: t != cfg.groups[g].table ==> TableOf(kernel.routes, t) == old(TableOf(kernel.routes, t))
      ensures ReadyBut(g)
    {
      assert old(Mirrored(g));
      forall k | k in groups && k != g ensures Mirrored(k) {
        assert old(Mirrored(k));
      }
    }

    method MoveByRecompute(g: string, members: seq<MemberHealth>, ghost healthy: set<string>)
      returns (committed: Option<Commit>, ghost o: Outcome)
      requires Wiring() && Valid() && Wired(g)
      requires cfg.groups[g].strategy == PRIMARY_BACKUP && KeyedByWan(cfg.groups[g].members)
      requires Lists(cfg.groups[g].members, healthy, members)
      modifies groups[g], kernel`routes
      ensures ReadyBut(g) && health.Valid()
      ensures Moved(g, Recompute(Choice(cfg.groups[g].members, healthy)), o, committed)
    {
      assert Mirrored(g);
      committed, o := groups[g].Recompute(members, healthy);
      OneGroupMoved(g);
      HealthKept();
    }

    // The slice follows its Group's object and table.
    ghost method Follow(g: string)
      requires Wiring() && ReadyBut(g) && health.Valid()
      modifies this`slices
      ensures Ready() && health.Valid()
      ensures slices == old(slices)[g := old(slices)[g].(group := groups[g].View(),
                                                         table := TableOf(kernel.routes, cfg.groups[g].table))]
    {
      slices := slices[g := SliceOf(g)];
      OneSliceFollowed(g);
      HealthKept();
    }

    // The slice brought up to date, every mirror is true.
    twostate lemma OneSliceFollowed(g: string)
      requires Wiring() && old(ReadyBut(g)) && slices == old(slices)[g := old(SliceOf(g))] && vacated == old(vacated)
      requires unchanged(kernel) && unchanged(hooks) && forall o :: o in groupObjects ==> unchanged(o)
      ensures Ready()
    {
      assert Wired(g);
      forall k | k in groups && k != g ensures Mirrored(k) {
        assert old(Mirrored(k));
      }
    }

    method MoveByProbe(g: string, wan: string) returns (committed: Option<Commit>, ghost o: Outcome)
      requires Wiring() && Valid() && Wired(g)
      modifies groups[g], kernel`routes
      ensures ReadyBut(g) && health.Valid()
      ensures Moved(g, ProbeOf(wan), o, committed)
    {
      assert Mirrored(g);
      committed, o := groups[g].Probe(wan);
      OneGroupMoved(g);
      HealthKept();
    }

    method MoveByRoute(g: string, wan: string, f: Family) returns (committed: Option<Commit>, ghost o: Outcome)
      requires Wiring() && Valid() && Wired(g)
      modifies groups[g], kernel`routes
      ensures ReadyBut(g) && health.Valid()
      ensures Moved(g, Call.RouteObserved(wan, f), o, committed)
    {
      assert Mirrored(g);
      committed, o := groups[g].Observe(wan, f);
      OneGroupMoved(g);
      HealthKept();
    }

    // The slice g's objects and table now call for.
    ghost function MovedSlice(g: string): Slice
      requires Wired(g) && g in slices
      reads this, kernel, groups[g]
    {
      slices[g].(group := groups[g].View(), table := TableOf(kernel.routes, cfg.groups[g].table))
    }

    // Brings g's slice up to date and publishes the commit, if there is one.
    method PublishCommit(g: string, committed: Option<Commit>)
      requires Wiring() && ReadyBut(g) && health.Valid()
      modifies this`vacated, this`slices, kernel`flushes, hooks, writer`published
      ensures Valid()
      ensures slices == old(slices)[g := Published(cfg.wans, gateways.entries, cfg.groups[g], old(MovedSlice(g)), committed)]
      ensures StateWritten(committed.Some?, old(writer.published))
    {
      Follow(g);
      ghost var moved := slices[g];
      if committed.Some? {
        PublishDecision(g, committed.value);
        UpdatedTwice(old(slices), g, moved, slices[g]);
      }
    }

    // Publishes the commit of a call that moved g.
    method PublishMove(g: string, committed: Option<Commit>, ghost call: Call, ghost o: Outcome)
      requires Wiring() && ReadyBut(g) && health.Valid() && Moved(g, call, o, committed)
      modifies this`vacated, this`slices, kernel`flushes, hooks, writer`published
      ensures Valid()
      ensures StepOf(g, call, old(slices))
      ensures StateWritten(CommitMade(old(slices)[g].group, slices[g].group).Some?, old(writer.published))
    {
      ghost var before, moved := slices[g], MovedSlice(g);
      PublishCommit(g, committed);
      MovedThenPublished(World(), cfg.groups[g], call, o, before, moved, slices[g]);
    }

    // g's slice took the call, and no other slice changed.
    ghost predicate StepOf(g: string, call: Call, before: map<string, Slice>)
      reads this, kernel, gateways
    {
      && g in before && g in slices && g in cfg.groups
      && slices == before[g := slices[g]]
      && Called(World(), cfg.groups[g], call, before[g], slices[g])
    }

    // The State file holds the current state if it was due a write, else what it held.
    ghost predicate StateWritten(due: bool, before: Option<Snapshot>)
      reads this, health, gateways, writer
    {
      FileHolds(writer.reliable, writer.published, due, Now(), before)
    }

    // ---- Recomputing after a Health change

    ghost function Target(g: string): Active
      requires Wired(g) && KeyedByWan(cfg.groups[g].members)
      reads health
    {
      Choice(cfg.groups[g].members, HealthySet(health.view))
    }

    twostate lemma HealthKept()
      requires old(health.Valid()) && unchanged(health)
      requires forall o :: o in health.repr ==> unchanged(o)
      ensures health.Valid()
    {
    }

    method RecomputeGroup(g: string)
      requires Wiring() && Valid() && Wired(g)
      modifies this`vacated, this`slices, kernel`routes, kernel`flushes, hooks, writer`published, groups[g]
      ensures Valid()
      ensures StepOf(g, Recompute(Target(g)), old(slices))
    {
      var members := health.MemberHealthOf(cfg.groups[g]);
      RecomputeOn(g, members, Target(g));
    }

    method RecomputeOn(g: string, members: seq<MemberHealth>, ghost target: Active)
      requires Wiring() && Valid() && Wired(g) && target == Target(g)
      requires Lists(cfg.groups[g].members, HealthySet(health.view), members)
      modifies this`vacated, this`slices, kernel`routes, kernel`flushes, hooks, writer`published, groups[g]
      ensures Valid()
      ensures StepOf(g, Recompute(target), old(slices))
    {
      var committed, o := MoveByRecompute(g, members, HealthySet(health.view));
      PublishMove(g, committed, Recompute(target), o);
    }

    ghost predicate ProgressSince(before: map<string, Slice>, touched: set<string>)
      requires cfg.Valid()
      reads this, kernel, gateways, health
    {
      Progress(World(), cfg, HealthySet(health.view), before, touched, slices)
    }

    method RecomputeOnce(g: string, ghost before: map<string, Slice>, ghost touched: set<string>)
      requires Wiring() && Valid() && Wired(g) && ProgressSince(before, touched)
      modifies this`vacated, this`slices, kernel`routes, kernel`flushes, hooks, writer`published, groups[g]
      ensures Valid() && ProgressSince(before, touched + {g})
    {
      RecomputeGroup(g);
      ProgressGrows(World(), cfg, HealthySet(health.view), before, touched, old(slices), g, slices);
    }

    method RecomputeIfAffected(g: string, wan: string, ghost before: map<string, Slice>, ghost touched: set<string>, ghost todo: set<string>)
      requires Wiring() && Valid() && Wired(g)
      requires ProgressSince(before, TouchedSoFar(cfg, touched, wan, todo))
      modifies this`vacated, this`slices, kernel`routes, kernel`flushes, hooks, writer`published, groupObjects
      ensures Valid()
      ensures ProgressSince(before, TouchedSoFar(cfg, touched, wan, todo - {g}))
    {
      TouchedNext(cfg, touched, wan, todo, g);
      if wan in cfg.groups[g].members {
        RecomputeOnce(g, before, TouchedSoFar(cfg, touched, wan, todo));
      }
    }

    // Recomputes every Group containing wan.
    method RecomputeAffectedGroups(wan: string, ghost before: map<string, Slice>, ghost touched: set<string>)
      requires Wiring() && Valid() && ProgressSince(before, touched)
      modifies this`vacated, this`slices, kernel`routes, kernel`flushes, hooks, writer`published, groupObjects
      ensures Valid()
      ensures ProgressSince(before, touched + Containing(cfg, {wan}))
    {
      var todo := cfg.groups.Keys;
      TouchedFirstAndLast(cfg, touched, wan);
      while todo != {}
        invariant todo <= cfg.groups.Keys
        invariant Valid()
        invariant ProgressSince(before, TouchedSoFar(cfg, touched, wan, todo))
        decreases todo
      {
        var g :| g in todo;
        assert Wired(g);
        RecomputeIfAffected(g, wan, before, touched, todo);
        todo := todo - {g};
      }
    }

    // The second half of a Health event: the Groups with a flipped Member, then
    // State if the change calls for it.
    method PublishHealthChange(c: Change)
      requires Wiring() && Valid() && (c.flipped != [] ==> c.republish)
      modifies this`vacated, this`slices, kernel`routes, kernel`flushes, hooks, writer`published, groupObjects
      ensures Valid()
      ensures ProgressSince(old(slices), Containing(cfg, Elements(c.flipped)))
      ensures StateWritten(c.republish, old(writer.published))
    {
      RecomputeFlipped(c.flipped);
      if c.republish {
        WriteStateSnapshot();
      }
    }

    method RecomputeFlipped(flipped: seq<string>)
      requires Wiring() && Valid()
      modifies this`vacated, this`slices, kernel`routes, kernel`flushes, hooks, writer`published, groupObjects
      ensures Valid()
      ensures ProgressSince(old(slices), Containing(cfg, Elements(flipped)))
      ensures flipped == [] ==> writer.published == old(writer.published)
    {
      NothingProgressed(World(), cfg, HealthySet(health.view), slices);
      ghost var before := slices;
      for i := 0 to |flipped|
        invariant Valid()
        invariant ProgressSince(before, Containing(cfg, Elements(flipped[..i])))
        invariant i == 0 ==> writer.published == old(writer.published)
      {
        ContainingGrows(cfg, flipped, i);
        RecomputeAffectedGroups(flipped[i], before, Containing(cfg, Elements(flipped[..i])));
      }
      assert flipped[..|flipped|] == flipped;
    }

    // ---- Retries and observations, which recompute nothing

    // A pass that began at p has retried wan on every Group but those to do.
    ghost predicate RetryingSince(p: Start, wan: string, todo: set<string>, due: bool)
      reads this, kernel, gateways, health, writer
    {
      Retrying(World(), cfg, health.view, p, wan, todo, slices, due, writer.reliable, writer.published)
    }

    method RetryGroup(g: string, wan: string, ghost p: Start, ghost todo: set<string>, ghost due: bool) returns (ghost due': bool)
      requires Wiring() && Valid() && Wired(g) && g in todo && RetryingSince(p, wan, todo, due)
      modifies this`vacated, this`slices, kernel`routes, kernel`flushes, hooks, writer`published, groupObjects
      ensures Valid() && RetryingSince(p, wan, todo - {g}, due')
    {
      ghost var before, file := slices, writer.published;
      CallProbe(g, wan);
      due' := due || CommitMade(before[g].group, slices[g].group).Some?;
      RetriedNext(g, wan, p, todo, before, due, file);
    }

    lemma RetriedNext(g: string, wan: string, p: Start, todo: set<string>, before: map<string, Slice>, due: bool, file: Option<Snapshot>)
      requires cfg.Valid() && g in cfg.groups && g in todo && StepOf(g, ProbeOf(wan), before)
      requires Retrying(World(), cfg, health.view, p, wan, todo, before, due, writer.reliable, file)
      requires StateWritten(CommitMade(before[g].group, slices[g].group).Some?, file)
      ensures RetryingSince(p, wan, todo - {g}, due || CommitMade(before[g].group, slices[g].group).Some?)
    {
      RetriedOneMore(World(), cfg, health.view, p, wan, todo, before, due, writer.reliable, file, g, slices, writer.published);
    }

    method CallProbe(g: string, wan: string)
      requires Wiring() && Valid() && Wired(g)
      modifies this`vacated, this`slices, kernel`routes, kernel`flushes, hooks, writer`published, groups[g]
      ensures Valid() && World() == old(World())
      ensures StepOf(g, ProbeOf(wan), old(slices))
      ensures StateWritten(CommitMade(old(slices)[g].group, slices[g].group).Some?, old(writer.published))
    {
      var committed, o := MoveByProbe(g, wan);
      PublishMove(g, committed, ProbeOf(wan), o);
    }

    // Retries every Group waiting for wan.
    method RetryGroupDecisions(wan: string, ghost p: Start) returns (ghost due: bool)
      requires Wiring() && Valid() && RetryingSince(p, wan, groups.Keys, p.due)
      modifies this`vacated, this`slices, kernel`routes, kernel`flushes, hooks, writer`published, groupObjects
      ensures Valid() && RetryingSince(p, wan, {}, due)
    {
      due := p.due;
      var todo := groups.Keys;
      while todo != {}
        invariant todo <= groups.Keys
        invariant Valid() && RetryingSince(p, wan, todo, due)
        decreases todo
      {
        var g :| g in todo;
        assert Wired(g);
        due := RetryGroup(g, wan, p, todo, due);
        todo := todo - {g};
      }
    }

    // ---- Event handlers

    ghost function Env(): Setting {
      Setting(cfg, kernel.indexOf)
    }

    // Health changed alone: every slice still mirrors its Group.
    method AbsorbResult(r: ProbeResult) returns (c: Change)
      requires Wiring() && Valid()
      modifies health, health.repr
      ensures Valid()
      ensures health.view == Probed(old(health.view), r)
      ensures Reports(c.flipped, c.republish, old(health.view), health.view)
      ensures c.flipped != [] ==> c.republish
    {
      c := health.Probe(r);
      SlicesKept();
      ResultFlipsItsWan(old(health.view), r, c.flipped, c.republish);
    }

    twostate lemma SlicesKept()
      requires Wiring() && old(Ready()) && unchanged(this) && unchanged(kernel) && unchanged(hooks)
      requires forall o :: o in groupObjects ==> unchanged(o)
      ensures Ready()
    {
      forall g | g in groups ensures Mirrored(g) {
        assert old(Mirrored(g));
      }
    }

    // A probe result: Health first, then the affected Groups or, if the WAN did
    // not flip, a retry of the Groups waiting for it.
    method HandleProbeResult(r: ProbeResult)
      requires Wiring() && Valid()
      modifies this`vacated, this`slices, kernel`routes, kernel`flushes, hooks, writer`published, groupObjects, health, health.repr
      ensures Valid()
      ensures Step(Env(), old(View()), ProbeEvent(r), View(), kernel.reliable, writer.reliable)
    {
      ghost var d := View();
      var c := AbsorbResult(r);
      PublishHealthChange(c);
      SettleResult(r, c, d);
    }

    // A WAN that flipped has had its Decisions settled by the recompute.
    method SettleResult(r: ProbeResult, c: Change, ghost d: DaemonView)
      requires Wiring() && Valid()
      requires health.view == Probed(d.health, r) && gateways.entries == d.gateways
      requires Reports(c.flipped, c.republish, d.health, health.view) && (c.flipped != [] ==> c.republish)
      requires Recomputed(Env(), d, c.flipped, c.republish, View(), kernel.reliable, writer.reliable)
      modifies this`vacated, this`slices, kernel`routes, kernel`flushes, hooks, writer`published, groupObjects
      ensures Valid()
      ensures Step(Env(), d, ProbeEvent(r), View(), kernel.reliable, writer.reliable)
    {
      if r.wan in c.flipped {
        RecomputedIsStep(Env(), d, ProbeEvent(r), c.flipped, c.republish, View(), kernel.reliable, writer.reliable);
      } else {
        RetryAfterResult(r, c, d);
      }
    }

    method RetryAfterResult(r: ProbeResult, c: Change, ghost d: DaemonView)
      requires Wiring() && Valid() && r.wan !in c.flipped
      requires health.view == Probed(d.health, r) && gateways.entries == d.gateways
      requires Reports(c.flipped, c.republish, d.health, health.view) && (c.flipped != [] ==> c.republish)
      requires Recomputed(Env(), d, c.flipped, c.republish, View(), kernel.reliable, writer.reliable)
      modifies this`vacated, this`slices, kernel`routes, kernel`flushes, hooks, writer`published, groupObjects
      ensures Valid()
      ensures Step(Env(), d, ProbeEvent(r), View(), kernel.reliable, writer.reliable)
    {
      ResultFlipsItsWan(d.health, r, c.flipped, c.republish);
      NoCommitWithoutRecompute(Env(), d, c.flipped, c.republish, View(), kernel.reliable, writer.reliable);
      ghost var p := Start(d.slices, c.republish, d.published);
      NothingRetried(World(), cfg, health.view, p, r.wan, writer.reliable, writer.published);
      ghost var due := RetryGroupDecisions(r.wan, p);
      RetriedIsStep(Env(), d, r, p, due, View(), kernel.reliable, writer.reliable);
    }

    method AbsorbLink(e: LinkEvent) returns (c: Change)
      requires Wiring() && Valid()
      modifies health, health.repr
      ensures Valid()
      ensures health.view == Linked(old(health.view), e)
      ensures Reports(c.flipped, c.republish, old(health.view), health.view)
      ensures c.flipped != [] ==> c.republish
    {
      c := health.Link(e);
      SlicesKept();
      LinkFlipsArePublished(old(health.view), e, c.flipped, c.republish);
    }

    // One link step: Health first, then the Groups it affects.
    method HandleLinkEvent(e: LinkEvent)
      requires Wiring() && Valid()
      modifies this`vacated, this`slices, kernel`routes, kernel`flushes, hooks, writer`published, groupObjects, health, health.repr
      ensures Valid()
      ensures Step(Env(), old(View()), LinkSeen(e), View(), kernel.reliable, writer.reliable)
    {
      ghost var d := View();
      var c := AbsorbLink(e);
      PublishAsStep(c, d, LinkSeen(e));
    }

    // A Health event taken in, and nothing else yet: publishing its report
    // completes the step.
    method PublishAsStep(c: Change, ghost d: DaemonView, ghost ev: DaemonEvent)
      requires Wiring() && Valid()
      requires View() == DaemonView(HealthAfter(d.health, ev), GatewaysAfter(d.gateways, ev), d.slices, d.published)
      requires Reported(d, ev, c.flipped, c.republish)
      modifies this`vacated, this`slices, kernel`routes, kernel`flushes, hooks, writer`published, groupObjects
      ensures Valid()
      ensures Step(Env(), d, ev, View(), kernel.reliable, writer.reliable)
    {
      PublishHealthChange(c);
      RecomputedIsStep(Env(), d, ev, c.flipped, c.republish, View(), kernel.reliable, writer.reliable);
    }

    // The startup snapshots: every Gateway first, then every link, then one
    // recompute of the affected Groups.
    method Prime(routes: seq<RouteEvent>, links: seq<LinkEvent>)
      requires Wiring() && Valid()
      modifies this`vacated, this`slices, kernel`routes, kernel`flushes, hooks, writer`published, groupObjects,
               health, health.repr, gateways
      ensures Valid()
      ensures Step(Env(), old(View()), DaemonEvent.Prime(routes, links), View(), kernel.reliable, writer.reliable)
    {
      ghost var d := View();
      LearnSnapshot(routes);
      var c := AbsorbLinks(|routes| > 0, links);
      PublishAsStep(c, d, DaemonEvent.Prime(routes, links));
    }

    method LearnSnapshot(routes: seq<RouteEvent>)
      requires Wiring() && Valid()
      modifies gateways
      ensures Valid()
      ensures gateways.entries == LearnedAlong(old(gateways.entries), routes)
    {
      LearnGateways(routes);
      SlicesKept();
      HealthKept();
    }

    method LearnGateways(routes: seq<RouteEvent>)
      modifies gateways
      ensures gateways.entries == LearnedAlong(old(gateways.entries), routes)
    {
      for i := 0 to |routes|
        invariant gateways.entries == LearnedAlong(old(gateways.entries), routes[..i])
      {
        assert routes[..i+1][..i] == routes[..i];
        gateways.Set(routes[i].iface, routes[i].family, routes[i].gateway);
      }
      assert routes[..|routes|] == routes;
    }

    method AbsorbLinks(republish: bool, links: seq<LinkEvent>) returns (c: Change)
      requires Wiring() && Valid()
      modifies health, health.repr
      ensures Valid()
      ensures health.view == LinkedAlong(old(health.view), links)
      ensures forall n :: n in c.flipped <==> n in FlipsAlong(old(health.view), links)
      ensures c.republish <==> republish || TransitionAlong(old(health.view), links)
      ensures c.flipped != [] ==> c.republish
    {
      c := Change([], republish);
      for i := 0 to |links|
        invariant Valid()
        invariant health.view == LinkedAlong(old(health.view), links[..i])
        invariant forall n :: n in c.flipped <==> n in FlipsAlong(old(health.view), links[..i])
        invariant c.republish <==> republish || TransitionAlong(old(health.view), links[..i])
        invariant c.flipped != [] ==> c.republish
      {
        assert links[..i+1][..i] == links[..i];
        var more := AbsorbLink(links[i]);
        c := Change(c.flipped + more.flipped, c.republish || more.republish);
      }
      assert links[..|links|] == links;
    }

    // A pass that began at p has observed the WANs reached on every Group, and
    // wan on every Group but those to do.
    ghost predicate ObservingSince(p: Start, f: Family, reached: set<string>, wan: string, todo: set<string>, due: bool)
      reads this, kernel, gateways, health, writer
    {
      Observing(World(), cfg, health.view, p, f, reached, wan, todo, slices, due, writer.reliable, writer.published)
    }

    method ObserveGroup(g: string, wan: string, f: Family, ghost p: Start, ghost reached: set<string>, ghost todo: set<string>,
                        ghost due: bool)
      returns (ghost due': bool)
      requires Wiring() && Valid() && Wired(g) && g in todo && wan !in reached
      requires ObservingSince(p, f, reached, wan, todo, due)
      modifies this`vacated, this`slices, kernel`routes, kernel`flushes, hooks, writer`published, groupObjects
      ensures Valid() && ObservingSince(p, f, reached, wan, todo - {g}, due')
    {
      ghost var before, file := slices, writer.published;
      CallObserve(g, wan, f);
      due' := due || CommitMade(before[g].group, slices[g].group).Some?;
      ObservedNext(g, wan, f, p, reached, todo, before, due, file);
    }

    lemma ObservedNext(g: string, wan: string, f: Family, p: Start, reached: set<string>, todo: set<string>,
                       before: map<string, Slice>, due: bool, file: Option<Snapshot>)
      requires cfg.Valid() && g in cfg.groups && g in todo && wan !in reached && StepOf(g, Call.RouteObserved(wan, f), before)
      requires Observing(World(), cfg, health.view, p, f, reached, wan, todo, before, due, writer.reliable, file)
      requires StateWritten(CommitMade(before[g].group, slices[g].group).Some?, file)
      ensures ObservingSince(p, f, reached, wan, todo - {g}, due || CommitMade(before[g].group, slices[g].group).Some?)
    {
      ObservedOneMore(World(), cfg, health.view, p, f, reached, wan, todo, before, due, writer.reliable, file,
                      g, slices, writer.published);
    }

    method CallObserve(g: string, wan: string, f: Family)
      requires Wiring() && Valid() && Wired(g)
      modifies this`vacated, this`slices, kernel`routes, kernel`flushes, hooks, writer`published, groups[g]
      ensures Valid() && World() == old(World())
      ensures StepOf(g, Call.RouteObserved(wan, f), old(slices))
      ensures StateWritten(CommitMade(old(slices)[g].group, slices[g].group).Some?, old(writer.published))
    {
      var committed, o := MoveByRoute(g, wan, f);
      PublishMove(g, committed, Call.RouteObserved(wan, f), o);
    }

    method ObserveWan(wan: string, f: Family, ghost p: Start, ghost reached: set<string>, ghost due: bool) returns (ghost due': bool)
      requires Wiring() && Valid() && wan !in reached && ObservingSince(p, f, reached, wan, groups.Keys, due)
      modifies this`vacated, this`slices, kernel`routes, kernel`flushes, hooks, writer`published, groupObjects
      ensures Valid() && ObservingSince(p, f, reached, wan, {}, due')
    {
      due' := due;
      var todo := groups.Keys;
      while todo != {}
        invariant todo <= groups.Keys
        invariant Valid() && ObservingSince(p, f, reached, wan, todo, due')
        decreases todo
      {
        var g :| g in todo;
        assert Wired(g);
        due' := ObserveGroup(g, wan, f, p, reached, todo, due');
        todo := todo - {g};
      }
    }

    // One pass over the Groups for each WAN that shares the interface.
    method ObserveInterface(iface: string, f: Family, ghost p: Start) returns (ghost due: bool)
      requires Wiring() && Valid() && ObservingSince(p, f, {}, "", groups.Keys, false)
      modifies this`vacated, this`slices, kernel`routes, kernel`flushes, hooks, writer`published, groupObjects
      ensures Valid() && ObservingSince(p, f, OnInterface(cfg, iface, {}), "", groups.Keys, due)
    {
      due := false;
      var todo := cfg.wans.Keys;
      assert OnInterface(cfg, iface, todo) == {};
      while todo != {}
        invariant todo <= cfg.wans.Keys
        invariant Valid() && ObservingSince(p, f, OnInterface(cfg, iface, todo), "", groups.Keys, due)
        decreases todo
      {
        var wan :| wan in todo;
        due := ObserveIfOn(wan, iface, f, p, todo, due);
        todo := todo - {wan};
      }
    }

    method ObserveIfOn(wan: string, iface: string, f: Family, ghost p: Start, ghost todo: set<string>, ghost due: bool)
      returns (ghost due': bool)
      requires Wiring() && Valid() && wan in cfg.wans && wan in todo
      requires ObservingSince(p, f, OnInterface(cfg, iface, todo), "", groups.Keys, due)
      modifies this`vacated, this`slices, kernel`routes, kernel`flushes, hooks, writer`published, groupObjects
      ensures Valid() && ObservingSince(p, f, OnInterface(cfg, iface, todo - {wan}), "", groups.Keys, due')
    {
      ghost var reached := OnInterface(cfg, iface, todo);
      if cfg.wans[wan].iface != iface {
        assert OnInterface(cfg, iface, todo - {wan}) == reached;
        return due;
      }
      assert OnInterface(cfg, iface, todo - {wan}) == reached + {wan};
      SkippedWan(World(), cfg, health.view, p, f, reached, "", wan, slices, due, writer.reliable, writer.published);
      due' := ObserveWan(wan, f, p, reached, due);
      NextWan(World(), cfg, health.view, p, f, reached, wan, "", slices, due', writer.reliable, writer.published);
    }

    // One route step: the Gateway cache first, then the observation passes, then
    // State if the cache moved.
    method HandleRouteEvent(e: RouteEvent)
      requires Wiring() && Valid()
      modifies this`vacated, this`slices, kernel`routes, kernel`flushes, hooks, writer`published, groupObjects, gateways
      ensures Valid()
      ensures Step(Env(), old(View()), RouteSeen(e), View(), kernel.reliable, writer.reliable)
    {
      ghost var d := View();
      var moved := LearnAndKeep(e);
      ghost var p := Start(slices, false, writer.published);
      NothingObserved(World(), cfg, health.view, p, e.family, writer.reliable);
      ghost var due := ObserveInterface(e.iface, e.family, p);
      FinishRoute(e, moved, d, p, due);
    }

    method LearnAndKeep(e: RouteEvent) returns (moved: bool)
      requires Wiring() && Valid()
      modifies gateways
      ensures Valid()
      ensures gateways.entries == Learned(old(gateways.entries), e)
      ensures moved <==> GatewayMoved(old(gateways.entries), e)
    {
      moved := LearnGateway(e);
      SlicesKept();
      HealthKept();
    }

    method FinishRoute(e: RouteEvent, moved: bool, ghost d: DaemonView, ghost p: Start, ghost due: bool)
      requires Wiring() && Valid() && moved == GatewayMoved(d.gateways, e) && p == Start(d.slices, false, d.published)
      requires health.view == d.health && gateways.entries == Learned(d.gateways, e)
      requires ObservingSince(p, e.family, OnInterface(cfg, e.iface, {}), "", groups.Keys, due)
      modifies writer`published
      ensures Valid()
      ensures Step(Env(), d, RouteSeen(e), View(), kernel.reliable, writer.reliable)
    {
      ghost var passed := writer.published;
      PublishIf(moved);
      ObservedIsStep(Env(), d, e, p, due, View(), passed, kernel.reliable, writer.reliable);
    }

    method PublishIf(due: bool)
      requires Wiring() && Valid()
      modifies writer`published
      ensures Valid()
      ensures View() == old(View()).(published := writer.published)
      ensures FileHolds(writer.reliable, writer.published, due, Now(), old(writer.published))
    {
      if due {
        WriteStateSnapshot();
      }
    }

    method LearnGateway(e: RouteEvent) returns (moved: bool)
      modifies gateways
      ensures gateways.entries == Learned(old(gateways.entries), e)
      ensures moved <==> GatewayMoved(old(gateways.entries), e)
    {
      var prev := gateways.Get(e.iface, e.family);
      if e.isAdd {
        gateways.Set(e.iface, e.family, e.gateway);
      } else {
        gateways.Clear(e.iface, e.family);
      }
      moved := !prev.1 || !e.isAdd || prev.0 != e.gateway;
    }
  }
}
