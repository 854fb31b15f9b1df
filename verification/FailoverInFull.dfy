// What one event does to a Group, over whole runs, in the configuration's and
// the state's own fields: its Hooks, counts and flushes, what makes it act, and
// the routes written.
module FailoverInFull {
  import opened Basics
  import opened Config
  import opened Selector
  import opened HealthSpec
  import opened Apply
  import opened DecisionSpec
  import opened Failover
  import opened GroupHistory
  import opened GroupInvariant
  import opened FailoverRuns
  import opened FailoverTheorems

  // ---- Hooks

  // One side of a change of Selection, as a Hook shows it.
  predicate SideShown(wans: map<string, WanConfig>, gws: Gateways, a: Active, wan: string, iface: string,
                      families: seq<Family>, v4: Option<Address>, v6: Option<Address>)
  {
    && (if a.has then
          && wan == a.wan && wan in wans && iface == wans[wan].iface
          && families == (if wans[wan].targetsV4 != [] then [V4] else []) + if wans[wan].targetsV6 != [] then [V6] else []
        else wan == "" && iface == "" && families == [])
    && v4 == (if (iface, V4) in gws then gws[(iface, V4)] else None)
    && v6 == (if (iface, V6) in gws then gws[(iface, V6)] else None)
  }

  // h tells the change of a Group's Selection from before to after.
  predicate TellsChange(wans: map<string, WanConfig>, g: GroupConfig, gws: Gateways, before: Active, after: Active, h: Hook) {
    && h.at > 0 && h.group == g.name && h.table == g.table && h.mark == g.mark
    && h.event == (if !before.has then EventUp else if !after.has then EventDown else EventSwitch)
    && SideShown(wans, gws, before, h.wanOld, h.ifaceOld, h.familiesOld, h.gateways.v4Old, h.gateways.v6Old)
    && SideShown(wans, gws, after, h.wanNew, h.ifaceNew, h.familiesNew, h.gateways.v4New, h.gateways.v6New)
  }

  // None, or a configured WAN.
  predicate Known(wans: map<string, WanConfig>, a: Active) {
    if a.has then a.wan in wans else a.wan == ""
  }

  lemma HookInFull(wans: map<string, WanConfig>, gws: Gateways, g: GroupConfig, c: Commit)
    requires Known(wans, c.before) && Known(wans, c.after) && c.before != c.after && c.at > 0
    ensures c.Event() != NoEvent && TellsChange(wans, g, gws, c.before, c.after, HookOf(wans, gws, g, c))
  {
  }

  // A Group's Hooks after an event: one more if the Selection changed, telling
  // that change with the Gateways known after it.
  ghost predicate HookAdded(wans: map<string, WanConfig>, g: GroupConfig, gws: Gateways, before: Active, after: Active,
                            hooks: seq<Hook>, hooks': seq<Hook>)
  {
    if before == after then hooks' == hooks
    else
      && |hooks'| == |hooks| + 1 && hooks'[..|hooks|] == hooks
      && TellsChange(wans, g, gws, before, after, hooks'[|hooks|])
  }

  lemma CommitInFull(v: GroupView, call: Call, o: Outcome)
    ensures var v' := After(v, call, o);
            match CommitMade(v, v')
            case None => v'.selection == v.selection
            case Some(c) => c == Commit(v.selection, v'.selection, o.at)
  {
  }

  lemma PublishingAddsHook(wans: map<string, WanConfig>, gws: Gateways, g: GroupConfig, s: Slice, c: Commit)
    requires Known(wans, c.before) && Known(wans, c.after) && c.at > 0
    ensures HookAdded(wans, g, gws, c.before, c.after, s.hooks, PublishedSlice(wans, gws, g, s, c).hooks)
  {
    if c.before != c.after {
      HookInFull(wans, gws, g, c);
      assert (s.hooks + [HookOf(wans, gws, g, c)])[..|s.hooks|] == s.hooks;
    }
  }

  lemma CallAddsHook(w: World, g: GroupConfig, call: Option<Call>, s: Slice, s': Slice)
    requires SliceStep(w, g, call, s, s')
    requires Known(w.wans, s.group.selection) && Known(w.wans, s'.group.selection)
    ensures HookAdded(w.wans, g, w.gateways, s.group.selection, s'.group.selection, s.hooks, s'.hooks)
  {
    if call.Some? {
      var o: Outcome :| s' == SliceAfter(w, g, s, call.value, o, s'.table) && o.at > 0;
      var group := After(s.group, call.value, o);
      CommitInFull(s.group, call.value, o);
      if CommitMade(s.group, group).Some? {
        PublishingAddsHook(w.wans, w.gateways, g, s.(group := group, table := s'.table), CommitMade(s.group, group).value);
      }
    }
  }

  // What was selected is a configured WAN.
  lemma SelectionIsKnown(wans: map<string, WanConfig>, g: GroupConfig, s: Slice)
    requires Past(wans, g, s)
    ensures Known(wans, s.group.selection)
  {
    HooksFormAChain(wans, g, s.group.commits);
    if s.group.selection.has {
      var left := WansOf(s.group.commits);
      assert left[|left|-1] in left;
    }
  }

  lemma EventAddsHook(env: Setting, trace: seq<DaemonView>, events: seq<DaemonEvent>, i: nat, g: string)
    requires env.cfg.Valid() && IsRun(env, trace, events) && i < |events| && g in env.cfg.groups
    ensures AddedAt(env, trace, g, i)
  {
    var d, d' := trace[i], trace[i+1];
    PastOfRun(env, trace, events, i, g);
    PastOfRun(env, trace, events, i + 1, g);
    SelectionIsKnown(env.cfg.wans, env.cfg.groups[g], d.slices[g]);
    SelectionIsKnown(env.cfg.wans, env.cfg.groups[g], d'.slices[g]);
    var w := GroupOfStep(env, d, events[i], d', g);
    CallAddsHook(w, env.cfg.groups[g], CallFor(env.cfg, env.cfg.groups[g], d.health, d.slices[g].group, events[i]),
                 d.slices[g], d'.slices[g]);
  }

  ghost predicate AddedAt(env: Setting, trace: seq<DaemonView>, g: string, i: nat) {
    && i + 1 < |trace| && g in env.cfg.groups && g in trace[i].slices && g in trace[i+1].slices
    && HookAdded(env.cfg.wans, env.cfg.groups[g], trace[i+1].gateways,
                 trace[i].slices[g].group.selection, trace[i+1].slices[g].group.selection,
                 trace[i].slices[g].hooks, trace[i+1].slices[g].hooks)
  }

  // From none, Hooks are added one by one.
  ghost predicate HooksBuildUp(env: Setting, trace: seq<DaemonView>, g: string) {
    && |trace| > 0 && g in trace[0].slices && trace[0].slices[g].hooks == []
    && forall i :: 0 <= i < |trace| - 1 ==> AddedAt(env, trace, g, i)
  }

  lemma RunBuildsHooks(env: Setting, trace: seq<DaemonView>, events: seq<DaemonEvent>, g: string)
    requires env.cfg.Valid() && IsRun(env, trace, events) && g in env.cfg.groups
    ensures HooksBuildUp(env, trace, g)
  {
    forall i | 0 <= i < |events| ensures AddedAt(env, trace, g, i) {
      EventAddsHook(env, trace, events, i, g);
    }
  }

  // The event that submitted Hook k, for a Hook the last event kept or added.
  lemma AddedOrKept(wans: map<string, WanConfig>, g: GroupConfig, gws: Gateways, before: Active, after: Active,
                    hooks: seq<Hook>, hooks': seq<Hook>, k: nat)
    requires HookAdded(wans, g, gws, before, after, hooks, hooks') && k < |hooks'|
    ensures if k < |hooks| then hooks'[k] == hooks[k]
            else |hooks| == k && before != after && TellsChange(wans, g, gws, before, after, hooks'[k])
  {
    if before != after && k < |hooks| {
      assert hooks'[k] == hooks'[..|hooks|][k];
    }
  }

  // h became the Group's Hook k during event i, which changed its Selection;
  // it tells that change, with the Gateways known right after the event.
  ghost predicate SubmittedAt(env: Setting, trace: seq<DaemonView>, g: string, i: nat, k: nat, h: Hook) {
    && i + 1 < |trace| && g in env.cfg.groups && g in trace[i].slices && g in trace[i+1].slices
    && |trace[i].slices[g].hooks| == k
    && trace[i].slices[g].group.selection != trace[i+1].slices[g].group.selection
    && TellsChange(env.cfg.wans, env.cfg.groups[g], trace[i+1].gateways,
                   trace[i].slices[g].group.selection, trace[i+1].slices[g].group.selection, h)
  }

  lemma {:induction false} HookWasAdded(env: Setting, trace: seq<DaemonView>, n: nat, g: string, k: nat) returns (i: nat)
    requires HooksBuildUp(env, trace, g) && n < |trace|
    requires g in trace[n].slices && k < |trace[n].slices[g].hooks|
    ensures i < n && SubmittedAt(env, trace, g, i, k, trace[n].slices[g].hooks[k])
  {
    i := n - 1;
    assert AddedAt(env, trace, g, i);
    AddedOrKept(env.cfg.wans, env.cfg.groups[g], trace[n].gateways, trace[i].slices[g].group.selection,
                trace[n].slices[g].group.selection, trace[i].slices[g].hooks, trace[n].slices[g].hooks, k);
    if k < |trace[i].slices[g].hooks| {
      i := HookWasAdded(env, trace, n - 1, g, k);
    }
  }

  // Over any run every Hook was submitted during one event that changed the
  // Group's Selection, and tells that change; nothing rewrites it later.
  lemma HooksTellTheirChange(env: Setting, trace: seq<DaemonView>, events: seq<DaemonEvent>, n: nat, g: string, k: nat)
    returns (i: nat)
    requires env.cfg.Valid() && IsRun(env, trace, events) && n < |trace| && g in env.cfg.groups
    requires g in trace[n].slices && k < |trace[n].slices[g].hooks|
    ensures i < n && SubmittedAt(env, trace, g, i, k, trace[n].slices[g].hooks[k])
  {
    RunBuildsHooks(env, trace, events, g);
    i := HookWasAdded(env, trace, n, g, k);
  }

  // ---- Decisions and flushes

  // One event's mark on a Group's counters: a Decision exactly when what it
  // intends moves, and a new date exactly when its Selection does.
  ghost predicate Counted(v: GroupView, v': GroupView) {
    && (var was := if v.pending.Some? then v.pending.value else v.selection;
        var now := if v'.pending.Some? then v'.pending.value else v'.selection;
        v'.decisionsTotal == v.decisionsTotal + if now == was then 0 else 1)
    && (if v'.selection == v.selection then v'.selectionSince == v.selectionSince else v'.selectionSince > 0)
  }

  // The WANs flushed during one event, and the one then remembered as vacated:
  // a switch flushes the WAN it leaves; going down remembers it, and coming up
  // elsewhere flushes it then.
  ghost predicate TrafficMoved(before: Active, after: Active, s: Slice, s': Slice) {
    && s'.flushed == s.flushed + (if before.has && after.has && before.wan != after.wan then [before.wan]
                                  else if !before.has && after.has && s.vacated.Some? && s.vacated.value.wan != after.wan
                                  then [s.vacated.value.wan] else [])
    && s'.vacated == (if before.has && !after.has then Some(before)
                      else if !before.has && after.has then None else s.vacated)
  }

  lemma CallCounts(wans: map<string, WanConfig>, v: GroupView, call: Call, o: Outcome)
    requires Known(wans, v.selection) && Known(wans, After(v, call, o).selection) && o.at > 0
    ensures Counted(v, After(v, call, o))
  {
  }

  lemma PublishingMovesTraffic(wans: map<string, WanConfig>, gws: Gateways, g: GroupConfig, s: Slice, c: Commit)
    requires Known(wans, c.before) && Known(wans, c.after) && (s.vacated.Some? ==> s.vacated.value.wan in wans)
    ensures TrafficMoved(c.before, c.after, s, PublishedSlice(wans, gws, g, s, c))
  {
  }

  lemma CallMovesTraffic(w: World, g: GroupConfig, call: Option<Call>, s: Slice, s': Slice)
    requires SliceStep(w, g, call, s, s') && (s.vacated.Some? ==> s.vacated.value.wan in w.wans)
    requires Known(w.wans, s.group.selection) && Known(w.wans, s'.group.selection)
    ensures Counted(s.group, s'.group) && TrafficMoved(s.group.selection, s'.group.selection, s, s')
  {
    if call.Some? {
      var o: Outcome :| s' == SliceAfter(w, g, s, call.value, o, s'.table) && o.at > 0;
      var group := After(s.group, call.value, o);
      CallCounts(w.wans, s.group, call.value, o);
      CommitInFull(s.group, call.value, o);
      if CommitMade(s.group, group).Some? {
        PublishingMovesTraffic(w.wans, w.gateways, g, s.(group := group, table := s'.table), CommitMade(s.group, group).value);
      }
    }
  }

  lemma VacatedIsKnown(wans: map<string, WanConfig>, g: GroupConfig, s: Slice)
    requires Past(wans, g, s) && s.vacated.Some?
    ensures s.vacated.value.wan in wans
  {
    var left := WansOf(s.group.commits);
    assert left[|left|-1] in left;
  }

  // Over any run, what one event adds to a Group's Decision count, dates and
  // flushes is read off its intent and Selection before and after.
  lemma EventsCountAndFlush(env: Setting, trace: seq<DaemonView>, events: seq<DaemonEvent>, i: nat, g: string)
    requires env.cfg.Valid() && IsRun(env, trace, events) && i < |events| && g in env.cfg.groups
    ensures g in trace[i].slices && g in trace[i+1].slices
    ensures var s, s' := trace[i].slices[g], trace[i+1].slices[g];
            Counted(s.group, s'.group) && TrafficMoved(s.group.selection, s'.group.selection, s, s')
  {
    var d, d' := trace[i], trace[i+1];
    PastOfRun(env, trace, events, i, g);
    PastOfRun(env, trace, events, i + 1, g);
    SelectionIsKnown(env.cfg.wans, env.cfg.groups[g], d.slices[g]);
    SelectionIsKnown(env.cfg.wans, env.cfg.groups[g], d'.slices[g]);
    if d.slices[g].vacated.Some? {
      VacatedIsKnown(env.cfg.wans, env.cfg.groups[g], d.slices[g]);
    }
    var w := GroupOfStep(env, d, events[i], d', g);
    CallMovesTraffic(w, env.cfg.groups[g], CallFor(env.cfg, env.cfg.groups[g], d.health, d.slices[g].group, events[i]),
                     d.slices[g], d'.slices[g]);
  }

  // ---- What makes a Group act

  // A result of the WAN a Group intends makes it retry what is pending or due;
  // a route event on that WAN's interface makes it rewrite.
  predicate ActionDue(wans: map<string, WanConfig>, v: GroupView, ev: DaemonEvent) {
    var want := if v.pending.Some? then v.pending.value else v.selection;
    && want.has && want.wan in wans
    && match ev
       case ProbeEvent(r) => r.wan == want.wan && (v.pending.Some? || v.repairDue)
       case RouteSeen(e) => wans[want.wan].iface == e.iface
       case _ => false
  }

  // What one event does to a Group: one Apply if its intent moved onto a WAN or
  // an action is due, and else nothing at all unless its intent moved to none.
  ghost predicate ActsForCause(wans: map<string, WanConfig>, s: Slice, ev: DaemonEvent, s': Slice) {
    var v, v' := s.group, s'.group;
    var was := if v.pending.Some? then v.pending.value else v.selection;
    var now := if v'.pending.Some? then v'.pending.value else v'.selection;
    if now != was then v'.applies == v.applies + if now.has then 1 else 0
    else if ActionDue(wans, v, ev) then v'.applies == v.applies + 1
    else s' == s
  }

  lemma RecomputeActs(w: World, g: GroupConfig, target: Active, s: Slice, s': Slice)
    requires Called(w, g, Recompute(target), s, s')
    ensures Intent(s'.group) == target
    ensures if target == Intent(s.group) then s' == s else s'.group.applies == s.group.applies + if target.has then 1 else 0
  {
  }

  lemma ProbeActs(w: World, g: GroupConfig, wan: string, s: Slice, s': Slice)
    requires Called(w, g, ProbeOf(wan), s, s')
    requires s.group.pending.Some? ==> s.group.pending.value.has
    ensures Intent(s'.group) == Intent(s.group)
    ensures if Intent(s.group).wan == wan && (s.group.pending.Some? || s.group.repairDue)
            then s'.group.applies == s.group.applies + 1 else s' == s
  {
  }

  lemma ObservationActs(w: World, g: GroupConfig, wan: string, f: Family, s: Slice, s': Slice)
    requires Called(w, g, RouteObserved(wan, f), s, s') && Intent(s.group).has && Intent(s.group).wan == wan
    ensures Intent(s'.group) == Intent(s.group) && s'.group.applies == s.group.applies + 1
  {
  }

  // What can make a Group act flips nothing while its intent stays: a result
  // flips at most its own WAN, and the WAN intended is healthy before and after.
  lemma DueFlipsNothing(wans: map<string, WanConfig>, cfg: GroupConfig, h: HealthView, ev: DaemonEvent, v: GroupView)
    requires KeyedByWan(cfg.members) && ActionDue(wans, v, ev)
    requires Intent(v) == Choice(cfg.members, HealthySet(h)) == Choice(cfg.members, HealthySet(HealthAfter(h, ev)))
    ensures FlippedBy(h, ev) == {}
  {
    var want := Intent(v).wan;
    assert want in HealthySet(h) && want in HealthySet(HealthAfter(h, ev));
    assert ev.ProbeEvent? ==> FlippedBy(h, ev) <= {want};
  }

  lemma CallActs(w: World, env: Setting, g: GroupConfig, h: HealthView, ev: DaemonEvent, s: Slice, s': Slice)
    requires KeyedByWan(g.members) && g.members.Keys <= env.cfg.wans.Keys
    requires SliceStep(w, g, CallFor(env.cfg, g, h, s.group, ev), s, s')
    requires Intent(s.group) == Choice(g.members, HealthySet(h))
    requires s.group.pending.Some? ==> s.group.pending.value.has
    requires s.group.repairDue ==> s.group.selection.has
    ensures ActsForCause(env.cfg.wans, s, ev, s')
  {
    var healthy' := HealthySet(HealthAfter(h, ev));
    if g.members.Keys * FlippedBy(h, ev) != {} {
      RecomputeActs(w, g, Choice(g.members, healthy'), s, s');
      if ActionDue(env.cfg.wans, s.group, ev) && Intent(s.group) == Choice(g.members, healthy') {
        DueFlipsNothing(env.cfg.wans, g, h, ev, s.group);
        assert false;
      }
    } else {
      QuietCallActs(w, env, g, h, ev, s, s');
    }
  }

  lemma QuietCallActs(w: World, env: Setting, g: GroupConfig, h: HealthView, ev: DaemonEvent, s: Slice, s': Slice)
    requires KeyedByWan(g.members) && g.members.Keys <= env.cfg.wans.Keys
    requires g.members.Keys * FlippedBy(h, ev) == {}
    requires SliceStep(w, g, CallFor(env.cfg, g, h, s.group, ev), s, s')
    requires Intent(s.group).has ==> Intent(s.group).wan in g.members
    requires s.group.pending.Some? ==> s.group.pending.value.has
    requires s.group.repairDue ==> s.group.selection.has
    ensures ActsForCause(env.cfg.wans, s, ev, s')
  {
    var want := Intent(s.group);
    match ev {
      case ProbeEvent(r) =>
        if r.wan in FlippedBy(h, ev) {
          assert want.has && want.wan == r.wan ==> r.wan in g.members.Keys * FlippedBy(h, ev);
        } else {
          ProbeActs(w, g, r.wan, s, s');
        }
      case RouteSeen(e) =>
        if want.has && want.wan in env.cfg.wans && env.cfg.wans[want.wan].iface == e.iface {
          ObservationActs(w, g, want.wan, e.family, s, s');
        }
      case _ =>
    }
  }

  // Over any run a Group acts for a cause and for nothing else: its choice
  // moved, what it still owes the WAN a result came from, or a route event on
  // the interface of the WAN it intends.
  lemma GroupsActForCause(env: Setting, trace: seq<DaemonView>, events: seq<DaemonEvent>, i: nat, g: string)
    requires env.cfg.Valid() && IsRun(env, trace, events) && i < |events| && g in env.cfg.groups
    ensures g in trace[i].slices && g in trace[i+1].slices
    ensures ActsForCause(env.cfg.wans, trace[i].slices[g], events[i], trace[i+1].slices[g])
  {
    var d, d' := trace[i], trace[i+1];
    IntentIsAlwaysTheChoice(env, trace, events, i, g);
    var w := GroupOfStep(env, d, events[i], d', g);
    CallActs(w, env, env.cfg.groups[g], d.health, events[i], d.slices[g], d'.slices[g]);
  }

  // ---- Route writes

  // How a Group's table may differ after an event, in one Family's slot. A slot
  // that changed belongs to the WAN the Group now intends: one that probes the
  // Family and is point-to-point or has a known Gateway. With nothing left to
  // do, the slot then holds that WAN's exact route.
  ghost predicate SlotFollows(wans: map<string, WanConfig>, gws: Gateways, indexOf: string -> int, v: GroupView,
                              t: Table, t': Table, f: Family)
  {
    var a := if v.pending.Some? then v.pending.value else v.selection;
    ((f in t) != (f in t') || (f in t && t[f] != t'[f])) ==>
      a.has && a.wan in wans
      && var wan := wans[a.wan];
         && (if f == V4 then wan.targetsV4 else wan.targetsV6) != []
         && (wan.pointToPoint || ((wan.iface, f) in gws && gws[(wan.iface, f)] != None))
         && (v.pending.None? && !v.repairDue ==>
               f in t' && t'[f] == Route(indexOf(wan.iface), if wan.pointToPoint then None else gws[(wan.iface, f)]))
  }

  // A call applies the WAN its Group intends afterwards, and settles the Group
  // only if that went well.
  lemma AppliesTheIntent(v: GroupView, call: Call, o: Outcome)
    requires ApplyOf(v, call).Some? && (v.repairDue ==> v.selection.has)
    ensures var v' := After(v, call, o);
            Intent(v').has && Intent(v').wan == ApplyOf(v, call).value.wan && (Settled(v') ==> o.ok)
  {
  }

  lemma CallWritesSlot(w: World, g: GroupConfig, call: Option<Call>, s: Slice, s': Slice, f: Family)
    requires SliceStep(w, g, call, s, s') && (s.group.repairDue ==> s.group.selection.has)
    ensures SlotFollows(w.wans, w.gateways, w.indexOf, s'.group, s.table, s'.table, f)
  {
    if call.Some? {
      var o: Outcome :| s' == SliceAfter(w, g, s, call.value, o, s'.table) && o.at > 0
                        && TableWritten(w, ApplyOf(s.group, call.value), s.table, s'.table, o.ok);
      var apply := ApplyOf(s.group, call.value);
      if apply.Some? && apply.value.wan in w.wans {
        AppliesTheIntent(s.group, call.value, o);
        AppliedInFull(w.wans, w.gateways, w.indexOf, apply.value.wan, apply.value.families, s.table, s'.table, o.ok, f);
      }
    }
  }

  // Over any run no event adds, changes or removes the route of a WAN that does
  // not probe the Family or whose Gateway is needed and unknown.
  lemma WritesFollowTheGateways(env: Setting, trace: seq<DaemonView>, events: seq<DaemonEvent>, i: nat, g: string, f: Family)
    requires env.cfg.Valid() && IsRun(env, trace, events) && i < |events| && g in env.cfg.groups
    ensures g in trace[i].slices && g in trace[i+1].slices
    ensures SlotFollows(env.cfg.wans, trace[i+1].gateways, env.indexOf, trace[i+1].slices[g].group,
                        trace[i].slices[g].table, trace[i+1].slices[g].table, f)
  {
    var d, d' := trace[i], trace[i+1];
    IntentIsAlwaysTheChoice(env, trace, events, i, g);
    var w := GroupOfStep(env, d, events[i], d', g);
    CallWritesSlot(w, env.cfg.groups[g], CallFor(env.cfg, env.cfg.groups[g], d.health, d.slices[g].group, events[i]),
                   d.slices[g], d'.slices[g], f);
  }

  // A route event on a Group with nothing left to do rewrites its own Family
  // only.
  lemma RouteEventsKeepToTheirFamily(env: Setting, trace: seq<DaemonView>, events: seq<DaemonEvent>, i: nat, g: string,
                                     f: Family)
    requires env.cfg.Valid() && IsRun(env, trace, events) && i < |events| && g in env.cfg.groups
    requires events[i].RouteSeen? && events[i].route.family != f
    requires g in trace[i].slices && trace[i].slices[g].group.pending.None? && !trace[i].slices[g].group.repairDue
    ensures g in trace[i+1].slices
    ensures var t, t' := trace[i].slices[g].table, trace[i+1].slices[g].table;
            (f in t <==> f in t') && (f in t ==> t[f] == t'[f])
  {
    var d, d' := trace[i], trace[i+1];
    var w := GroupOfStep(env, d, events[i], d', g);
    RouteCall(env.cfg, env.cfg.groups[g], d.health, d.slices[g].group, events[i]);
    ObservedWritesOneFamily(w, env.cfg.groups[g],
                            CallFor(env.cfg, env.cfg.groups[g], d.health, d.slices[g].group, events[i]),
                            events[i].route.family, d.slices[g], d'.slices[g], f);
  }

  // A route event flips no WAN, so it only ever makes observations.
  lemma RouteCall(cfg: DaemonConfig, g: GroupConfig, h: HealthView, v: GroupView, ev: DaemonEvent)
    requires KeyedByWan(g.members) && ev.RouteSeen?
    ensures var call := CallFor(cfg, g, h, v, ev);
            call.Some? ==> call.value.RouteObserved? && call.value.family == ev.route.family
  {
    assert FlippedBy(h, ev) == {};
  }

  lemma ObservedWritesOneFamily(w: World, g: GroupConfig, call: Option<Call>, k: Family, s: Slice, s': Slice, f: Family)
    requires SliceStep(w, g, call, s, s') && Settled(s.group) && f != k
    requires call.Some? ==> call.value.RouteObserved? && call.value.family == k
    ensures SameSlot(s.table, s'.table, f)
  {
    if call.Some? {
      var o: Outcome :| s' == SliceAfter(w, g, s, call.value, o, s'.table)
                        && TableWritten(w, ApplyOf(s.group, call.value), s.table, s'.table, o.ok);
      var apply := ApplyOf(s.group, call.value);
      if apply.Some? && apply.value.wan in w.wans {
        AppliedInFull(w.wans, w.gateways, w.indexOf, apply.value.wan, apply.value.families, s.table, s'.table, o.ok, f);
      }
    }
  }
}
