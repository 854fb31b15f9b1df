// What every Group keeps, call by call: it intends the preferred healthy
// Member, and once settled its table holds that Member's routes.
module GroupInvariant {
  import opened Basics
  import opened Config
  import opened Selector
  import opened Apply
  import opened DecisionSpec
  import opened Failover
  import opened GroupHistory

  // Nothing left to do: no pending Decision and no due Repair.
  predicate Settled(v: GroupView) {
    v.pending.None? && !v.repairDue
  }

  // The table holds the WAN's exact route for every probed Family that has one.
  ghost predicate RoutesVia(w: World, wan: string, t: Table) {
    wan in w.wans
    && forall f: Family :: w.wans[wan].Probes(f) ==> Holds(t, f, RouteFor(w.wans[wan], w.gateways, w.indexOf, f))
  }

  ghost predicate Converged(w: World, s: Slice) {
    Settled(s.group) && s.group.selection.has ==> RoutesVia(w, s.group.selection.wan, s.table)
  }

  ghost predicate Sound(w: World, g: GroupConfig, healthy: set<string>, s: Slice)
    requires KeyedByWan(g.members)
  {
    && Past(w.wans, g, s)
    && Intent(s.group) == Choice(g.members, healthy)
    && (s.group.pending.Some? ==> s.group.pending.value.has)
    && (s.group.repairDue ==> s.group.selection.has)
    && Converged(w, s)
  }

  // A full Apply that succeeds leaves the WAN's routes in the table.
  lemma FullApplyConverges(w: World, wan: string, t: Table, t': Table)
    requires Applied(w.wans, w.gateways, w.indexOf, wan, [], t, t', true)
    ensures RoutesVia(w, wan, t')
  {
    forall f: Family | w.wans[wan].Probes(f) ensures Holds(t', f, RouteFor(w.wans[wan], w.gateways, w.indexOf, f)) {
      assert SlotWritten(w.wans[wan], w.gateways, w.indexOf, InScope(w.wans[wan], [], f), f, t, t', true);
    }
  }

  // Committing a pending target, whether Apply succeeds or not.
  lemma CommitKeeps(w: World, g: GroupConfig, s: Slice, o: Outcome, s': Slice)
    requires Past(w.wans, g, s) && s.group.pending.Some?
    requires var next := s.group.pending.value;
             Normal(next) && (next.has ==> next.wan in w.wans)
             && TableWritten(w, CommitApply(next), s.table, s'.table, o.ok)
    requires s.group.repairDue ==> s.group.selection.has
    requires var v' := Committed(s.group, o);
             var moved := s.(group := v', table := s'.table);
             s' == match CommitMade(s.group, v')
                   case None => moved
                   case Some(c) => PublishedSlice(w.wans, w.gateways, g, moved, c)
    ensures Past(w.wans, g, s') && Converged(w, s')
    ensures Intent(s'.group) == s.group.pending.value
    ensures s'.group.pending.Some? ==> s.group.pending.value.has && !o.ok
    ensures s'.group.repairDue ==> s'.group.selection.has && s'.group.pending.Some?
  {
    var next := s.group.pending.value;
    if !next.has || o.ok {
      var c := Commit(s.group.selection, next, o.at);
      PastGrows(w.wans, w.gateways, g, s, c, s');
      if next.has {
        FullApplyConverges(w, next.wan, s.table, s'.table);
      }
    }
  }

  // A slice whose Group was asked for a target and has not tried it yet.
  function Asked(s: Slice, target: Active): Slice {
    s.(group := s.group.(pending := Some(target), decisionsTotal := s.group.decisionsTotal + 1,
                         superseded := s.group.superseded + if s.group.pending.Some? then 1 else 0))
  }

  lemma AskedKeepsPast(wans: map<string, WanConfig>, g: GroupConfig, s: Slice, target: Active)
    requires Past(wans, g, s)
    ensures Past(wans, g, Asked(s, target))
  {
  }

  // Asking is the first half of a recompute that moves the target.
  lemma RecomputeIsAskThenCommit(w: World, g: GroupConfig, s: Slice, target: Active, o: Outcome, t: Table)
    requires target != Intent(s.group)
    ensures var a := Asked(s, target);
            var v' := Committed(a.group, o);
            SliceAfter(w, g, s, Recompute(target), o, t)
            == match CommitMade(a.group, v')
               case None => a.(group := v', table := t)
               case Some(c) => PublishedSlice(w.wans, w.gateways, g, a.(group := v', table := t), c)
  {
  }

  // Recomputing onto the target already intended does nothing.
  lemma SameTargetKeeps(w: World, g: GroupConfig, target: Active, s: Slice, s': Slice)
    requires target == Intent(s.group) && Called(w, g, Recompute(target), s, s')
    ensures s' == s
  {
  }

  lemma NewTargetKeeps(w: World, g: GroupConfig, target: Active, s: Slice, s': Slice)
    requires Past(w.wans, g, s) && target != Intent(s.group) && (s.group.repairDue ==> s.group.selection.has)
    requires Normal(target) && (target.has ==> target.wan in w.wans)
    requires Called(w, g, Recompute(target), s, s')
    ensures Past(w.wans, g, s') && Converged(w, s') && Intent(s'.group) == target
    ensures s'.group.pending.Some? ==> target.has
    ensures s'.group.repairDue ==> s'.group.selection.has
  {
    var o: Outcome :| s' == SliceAfter(w, g, s, Recompute(target), o, s'.table) && o.at > 0
                      && TableWritten(w, ApplyOf(s.group, Recompute(target)), s.table, s'.table, o.ok);
    AskedKeepsPast(w.wans, g, s, target);
    RecomputeIsAskThenCommit(w, g, s, target, o, s'.table);
    CommitKeeps(w, g, Asked(s, target), o, s');
  }

  lemma RecomputeKeeps(w: World, g: GroupConfig, healthy: set<string>, healthy': set<string>, s: Slice, s': Slice)
    requires KeyedByWan(g.members) && g.members.Keys <= w.wans.Keys
    requires Sound(w, g, healthy, s)
    requires Called(w, g, Recompute(Choice(g.members, healthy')), s, s')
    ensures Sound(w, g, healthy', s')
  {
    var target := Choice(g.members, healthy');
    if target == Intent(s.group) {
      SameTargetKeeps(w, g, target, s, s');
    } else {
      NewTargetKeeps(w, g, target, s, s');
    }
  }

  // A Repair rewrites every route of the Selection or stays due.
  lemma RepairKeeps(w: World, g: GroupConfig, healthy: set<string>, s: Slice, o: Outcome, s': Slice)
    requires KeyedByWan(g.members) && Sound(w, g, healthy, s) && s.group.pending.None? && s.group.repairDue && s.group.selection.wan in w.wans
    requires TableWritten(w, Some(ApplyCall(s.group.selection.wan, [])), s.table, s'.table, o.ok)
    requires s' == s.(group := Refreshed(s.group, o), table := s'.table)
    ensures Sound(w, g, healthy, s')
  {
    if o.ok {
      FullApplyConverges(w, s.group.selection.wan, s.table, s'.table);
    }
  }

  lemma PendingKeeps(w: World, g: GroupConfig, healthy: set<string>, wan: string, s: Slice, o: Outcome, s': Slice)
    requires KeyedByWan(g.members) && g.members.Keys <= w.wans.Keys && Sound(w, g, healthy, s) && s.group.pending.Some? && o.at > 0
    requires s' == SliceAfter(w, g, s, ProbeOf(wan), o, s'.table)
    requires TableWritten(w, ApplyOf(s.group, ProbeOf(wan)), s.table, s'.table, o.ok)
    ensures Sound(w, g, healthy, s')
  {
    if s.group.pending.value.wan == wan {
      CommitKeeps(w, g, s, o, s');
    }
  }

  lemma ProbeKeeps(w: World, g: GroupConfig, healthy: set<string>, wan: string, s: Slice, s': Slice)
    requires KeyedByWan(g.members) && g.members.Keys <= w.wans.Keys
    requires Sound(w, g, healthy, s)
    requires Called(w, g, ProbeOf(wan), s, s')
    ensures Sound(w, g, healthy, s')
  {
    var o: Outcome :| s' == SliceAfter(w, g, s, ProbeOf(wan), o, s'.table) && o.at > 0
                      && TableWritten(w, ApplyOf(s.group, ProbeOf(wan)), s.table, s'.table, o.ok);
    if s.group.pending.Some? {
      PendingKeeps(w, g, healthy, wan, s, o, s');
    } else if s.group.repairDue && s.group.selection.wan == wan {
      RepairKeeps(w, g, healthy, s, o, s');
    }
  }

  // Gateways that differ at most at one interface and Family.
  ghost predicate LearnedAt(w: World, w': World, iface: string, f: Family) {
    && w'.wans == w.wans && w'.indexOf == w.indexOf
    && forall wan, k :: wan in w.wans && (w.wans[wan].iface != iface || k != f) ==>
         RouteFor(w.wans[wan], w'.gateways, w'.indexOf, k) == RouteFor(w.wans[wan], w.gateways, w.indexOf, k)
  }

  // Rewriting the Family whose Gateway moved leaves every route right.
  lemma RefreshConverges(w: World, w': World, wan: string, f: Family, t: Table, t': Table)
    requires wan in w.wans && LearnedAt(w, w', w.wans[wan].iface, f) && RoutesVia(w, wan, t)
    requires Applied(w'.wans, w'.gateways, w'.indexOf, wan, [f], t, t', true)
    ensures RoutesVia(w', wan, t')
  {
    forall k: Family | w'.wans[wan].Probes(k)
      ensures Holds(t', k, RouteFor(w'.wans[wan], w'.gateways, w'.indexOf, k))
    {
      assert SlotWritten(w'.wans[wan], w'.gateways, w'.indexOf, InScope(w'.wans[wan], [f], k), k, t, t', true);
    }
  }

  // A refresh leaves the Selection where it is, with its routes or a Repair due.
  lemma RefreshKeeps(w: World, w': World, g: GroupConfig, f: Family, s: Slice, s': Slice)
    requires Past(w.wans, g, s) && s.group.pending.None? && s.group.selection.has && s.group.selection.wan in w.wans
    requires LearnedAt(w, w', w.wans[s.group.selection.wan].iface, f)
    requires Converged(w, s)
    requires Called(w', g, RouteObserved(s.group.selection.wan, f), s, s')
    ensures Past(w'.wans, g, s') && Converged(w', s')
    ensures s'.group.pending.None? && s'.group.selection == s.group.selection
  {
    var wan := s.group.selection.wan;
    var call := Call.RouteObserved(wan, f);
    var o: Outcome :| s' == SliceAfter(w', g, s, call, o, s'.table) && o.at > 0
                      && TableWritten(w', ApplyOf(s.group, call), s.table, s'.table, o.ok);
    if o.ok && s.group.repairDue {
      FullApplyConverges(w', wan, s.table, s'.table);
    } else if o.ok {
      RefreshConverges(w, w', wan, f, s.table, s'.table);
    }
  }

  // An observation that finds a pending target commits it.
  lemma ObservedCommitKeeps(w: World, w': World, g: GroupConfig, f: Family, s: Slice, s': Slice)
    requires w'.wans == w.wans && Past(w.wans, g, s) && s.group.pending.Some? && s.group.pending.value.has
    requires s.group.pending.value.wan in w.wans && (s.group.repairDue ==> s.group.selection.has)
    requires Called(w', g, RouteObserved(s.group.pending.value.wan, f), s, s')
    ensures Past(w'.wans, g, s') && Converged(w', s') && Intent(s'.group) == s.group.pending.value
    ensures s'.group.repairDue ==> s'.group.selection.has
  {
    var call := Call.RouteObserved(s.group.pending.value.wan, f);
    var o: Outcome :| s' == SliceAfter(w', g, s, call, o, s'.table) && o.at > 0
                      && TableWritten(w', ApplyOf(s.group, call), s.table, s'.table, o.ok);
    CommitKeeps(w', g, s, o, s');
  }

  // An observation repairs what its own Gateway change broke.
  lemma ObserveKeeps(w: World, w': World, g: GroupConfig, healthy: set<string>, iface: string, f: Family, s: Slice, s': Slice)
    requires KeyedByWan(g.members) && g.members.Keys <= w.wans.Keys
    requires Sound(w, g, healthy, s) && LearnedAt(w, w', iface, f)
    requires Intent(s.group).has && w.wans[Intent(s.group).wan].iface == iface
    requires Called(w', g, RouteObserved(Intent(s.group).wan, f), s, s')
    ensures Sound(w', g, healthy, s')
  {
    if s.group.pending.Some? {
      ObservedCommitKeeps(w, w', g, f, s, s');
    } else {
      RefreshKeeps(w, w', g, f, s, s');
    }
  }

  // A Group whose WAN is elsewhere is untouched by another's Gateway.
  lemma UntouchedKeeps(w: World, w': World, g: GroupConfig, healthy: set<string>, iface: string, f: Family, s: Slice)
    requires KeyedByWan(g.members) && g.members.Keys <= w.wans.Keys
    requires Sound(w, g, healthy, s) && LearnedAt(w, w', iface, f)
    requires Intent(s.group).has ==> w.wans[Intent(s.group).wan].iface != iface
    ensures Sound(w', g, healthy, s)
  {
    if Settled(s.group) && s.group.selection.has {
      var wan := s.group.selection.wan;
      assert RoutesVia(w, wan, s.table);
      forall k: Family | w'.wans[wan].Probes(k)
        ensures Holds(s.table, k, RouteFor(w'.wans[wan], w'.gateways, w'.indexOf, k))
      {
      }
    }
  }

  // A Group recomputed onto a target intends it, so recomputing again for the
  // same Health does nothing.
  lemma RecomputeTwice(w: World, g: GroupConfig, target: Active, s0: Slice, s: Slice, s': Slice)
    requires Called(w, g, Recompute(target), s0, s) && Called(w, g, Recompute(target), s, s')
    ensures s' == s
  {
    var o: Outcome :| s == SliceAfter(w, g, s0, Recompute(target), o, s.table) && o.at > 0
                      && TableWritten(w, ApplyOf(s0.group, Recompute(target)), s0.table, s.table, o.ok);
    assert Intent(s.group) == target;
  }

  // Observing for another WAN does nothing, and no observation moves the intent.
  lemma ObservedElsewhere(w: World, g: GroupConfig, wan: string, f: Family, s: Slice, s': Slice)
    requires Called(w, g, RouteObserved(wan, f), s, s')
    ensures Intent(s'.group) == Intent(s.group)
    ensures !Intent(s.group).has || Intent(s.group).wan != wan ==> s' == s
  {
  }

  // A Group after any calls, each with its own outcome.
  function AfterAll(v: GroupView, calls: seq<(Call, Outcome)>): GroupView {
    if calls == [] then v
    else
      var n := |calls| - 1;
      After(AfterAll(v, calls[..n]), calls[n].0, calls[n].1)
  }

  // The target of the last recompute, if any was made.
  function LastAsked(calls: seq<(Call, Outcome)>): Option<Active> {
    if calls == [] then None
    else
      var n := |calls| - 1;
      if calls[n].0.Recompute? then Some(calls[n].0.target) else LastAsked(calls[..n])
  }

  // Whatever fails and however often it is retried, a Group intends the target
  // of its last recompute; retries and observations only carry it out.
  lemma {:induction false} IntentIsTheLastAsked(v: GroupView, calls: seq<(Call, Outcome)>)
    ensures Intent(AfterAll(v, calls)) == if LastAsked(calls).Some? then LastAsked(calls).value else Intent(v)
  {
    if calls != [] {
      IntentIsTheLastAsked(v, calls[..|calls|-1]);
    }
  }
}
