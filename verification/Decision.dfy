// The Group object, proved to follow DecisionSpec; its routes are written by
// the Applier it shares with the other Groups.
module Decision {
  import opened Basics
  import opened Selector
  import opened Apply
  import opened DecisionSpec

  class Group {
    const cfg: GroupConfig
    const applier: Applier
    var selection: Active
    var selectionSince: nat
    var decisionsTotal: nat
    var pending: Option<Active>
    var repairDue: bool
    ghost var commits: seq<Commit>
    ghost var superseded: nat
    ghost var applies: nat

    ghost function View(): GroupView
      reads this
    {
      GroupView(selection, selectionSince, decisionsTotal, pending, repairDue, commits, superseded, applies)
    }

    constructor (cfg: GroupConfig, applier: Applier)
      ensures this.cfg == cfg && this.applier == applier
      ensures View() == NEW_GROUP
    {
      this.cfg, this.applier := cfg, applier;
      selection, selectionSince, decisionsTotal := NO_ACTIVE, 0, 0;
      pending, repairDue := None, false;
      commits, superseded, applies := [], 0, 0;
    }

    function CurrentIntent(): (a: Active)
      reads this
      ensures a == Intent(View())
    {
      if pending.Some? then pending.value else selection
    }

    // This Group's routing table.
    ghost function Routes(): Table
      reads applier.kernel
    {
      TableOf(applier.kernel.routes, cfg.table)
    }

    ghost function World(): World
      reads applier.kernel, applier.gateways
    {
      DecisionSpec.World(applier.wans, applier.gateways.entries, applier.kernel.indexOf, applier.kernel.reliable)
    }

    // No other Group's table is touched.
    ghost predicate OtherTablesKept(before: Tables)
      reads applier.kernel
    {
      forall t :: t != cfg.table ==> TableOf(applier.kernel.routes, t) == TableOf(before, t)
    }

    // Is the Recompute call onto the choice, for some Apply outcome; a Group
    // whose Strategy is unknown is left alone.
    method Recompute(members: seq<MemberHealth>, ghost healthy: set<string>)
      returns (committed: Option<Commit>, ghost o: Outcome)
      requires KeyedByWan(cfg.members) && Lists(cfg.members, healthy, members)
      modifies this, applier.kernel`routes
      ensures o.at > 0
      ensures cfg.strategy != PRIMARY_BACKUP ==> View() == old(View()) && Routes() == old(Routes())
      ensures cfg.strategy == PRIMARY_BACKUP ==>
                var call := Call.Recompute(Choice(cfg.members, healthy));
                View() == After(old(View()), call, o)
                && TableWritten(World(), ApplyOf(old(View()), call), old(Routes()), Routes(), o.ok)
      ensures OtherTablesKept(old(applier.kernel.routes))
      ensures committed == CommitMade(old(View()), View())
    {
      var r := Select(cfg, members, healthy);
      o := Outcome(true, 1);
      if r == UnknownStrategy || r.active == CurrentIntent() {
        return None, o;
      }
      superseded := superseded + if pending.Some? then 1 else 0;
      pending := Some(r.active);
      decisionsTotal := decisionsTotal + 1;
      committed, o := Commit();
    }

    // A Probe cycle retries a pending Decision onto wan, or a due Repair of it.
    method Probe(wan: string) returns (committed: Option<Commit>, ghost o: Outcome)
      modifies this, applier.kernel`routes
      ensures o.at > 0
      ensures View() == After(old(View()), ProbeOf(wan), o)
      ensures TableWritten(World(), ApplyOf(old(View()), ProbeOf(wan)), old(Routes()), Routes(), o.ok)
      ensures OtherTablesKept(old(applier.kernel.routes))
      ensures committed == CommitMade(old(View()), View())
    {
      o := Outcome(true, 1);
      committed := None;
      if pending != None {
        if !pending.value.has || pending.value.wan != wan {
          return;
        }
        committed, o := Commit();
      } else if repairDue && selection.wan == wan {
        o := Refresh([]);
      }
    }

    // Is the RouteObserved call, for some Apply outcome: nothing unless the
    // Group intends wan, else one commit attempt or one rewrite.
    method Observe(wan: string, family: Family) returns (committed: Option<Commit>, ghost o: Outcome)
      modifies this, applier.kernel`routes
      ensures o.at > 0
      ensures View() == After(old(View()), Call.RouteObserved(wan, family), o)
      ensures TableWritten(World(), ApplyOf(old(View()), Call.RouteObserved(wan, family)), old(Routes()), Routes(), o.ok)
      ensures OtherTablesKept(old(applier.kernel.routes))
      ensures committed == CommitMade(old(View()), View())
    {
      o := Outcome(true, 1);
      committed := None;
      var want := CurrentIntent();
      if !want.has || want.wan != wan {
        return;
      }
      if pending != None {
        committed, o := Commit();
      } else {
        o := Refresh([family]);
      }
    }

    method State() returns (s: GroupState)
      ensures s == GroupStateOf(cfg, View())
    {
      s := GroupState(cfg.strategy, if selection.has then Some(selection.wan) else None,
                      if selectionSince != 0 then Some(selectionSince) else None, decisionsTotal);
    }

    // Is Refreshed, for some Apply outcome; a due Repair widens the rewrite to
    // every Family.
    method Refresh(families: seq<Family>) returns (ghost o: Outcome)
      modifies this`repairDue, this`applies, applier.kernel`routes
      ensures o.at > 0
      ensures View() == Refreshed(old(View()), o)
      ensures TableWritten(World(), Some(ApplyCall(selection.wan, if old(repairDue) then [] else families)), old(Routes()), Routes(), o.ok)
      ensures OtherTablesKept(old(applier.kernel.routes))
    {
      var fams := if repairDue then [] else families;
      var ok := applier.ApplyRoutes(cfg.table, selection.wan, fams);
      applies := applies + 1;
      o := Outcome(ok, 1);
      if !ok {
        repairDue := true;
        return;
      }
      if repairDue {
        repairDue := false;
      }
    }

    // Applies the pending Selection; on success it becomes the Selection.
    method Commit() returns (committed: Option<Commit>, ghost o: Outcome)
      requires pending.Some?
      modifies this, applier.kernel`routes
      ensures o.at > 0
      ensures View() == Committed(old(View()), o)
      ensures TableWritten(World(), CommitApply(old(pending).value), old(Routes()), Routes(), o.ok)
      ensures OtherTablesKept(old(applier.kernel.routes))
      ensures committed == CommitMade(old(View()), View())
    {
      var next := pending.value;
      var at: nat :| at > 0;
      o := Outcome(true, at);
      if next.has {
        var ok := applier.ApplyRoutes(cfg.table, next.wan, []);
        applies := applies + 1;
        o := Outcome(ok, at);
        if !ok {
          return None, o;
        }
      }
      var c := DecisionSpec.Commit.Commit(selection, next, at);
      selection := next;
      pending := None;
      repairDue := false;
      if c.Event() != NoEvent {
        selectionSince := at;
      }
      commits := commits + [c];
      committed := Some(c);
    }
  }
}
