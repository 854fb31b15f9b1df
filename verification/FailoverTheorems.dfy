// What a reader of the daemon relies on, over whole runs.
module FailoverTheorems {
  import opened Basics
  import opened Selector
  import opened HealthSpec
  import opened DecisionSpec
  import opened Failover
  import opened GroupHistory
  import opened GroupInvariant
  import opened FailoverRuns

  // In every reachable state a Group with nothing left to do has selected the
  // (priority, name)-least healthy Member, or nothing if none is healthy, and
  // its table holds that WAN's exact route for every probed Family that has one.
  lemma SettledGroupsAreConverged(env: Setting, trace: seq<DaemonView>, events: seq<DaemonEvent>, i: nat, g: string)
    requires env.cfg.Valid() && IsRun(env, trace, events) && i < |trace|
    requires g in env.cfg.groups && g in trace[i].slices && Settled(trace[i].slices[g].group)
    ensures IsChoice(env.cfg.groups[g].members, HealthySet(trace[i].health), trace[i].slices[g].group.selection)
    ensures trace[i].slices[g].group.selection.has ==>
              RoutesVia(env.WorldFor(trace[i].gateways, false), trace[i].slices[g].group.selection.wan, trace[i].slices[g].table)
  {
    RunsAreSound(env, trace, events, i);
    assert GroupSound(env, trace[i], g);
  }

  // Settled or not, a Group always intends the choice a recompute from scratch
  // would make, and a pending target always has a WAN.
  lemma IntentIsAlwaysTheChoice(env: Setting, trace: seq<DaemonView>, events: seq<DaemonEvent>, i: nat, g: string)
    requires env.cfg.Valid() && IsRun(env, trace, events) && i < |trace|
    requires g in env.cfg.groups
    ensures g in trace[i].slices
    ensures Intent(trace[i].slices[g].group) == Choice(env.cfg.groups[g].members, HealthySet(trace[i].health))
    ensures trace[i].slices[g].group.pending.Some? ==> trace[i].slices[g].group.pending.value.has
    ensures trace[i].slices[g].group.repairDue ==> trace[i].slices[g].group.selection.has
  {
    RunsAreSound(env, trace, events, i);
    assert GroupSound(env, trace[i], g);
  }

  // Recomputing a Group the event did not affect would do nothing at all, so
  // recomputing only the affected Groups is recomputing every Group.
  lemma SkippedRecomputeIsIdentity(env: Setting, d: DaemonView, ev: DaemonEvent, g: string, w: World, s': Slice)
    requires env.cfg.Valid() && Inv(env, d) && g in env.cfg.groups
    requires env.cfg.groups[g].members.Keys * FlippedBy(d.health, ev) == {}
    ensures Called(w, env.cfg.groups[g], Recompute(Choice(env.cfg.groups[g].members, HealthySet(HealthAfter(d.health, ev)))),
                   d.slices[g], s')
            <==> s' == d.slices[g]
  {
    var cfg, s := env.cfg.groups[g], d.slices[g];
    assert GroupSound(env, d, g);
    UnflippedChoice(env, cfg, d.health, ev);
    var call := Recompute(Choice(cfg.members, HealthySet(HealthAfter(d.health, ev))));
    var o := Outcome(true, 1);
    assert SliceAfter(w, cfg, s, call, o, s.table) == s;
    assert Called(w, cfg, call, s, s);
  }

  // Every commit lands on the Member preferred at that moment, so never on one
  // the same event made unhealthy.
  lemma CommitsLandOnTheChoice(env: Setting, d: DaemonView, ev: DaemonEvent, d': DaemonView, g: string)
    requires env.cfg.Valid() && Inv(env, d) && Follows(env, d, ev, d') && (ev.Prime? ==> Unselected(d))
    requires g in env.cfg.groups
    ensures g in d.slices && g in d'.slices
    ensures var c := CommitMade(d.slices[g].group, d'.slices[g].group);
            c.Some? ==> IsChoice(env.cfg.groups[g].members, HealthySet(d'.health), c.value.after)
  {
    IntendsTheChoiceAfter(env, d, ev, d', g);
    CommitClearsPending(env, d, ev, d', g);
  }

  lemma IntendsTheChoiceAfter(env: Setting, d: DaemonView, ev: DaemonEvent, d': DaemonView, g: string)
    requires env.cfg.Valid() && Inv(env, d) && Follows(env, d, ev, d') && (ev.Prime? ==> Unselected(d))
    requires g in env.cfg.groups
    ensures g in d'.slices && IsChoice(env.cfg.groups[g].members, HealthySet(d'.health), Intent(d'.slices[g].group))
  {
    StepKeeps(env, d, ev, d');
    assert GroupSound(env, d', g);
  }

  ghost predicate AtMostOneEach(v: GroupView, v': GroupView) {
    && v.decisionsTotal <= v'.decisionsTotal <= v.decisionsTotal + 1
    && v.applies <= v'.applies <= v.applies + 1
    && |v.commits| <= |v'.commits| <= |v.commits| + 1
    && (CommitMade(v, v').Some? ==> v'.pending.None? && v'.selection == CommitMade(v, v').value.after)
  }

  lemma AfterAddsAtMostOne(v: GroupView, call: Call, o: Outcome)
    ensures AtMostOneEach(v, After(v, call, o))
  {
  }

  lemma OneCallAddsAtMostOne(w: World, g: GroupConfig, call: Option<Call>, s: Slice, s': Slice)
    requires SliceStep(w, g, call, s, s')
    ensures AtMostOneEach(s.group, s'.group)
  {
    if call.Some? {
      var o: Outcome :| s' == SliceAfter(w, g, s, call.value, o, s'.table);
      AfterAddsAtMostOne(s.group, call.value, o);
    }
  }

  lemma CommitClearsPending(env: Setting, d: DaemonView, ev: DaemonEvent, d': DaemonView, g: string)
    requires env.cfg.Valid() && Follows(env, d, ev, d') && g in env.cfg.groups
    ensures g in d.slices && g in d'.slices
    ensures var v, v' := d.slices[g].group, d'.slices[g].group;
            CommitMade(v, v').Some? ==> v'.pending.None? && v'.selection == CommitMade(v, v').value.after
  {
    var w := GroupOfStep(env, d, ev, d', g);
    OneCallAddsAtMostOne(w, env.cfg.groups[g], CallFor(env.cfg, env.cfg.groups[g], d.health, d.slices[g].group, ev),
                  d.slices[g], d'.slices[g]);
  }

  // One event, even the whole startup batch, makes at most one Decision and at
  // most one Apply call per Group.
  lemma AtMostOneDecisionPerEvent(env: Setting, d: DaemonView, ev: DaemonEvent, d': DaemonView, g: string)
    requires env.cfg.Valid() && Follows(env, d, ev, d') && g in env.cfg.groups
    ensures g in d.slices && g in d'.slices
    ensures var v, v' := d.slices[g].group, d'.slices[g].group;
            && v.decisionsTotal <= v'.decisionsTotal <= v.decisionsTotal + 1
            && v.applies <= v'.applies <= v.applies + 1
            && |v.commits| <= |v'.commits| <= |v.commits| + 1
  {
    var w := GroupOfStep(env, d, ev, d', g);
    OneCallAddsAtMostOne(w, env.cfg.groups[g], CallFor(env.cfg, env.cfg.groups[g], d.health, d.slices[g].group, ev),
                  d.slices[g], d'.slices[g]);
  }

  // ---- History

  lemma PastOfRun(env: Setting, trace: seq<DaemonView>, events: seq<DaemonEvent>, i: nat, g: string)
    requires env.cfg.Valid() && IsRun(env, trace, events) && i < |trace| && g in env.cfg.groups
    ensures g in trace[i].slices && Past(env.cfg.wans, env.cfg.groups[g], trace[i].slices[g])
  {
    RunsAreSound(env, trace, events, i);
    assert GroupSound(env, trace[i], g);
  }

  // Over any run, the WANs flushed for a Group are those it departed from,
  // each once and in order, and the vacated WAN is the last one it left.
  lemma FlushedIsDeparted(env: Setting, trace: seq<DaemonView>, events: seq<DaemonEvent>, i: nat, g: string)
    requires env.cfg.Valid() && IsRun(env, trace, events) && i < |trace| && g in env.cfg.groups
    ensures g in trace[i].slices
    ensures trace[i].slices[g].flushed == Departures(WansOf(trace[i].slices[g].group.commits))
    ensures trace[i].slices[g].vacated
            == if trace[i].slices[g].group.selection.has then None else LastWan(trace[i].slices[g].group.commits)
  {
    PastOfRun(env, trace, events, i, g);
  }

  // Over any run, Hooks chain from none to the current Selection, whose start
  // is the last Hook's time, and the Decision count adds up.
  lemma HooksTellTheSelection(env: Setting, trace: seq<DaemonView>, events: seq<DaemonEvent>, i: nat, g: string)
    requires env.cfg.Valid() && IsRun(env, trace, events) && i < |trace| && g in env.cfg.groups
    ensures g in trace[i].slices && HooksChain(trace[i].slices[g].hooks)
    ensures var hooks, v := trace[i].slices[g].hooks, trace[i].slices[g].group;
            if hooks == [] then v.selection == NO_ACTIVE && v.selectionSince == 0
            else hooks[|hooks|-1].wanNew == v.selection.wan && hooks[|hooks|-1].at == v.selectionSince
                 && (hooks[|hooks|-1].event == EventDown <==> !v.selection.has)
    ensures var v := trace[i].slices[g].group;
            v.decisionsTotal == |v.commits| + v.superseded + if v.pending.Some? then 1 else 0
  {
    PastOfRun(env, trace, events, i, g);
    var s := trace[i].slices[g];
    HooksFormAChain(env.cfg.wans, env.cfg.groups[g], s.group.commits);
    BlankTells(s.hooks, s.group.selection);
    assert s.group.commits != [] ==> Normal(s.group.commits[|s.group.commits|-1].after);
  }
}
