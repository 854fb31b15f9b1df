// Recovery once kernel operations stop failing: whatever else happens, one
// Probe result of every WAN settles every Group.
module Recovery {
  import opened Basics
  import opened Config
  import opened Selector
  import opened Measurements
  import opened HealthSpec
  import opened DecisionSpec
  import opened Failover
  import opened GroupInvariant
  import opened FailoverRuns

  // ---- One call

  // Without failures a new target is committed at once; an old one is left be.
  lemma RecomputeCommits(w: World, g: GroupConfig, target: Active, s: Slice, s': Slice)
    requires w.reliable && (target.has ==> target.wan in w.wans)
    requires Called(w, g, Recompute(target), s, s')
    ensures if target == Intent(s.group) then s' == s else Settled(s'.group) && s'.group.selection == target
  {
    var o: Outcome :| s' == SliceAfter(w, g, s, Recompute(target), o, s'.table) && o.at > 0
                      && TableWritten(w, ApplyOf(s.group, Recompute(target)), s.table, s'.table, o.ok);
  }

  // A retry for the WAN a Group waits for settles it; any other leaves it be.
  lemma RetrySettles(w: World, g: GroupConfig, wan: string, s: Slice, s': Slice)
    requires w.reliable && Called(w, g, ProbeOf(wan), s, s')
    requires !Settled(s.group) ==> Intent(s.group).has && Intent(s.group).wan in w.wans
    ensures Settled(s'.group) || (s' == s && Intent(s.group).wan != wan)
  {
  }

  // An observation for the WAN a Group intends settles it.
  lemma ObservationSettles(w: World, g: GroupConfig, f: Family, s: Slice, s': Slice)
    requires w.reliable && Intent(s.group).has && Intent(s.group).wan in w.wans
    requires Called(w, g, Call.RouteObserved(Intent(s.group).wan, f), s, s')
    ensures Settled(s'.group)
  {
  }

  // The Choice after a flip differs from a Member the flip made unhealthy.
  lemma FlippedChoiceMoves(g: GroupConfig, h: HealthView, r: ProbeResult)
    requires KeyedByWan(g.members) && g.members.Keys * Flips(h, Probed(h, r)) != {}
    requires Choice(g.members, HealthySet(Probed(h, r))) == Choice(g.members, HealthySet(h))
    ensures var a := Choice(g.members, HealthySet(h)); a.has ==> a.wan != r.wan
  {
    var h', a := Probed(h, r), Choice(g.members, HealthySet(h));
    var n :| n in g.members.Keys * Flips(h, h');
    assert n == r.wan;
    assert a.has && a.wan == r.wan ==> r.wan in HealthySet(h) && r.wan in HealthySet(h');
  }

  // The WAN whose result an event brings.
  function HeardBy(ev: DaemonEvent): set<string> {
    if ev.ProbeEvent? then {ev.result.wan} else {}
  }

  // After a reliable event a Group is settled, or exactly as before and not
  // waiting for the result it brought.
  ghost predicate Answered(s: Slice, ev: DaemonEvent, s': Slice) {
    Settled(s'.group) || (s' == s && Intent(s.group).wan !in HeardBy(ev))
  }

  // What a Group's slice is known to be between events.
  ghost predicate Waiting(cfg: DaemonConfig, g: GroupConfig, h: HealthView, s: Slice) {
    && KeyedByWan(g.members) && g.members.Keys <= cfg.wans.Keys
    && Intent(s.group) == Choice(g.members, HealthySet(h))
    && (!Settled(s.group) ==> Intent(s.group).has)
  }

  lemma RecomputeAnswers(env: Setting, g: GroupConfig, h: HealthView, ev: DaemonEvent, w: World, s: Slice, s': Slice)
    requires w.reliable && w.wans == env.cfg.wans && Waiting(env.cfg, g, h, s) && !ev.Prime?
    requires g.members.Keys * FlippedBy(h, ev) != {}
    requires Called(w, g, Recompute(Choice(g.members, HealthySet(HealthAfter(h, ev)))), s, s')
    ensures Answered(s, ev, s')
  {
    RecomputeCommits(w, g, Choice(g.members, HealthySet(HealthAfter(h, ev))), s, s');
    if ev.ProbeEvent? && Choice(g.members, HealthySet(HealthAfter(h, ev))) == Intent(s.group) {
      FlippedChoiceMoves(g, h, ev.result);
    }
  }

  lemma CallAnswers(env: Setting, g: GroupConfig, h: HealthView, ev: DaemonEvent, w: World, call: Option<Call>, s: Slice, s': Slice)
    requires w.reliable && w.wans == env.cfg.wans && Waiting(env.cfg, g, h, s) && !ev.Prime?
    requires call == CallFor(env.cfg, g, h, s.group, ev) && SliceStep(w, g, call, s, s')
    ensures Answered(s, ev, s')
  {
    if g.members.Keys * FlippedBy(h, ev) != {} {
      RecomputeAnswers(env, g, h, ev, w, s, s');
    } else {
      match ev {
        case ProbeEvent(r) =>
          if r.wan !in FlippedBy(h, ev) {
            RetrySettles(w, g, r.wan, s, s');
          } else {
            assert r.wan in g.members ==> r.wan in g.members.Keys * FlippedBy(h, ev);
          }
        case RouteSeen(e) =>
          if call.Some? {
            ObservationSettles(w, g, e.family, s, s');
          }
        case LinkSeen(_) =>
      }
    }
  }

  // ---- One event

  // An event during which no kernel operation fails.
  ghost predicate ReliableStep(env: Setting, d: DaemonView, ev: DaemonEvent, d': DaemonView)
    requires env.cfg.Valid()
  {
    exists writes :: Step(env, d, ev, d', true, writes)
  }

  lemma ReliableStepKeeps(env: Setting, d: DaemonView, ev: DaemonEvent, d': DaemonView)
    requires env.cfg.Valid() && Inv(env, d) && ReliableStep(env, d, ev, d') && !ev.Prime?
    ensures Inv(env, d')
  {
    assert Follows(env, d, ev, d');
    StepKeeps(env, d, ev, d');
  }

  // One Group's part of a reliable event.
  lemma SliceOfStep(env: Setting, d: DaemonView, ev: DaemonEvent, d': DaemonView, g: string) returns (w: World)
    requires env.cfg.Valid() && ReliableStep(env, d, ev, d') && g in env.cfg.groups
    ensures g in d.slices && g in d'.slices && w.reliable && w.wans == env.cfg.wans
    ensures SliceStep(w, env.cfg.groups[g], CallFor(env.cfg, env.cfg.groups[g], d.health, d.slices[g].group, ev),
                      d.slices[g], d'.slices[g])
  {
    var writes :| Step(env, d, ev, d', true, writes);
    w := env.WorldFor(d'.gateways, true);
  }

  // What soundness says of a Group that may be waiting.
  lemma SoundIsWaiting(env: Setting, d: DaemonView, g: string)
    requires env.cfg.Valid() && Inv(env, d) && g in env.cfg.groups
    ensures g in d.slices && Waiting(env.cfg, env.cfg.groups[g], d.health, d.slices[g])
  {
    assert GroupSound(env, d, g);
  }

  lemma EventAnswers(env: Setting, d: DaemonView, ev: DaemonEvent, d': DaemonView, g: string)
    requires env.cfg.Valid() && Inv(env, d) && ReliableStep(env, d, ev, d') && !ev.Prime? && g in env.cfg.groups
    ensures g in d.slices && g in d'.slices && Answered(d.slices[g], ev, d'.slices[g])
  {
    SoundIsWaiting(env, d, g);
    var w := SliceOfStep(env, d, ev, d', g);
    CallAnswers(env, env.cfg.groups[g], d.health, ev, w,
                CallFor(env.cfg, env.cfg.groups[g], d.health, d.slices[g].group, ev), d.slices[g], d'.slices[g]);
  }

  ghost predicate SoundAndReliable(env: Setting, d: DaemonView, ev: DaemonEvent, d': DaemonView)
    requires env.cfg.Valid()
  {
    Inv(env, d) && ReliableStep(env, d, ev, d')
  }

  // A reliable event that moves a Group's choice leaves it settled on the new one.
  lemma MovedChoiceSettles(env: Setting, d: DaemonView, ev: DaemonEvent, d': DaemonView, g: string)
    requires env.cfg.Valid() && SoundAndReliable(env, d, ev, d') && g in env.cfg.groups
    requires Choice(env.cfg.groups[g].members, HealthySet(d'.health)) != Choice(env.cfg.groups[g].members, HealthySet(d.health))
    ensures g in d'.slices && Settled(d'.slices[g].group)
    ensures d'.slices[g].group.selection == Choice(env.cfg.groups[g].members, HealthySet(d'.health))
  {
    var cfg := env.cfg.groups[g];
    SoundIsWaiting(env, d, g);
    HealthOfStep(env, d, ev, d');
    if cfg.members.Keys * FlippedBy(d.health, ev) == {} {
      UnflippedChoice(env, cfg, d.health, ev);
    }
    var w := SliceOfStep(env, d, ev, d', g);
    RecomputeCommits(w, cfg, Choice(cfg.members, HealthySet(d'.health)), d.slices[g], d'.slices[g]);
  }

  lemma HealthOfStep(env: Setting, d: DaemonView, ev: DaemonEvent, d': DaemonView)
    requires env.cfg.Valid() && Inv(env, d) && ReliableStep(env, d, ev, d')
    ensures d'.health == HealthAfter(d.health, ev) && HealthFits(env, d.health)
  {
    var writes :| Step(env, d, ev, d', true, writes);
  }

  // ---- A stretch of events

  // Any events after startup, in any order, none of whose kernel operations
  // fails.
  ghost predicate ReliableStretch(env: Setting, trace: seq<DaemonView>, events: seq<DaemonEvent>)
    requires env.cfg.Valid()
  {
    && |trace| == |events| + 1
    && forall i :: 0 <= i < |events| ==> !events[i].Prime? && ReliableStep(env, trace[i], events[i], trace[i+1])
  }

  lemma StepOfStretch(env: Setting, trace: seq<DaemonView>, events: seq<DaemonEvent>, i: nat)
    requires env.cfg.Valid() && ReliableStretch(env, trace, events) && i < |events|
    ensures !events[i].Prime? && ReliableStep(env, trace[i], events[i], trace[i+1])
  {
  }

  // The WANs the first n events brought a result of.
  function Heard(events: seq<DaemonEvent>, n: nat): set<string>
    requires n <= |events|
  {
    if n == 0 then {} else Heard(events, n - 1) + HeardBy(events[n-1])
  }

  lemma {:induction false} HeardAll(events: seq<DaemonEvent>, n: nat, i: nat)
    requires i < n <= |events|
    ensures HeardBy(events[i]) <= Heard(events, n)
  {
    if i < n - 1 {
      HeardAll(events, n - 1, i);
    }
  }

  lemma StretchStepKeeps(env: Setting, trace: seq<DaemonView>, events: seq<DaemonEvent>, i: nat)
    requires env.cfg.Valid() && ReliableStretch(env, trace, events) && i < |events| && Inv(env, trace[i])
    ensures Inv(env, trace[i+1])
  {
    StepOfStretch(env, trace, events, i);
    ReliableStepKeeps(env, trace[i], events[i], trace[i+1]);
  }

  lemma {:induction false} StretchStaysSound(env: Setting, trace: seq<DaemonView>, events: seq<DaemonEvent>, n: nat)
    requires env.cfg.Valid() && ReliableStretch(env, trace, events) && n <= |events| && Inv(env, trace[0])
    ensures Inv(env, trace[n])
  {
    if n > 0 {
      StretchStaysSound(env, trace, events, n - 1);
      StretchStepKeeps(env, trace, events, n - 1);
    }
  }

  // After n events g is settled, or still intends what it did at first and has
  // not heard of that WAN.
  ghost predicate OwedAt(trace: seq<DaemonView>, events: seq<DaemonEvent>, g: string, n: nat) {
    && n < |trace| && n <= |events| && g in trace[0].slices && g in trace[n].slices
    && var first, v := Intent(trace[0].slices[g].group), trace[n].slices[g].group;
       Settled(v) || (Intent(v) == first && first.has && first.wan !in Heard(events, n))
  }

  lemma OwedNext(trace: seq<DaemonView>, events: seq<DaemonEvent>, g: string, n: nat)
    requires OwedAt(trace, events, g, n) && n < |events| && n + 1 < |trace| && g in trace[n+1].slices
    requires Answered(trace[n].slices[g], events[n], trace[n+1].slices[g])
    ensures OwedAt(trace, events, g, n + 1)
  {
  }

  lemma OneMoreEvent(env: Setting, trace: seq<DaemonView>, events: seq<DaemonEvent>, g: string, n: nat)
    requires env.cfg.Valid() && ReliableStretch(env, trace, events) && n < |events| && Inv(env, trace[0])
    requires g in env.cfg.groups && OwedAt(trace, events, g, n)
    ensures OwedAt(trace, events, g, n + 1)
  {
    StretchStaysSound(env, trace, events, n);
    StepOfStretch(env, trace, events, n);
    EventAnswers(env, trace[n], events[n], trace[n+1], g);
    OwedNext(trace, events, g, n);
  }

  lemma EventsSettleGroups(env: Setting, trace: seq<DaemonView>, events: seq<DaemonEvent>, g: string)
    requires env.cfg.Valid() && ReliableStretch(env, trace, events) && Inv(env, trace[0]) && g in env.cfg.groups
    ensures OwedAt(trace, events, g, |events|)
  {
    SoundIsWaiting(env, trace[0], g);
    for n := 0 to |events|
      invariant OwedAt(trace, events, g, n)
    {
      OneMoreEvent(env, trace, events, g, n);
    }
  }

  // A result of this WAN is among the events.
  predicate Hears(events: seq<DaemonEvent>, wan: string) {
    exists i :: 0 <= i < |events| && wan in HeardBy(events[i])
  }

  // From any sound state, once kernel operations stop failing, any stretch of
  // events that brings a result of every WAN, in any order and with any
  // content, leaves every Group settled.
  lemma OneResultPerWanRecovers(env: Setting, trace: seq<DaemonView>, events: seq<DaemonEvent>, g: string)
    requires env.cfg.Valid() && ReliableStretch(env, trace, events)
    requires Inv(env, trace[0]) && g in env.cfg.groups
    requires forall w :: w in env.cfg.wans ==> Hears(events, w)
    ensures g in trace[|events|].slices && Settled(trace[|events|].slices[g].group)
  {
    EventsSettleGroups(env, trace, events, g);
    SoundIsWaiting(env, trace[0], g);
    var first := Intent(trace[0].slices[g].group);
    if first.has {
      assert Hears(events, first.wan);
      var i :| 0 <= i < |events| && first.wan in HeardBy(events[i]);
      HeardAll(events, |events|, i);
    }
  }

  // So every reachable state recovers.
  lemma ReachableStatesRecover(env: Setting, trace: seq<DaemonView>, events: seq<DaemonEvent>,
                               after: seq<DaemonView>, more: seq<DaemonEvent>, g: string)
    requires env.cfg.Valid() && IsRun(env, trace, events) && ReliableStretch(env, after, more)
    requires after[0] == trace[|events|] && g in env.cfg.groups
    requires forall w :: w in env.cfg.wans ==> Hears(more, w)
    ensures g in after[|more|].slices && Settled(after[|more|].slices[g].group)
  {
    RunsAreSound(env, trace, events, |events|);
    OneResultPerWanRecovers(env, after, more, g);
  }
}
