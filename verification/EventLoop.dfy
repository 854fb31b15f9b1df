// From startup to the last event handled: what the Daemon's objects go through
// is a run of the specification.
module EventLoop {
  import opened Config
  import opened Selector
  import opened HealthSpec
  import opened Apply
  import opened Failover
  import opened GroupInvariant
  import opened FailoverTheorems
  import opened Daemon

  lemma RunStarts(env: Setting, d: DaemonView)
    requires env.cfg.Valid() && Initial(env, d)
    ensures IsRun(env, [d], [])
  {
  }

  lemma RunExtends(env: Setting, trace: seq<DaemonView>, events: seq<DaemonEvent>, ev: DaemonEvent, d: DaemonView)
    requires env.cfg.Valid() && IsRun(env, trace, events) && Follows(env, trace[|events|], ev, d)
    requires ev.Prime? ==> events == []
    ensures IsRun(env, trace + [d], events + [ev])
  {
    var trace', events' := trace + [d], events + [ev];
    forall i | 0 <= i < |events'|
      ensures (events'[i].Prime? ==> i == 0) && Follows(env, trace'[i], events'[i], trace'[i+1])
    {
      if i < |events| {
        assert trace'[i] == trace[i] && trace'[i+1] == trace[i+1] && events'[i] == events[i];
      }
    }
  }

  // The run so far, and where it has brought the objects.
  ghost predicate Reached(d: Daemon, trace: seq<DaemonView>, events: seq<DaemonEvent>)
    requires d.Wiring()
    reads d, d.kernel, d.gateways, d.health, d.writer
  {
    IsRun(d.Env(), trace, events) && trace[|events|] == d.View()
  }

  // Each event goes to its handler.
  method Dispatch(d: Daemon, ev: DaemonEvent)
    requires d.Wiring() && d.Valid()
    modifies d`vacated, d`slices, d.kernel`routes, d.kernel`flushes, d.hooks, d.writer`published, d.groupObjects,
             d.health, d.health.repr, d.gateways
    ensures d.Valid()
    ensures Follows(d.Env(), old(d.View()), ev, d.View())
  {
    match ev {
      case Prime(routes, links) => d.Prime(routes, links);
      case ProbeEvent(r) => d.HandleProbeResult(r);
      case LinkSeen(e) => d.HandleLinkEvent(e);
      case RouteSeen(e) => d.HandleRouteEvent(e);
    }
  }

  method HandleNext(d: Daemon, ev: DaemonEvent, ghost trace: seq<DaemonView>, ghost done: seq<DaemonEvent>)
    returns (ghost trace': seq<DaemonView>)
    requires d.Wiring() && d.Valid() && Reached(d, trace, done) && (ev.Prime? ==> done == [])
    modifies d`vacated, d`slices, d.kernel`routes, d.kernel`flushes, d.hooks, d.writer`published, d.groupObjects,
             d.health, d.health.repr, d.gateways
    ensures d.Valid() && Reached(d, trace', done + [ev])
  {
    Dispatch(d, ev);
    RunExtends(d.Env(), trace, done, ev, d.View());
    trace' := trace + [d.View()];
  }

  method HandleAll(d: Daemon, events: seq<DaemonEvent>, ghost trace0: seq<DaemonView>, ghost done0: seq<DaemonEvent>)
    returns (ghost trace: seq<DaemonView>)
    requires d.Wiring() && d.Valid() && Reached(d, trace0, done0)
    requires forall i :: 0 <= i < |events| ==> !events[i].Prime?
    modifies d`vacated, d`slices, d.kernel`routes, d.kernel`flushes, d.hooks, d.writer`published, d.groupObjects,
             d.health, d.health.repr, d.gateways
    ensures d.Valid() && Reached(d, trace, done0 + events)
  {
    trace := trace0;
    for n := 0 to |events|
      invariant d.Valid() && Reached(d, trace, done0 + events[..n])
    {
      assert events[..n+1] == events[..n] + [events[n]];
      assert done0 + events[..n+1] == done0 + events[..n] + [events[n]];
      trace := HandleNext(d, events[n], trace, done0 + events[..n]);
    }
    assert events[..|events|] == events;
  }

  // A daemon started over a kernel, primed with the startup snapshots and
  // driven by events: whatever fails, its objects end where some run of the
  // specification ends, so all that is proved of runs holds of them.
  method Serve(cfg: DaemonConfig, kernel: Kernel, hooks: HookSink, routes: seq<RouteEvent>, links: seq<LinkEvent>,
               events: seq<DaemonEvent>)
    returns (d: Daemon, ghost trace: seq<DaemonView>)
    requires cfg.Valid() && kernel.flushes == map[] && hooks.submitted == map[]
    requires forall i :: 0 <= i < |events| ==> !events[i].Prime?
    modifies kernel`routes, kernel`flushes, hooks
    ensures d.Wiring() && d.Valid() && d.cfg == cfg && d.kernel == kernel && d.hooks == hooks
    ensures Reached(d, trace, [DaemonEvent.Prime(routes, links)] + events)
  {
    d := new Daemon(cfg, kernel, hooks);
    d.Bootstrap();
    RunStarts(d.Env(), d.View());
    trace := HandleNext(d, DaemonEvent.Prime(routes, links), [d.View()], []);
    trace := HandleAll(d, events, trace, [DaemonEvent.Prime(routes, links)]);
  }

  // What that means for the kernel itself: a Group object with nothing pending
  // and no Repair due has the choice selected, and the kernel's table for it
  // holds the routes.
  lemma SettledObjectsAreConverged(d: Daemon, trace: seq<DaemonView>, events: seq<DaemonEvent>, g: string)
    requires d.Wiring() && d.Valid() && Reached(d, trace, events) && g in d.groups
    requires d.groups[g].pending.None? && !d.groups[g].repairDue
    ensures g in d.cfg.groups && IsChoice(d.cfg.groups[g].members, HealthySet(d.health.view), d.groups[g].selection)
    ensures d.groups[g].selection.has ==>
              RoutesVia(d.Env().WorldFor(d.gateways.entries, false), d.groups[g].selection.wan,
                        TableOf(d.kernel.routes, d.cfg.groups[g].table))
  {
    assert d.Mirrored(g);
    SettledGroupsAreConverged(d.Env(), trace, events, |events|, g);
  }
}
