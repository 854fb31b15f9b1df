// From submission to execution: what the Hook queue runs of each Group is the
// beginning of the chain the daemon submitted for it.
module HookDelivery {
  import opened Basics
  import opened GroupHistory
  import opened Failover
  import opened FailoverTheorems
  import opened FailoverInFull
  import FailoverRuns
  import HookQueue

  // One Group's Hooks, in order.
  function OfGroup(hooks: seq<Hook>, g: string): seq<Hook> {
    if hooks == [] then []
    else
      var n := |hooks| - 1;
      OfGroup(hooks[..n], g) + if hooks[n].group == g then [hooks[n]] else []
  }

  lemma {:induction false} PrefixOfGroup(a: seq<Hook>, b: seq<Hook>, g: string)
    requires a <= b
    ensures OfGroup(a, g) <= OfGroup(b, g)
  {
    if a == b {
    } else {
      PrefixOfGroup(a, b[..|b|-1], g);
    }
  }

  lemma {:induction false} GroupHolds(hooks: seq<Hook>, i: nat)
    requires i < |hooks|
    ensures hooks[i] in OfGroup(hooks, hooks[i].group)
  {
    if i < |hooks| - 1 {
      GroupHolds(hooks[..|hooks|-1], i);
    }
  }

  // ---- What the queue makes of its submissions

  // The Hooks handed in by the first n actions.
  function Submissions(actions: seq<HookQueue.Action>, n: nat): seq<Hook>
    requires n <= |actions|
  {
    if n == 0 then []
    else Submissions(actions, n - 1) + if actions[n-1].Submit? then [actions[n-1].hook] else []
  }

  // Those among them that were let in; nothing is once closed or cancelled.
  function LetIn(trace: seq<HookQueue.State>, actions: seq<HookQueue.Action>, n: nat): seq<Hook>
    requires n <= |actions| && |trace| == |actions| + 1
  {
    if n == 0 then []
    else
      LetIn(trace, actions, n - 1) + LetInBy(trace[n-1], actions[n-1])
  }

  predicate Shut(s: HookQueue.State) {
    s.closed || s.cancelled
  }

  predicate AllTimed(hooks: seq<Hook>) {
    forall i :: 0 <= i < |hooks| ==> hooks[i].at > 0
  }

  lemma ShutForGood(s: HookQueue.State, a: HookQueue.Action, s': HookQueue.State)
    requires HookQueue.Next(s, a) == Some(s') && Shut(s)
    ensures Shut(s')
  {
  }

  // What was let in is a first part of what was handed in.
  lemma {:induction false} LetInFirst(trace: seq<HookQueue.State>, actions: seq<HookQueue.Action>, n: nat)
    requires HookQueue.IsRun(trace, actions) && n <= |actions| && AllTimed(Submissions(actions, n))
    ensures LetIn(trace, actions, n) <= Submissions(actions, n)
    ensures LetIn(trace, actions, n) == Submissions(actions, n) || Shut(trace[n])
  {
    if n > 0 {
      var last := Submissions(actions, n - 1);
      assert last == Submissions(actions, n)[..|last|];
      LetInFirst(trace, actions, n - 1);
      assert HookQueue.Next(trace[n-1], actions[n-1]) == Some(trace[n]);
      if Shut(trace[n-1]) {
        ShutForGood(trace[n-1], actions[n-1], trace[n]);
      } else if actions[n-1].Submit? {
        assert Submissions(actions, n)[|last|] == actions[n-1].hook;
      }
    }
  }

  // The hook a submission is about to send.
  function AboutToSend(s: HookQueue.State): seq<Hook> {
    if s.lock.Sending? then [s.lock.hook] else []
  }

  // No send meets 32 Hooks still to be executed.
  ghost predicate KeepsUp(trace: seq<HookQueue.State>, actions: seq<HookQueue.Action>)
    requires |trace| == |actions| + 1
  {
    forall i :: 0 <= i < |actions| && actions[i].Send? ==> |trace[i].accepted| - |trace[i].executed| < 32
  }

  // What one action lets in.
  function LetInBy(s: HookQueue.State, a: HookQueue.Action): seq<Hook> {
    if a.Submit? && !Shut(s) then [HookQueue.Stamped(a.hook, a.now)] else []
  }

  lemma StepDropsNothing(s: HookQueue.State, a: HookQueue.Action, s': HookQueue.State)
    requires HookQueue.Next(s, a) == Some(s')
    requires a.Send? ==> s.lock.Sending? && s'.accepted == s.accepted + [s.lock.hook]
    ensures s'.accepted + AboutToSend(s') == s.accepted + AboutToSend(s) + LetInBy(s, a)
  {
    match a {
      case Submit(_, _) =>
        if !Shut(s) {
          assert s.accepted + [] + LetInBy(s, a) == s.accepted + LetInBy(s, a);
        }
      case _ =>
    }
  }

  // Then nothing let in is dropped.
  lemma {:induction false} NothingIsDropped(trace: seq<HookQueue.State>, actions: seq<HookQueue.Action>, n: nat)
    requires HookQueue.IsRun(trace, actions) && KeepsUp(trace, actions) && n <= |actions|
    ensures trace[n].accepted + AboutToSend(trace[n]) == LetIn(trace, actions, n)
  {
    if n > 0 {
      NothingIsDropped(trace, actions, n - 1);
      if actions[n-1].Send? {
        HookQueue.BurstIsAccepted(trace, actions, n - 1);
      }
      StepDropsNothing(trace[n-1], actions[n-1], trace[n]);
    }
  }

  // ---- The daemon's Hooks through the queue

  // The queue was handed every Group's Hooks in the order submitted, the Groups
  // interleaved in any way.
  ghost predicate Feeds(d: DaemonView, handed: seq<Hook>) {
    && (forall g :: g in d.slices ==> OfGroup(handed, g) == d.slices[g].hooks)
    && forall i :: 0 <= i < |handed| ==> handed[i].group in d.slices
  }

  lemma RunsAreTimed(env: Setting, trace: seq<DaemonView>, events: seq<DaemonEvent>, n: nat, g: string)
    requires env.cfg.Valid() && IsRun(env, trace, events) && n < |trace| && g in env.cfg.groups
    ensures g in trace[n].slices && AllTimed(trace[n].slices[g].hooks)
  {
    PastOfRun(env, trace, events, n, g);
    forall k | 0 <= k < |trace[n].slices[g].hooks| ensures trace[n].slices[g].hooks[k].at > 0 {
      var i := HooksTellTheirChange(env, trace, events, n, g, k);
    }
  }

  lemma FedHooksAreTimed(d: DaemonView, handed: seq<Hook>)
    requires Feeds(d, handed) && forall g :: g in d.slices ==> AllTimed(d.slices[g].hooks)
    ensures AllTimed(handed)
  {
    forall i | 0 <= i < |handed| ensures handed[i].at > 0 {
      var g := handed[i].group;
      GroupHolds(handed, i);
      assert g in d.slices && handed[i] in d.slices[g].hooks && AllTimed(d.slices[g].hooks);
    }
  }

  lemma ChainedPrefix(some: seq<Hook>, all: seq<Hook>)
    requires some <= all && HooksChain(all)
    ensures HooksChain(some)
  {
    assert forall i :: 0 <= i < |some| ==> some[i] == all[i];
  }

  // In every run of the daemon and every interleaving of the queue that is fed
  // from it and keeps up, what has been executed of a Group is the beginning of
  // its chain of Hooks: none missing, none twice, none out of order.
  lemma ExecutedHooksChain(env: Setting, trace: seq<DaemonView>, events: seq<DaemonEvent>, g: string,
                           states: seq<HookQueue.State>, actions: seq<HookQueue.Action>)
    requires env.cfg.Valid() && IsRun(env, trace, events) && g in env.cfg.groups
    requires HookQueue.IsRun(states, actions) && KeepsUp(states, actions)
    requires Feeds(trace[|events|], Submissions(actions, |actions|))
    ensures g in trace[|events|].slices
    ensures OfGroup(states[|actions|].executed, g) <= trace[|events|].slices[g].hooks
    ensures HooksChain(OfGroup(states[|actions|].executed, g))
  {
    var n := |actions|;
    SubmissionsAreTimed(env, trace, events, Submissions(actions, n));
    LetInFirst(states, actions, n);
    NothingIsDropped(states, actions, n);
    HookQueue.DeliveryIsInOrder(states, actions, n);
    HooksTellTheSelection(env, trace, events, |events|, g);
    PrefixOfGroup(states[n].executed, Submissions(actions, n), g);
    ChainedPrefix(OfGroup(states[n].executed, g), trace[|events|].slices[g].hooks);
  }

  lemma SubmissionsAreTimed(env: Setting, trace: seq<DaemonView>, events: seq<DaemonEvent>, handed: seq<Hook>)
    requires env.cfg.Valid() && IsRun(env, trace, events) && Feeds(trace[|events|], handed)
    ensures AllTimed(handed)
  {
    SlicesAreGroups(env, trace, events);
    forall g | g in trace[|events|].slices ensures AllTimed(trace[|events|].slices[g].hooks) {
      RunsAreTimed(env, trace, events, |events|, g);
    }
    FedHooksAreTimed(trace[|events|], handed);
  }

  lemma SlicesAreGroups(env: Setting, trace: seq<DaemonView>, events: seq<DaemonEvent>)
    requires env.cfg.Valid() && IsRun(env, trace, events)
    ensures trace[|events|].slices.Keys == env.cfg.groups.Keys
  {
    FailoverRuns.RunsAreSound(env, trace, events, |events|);
  }
}
