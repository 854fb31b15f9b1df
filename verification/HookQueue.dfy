// Hook delivery: submissions and Close under one lock, a bounded channel and
// one worker. Each method below is one atomic step of one of them; a run is
// any interleaving of the steps, with cancellation at any point.
module HookQueue {
  import opened Basics
  import opened Failover

  const QUEUE_CAPACITY := 32

  // The channel: not yet made, open, or closed with what is still in it.
  datatype Channel = Unmade | Open(queue: seq<Hook>) | Closed(queue: seq<Hook>)

  // What a submission holds the lock for, once past its checks.
  datatype Lock = Free | Sending(hook: Hook)

  // The worker: between receives, with an event received and not yet checked,
  // running it, or gone, with the event it discarded if any.
  datatype Worker = Unstarted | Waiting | Received(hook: Hook) | Running(hook: Hook) | Exited(discarded: seq<Hook>)

  datatype State = State(closed: bool, cancelled: bool, channel: Channel, lock: Lock, worker: Worker,
                         closing: nat, closeReturned: bool, accepted: seq<Hook>, executed: seq<Hook>)

  const NEW := State(false, false, Unmade, Free, Unstarted, 0, false, [], [])

  datatype Action = Cancel | Submit(hook: Hook, now: nat) | Send | Close | CloseReturns | Receive | Check | Done | Stop

  function Queued(c: Channel): seq<Hook> {
    if c.Unmade? then [] else c.queue
  }

  // A Hook without a time gets the submission's.
  function Stamped(h: Hook, now: nat): Hook {
    if h.at == 0 then h.(at := now) else h
  }

  // The step each action takes; None where it cannot happen.
  function Next(s: State, a: Action): Option<State> {
    match a
    case Cancel => Some(s.(cancelled := true))
    case Submit(h, now) =>
      if !s.lock.Free? then None
      else if s.closed || s.cancelled then Some(s)
      else
        var made := if s.channel.Unmade? then s.(channel := Open([]), worker := Waiting) else s;
        Some(made.(lock := Sending(Stamped(h, now))))
    case Send =>
      if !s.lock.Sending? || !s.channel.Open? then None
      else if |s.channel.queue| < QUEUE_CAPACITY then
        Some(s.(lock := Free, channel := Open(s.channel.queue + [s.lock.hook]), accepted := s.accepted + [s.lock.hook]))
      else Some(s.(lock := Free))
    case Close =>
      if !s.lock.Free? then None
      else
        var shut := s.(closed := true, closing := s.closing + 1);
        Some(if !s.closed && s.channel.Open? then shut.(channel := Closed(s.channel.queue)) else shut)
    case CloseReturns =>
      if s.closing == 0 || !(s.channel.Unmade? || s.worker.Exited?) then None
      else Some(s.(closing := s.closing - 1, closeReturned := true))
    case Receive =>
      if !s.worker.Waiting? || s.channel.Unmade? then None
      else if s.channel.queue != [] then
        Some(s.(worker := Received(s.channel.queue[0]),
                channel := if s.channel.Open? then Open(s.channel.queue[1..]) else Closed(s.channel.queue[1..])))
      else if s.channel.Closed? then Some(s.(worker := Exited([])))
      else None
    case Check =>
      if !s.worker.Received? then None
      else if s.cancelled then Some(s.(worker := Exited([s.worker.hook])))
      else Some(s.(worker := Running(s.worker.hook)))
    case Done =>
      if !s.worker.Running? then None
      else Some(s.(worker := Waiting, executed := s.executed + [s.worker.hook]))
    case Stop =>
      if !s.worker.Waiting? || !s.cancelled then None else Some(s.(worker := Exited([])))
  }

  ghost predicate IsRun(trace: seq<State>, actions: seq<Action>) {
    && |trace| == |actions| + 1 && trace[0] == NEW
    && forall i :: 0 <= i < |actions| ==> Next(trace[i], actions[i]) == Some(trace[i+1])
  }

  // What the worker took and has not executed.
  function InHand(w: Worker): seq<Hook> {
    match w
    case Received(h) => [h]
    case Running(h) => [h]
    case Exited(d) => d
    case _ => []
  }

  ghost predicate Inv(s: State) {
    && s.accepted == s.executed + InHand(s.worker) + Queued(s.channel)
    && |Queued(s.channel)| <= QUEUE_CAPACITY
    && (s.lock.Sending? ==> s.channel.Open?)
    && (s.channel.Closed? ==> s.closed) && (s.closed ==> !s.channel.Open?)
    && (s.channel.Unmade? <==> s.worker.Unstarted?)
    && (s.worker.Exited? && !s.cancelled ==> s.channel == Closed([]) && s.worker.discarded == [])
    && (s.closing > 0 || s.closeReturned ==> s.closed)
    && (s.closeReturned ==> s.channel.Unmade? || s.worker.Exited?)
  }

  lemma SubmitKeeps(s: State, h: Hook, now: nat, s': State)
    requires Inv(s) && Next(s, Submit(h, now)) == Some(s')
    ensures Inv(s')
  {
  }

  lemma SendKeeps(s: State, s': State)
    requires Inv(s) && Next(s, Send) == Some(s')
    ensures Inv(s')
  {
    Reassociate(s.executed + InHand(s.worker), s.channel.queue, [s.lock.hook]);
  }

  lemma CloseKeeps(s: State, s': State)
    requires Inv(s) && Next(s, Close) == Some(s')
    ensures Inv(s')
  {
  }

  lemma CloseReturnsKeeps(s: State, s': State)
    requires Inv(s) && Next(s, CloseReturns) == Some(s')
    ensures Inv(s')
  {
  }

  lemma ReceiveKeeps(s: State, s': State)
    requires Inv(s) && Next(s, Receive) == Some(s')
    ensures Inv(s')
  {
    var q := s.channel.queue;
    if q != [] {
      assert q == [q[0]] + q[1..];
      Reassociate(s.executed, [q[0]], q[1..]);
    }
  }

  lemma CheckKeeps(s: State, s': State)
    requires Inv(s) && Next(s, Check) == Some(s')
    ensures Inv(s')
  {
  }

  lemma DoneKeeps(s: State, s': State)
    requires Inv(s) && Next(s, Done) == Some(s')
    ensures Inv(s')
  {
    Reassociate(s.executed, [s.worker.hook], []);
  }

  lemma Reassociate(a: seq<Hook>, b: seq<Hook>, c: seq<Hook>)
    ensures a + (b + c) == (a + b) + c
    ensures a + [] == a
  {
  }

  lemma StepKeeps(s: State, a: Action, s': State)
    requires Inv(s) && Next(s, a) == Some(s')
    ensures Inv(s')
  {
    match a {
      case Cancel =>
      case Submit(h, now) => SubmitKeeps(s, h, now, s');
      case Send => SendKeeps(s, s');
      case Close => CloseKeeps(s, s');
      case CloseReturns => CloseReturnsKeeps(s, s');
      case Receive => ReceiveKeeps(s, s');
      case Check => CheckKeeps(s, s');
      case Done => DoneKeeps(s, s');
      case Stop =>
    }
  }

  lemma {:induction false} RunsKeep(trace: seq<State>, actions: seq<Action>, i: nat)
    requires IsRun(trace, actions) && i < |trace|
    ensures Inv(trace[i])
  {
    if i > 0 {
      RunsKeep(trace, actions, i - 1);
      StepKeeps(trace[i-1], actions[i-1], trace[i]);
    }
  }

  // Over every interleaving: what was executed is a prefix of what was
  // accepted, in submission order; the queue stays within its capacity; and
  // no send meets a closed channel.
  lemma DeliveryIsInOrder(trace: seq<State>, actions: seq<Action>, i: nat)
    requires IsRun(trace, actions) && i < |trace|
    ensures trace[i].executed <= trace[i].accepted
    ensures |Queued(trace[i].channel)| <= 32
    ensures trace[i].lock.Sending? ==> trace[i].channel.Open? && Next(trace[i], Send).Some?
  {
    RunsKeep(trace, actions, i);
  }

  // Without cancellation, once any Close has returned every accepted event
  // has been executed, and nothing is accepted any more.
  lemma CloseDelivers(trace: seq<State>, actions: seq<Action>, i: nat)
    requires IsRun(trace, actions) && i < |trace|
    requires trace[i].closeReturned && !trace[i].cancelled
    ensures trace[i].executed == trace[i].accepted
    ensures forall a, s' :: Next(trace[i], a) == Some(s') ==> s'.accepted == trace[i].accepted
  {
    RunsKeep(trace, actions, i);
  }

  // A burst is never dropped: as long as fewer than 32 accepted events are
  // still to be executed, a Send accepts its own.
  lemma BurstIsAccepted(trace: seq<State>, actions: seq<Action>, i: nat)
    requires IsRun(trace, actions) && i < |actions| && actions[i].Send?
    requires |trace[i].accepted| - |trace[i].executed| < 32
    ensures trace[i].lock.Sending? && trace[i+1].accepted == trace[i].accepted + [trace[i].lock.hook]
  {
    RunsKeep(trace, actions, i);
    assert Next(trace[i], actions[i]) == Some(trace[i+1]);
    assert |trace[i].accepted| == |trace[i].executed| + |InHand(trace[i].worker)| + |Queued(trace[i].channel)|;
  }

  // After a cancellation no execution starts: at most the one under way ends.
  lemma {:induction false} CancelledStartsNothing(trace: seq<State>, actions: seq<Action>, i: nat, j: nat)
    requires IsRun(trace, actions) && i <= j <= |actions| && trace[i].cancelled
    ensures trace[j].cancelled
    ensures |trace[j].executed| + (if trace[j].worker.Running? then 1 else 0)
            <= |trace[i].executed| + if trace[i].worker.Running? then 1 else 0
  {
    if i < j {
      CancelledStartsNothing(trace, actions, i, j - 1);
      assert Next(trace[j-1], actions[j-1]) == Some(trace[j]);
    }
  }

  // The worker's own next step.
  function WorkerStep(w: Worker): Action {
    match w
    case Received(_) => Check
    case Running(_) => Done
    case _ => Receive
  }

  // How many steps a closed queue's worker has left, at most.
  function Remaining(s: State): nat {
    match s.worker
    case Waiting => 3 * |Queued(s.channel)| + 1
    case Received(_) => 3 * |Queued(s.channel)| + 3
    case Running(_) => 3 * |Queued(s.channel)| + 2
    case _ => 0
  }

  // Once closed, the worker is never stuck, and each of its steps brings its
  // end nearer.
  lemma ClosedWorkerMoves(s: State)
    requires Inv(s) && s.closed && !s.channel.Unmade? && !s.worker.Exited?
    ensures var next := Next(s, WorkerStep(s.worker));
            next.Some? && Remaining(next.value) < Remaining(s)
  {
  }

  predicate IsWorkerStep(a: Action) {
    a in {Receive, Check, Done, Stop}
  }

  // And no other step puts it off: closed stays closed.
  lemma ClosedNeverGrows(s: State, a: Action, s': State)
    requires Inv(s) && s.closed && Next(s, a) == Some(s')
    ensures s'.closed
    ensures Remaining(s') <= Remaining(s) - if IsWorkerStep(a) then 1 else 0
  {
  }

  function WorkerSteps(actions: seq<Action>, i: nat, j: nat): nat
    requires i <= j <= |actions|
  {
    if i == j then 0 else WorkerSteps(actions, i, j - 1) + if IsWorkerStep(actions[j-1]) then 1 else 0
  }

  lemma {:induction false} WorkerStepsSpend(trace: seq<State>, actions: seq<Action>, i: nat, j: nat)
    requires IsRun(trace, actions) && i <= j <= |actions| && trace[i].closed
    ensures trace[j].closed && Remaining(trace[j]) + WorkerSteps(actions, i, j) <= Remaining(trace[i])
  {
    if i < j {
      WorkerStepsSpend(trace, actions, i, j - 1);
      RunsKeep(trace, actions, j - 1);
      ClosedNeverGrows(trace[j-1], actions[j-1], trace[j]);
    }
  }

  // So Close returns: within a bounded number of worker steps, whatever else
  // is interleaved with them, every Close under way can; until then the worker
  // has a step to take.
  lemma CloseReturnsInTime(trace: seq<State>, actions: seq<Action>, i: nat, j: nat)
    requires IsRun(trace, actions) && i <= j <= |actions| && trace[i].closed
    ensures WorkerSteps(actions, i, j) <= Remaining(trace[i])
    ensures trace[j].closing > 0 && WorkerSteps(actions, i, j) == Remaining(trace[i]) ==> Next(trace[j], CloseReturns).Some?
    ensures trace[j].closing > 0 && Next(trace[j], CloseReturns).None? ==> Next(trace[j], WorkerStep(trace[j].worker)).Some?
  {
    WorkerStepsSpend(trace, actions, i, j);
    RunsKeep(trace, actions, j);
    if !trace[j].channel.Unmade? && !trace[j].worker.Exited? {
      ClosedWorkerMoves(trace[j]);
    }
  }

  // ---- The notifier, step by step

  class HookNotifier {
    var closed: bool
    var cancelled: bool
    var channel: Channel
    var lock: Lock
    var worker: Worker
    var closing: nat
    var closeReturned: bool
    ghost var accepted: seq<Hook>
    ghost var executed: seq<Hook>

    ghost function View(): State
      reads this
    {
      State(closed, cancelled, channel, lock, worker, closing, closeReturned, accepted, executed)
    }

    // No I/O, and no worker until the first accepted submission.
    constructor ()
      ensures View() == NEW
    {
      closed, cancelled, channel, lock, worker := false, false, Unmade, Free, Unstarted;
      closing, closeReturned, accepted, executed := 0, false, [], [];
    }

    // Takes the lock and checks; the channel and the worker start on the
    // first submission to pass. False if refused.
    method Submit(h: Hook, now: nat) returns (passed: bool)
      requires lock.Free?
      modifies this
      ensures Next(old(View()), Action.Submit(h, now)) == Some(View())
      ensures passed <==> !old(closed) && !old(cancelled)
      ensures passed ==> lock == Sending(if h.at == 0 then h.(at := now) else h)
    {
      if closed || cancelled {
        return false;
      }
      if channel.Unmade? {
        channel := Open([]);
        worker := Waiting;
      }
      var stamped := h;
      if stamped.at == 0 {
        stamped := stamped.(at := now);
      }
      lock := Sending(stamped);
      passed := true;
    }

    // Sends without waiting and gives the lock back; a full queue drops.
    method Send() returns (sent: bool)
      requires lock.Sending? && channel.Open?
      modifies this
      ensures Next(old(View()), Action.Send) == Some(View())
      ensures sent <==> |old(channel).queue| < 32
      ensures accepted == if sent then old(accepted) + [old(lock).hook] else old(accepted)
    {
      sent := |channel.queue| < QUEUE_CAPACITY;
      if sent {
        accepted := accepted + [lock.hook];
        channel := Open(channel.queue + [lock.hook]);
      }
      lock := Free;
    }

    // Closes once, and waits from here on.
    method Close()
      requires lock.Free?
      modifies this
      ensures Next(old(View()), Action.Close) == Some(View())
    {
      if !closed {
        closed := true;
        if channel.Open? {
          channel := Closed(channel.queue);
        }
      }
      closing := closing + 1;
    }

    // The worker takes the oldest event, or ends with a drained closed channel.
    method Receive()
      requires worker.Waiting? && !channel.Unmade? && (channel.queue != [] || channel.Closed?)
      modifies this
      ensures Next(old(View()), Action.Receive) == Some(View())
    {
      if channel.queue == [] {
        worker := Exited([]);
        return;
      }
      worker := Received(channel.queue[0]);
      channel := match channel
        case Open(q) => Open(q[1..])
        case Closed(q) => Closed(q[1..]);
    }

    // A cancelled worker discards what it just took.
    method Check()
      requires worker.Received?
      modifies this
      ensures Next(old(View()), Action.Check) == Some(View())
    {
      worker := if cancelled then Exited([worker.hook]) else Running(worker.hook);
    }

    method Done()
      requires worker.Running?
      modifies this
      ensures Next(old(View()), Action.Done) == Some(View())
    {
      executed := executed + [worker.hook];
      worker := Waiting;
    }

    method Stop()
      requires worker.Waiting? && cancelled
      modifies this
      ensures Next(old(View()), Action.Stop) == Some(View())
    {
      worker := Exited([]);
    }
  }
}
