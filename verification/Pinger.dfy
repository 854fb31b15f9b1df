// The Pinger: one ICMP socket's Targets and their Windows, pushed in place
// cycle by cycle.
module Probing {
  import opened Basics
  import opened Icmp
  import opened Measurements
  import opened Window
  import Aggregation
  import opened PingerSpec

  class Pinger {
    const family: Family
    const ident: Word
    const targets: seq<string>
    const windowSize: nat
    const windows: map<string, WindowStats>

    ghost const repr: set<object>
    ghost var history: History

    // The Windows share nothing.
    ghost predicate Wiring() {
      && DistinctTargets(targets) && windowSize > 0
      && (forall t :: t in windows <==> t in targets)
      && this !in repr
      && (forall t {:trigger Wired(t)} :: t in windows ==> Wired(t))
      && (forall t, u {:trigger Wired(t), Wired(u)} :: t in windows && u in windows && t != u ==>
            windows[t] != windows[u] && windows[t].samples != windows[u].samples)
    }

    ghost predicate Wired(t: string) {
      t in windows && windows[t] in repr && windows[t].samples in repr
    }

    // A Target's Window holds the last of what its history says was pushed.
    ghost predicate Mirrored(t: string)
      requires Wired(t)
      reads this, repr
    {
      && t in history && windows[t].Valid() && windows[t].capacity == windowSize && windows[t].pushed == history[t]
    }

    ghost predicate Intact()
      requires Wiring()
      reads this, repr
    {
      && history.Keys == windows.Keys
      && forall t {:trigger Mirrored(t)} :: Wired(t) ==> Mirrored(t)
    }

    ghost predicate Valid()
      reads this, repr
    {
      Wiring() && Intact()
    }

    constructor (family: Family, ident: Word, targets: seq<string>, windowSize: nat)
      requires DistinctTargets(targets) && windowSize > 0
      ensures Valid() && fresh(repr) && InStep(history, 0)
      ensures this.family == family && this.ident == ident && this.targets == targets && this.windowSize == windowSize
      ensures history.Keys == set t | t in targets
    {
      var ws: map<string, WindowStats>;
      ghost var objects: set<object>;
      ws, objects := NewWindows(targets, windowSize);
      this.family, this.ident, this.targets, this.windowSize := family, ident, targets, windowSize;
      windows := ws;
      repr := objects;
      history := map t | t in ws :: [];
    }

    // One Sample into one Window.
    method Push(t: string, s: Sample)
      requires Wiring() && Intact() && t in windows
      modifies this`history, repr
      ensures Intact()
      ensures history == old(history)[t := old(history)[t] + [s]]
    {
      assert Wired(t) && Mirrored(t);
      windows[t].Push(s);
      history := history[t := history[t] + [s]];
      forall u | Wired(u) ensures Mirrored(u) {
        assert old(Mirrored(u));
      }
    }

    // One echo per Target; a failed send loses its Sample at once. wire is
    // what was sent, or would have been.
    method SendAll(sends: seq<Option<nat>>, sequence: Word)
      returns (inflight: map<Word, Pending>, next: Word, sendFailed: bool, ghost got: seq<Option<Sample>>, ghost wire: seq<seq<Byte>>)
      requires Wiring() && Intact() && |sends| == |targets|
      modifies this`history, repr
      ensures Intact()
      ensures InPlay(family, ident, targets, sequence, sends, old(history), history, [], got, inflight)
      ensures next == SlotOf(sequence, |targets|)
      ensures sendFailed <==> FailedBefore(sends, |sends|)
      ensures Requested(family, ident, sequence, |targets|, wire)
    {
      inflight, next, sendFailed := map[], sequence, false;
      got, wire := seq(|targets|, _ => None), [];
      NothingSent(targets, sends, sequence, history, got);
      for k := 0 to |targets|
        invariant Intact()
        invariant Sending(targets, sends, sequence, k, old(history), history, got, inflight)
        invariant next == SlotOf(sequence, k)
        invariant sendFailed <==> FailedBefore(sends, k)
        invariant Requested(family, ident, sequence, k, wire)
      {
        inflight, next, sendFailed, got, wire := SendNext(sends, sequence, k, next, inflight, sendFailed, old(history), got, wire);
      }
      AllSent(family, ident, targets, sends, sequence, old(history), history, got, inflight);
    }

    // The packet for one sequence number goes out, or would have.
    method WriteRequest(slot: Word, ghost sequence: Word, ghost k: nat, ghost wire: seq<seq<Byte>>) returns (ghost wire': seq<seq<Byte>>)
      requires slot == SlotOf(sequence, k) && Requested(family, ident, sequence, k, wire)
      ensures Requested(family, ident, sequence, k + 1, wire')
    {
      var request := EchoRequestBytes(family, ident, slot, []);
      wire' := wire + [request[..]];
      RequestedOneMore(family, ident, sequence, k, wire, request[..]);
    }

    method SendNext(sends: seq<Option<nat>>, sequence: Word, k: nat, slot: Word, inflight: map<Word, Pending>, sendFailed: bool,
                    ghost h0: History, ghost got: seq<Option<Sample>>, ghost wire: seq<seq<Byte>>)
      returns (inflight': map<Word, Pending>, next: Word, sendFailed': bool, ghost got': seq<Option<Sample>>, ghost wire': seq<seq<Byte>>)
      requires Wiring() && Intact() && k < |targets| && slot == SlotOf(sequence, k)
      requires Sending(targets, sends, sequence, k, h0, history, got, inflight)
      requires (sendFailed <==> FailedBefore(sends, k)) && Requested(family, ident, sequence, k, wire)
      modifies this`history, repr
      ensures Intact()
      ensures Sending(targets, sends, sequence, k + 1, h0, history, got', inflight')
      ensures next == SlotOf(sequence, k + 1) && (sendFailed' <==> FailedBefore(sends, k + 1))
      ensures Requested(family, ident, sequence, k + 1, wire')
    {
      wire' := WriteRequest(slot, sequence, k, wire);
      inflight', got' := SendOne(sends, sequence, k, slot, inflight, h0, got);
      sendFailed' := sendFailed || sends[k].None?;
      NextSequence(sequence, k);
      next := NextWord(slot);
    }

    method SendOne(sends: seq<Option<nat>>, sequence: Word, k: nat, slot: Word, inflight: map<Word, Pending>,
                   ghost h0: History, ghost got: seq<Option<Sample>>)
      returns (inflight': map<Word, Pending>, ghost got': seq<Option<Sample>>)
      requires Wiring() && Intact() && k < |targets| && slot == SlotOf(sequence, k)
      requires Sending(targets, sends, sequence, k, h0, history, got, inflight)
      modifies this`history, repr
      ensures Intact()
      ensures Sending(targets, sends, sequence, k + 1, h0, history, got', inflight')
    {
      inflight', got' := inflight, got;
      SendingOneMore(targets, sends, sequence, k, h0, history, got, inflight);
      if sends[k].Some? {
        inflight' := inflight[slot := Pending(targets[k], sends[k].value)];
      } else {
        Push(targets[k], LOST);
        got' := got[k := Some(LOST)];
      }
    }

    // Reads until every reply is in, or a deadline or a fault ends the cycle.
    method ReadReplies(sends: seq<Option<nat>>, sequence: Word, received: seq<Read>, inflight0: map<Word, Pending>,
                       ghost h0: History, ghost got0: seq<Option<Sample>>)
      returns (inflight: map<Word, Pending>, ghost got: seq<Option<Sample>>, ghost heard: seq<Read>)
      requires Wiring() && Intact() && InTime(sends, received)
      requires InPlay(family, ident, targets, sequence, sends, h0, history, [], got0, inflight0)
      modifies this`history, repr
      ensures Intact()
      ensures InPlay(family, ident, targets, sequence, sends, h0, history, heard, got, inflight)
      ensures heard <= Readable(received) && (inflight == map[] || heard == Readable(received))
    {
      inflight, got, heard := inflight0, got0, [];
      var j := 0;
      while inflight != map[] && j < |received| && received[j].Packet?
        invariant ReadUpTo(received, j, heard)
        invariant Intact()
        invariant InPlay(family, ident, targets, sequence, sends, h0, history, heard, got, inflight)
        decreases |received| - j
      {
        inflight, got, heard := TakeNext(sends, sequence, received, j, inflight, h0, got, heard);
        j := j + 1;
      }
      DoneReading(received, j, heard);
    }

    method TakeNext(sends: seq<Option<nat>>, sequence: Word, received: seq<Read>, j: nat, inflight: map<Word, Pending>,
                    ghost h0: History, ghost got: seq<Option<Sample>>, ghost heard: seq<Read>)
      returns (inflight': map<Word, Pending>, ghost got': seq<Option<Sample>>, ghost heard': seq<Read>)
      requires Wiring() && Intact() && InTime(sends, received)
      requires j < |received| && received[j].Packet? && ReadUpTo(received, j, heard)
      requires InPlay(family, ident, targets, sequence, sends, h0, history, heard, got, inflight)
      modifies this`history, repr
      ensures Intact() && ReadUpTo(received, j + 1, heard')
      ensures InPlay(family, ident, targets, sequence, sends, h0, history, heard', got', inflight')
    {
      ReadOneMore(received, j, heard);
      heard' := heard + [received[j]];
      inflight', got' := TakeReply(sends, sequence, received[j], inflight, h0, got, heard);
    }

    // Credits a reply in flight; anything else read is ignored.
    method TakeReply(sends: seq<Option<nat>>, sequence: Word, r: Read, inflight: map<Word, Pending>,
                     ghost h0: History, ghost got: seq<Option<Sample>>, ghost heard: seq<Read>)
      returns (inflight': map<Word, Pending>, ghost got': seq<Option<Sample>>)
      requires Wiring() && Intact() && r.Packet?
      requires InPlay(family, ident, targets, sequence, sends, h0, history, heard, got, inflight)
      requires forall i :: 0 <= i < |sends| && sends[i].Some? ==> r.at >= sends[i].value
      modifies this`history, repr
      ensures Intact()
      ensures InPlay(family, ident, targets, sequence, sends, h0, history, heard + [r], got', inflight')
    {
      inflight', got' := inflight, got;
      var parsed := ParseEchoReply(family, r.data);
      if !parsed.Echo? || parsed.ident != ident || parsed.sequence !in inflight {
        HeardNothing(family, ident, targets, sequence, sends, heard, got, inflight, r);
        return;
      }
      var slot := parsed.sequence;
      LandedOne(targets, sends, sequence, got, inflight, slot, LOST);
      ghost var i := Holder(sends, sequence, |sends|, slot).value;
      var sample := Sample(r.at - inflight[slot].sent, false);
      LandedOne(targets, sends, sequence, got, inflight, slot, sample);
      HeardReply(family, ident, targets, sequence, sends, heard, got, inflight, r, slot);
      RecordedOneMore(targets, h0, history, got, i, sample);
      inflight' := inflight - {slot};
      Push(inflight[slot].target, sample);
      got' := got[i := Some(sample)];
    }

    // Whatever is still in flight is lost, in any order.
    method RecordLoss(sends: seq<Option<nat>>, sequence: Word, inflight: map<Word, Pending>, ghost h0: History,
                      ghost got0: seq<Option<Sample>>)
      returns (ghost got: seq<Option<Sample>>)
      requires Wiring() && Intact()
      requires Losing(targets, sends, sequence, h0, history, got0, got0, inflight)
      modifies this`history, repr
      ensures Intact()
      ensures Losing(targets, sends, sequence, h0, history, got0, got, map[])
    {
      got := got0;
      var todo := inflight.Keys;
      AllLeft(inflight);
      while todo != {}
        invariant todo <= inflight.Keys
        invariant Intact()
        invariant Losing(targets, sends, sequence, h0, history, got0, got, LeftOf(inflight, todo))
        decreases todo
      {
        var slot :| slot in todo;
        OneLess(inflight, todo, slot);
        got := LoseOne(sends, sequence, LeftOf(inflight, todo), slot, inflight[slot].target, h0, got0, got);
        todo := todo - {slot};
      }
    }

    method LoseOne(sends: seq<Option<nat>>, sequence: Word, ghost rest: map<Word, Pending>, slot: Word, target: string,
                   ghost h0: History, ghost got0: seq<Option<Sample>>, ghost got: seq<Option<Sample>>)
      returns (ghost got': seq<Option<Sample>>)
      requires Wiring() && Intact() && slot in rest && target == rest[slot].target
      requires Losing(targets, sends, sequence, h0, history, got0, got, rest)
      modifies this`history, repr
      ensures Intact()
      ensures Losing(targets, sends, sequence, h0, history, got0, got', rest - {slot})
    {
      LandedOne(targets, sends, sequence, got, rest, slot, LOST);
      ghost var i := Holder(sends, sequence, |sends|, slot).value;
      RecordedOneMore(targets, h0, history, got, i, LOST);
      Push(target, LOST);
      got' := got[i := Some(LOST)];
    }

    // One cycle, for any stream of replies: each Target gets its own outcome,
    // or nothing if a later send took its sequence number over.
    method Cycle(sends: seq<Option<nat>>, cancelled: bool, received: seq<Read>, sequence: Word)
      returns (next: Word, sendFailed: bool, ghost wire: seq<seq<Byte>>)
      requires Wiring() && Intact() && |sends| == |targets| && InTime(sends, received)
      modifies this`history, repr
      ensures Intact()
      ensures EachGot(family, ident, targets, sequence, sends, HeardIn(cancelled, received), old(history), history)
      ensures next == SlotOf(sequence, |targets|)
      ensures sendFailed <==> FailedBefore(sends, |sends|)
      ensures sendFailed <==> exists i :: 0 <= i < |sends| && sends[i].None?
      ensures Requested(family, ident, sequence, |targets|, wire)
    {
      ghost var got, heard;
      var inflight;
      inflight, next, sendFailed, got, wire := SendAll(sends, sequence);
      FailedMeansNone(sends, |sends|);
      heard := [];
      if !cancelled {
        inflight, got, heard := ReadReplies(sends, sequence, received, inflight, old(history), got);
      }
      ghost var lost := RecordLoss(sends, sequence, inflight, old(history), got);
      ghost var all := HeardIn(cancelled, received);
      RestIsLost(family, ident, targets, sequence, sends, heard, all, got, inflight, lost, old(history), history);
    }

    // What a cycle does without its interface: a lost Sample in each Window.
    method LoseAll()
      requires Wiring() && Intact()
      modifies this`history, repr
      ensures Intact() && history == LostAll(old(history), {})
    {
      var todo := windows.Keys;
      ghost var h0 := history;
      assert history == LostAll(h0, todo);
      while todo != {}
        invariant Intact() && todo <= windows.Keys
        invariant history == LostAll(h0, todo)
        decreases todo
      {
        var t :| t in todo;
        LostOneMore(h0, todo, t);
        Push(t, LOST);
        todo := todo - {t};
      }
    }

    // One tick, with or without a socket. Unless a send displaced another's,
    // every Target gets one Sample. The result aggregates what the Windows hold.
    method Tick(present: bool, sends: seq<Option<nat>>, cancelled: bool, received: seq<Read>, sequence: Word)
      returns (result: FamilyStats, next: Word, sendFailed: bool)
      requires Valid() && |sends| == |targets| && InTime(sends, received)
      modifies this`history, repr
      ensures Valid()
      ensures Extended(old(history), CycleGiven(present, family, ident, targets, sequence, sends, cancelled, received), history)
      ensures !present || NoneDisplaced(sends, sequence) ==>
                Ticked(old(history), CycleSamples(present, family, ident, targets, sequence, sends, cancelled, received), history)
      ensures Aggregation.IsAggregate(HeldOf(history, windowSize), result)
      ensures next == if present then SlotOf(sequence, |targets|) else sequence
      ensures sendFailed <==> present && FailedBefore(sends, |sends|)
    {
      next, sendFailed := Advance(present, sends, cancelled, received, sequence);
      ExtendedIsTicked(present, family, ident, targets, sequence, sends, cancelled, received, old(history), history);
      result := Result();
    }

    // A cycle, or a loss all round.
    method Advance(present: bool, sends: seq<Option<nat>>, cancelled: bool, received: seq<Read>, sequence: Word)
      returns (next: Word, sendFailed: bool)
      requires Valid() && |sends| == |targets| && InTime(sends, received)
      modifies this`history, repr
      ensures Valid()
      ensures Extended(old(history), CycleGiven(present, family, ident, targets, sequence, sends, cancelled, received), history)
      ensures next == if present then SlotOf(sequence, |targets|) else sequence
      ensures sendFailed <==> present && FailedBefore(sends, |sends|)
    {
      next, sendFailed := sequence, false;
      ghost var h0 := history;
      if present {
        ghost var wire;
        next, sendFailed, wire := Cycle(sends, cancelled, received, sequence);
        EachGotIsExtended(family, ident, targets, sequence, sends, cancelled, received, h0, history);
      } else {
        LoseAll();
        LossIsExtended(family, ident, targets, sequence, sends, cancelled, received, h0, history);
      }
    }

    method Result() returns (result: FamilyStats)
      requires Wiring() && Intact()
      ensures Aggregation.IsAggregate(HeldOf(history, windowSize), result)
    {
      forall t | t in windows ensures Aggregation.Shows(windows[t], HeldOf(history, windowSize)[t]) {
        assert Wired(t) && Mirrored(t);
      }
      result := Aggregation.Aggregate(windows, HeldOf(history, windowSize));
    }
  }

  // Empty Windows, apart from each other.
  ghost predicate Apart(ws: map<string, WindowStats>, objects: set<object>) {
    && (forall t {:trigger ws[t]} :: t in ws ==> ws[t] in objects && ws[t].samples in objects)
    && (forall t, u {:trigger ws[t], ws[u]} :: t in ws && u in ws && t != u ==>
          ws[t] != ws[u] && ws[t].samples != ws[u].samples)
  }

  ghost predicate EmptyWindow(w: WindowStats, windowSize: nat)
    reads w, w.samples
  {
    w.Valid() && w.capacity == windowSize && w.pushed == []
  }

  method NewWindows(targets: seq<string>, windowSize: nat) returns (ws: map<string, WindowStats>, ghost objects: set<object>)
    requires windowSize > 0
    ensures (forall t :: t in ws <==> t in targets) && Apart(ws, objects) && fresh(objects)
    ensures forall t {:trigger ws[t]} :: t in ws ==> EmptyWindow(ws[t], windowSize)
  {
    ws, objects := map[], {};
    for i := 0 to |targets|
      invariant (forall t :: t in ws <==> t in targets[..i]) && Apart(ws, objects) && fresh(objects)
      invariant forall t {:trigger ws[t]} :: t in ws ==> EmptyWindow(ws[t], windowSize)
    {
      assert targets[..i+1] == targets[..i] + [targets[i]];
      var w := new WindowStats(windowSize);
      objects := objects + {w, w.samples};
      ws := ws[targets[i] := w];
    }
    assert targets[..|targets|] == targets;
  }

  // What is in flight under some sequence numbers.
  function LeftOf(inflight: map<Word, Pending>, todo: set<Word>): map<Word, Pending> {
    map slot | slot in inflight && slot in todo :: inflight[slot]
  }

  lemma AllLeft(inflight: map<Word, Pending>)
    ensures LeftOf(inflight, inflight.Keys) == inflight && LeftOf(inflight, {}) == map[]
  {
  }

  lemma OneLess(inflight: map<Word, Pending>, todo: set<Word>, slot: Word)
    requires slot in inflight && slot in todo
    ensures slot in LeftOf(inflight, todo) && LeftOf(inflight, todo)[slot] == inflight[slot]
    ensures LeftOf(inflight, todo - {slot}) == LeftOf(inflight, todo) - {slot}
  {
  }

  ghost predicate ReadUpTo(received: seq<Read>, j: nat, heard: seq<Read>) {
    j <= |received| && heard == received[..j] && forall i :: 0 <= i < j ==> received[i].Packet?
  }

  lemma DoneReading(received: seq<Read>, j: nat, heard: seq<Read>)
    requires ReadUpTo(received, j, heard)
    ensures heard <= Readable(received)
    ensures j == |received| || !received[j].Packet? ==> heard == Readable(received)
  {
    ReadableIsPrefix(received, j);
  }

  lemma ReadOneMore(received: seq<Read>, j: nat, heard: seq<Read>)
    requires ReadUpTo(received, j, heard) && j < |received| && received[j].Packet?
    ensures ReadUpTo(received, j + 1, heard + [received[j]])
  {
  }

  // A Sample lost by each Target but those to do.
  function LostAll(h: History, todo: set<string>): History {
    map t | t in h :: if t in todo then h[t] else h[t] + [LOST]
  }

  lemma LostOneMore(h: History, todo: set<string>, t: string)
    requires t in h && t in todo
    ensures var now := LostAll(h, todo);
            LostAll(h, todo - {t}) == now[t := now[t] + [LOST]]
  {
  }

  // The Windows as values; all fill on the same tick.
  function HeldOf(h: History, size: nat): Aggregation.Windows {
    map t | t in h :: Aggregation.WindowView(Recent(h[t], size), |h[t]| >= size)
  }

  ghost function PlaceOf(targets: seq<string>, t: string): (i: nat)
    requires t in targets
    ensures i < |targets| && targets[i] == t
  {
    var i: nat :| i < |targets| && targets[i] == t;
    i
  }

  // The reads a cycle hears.
  function HeardIn(cancelled: bool, received: seq<Read>): seq<Read> {
    if cancelled then [] else Readable(received)
  }

  // What a tick gives each Target; a loss without a socket.
  ghost function CycleGiven(present: bool, f: Family, ident: Word, targets: seq<string>, sequence: Word, sends: seq<Option<nat>>,
                            cancelled: bool, received: seq<Read>): map<string, seq<Sample>>
    requires |sends| == |targets|
  {
    map t | t in targets ::
      if present then GivenIn(f, ident, sequence, sends, PlaceOf(targets, t), HeardIn(cancelled, received)) else [LOST]
  }

  // The same when it is one Sample each: the outcome of the Target's own place
  // in the list.
  ghost function CycleSamples(present: bool, f: Family, ident: Word, targets: seq<string>, sequence: Word, sends: seq<Option<nat>>,
                              cancelled: bool, received: seq<Read>): map<string, Sample>
    requires |sends| == |targets|
  {
    map t | t in targets ::
      if present then Outcome(f, ident, SlotOf(sequence, PlaceOf(targets, t)), sends[PlaceOf(targets, t)], HeardIn(cancelled, received))
      else LOST
  }

  ghost predicate Extended(h0: History, given: map<string, seq<Sample>>, h: History) {
    && h.Keys == h0.Keys == given.Keys
    && forall t :: t in h0 ==> h[t] == h0[t] + given[t]
  }

  // One Sample more for every Target.
  ghost predicate Ticked(h0: History, cycle: map<string, Sample>, h: History) {
    && h.Keys == h0.Keys == cycle.Keys
    && forall t :: t in h0 ==> h[t] == h0[t] + [cycle[t]]
  }

  // Every Target has had as many Samples.
  ghost predicate InStep(h: History, ticks: nat) {
    forall t :: t in h ==> |h[t]| == ticks
  }

  lemma TickedInLockstep(h0: History, cycle: map<string, Sample>, h: History, ticks: nat)
    requires Ticked(h0, cycle, h) && InStep(h0, ticks)
    ensures InStep(h, ticks + 1)
  {
  }

  lemma EachGotIsExtended(f: Family, ident: Word, targets: seq<string>, sequence: Word, sends: seq<Option<nat>>, cancelled: bool,
                          received: seq<Read>, h0: History, h: History)
    requires EachGot(f, ident, targets, sequence, sends, HeardIn(cancelled, received), h0, h)
    requires forall t :: t in h0 <==> t in targets
    ensures Extended(h0, CycleGiven(true, f, ident, targets, sequence, sends, cancelled, received), h)
  {
    forall t | t in h0
      ensures h[t] == h0[t] + GivenIn(f, ident, sequence, sends, PlaceOf(targets, t), HeardIn(cancelled, received))
    {
      assert targets[PlaceOf(targets, t)] == t;
    }
  }

  lemma LossIsExtended(f: Family, ident: Word, targets: seq<string>, sequence: Word, sends: seq<Option<nat>>, cancelled: bool,
                       received: seq<Read>, h0: History, h: History)
    requires |sends| == |targets| && h == LostAll(h0, {}) && forall t :: t in h0 <==> t in targets
    ensures Extended(h0, CycleGiven(false, f, ident, targets, sequence, sends, cancelled, received), h)
  {
  }

  lemma ExtendedIsTicked(present: bool, f: Family, ident: Word, targets: seq<string>, sequence: Word, sends: seq<Option<nat>>,
                         cancelled: bool, received: seq<Read>, h0: History, h: History)
    requires |sends| == |targets|
    requires Extended(h0, CycleGiven(present, f, ident, targets, sequence, sends, cancelled, received), h)
    ensures !present || NoneDisplaced(sends, sequence) ==>
              Ticked(h0, CycleSamples(present, f, ident, targets, sequence, sends, cancelled, received), h)
  {
    AllHoldUnlessDisplaced(sends, sequence);
  }

  // A cycle hears what it reads before the first read that is no datagram, and
  // nothing once cancelled.
  lemma {:induction false} HeardInFull(cancelled: bool, received: seq<Read>)
    ensures var heard := HeardIn(cancelled, received);
            if cancelled then heard == []
            else
              && heard <= received && (forall i :: 0 <= i < |heard| ==> received[i].Packet?)
              && (|heard| < |received| ==> !received[|heard|].Packet?)
  {
    if !cancelled && received != [] && received[0].Packet? {
      HeardInFull(cancelled, received[1..]);
      assert received == [received[0]] + received[1..];
      var heard := HeardIn(cancelled, received);
      assert heard == [received[0]] + HeardIn(cancelled, received[1..]);
      forall i | 0 <= i < |heard| ensures received[i].Packet? {
        assert i > 0 ==> received[i] == received[1..][i-1];
      }
    }
  }

  // The j-th read is a datagram like all before it, and answers the request.
  predicate RepliedAt(f: Family, ident: Word, slot: Word, received: seq<Read>, j: int) {
    && 0 <= j < |received| && (forall i :: 0 <= i < j ==> received[i].Packet?)
    && IsReply(f, ident, slot, received[j])
  }

  // A Sample is answered exactly if its send went out and the cycle was not
  // cancelled and read an echo reply to it, the first of which gives the RTT.
  ghost predicate SampleTells(f: Family, ident: Word, slot: Word, sent: Option<nat>, cancelled: bool, received: seq<Read>, s: Sample) {
    if sent.Some? && !cancelled && exists j :: RepliedAt(f, ident, slot, received, j)
    then !s.lost && exists j :: RepliedAt(f, ident, slot, received, j) && s.rttMicros == received[j].at - sent.value
                                && forall k :: 0 <= k < j ==> !IsReply(f, ident, slot, received[k])
    else s.lost && s.rttMicros == 0
  }

  lemma HeardOutcomeTells(f: Family, ident: Word, slot: Word, sent: Option<nat>, cancelled: bool, received: seq<Read>)
    requires sent.Some? ==> forall i :: 0 <= i < |received| && received[i].Packet? ==> received[i].at >= sent.value
    ensures SampleTells(f, ident, slot, sent, cancelled, received, Outcome(f, ident, slot, sent, HeardIn(cancelled, received)))
  {
    HeardInFull(cancelled, received);
    var heard := HeardIn(cancelled, received);
    assert forall j :: 0 <= j < |heard| ==> heard[j] == received[j];
    OutcomeInFull(f, ident, slot, sent, heard);
    if !cancelled {
      HeardReplies(f, ident, slot, received, heard);
    }
  }

  // The Sample of the i-th Target: a loss without a socket; with one it tells of
  // the request sent under that Target's sequence number.
  lemma CycleInFull(present: bool, f: Family, ident: Word, targets: seq<string>, sequence: Word, sends: seq<Option<nat>>,
                    cancelled: bool, received: seq<Read>, i: nat)
    requires DistinctTargets(targets) && |sends| == |targets| && i < |targets| && InTime(sends, received)
    ensures var s := CycleSamples(present, f, ident, targets, sequence, sends, cancelled, received)[targets[i]];
            if present then SampleTells(f, ident, (sequence + i) % 0x1_0000, sends[i], cancelled, received, s)
            else s == Sample(0, true)
  {
    var place := PlaceOf(targets, targets[i]);
    assert Named(targets, place) == Named(targets, i);
    HeardOutcomeTells(f, ident, SlotOf(sequence, i), sends[i], cancelled, received);
  }

  // Of what was read, only what was heard can answer.
  lemma HeardReplies(f: Family, ident: Word, slot: Word, received: seq<Read>, heard: seq<Read>)
    requires heard <= received && forall i :: 0 <= i < |heard| ==> received[i].Packet?
    requires |heard| < |received| ==> !received[|heard|].Packet?
    ensures forall j :: RepliedAt(f, ident, slot, received, j) <==> 0 <= j < |heard| && IsReply(f, ident, slot, heard[j])
  {
    forall j ensures RepliedAt(f, ident, slot, received, j) <==> 0 <= j < |heard| && IsReply(f, ident, slot, heard[j]) {
      if 0 <= j < |heard| {
        assert heard[j] == received[j];
      }
    }
  }

  // With its interface absent, or no reply heard, no Target is answered.
  lemma SilenceIsUnanswered(present: bool, f: Family, ident: Word, targets: seq<string>, sequence: Word, sends: seq<Option<nat>>,
                            cancelled: bool, received: seq<Read>, t: string)
    requires |sends| == |targets| && t in targets
    requires present && !cancelled ==> forall j, slot :: 0 <= j < |received| ==> !Answers(f, ident, slot, received[j])
    ensures CycleSamples(present, f, ident, targets, sequence, sends, cancelled, received)[t].lost
  {
    var heard := HeardIn(cancelled, received);
    if present {
      forall j, slot | 0 <= j < |heard| ensures !Answers(f, ident, slot, heard[j]) {
        ReadableIn(received, j);
      }
      forall slot ensures ReplyAt(f, ident, slot, heard).None? {
        ReplyAtIsFirst(f, ident, slot, heard);
      }
    }
  }

  lemma {:induction false} ReadableIn(received: seq<Read>, j: nat)
    requires j < |Readable(received)|
    ensures j < |received| && Readable(received)[j] == received[j]
  {
    if j > 0 {
      ReadableIn(received[1..], j - 1);
    }
  }

  function NextWord(slot: Word): Word {
    (slot + 1) % SEQ_SPACE
  }

  lemma NextSequence(sequence: Word, k: nat)
    ensures NextWord(SlotOf(sequence, k)) == SlotOf(sequence, k + 1)
  {
  }

  // Windows in lockstep report themselves full on one and the same tick.
  lemma LockstepFillsTogether(ws: Aggregation.Windows, s: FamilyStats, size: nat, ticks: nat)
    requires ws != map[] && Aggregation.IsAggregate(ws, s)
    requires forall t :: t in ws ==> (ws[t].filled <==> ticks >= size)
    ensures s.windowFilled <==> ticks >= size
  {
    var t :| t in ws;
  }
}
