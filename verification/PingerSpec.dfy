// One probe cycle as a value: what each Target's Sample is, given which sends
// succeeded and what was read back.
module PingerSpec {
  import opened Basics
  import opened Icmp
  import opened Window

  const SEQ_SPACE := 0x1_0000

  // What a read brings: a datagram and its time, the deadline, or a fault.
  datatype Read = Packet(data: seq<Byte>, at: nat) | Deadline | Fault

  datatype Pending = Pending(target: string, sent: nat)

  type History = map<string, seq<Sample>>

  const LOST := Sample(0, true)

  // The sequence number the i-th Target of a cycle is sent.
  function SlotOf(sequence: Word, i: nat): Word {
    (sequence + i) % SEQ_SPACE
  }

  // Sequence numbers count on from one cycle to the next, 0 following 65535.
  lemma SlotsInFull(sequence: Word, i: nat)
    ensures SlotOf(sequence, 0) == sequence
    ensures SlotOf(sequence, i + 1) == if SlotOf(sequence, i) == 65535 then 0 else SlotOf(sequence, i) + 1
  {
  }

  // Within one turn of the space no two Targets share a sequence number.
  lemma SlotsAreDistinct(sequence: Word, i: nat, j: nat)
    requires i < SEQ_SPACE && j < SEQ_SPACE && SlotOf(sequence, i) == SlotOf(sequence, j)
    ensures i == j
  {
  }

  // The last of the first k sends to go out under a sequence number.
  function Holder(sends: seq<Option<nat>>, sequence: Word, k: nat, slot: Word): (i: Option<nat>)
    requires k <= |sends|
    ensures i.Some? ==> i.value < k && sends[i.value].Some? && SlotOf(sequence, i.value) == slot
  {
    if k == 0 then None
    else if sends[k-1].Some? && SlotOf(sequence, k - 1) == slot then Some(k - 1)
    else Holder(sends, sequence, k - 1, slot)
  }

  lemma {:induction false} HolderIsLast(sends: seq<Option<nat>>, sequence: Word, k: nat, i: nat)
    requires i < k <= |sends| && sends[i].Some?
    ensures var h := Holder(sends, sequence, k, SlotOf(sequence, i));
            && h.Some? && h.value >= i
            && (h.value == i <==> forall j :: i < j < k && sends[j].Some? ==> SlotOf(sequence, j) != SlotOf(sequence, i))
  {
    if i < k - 1 {
      HolderIsLast(sends, sequence, k - 1, i);
    }
  }

  // A send that went out and that no later one of the cycle displaced.
  predicate Holds(sends: seq<Option<nat>>, sequence: Word, i: nat)
    requires i < |sends|
  {
    Holder(sends, sequence, |sends|, SlotOf(sequence, i)) == Some(i)
  }

  // No two sends that went out share a sequence number.
  predicate NoneDisplaced(sends: seq<Option<nat>>, sequence: Word) {
    forall i, j :: 0 <= i < j < |sends| && sends[i].Some? && sends[j].Some? ==> SlotOf(sequence, i) != SlotOf(sequence, j)
  }

  // Exactly then every send that went out is held to the end.
  lemma AllHoldUnlessDisplaced(sends: seq<Option<nat>>, sequence: Word)
    ensures NoneDisplaced(sends, sequence) <==> forall i :: 0 <= i < |sends| && sends[i].Some? ==> Holds(sends, sequence, i)
  {
    forall i: nat | i < |sends| && sends[i].Some?
      ensures Holds(sends, sequence, i)
              <==> forall j :: i < j < |sends| && sends[j].Some? ==> SlotOf(sequence, j) != SlotOf(sequence, i)
    {
      HolderIsLast(sends, sequence, |sends|, i);
    }
  }

  // Up to 65536 Targets nothing is ever displaced.
  lemma OneTurnDisplacesNone(sends: seq<Option<nat>>, sequence: Word)
    requires |sends| <= SEQ_SPACE
    ensures NoneDisplaced(sends, sequence)
  {
    forall i, j | 0 <= i < j < |sends| ensures SlotOf(sequence, i) != SlotOf(sequence, j) {
      if SlotOf(sequence, i) == SlotOf(sequence, j) {
        SlotsAreDistinct(sequence, i, j);
      }
    }
  }

  // With one Target more, if every send goes out, the last displaces the first.
  lemma OneTurnMoreDisplaces(sends: seq<Option<nat>>, sequence: Word)
    requires |sends| == SEQ_SPACE + 1 && forall i :: 0 <= i < |sends| ==> sends[i].Some?
    ensures !Holds(sends, sequence, 0) && !NoneDisplaced(sends, sequence)
  {
    assert SlotOf(sequence, SEQ_SPACE) == SlotOf(sequence, 0);
    HolderIsLast(sends, sequence, |sends|, 0);
    AllHoldUnlessDisplaced(sends, sequence);
  }

  predicate Answers(f: Family, ident: Word, slot: Word, r: Read) {
    r.Packet? && ParseEchoReply(f, r.data) == Echo(ident, slot)
  }

  // The time of the first reply to a sequence number.
  function ReplyAt(f: Family, ident: Word, slot: Word, received: seq<Read>): Option<nat> {
    if received == [] then None
    else
      var earlier := ReplyAt(f, ident, slot, received[..|received|-1]);
      if earlier.Some? then earlier
      else if Answers(f, ident, slot, received[|received|-1]) then Some(received[|received|-1].at)
      else None
  }

  // A reply time is the first matching read's, in the order read.
  lemma {:induction false} ReplyAtIsFirst(f: Family, ident: Word, slot: Word, received: seq<Read>)
    ensures ReplyAt(f, ident, slot, received).None? <==> forall i :: 0 <= i < |received| ==> !Answers(f, ident, slot, received[i])
    ensures ReplyAt(f, ident, slot, received).Some? ==>
              exists i :: 0 <= i < |received| && Answers(f, ident, slot, received[i]) && received[i].at == ReplyAt(f, ident, slot, received).value
                          && forall j :: 0 <= j < i ==> !Answers(f, ident, slot, received[j])
  {
    if received != [] {
      var n := |received| - 1;
      ReplyAtIsFirst(f, ident, slot, received[..n]);
      assert forall i :: 0 <= i < n ==> received[..n][i] == received[i];
      if ReplyAt(f, ident, slot, received[..n]).Some? {
        var i :| 0 <= i < n && Answers(f, ident, slot, received[..n][i])
                 && received[..n][i].at == ReplyAt(f, ident, slot, received[..n]).value
                 && forall j :: 0 <= j < i ==> !Answers(f, ident, slot, received[..n][j]);
        assert Answers(f, ident, slot, received[i]);
      }
    }
  }

  // The reads before a deadline or a fault ends the cycle.
  function Readable(received: seq<Read>): seq<Read> {
    if received == [] || !received[0].Packet? then [] else [received[0]] + Readable(received[1..])
  }

  lemma {:induction false} ReadableIsPrefix(received: seq<Read>, j: nat)
    requires j <= |received| && forall i :: 0 <= i < j ==> received[i].Packet?
    ensures received[..j] <= Readable(received)
    ensures j == |received| || !received[j].Packet? ==> received[..j] == Readable(received)
  {
    if j > 0 {
      ReadableIsPrefix(received[1..], j - 1);
      assert received[..j] == [received[0]] + received[1..][..j-1];
    }
  }

  lemma {:induction false} ReplyStays(f: Family, ident: Word, slot: Word, some: seq<Read>, all: seq<Read>)
    requires some <= all && ReplyAt(f, ident, slot, some).Some?
    ensures ReplyAt(f, ident, slot, all) == ReplyAt(f, ident, slot, some)
  {
    if |some| < |all| {
      ReplyStays(f, ident, slot, some, all[..|all|-1]);
    } else {
      assert some == all;
    }
  }

  // The Sample of a Target, its send's time or failure and the reads heard.
  function Outcome(f: Family, ident: Word, slot: Word, sent: Option<nat>, heard: seq<Read>): Sample {
    var at := ReplyAt(f, ident, slot, heard);
    if sent.Some? && at.Some? && at.value >= sent.value then Sample(at.value - sent.value, false) else LOST
  }

  // A Sample is a reply's exactly if the send went out and some read after it
  // is an echo reply with this ident and sequence number; then its RTT is up to
  // the first such read.
  lemma OutcomeInFull(f: Family, ident: Word, slot: Word, sent: Option<nat>, heard: seq<Read>)
    requires sent.Some? ==> forall i :: 0 <= i < |heard| && heard[i].Packet? ==> heard[i].at >= sent.value
    ensures var s := Outcome(f, ident, slot, sent, heard);
            && (!s.lost <==> sent.Some? && exists i :: 0 <= i < |heard| && IsReply(f, ident, slot, heard[i]))
            && (!s.lost ==> exists i :: 0 <= i < |heard| && IsReply(f, ident, slot, heard[i])
                                        && s.rttMicros == heard[i].at - sent.value
                                        && forall j :: 0 <= j < i ==> !IsReply(f, ident, slot, heard[j]))
            && (s.lost ==> s.rttMicros == 0)
  {
    ReplyAtIsFirst(f, ident, slot, heard);
    forall i | 0 <= i < |heard| ensures IsReply(f, ident, slot, heard[i]) <==> Answers(f, ident, slot, heard[i]) {
      if heard[i].Packet? {
        ReplyInFull(f, heard[i].data);
      }
    }
  }

  // An echo reply by its bytes: 8 of them at least, the Family's reply type, and
  // ident and sequence high byte first.
  predicate IsReply(f: Family, ident: Word, slot: Word, r: Read) {
    && r.Packet? && |r.data| >= 8 && r.data[0] == (if f == V4 then 0 else 129)
    && 256 * (r.data[4] as int) + r.data[5] == ident && 256 * (r.data[6] as int) + r.data[7] == slot
  }

  // Reads come after every send.
  ghost predicate InTime(sends: seq<Option<nat>>, received: seq<Read>) {
    forall i, j :: 0 <= i < |sends| && 0 <= j < |received| && sends[i].Some? && received[j].Packet? ==> received[j].at >= sends[i].value
  }

  // ---- Part way through a cycle

  ghost predicate DistinctTargets(targets: seq<string>) {
    forall i, j {:trigger Named(targets, i), Named(targets, j)} ::
      0 <= i < j < |targets| ==> Named(targets, i) != Named(targets, j)
  }

  function Named(targets: seq<string>, i: int): string
    requires 0 <= i < |targets|
  {
    targets[i]
  }

  function Given(s: Option<Sample>): seq<Sample> {
    if s.Some? then [s.value] else []
  }

  // Each Target's Window has had the Sample it got, if any, and no other.
  ghost predicate Recorded(targets: seq<string>, h0: History, h: History, got: seq<Option<Sample>>) {
    && |got| == |targets| && h.Keys == h0.Keys
    && forall i :: 0 <= i < |targets| ==> targets[i] in h0 && h[targets[i]] == h0[targets[i]] + Given(got[i])
  }

  lemma RecordedOneMore(targets: seq<string>, h0: History, h: History, got: seq<Option<Sample>>, i: nat, s: Sample)
    requires DistinctTargets(targets) && Recorded(targets, h0, h, got) && i < |targets| && got[i].None?
    ensures Recorded(targets, h0, h[targets[i] := h[targets[i]] + [s]], got[i := Some(s)])
  {
    forall j | 0 <= j < |targets| && j != i ensures targets[j] != targets[i] {
      assert Named(targets, j) != Named(targets, i);
    }
  }

  // In flight after k sends is what each sequence number's last send awaits.
  ghost predicate InFlight(targets: seq<string>, sends: seq<Option<nat>>, sequence: Word, k: nat,
                           got: seq<Option<Sample>>, inflight: map<Word, Pending>)
    requires k <= |targets| == |sends| == |got|
  {
    && (forall slot :: slot in inflight ==> Awaited(targets, sends, sequence, k, got, inflight, slot))
    && (forall i :: 0 <= i < k && got[i].None? && Holder(sends, sequence, k, SlotOf(sequence, i)) == Some(i) ==>
          SlotOf(sequence, i) in inflight)
  }

  ghost predicate Awaited(targets: seq<string>, sends: seq<Option<nat>>, sequence: Word, k: nat,
                          got: seq<Option<Sample>>, inflight: map<Word, Pending>, slot: Word)
    requires k <= |targets| == |sends| == |got| && slot in inflight
  {
    var h := Holder(sends, sequence, k, slot);
    h.Some? && got[h.value].None? && inflight[slot] == Pending(targets[h.value], sends[h.value].value)
  }

  lemma SentOneMore(targets: seq<string>, sends: seq<Option<nat>>, sequence: Word, k: nat,
                    got: seq<Option<Sample>>, inflight: map<Word, Pending>)
    requires k < |targets| == |sends| == |got| && got[k].None?
    requires InFlight(targets, sends, sequence, k, got, inflight)
    ensures if sends[k].Some?
            then InFlight(targets, sends, sequence, k + 1, got, inflight[SlotOf(sequence, k) := Pending(targets[k], sends[k].value)])
            else InFlight(targets, sends, sequence, k + 1, got[k := Some(LOST)], inflight)
  {
    var got', inflight' := got, inflight;
    if sends[k].Some? {
      inflight' := inflight[SlotOf(sequence, k) := Pending(targets[k], sends[k].value)];
    } else {
      got' := got[k := Some(LOST)];
    }
    forall slot | slot in inflight' ensures Awaited(targets, sends, sequence, k + 1, got', inflight', slot) {
      assert slot in inflight ==> Awaited(targets, sends, sequence, k, got, inflight, slot);
    }
  }

  lemma LandedOne(targets: seq<string>, sends: seq<Option<nat>>, sequence: Word, got: seq<Option<Sample>>,
                  inflight: map<Word, Pending>, slot: Word, s: Sample)
    requires |targets| == |sends| == |got| && slot in inflight
    requires InFlight(targets, sends, sequence, |targets|, got, inflight)
    ensures var h := Holder(sends, sequence, |sends|, slot);
            && h.Some? && Holds(sends, sequence, h.value) && got[h.value].None?
            && inflight[slot] == Pending(targets[h.value], sends[h.value].value)
            && InFlight(targets, sends, sequence, |targets|, got[h.value := Some(s)], inflight - {slot})
  {
    assert Awaited(targets, sends, sequence, |targets|, got, inflight, slot);
    var got', inflight' := got[Holder(sends, sequence, |sends|, slot).value := Some(s)], inflight - {slot};
    forall other | other in inflight' ensures Awaited(targets, sends, sequence, |targets|, got', inflight', other) {
      assert Awaited(targets, sends, sequence, |targets|, got, inflight, other);
    }
  }

  // What the i-th Target has once some reads are heard: its loss if unsent, its
  // reply if heard and not displaced, else nothing yet.
  function GotFrom(f: Family, ident: Word, sequence: Word, sends: seq<Option<nat>>, i: nat, heard: seq<Read>): Option<Sample>
    requires i < |sends|
  {
    var slot := SlotOf(sequence, i);
    if sends[i].None? then Some(LOST)
    else if Holds(sends, sequence, i) && ReplyAt(f, ident, slot, heard).Some? then Some(Outcome(f, ident, slot, sends[i], heard))
    else None
  }

  ghost predicate Heard(f: Family, ident: Word, sequence: Word, sends: seq<Option<nat>>, heard: seq<Read>, got: seq<Option<Sample>>) {
    |got| == |sends| && forall i :: 0 <= i < |got| ==> got[i] == GotFrom(f, ident, sequence, sends, i, heard)
  }

  // The sequence number a read answers, if it is a reply to this Pinger.
  function AnswerOf(f: Family, ident: Word, r: Read): Option<Word> {
    if r.Packet? && ParseEchoReply(f, r.data).Echo? && ParseEchoReply(f, r.data).ident == ident
    then Some(ParseEchoReply(f, r.data).sequence) else None
  }

  lemma HeardAt(f: Family, ident: Word, sequence: Word, sends: seq<Option<nat>>, i: nat, heard: seq<Read>, r: Read)
    requires i < |sends|
    ensures var slot := SlotOf(sequence, i);
            ReplyAt(f, ident, slot, heard + [r])
            == if ReplyAt(f, ident, slot, heard).Some? then ReplyAt(f, ident, slot, heard)
               else if AnswerOf(f, ident, r) == Some(slot) then Some(r.at) else None
    ensures GotFrom(f, ident, sequence, sends, i, heard).Some? || !Holds(sends, sequence, i)
            || AnswerOf(f, ident, r) != Some(SlotOf(sequence, i)) ==>
              GotFrom(f, ident, sequence, sends, i, heard + [r]) == GotFrom(f, ident, sequence, sends, i, heard)
  {
    assert (heard + [r])[..|heard|] == heard;
  }

  // A read that answers nothing in flight gives no one anything.
  lemma HeardNothing(f: Family, ident: Word, targets: seq<string>, sequence: Word, sends: seq<Option<nat>>, heard: seq<Read>,
                     got: seq<Option<Sample>>, inflight: map<Word, Pending>, r: Read)
    requires |targets| == |sends| && Heard(f, ident, sequence, sends, heard, got)
    requires InFlight(targets, sends, sequence, |targets|, got, inflight)
    requires AnswerOf(f, ident, r).Some? ==> AnswerOf(f, ident, r).value !in inflight
    ensures Heard(f, ident, sequence, sends, heard + [r], got)
  {
    forall i | 0 <= i < |got| ensures got[i] == GotFrom(f, ident, sequence, sends, i, heard + [r]) {
      HeardAt(f, ident, sequence, sends, i, heard, r);
    }
  }

  // A read that answers one in flight gives its Target, and only it, the Sample.
  lemma HeardReply(f: Family, ident: Word, targets: seq<string>, sequence: Word, sends: seq<Option<nat>>, heard: seq<Read>,
                   got: seq<Option<Sample>>, inflight: map<Word, Pending>, r: Read, slot: Word)
    requires |targets| == |sends| && Heard(f, ident, sequence, sends, heard, got)
    requires InFlight(targets, sends, sequence, |targets|, got, inflight)
    requires AnswerOf(f, ident, r) == Some(slot) && slot in inflight && r.at >= inflight[slot].sent
    ensures var h := Holder(sends, sequence, |sends|, slot);
            h.Some? && Heard(f, ident, sequence, sends, heard + [r], got[h.value := Some(Sample(r.at - inflight[slot].sent, false))])
  {
    LandedOne(targets, sends, sequence, got, inflight, slot, LOST);
    var k := Holder(sends, sequence, |sends|, slot).value;
    var got' := got[k := Some(Sample(r.at - inflight[slot].sent, false))];
    forall i | 0 <= i < |got'| ensures got'[i] == GotFrom(f, ident, sequence, sends, i, heard + [r]) {
      HeardAt(f, ident, sequence, sends, i, heard, r);
    }
  }

  // A cycle under way: what was recorded, what is in flight and what was heard agree.
  ghost predicate InPlay(f: Family, ident: Word, targets: seq<string>, sequence: Word, sends: seq<Option<nat>>, h0: History, h: History,
                         heard: seq<Read>, got: seq<Option<Sample>>, inflight: map<Word, Pending>)
  {
    && |targets| == |sends| == |got|
    && Recorded(targets, h0, h, got)
    && InFlight(targets, sends, sequence, |targets|, got, inflight)
    && Heard(f, ident, sequence, sends, heard, got)
  }

  // Still sending: k Targets have been tried.
  ghost predicate Sending(targets: seq<string>, sends: seq<Option<nat>>, sequence: Word, k: nat, h0: History, h: History,
                          got: seq<Option<Sample>>, inflight: map<Word, Pending>)
  {
    && |targets| == |sends| == |got| && k <= |targets|
    && Recorded(targets, h0, h, got)
    && InFlight(targets, sends, sequence, k, got, inflight)
    && forall i :: 0 <= i < |got| ==> got[i] == if i < k && sends[i].None? then Some(LOST) else None
  }

  // One send more: in flight, or lost at once.
  lemma SendingOneMore(targets: seq<string>, sends: seq<Option<nat>>, sequence: Word, k: nat, h0: History, h: History,
                       got: seq<Option<Sample>>, inflight: map<Word, Pending>)
    requires DistinctTargets(targets) && k < |targets| && Sending(targets, sends, sequence, k, h0, h, got, inflight)
    ensures sends[k].Some? ==>
              Sending(targets, sends, sequence, k + 1, h0, h, got,
                      inflight[SlotOf(sequence, k) := Pending(targets[k], sends[k].value)])
    ensures sends[k].None? ==>
              targets[k] in h && Sending(targets, sends, sequence, k + 1, h0, h[targets[k] := h[targets[k]] + [LOST]],
                                         got[k := Some(LOST)], inflight)
  {
    SentOneMore(targets, sends, sequence, k, got, inflight);
    if sends[k].None? {
      RecordedOneMore(targets, h0, h, got, k, LOST);
    }
  }

  lemma NothingSent(targets: seq<string>, sends: seq<Option<nat>>, sequence: Word, h: History, got: seq<Option<Sample>>)
    requires |targets| == |sends| == |got| && forall i :: 0 <= i < |got| ==> got[i].None? && targets[i] in h
    ensures Sending(targets, sends, sequence, 0, h, h, got, map[])
  {
  }

  lemma AllSent(f: Family, ident: Word, targets: seq<string>, sends: seq<Option<nat>>, sequence: Word, h0: History, h: History,
                got: seq<Option<Sample>>, inflight: map<Word, Pending>)
    requires Sending(targets, sends, sequence, |targets|, h0, h, got, inflight)
    ensures InPlay(f, ident, targets, sequence, sends, h0, h, [], got, inflight)
  {
  }

  // Some send among the first k failed.
  predicate FailedBefore(sends: seq<Option<nat>>, k: nat)
    requires k <= |sends|
  {
    k > 0 && (FailedBefore(sends, k - 1) || sends[k-1].None?)
  }

  lemma {:induction false} FailedMeansNone(sends: seq<Option<nat>>, k: nat)
    requires k <= |sends|
    ensures FailedBefore(sends, k) <==> exists i :: 0 <= i < k && sends[i].None?
  {
    if k > 0 {
      FailedMeansNone(sends, k - 1);
    }
  }

  // The first k requests on the wire, each its Target's own.
  ghost predicate Requested(f: Family, ident: Word, sequence: Word, k: nat, wire: seq<seq<Byte>>) {
    |wire| == k && forall i :: 0 <= i < k ==> wire[i] == Request(f, ident, SlotOf(sequence, i), [])
  }

  lemma RequestedOneMore(f: Family, ident: Word, sequence: Word, k: nat, wire: seq<seq<Byte>>, request: seq<Byte>)
    requires Requested(f, ident, sequence, k, wire) && request == Request(f, ident, SlotOf(sequence, k), [])
    ensures Requested(f, ident, sequence, k + 1, wire + [request])
  {
  }

  // What the cycle gives the i-th Target: its outcome, or nothing if a later
  // send displaced its own.
  function GivenIn(f: Family, ident: Word, sequence: Word, sends: seq<Option<nat>>, i: nat, heard: seq<Read>): seq<Sample>
    requires i < |sends|
  {
    if sends[i].None? || Holds(sends, sequence, i) then [Outcome(f, ident, SlotOf(sequence, i), sends[i], heard)] else []
  }

  // After the cycle: every Target's history has grown by what it was given.
  ghost predicate EachGot(f: Family, ident: Word, targets: seq<string>, sequence: Word, sends: seq<Option<nat>>, heard: seq<Read>,
                          h0: History, h: History)
  {
    && |targets| == |sends| && h.Keys == h0.Keys
    && forall i :: 0 <= i < |targets| ==>
         targets[i] in h0 && h[targets[i]] == h0[targets[i]] + GivenIn(f, ident, sequence, sends, i, heard)
  }

  // One Sample for every Target, exactly if no send displaces another.
  lemma OneSampleUnlessDisplaced(f: Family, ident: Word, sequence: Word, sends: seq<Option<nat>>, heard: seq<Read>)
    ensures NoneDisplaced(sends, sequence) <==> forall i :: 0 <= i < |sends| ==> |GivenIn(f, ident, sequence, sends, i, heard)| == 1
  {
    AllHoldUnlessDisplaced(sends, sequence);
    assert forall i :: 0 <= i < |sends| ==>
             (|GivenIn(f, ident, sequence, sends, i, heard)| == 1 <==> sends[i].None? || Holds(sends, sequence, i));
  }

  ghost predicate LosingRest(sends: seq<Option<nat>>, sequence: Word, got0: seq<Option<Sample>>, got: seq<Option<Sample>>) {
    && |got| == |got0| == |sends|
    && forall i :: 0 <= i < |got| ==> got[i] == got0[i] || (got0[i].None? && Holds(sends, sequence, i) && got[i] == Some(LOST))
  }

  // The losses recorded so far, with those still to record in flight.
  ghost predicate Losing(targets: seq<string>, sends: seq<Option<nat>>, sequence: Word, h0: History, h: History,
                         got0: seq<Option<Sample>>, got: seq<Option<Sample>>, inflight: map<Word, Pending>)
  {
    && |targets| == |sends| == |got|
    && Recorded(targets, h0, h, got) && LosingRest(sends, sequence, got0, got)
    && InFlight(targets, sends, sequence, |targets|, got, inflight)
  }

  // What is left in flight is lost; then every Target has been given its due.
  lemma RestIsLost(f: Family, ident: Word, targets: seq<string>, sequence: Word, sends: seq<Option<nat>>, some: seq<Read>, heard: seq<Read>,
                   got0: seq<Option<Sample>>, inflight0: map<Word, Pending>, got: seq<Option<Sample>>, h0: History, h: History)
    requires |targets| == |sends| && Heard(f, ident, sequence, sends, some, got0) && some <= heard
    requires InFlight(targets, sends, sequence, |targets|, got0, inflight0)
    requires inflight0 == map[] || some == heard
    requires Losing(targets, sends, sequence, h0, h, got0, got, map[])
    ensures EachGot(f, ident, targets, sequence, sends, heard, h0, h)
  {
    forall i | 0 <= i < |got| ensures Given(got[i]) == GivenIn(f, ident, sequence, sends, i, heard) {
      var slot := SlotOf(sequence, i);
      if got0[i].Some? && sends[i].Some? {
        ReplyStays(f, ident, slot, some, heard);
      }
    }
  }
}
