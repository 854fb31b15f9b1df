// A Target's sliding Window: a ring buffer that holds the last Samples
// pushed, oldest first.
module Window {
  import opened Basics

  datatype Sample = Sample(rttMicros: nat, lost: bool)

  // The last n of a sequence, or all of it.
  function Recent(pushed: seq<Sample>, n: nat): (r: seq<Sample>)
    ensures |r| == if |pushed| <= n then |pushed| else n
  {
    if |pushed| <= n then pushed else pushed[|pushed|-n..]
  }

  function Losses(s: seq<Sample>): nat {
    if s == [] then 0 else Losses(s[..|s|-1]) + if s[|s|-1].lost then 1 else 0
  }

  function RttSum(s: seq<Sample>): nat {
    if s == [] then 0 else RttSum(s[..|s|-1]) + if s[|s|-1].lost then 0 else s[|s|-1].rttMicros
  }

  lemma {:induction false} LossesAreSamples(s: seq<Sample>)
    ensures Losses(s) <= |s|
  {
    if s != [] {
      LossesAreSamples(s[..|s|-1]);
    }
  }

  const TWO_64 := 0x1_0000_0000_0000_0000

  // An unsigned 64-bit sum.
  function Wrap64(sum: nat): (r: nat)
    ensures r <= sum && (sum < TWO_64 ==> r == sum)
  {
    sum % TWO_64
  }

  // The mean over the Samples that got a reply, on a 64-bit sum that wraps;
  // no data without one.
  function MeanRttOf(s: seq<Sample>): Option<nat> {
    LossesAreSamples(s);
    var n := |s| - Losses(s);
    if n == 0 then None else Some(Wrap64(RttSum(s)) / n)
  }

  lemma WrappedSum(sum: nat, x: nat)
    ensures Wrap64(Wrap64(sum) + x) == Wrap64(sum + x)
  {
    assert sum + x == (sum % TWO_64 + x) + TWO_64 * (sum / TWO_64);
  }

  lemma NextSlot(head: nat, capacity: nat)
    requires head < capacity
    ensures (head + 1) % capacity == if head + 1 == capacity then 0 else head + 1
  {
  }

  lemma OneTurn(k: nat, capacity: nat)
    requires k < capacity
    ensures (k + capacity) % capacity == k
  {
    assert k + capacity == capacity * 1 + k;
    assert (k + capacity) / capacity == 1;
  }

  lemma RingSlot(head: nat, i: nat, capacity: nat)
    requires head < capacity && i < capacity
    ensures (head + i) % capacity == if head + i < capacity then head + i else head + i - capacity
  {
    if head + i >= capacity {
      OneTurn(head + i - capacity, capacity);
    }
  }

  // One more push: the oldest leaves a full Window.
  lemma RecentNext(pushed: seq<Sample>, s: Sample, n: nat)
    requires n > 0
    ensures Recent(pushed + [s], n) == (if |pushed| >= n then Recent(pushed, n)[1..] else Recent(pushed, n)) + [s]
  {
  }

  // The Samples of a ring, oldest first: all of it from the head round once it
  // has wrapped, before that what was written.
  function Unrolled(ring: seq<Sample>, head: nat, filled: bool): seq<Sample>
    requires head <= |ring|
  {
    if filled then ring[head..] + ring[..head] else ring[..head]
  }

  // A write short of the ring's end.
  lemma WriteInside(ring: seq<Sample>, head: nat, filled: bool, s: Sample)
    requires head + 1 < |ring|
    ensures Unrolled(ring[head := s], head + 1, filled)
            == (if filled then Unrolled(ring, head, filled)[1..] else Unrolled(ring, head, filled)) + [s]
  {
    var next := ring[head := s];
    assert next[..head+1] == ring[..head] + [s];
    assert next[head+1..] == ring[head+1..];
    if filled {
      assert Unrolled(ring, head, true)[1..] == ring[head+1..] + ring[..head];
    }
  }

  // The write that completes the ring: from here on it is full.
  lemma WriteLast(ring: seq<Sample>, head: nat, filled: bool, s: Sample)
    requires head + 1 == |ring|
    ensures Unrolled(ring[head := s], 0, true)
            == (if filled then Unrolled(ring, head, filled)[1..] else Unrolled(ring, head, filled)) + [s]
  {
    var next := ring[head := s];
    assert next == ring[..head] + [s];
    assert next[0..] + next[..0] == next;
    if filled {
      assert Unrolled(ring, head, true) == [ring[head]] + ring[..head];
    }
  }

  class WindowStats {
    const capacity: nat
    const samples: array<Sample>
    var head: nat
    var filled: bool
    ghost var pushed: seq<Sample>

    // The ring holds exactly the last capacity Samples ever pushed, in order.
    ghost predicate Valid()
      reads this, samples
    {
      && samples.Length == capacity && head < capacity
      && (filled <==> |pushed| >= capacity)
      && (!filled ==> head == |pushed|)
      && Unrolled(samples[..], head, filled) == Recent(pushed, capacity)
    }

    constructor (capacity: nat)
      requires capacity > 0
      ensures Valid() && fresh(samples)
      ensures pushed == [] && this.capacity == capacity
    {
      this.capacity := capacity;
      samples := new Sample[capacity](_ => Sample(0, false));
      head, filled, pushed := 0, false, [];
    }

    method Push(s: Sample)
      requires Valid()
      modifies this, samples
      ensures Valid()
      ensures pushed == old(pushed) + [s]
    {
      RecentNext(pushed, s, capacity);
      NextSlot(head, capacity);
      if head + 1 < capacity {
        WriteInside(samples[..], head, filled, s);
      } else {
        WriteLast(samples[..], head, filled, s);
      }
      ghost var ring := samples[..];
      samples[head] := s;
      assert samples[..] == ring[head := s];
      head := (head + 1) % capacity;
      if head == 0 {
        filled := true;
      }
      pushed := pushed + [s];
    }

    function Len(): (n: nat)
      requires Valid()
      reads this, samples
      ensures n == |Recent(pushed, capacity)|
    {
      if filled then capacity else head
    }

    function Filled(): (full: bool)
      requires Valid()
      reads this, samples
      ensures full <==> |pushed| >= capacity
    {
      filled
    }

    // The i-th oldest Sample, wherever it sits in the ring.
    method At(i: nat) returns (s: Sample)
      requires Valid() && i < Len()
      ensures s == Recent(pushed, capacity)[i]
    {
      RingSlot(head, i, capacity);
      s := if !filled then samples[i] else samples[(head + i) % capacity];
    }

    method LossCounts() returns (lost: nat, total: nat)
      requires Valid()
      ensures lost == Losses(Recent(pushed, capacity))
      ensures total == |Recent(pushed, capacity)|
    {
      ghost var all := Recent(pushed, capacity);
      lost := 0;
      for i := 0 to Len()
        invariant lost == Losses(all[..i])
      {
        assert all[..i+1][..i] == all[..i];
        var s := At(i);
        if s.lost {
          lost := lost + 1;
        }
      }
      assert all[..|all|] == all;
      total := Len();
    }

    method MeanRTT() returns (mean: Option<nat>)
      requires Valid()
      ensures mean == MeanRttOf(Recent(pushed, capacity))
    {
      ghost var all := Recent(pushed, capacity);
      var sum: nat, n: nat := 0, 0;
      for i := 0 to Len()
        invariant SumsUpTo(all, i, sum, n)
      {
        SumsNext(all, i, sum, n);
        var s := At(i);
        if !s.lost {
          sum := Wrap64(sum + s.rttMicros);
          n := n + 1;
        }
      }
      MeanOfSums(all, sum, n);
      mean := if n == 0 then None else Some(sum / n);
    }
  }

  lemma MeanOfSums(all: seq<Sample>, sum: nat, n: nat)
    requires SumsUpTo(all, |all|, sum, n)
    ensures MeanRttOf(all) == if n == 0 then None else Some(sum / n)
  {
    assert all[..|all|] == all;
  }

  // The wrapped RTT sum and the number of replies of the first i Samples.
  ghost predicate SumsUpTo(all: seq<Sample>, i: nat, sum: nat, n: nat) {
    i <= |all| && sum == Wrap64(RttSum(all[..i])) && n == i - Losses(all[..i])
  }

  lemma SumsNext(all: seq<Sample>, i: nat, sum: nat, n: nat)
    requires SumsUpTo(all, i, sum, n) && i < |all|
    ensures if all[i].lost then SumsUpTo(all, i + 1, sum, n)
            else SumsUpTo(all, i + 1, Wrap64(sum + all[i].rttMicros), n + 1)
  {
    assert all[..i+1][..i] == all[..i];
    WrappedSum(RttSum(all[..i]), all[i].rttMicros);
  }

  // Rejects a capacity that holds nothing.
  method NewWindow(capacity: int) returns (w: WindowStats?)
    ensures capacity <= 0 <==> w == null
    ensures w != null ==> w.Valid() && w.pushed == [] && w.capacity == capacity && fresh(w) && fresh(w.samples)
  {
    if capacity <= 0 {
      return null;
    }
    w := new WindowStats(capacity);
  }

  // ---- What a Window's contents say about its Samples, over runs of pushes

  // What one Sample more adds to the sums.
  lemma SumsInFull(s: seq<Sample>, x: Sample)
    ensures Losses([]) == 0 && RttSum([]) == 0
    ensures Losses(s + [x]) == if x.lost then Losses(s) + 1 else Losses(s)
    ensures RttSum(s + [x]) == if x.lost then RttSum(s) else RttSum(s) + x.rttMicros
  {
    assert (s + [x])[..|s|] == s;
  }

  lemma {:induction false} LossesConcat(a: seq<Sample>, b: seq<Sample>)
    ensures Losses(a + b) == Losses(a) + Losses(b)
  {
    if b == [] {
      assert a + b == a;
    } else {
      assert (a + b)[..|a + b|-1] == a + b[..|b|-1];
      LossesConcat(a, b[..|b|-1]);
    }
  }

  predicate RttsWithin(s: seq<Sample>, bound: nat) {
    forall i :: 0 <= i < |s| ==> s[i].lost || s[i].rttMicros <= bound
  }

  lemma {:induction false} RttSumWithin(s: seq<Sample>, bound: nat)
    requires RttsWithin(s, bound)
    ensures Losses(s) <= |s| && RttSum(s) <= bound * (|s| - Losses(s))
  {
    LossesAreSamples(s);
    if s != [] {
      RttSumWithin(s[..|s|-1], bound);
      var n := |s| - 1 - Losses(s[..|s|-1]);
      assert bound * (n + 1) == bound * n + bound;
    }
  }

  // As long as the round trips sum to less than 2^64 the mean is the arithmetic one.
  lemma MeanIsArithmetic(s: seq<Sample>)
    requires RttSum(s) < TWO_64
    ensures Losses(s) <= |s|
    ensures MeanRttOf(s) == if Losses(s) == |s| then None else Some(RttSum(s) / (|s| - Losses(s)))
  {
    LossesAreSamples(s);
  }
}
