// The ICMP echo codec: building a request in a buffer, the RFC 1071 checksum
// over a 32-bit accumulator, and parsing a reply.
module Icmp {
  import opened Basics

  type Byte = b: int | 0 <= b < 0x100
  type Word = w: int | 0 <= w < 0x1_0000

  const TWO_16 := 0x1_0000
  const TWO_32 := 0x1_0000_0000

  // The longest packet whose words cannot overflow the accumulator.
  const MAX_SUMMED := 131074

  const ICMPV4_ECHO_REQUEST: Byte := 8
  const ICMPV4_ECHO_REPLY: Byte := 0
  const ICMPV6_ECHO_REQUEST: Byte := 128
  const ICMPV6_ECHO_REPLY: Byte := 129

  function RequestType(f: Family): Byte {
    if f == V6 then ICMPV6_ECHO_REQUEST else ICMPV4_ECHO_REQUEST
  }

  function ReplyType(f: Family): Byte {
    if f == V6 then ICMPV6_ECHO_REPLY else ICMPV4_ECHO_REPLY
  }

  function Be16(w: Word): seq<Byte> {
    [w / 0x100, w % 0x100]
  }

  function Word16(b: seq<Byte>, i: nat): Word
    requires i + 1 < |b|
  {
    b[i] as int * 0x100 + b[i + 1]
  }

  // ---- The checksum

  // The words before position i, summed without bound.
  function WordsUpTo(b: seq<Byte>, i: nat): nat
    requires i <= |b| && i % 2 == 0
  {
    if i == 0 then 0 else WordsUpTo(b, i - 2) + Word16(b, i - 2)
  }

  // Every word, a last odd byte padded with zero (RFC 1071, section 4.1).
  function WordSum(b: seq<Byte>): nat {
    if |b| % 2 == 1 then WordsUpTo(b, |b| - 1) + b[|b| - 1] as int * 0x100 else WordsUpTo(b, |b|)
  }

  // Carries folded back in until none is left.
  function Folded(sum: nat): (w: Word)
    decreases sum
  {
    if sum < TWO_16 then sum else Folded(sum % TWO_16 + sum / TWO_16)
  }

  // What the code computes: the sum wraps at 32 bits, then folds.
  function Checksum(b: seq<Byte>): Word {
    0xFFFF - Folded(WordSum(b) % TWO_32)
  }

  // The sum byte by byte: a byte at an even position is the high half of a
  // word, one at an odd position the low half.
  lemma WordSumInFull(b: seq<Byte>, high: Byte, low: Byte)
    requires |b| % 2 == 0
    ensures WordSum([]) == 0
    ensures WordSum(b + [high]) == WordSum(b) + 256 * high
    ensures WordSum(b + [high, low]) == WordSum(b) + 256 * high + low
  {
    SamePrefixSum(b, b + [high], |b|);
    SamePrefixSum(b, b + [high, low], |b|);
  }

  lemma {:induction false} SamePrefixSum(a: seq<Byte>, b: seq<Byte>, i: nat)
    requires i <= |a| <= |b| && a == b[..|a|] && i % 2 == 0
    ensures WordsUpTo(a, i) == WordsUpTo(b, i)
  {
    if i > 0 {
      SamePrefixSum(a, b, i - 2);
      assert a[i-2] == b[i-2] && a[i-1] == b[i-1];
    }
  }

  // Folding keeps the sum modulo 65535, and only nothing folds to nothing.
  lemma {:induction false} FoldKeepsModulo(sum: nat)
    ensures Folded(sum) % 0xFFFF == sum % 0xFFFF
    ensures Folded(sum) == 0 <==> sum == 0
    decreases sum
  {
    if sum >= TWO_16 {
      FoldKeepsModulo(sum % TWO_16 + sum / TWO_16);
      FoldOnce(sum % TWO_16, sum / TWO_16);
    }
  }

  // A carry is worth 65536, which is 1 modulo 65535.
  lemma FoldOnce(low: nat, high: nat)
    ensures (low + TWO_16 * high) % 0xFFFF == (low + high) % 0xFFFF
  {
    assert low + TWO_16 * high == (low + high) + 0xFFFF * high;
  }

  // So a multiple of 65535 other than 0 folds to all ones, and only that does.
  lemma AllOnes(sum: nat)
    ensures Folded(sum) == 0xFFFF <==> sum > 0 && sum % 0xFFFF == 0
  {
    FoldKeepsModulo(sum);
  }

  lemma {:induction false} WordsAreBounded(b: seq<Byte>, i: nat)
    requires i <= |b| && i % 2 == 0
    ensures WordsUpTo(b, i) <= i / 2 * 0xFFFF
  {
    if i > 0 {
      WordsAreBounded(b, i - 2);
    }
  }

  // Up to 131074 bytes the 32-bit sum is the true one.
  lemma ShortSumsFit(b: seq<Byte>)
    requires |b| <= MAX_SUMMED
    ensures WordSum(b) < TWO_32
  {
    WordsAreBounded(b, |b| - |b| % 2);
  }

  lemma {:induction false} OnesSum(b: seq<Byte>, i: nat)
    requires i <= |b| && i % 2 == 0 && forall j :: 0 <= j < |b| ==> b[j] == 0xFF
    ensures WordsUpTo(b, i) == i / 2 * 0xFFFF
  {
    if i > 0 {
      OnesSum(b, i - 2);
    }
  }

  // One byte more and it need not be: bytes all ones overflow at every length
  // past the bound.
  lemma LongSumsOverflow(n: nat) returns (b: seq<Byte>)
    requires n > MAX_SUMMED
    ensures |b| == n && WordSum(b) >= TWO_32
  {
    b := seq(n, _ => 0xFF);
    OnesSum(b, n - n % 2);
  }

  // The Internet checksum itself, on a sum without bound (RFC 1071, section 1).
  function TrueChecksum(b: seq<Byte>): Word {
    0xFFFF - Folded(WordSum(b))
  }

  // Two sums fold to the same word exactly when they agree modulo 65535 and
  // both or neither are 0.
  lemma SameFold(x: nat, y: nat)
    ensures Folded(x) == Folded(y) <==> x % 0xFFFF == y % 0xFFFF && (x == 0 <==> y == 0)
  {
    FoldKeepsModulo(x);
    FoldKeepsModulo(y);
  }

  lemma AddMultiple(x: int, q: int)
    ensures (x + 0xFFFF * q) % 0xFFFF == x % 0xFFFF
  {
  }

  // An addend goes unseen modulo 65535 exactly when it is a multiple of it.
  lemma UnseenAddend(x: nat, y: nat)
    ensures (x + y) % 0xFFFF == x % 0xFFFF <==> y % 0xFFFF == 0
  {
    var r, t := x % 0xFFFF, y % 0xFFFF;
    AddMultiple(r + t, x / 0xFFFF + y / 0xFFFF);
    assert x + y == (r + t) + 0xFFFF * (x / 0xFFFF + y / 0xFFFF);
    assert (r + t) % 0xFFFF == if r + t < 0xFFFF then r + t else r + t - 0xFFFF;
  }

  // An overflow drops 2^32, which is 1 modulo 65535.
  lemma OverflowIsOne(kept: nat, lost: nat)
    ensures (kept + TWO_32 * lost) % 0xFFFF == (kept + lost) % 0xFFFF
  {
    AddMultiple(kept + lost, 0x10001 * lost);
  }

  // What is kept of a sum agrees with it modulo 65535 exactly when the number
  // of overflows is a multiple of 65535.
  lemma LostModulo(sum: nat)
    ensures sum % TWO_32 % 0xFFFF == sum % 0xFFFF <==> sum / TWO_32 % 0xFFFF == 0
  {
    OverflowIsOne(sum % TWO_32, sum / TWO_32);
    UnseenAddend(sum % TWO_32, sum / TWO_32);
  }

  // For any buffer at all, the code's checksum is the true one exactly when
  // the accumulator overflowed a multiple of 65535 times and did not drop a
  // sum to 0.
  lemma ChecksumIsTrueUnlessOverflowed(b: seq<Byte>)
    ensures Checksum(b) == TrueChecksum(b)
            <==> WordSum(b) / TWO_32 % 0xFFFF == 0 && (WordSum(b) % TWO_32 == 0 ==> WordSum(b) == 0)
  {
    SameFold(WordSum(b) % TWO_32, WordSum(b));
    LostModulo(WordSum(b));
  }

  // So the bound is exact: the first buffer past it can be summed wrong.
  lemma OnesAreSummedWrong(b: seq<Byte>)
    requires |b| == MAX_SUMMED + 1 && forall i :: 0 <= i < |b| ==> b[i] == 0xFF
    ensures Checksum(b) != TrueChecksum(b)
  {
    OnesSum(b, MAX_SUMMED);
    assert WordSum(b) == 65537 * 0xFFFF + 0xFF00;
    ChecksumIsTrueUnlessOverflowed(b);
  }

  method InternetChecksum(b: array<Byte>) returns (c: Word)
    ensures c == Checksum(b[..])
  {
    var sum: nat := SumWords(b);
    while sum / TWO_16 != 0
      invariant Folded(sum) == Folded(WordSum(b[..]) % TWO_32)
      decreases sum
    {
      sum := sum % TWO_16 + sum / TWO_16;
    }
    c := 0xFFFF - sum;
  }

  // The 32-bit accumulator, wrapping at each addition.
  method SumWords(b: array<Byte>) returns (sum: nat)
    ensures sum == WordSum(b[..]) % TWO_32
  {
    sum := 0;
    var n := b.Length;
    var i := 0;
    while i + 1 < n
      invariant 0 <= i <= n && i % 2 == 0
      invariant sum == WordsUpTo(b[..], i) % TWO_32
    {
      var word := b[i] as int * 0x100 + b[i + 1];
      WrappedSum(WordsUpTo(b[..], i), word);
      sum := (sum + word) % TWO_32;
      i := i + 2;
    }
    if n % 2 == 1 {
      var word := b[n - 1] as int * 0x100;
      WrappedSum(WordsUpTo(b[..], n - 1), word);
      sum := (sum + word) % TWO_32;
    }
  }

  lemma WrappedSum(sum: nat, w: nat)
    ensures (sum % TWO_32 + w) % TWO_32 == (sum + w) % TWO_32
  {
    assert sum == sum % TWO_32 + TWO_32 * (sum / TWO_32);
    assert sum + w == (sum % TWO_32 + w) + TWO_32 * (sum / TWO_32);
  }

  // ---- The request

  // A request with the checksum field as given.
  function Unsigned(f: Family, ident: Word, sequence: Word, payload: seq<Byte>, checksum: Word): seq<Byte> {
    [RequestType(f), 0] + Be16(checksum) + Be16(ident) + Be16(sequence) + payload
  }

  function Request(f: Family, ident: Word, sequence: Word, payload: seq<Byte>): seq<Byte> {
    Unsigned(f, ident, sequence, payload, if f == V4 then Checksum(Unsigned(f, ident, sequence, payload, 0)) else 0)
  }

  // The request field by field: the type of the Family's echo request, code 0,
  // ident and sequence high byte first, the payload; the checksum that of the
  // packet with a zero checksum field for IPv4, and zero for IPv6.
  lemma RequestInFull(f: Family, ident: Word, sequence: Word, payload: seq<Byte>)
    ensures var b := Request(f, ident, sequence, payload);
            && |b| == 8 + |payload| && b[8..] == payload
            && b[0] == (if f == V4 then 8 else 128) && b[1] == 0
            && 256 * (b[4] as int) + b[5] == ident && 256 * (b[6] as int) + b[7] == sequence
            && 256 * (b[2] as int) + b[3] == if f == V4 then Checksum(b[2 := 0][3 := 0]) else 0
  {
    var c := if f == V4 then Checksum(Unsigned(f, ident, sequence, payload, 0)) else 0;
    var b := Unsigned(f, ident, sequence, payload, c);
    assert b[2 := 0][3 := 0] == Unsigned(f, ident, sequence, payload, 0);
    assert b[8..] == payload;
  }

  method PutUint16(b: array<Byte>, i: nat, w: Word)
    requires i + 1 < b.Length
    modifies b
    ensures b[..] == old(b[..])[i := w / 0x100][i + 1 := w % 0x100]
  {
    b[i] := w / 0x100;
    b[i + 1] := w % 0x100;
  }

  method EchoRequestBytes(f: Family, ident: Word, sequence: Word, payload: seq<Byte>) returns (b: array<Byte>)
    ensures fresh(b) && b[..] == Request(f, ident, sequence, payload)
  {
    b := new Byte[8 + |payload|](_ => 0);
    WriteFields(b, f, ident, sequence, payload);
    if f == V4 {
      var c := InternetChecksum(b);
      PutUint16(b, 2, c);
      assert b[..] == Unsigned(f, ident, sequence, payload, c);
    }
  }

  // Everything but the checksum, into a zeroed buffer.
  method WriteFields(b: array<Byte>, f: Family, ident: Word, sequence: Word, payload: seq<Byte>)
    requires b.Length == 8 + |payload| && forall i :: 0 <= i < b.Length ==> b[i] == 0
    modifies b
    ensures b[..] == Unsigned(f, ident, sequence, payload, 0)
  {
    b[0] := RequestType(f);
    b[1] := 0;
    PutUint16(b, 4, ident);
    PutUint16(b, 6, sequence);
    assert b[..8] == Unsigned(f, ident, sequence, [], 0);
    Copy(b, payload);
    assert b[..] == b[..8] + b[8..];
  }

  method Copy(b: array<Byte>, payload: seq<Byte>)
    requires b.Length == 8 + |payload|
    modifies b
    ensures b[..8] == old(b[..8]) && b[8..] == payload
  {
    for i := 0 to |payload|
      invariant b[..8] == old(b[..8])
      invariant b[8..8 + i] == payload[..i]
    {
      b[8 + i] := payload[i];
      assert b[8..8 + i + 1] == b[8..8 + i] + [payload[i]];
    }
    assert payload[..|payload|] == payload;
    assert b[8..8 + |payload|] == b[8..];
  }

  lemma {:induction false} ChecksumWordAdds(f: Family, ident: Word, sequence: Word, payload: seq<Byte>, c: Word, i: nat)
    requires i % 2 == 0 && i <= 8 + |payload|
    ensures WordsUpTo(Unsigned(f, ident, sequence, payload, c), i)
            == WordsUpTo(Unsigned(f, ident, sequence, payload, 0), i) + if i >= 4 then c else 0
  {
    if i > 0 {
      ChecksumWordAdds(f, ident, sequence, payload, c, i - 2);
      var with, without := Unsigned(f, ident, sequence, payload, c), Unsigned(f, ident, sequence, payload, 0);
      assert forall j :: 0 <= j < |with| && j != 2 && j != 3 ==> with[j] == without[j];
      assert with[2] == c / 0x100 && with[3] == c % 0x100 && without[2] == 0 && without[3] == 0;
    }
  }

  // Filling the checksum field adds it to the sum, which is never 0.
  lemma FilledSum(f: Family, ident: Word, sequence: Word, payload: seq<Byte>, c: Word)
    ensures WordSum(Unsigned(f, ident, sequence, payload, c)) == WordSum(Unsigned(f, ident, sequence, payload, 0)) + c
  {
    var with, without := Unsigned(f, ident, sequence, payload, c), Unsigned(f, ident, sequence, payload, 0);
    ChecksumWordAdds(f, ident, sequence, payload, c, |with| - |with| % 2);
    assert |with| % 2 == 1 ==> with[|with| - 1] == without[|with| - 1];
  }

  lemma {:induction false} TypeIsSummed(f: Family, ident: Word, sequence: Word, payload: seq<Byte>, i: nat)
    requires i % 2 == 0 && 2 <= i <= 8 + |payload|
    ensures WordsUpTo(Unsigned(f, ident, sequence, payload, 0), i) > 0
  {
    if i > 2 {
      TypeIsSummed(f, ident, sequence, payload, i - 2);
    } else {
      var b := Unsigned(f, ident, sequence, payload, 0);
      assert b[0] == RequestType(f);
      assert WordsUpTo(b, 0) == 0;
    }
  }

  // A receiver that sums without bound finds all ones.
  predicate Verifies(b: seq<Byte>) {
    Folded(WordSum(b)) == 0xFFFF
  }

  // Whatever its length, an IPv4 request carries a checksum that verifies
  // exactly when its sum overflowed a multiple of 65535 times, as it does by
  // not overflowing at all.
  lemma RequestVerifiesUnlessOverflowed(ident: Word, sequence: Word, payload: seq<Byte>)
    ensures Verifies(Request(V4, ident, sequence, payload))
            <==> WordSum(Unsigned(V4, ident, sequence, payload, 0)) / TWO_32 % 0xFFFF == 0
  {
    var sum := WordSum(Unsigned(V4, ident, sequence, payload, 0));
    var c := 0xFFFF - Folded(sum % TWO_32);
    FilledSum(V4, ident, sequence, payload, c);
    TypeIsSummed(V4, ident, sequence, payload, 8 + |payload| - |payload| % 2);
    FoldKeepsModulo(sum % TWO_32);
    AllOnes(sum + c);
    OverflowsCount(sum, Folded(sum % TWO_32));
  }

  // Completed with its complement, a sum is as many ones as it overflowed.
  lemma OverflowsCount(sum: nat, folded: Word)
    requires folded % 0xFFFF == sum % TWO_32 % 0xFFFF
    ensures (sum + (0xFFFF - folded)) % 0xFFFF == sum / TWO_32 % 0xFFFF
  {
    var kept, lost := sum % TWO_32, sum / TWO_32;
    var rest := kept + (0xFFFF - folded);
    assert rest == 0xFFFF * (kept / 0xFFFF - folded / 0xFFFF + 1);
    OverflowIsOne(rest, lost);
    AddMultiple(lost, kept / 0xFFFF - folded / 0xFFFF + 1);
  }

  lemma {:induction false} OnesRequestSum(payload: seq<Byte>, i: nat)
    requires (forall j :: 0 <= j < |payload| ==> payload[j] == 0xFF) && i % 2 == 0 && 4 <= i <= 8 + |payload|
    ensures WordsUpTo(Unsigned(V4, 0xFFFF, 0xFFFF, payload, 0), i) == 0x800 + (i - 4) / 2 * 0xFFFF
  {
    var b := Unsigned(V4, 0xFFFF, 0xFFFF, payload, 0);
    assert b[0] == 8 && b[1] == 0 && b[2] == 0 && b[3] == 0;
    assert forall j :: 4 <= j < |b| ==> b[j] == 0xFF;
    if i > 4 {
      OnesRequestSum(payload, i - 2);
    } else {
      assert WordsUpTo(b, 2) == Word16(b, 0);
    }
  }

  // And a request can be sent with a wrong one: ident, sequence and 131070
  // bytes of payload, all ones, overflow once.
  lemma LongRequestDoesNotVerify(payload: seq<Byte>)
    requires |payload| == 131070 && forall j :: 0 <= j < |payload| ==> payload[j] == 0xFF
    ensures !Verifies(Request(V4, 0xFFFF, 0xFFFF, payload))
  {
    OnesRequestSum(payload, 131078);
    assert WordSum(Unsigned(V4, 0xFFFF, 0xFFFF, payload, 0)) == 0x800 + 65537 * 0xFFFF;
    RequestVerifiesUnlessOverflowed(0xFFFF, 0xFFFF, payload);
  }

  // Within the bound the request verifies, by the code's own sum too.
  lemma RechecksumIsZero(ident: Word, sequence: Word, payload: seq<Byte>)
    requires 8 + |payload| <= MAX_SUMMED
    ensures Checksum(Request(V4, ident, sequence, payload)) == 0
    ensures Verifies(Request(V4, ident, sequence, payload))
  {
    ShortSumsFit(Unsigned(V4, ident, sequence, payload, 0));
    ShortSumsFit(Request(V4, ident, sequence, payload));
    RequestVerifiesUnlessOverflowed(ident, sequence, payload);
  }

  // ---- The reply

  datatype Parsed = Echo(ident: Word, sequence: Word) | TooShort | UnexpectedType

  function ParseEchoReply(f: Family, data: seq<Byte>): Parsed {
    if |data| < 8 then TooShort
    else if data[0] != ReplyType(f) then UnexpectedType
    else Echo(Word16(data, 4), Word16(data, 6))
  }

  // Exactly the packets of at least 8 bytes with the Family's reply type parse,
  // to the ident and sequence in bytes 4 to 7, high byte first.
  lemma ReplyInFull(f: Family, data: seq<Byte>)
    ensures ParseEchoReply(f, data).Echo? <==> |data| >= 8 && data[0] == if f == V4 then 0 else 129
    ensures ParseEchoReply(f, data).Echo? ==>
              && ParseEchoReply(f, data).ident == 256 * (data[4] as int) + data[5]
              && ParseEchoReply(f, data).sequence == 256 * (data[6] as int) + data[7]
    ensures ParseEchoReply(f, data).TooShort? <==> |data| < 8
  {
  }

  // A peer answers by flipping the type (RFC 792; RFC 4443, section 4.2), and
  // refills the checksum: the reply parses back, the request itself does not.
  lemma ReplyParsesBack(f: Family, ident: Word, sequence: Word, payload: seq<Byte>, checksum: Word)
    ensures ParseEchoReply(f, Unsigned(f, ident, sequence, payload, checksum)[0 := ReplyType(f)]) == Echo(ident, sequence)
    ensures ParseEchoReply(f, Request(f, ident, sequence, payload)) == UnexpectedType
  {
    var reply := Unsigned(f, ident, sequence, payload, checksum)[0 := ReplyType(f)];
    assert reply[4] == ident / 0x100 && reply[5] == ident % 0x100;
    assert reply[6] == sequence / 0x100 && reply[7] == sequence % 0x100;
  }
}
