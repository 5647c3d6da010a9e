/** The upper-layer checksum of ICMPv6 and UDP over IPv6
    (mvirt-ebpf/src/proto_handler.rs), against the sum a receiver computes:
    section 1 of RFC 1071 over the pseudo-header of section 8.1 of RFC 8200. */
module Checksum {
  type Byte = x: int | 0 <= x < 0x100
  type U16 = x: int | 0 <= x < 0x1_0000
  type U32 = x: int | 0 <= x < 0x1_0000_0000

  const ICMPV6: Byte := 58
  const UDP: Byte := 17

  // ------------------------------------------------------ what a receiver does

  /** Sum of big-endian 16-bit words; an odd last byte is padded with zero. */
  function WordSum(data: seq<Byte>): nat
    decreases |data|
  {
    if |data| == 0 then 0
    else if |data| == 1 then data[0] * 0x100
    else data[0] * 0x100 + data[1] + WordSum(data[2..])
  }

  /** Source, destination, 32-bit length, three zero bytes and next header. */
  function PseudoHeader(src: seq<Byte>, dst: seq<Byte>, length: U32, next: Byte): seq<Byte> {
    src + dst + LengthBytes(length) + [0, 0, 0, next]
  }

  function LengthBytes(length: U32): (r: seq<Byte>)
    ensures |r| == 4
  {
    [length / 0x100_0000, length / 0x1_0000 % 0x100, length / 0x100 % 0x100, length % 0x100]
  }

  /** One's-complement reduction to 16 bits: end-around carry until none is left. */
  function Fold(n: nat): (r: U16)
    ensures r % 0xffff == n % 0xffff
    ensures r == 0 <==> n == 0
    decreases n
  {
    if n <= 0xffff then n
    else
      CarryKeepsResidue(n);
      Fold(n % 0x1_0000 + n / 0x1_0000)
  }

  lemma CarryKeepsResidue(n: nat)
    ensures (n % 0x1_0000 + n / 0x1_0000) % 0xffff == n % 0xffff
    ensures n > 0xffff ==> 0 < n % 0x1_0000 + n / 0x1_0000 < n
  {
    var hi, lo := n / 0x1_0000, n % 0x1_0000;
    assert n == (lo + hi) + hi * 0xffff;
    AddMultiple(lo + hi, hi);
  }

  lemma {:induction false} AddMultiple(a: nat, k: nat)
    ensures (a + k * 0xffff) % 0xffff == a % 0xffff
    decreases k
  {
    if k > 0 {
      AddMultiple(a, k - 1);
      assert a + k * 0xffff == (a + (k - 1) * 0xffff) + 0xffff;
    }
  }

  /** A receiver accepts a packet whose sum, checksum included, is all ones. */
  predicate Verifies(src: seq<Byte>, dst: seq<Byte>, data: seq<Byte>, next: Byte)
    requires |data| < 0x1_0000_0000
  {
    Fold(WordSum(PseudoHeader(src, dst, |data|, next) + data)) == 0xffff
  }

  // ------------------------------------------------------- what the code sums

  /** The code adds the words of both addresses, the length and the next header
      as plain numbers, then the words of the data. */
  function Total(src: seq<Byte>, dst: seq<Byte>, data: seq<Byte>, next: Byte): nat {
    WordSum(src) + WordSum(dst) + |data| + next + WordSum(data)
  }

  function FromTotal(total: nat): (r: U16)
    ensures r > 0 && (total + r) % 0xffff == 0
  {
    var folded := Fold(total);
    ComplementCancels(total, folded);
    if folded == 0xffff then 0xffff else 0xffff - folded
  }

  lemma ComplementCancels(total: nat, folded: U16)
    requires folded % 0xffff == total % 0xffff
    ensures (total + (0xffff - folded)) % 0xffff == 0
    ensures folded == 0xffff ==> (total + 0xffff) % 0xffff == 0
  {
  }

  lemma {:induction false} WordSumAppend(a: seq<Byte>, b: seq<Byte>)
    requires |a| % 2 == 0
    ensures WordSum(a + b) == WordSum(a) + WordSum(b)
    decreases |a|
  {
    if a == [] {
      assert a + b == b;
    } else {
      WordSumAppend(a[2..], b);
      assert (a + b)[2..] == a[2..] + b;
    }
  }

  lemma TwoWords(a: Byte, b: Byte, c: Byte, d: Byte)
    ensures WordSum([a, b, c, d]) == a * 0x100 + b + c * 0x100 + d
  {
    assert [a, b, c, d][2..] == [c, d] && [c, d][2..] == [];
    assert WordSum([c, d]) == c * 0x100 + d;
  }

  lemma ShortLength(n: U16)
    ensures WordSum(LengthBytes(n)) == n
  {
    TwoWords(n / 0x100_0000, n / 0x1_0000 % 0x100, n / 0x100 % 0x100, n % 0x100);
  }

  lemma FourParts(a: seq<Byte>, b: seq<Byte>, c: seq<Byte>, d: seq<Byte>)
    requires |a| % 2 == 0 && |b| % 2 == 0 && |c| % 2 == 0
    ensures WordSum(a + b + c + d) == WordSum(a) + WordSum(b) + WordSum(c) + WordSum(d)
  {
    hide WordSum;
    WordSumAppend(a, b);
    WordSumAppend(a + b, c);
    WordSumAppend(a + b + c, d);
  }

  /** Up to 65535 bytes, the code's sum is the receiver's sum. */
  lemma TotalIsWordSum(src: seq<Byte>, dst: seq<Byte>, data: seq<Byte>, next: Byte)
    requires |src| % 2 == 0 && |dst| % 2 == 0 && |data| <= 0xffff
    ensures WordSum(PseudoHeader(src, dst, |data|, next) + data) == Total(src, dst, data, next)
  {
    hide WordSum, LengthBytes;
    FourParts(src, dst, LengthBytes(|data|), [0, 0, 0, next]);
    ShortLength(|data|);
    TwoWords(0, 0, 0, next);
    WordSumAppend(PseudoHeader(src, dst, |data|, next), data);
  }

  // ------------------------------------------------------------ the code itself

  /** The word loop shared by addresses and data. The sum stays a 32-bit number. */
  method AddWords(sum0: U32, data: seq<Byte>) returns (sum: U32)
    requires sum0 + (|data| + 1) * 0x8000 < 0x1_0000_0000
    ensures sum == sum0 + WordSum(data)
  {
    sum := sum0;
    var i := 0;
    assert data[..0] == [] && WordSum([]) == 0;
    while i + 1 < |data|
      invariant 0 <= i <= |data| && i % 2 == 0
      invariant sum == sum0 + WordSum(data[..i])
      invariant WordSum(data[..i]) <= i * 0x8000
    {
      WordSumAppend(data[..i], data[i..i + 2]);
      assert data[..i + 2] == data[..i] + data[i..i + 2];
      assert data[i..i + 2][2..] == [];
      sum := sum + (data[i] as int * 0x100 + data[i + 1]);
      i := i + 2;
    }
    WordSumAppend(data[..i], data[i..]);
    assert data == data[..i] + data[i..];
    if i < |data| {
      sum := sum + data[i] as int * 0x100;
    }
  }

  /** `compute_icmpv6_checksum` and `compute_udp6_checksum`, which differ only in
      the next header they add. */
  method Compute(src: seq<Byte>, dst: seq<Byte>, data: seq<Byte>, next: Byte) returns (r: U16)
    requires |src| == 16 && |dst| == 16 && |data| <= 0xffff
    ensures r == FromTotal(Total(src, dst, data, next))
  {
    var sum: U32 := AddWords(0, src);
    WordSumBound(src);
    sum := AddWords(sum, dst);
    WordSumBound(dst);
    sum := sum + |data|;
    sum := sum + next;
    sum := AddWords(sum, data);
    ghost var total := sum;
    while sum > 0xffff
      invariant Fold(sum) == Fold(total)
      decreases sum
    {
      CarryKeepsResidue(sum);
      sum := sum % 0x1_0000 + sum / 0x1_0000;
    }
    var result: U16 := 0xffff - sum;
    r := if result == 0 then 0xffff else result;
  }

  lemma {:induction false} WordSumBound(data: seq<Byte>)
    ensures WordSum(data) <= (|data| + 1) * 0x8000
    decreases |data|
  {
    if |data| >= 2 {
      WordSumBound(data[2..]);
    }
  }

  // --------------------------------------------------------- storing the result

  /** `data[at..at + 2].copy_from_slice(&w.to_be_bytes())`. */
  function Store(data: seq<Byte>, at: nat, w: U16): seq<Byte>
    requires at + 1 < |data|
  {
    var hi: Byte, lo: Byte := w / 0x100, w % 0x100;
    data[..at] + [hi, lo] + data[at + 2..]
  }

  /** Writing a word into a zero field at an even offset adds it to the sum. */
  lemma StoredWordIsAdded(data: seq<Byte>, at: nat, w: U16)
    requires at % 2 == 0 && at + 1 < |data| && data[at] == 0 && data[at + 1] == 0
    ensures WordSum(Store(data, at, w)) == WordSum(data) + w
  {
    var hi: Byte, lo: Byte := w / 0x100, w % 0x100;
    var before, after := data[..at], data[at + 2..];
    assert data == before + ([0, 0] + after);
    assert Store(data, at, w) == before + ([hi, lo] + after);
    WordSumAppend(before, [0, 0] + after);
    WordSumAppend(before, [hi, lo] + after);
    assert ([0, 0] + after)[2..] == after && ([hi, lo] + after)[2..] == after;
  }

  lemma AllOnesIff(n: nat)
    ensures Fold(n) == 0xffff <==> n > 0 && n % 0xffff == 0
  {
  }

  /** Among the sixteen-bit values other than zero, exactly the computed one makes
      the packet verify. */
  lemma VerifiesIffChecksum(src: seq<Byte>, dst: seq<Byte>, data: seq<Byte>, next: Byte, at: nat, w: U16)
    requires |src| == 16 && |dst| == 16 && |data| <= 0xffff && w > 0
    requires at % 2 == 0 && at + 1 < |data| && data[at] == 0 && data[at + 1] == 0
    ensures Verifies(src, dst, Store(data, at, w), next)
            <==> w == FromTotal(Total(src, dst, data, next))
  {
    var stored := Store(data, at, w);
    StoredWordIsAdded(data, at, w);
    TotalIsWordSum(src, dst, stored, next);
    var total := Total(src, dst, data, next);
    assert Total(src, dst, stored, next) == total + w;
    AllOnesIff(total + w);
    OneComplement(total, w, FromTotal(total));
  }

  lemma OneComplement(total: nat, w: U16, c: U16)
    requires w > 0 && c > 0 && (total + c) % 0xffff == 0
    ensures (total + w) % 0xffff == 0 <==> w == c
  {
  }

  /** The callers: clear the field, compute, store. Whatever the buffer held in
      the field, the receiver accepts the result; nothing else is touched. */
  method Seal(buf: array<Byte>, at: nat, src: seq<Byte>, dst: seq<Byte>, next: Byte)
    requires |src| == 16 && |dst| == 16 && buf.Length <= 0xffff
    requires at % 2 == 0 && at + 1 < buf.Length
    modifies buf
    ensures Verifies(src, dst, buf[..], next)
    ensures forall k :: 0 <= k < buf.Length && k != at && k != at + 1 ==> buf[k] == old(buf[k])
  {
    buf[at], buf[at + 1] := 0, 0;
    ghost var zeroed := buf[..];
    var checksum := Compute(src, dst, buf[..], next);
    buf[at], buf[at + 1] := checksum / 0x100, checksum % 0x100;
    assert buf[..] == Store(zeroed, at, checksum);
    VerifiesIffChecksum(src, dst, zeroed, next, at, checksum);
  }

  /** The echo reply of `process_icmpv6_echo`: the request with type, code and
      checksum replaced. */
  method EchoReply(request: array<Byte>, gateway: seq<Byte>, peer: seq<Byte>)
    requires |gateway| == 16 && |peer| == 16 && 4 <= request.Length <= 0xffff
    modifies request
    ensures Verifies(gateway, peer, request[..], ICMPV6)
    ensures request[0] == 129 && request[1] == 0 && request[4..] == old(request[4..])
  {
    request[0], request[1] := 129, 0;
    Seal(request, 2, gateway, peer, ICMPV6);
  }

  /** The DHCPv6 answer: header with ports 547 and 546, length and checksum, then
      the payload. */
  method UdpDatagram(buf: array<Byte>, payload: seq<Byte>, gateway: seq<Byte>, peer: seq<Byte>)
    requires |gateway| == 16 && |peer| == 16 && buf.Length == 8 + |payload| <= 0xffff
    modifies buf
    ensures Verifies(gateway, peer, buf[..], UDP)
    ensures buf[..4] == [2, 35, 2, 34] && buf[4] as int * 0x100 + buf[5] == buf.Length && buf[8..] == payload
  {
    buf[0], buf[1] := 2, 35;
    buf[2], buf[3] := 2, 34;
    buf[4], buf[5] := buf.Length / 0x100, buf.Length % 0x100;
    for i := 0 to |payload|
      invariant buf[..4] == [2, 35, 2, 34] && buf[4] as int * 0x100 + buf[5] == buf.Length
      invariant forall j :: 0 <= j < i ==> buf[8 + j] == payload[j]
    {
      buf[8 + i] := payload[i];
    }
    Seal(buf, 6, gateway, peer, UDP);
  }
}
