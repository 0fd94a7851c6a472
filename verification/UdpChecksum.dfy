/** Raw UDP packets: header, payload and the Internet checksum (RFC 1071) over the
    packet and its pseudo-header (RFC 768, and section 8.1 of RFC 8200). */
module UdpChecksum {
  import opened Common

  newtype byte = x: int | 0 <= x < 0x100
  newtype uint16 = x: int | 0 <= x < 0x1_0000
  newtype uint32 = x: int | 0 <= x < 0x1_0000_0000

  type Bytes = seq<byte>

  const UDP: byte := 17
  const MAX_V4_PAYLOAD := 65507
  const MAX_V6_PAYLOAD := 65527

  // ------ One's complement arithmetic ------

  // The 16-bit one's complement value of a sum: its residue, where a nonzero
  // multiple of 0xFFFF is all ones.
  function Fold(n: nat): (r: nat)
    ensures r <= 0xFFFF
  {
    if n == 0 then 0 else (n - 1) % 0xFFFF + 1
  }

  // The value is determined modulo 0xFFFF, and only zero has the value zero.
  lemma {:induction false} FoldMeans(n: nat)
    ensures Fold(n) % 0xFFFF == n % 0xFFFF && (Fold(n) == 0 <==> n == 0)
  {
    if n > 0 {
      var k, r := (n - 1) / 0xFFFF, (n - 1) % 0xFFFF;
      if r + 1 == 0xFFFF {
        Residue(n, k + 1, 0);
      } else {
        Residue(n, k, r + 1);
      }
    }
  }

  lemma {:induction false} Residue(n: nat, k: nat, r: nat)
    requires n == 0xFFFF * k + r && r < 0xFFFF
    ensures n % 0xFFFF == r && n / 0xFFFF == k
  {
  }

  // An end-around carry does not change the value.
  lemma {:induction false} CarryKeepsValue(n: nat)
    ensures Fold(n % 0x1_0000 + n / 0x1_0000) == Fold(n)
  {
    var q := n / 0x1_0000;
    var m := n % 0x1_0000 + q;
    assert n == m + 0xFFFF * q;
    if m > 0 {
      var k, r := (m - 1) / 0xFFFF, (m - 1) % 0xFFFF;
      Residue(n - 1, k + q, r);
    }
  }

  lemma {:induction false} SmallIsItself(n: nat)
    requires n < 0x1_0000
    ensures Fold(n) == n
  {
    if n > 0 {
      Residue(n - 1, 0, n - 1);
    }
  }

  // What completes a sum; a zero checksum is sent as all ones.
  function Completing(sum: nat): (c: nat)
    ensures 0 < c <= 0xFFFF
  {
    if Fold(sum) == 0xFFFF then 0xFFFF else 0xFFFF - Fold(sum)
  }

  // A sum with its checksum is all ones.
  lemma {:induction false} CompletedIsAllOnes(sum: nat)
    ensures Fold(sum + Completing(sum)) == 0xFFFF
  {
    var c := Completing(sum);
    var k := if sum == 0 then 0 else (sum - 1) / 0xFFFF;
    var turns := k + if sum > 0 && Fold(sum) == 0xFFFF then 1 else 0;
    assert sum + c - 1 == 0xFFFF * turns + 0xFFFE;
    Residue(sum + c - 1, turns, 0xFFFE);
  }

  // ------ Sums of bytes ------

  function Word(high: byte, low: byte): nat {
    high as nat * 0x100 + low as nat
  }

  // Big-endian 16-bit words; an odd last byte counts as a high byte.
  function Sum(data: Bytes): nat {
    if |data| == 0 then 0
    else if |data| == 1 then Word(data[0], 0)
    else Word(data[0], data[1]) + Sum(data[2..])
  }

  // The bytes at even or at odd places.
  function Column(data: Bytes, odd: bool): nat {
    if |data| == 0 then 0 else (if odd then 0 else data[0] as nat) + Column(data[1..], !odd)
  }

  // Bytes at even places count 256 times.
  lemma {:induction false} SumByColumns(data: Bytes)
    ensures Sum(data) == 0x100 * Column(data, false) + Column(data, true)
    decreases |data|
  {
    if |data| == 1 {
      assert data[1..] == [];
    } else if |data| > 1 {
      assert data[1..][1..] == data[2..];
      SumByColumns(data[2..]);
    }
  }

  // Whole words may be split off in front.
  lemma {:induction false} SumConcat(a: Bytes, b: Bytes, words: nat)
    requires |a| == 2 * words
    ensures Sum(a + b) == Sum(a) + Sum(b)
    decreases words
  {
    if words == 0 {
      assert a + b == b;
    } else {
      assert (a + b)[2..] == a[2..] + b;
      SumConcat(a[2..], b, words - 1);
    }
  }

  lemma {:induction false} SumBound(data: Bytes)
    ensures Sum(data) <= 0xFFFF * ((|data| + 1) / 2)
    decreases |data|
  {
    if |data| > 1 {
      SumBound(data[2..]);
    }
  }

  lemma {:induction false} SumPair(high: byte, low: byte)
    ensures Sum([high, low]) == Word(high, low) && Sum([high]) == Word(high, 0)
  {
    assert [high, low][2..] == [] && Sum([]) == 0;
    assert Sum([high, low]) == Word(high, low) + Sum([high, low][2..]);
  }

  lemma {:induction false} SumStep(data: Bytes, i: nat)
    requires i % 2 == 0 && i <= |data|
    ensures i + 1 < |data| ==> Sum(data[..i + 2]) == Sum(data[..i]) + Word(data[i], data[i + 1])
    ensures i + 1 == |data| ==> Sum(data) == Sum(data[..i]) + Word(data[i], 0)
  {
    if i + 1 < |data| {
      SumConcat(data[..i], [data[i], data[i + 1]], i / 2);
      SumPair(data[i], data[i + 1]);
      assert data[..i + 2] == data[..i] + [data[i], data[i + 1]];
    } else if i + 1 == |data| {
      SumConcat(data[..i], [data[i]], i / 2);
      SumPair(data[i], 0);
      assert data == data[..i] + [data[i]];
    }
  }

  // What 32 bits keep of a sum.
  ghost predicate Keeps(sum: uint32, n: nat) {
    sum as nat == n % 0x1_0000_0000
  }

  // 32-bit addition of one word.
  method AddWord(sum: uint32, high: byte, low: byte, ghost n: nat) returns (next: uint32)
    requires Keeps(sum, n)
    ensures Keeps(next, n + Word(high, low))
  {
    var wide := sum as int + high as int * 0x100 + low as int;
    WrapStep(n, Word(high, low));
    next := (wide % 0x1_0000_0000) as uint32;
  }

  lemma {:induction false} WrapStep(n: nat, word: nat)
    ensures (n + word) % 0x1_0000_0000 == (n % 0x1_0000_0000 + word) % 0x1_0000_0000
  {
    var q, r := n / 0x1_0000_0000, n % 0x1_0000_0000 + word;
    var k, low := r / 0x1_0000_0000, r % 0x1_0000_0000;
    assert n + word == 0x1_0000_0000 * (q + k) + low;
  }

  // The longest data whose sum fits 32 bits whatever it holds.
  const MAX_SUMMED := 131074

  lemma {:induction false} NoWrap(data: Bytes)
    requires |data| <= MAX_SUMMED
    ensures Sum(data) < 0x1_0000_0000
  {
    SumBound(data);
  }

  // 32 bits keep the value of a sum exactly if what they lose is a multiple of
  // 0xFFFF and they are not left with nothing of something.
  predicate Survives(n: nat) {
    (n / 0x1_0000_0000) % 0xFFFF == 0 && (n % 0x1_0000_0000 == 0 ==> n == 0)
  }

  lemma {:induction false} WrapKeepsValueIff(n: nat)
    ensures Fold(n % 0x1_0000_0000) == Fold(n) <==> Survives(n)
  {
    var q, r := n / 0x1_0000_0000, n % 0x1_0000_0000;
    assert n == 0xFFFF * (0x1_0001 * q) + (q + r);
    if r > 0 {
      var k, low := (r - 1) / 0xFFFF, (r - 1) % 0xFFFF;
      var turns, left := q / 0xFFFF, q % 0xFFFF;
      assert n - 1 == 0xFFFF * (0x1_0001 * q + turns + k) + (left + low);
      if left + low < 0xFFFF {
        Residue(n - 1, 0x1_0001 * q + turns + k, left + low);
      } else {
        Residue(n - 1, 0x1_0001 * q + turns + k + 1, left + low - 0xFFFF);
      }
    }
  }

  // ------ Data that is summed wrongly ------

  function Ones(n: nat): (data: Bytes)
    ensures |data| == n
  {
    seq(n, _ => 0xFF)
  }

  lemma {:induction false} SumOfOnes(n: nat)
    ensures Sum(Ones(n)) == 0xFFFF * (n / 2) + 0xFF00 * (n % 2)
    decreases n
  {
    if n > 1 {
      assert Ones(n)[2..] == Ones(n - 2);
      SumOfOnes(n - 2);
    }
  }

  // One byte more than always fits.
  lemma {:induction false} OnesWrap()
    ensures Fold(Sum(Ones(MAX_SUMMED + 1)) % 0x1_0000_0000) != Fold(Sum(Ones(MAX_SUMMED + 1)))
  {
    SumOfOnes(MAX_SUMMED + 1);
    WrapKeepsValueIff(Sum(Ones(MAX_SUMMED + 1)));
  }

  // The 32-bit sum of all words, before the carries are folded in.
  method WordSum(data: Bytes) returns (sum: uint32)
    ensures Keeps(sum, Sum(data))
  {
    sum := 0;
    var i := 0;
    while i + 1 < |data|
      invariant 0 <= i <= |data| && i % 2 == 0 && Keeps(sum, Sum(data[..i]))
    {
      SumStep(data, i);
      sum := AddWord(sum, data[i], data[i + 1], Sum(data[..i]));
      i := i + 2;
    }
    SumStep(data, i);
    if |data| % 2 != 0 {
      sum := AddWord(sum, data[|data| - 1], 0, Sum(data[..i]));
    } else {
      assert data[..i] == data;
    }
  }

  method InternetChecksum(data: Bytes) returns (checksum: uint16)
    ensures checksum as nat == 0xFFFF - Fold(Sum(data) % 0x1_0000_0000)
    ensures checksum as nat == 0xFFFF - Fold(Sum(data)) <==> Survives(Sum(data))
    ensures |data| <= MAX_SUMMED ==> Survives(Sum(data))
  {
    var sum := WordSum(data);
    ghost var total := sum as nat;
    while sum / 0x1_0000 != 0
      invariant Fold(sum as nat) == Fold(total)
      decreases sum
    {
      CarryKeepsValue(sum as nat);
      sum := sum % 0x1_0000 + sum / 0x1_0000;
    }
    SmallIsItself(sum as nat);
    WrapKeepsValueIff(Sum(data));
    if |data| <= MAX_SUMMED {
      NoWrap(data);
    }
    checksum := (0xFFFF - sum) as uint16;
  }

  // ------ Packets ------

  // Mapped is an IPv4 address in IPv6 form.
  datatype Ip = NoIp | V4(bytes: Bytes) | V6(bytes: Bytes) | Mapped(bytes: Bytes)

  datatype Endpoint = Endpoint(ip: Ip, port: uint16)

  predicate WellFormed(ip: Ip) {
    match ip
    case NoIp => true
    case V4(b) => |b| == 4
    case Mapped(b) => |b| == 4
    case V6(b) => |b| == 16
  }

  function Be16(n: nat): (b: Bytes)
    requires n < 0x1_0000
    ensures |b| == 2 && Word(b[0], b[1]) == n
  {
    [(n / 0x100) as byte, (n % 0x100) as byte]
  }

  // Ports and length.
  function Head(from: uint16, to: uint16, length: nat): (b: Bytes)
    requires length < 0x1_0000
    ensures |b| == 6
  {
    Be16(from as nat) + Be16(to as nat) + Be16(length)
  }

  // Network byte order.
  predicate Reads(b: Bytes, at: nat, n: nat) {
    at + 1 < |b| && b[at] as nat == n / 0x100 && b[at + 1] as nat == n % 0x100
  }

  // A receiver reads the ports and the length back.
  lemma {:induction false} HeadReads(from: uint16, to: uint16, length: nat)
    requires length < 0x1_0000
    ensures var b := Head(from, to, length);
      Reads(b, 0, from as nat) && Reads(b, 2, to as nat) && Reads(b, 4, length)
  {
    var x, y, z := Be16(from as nat), Be16(to as nat), Be16(length);
    assert (x + y + z)[0] == x[0] && (x + y + z)[1] == x[1];
    assert (x + y + z)[2] == y[0] && (x + y + z)[3] == y[1];
    assert (x + y + z)[4] == z[0] && (x + y + z)[5] == z[1];
  }

  function PseudoV4(from: Bytes, to: Bytes, length: nat): (b: Bytes)
    requires length < 0x1_0000
    ensures |b| == |from| + |to| + 4
  {
    from + to + [0, UDP] + Be16(length)
  }

  function PseudoV6(from: Bytes, to: Bytes, length: nat): (b: Bytes)
    requires length < 0x1_0000
    ensures |b| == |from| + |to| + 8
  {
    from + to + [0, 0] + Be16(length) + [0, 0, 0, UDP]
  }

  // The pseudo-headers hold both addresses, the protocol and the length.
  lemma {:induction false} PseudoReads(from: Bytes, to: Bytes, length: nat)
    requires length < 0x1_0000
    ensures var b := PseudoV4(from, to, length); var n := |from| + |to|;
      b[..|from|] == from && b[|from|..n] == to && b[n] == 0 && b[n + 1] == 17 && Reads(b, n + 2, length)
    ensures var b := PseudoV6(from, to, length); var n := |from| + |to|;
      && b[..|from|] == from && b[|from|..n] == to && b[n] == 0 && b[n + 1] == 0 && Reads(b, n + 2, length)
      && b[n + 4] == 0 && b[n + 5] == 0 && b[n + 6] == 0 && b[n + 7] == 17
  {
  }

  lemma {:induction false} SumWord(n: nat)
    requires n < 0x1_0000
    ensures Sum(Be16(n)) == n
  {
    SumPair(Be16(n)[0], Be16(n)[1]);
    assert Be16(n) == [Be16(n)[0], Be16(n)[1]];
  }

  // The sum a receiver forms.
  ghost function Total(pseudo: Bytes, packet: Bytes): nat {
    Sum(pseudo + packet)
  }

  // The checksum field adds its own value to the sum.
  lemma {:induction false} SumField(pseudo: Bytes, head: Bytes, field: Bytes, data: Bytes, words: nat)
    requires |pseudo| + |head| == 2 * words && |field| == 2
    ensures Total(pseudo, head + field + data) == Sum(pseudo + head) + Sum(field) + Sum(data)
  {
    SumConcat(pseudo + head, field + data, words);
    SumConcat(field, data, 1);
    assert pseudo + (head + field + data) == (pseudo + head) + (field + data);
  }

  lemma {:induction false} Filled(head: Bytes, empty: Bytes, field: Bytes, data: Bytes)
    requires |head| == 6 && |empty| == 2
    ensures (head + empty + data)[..6] + field + (head + empty + data)[8..] == head + field + data
  {
    assert (head + empty + data)[..6] == head && (head + empty + data)[8..] == data;
  }

  // Header, nonzero checksum and payload that a receiver accepts under this
  // pseudo-header.
  ghost predicate Accepts(pseudo: Bytes, packet: Bytes, head: Bytes, data: Bytes) {
    && (exists field :: |field| == 2 && Sum(field) > 0 && packet == head + field + data)
    && Fold(Total(pseudo, packet)) == 0xFFFF
  }

  lemma {:induction false} Completed(pseudo: Bytes, head: Bytes, field: Bytes, data: Bytes, words: nat)
    requires |pseudo| + |head| == 2 * words && |field| == 2
    requires Sum(field) == Completing(Total(pseudo, head + EMPTY + data))
    ensures Accepts(pseudo, head + field + data, head, data)
  {
    SumField(pseudo, head, EMPTY, data, words);
    SumField(pseudo, head, field, data, words);
    SumPair(0, 0);
    CompletedIsAllOnes(Total(pseudo, head + EMPTY + data));
  }

  const EMPTY: Bytes := [0, 0]

  method Encode(n: uint16) returns (field: Bytes)
    ensures |field| == 2 && Sum(field) == n as nat
  {
    field := Be16(n as nat);
    SumWord(n as nat);
  }

  // The packet with an empty checksum field, then with the field filled in.
  method BuildPacket(data: Bytes, head: Bytes, pseudo: Bytes, ghost words: nat) returns (packet: Bytes)
    requires |head| == 6 && |pseudo| + |head| == 2 * words <= 46 && |data| + 8 < 0x1_0000
    ensures Accepts(pseudo, packet, head, data)
  {
    var udp := head + EMPTY + data;
    var checksum := InternetChecksum(pseudo + udp);
    if checksum == 0 {
      checksum := 0xFFFF;
    }
    var field := Encode(checksum);
    Completed(pseudo, head, field, data, words);
    Filled(head, EMPTY, field, data);
    packet := udp[..6] + field + udp[8..];
  }

  predicate IsV4(ip: Ip) {
    ip.V4? || ip.Mapped?
  }

  method BuildUdpV4(data: Bytes, from: Endpoint, to: Endpoint) returns (packet: Option<Bytes>)
    requires WellFormed(from.ip) && WellFormed(to.ip)
    ensures packet.Some? <==>
      (from.ip.V4? || from.ip.Mapped?) && (to.ip.V4? || to.ip.Mapped?) && |data| <= MAX_V4_PAYLOAD
    ensures packet.Some? ==>
      Accepts(PseudoV4(from.ip.bytes, to.ip.bytes, 8 + |data|), packet.value, Head(from.port, to.port, 8 + |data|),
              data)
  {
    if !IsV4(from.ip) || !IsV4(to.ip) || |data| > MAX_V4_PAYLOAD {
      return None;
    }
    var built := BuildPacket(data, Head(from.port, to.port, 8 + |data|),
                             PseudoV4(from.ip.bytes, to.ip.bytes, 8 + |data|), 9);
    return Some(built);
  }

  method BuildUdpV6(data: Bytes, from: Endpoint, to: Endpoint) returns (packet: Option<Bytes>)
    requires WellFormed(from.ip) && WellFormed(to.ip)
    ensures packet.Some? <==> from.ip.V6? && to.ip.V6? && |data| <= MAX_V6_PAYLOAD
    ensures packet.Some? ==>
      Accepts(PseudoV6(from.ip.bytes, to.ip.bytes, 8 + |data|), packet.value, Head(from.port, to.port, 8 + |data|),
              data)
  {
    if !from.ip.V6? || !to.ip.V6? || |data| > MAX_V6_PAYLOAD {
      return None;
    }
    var built := BuildPacket(data, Head(from.port, to.port, 8 + |data|),
                             PseudoV6(from.ip.bytes, to.ip.bytes, 8 + |data|), 23);
    return Some(built);
  }
}
