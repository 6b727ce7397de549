// The header of a BBS proof: how the set of revealed message indices is written in front of the
// proof, read back, and paired with the disclosed messages.
module ProofHeader {
  import opened Options
  import opened AscendingSet

  // ---- Bits of a byte ----

  // 1u8 << k
  function Mask(k: nat): bv8
    requires k < 8
  {
    if k == 0 then 1 else if k == 1 then 2 else if k == 2 then 4 else if k == 3 then 8
    else if k == 4 then 16 else if k == 5 then 32 else if k == 6 then 64 else 128
  }

  predicate Bit(b: bv8, k: nat)
    requires k < 8
  {
    b & Mask(k) != 0
  }

  lemma BitOfOr(b: bv8, k: nat, j: nat)
    requires k < 8 && j < 8
    ensures Bit(b | Mask(k), j) <==> Bit(b, j) || j == k
  {
  }

  // v >>= 1 moves every bit down by one.
  lemma BitOfShift(v: bv8, j: nat)
    requires j < 8
    ensures Bit(v >> 1, j) <==> j < 7 && Bit(v, j + 1)
  {
  }

  lemma LowBit(v: bv8)
    ensures v & 1 == 1 <==> Bit(v, 0)
  {
  }

  lemma SameBits(a: bv8, b: bv8)
    requires forall k | 0 <= k < 8 :: Bit(a, k) == Bit(b, k)
    ensures a == b
  {
    assert Bit(a, 0) == Bit(b, 0) && Bit(a, 1) == Bit(b, 1) && Bit(a, 2) == Bit(b, 2) && Bit(a, 3) == Bit(b, 3);
    assert Bit(a, 4) == Bit(b, 4) && Bit(a, 5) == Bit(b, 5) && Bit(a, 6) == Bit(b, 6) && Bit(a, 7) == Bit(b, 7);
  }

  // ---- Sets as byte strings, least significant byte last ----

  // Index i is bit i % 8 of the byte that is i / 8 from the end.
  predicate Has(data: seq<bv8>, i: nat) {
    i < 8 * |data| && Bit(data[|data| - 1 - i / 8], i % 8)
  }

  function Members(data: seq<bv8>): set<nat> {
    set i | 0 <= i < 8 * |data| && Has(data, i)
  }

  function ByteOf(s: set<nat>, base: nat, k: nat): bv8
    requires k <= 8
  {
    if k == 0 then 0 else ByteOf(s, base, k - 1) | (if base + k - 1 in s then Mask(k - 1) else 0)
  }

  // The bit vector for `total` messages.
  function BitVector(total: nat, s: set<nat>): (r: seq<bv8>)
    ensures |r| == total / 8 + 1
  {
    seq(total / 8 + 1, i requires 0 <= i < total / 8 + 1 => ByteOf(s, 8 * (total / 8 - i), 8))
  }

  predicate Fits(total: nat, s: set<nat>) { forall r | r in s :: r / 8 <= total / 8 }

  lemma {:induction false} ByteOfBits(s: set<nat>, base: nat, k: nat, j: nat)
    requires k <= 8 && j < 8
    ensures Bit(ByteOf(s, base, k), j) <==> j < k && base + j in s
  {
    if k > 0 {
      ByteOfBits(s, base, k - 1, j);
      BitOfOr(ByteOf(s, base, k - 1), k - 1, j);
    }
  }

  lemma MembersInjective(a: seq<bv8>, b: seq<bv8>)
    requires |a| == |b| && Members(a) == Members(b)
    ensures a == b
  {
    forall p | 0 <= p < |a| ensures a[p] == b[p] {
      forall k | 0 <= k < 8 ensures Bit(a[p], k) == Bit(b[p], k) {
        var i := 8 * (|a| - 1 - p) + k;
        assert i / 8 == |a| - 1 - p && i % 8 == k;
        assert i in Members(a) <==> Has(a, i);
        assert i in Members(b) <==> Has(b, i);
      }
      SameBits(a[p], b[p]);
    }
  }

  // Decoding an encoded set gives the set back.
  lemma DecodeEncode(total: nat, s: set<nat>)
    requires Fits(total, s)
    ensures Members(BitVector(total, s)) == s
  {
    var data := BitVector(total, s);
    forall i: nat ensures i in Members(data) <==> i in s {
      assert i in Members(data) <==> Has(data, i);
      if i < 8 * |data| {
        ByteOfBits(s, 8 * (i / 8), 8, i % 8);
        assert total / 8 - (|data| - 1 - i / 8) == i / 8;
      }
    }
  }

  // Encoding the decoding of any byte string of the right length gives the same bytes.
  lemma EncodeDecode(total: nat, data: seq<bv8>)
    requires |data| == total / 8 + 1
    ensures Fits(total, Members(data)) && BitVector(total, Members(data)) == data
  {
    assert Fits(total, Members(data));
    DecodeEncode(total, Members(data));
    MembersInjective(BitVector(total, Members(data)), data);
  }

  method Reverse(a: array<bv8>)
    modifies a
    ensures forall i | 0 <= i < a.Length :: a[i] == old(a[a.Length - 1 - i])
  {
    var n, i := a.Length, 0;
    while i < n / 2
      invariant 0 <= i <= n / 2
      invariant forall k | 0 <= k < i :: a[k] == old(a[n - 1 - k]) && a[n - 1 - k] == old(a[k])
      invariant forall k | i <= k < n - i :: a[k] == old(a[k])
    {
      a[i], a[n - 1 - i] := a[n - 1 - i], a[i];
      i := i + 1;
    }
  }

  // revealed_to_bitvector; an index beyond the vector would be an out-of-bounds panic.
  method RevealedToBitvector(total: nat, revealed: set<nat>) returns (data: seq<bv8>)
    requires Fits(total, revealed)
    ensures data == BitVector(total, revealed)
  {
    var n := total / 8 + 1;
    var bytes := new bv8[n](_ => 0);
    var rest := revealed;
    while rest != {}
      invariant rest <= revealed
      invariant forall i | 0 <= i < 8 * n :: Bit(bytes[i / 8], i % 8) <==> i in revealed && i !in rest
      decreases rest
    {
      var r :| r in rest;
      var idx, bit := r / 8, r % 8;
      ghost var was := bytes[idx];
      bytes[idx] := bytes[idx] | Mask(bit);
      forall i | 0 <= i < 8 * n ensures Bit(bytes[i / 8], i % 8) <==> i in revealed && i !in rest - {r} {
        BitOfOr(was, bit, i % 8);
      }
      rest := rest - {r};
    }
    label filled:
    Reverse(bytes);
    data := bytes[..];
    forall i: nat ensures i in Members(data) <==> i in revealed {
      assert i in Members(data) <==> Has(data, i);
      if i < 8 * n {
        assert data[n - 1 - i / 8] == old@filled(bytes[i / 8]);
      }
    }
    DecodeEncode(total, revealed);
    MembersInjective(data, BitVector(total, revealed));
  }

  // `v` is `b` shifted down t times.
  predicate Shifted(v: bv8, b: bv8, t: nat) {
    forall k | 0 <= k < 8 :: Bit(v, k) <==> k + t < 8 && Bit(b, k + t)
  }

  lemma ShiftOnce(v: bv8, b: bv8, t: nat)
    requires Shifted(v, b, t) && t < 8
    ensures Shifted(v >> 1, b, t + 1)
    ensures v & 1 == 1 <==> Bit(b, t)
  {
    LowBit(v);
    var next := v >> 1;
    forall k: nat | k < 8 ensures Bit(next, k) <==> k + (t + 1) < 8 && Bit(b, k + (t + 1)) {
      BitOfShift(v, k);
    }
    assert Bit(v, 0) <==> Bit(b, 0 + t);
  }

  lemma ShiftedOut(v: bv8, b: bv8, t: nat)
    requires Shifted(v, b, t)
    ensures t >= 8 ==> v == 0
    ensures v == 0 ==> forall k: nat | t <= k < 8 :: !Bit(b, k)
  {
    if t >= 8 {
      SameBits(v, 0);
    }
    if v == 0 {
      forall k: nat | t <= k < 8 ensures !Bit(b, k) {
        assert !Bit(v, k - t) && Bit(b, k - t + t) == Bit(b, k);
      }
    }
  }

  lemma HasAt(data: seq<bv8>, j: nat, k: nat)
    requires j < |data| && k < 8
    ensures Has(data, 8 * j + k) <==> Bit(data[|data| - 1 - j], k)
  {
    assert (8 * j + k) / 8 == j && (8 * j + k) % 8 == k;
  }

  // The indices below `limit` that the bytes stand for.
  ghost predicate Collected(revealed: set<nat>, data: seq<bv8>, limit: nat) {
    forall i: nat :: i in revealed <==> i < limit && Has(data, i)
  }

  lemma CollectMore(revealed: set<nat>, data: seq<bv8>, limit: nat, hit: bool)
    requires Collected(revealed, data, limit) && (hit <==> Has(data, limit))
    ensures Collected(if hit then revealed + {limit} else revealed, data, limit + 1)
  {
  }

  lemma CollectNone(revealed: set<nat>, data: seq<bv8>, limit: nat, next: nat)
    requires Collected(revealed, data, limit) && limit <= next
    requires forall i: nat | limit <= i < next :: !Has(data, i)
    ensures Collected(revealed, data, next)
  {
  }

  // bitvector_to_revealed: the shift loop ends, `remaining` never underflows, and the result is
  // the set the bytes stand for.
  method BitvectorToRevealed(data: seq<bv8>) returns (revealed: set<nat>)
    ensures revealed == Members(data)
  {
    hide Has, Bit, Shifted, Collected, Mask;
    revealed := {};
    var scalar: nat := 0;
    var j := 0;
    assert Collected(revealed, data, 0) by { CollectedNothing(data); }
    while j < |data|
      invariant 0 <= j <= |data| && scalar == 8 * j
      invariant Collected(revealed, data, scalar)
    {
      var b := data[|data| - 1 - j];
      var v := b;
      var remaining: nat := 8;
      assert Shifted(v, b, 0) by { NotShifted(b); }
      while v > 0
        invariant remaining <= 8 && scalar == 8 * j + (8 - remaining)
        invariant Shifted(v, b, 8 - remaining)
        invariant Collected(revealed, data, scalar)
        decreases remaining
      {
        ghost var t := 8 - remaining;
        ShiftedOut(v, b, t);
        ShiftOnce(v, b, t);
        HasAt(data, j, t);
        CollectMore(revealed, data, scalar, v & 1 == 1);
        if v & 1 == 1 {
          revealed := revealed + {scalar};
        }
        v := v >> 1;
        scalar := scalar + 1;
        remaining := remaining - 1;
      }
      ShiftedOut(v, b, 8 - remaining);
      forall i: nat | scalar <= i < 8 * (j + 1) ensures !Has(data, i) {
        HasAt(data, j, i - 8 * j);
      }
      CollectNone(revealed, data, scalar, 8 * (j + 1));
      scalar := scalar + remaining;
      j := j + 1;
    }
    CollectedAll(revealed, data);
  }

  lemma CollectedNothing(data: seq<bv8>)
    ensures Collected({}, data, 0)
  {
  }

  lemma NotShifted(b: bv8)
    ensures Shifted(b, b, 0)
  {
  }

  lemma CollectedAll(revealed: set<nat>, data: seq<bv8>)
    requires Collected(revealed, data, 8 * |data|)
    ensures revealed == Members(data)
  {
  }

  // ---- The framed proof: [u16 message count, big endian][bit vector][proof] ----

  datatype Result<+T> = Ok(value: T) | Err(error: string)

  // 1 << k as a number
  function Weight(k: nat): nat
    requires k < 8
  {
    if k == 0 then 1 else if k == 1 then 2 else if k == 2 then 4 else if k == 3 then 8
    else if k == 4 then 16 else if k == 5 then 32 else if k == 6 then 64 else 128
  }

  function Digit(bit: bool): nat { if bit then 1 else 0 }

  // The number a byte stands for, and the byte of a number.
  function ByteValue(b: bv8): nat {
    Digit(Bit(b, 0)) + 2 * Digit(Bit(b, 1)) + 4 * Digit(Bit(b, 2)) + 8 * Digit(Bit(b, 3)) +
    16 * Digit(Bit(b, 4)) + 32 * Digit(Bit(b, 5)) + 64 * Digit(Bit(b, 6)) + 128 * Digit(Bit(b, 7))
  }

  function ToByte(n: nat): bv8 {
    ByteOf(set k: nat | k < 8 && n / Weight(k) % 2 == 1, 0, 8)
  }

  lemma HalvedAgain(n: nat)
    ensures n / 4 == n / 2 / 2 && n / 8 == n / 4 / 2 && n / 16 == n / 8 / 2 && n / 32 == n / 16 / 2
    ensures n / 64 == n / 32 / 2 && n / 128 == n / 64 / 2
  {
  }

  lemma Digits(n: nat, a: nat, b: nat, c: nat, d: nat, e: nat, f: nat, g: nat)
    requires n < 256 && a == n / 2 && b == a / 2 && c == b / 2 && d == c / 2 && e == d / 2 && f == e / 2 && g == f / 2
    ensures n == n % 2 + 2 * (a % 2) + 4 * (b % 2) + 8 * (c % 2)
               + 16 * (d % 2) + 32 * (e % 2) + 64 * (f % 2) + 128 * (g % 2)
  {
    assert g < 2;
  }

  lemma BinaryDigits(n: nat)
    requires n < 256
    ensures n == n % 2 + 2 * (n / 2 % 2) + 4 * (n / 4 % 2) + 8 * (n / 8 % 2)
               + 16 * (n / 16 % 2) + 32 * (n / 32 % 2) + 64 * (n / 64 % 2) + 128 * (n / 128 % 2)
  {
    HalvedAgain(n);
    Digits(n, n / 2, n / 4, n / 8, n / 16, n / 32, n / 64, n / 128);
  }

  lemma ToByteBit(n: nat, k: nat, weight: nat)
    requires k < 8 && weight == Weight(k)
    ensures Digit(Bit(ToByte(n), k)) == n / weight % 2
  {
    hide Bit, ByteOf;
    var digits := set j: nat | j < 8 && n / Weight(j) % 2 == 1;
    ByteOfBits(digits, 0, 8, k);
    assert 0 + k in digits <==> n / Weight(k) % 2 == 1;
  }

  lemma ToByteValue(n: nat)
    requires n < 256
    ensures ByteValue(ToByte(n)) == n
  {
    hide Bit, ToByte, Digit;
    ToByteBit(n, 0, 1);
    ToByteBit(n, 1, 2);
    ToByteBit(n, 2, 4);
    ToByteBit(n, 3, 8);
    ToByteBit(n, 4, 16);
    ToByteBit(n, 5, 32);
    ToByteBit(n, 6, 64);
    ToByteBit(n, 7, 128);
    BinaryDigits(n);
  }

  // (n as u16).to_be_bytes()
  function U16Bytes(n: nat): (r: seq<bv8>)
    ensures |r| == 2
  {
    [ToByte(n % 65536 / 256), ToByte(n % 256)]
  }

  // u16::from_be_bytes
  function ReadU16(b: seq<bv8>): nat
    requires |b| >= 2
  {
    ByteValue(b[0]) * 256 + ByteValue(b[1])
  }

  lemma Remainder(n: int, k: int, r: int)
    requires n == 256 * k + r && 0 <= r < 256
    ensures n % 256 == r && n / 256 == k
  {
  }

  lemma TwoBytes(n: nat)
    ensures n % 65536 / 256 < 256 && n % 256 < 256
    ensures n % 65536 / 256 * 256 + n % 256 == n % 65536
  {
    var q, m := n / 65536, n % 65536;
    var high, low := m / 256, m % 256;
    assert n == 65536 * q + m && m == 256 * high + low;
    Remainder(n, 256 * q + high, low);
  }

  lemma U16RoundTrip(n: nat, rest: seq<bv8>)
    ensures ReadU16(U16Bytes(n) + rest) == n % 65536
  {
    hide ByteValue, ToByte;
    TwoBytes(n);
    var high, low := n % 65536 / 256, n % 256;
    ToByteValue(high);
    ToByteValue(low);
    var bytes := U16Bytes(n) + rest;
    assert bytes[0] == ToByte(high) && bytes[1] == ToByte(low);
  }

  // ProofWrapper::new, the bytes in front of the proof.
  function Header(messageCount: nat, revealed: set<nat>): seq<bv8> {
    U16Bytes(messageCount) + BitVector(messageCount, revealed)
  }

  datatype ProofWrapper<P> = ProofWrapper(bitVector: seq<bv8>, proof: P)

  // try_from_bytes; reading the proof itself is `parseProof`.
  function TryFromBytes<P>(value: seq<bv8>, parseProof: seq<bv8> -> Option<P>): Result<ProofWrapper<P>> {
    if |value| < 2 then Err("proof too short")
    else
      var offset := ReadU16(value) / 8 + 1 + 2;
      if offset > |value| then Err("proof bitvector out of bounds")
      else match parseProof(value[offset..])
        case None => Err("proof parse")
        case Some(p) => Ok(ProofWrapper(value[..offset], p))
  }

  // What bytes that are no framed proof are refused with: too short for the count; too short for the bit
  // vector that the count calls for; or no proof behind it.
  lemma BytesRefused<P>(value: seq<bv8>, parseProof: seq<bv8> -> Option<P>)
    ensures var r := TryFromBytes(value, parseProof);
            if |value| <= 1 then r == Err("proof too short")
            else
              var split := ReadU16(value) / 8 + 3;
              if |value| < split then r == Err("proof bitvector out of bounds")
              else match parseProof(value[split..])
                case None => r == Err("proof parse")
                case Some(p) => r == Ok(ProofWrapper(value[..split], p))
  {
  }

  // Reading back splits the bytes where they were joined, for every tail, exactly when the message
  // count fits its two bytes; then the count and the revealed set come back as written.
  lemma HeaderRoundTrip<P>(messageCount: nat, revealed: set<nat>, tail: seq<bv8>, parseProof: seq<bv8> -> Option<P>)
    requires Fits(messageCount, revealed) && messageCount <= 65535
    ensures var r := TryFromBytes(Header(messageCount, revealed) + tail, parseProof);
      match parseProof(tail)
      case None => r == Err("proof parse")
      case Some(p) =>
        && r == Ok(ProofWrapper(Header(messageCount, revealed), p))
        && ReadU16(r.value.bitVector) == messageCount
        && Members(r.value.bitVector[2..]) == revealed
  {
    hide U16Bytes, ReadU16, BitVector, Members;
    var header := Header(messageCount, revealed);
    var vector := BitVector(messageCount, revealed);
    U16RoundTrip(messageCount, vector + tail);
    assert header + tail == U16Bytes(messageCount) + (vector + tail);
    assert (header + tail)[|header|..] == tail && (header + tail)[..|header|] == header;
    assert header[2..] == vector;
    U16RoundTrip(messageCount, vector);
    DecodeEncode(messageCount, revealed);
  }

  lemma MaskIsShift(b: bv8, k: nat)
    requires k < 8
    ensures Bit(b, k) <==> (b >> k) & 1 == 1
  {
  }

  // The header by its bytes: the count, high byte first; then index i as bit i % 8 of the byte that is
  // i / 8 from the end.
  lemma HeaderByBytes(messageCount: nat, revealed: set<nat>, i: nat)
    requires i < 8 * (messageCount / 8 + 1)
    ensures var header := Header(messageCount, revealed);
            && |header| == 2 + messageCount / 8 + 1
            && ByteValue(header[0]) == messageCount / 256 % 256 && ByteValue(header[1]) == messageCount % 256
            && ((header[|header| - 1 - i / 8] >> (i % 8)) & 1 == 1 <==> i in revealed)
  {
    var header, vector := Header(messageCount, revealed), BitVector(messageCount, revealed);
    hide ByteValue, ToByte, Bit, ByteOf;
    TwoBytes(messageCount);
    ToByteValue(messageCount % 65536 / 256);
    ToByteValue(messageCount % 256);
    HighByte(messageCount);
    ByteOfBits(revealed, 8 * (i / 8), 8, i % 8);
    assert header[|header| - 1 - i / 8] == vector[|vector| - 1 - i / 8];
    MaskIsShift(vector[|vector| - 1 - i / 8], i % 8);
  }

  lemma HighByte(n: nat)
    ensures n % 65536 / 256 == n / 256 % 256
  {
    var q, m := n / 65536, n % 65536;
    var high, low := m / 256, m % 256;
    assert n == 65536 * q + m && m == 256 * high + low;
    Remainder(n, 256 * q + high, low);
    assert (256 * q + high) % 256 == high;
  }

  // The number of a byte is the sum over its bits.
  lemma ByteValues()
    ensures ByteValue(0) == 0 && ByteValue(255) == 255
    ensures ByteValue(1) == 1 && ByteValue(2) == 2 && ByteValue(4) == 4 && ByteValue(8) == 8
    ensures ByteValue(16) == 16 && ByteValue(32) == 32 && ByteValue(64) == 64 && ByteValue(128) == 128
  {
  }

  lemma SplitExact(messageCount: nat, revealed: set<nat>)
    ensures ReadU16(Header(messageCount, revealed)) / 8 + 1 + 2 == |Header(messageCount, revealed)| <==>
        messageCount <= 65535
  {
    hide ReadU16, U16Bytes, BitVector;
    U16RoundTrip(messageCount, BitVector(messageCount, revealed));
    if messageCount > 65535 {
      assert messageCount % 65536 <= messageCount - 65536;
    }
  }

  // ---- Pairing messages with indices ----

  // The prover's side: the indices it lists, in any order and possibly repeated.
  function RevealedSet(listed: seq<nat>): set<nat> { set r | r in listed }

  // bls_create_proof once its arguments are read. `proof` is what the key, the signature and the
  // proof generation come to for the messages shown: the compressed proof or an error. An index out of
  // range is reported before any of these.
  method CreateProof<M>(msgs: seq<M>, listed: seq<nat>, proof: Result<seq<bv8>>)
    returns (r: Result<(seq<bool>, seq<bv8>)>)
    ensures r.Ok? <==> (forall i | 0 <= i < |listed| :: listed[i] < |msgs|) && proof.Ok?
    ensures (exists i | 0 <= i < |listed| :: listed[i] >= |msgs|) ==> r == Err("revealed value is out of bounds")
    ensures r.Err? && (forall i | 0 <= i < |listed| :: listed[i] < |msgs|) ==> r == Err(proof.error)
    ensures r.Ok? ==>
      var (shown, bytes) := r.value;
      && |shown| == |msgs|
      && (forall i | 0 <= i < |msgs| :: shown[i] <==> i in listed)
      && Fits(|msgs|, RevealedSet(listed))
      && bytes == Header(|msgs|, RevealedSet(listed)) + proof.value
  {
    for i := 0 to |listed|
      invariant forall k | 0 <= k < i :: listed[k] < |msgs|
    {
      if listed[i] >= |msgs| { return Err("revealed value is out of bounds"); }
    }
    var revealedSet := RevealedSet(listed);
    var shown: seq<bool> := [];
    for i := 0 to |msgs|
      invariant |shown| == i && forall k | 0 <= k < i :: shown[k] <==> k in listed
    {
      shown := shown + [i in revealedSet];
    }
    if proof.Err? { return Err(proof.error); }
    var vector := RevealedToBitvector(|msgs|, revealedSet);
    r := Ok((shown, U16Bytes(|msgs|) + vector + proof.value));
  }

  const COUNTS_DIFFER := "messages count != revealed count"

  // bls_verify_proof, up to the check of the proof: the public key for the message count of the proof,
  // and which message stands at which index. `publicKey` is what reading the key and deriving it for a
  // number of messages comes to.
  method ReadDisclosure<K, M, P>(bytes: seq<bv8>, disclosed: seq<M>, parseProof: seq<bv8> -> Option<P>,
      publicKey: nat -> Result<K>)
    returns (r: Result<(K, map<nat, M>, P)>)
    ensures var w := TryFromBytes(bytes, parseProof);
      if w.Err? then r == Err(w.error)
      else
        var key, revealed := publicKey(ReadU16(w.value.bitVector)), Members(w.value.bitVector[2..]);
        if key.Err? then r == Err(key.error)
        else if |disclosed| != |revealed| then r == Err(COUNTS_DIFFER)
        else r == Ok((key.value, Paired(Ascending(revealed), disclosed), w.value.proof))
  {
    hide Members, Ascending, Paired;
    var wrapper := TryFromBytes(bytes, parseProof);
    if wrapper.Err? { return Err(wrapper.error); }
    var messageCountInProof := ReadU16(wrapper.value.bitVector);
    var pk := publicKey(messageCountInProof);
    if pk.Err? { return Err(pk.error); }
    var revealed := BitvectorToRevealed(wrapper.value.bitVector[2..]);
    if |disclosed| != |revealed| { return Err(COUNTS_DIFFER); }
    var revealedVec := Ascending(revealed);
    var revealedMessages := PairMessages(revealedVec, disclosed);
    r := Ok((pk.value, revealedMessages, wrapper.value.proof));
  }

  // The loop that inserts each message under the index of the same rank.
  method PairMessages<M>(revealedVec: seq<nat>, disclosed: seq<M>) returns (revealedMessages: map<nat, M>)
    requires |revealedVec| == |disclosed|
    ensures revealedMessages == Paired(revealedVec, disclosed)
  {
    revealedMessages := map[];
    for i := 0 to |revealedVec|
      invariant revealedMessages == Paired(revealedVec[..i], disclosed[..i])
    {
      assert revealedVec[..i + 1][..i] == revealedVec[..i] && disclosed[..i + 1][..i] == disclosed[..i];
      revealedMessages := revealedMessages[revealedVec[i] := disclosed[i]];
    }
    assert revealedVec[..|revealedVec|] == revealedVec && disclosed[..|revealedVec|] == disclosed;
  }

  function Paired<M>(indices: seq<nat>, ms: seq<M>): map<nat, M>
    requires |indices| == |ms|
  {
    if indices == [] then map[]
    else Paired(indices[..|indices| - 1], ms[..|ms| - 1])[indices[|indices| - 1] := ms[|ms| - 1]]
  }

  function Pick<M>(msgs: seq<M>, s: set<nat>): (r: seq<M>)
    requires forall x | x in s :: x < |msgs|
    ensures |r| == |s|
  {
    AscendingMembers(s);
    var indices := Ascending(s);
    assert forall i | 0 <= i < |indices| :: indices[i] in indices;
    seq(|indices|, i requires 0 <= i < |indices| => msgs[indices[i]])
  }

  lemma {:induction false} PairedAt<M>(indices: seq<nat>, ms: seq<M>)
    requires |indices| == |ms|
    requires forall i, j | 0 <= i < j < |indices| :: indices[i] != indices[j]
    ensures forall x :: x in Paired(indices, ms) <==> x in indices
    ensures forall i | 0 <= i < |indices| ::
        indices[i] in Paired(indices, ms) && Paired(indices, ms)[indices[i]] == ms[i]
  {
    if indices != [] {
      var n := |indices| - 1;
      PairedAt(indices[..n], ms[..n]);
      assert indices == indices[..n] + [indices[n]];
      forall i | 0 <= i < n ensures indices[i] in Paired(indices[..n], ms[..n]) &&
          Paired(indices[..n], ms[..n])[indices[i]] == ms[i] {
        assert indices[..n][i] == indices[i] && ms[..n][i] == ms[i];
      }
    }
  }

  // The truth the verifier should recover: each revealed index with its message.
  function Disclosure<M>(msgs: seq<M>, listed: seq<nat>): map<nat, M>
    requires forall i | 0 <= i < |listed| :: listed[i] < |msgs|
  {
    map x | x in listed && x < |msgs| :: msgs[x]
  }

  // For every message list that fits the count, and whatever order or repetitions the prover
  // listed: the framed bytes read back to the message count and, given the revealed messages in
  // ascending order, to exactly the map from revealed index to message.
  lemma PairingCorrect<M, P>(msgs: seq<M>, listed: seq<nat>, tail: seq<bv8>, parseProof: seq<bv8> -> Option<P>)
    requires |msgs| <= 65535 && forall i | 0 <= i < |listed| :: listed[i] < |msgs|
    requires parseProof(tail).Some?
    ensures var s := RevealedSet(listed);
            var w := TryFromBytes(Header(|msgs|, s) + tail, parseProof);
            var disclosed := Pick(msgs, s);
      && w.Ok? && w.value.proof == parseProof(tail).value
      && ReadU16(w.value.bitVector) == |msgs|
      && |disclosed| == |Members(w.value.bitVector[2..])|
      && Paired(Ascending(Members(w.value.bitVector[2..])), disclosed) == Disclosure(msgs, listed)
  {
    hide ReadU16, U16Bytes, Members, Paired, Ascending, Pick, Header;
    var s := RevealedSet(listed);
    HeaderRoundTrip(|msgs|, s, tail, parseProof);
    PickedPairs(msgs, s);
    var paired := Paired(Ascending(s), Pick(msgs, s));
    assert Disclosure(msgs, listed).Keys == paired.Keys;
  }

  lemma PickAt<M>(msgs: seq<M>, s: set<nat>, i: nat)
    requires i < |s| && forall x | x in s :: x < |msgs|
    ensures Ascending(s)[i] in s && Pick(msgs, s)[i] == msgs[Ascending(s)[i]]
  {
    AscendingMembers(s);
    assert Ascending(s)[i] in Ascending(s);
  }

  lemma AscendingIndex(s: set<nat>, x: nat) returns (i: nat)
    requires x in s
    ensures i < |s| && Ascending(s)[i] == x
  {
    AscendingMembers(s);
    i :| i < |Ascending(s)| && Ascending(s)[i] == x;
  }

  lemma PickedPairs<M>(msgs: seq<M>, s: set<nat>)
    requires forall x | x in s :: x < |msgs|
    ensures var paired := Paired(Ascending(s), Pick(msgs, s));
      paired.Keys == s && forall x | x in s :: paired[x] == msgs[x]
  {
    hide Paired, Ascending, Pick;
    var order := Ascending(s);
    AscendingMembers(s);
    AscendingIncreases(s);
    PairedAt(order, Pick(msgs, s));
    forall x | x in s ensures Paired(order, Pick(msgs, s))[x] == msgs[x] {
      var i := AscendingIndex(s, x);
      PickAt(msgs, s, i);
    }
  }
}
