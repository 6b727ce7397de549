// Converting an ECDSA signature from DER (section 2.2.3 of RFC 3279) to the fixed-width form of
// section 3.4 of RFC 7518: r and s as 32 big-endian bytes each.
module DerSignature {
  import opened Options

  type byte = x: int | 0 <= x < 256

  const WIDTH: nat := 32

  // ---- Big-endian numbers ----

  function Value(bs: seq<byte>): nat {
    if bs == [] then 0 else Value(bs[..|bs| - 1]) * 256 + bs[|bs| - 1]
  }

  // The last k bytes of n.
  function FixedBytes(n: nat, k: nat): (r: seq<byte>)
    ensures |r| == k
  {
    if k == 0 then [] else FixedBytes(n / 256, k - 1) + [n % 256]
  }

  function Pow256(k: nat): nat { if k == 0 then 1 else 256 * Pow256(k - 1) }

  function Zeros(k: nat): (r: seq<byte>)
    ensures |r| == k
  {
    if k == 0 then [] else Zeros(k - 1) + [0]
  }

  lemma {:induction false} FixedValue(n: nat, k: nat)
    ensures Value(FixedBytes(n, k)) < Pow256(k)
    ensures n < Pow256(k) ==> Value(FixedBytes(n, k)) == n
  {
    if k > 0 {
      FixedValue(n / 256, k - 1);
      assert FixedBytes(n, k)[..k - 1] == FixedBytes(n / 256, k - 1);
    }
  }

  // `bs` cut or padded on the left to k bytes.
  function RightAligned(bs: seq<byte>, k: nat): seq<byte> {
    if |bs| >= k then bs[|bs| - k..] else Zeros(k - |bs|) + bs
  }

  lemma RightAlignedSnoc(init: seq<byte>, last: byte, k: nat)
    ensures RightAligned(init + [last], k + 1) == RightAligned(init, k) + [last]
  {
  }

  lemma ValueSnoc(init: seq<byte>, last: byte)
    ensures Value(init + [last]) / 256 == Value(init) && Value(init + [last]) % 256 == last
  {
    assert (init + [last])[..|init|] == init;
  }

  // The last k bytes of the number that `bs` stands for are the last k bytes of `bs`.
  lemma {:induction false} FixedOfValue(bs: seq<byte>, k: nat)
    ensures FixedBytes(Value(bs), k) == RightAligned(bs, k)
    decreases k
  {
    if k > 0 {
      if bs == [] {
        FixedOfValue([], k - 1);
      } else {
        hide RightAligned, Value;
        var init, last := bs[..|bs| - 1], bs[|bs| - 1];
        assert bs == init + [last];
        FixedOfValue(init, k - 1);
        ValueSnoc(init, last);
        RightAlignedSnoc(init, last, k - 1);
      }
    } else {
      assert bs[|bs|..] == [];
    }
  }

  lemma {:induction false} ValueOfZeroPrefix(bs: seq<byte>)
    requires bs != [] && bs[0] == 0
    ensures Value(bs[1..]) == Value(bs)
  {
    if |bs| > 1 {
      ValueOfZeroPrefix(bs[..|bs| - 1]);
      assert bs[..|bs| - 1][1..] == bs[1..][..|bs| - 2];
    }
  }

  // ---- The conversion ----

  // replaceSubrange
  method WriteAt(bytes: seq<byte>, dst: array<byte>, start: nat)
    requires start + |bytes| <= dst.Length
    modifies dst
    ensures forall k | 0 <= k < |bytes| :: dst[start + k] == bytes[k]
    ensures forall k | 0 <= k < dst.Length && !(start <= k < start + |bytes|) :: dst[k] == old(dst[k])
  {
    for i := 0 to |bytes|
      invariant forall k | 0 <= k < dst.Length && !(start <= k < start + i) :: dst[k] == old(dst[k])
      invariant forall k | 0 <= k < i :: dst[start + k] == bytes[k]
    {
      dst[start + i] := bytes[i];
    }
  }

  // copyInt: strips leading zeros, keeps the last 32 bytes, and writes them at the right end of the
  // 32-byte field at `offset`. On a zeroed field that is the field's fixed-width form.
  method CopyInt(src: seq<byte>, dst: array<byte>, offset: nat)
    requires offset + WIDTH <= dst.Length
    requires forall i | offset <= i < offset + WIDTH :: dst[i] == 0
    modifies dst
    ensures dst[offset..offset + WIDTH] == FixedBytes(Value(src), WIDTH)
    ensures forall i | 0 <= i < dst.Length && !(offset <= i < offset + WIDTH) :: dst[i] == old(dst[i])
  {
    hide FixedBytes, Value, Zeros, RightAligned;
    var bytes := StripZeros(src);
    FixedOfValue(bytes, WIDTH);
    KeepLast(bytes, WIDTH);
    if |bytes| > WIDTH {
      bytes := bytes[|bytes| - WIDTH..];
    }
    var start := offset + WIDTH - |bytes|;
    WriteAt(bytes, dst, start);
    FieldFilled(dst[offset..offset + WIDTH], bytes);
  }

  method StripZeros(src: seq<byte>) returns (bytes: seq<byte>)
    ensures Value(bytes) == Value(src)
    ensures bytes == [] || bytes[0] != 0
  {
    bytes := src;
    while bytes != [] && bytes[0] == 0
      invariant Value(bytes) == Value(src)
      decreases |bytes|
    {
      ValueOfZeroPrefix(bytes);
      bytes := bytes[1..];
    }
  }

  lemma KeepLast(bs: seq<byte>, k: nat)
    ensures |bs| > k ==> RightAligned(bs[|bs| - k..], k) == RightAligned(bs, k)
  {
  }

  lemma FieldFilled(field: seq<byte>, bytes: seq<byte>)
    requires |bytes| <= |field|
    requires forall i | 0 <= i < |field| - |bytes| :: field[i] == 0
    requires forall k | 0 <= k < |bytes| :: field[|field| - |bytes| + k] == bytes[k]
    ensures field == RightAligned(bytes, |field|)
  {
    ZerosAreZero(|field| - |bytes|);
  }

  lemma {:induction false} ZerosAreZero(k: nat)
    ensures forall i | 0 <= i < k :: Zeros(k)[i] == 0
  {
    if k > 0 {
      ZerosAreZero(k - 1);
    }
  }

  // The two integer contents found by skipping the headers: None is a read out of range.
  function Contents(der: seq<byte>): Option<(seq<byte>, seq<byte>)> {
    if |der| <= 3 || 4 + der[3] > |der| then None
    else
      var rLen: int := der[3];
      var p := 4 + rLen + 1;
      if p >= |der| || p + 1 + der[p] > |der| then None
      else Some((der[4..4 + der[3]], der[p + 1..p + 1 + der[p]]))
  }

  // derToP1363; None is a trap on an index out of range.
  method DerToP1363(der: seq<byte>) returns (r: Option<seq<byte>>)
    ensures r == match Contents(der)
                 case None => None
                 case Some((a, b)) => Some(FixedBytes(Value(a), WIDTH) + FixedBytes(Value(b), WIDTH))
    ensures r.Some? <==> |der| >= 4 && 5 + der[3] as int < |der| &&
                         6 + der[3] as int + der[5 + der[3] as int] as int <= |der|
  {
    hide FixedBytes, Value;
    var out := new byte[64](_ => 0);
    var pos := 2;
    pos := pos + 1;
    if pos >= |der| { return None; }
    var rLen := der[pos];
    pos := pos + 1;
    if pos + rLen > |der| { return None; }
    var rBytes := der[pos..pos + rLen];
    pos := pos + rLen;
    pos := pos + 1;
    if pos >= |der| { return None; }
    var sLen := der[pos];
    pos := pos + 1;
    if pos + sLen > |der| { return None; }
    var sBytes := der[pos..pos + sLen];
    CopyInt(rBytes, out, 0);
    ghost var first := out[..32];
    CopyInt(sBytes, out, 32);
    assert out[..32] == first;
    assert out[..] == out[..32] + out[32..64];
    r := Some(out[..]);
  }

  // ---- DER ----

  // The shortest big-endian form; empty for zero.
  function Shortest(n: nat): seq<byte> {
    if n == 0 then [] else Shortest(n / 256) + [n % 256]
  }

  // Contents of an INTEGER (section 8.3 of ITU-T X.690): at least one byte, and a zero byte in front
  // when the first bit would read as a sign.
  function IntegerContents(n: nat): seq<byte> {
    var m := Shortest(n);
    if m == [] || m[0] >= 128 then [0] + m else m
  }

  // SEQUENCE { r INTEGER, s INTEGER } with a length in short form.
  predicate ShortForm(r: nat, s: nat) {
    4 + |IntegerContents(r)| + |IntegerContents(s)| < 128
  }

  function Der(r: nat, s: nat): seq<byte>
    requires ShortForm(r, s)
  {
    var a, b := IntegerContents(r), IntegerContents(s);
    [0x30, 4 + |a| + |b|] + ([0x02, |a|] + a) + ([0x02, |b|] + b)
  }

  lemma SmallIntegers()
    ensures IntegerContents(1) == [1] && IntegerContents(128) == [0, 128]
  {
    assert Shortest(0) == [] && Shortest(1) == Shortest(0) + [1] && Shortest(128) == Shortest(0) + [128];
  }

  // The signature (1, 128) by its bytes: a zero byte keeps 128 from reading as negative.
  lemma DerByBytes()
    ensures ShortForm(1, 128) && Der(1, 128) == [48, 7, 2, 1, 1, 2, 2, 0, 128]
    ensures Contents([48, 7, 2, 1, 1, 2, 2, 0, 128]) == Some(([1], [0, 128]))
  {
    SmallIntegers();
    hide IntegerContents;
    var der: seq<byte> := [48, 7, 2, 1, 1, 2, 2, 0, 128];
    assert der[4..5] == [1] && der[7..9] == [0, 128];
  }

  // Numbers are written with their high bytes first.
  lemma HighBytesFirst(bs: seq<byte>, b: byte)
    ensures Value([]) == 0 && Value(bs + [b]) == 256 * Value(bs) + b
  {
    assert (bs + [b])[..|bs|] == bs;
  }

  lemma {:induction false} ShortestValue(n: nat)
    ensures Value(Shortest(n)) == n
  {
    if n > 0 {
      ShortestValue(n / 256);
      assert Shortest(n)[..|Shortest(n)| - 1] == Shortest(n / 256);
    }
  }

  lemma ContentsValue(n: nat)
    ensures Value(IntegerContents(n)) == n
  {
    ShortestValue(n);
    var m := Shortest(n);
    if m == [] || m[0] >= 128 {
      ValueOfZeroPrefix([0] + m);
      assert ([0] + m)[1..] == m;
    }
  }

  lemma {:induction false} ShortestLength(n: nat, k: nat)
    requires n < Pow256(k)
    ensures |Shortest(n)| <= k
  {
    if n > 0 {
      ShortestLength(n / 256, k - 1);
    }
  }

  // Every 256-bit pair has a short-form encoding.
  lemma ShortFormOfWidth(r: nat, s: nat)
    requires r < Pow256(WIDTH) && s < Pow256(WIDTH)
    ensures ShortForm(r, s)
  {
    ShortestLength(r, WIDTH);
    ShortestLength(s, WIDTH);
  }

  lemma DerContents(r: nat, s: nat)
    requires ShortForm(r, s)
    ensures Contents(Der(r, s)) == Some((IntegerContents(r), IntegerContents(s)))
  {
    var a, b := IntegerContents(r), IntegerContents(s);
    var der := Der(r, s);
    assert der[3] == |a|;
    assert der[4..4 + |a|] == a;
    assert der[4 + |a| + 1] == |b|;
    assert der[4 + |a| + 2..4 + |a| + 2 + |b|] == b;
  }

  // Reading the DER form of any (r, s) stays in range and gives the 32-byte forms of r and s. Each
  // half stands for the number it came from exactly when that number has at most 256 bits.
  lemma ConversionCorrect(r: nat, s: nat)
    requires ShortForm(r, s)
    ensures var parts := Contents(Der(r, s));
      && parts.Some?
      && var (a, b) := parts.value;
         var x, y := FixedBytes(Value(a), WIDTH), FixedBytes(Value(b), WIDTH);
         && x == FixedBytes(r, WIDTH) && y == FixedBytes(s, WIDTH)
         && (Value(x) == r <==> r < Pow256(WIDTH))
         && (Value(y) == s <==> s < Pow256(WIDTH))
  {
    DerContents(r, s);
    ContentsValue(r);
    ContentsValue(s);
    FixedValue(r, WIDTH);
    FixedValue(s, WIDTH);
  }

  // The whole conversion on the range of P-256 signatures.
  method ConvertSignature(r: nat, s: nat) returns (out: seq<byte>)
    requires r < Pow256(WIDTH) && s < Pow256(WIDTH)
    ensures |out| == 64 && Value(out[..32]) == r && Value(out[32..]) == s
  {
    ShortFormOfWidth(r, s);
    ConversionCorrect(r, s);
    var converted := DerToP1363(Der(r, s));
    out := converted.value;
  }
}
