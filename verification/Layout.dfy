/** The record format of `segment.rs` byte by byte, and that `encode` and `decode` follow it. */
module Layout {
  import opened Prelude
  import opened Multiples
  import opened Bytes
  import opened Codec

  // ---- Fields ---------------------------------------------------------------------------------

  /** The four low bytes of `n`, least significant first. */
  function Four(n: nat): seq<Byte> {
    [n % 0x100, n / 0x100 % 0x100, n / 0x1_0000 % 0x100, n / 0x100_0000 % 0x100]
  }

  function Eight(n: nat): seq<Byte> {
    Four(n) + Four(n / 0x1_0000_0000)
  }

  function FourAt(data: seq<Byte>, p: nat): nat
    requires p + 4 <= |data|
  {
    var a: nat, b: nat, c: nat, d: nat := data[p], data[p + 1], data[p + 2], data[p + 3];
    a + 0x100 * b + 0x1_0000 * c + 0x100_0000 * d
  }

  function EightAt(data: seq<Byte>, p: nat): nat
    requires p + 8 <= |data|
  {
    FourAt(data, p) + 0x1_0000_0000 * FourAt(data, p + 4)
  }

  lemma DivDiv(n: nat, b: nat)
    requires b > 0
    ensures n / 256 / b == n / (256 * b)
  {
    var q, r := n / 256 / b, n / 256 % b;
    assert n / 256 == q * b + r;
    assert q * (256 * b) == 256 * (q * b);
    ModUnique(n, q, 256 * r + n % 256, 256 * b);
  }

  lemma LeBytesFour(n: nat, width: nat)
    ensures LeBytes(n, 4 + width) == Four(n) + LeBytes(n / 0x1_0000_0000, width)
  {
    var a := n / 256;
    var b := a / 256;
    var c := b / 256;
    DivDiv(n, 0x100);
    DivDiv(n, 0x1_0000);
    DivDiv(n, 0x100_0000);
    DivDiv(a, 0x100);
    DivDiv(a, 0x1_0000);
    DivDiv(b, 0x100);
    assert LeBytes(c, 1 + width) == [c % 256] + LeBytes(c / 256, width);
    assert LeBytes(b, 2 + width) == [b % 256] + LeBytes(c, 1 + width);
    assert LeBytes(a, 3 + width) == [a % 256] + LeBytes(b, 2 + width);
    assert LeBytes(n, 4 + width) == [n % 256] + LeBytes(a, 3 + width);
  }

  lemma LeBytesAreFour(n: nat)
    ensures LeBytes(n, 4) == Four(n)
  {
    LeBytesFour(n, 0);
  }

  lemma ByteOfLow(q: nat, m: nat, k: nat)
    requires k > 0
    ensures (q * (256 * k) + m) / k % 256 == m / k % 256
  {
    var a, r := m / k, m % k;
    assert m == a * k + r;
    assert q * (256 * k) + m == (256 * q + a) * k + r by {
      assert (256 * q + a) * k == (256 * q) * k + a * k;
      assert (256 * q) * k == q * (256 * k);
    }
    ModUnique(q * (256 * k) + m, 256 * q + a, r, k);
  }

  lemma LowBytes(n: nat)
    ensures Four(n % 0x1_0000_0000) == Four(n)
  {
    var q, m := n / 0x1_0000_0000, n % 0x1_0000_0000;
    ByteOfLow(0x100_0000 * q, m, 1);
    ByteOfLow(0x1_0000 * q, m, 0x100);
    ByteOfLow(0x100 * q, m, 0x1_0000);
    ByteOfLow(q, m, 0x100_0000);
  }

  lemma LeBytesAreEight(n: nat)
    ensures LeBytes(n, 8) == Eight(n)
  {
    LeBytesFour(n, 4);
    LeBytesAreFour(n / 0x1_0000_0000);
  }

  lemma LeValueFour(data: seq<Byte>, p: nat, end: nat)
    requires p + 4 <= end <= |data|
    ensures LeValue(data, p, end) == FourAt(data, p) + 0x1_0000_0000 * LeValue(data, p + 4, end)
  {
    assert LeValue(data, p + 3, end) == data[p + 3] + 256 * LeValue(data, p + 4, end);
    assert LeValue(data, p + 2, end) == data[p + 2] + 256 * LeValue(data, p + 3, end);
    assert LeValue(data, p + 1, end) == data[p + 1] + 256 * LeValue(data, p + 2, end);
  }

  lemma LeValueIsFour(data: seq<Byte>, p: nat)
    requires p + 4 <= |data|
    ensures LeValue(data, p, p + 4) == FourAt(data, p)
  {
    LeValueFour(data, p, p + 4);
  }

  lemma LeValueIsEight(data: seq<Byte>, p: nat)
    requires p + 8 <= |data|
    ensures LeValue(data, p, p + 8) == EightAt(data, p)
  {
    LeValueFour(data, p, p + 8);
    LeValueIsFour(data, p + 4);
  }

  // ---- Records --------------------------------------------------------------------------------

  /** Offset, timestamp in two's complement, key flag, key and payload behind their lengths. */
  function Framed(r: Record): seq<Byte> {
    Eight(r.offset)
    + Eight(if r.timestamp >= 0 then r.timestamp else r.timestamp + 0x1_0000_0000_0000_0000)
    + (if r.key.Some? then [1] + Four(|r.key.value|) + r.key.value else [0])
    + Four(|r.payload|) + r.payload
  }

  /** What `encode` writes, for every record; lengths of 2^32 and more lose their high bytes. */
  lemma EncodeLayout(r: Record)
    ensures Encode(r) == Framed(r)
  {
    hide LeBytes, Four, Eight;
    LeBytesAreEight(r.offset);
    LeBytesAreEight(I64Bits(r.timestamp));
    LowBytes(|r.payload|);
    LeBytesAreFour(|r.payload| % TWO_32);
    if r.key.Some? {
      LowBytes(|r.key.value|);
      LeBytesAreFour(|r.key.value| % TWO_32);
    }
  }

  /** The record at `pos`, field by field at fixed places, and the position after it. */
  function Parsed(data: seq<Byte>, pos: nat): Option<(Record, nat)> {
    if pos + 17 > |data| || (data[pos + 16] == 1 && pos + 21 > |data|) then
      None
    else
      var keyed := data[pos + 16] == 1;
      var bits := EightAt(data, pos + 8);
      var millis := if bits < 0x8000_0000_0000_0000 then bits else bits - 0x1_0000_0000_0000_0000;
      var keyEnd := if keyed then pos + 21 + FourAt(data, pos + 17) else pos + 17;
      if keyEnd + 4 > |data| then
        None
      else
        var end := keyEnd + 4 + FourAt(data, keyEnd);
        if end > |data| || millis < -8_334_601_228_800_000 || millis > 8_210_266_876_799_999 then
          None
        else
          FieldFits(data, pos);
          Some((Record(EightAt(data, pos), millis, if keyed then Some(Utf8.Lossy(data[pos + 21..keyEnd])) else None,
                       data[keyEnd + 4..end]),
                end))
  }

  lemma FieldFits(data: seq<Byte>, p: nat)
    requires p + 8 <= |data|
    ensures EightAt(data, p) < 0x1_0000_0000_0000_0000
  {
    LeValueIsEight(data, p);
    LeValueBound(data, p, p + 8);
    Pow256Widths();
  }

  lemma BlobLayout(data: seq<Byte>, p: nat)
    ensures DecodeBlob(data, p) ==
              if p + 4 > |data| || p + 4 + FourAt(data, p) > |data| then None
              else Some((data[p + 4..p + 4 + FourAt(data, p)], p + 4 + FourAt(data, p)))
  {
    if p + 4 <= |data| {
      LeValueIsFour(data, p);
    }
  }

  /** What `decode` reads, at any position of any bytes, and exactly when it reads nothing. */
  lemma DecodeLayout(data: seq<Byte>, pos: nat)
    ensures Decode(data, pos) == Parsed(data, pos)
  {
    hide LeValue, FourAt, EightAt, DecodeBlob, Utf8.Lossy;
    BlobLayout(data, pos + 17);
    if pos + 17 <= |data| {
      LeValueIsEight(data, pos);
      LeValueIsEight(data, pos + 8);
      BlobLayout(data, if data[pos + 16] == 1 && pos + 21 <= |data| then pos + 21 + FourAt(data, pos + 17) else pos + 17);
    }
  }

  lemma KnownFields()
    ensures Eight(258) == [2, 1, 0, 0, 0, 0, 0, 0]
    ensures Eight(0xFFFF_FFFF_FFFF_FFFE) == [254, 255, 255, 255, 255, 255, 255, 255]
    ensures Four(3) == [3, 0, 0, 0] && Four(300) == [44, 1, 0, 0]
  {
  }

  /** Offset 258 at two milliseconds before 1970, a key of one three-byte character, a payload of 300 sevens. */
  lemma KnownBytes()
    ensures var sevens := seq(300, _ => 7);
            var data: seq<Byte> := [2, 1, 0, 0, 0, 0, 0, 0] + [254, 255, 255, 255, 255, 255, 255, 255]
                                   + [1, 3, 0, 0, 0, 0xE2, 0x82, 0xAC] + [44, 1, 0, 0] + sevens;
            var r := Record(258, -2, Some([0xE2, 0x82, 0xAC]), sevens);
            Encode(r) == data && Decode(data, 0) == Some((r, 328))
  {
    hide Encode, Decode, Four, Eight;
    var r := Record(258, -2, Some([0xE2, 0x82, 0xAC]), seq(300, _ => 7));
    EncodeLayout(r);
    KnownFields();
    DecodeInContext([], r, []);
    assert [] + Encode(r) + [] == Encode(r);
  }
}
