/** The record framing of `segment.rs`: `encode` and `decode`. */
module Codec {
  import opened Prelude
  import opened Bytes
  import Utf8

  /** Bounds, in milliseconds, of the instants chrono's `DateTime<Utc>` can hold. */
  const MIN_MILLIS: int := -8_334_601_228_800_000
  const MAX_MILLIS: int := 8_210_266_876_799_999

  type Millis = t: int | MIN_MILLIS <= t <= MAX_MILLIS witness 0

  datatype Record = Record(offset: U64, timestamp: Millis, key: Option<Utf8.Text>, payload: seq<Byte>)

  /** Both length prefixes fit in their 32-bit fields. */
  predicate Encodable(r: Record) {
    && |r.payload| < TWO_32
    && (r.key.Some? ==> |r.key.value| < TWO_32)
  }

  // ---- Encoding -------------------------------------------------------------------------------

  /** An `i64` as its two's-complement bit pattern. */
  function I64Bits(t: Millis): (n: nat)
    ensures n < TWO_64
  {
    if t >= 0 then t else t + TWO_64
  }

  function I64FromBits(n: nat): int {
    if n < TWO_63 then n else n - TWO_64
  }

  /** A byte string behind its length, the length cast to `u32`. */
  function EncodeBlob(s: seq<Byte>): (e: seq<Byte>)
    ensures |e| == 4 + |s|
  {
    LeBytes(|s| % TWO_32, 4) + s
  }

  function EncodeKey(key: Option<seq<Byte>>): (e: seq<Byte>)
    ensures |e| >= 1
  {
    match key
    case Some(k) => [1] + EncodeBlob(k)
    case None => [0]
  }

  function Encode(r: Record): (e: seq<Byte>)
    ensures |e| >= 21
  {
    LeBytes(r.offset, 8) + LeBytes(I64Bits(r.timestamp), 8) + EncodeKey(r.key) + EncodeBlob(r.payload)
  }

  // ---- Decoding -------------------------------------------------------------------------------

  /** The `width`-byte integer at `p`, when the data reaches that far. */
  function DecodeInt(data: seq<Byte>, p: nat, width: nat): (res: Option<nat>) {
    if p + width <= |data| then Some(LeValue(data, p, p + width)) else None
  }

  function DecodeBlob(data: seq<Byte>, p: nat): (res: Option<(seq<Byte>, nat)>)
    ensures res.Some? ==>
              && res.value.1 == p + 4 + |res.value.0| <= |data|
              && |res.value.0| < TWO_32
  {
    var len :- DecodeInt(data, p, 4);
    LeValueBound(data, p, p + 4);
    Pow256Widths();
    if p + 4 + len <= |data| then Some((data[p + 4..p + 4 + len], p + 4 + len)) else None
  }

  /** Any flag byte other than 1 reads as "no key". */
  function DecodeKey(data: seq<Byte>, p: nat): (res: Option<(Option<seq<Byte>>, nat)>)
    ensures res.Some? ==>
              && p + 1 <= res.value.1 <= |data|
              && (res.value.0.Some? ==> |res.value.0.value| < TWO_32 && res.value.1 == p + 5 + |res.value.0.value|)
              && (res.value.0.None? ==> res.value.1 == p + 1)
  {
    if p >= |data| then
      None
    else if data[p] == 1 then
      var (k, next) :- DecodeBlob(data, p + 1);
      Some((Some(k), next))
    else
      Some((None, p + 1))
  }

  /** The variable-length half of a record: key, then payload. */
  function DecodeBody(data: seq<Byte>, p: nat): (res: Option<(Option<seq<Byte>>, seq<Byte>, nat)>)
    ensures res.Some? ==>
              && p + 5 <= res.value.2 <= |data|
              && |res.value.1| < TWO_32
              && (res.value.0.Some? ==> |res.value.0.value| < TWO_32)
              && res.value.2 == p + 5 + (if res.value.0.Some? then 4 + |res.value.0.value| else 0) + |res.value.1|
  {
    var (key, q) :- DecodeKey(data, p);
    var (payload, next) :- DecodeBlob(data, q);
    Some((key, payload, next))
  }

  /** A key as read: its bytes, with whatever is not UTF-8 replaced. */
  function Readable(key: Option<seq<Byte>>): (text: Option<Utf8.Text>)
    ensures text == key <==> key.None? || Utf8.Valid(key.value)
  {
    match key
    case None => None
    case Some(k) =>
      Utf8.LossyIffValid(k);
      Some(Utf8.Lossy(k))
  }

  /**
    One record starting at `pos`, with the position after it. None is a clean or torn end of file;
    a timestamp outside the calendar's range reads as end of file too.
   */
  function Decode(data: seq<Byte>, pos: nat): (res: Option<(Record, nat)>)
    ensures res.Some? ==> pos + 21 <= res.value.1 <= |data|
  {
    var offset :- DecodeInt(data, pos, 8);
    var millisBits :- DecodeInt(data, pos + 8, 8);
    var (key, payload, next) :- DecodeBody(data, pos + 16);
    var millis := I64FromBits(millisBits);
    LeValueBound(data, pos, pos + 8);
    Pow256Widths();
    if MIN_MILLIS <= millis <= MAX_MILLIS then
      Some((Record(offset, millis, Readable(key), payload), next))
    else
      None
  }

  /** The bytes of the key of the record at `pos`, before they are read as text. */
  function RawKey(data: seq<Byte>, pos: nat): Option<seq<Byte>>
    requires Decode(data, pos).Some?
  {
    DecodeBody(data, pos + 16).value.0
  }

  /** How much longer the record at `pos` is when encoded again. */
  function Growth(data: seq<Byte>, pos: nat): nat
    requires Decode(data, pos).Some?
  {
    match RawKey(data, pos)
    case None => 0
    case Some(k) => Utf8.Growth(k)
  }

  /**
    A decoded record encodes to as many bytes as it was decoded from, and to those its key grew by when what
    was not UTF-8 in it was replaced.
   */
  lemma DecodeLength(data: seq<Byte>, pos: nat)
    requires Decode(data, pos).Some?
    ensures var (r, next) := Decode(data, pos).value; pos + |Encode(r)| == next + Growth(data, pos)
  {
    var key := RawKey(data, pos);
    if key.Some? {
      Utf8.LossyLength(key.value);
    }
  }

  /** A key that is the one byte 0xFF is read as three: the record encodes to two bytes more than it took. */
  lemma MalformedKeyGrows()
    ensures var data: seq<Byte> := seq(16, _ => 0) + [1, 1, 0, 0, 0, 0xFF, 0, 0, 0, 0];
            && Decode(data, 0).Some?
            && Decode(data, 0).value.1 == |data| && |Encode(Decode(data, 0).value.0)| == |data| + 2
  {
    var data: seq<Byte> := seq(16, _ => 0) + [1, 1, 0, 0, 0, 0xFF, 0, 0, 0, 0];
    Zeros(data, 0, 8);
    Zeros(data, 8, 8);
    Zeros(data, 22, 4);
    OneThenZeros(data);
    assert data[21..22] == [0xFF];
    assert Utf8.First([0xFF]) == Utf8.Chunk(1, false) && [0xFF][1..] == [];
    assert Utf8.Growth([0xFF]) == 2;
    DecodeLength(data, 0);
  }

  lemma {:induction false} Zeros(data: seq<Byte>, p: nat, width: nat)
    requires p + width <= |data| && forall i :: p <= i < p + width ==> data[i] == 0
    ensures LeValue(data, p, p + width) == 0
    decreases width
  {
    if width > 0 {
      Zeros(data, p + 1, width - 1);
    }
  }

  lemma OneThenZeros(data: seq<Byte>)
    requires |data| >= 21 && data[17] == 1 && data[18] == data[19] == data[20] == 0
    ensures LeValue(data, 17, 21) == 1
  {
    Zeros(data, 18, 3);
  }

  // ---- A decode looks only at the bytes it consumes -------------------------------------------

  lemma DecodeBlobSpan(data: seq<Byte>, p: nat, data': seq<Byte>, p': nat, n: nat)
    requires DecodeBlob(data, p).Some? && DecodeBlob(data, p).value.1 == p + n
    requires SameSpan(data, p, data', p', n)
    ensures DecodeBlob(data', p') == Some((DecodeBlob(data, p).value.0, p' + n))
  {
    LeValueSpan(data, p, data', p', 4);
    assert data[p + 4..p + n] == data'[p' + 4..p' + n];
  }

  lemma DecodeKeySpan(data: seq<Byte>, p: nat, data': seq<Byte>, p': nat, n: nat)
    requires DecodeKey(data, p).Some? && DecodeKey(data, p).value.1 == p + n
    requires SameSpan(data, p, data', p', n)
    ensures DecodeKey(data', p') == Some((DecodeKey(data, p).value.0, p' + n))
  {
    assert data[p] == data'[p'];
    if DecodeKey(data, p).value.0.Some? {
      DecodeBlobSpan(data, p + 1, data', p' + 1, n - 1);
    }
  }

  lemma DecodeBodySpan(data: seq<Byte>, p: nat, data': seq<Byte>, p': nat, n: nat)
    requires DecodeBody(data, p).Some? && DecodeBody(data, p).value.2 == p + n
    requires SameSpan(data, p, data', p', n)
    ensures DecodeBody(data', p') == Some((DecodeBody(data, p).value.0, DecodeBody(data, p).value.1, p' + n))
  {
    var k := DecodeKey(data, p).value.1 - p;
    DecodeKeySpan(data, p, data', p', k);
    DecodeBlobSpan(data, p + k, data', p' + k, n - k);
  }

  /** Copying the bytes a record was decoded from anywhere else decodes to the same record. */
  lemma DecodeSpan(data: seq<Byte>, p: nat, data': seq<Byte>, p': nat, n: nat)
    requires Decode(data, p).Some? && Decode(data, p).value.1 == p + n
    requires SameSpan(data, p, data', p', n)
    ensures Decode(data', p') == Some((Decode(data, p).value.0, p' + n))
  {
    assert DecodeInt(data', p', 8) == DecodeInt(data, p, 8) by {
      LeValueSpan(data, p, data', p', 8);
    }
    assert DecodeInt(data', p' + 8, 8) == DecodeInt(data, p + 8, 8) by {
      LeValueSpan(data, p + 8, data', p' + 8, 8);
    }
    var (key, payload, _) := DecodeBody(data, p + 16).value;
    assert DecodeBody(data', p' + 16) == Some((key, payload, p' + n)) by {
      DecodeBodySpan(data, p + 16, data', p' + 16, n - 16);
    }
  }

  // ---- Round trip -----------------------------------------------------------------------------

  lemma DecodeIntOfEncode(pre: seq<Byte>, n: nat, width: nat, post: seq<Byte>)
    requires n < Pow256(width)
    ensures DecodeInt(pre + LeBytes(n, width) + post, |pre|, width) == Some(n)
  {
    LeValueOfLeBytes(pre, n, width, post);
  }

  lemma DecodeBlobOfEncode(pre: seq<Byte>, s: seq<Byte>, post: seq<Byte>)
    requires |s| < TWO_32
    ensures DecodeBlob(pre + EncodeBlob(s) + post, |pre|) == Some((s, |pre| + |EncodeBlob(s)|))
  {
    var data, len := pre + EncodeBlob(s) + post, LeBytes(|s|, 4);
    Pow256Widths();
    assert data == pre + len + (s + post);
    DecodeIntOfEncode(pre, |s|, 4, s + post);
    assert data[|pre| + 4..|pre| + 4 + |s|] == s;
  }

  lemma DecodeKeyOfEncode(pre: seq<Byte>, key: Option<seq<Byte>>, post: seq<Byte>)
    requires key.Some? ==> |key.value| < TWO_32
    ensures DecodeKey(pre + EncodeKey(key) + post, |pre|) == Some((key, |pre| + |EncodeKey(key)|))
  {
    var data := pre + EncodeKey(key) + post;
    assert data[|pre|] == EncodeKey(key)[0];
    if key.Some? {
      assert data == (pre + [1]) + EncodeBlob(key.value) + post;
      DecodeBlobOfEncode(pre + [1], key.value, post);
    }
  }

  lemma DecodeBodyOfEncode(pre: seq<Byte>, key: Option<seq<Byte>>, payload: seq<Byte>)
    requires |payload| < TWO_32 && (key.Some? ==> |key.value| < TWO_32)
    ensures var e := pre + EncodeKey(key) + EncodeBlob(payload);
            DecodeBody(e, |pre|) == Some((key, payload, |e|))
  {
    var k, b := EncodeKey(key), EncodeBlob(payload);
    DecodeKeyOfEncode(pre, key, b);
    assert pre + k + b == (pre + k) + b + [];
    DecodeBlobOfEncode(pre + k, payload, []);
  }

  lemma DecodeOfParts(e: seq<Byte>, offset: U64, bits: nat, key: Option<seq<Byte>>, payload: seq<Byte>)
    requires DecodeInt(e, 0, 8) == Some(offset) && DecodeInt(e, 8, 8) == Some(bits)
    requires DecodeBody(e, 16) == Some((key, payload, |e|)) && (key.Some? ==> Utf8.Valid(key.value))
    requires MIN_MILLIS <= I64FromBits(bits) <= MAX_MILLIS
    ensures Decode(e, 0) == Some((Record(offset, I64FromBits(bits), Readable(key), payload), |e|)) && Readable(key) == key
  {
  }

  lemma DecodeOfEncode(r: Record)
    requires Encodable(r)
    ensures Decode(Encode(r), 0) == Some((r, |Encode(r)|))
  {
    hide Decode, DecodeBody, EncodeKey, EncodeBlob, DecodeInt;
    var o, t, k, b := LeBytes(r.offset, 8), LeBytes(I64Bits(r.timestamp), 8), EncodeKey(r.key), EncodeBlob(r.payload);
    var e := Encode(r);
    Pow256Widths();
    assert DecodeInt(e, 0, 8) == Some(r.offset) by {
      assert e == [] + o + (t + k + b);
      DecodeIntOfEncode([], r.offset, 8, t + k + b);
    }
    assert DecodeInt(e, 8, 8) == Some(I64Bits(r.timestamp)) by {
      assert e == o + t + (k + b);
      DecodeIntOfEncode(o, I64Bits(r.timestamp), 8, k + b);
    }
    DecodeBodyOfEncode(o + t, r.key, r.payload);
    DecodeOfParts(e, r.offset, I64Bits(r.timestamp), r.key, r.payload);
  }

  lemma DecodeMoved(pre: seq<Byte>, e: seq<Byte>, r: Record, post: seq<Byte>)
    requires Decode(e, 0) == Some((r, |e|))
    ensures Decode(pre + e + post, |pre|) == Some((r, |pre| + |e|))
  {
    DecodeSpan(e, 0, pre + e + post, |pre|, |e|);
  }

  /** Inside any surrounding bytes, the encoding of an encodable record reads back exactly. */
  lemma DecodeInContext(pre: seq<Byte>, r: Record, post: seq<Byte>)
    requires Encodable(r)
    ensures Decode(pre + Encode(r) + post, |pre|) == Some((r, |pre| + |Encode(r)|))
  {
    hide Decode, Encode;
    DecodeOfEncode(r);
    DecodeMoved(pre, Encode(r), r, post);
  }

  /** The round trip holds exactly for the records whose lengths survive the cast to `u32`. */
  lemma RoundTripIff(pre: seq<Byte>, r: Record, post: seq<Byte>)
    ensures Decode(pre + Encode(r) + post, |pre|) == Some((r, |pre| + |Encode(r)|)) <==> Encodable(r)
  {
    if Encodable(r) {
      DecodeInContext(pre, r, post);
    }
  }

  /** Nothing shorter than a whole record decodes: a torn write reads as end of file. */
  lemma TornRecordIsEof(pre: seq<Byte>, torn: seq<Byte>, r: Record)
    requires Encodable(r)
    requires torn < Encode(r)
    ensures Decode(pre + torn, |pre|) == None
  {
    if Decode(pre + torn, |pre|).Some? {
      var n := Decode(pre + torn, |pre|).value.1 - |pre|;
      DecodeSpan(pre + torn, |pre|, Encode(r), 0, n);
      DecodeOfEncode(r);
    }
  }
}
