/** What a linear decode of a whole segment file finds: the specification of `Segment`. */
module Scanning {
  import opened Prelude
  import opened Bytes
  import opened Codec

  /** The records found, the byte position of each, and the position where decoding stopped. */
  datatype Scanned = Scanned(records: seq<Record>, index: seq<nat>, end: nat)

  function ScanFrom(data: seq<Byte>, pos: nat): (sc: Scanned)
    requires pos <= |data|
    ensures |sc.records| == |sc.index| && pos <= sc.end <= |data|
    ensures forall i :: 0 <= i < |sc.index| ==> pos <= sc.index[i] < sc.end
    decreases |data| - pos
  {
    match Decode(data, pos)
    case None => Scanned([], [], pos)
    case Some((r, next)) =>
      var rest := ScanFrom(data, next);
      Scanned([r] + rest.records, [pos] + rest.index, rest.end)
  }

  function Scan(data: seq<Byte>): (sc: Scanned)
    ensures |sc.records| == |sc.index| && sc.end <= |data|
  {
    ScanFrom(data, 0)
  }

  lemma IndexInside(data: seq<Byte>, i: nat)
    requires i < |Scan(data).index|
    ensures Scan(data).index[i] < |data|
  {
  }

  /** Decoding stopped exactly at the end: no torn tail. */
  ghost predicate Clean(data: seq<Byte>) {
    Scan(data).end == |data|
  }

  // ---- Concatenated encodings -----------------------------------------------------------------

  ghost function EncodeAll(rs: seq<Record>): seq<Byte> {
    if rs == [] then [] else EncodeAll(rs[..|rs| - 1]) + Encode(rs[|rs| - 1])
  }

  ghost predicate AllEncodable(rs: seq<Record>) {
    forall r :: r in rs ==> Encodable(r)
  }

  // ---- Positions ------------------------------------------------------------------------------

  /** Position `i` of a scan decodes to record `i` and leads to position `i + 1`. */
  lemma {:induction false} ScanStep(data: seq<Byte>, pos: nat, i: nat)
    requires pos <= |data| && i < |ScanFrom(data, pos).index|
    ensures var sc := ScanFrom(data, pos);
            && Decode(data, sc.index[i]).Some?
            && Decode(data, sc.index[i]).value.0 == sc.records[i]
            && Decode(data, sc.index[i]).value.1 == (if i + 1 < |sc.index| then sc.index[i + 1] else sc.end)
    decreases |data| - pos
  {
    var next := Decode(data, pos).value.1;
    if i > 0 {
      ScanStep(data, next, i - 1);
    }
  }

  lemma {:induction false} ScanEnd(data: seq<Byte>, pos: nat)
    requires pos <= |data|
    ensures Decode(data, ScanFrom(data, pos).end).None?
    decreases |data| - pos
  {
    if Decode(data, pos).Some? {
      ScanEnd(data, Decode(data, pos).value.1);
    }
  }

  lemma {:induction false} ScanIndexHead(data: seq<Byte>, pos: nat)
    requires pos <= |data|
    ensures var sc := ScanFrom(data, pos); (if sc.index == [] then sc.end else sc.index[0]) == pos
  {
  }

  /** Where record `i` starts, and past the last one, where the scan ended. */
  ghost function Position(sc: Scanned, i: nat): nat
    requires i <= |sc.index|
  {
    if i < |sc.index| then sc.index[i] else sc.end
  }

  /** How much the first `i` records of the scan grow when encoded again. */
  ghost function GrowthTo(data: seq<Byte>, pos: nat, i: nat): nat
    requires pos <= |data| && i <= |ScanFrom(data, pos).index|
  {
    if i == 0 then 0 else
      ScanStep(data, pos, i - 1);
      GrowthTo(data, pos, i - 1) + Growth(data, ScanFrom(data, pos).index[i - 1])
  }

  /** Record `i` of the scan is read with as many key bytes as the file holds. */
  ghost predicate KeyLengthKept(data: seq<Byte>, pos: nat, i: nat)
    requires pos <= |data| && i < |ScanFrom(data, pos).index|
  {
    ScanStep(data, pos, i);
    Growth(data, ScanFrom(data, pos).index[i]) == 0
  }

  lemma {:induction false} NoGrowth(data: seq<Byte>, pos: nat, i: nat)
    requires pos <= |data| && i <= |ScanFrom(data, pos).index|
    ensures GrowthTo(data, pos, i) == 0 <==> forall j :: 0 <= j < i ==> KeyLengthKept(data, pos, j)
    decreases i
  {
    hide Decode, Growth, ScanFrom;
    if i > 0 {
      NoGrowth(data, pos, i - 1);
      assert KeyLengthKept(data, pos, i - 1) <==> GrowthTo(data, pos, i) == GrowthTo(data, pos, i - 1);
    }
  }

  lemma {:induction false} PositionAndGrowth(data: seq<Byte>, pos: nat, i: nat)
    requires pos <= |data| && i <= |ScanFrom(data, pos).index|
    ensures var sc := ScanFrom(data, pos);
            Position(sc, i) + GrowthTo(data, pos, i) == pos + |EncodeAll(sc.records[..i])|
    decreases i
  {
    hide Decode, Encode;
    var sc := ScanFrom(data, pos);
    if i == 0 {
      ScanIndexHead(data, pos);
    } else {
      PositionAndGrowth(data, pos, i - 1);
      ScanStep(data, pos, i - 1);
      DecodeLength(data, sc.index[i - 1]);
      assert sc.records[..i][..i - 1] == sc.records[..i - 1];
    }
  }

  /**
    On any bytes, `index[i]` is the total encoded length of the first `i` records exactly when none of their
    keys grew by being read as text.
   */
  lemma IndexIsPrefixSumsIff(data: seq<Byte>, pos: nat, i: nat)
    requires pos <= |data| && i <= |ScanFrom(data, pos).index|
    ensures var sc := ScanFrom(data, pos);
            Position(sc, i) == pos + |EncodeAll(sc.records[..i])| <==> forall j :: 0 <= j < i ==> KeyLengthKept(data, pos, j)
  {
    hide ScanFrom, EncodeAll, GrowthTo, KeyLengthKept;
    PositionAndGrowth(data, pos, i);
    NoGrowth(data, pos, i);
  }

  // ---- Appending ------------------------------------------------------------------------------

  lemma Associative<T>(a: seq<T>, b: seq<T>, c: seq<T>)
    ensures a + (b + c) == (a + b) + c
  {
  }

  /** Two scans in a row: what lies after a clean prefix is scanned from where the prefix ended. */
  lemma {:induction false} ScanAppend(data: seq<Byte>, pos: nat, tail: seq<Byte>)
    requires pos <= |data| && ScanFrom(data, pos).end == |data|
    ensures var sc, more := ScanFrom(data, pos), ScanFrom(data + tail, |data|);
            ScanFrom(data + tail, pos) == Scanned(sc.records + more.records, sc.index + more.index, more.end)
    decreases |data| - pos
  {
    hide Decode;
    var sc, more := ScanFrom(data, pos), ScanFrom(data + tail, |data|);
    if Decode(data, pos).Some? {
      var (r, next) := Decode(data, pos).value;
      var rest := ScanFrom(data, next);
      DecodeSpan(data, pos, data + tail, pos, next - pos);
      var joint := ScanFrom(data + tail, next);
      assert sc == Scanned([r] + rest.records, [pos] + rest.index, rest.end);
      assert ScanFrom(data + tail, pos) == Scanned([r] + joint.records, [pos] + joint.index, joint.end);
      ScanAppend(data, next, tail);
      Associative([r], rest.records, more.records);
      Associative([pos], rest.index, more.index);
    } else {
      assert sc == Scanned([], [], pos);
      assert [] + more.records == more.records && [] + more.index == more.index;
    }
  }

  /** Writing one whole record to a clean file adds exactly that record. */
  lemma ScanWhole(data: seq<Byte>, r: Record)
    requires Clean(data) && Encodable(r)
    ensures var sc := Scan(data);
            Scan(data + Encode(r)) == Scanned(sc.records + [r], sc.index + [|data|], |data| + |Encode(r)|)
    ensures Clean(data + Encode(r))
  {
    hide Decode, Encode;
    var e := Encode(r);
    DecodeInContext(data, r, []);
    assert data + e + [] == data + e;
    var sc := ScanFrom(data + e, |data| + |e|);
    assert sc == Scanned([], [], |data| + |e|);
    ScanAppend(data, 0, e);
  }

  /** Writing part of a record to a clean file adds nothing and moves no position. */
  lemma ScanTorn(data: seq<Byte>, torn: seq<Byte>, r: Record)
    requires Clean(data) && Encodable(r) && torn < Encode(r)
    ensures Scan(data + torn) == Scan(data)
  {
    TornRecordIsEof(data, torn, r);
    ScanAppend(data, 0, torn);
  }

  lemma {:induction false} ScanEncodeAll(rs: seq<Record>)
    requires AllEncodable(rs)
    ensures Clean(EncodeAll(rs)) && Scan(EncodeAll(rs)).records == rs
  {
    hide Decode, Encode;
    if rs != [] {
      var init, r := rs[..|rs| - 1], rs[|rs| - 1];
      ScanEncodeAll(init);
      ScanWhole(EncodeAll(init), r);
    }
  }

  /** Encodings followed by a torn one: exactly the whole records are found, and the end is where they end. */
  lemma TornTailRepair(rs: seq<Record>, torn: seq<Byte>, r: Record)
    requires AllEncodable(rs) && Encodable(r) && torn < Encode(r)
    ensures var data := EncodeAll(rs) + torn;
            && Scan(data).records == rs
            && data[..Scan(data).end] == EncodeAll(rs)
  {
    ScanEncodeAll(rs);
    ScanTorn(EncodeAll(rs), torn, r);
  }

  /** A concatenation of encodings can be split into records in one way only. */
  lemma UniqueParse(rs: seq<Record>, rs': seq<Record>)
    requires AllEncodable(rs) && AllEncodable(rs') && EncodeAll(rs) == EncodeAll(rs')
    ensures rs == rs'
  {
    ScanEncodeAll(rs);
    ScanEncodeAll(rs');
  }

  lemma {:induction false} GrowthMonotone(data: seq<Byte>, i: nat, n: nat)
    requires i <= n <= |Scan(data).index|
    ensures GrowthTo(data, 0, i) <= GrowthTo(data, 0, n)
    decreases n
  {
    if i < n {
      GrowthMonotone(data, i, n - 1);
    }
  }

  /** In a file made of encodings, `index[i]` is the total length of the first `i`. */
  lemma IndexIsPrefixSums(rs: seq<Record>, i: nat)
    requires AllEncodable(rs) && i <= |rs|
    ensures |Scan(EncodeAll(rs)).index| == |rs| && Position(Scan(EncodeAll(rs)), i) == |EncodeAll(rs[..i])|
  {
    hide ScanFrom, GrowthTo, EncodeAll;
    ScanEncodeAll(rs);
    var data := EncodeAll(rs);
    PositionAndGrowth(data, 0, |rs|);
    PositionAndGrowth(data, 0, i);
    GrowthMonotone(data, i, |rs|);
    assert rs[..|rs|] == rs;
  }

  /** Appending to a clean file, record by record, and scanning again gives the old records and the new. */
  lemma {:induction false} ScanAppendAll(data: seq<Byte>, rs: seq<Record>)
    requires Clean(data) && AllEncodable(rs)
    ensures Clean(data + EncodeAll(rs)) && Scan(data + EncodeAll(rs)).records == Scan(data).records + rs
  {
    hide Decode, Encode;
    if rs == [] {
      assert data + [] == data;
    } else {
      var init, r := rs[..|rs| - 1], rs[|rs| - 1];
      ScanAppendAll(data, init);
      ScanWhole(data + EncodeAll(init), r);
      Associative(data, EncodeAll(init), Encode(r));
      assert rs == init + [r];
      Associative(Scan(data).records, init, [r]);
    }
  }

  // ---- Truncating -----------------------------------------------------------------------------

  lemma {:induction false} ScanOfPrefix(data: seq<Byte>, pos: nat, end: nat)
    requires pos <= end <= |data| && ScanFrom(data, pos).end == end
    ensures ScanFrom(data[..end], pos) == ScanFrom(data, pos)
    decreases |data| - pos
  {
    hide Decode;
    if Decode(data, pos).Some? {
      var next := Decode(data, pos).value.1;
      DecodeSpan(data, pos, data[..end], pos, next - pos);
      ScanOfPrefix(data, next, end);
    } else if Decode(data[..end], pos).Some? {
      assert false;
    }
  }

  /** Cutting a file where its scan stopped keeps every record and leaves it clean, whatever the bytes are. */
  lemma TruncateKeepsScan(data: seq<Byte>)
    ensures var cut := data[..Scan(data).end]; Scan(cut) == Scan(data) && Clean(cut)
  {
    ScanOfPrefix(data, 0, Scan(data).end);
  }

  // ---- Reading from the middle ----------------------------------------------------------------

  /** Decoding the tail of a file at `p` is decoding the file at `start + p`. */
  lemma DecodeTail(data: seq<Byte>, start: nat, p: nat)
    requires start <= |data|
    ensures match Decode(data, start + p)
            case None => Decode(data[start..], p) == None
            case Some((r, next)) => Decode(data[start..], p) == Some((r, next - start))
  {
    hide Decode;
    var tail := data[start..];
    if Decode(data, start + p).Some? {
      DecodeSpan(data, start + p, tail, p, Decode(data, start + p).value.1 - (start + p));
    } else if Decode(tail, p).Some? {
      DecodeSpan(tail, p, data, start + p, Decode(tail, p).value.1 - p);
    }
  }

  /** A reader that seeks to `start` and decodes from there meets the same records as the full scan. */
  lemma DecodeAfterSeek(data: seq<Byte>, start: nat, p: nat, i: nat)
    requires start <= |data| && i <= |Scan(data).index| && start + p == Position(Scan(data), i)
    ensures var sc := Scan(data);
            if i < |sc.index| then
              && Decode(data[start..], p).Some?
              && Decode(data[start..], p).value.0 == sc.records[i]
              && start + Decode(data[start..], p).value.1 == Position(sc, i + 1)
            else
              Decode(data[start..], p) == None
  {
    hide Decode;
    DecodeTail(data, start, p);
    if i < |Scan(data).index| {
      ScanStep(data, 0, i);
    } else {
      ScanEnd(data, 0);
    }
  }
}
