/** `segment.rs`: one append-only log segment backed by a file. */
module Segments {
  import opened Prelude
  import opened Bytes
  import opened Codec
  import opened Scanning
  import opened Disks
  import opened Filtering

  /** The position of each record, and where decoding stopped. */
  method BuildIndex(data: seq<Byte>) returns (index: seq<nat>, pos: nat)
    ensures index == Scan(data).index && pos == Scan(data).end
  {
    hide Decode;
    index, pos := [], 0;
    var step := Decode(data, pos);
    while step.Some?
      invariant pos <= |data| && step == Decode(data, pos)
      invariant index + ScanFrom(data, pos).index == Scan(data).index
      invariant ScanFrom(data, pos).end == Scan(data).end
      decreases |data| - pos
    {
      var (_, next) := step.value;
      ghost var rest := ScanFrom(data, next).index;
      assert (index + [pos]) + rest == index + ([pos] + rest);
      index := index + [pos];
      pos := next;
      step := Decode(data, pos);
    }
    assert ScanFrom(data, pos) == Scanned([], [], pos);
  }

  class Segment {
    const disk: Disk
    const base: nat
    /** Byte position of each record. */
    var index: seq<nat>
    var writePos: nat

    /** The index and the write position are what a full scan of the file would rebuild. */
    ghost predicate Valid()
      reads this, disk
    {
      && base in disk.files
      && var data := disk.files[base];
      && index == Scan(data).index
      && writePos == Scan(data).end == |data|
    }

    ghost function Contents(): (rs: seq<Record>)
      requires Valid()
      reads this, disk
      ensures |rs| == |index|
    {
      Scan(disk.files[base]).records
    }

    constructor Create(disk: Disk, base: nat)
      requires base in disk.files ==> disk.files[base] == []
      modifies disk
      ensures this.disk == disk && this.base == base
      ensures Valid() && Contents() == [] && index == []
      ensures disk.files == old(disk.files)[base := []]
      ensures disk.journal == old(disk.journal) + [CreateFile(base)]
    {
      disk.Perform(CreateFile(base));
      this.disk := disk;
      this.base := base;
      index := [];
      writePos := 0;
    }

    constructor FromScan(disk: Disk, base: nat, index: seq<nat>, writePos: nat)
      ensures this.disk == disk && this.base == base && this.index == index && this.writePos == writePos
    {
      this.disk := disk;
      this.base := base;
      this.index := index;
      this.writePos := writePos;
    }

    /** Rebuild the index by scanning, and cut off a torn tail; None is the missing file. */
    static method Open(disk: Disk, base: nat) returns (res: Option<Segment>)
      modifies disk
      ensures res.None? <==> base !in old(disk.files)
      ensures res.None? ==> disk.files == old(disk.files) && disk.journal == old(disk.journal)
      ensures res.Some? ==>
                && fresh(res.value) && res.value.disk == disk && res.value.base == base
                && res.value.Valid()
                && res.value.Contents() == Scan(old(disk.files)[base]).records
                && disk.files == old(disk.files)[base := old(disk.files)[base][..Scan(old(disk.files)[base]).end]]
                && disk.journal == old(disk.journal) + RepairPlan(base, old(disk.files)[base])
    {
      if base !in disk.files {
        return None;
      }
      var data := disk.files[base];
      var index, pos := BuildIndex(data);
      hide Decode, Scan;
      TruncateKeepsScan(data);
      if pos < |data| {
        disk.Perform(TruncateFile(base, pos));
      } else {
        assert data[..pos] == data;
        assert disk.files == disk.files[base := data];
      }
      var seg := new Segment.FromScan(disk, base, index, pos);
      res := Some(seg);
    }

    function Len(): nat
      reads this
    {
      |index|
    }

    method Append(r: Record)
      requires Valid() && Encodable(r)
      modifies this, disk
      ensures Valid()
      ensures Contents() == old(Contents()) + [r]
      ensures index == old(index) + [old(writePos)]
      ensures disk.files == old(disk.files)[base := old(disk.files)[base] + Encode(r)]
      ensures disk.journal == old(disk.journal) + [WriteFile(base, Encode(r))]
    {
      hide Decode, Encode;
      ScanWhole(disk.files[base], r);
      var buf := Encode(r);
      disk.Perform(WriteFile(base, buf));
      index := index + [writePos];
      writePos := writePos + |buf|;
    }

    /** Up to `remaining` records from offset `from` on, added to `out`. */
    method ReadFrom(from: nat, remaining: nat, out: seq<Record>) returns (added: nat, out': seq<Record>)
      requires Valid()
      ensures var rs := Contents();
              var first := Min(Max(from - base, 0), |rs|);
              && added == Min(remaining, |rs| - first)
              && out' == out + rs[first..first + added]
              && (DenseFrom(rs, base) ==> out' == out + Take(FilterFrom(rs, from), remaining))
    {
      hide Decode, Scan, DenseFrom, Take, FilterFrom;
      out', added := out, 0;
      FilteredRead(Contents(), base, from, remaining);
      if remaining == 0 || index == [] || from >= base + |index| {
        return;
      }
      ghost var sc := Scan(disk.files[base]);
      var startIdx := Max(from - base, 0);
      IndexInside(disk.files[base], startIdx);
      var startPos := index[startIdx];
      var data := disk.files[base][startPos..];
      var pos := 0;
      while added < remaining
        invariant added <= remaining && startIdx + added <= |index|
        invariant startPos + pos == Position(sc, startIdx + added)
        invariant out' == out + sc.records[startIdx..startIdx + added]
      {
        DecodeAfterSeek(disk.files[base], startPos, pos, startIdx + added);
        var step := Decode(data, pos);
        if step.None? {
          break;
        }
        SliceSnoc(out, sc.records, startIdx, added);
        out' := out' + [step.value.0];
        pos := step.value.1;
        added := added + 1;
      }
    }

    method Remove()
      modifies disk
      ensures disk.files == old(disk.files) - {base}
      ensures disk.journal == old(disk.journal) + [DeleteFile(base)]
    {
      disk.Perform(DeleteFile(base));
    }
  }

  lemma FilteredRead(rs: seq<Record>, base: nat, from: nat, remaining: nat)
    ensures var first := Min(Max(from - base, 0), |rs|);
            DenseFrom(rs, base) ==> Take(FilterFrom(rs, from), remaining) == rs[first..first + Min(remaining, |rs| - first)]
  {
    if DenseFrom(rs, base) {
      SeekIsFilter(rs, base, from, remaining);
    }
  }

  /** What opening a file does to it: nothing, or one truncation. */
  function RepairPlan(base: nat, data: seq<Byte>): seq<DiskOp> {
    if Scan(data).end < |data| then [TruncateFile(base, Scan(data).end)] else []
  }
}
