/**
  The specification of a file partition: a history, the segments that hold its retained end, and the
  three primitive steps `append_records` and `apply_retention` are made of.
 */
module Parts {
  import opened Multiples
  import opened Codec
  import opened Scanning
  import opened Disks
  import opened Logs

  datatype Seg = Seg(base: nat, len: nat)

  datatype Part = Part(history: seq<Record>, segs: seq<Seg>)

  const EMPTY: Part := Part([], [])

  function Start(p: Part): nat {
    if p.segs == [] then |p.history| else p.segs[0].base
  }

  function AsLog(p: Part): Log {
    Log(p.history, Start(p))
  }

  function Last(p: Part): Seg
    requires p.segs != []
  {
    p.segs[|p.segs| - 1]
  }

  /** Segments tile the retained end of the history; all but the last hold exactly `s` records. */
  ghost predicate WellFormedPart(p: Part, s: nat) {
    && s > 0
    && Dense(p.history)
    && (p.segs == [] ==> p.history == [])
    && (p.segs != [] ==> Last(p).len <= s && Last(p).base + Last(p).len == |p.history| && Start(p) % s == 0)
    && (forall i, j :: 0 <= i < j < |p.segs| ==>
         && p.segs[i].len == s
         && p.segs[i].base + s <= p.segs[j].base
         && (j == i + 1 ==> p.segs[i].base + s == p.segs[j].base))
  }

  // ---- Steps ----------------------------------------------------------------------------------

  /** Start a segment file; write one record to the active one; delete the head one. */
  datatype Step = Roll | Put(r: Record) | Drop

  predicate NeedsRoll(p: Part, s: nat) {
    p.segs == [] || Last(p).len >= s
  }

  ghost predicate Allowed(p: Part, step: Step, s: nat) {
    match step
    case Roll => NeedsRoll(p, s)
    case Put(r) => !NeedsRoll(p, s) && r.offset == |p.history| && Encodable(r)
    case Drop => |p.segs| > 1
  }

  function Do(p: Part, step: Step): Part {
    match step
    case Roll => p.(segs := p.segs + [Seg(|p.history|, 0)])
    case Put(r) =>
      if p.segs == [] then p else
        Part(p.history + [r], p.segs[|p.segs| - 1 := Seg(Last(p).base, Last(p).len + 1)])
    case Drop => if p.segs == [] then p else p.(segs := p.segs[1..])
  }

  /** What the step does to the directory. */
  function OpOf(p: Part, step: Step): DiskOp {
    match step
    case Roll => CreateFile(|p.history|)
    case Put(r) => WriteFile(if p.segs == [] then 0 else Last(p).base, Encode(r))
    case Drop => DeleteFile(Start(p))
  }

  function DoAll(p: Part, steps: seq<Step>): Part {
    if steps == [] then p else Do(DoAll(p, steps[..|steps| - 1]), steps[|steps| - 1])
  }

  function OpsOf(p: Part, steps: seq<Step>): (ops: seq<DiskOp>)
    ensures |ops| == |steps|
  {
    if steps == [] then [] else
      var init := steps[..|steps| - 1];
      OpsOf(p, init) + [OpOf(DoAll(p, init), steps[|steps| - 1])]
  }

  // ---- The directory --------------------------------------------------------------------------

  ghost function Bases(segs: seq<Seg>): set<nat> {
    set i | 0 <= i < |segs| :: segs[i].base
  }

  /** Segment `i`'s file scans to its slice of the history; what follows the last whole record may be torn. */
  ghost predicate FileMatches(files: Files, p: Part, i: nat)
    requires i < |p.segs|
  {
    var g := p.segs[i];
    && g.base in files
    && g.base + g.len <= |p.history|
    && Scan(files[g.base]).records == p.history[g.base..g.base + g.len]
  }

  /** The directory holds exactly the segments' files, each with its records, torn tails allowed. */
  ghost predicate Image(files: Files, p: Part) {
    && files.Keys == Bases(p.segs)
    && forall i :: 0 <= i < |p.segs| ==> FileMatches(files, p, i)
  }

  ghost predicate AllClean(files: Files) {
    forall b :: b in files ==> Clean(files[b])
  }

  /** An image with no torn tail. */
  ghost predicate Holds(files: Files, p: Part) {
    Image(files, p) && AllClean(files)
  }

  // ---- Each step keeps the tiling -------------------------------------------------------------

  lemma BasesSnoc(segs: seq<Seg>, seg: Seg)
    ensures Bases(segs + [seg]) == Bases(segs) + {seg.base}
  {
    var more := segs + [seg];
    assert more[|segs|] == seg;
    forall b | b in Bases(segs) + {seg.base}
      ensures b in Bases(more)
    {
      if b in Bases(segs) {
        var i :| 0 <= i < |segs| && segs[i].base == b;
        assert more[i].base == b;
      }
    }
  }

  lemma BasesTail(segs: seq<Seg>)
    requires segs != [] && forall i :: 0 < i < |segs| ==> segs[0].base != segs[i].base
    ensures Bases(segs[1..]) == Bases(segs) - {segs[0].base}
  {
    forall b | b in Bases(segs) - {segs[0].base}
      ensures b in Bases(segs[1..])
    {
      var i :| 0 <= i < |segs| && segs[i].base == b;
      assert segs[1..][i - 1].base == b;
    }
  }

  lemma BasesGrowLast(segs: seq<Seg>, seg: Seg)
    requires segs != [] && seg.base == segs[|segs| - 1].base
    ensures Bases(segs[|segs| - 1 := seg]) == Bases(segs)
  {
    var init := segs[..|segs| - 1];
    BasesSnoc(init, seg);
    BasesSnoc(init, segs[|segs| - 1]);
    assert segs == init + [segs[|segs| - 1]];
    assert segs[|segs| - 1 := seg] == init + [seg];
  }

  lemma SegsInside(p: Part, s: nat, i: nat)
    requires WellFormedPart(p, s) && i < |p.segs|
    ensures p.segs[i].base + p.segs[i].len <= |p.history| && p.segs[i].len <= s
  {
    assert i < |p.segs| - 1 ==> p.segs[i].base + p.segs[i].len <= Last(p).base;
  }

  lemma RollWellFormed(p: Part, s: nat)
    requires WellFormedPart(p, s) && NeedsRoll(p, s)
    ensures WellFormedPart(Do(p, Roll), s)
  {
    var q, n := Do(p, Roll), |p.segs|;
    ModUnique(0, 0, 0, s);
    assert q.segs[n] == Seg(|p.history|, 0);
    forall i, j | 0 <= i < j < |q.segs|
      ensures && q.segs[i].len == s
              && q.segs[i].base + s <= q.segs[j].base
              && (j == i + 1 ==> q.segs[i].base + s == q.segs[j].base)
    {
      assert q.segs[i] == p.segs[i];
      if j < n {
        assert q.segs[j] == p.segs[j];
      } else if i < n - 1 {
        assert p.segs[i].base + s <= p.segs[n - 1].base;
      }
    }
  }

  lemma NextIsNewBase(p: Part, s: nat)
    requires WellFormedPart(p, s) && NeedsRoll(p, s)
    ensures |p.history| !in Bases(p.segs)
  {
    forall i | 0 <= i < |p.segs|
      ensures p.segs[i].base < |p.history|
    {
      assert i < |p.segs| - 1 ==> p.segs[i].base + s <= Last(p).base;
    }
  }

  lemma PutWellFormed(p: Part, r: Record, s: nat)
    requires WellFormedPart(p, s) && Allowed(p, Put(r), s)
    ensures WellFormedPart(Do(p, Put(r)), s)
  {
    var q, n := Do(p, Put(r)), |p.segs|;
    assert forall i :: 0 <= i < n - 1 ==> q.segs[i] == p.segs[i];
    assert q.segs[n - 1] == Seg(Last(p).base, Last(p).len + 1);
    assert forall i :: 0 <= i < |p.history| ==> q.history[i] == p.history[i];
  }

  lemma DropWellFormed(p: Part, s: nat)
    requires WellFormedPart(p, s) && |p.segs| > 1
    ensures WellFormedPart(Do(p, Drop), s)
  {
    var q := Do(p, Drop);
    assert forall i :: 0 <= i < |q.segs| ==> q.segs[i] == p.segs[i + 1];
    assert p.segs[0].base + s == p.segs[1].base;
    ModStep(p.segs[0].base, s);
  }

  // ---- Each step keeps the directory in agreement ---------------------------------------------

  /** A segment whose file was left alone still matches after the history has grown. */
  lemma FrameFile(files: Files, p: Part, i: nat, files': Files, q: Part, j: nat)
    requires i < |p.segs| && FileMatches(files, p, i)
    requires j < |q.segs| && q.segs[j] == p.segs[i] && p.history <= q.history
    requires q.segs[j].base in files' && files'[q.segs[j].base] == files[q.segs[j].base]
    ensures FileMatches(files', q, j)
  {
    hide Scan;
    var g := p.segs[i];
    assert q.history[g.base..g.base + g.len] == p.history[g.base..g.base + g.len];
  }

  lemma RollKeeps(files: Files, p: Part, s: nat)
    requires WellFormedPart(p, s) && NeedsRoll(p, s) && Holds(files, p)
    ensures Holds(Apply(files, OpOf(p, Roll)), Do(p, Roll))
    ensures |p.history| !in files
  {
    hide FileMatches;
    var q, files' := Do(p, Roll), Apply(files, OpOf(p, Roll));
    NextIsNewBase(p, s);
    BasesSnoc(p.segs, Seg(|p.history|, 0));
    ScanEmpty();
    forall i | 0 <= i < |q.segs|
      ensures FileMatches(files', q, i)
    {
      if i < |p.segs| {
        InBases(p.segs, i);
        FrameFile(files, p, i, files', q, i);
      } else {
        FileOfNewSegment(files', q, i);
      }
    }
  }

  lemma InBases(segs: seq<Seg>, i: nat)
    requires i < |segs|
    ensures segs[i].base in Bases(segs)
  {
  }

  lemma FileOfNewSegment(files: Files, p: Part, i: nat)
    requires i < |p.segs| && p.segs[i] == Seg(|p.history|, 0)
    requires |p.history| in files && files[|p.history|] == []
    ensures FileMatches(files, p, i)
  {
    ScanEmpty();
  }

  lemma ScanEmpty()
    ensures Clean([]) && Scan([]).records == []
  {
  }

  lemma PutKeeps(files: Files, p: Part, r: Record, s: nat)
    requires WellFormedPart(p, s) && Allowed(p, Put(r), s) && Holds(files, p)
    ensures Holds(Apply(files, OpOf(p, Put(r))), Do(p, Put(r)))
  {
    hide FileMatches, Encode, Scan;
    var q, files', n := Do(p, Put(r)), Apply(files, OpOf(p, Put(r))), |p.segs|;
    var b := Last(p).base;
    InBases(p.segs, n - 1);
    ScanWhole(files[b], r);
    BasesGrowLast(p.segs, Seg(b, Last(p).len + 1));
    forall i | 0 <= i < n
      ensures FileMatches(files', q, i)
    {
      if i < n - 1 {
        InBases(p.segs, i);
        assert p.segs[i].base + s <= p.segs[n - 1].base;
        FrameFile(files, p, i, files', q, i);
      } else {
        FileOfGrownSegment(files, p, r, files', q);
      }
    }
  }

  lemma FileOfGrownSegment(files: Files, p: Part, r: Record, files': Files, q: Part)
    requires p.segs != [] && FileMatches(files, p, |p.segs| - 1) && Clean(files[Last(p).base])
    requires Last(p).base + Last(p).len == |p.history|
    requires Encodable(r) && q == Do(p, Put(r)) && files' == files[Last(p).base := files[Last(p).base] + Encode(r)]
    ensures FileMatches(files', q, |q.segs| - 1)
  {
    hide Encode, Scan;
    var b := Last(p).base;
    ScanWhole(files[b], r);
    assert q.history[b..|q.history|] == p.history[b..|p.history|] + [r];
  }

  lemma HeadIsLowest(p: Part, s: nat)
    requires WellFormedPart(p, s)
    ensures forall i :: 0 < i < |p.segs| ==> p.segs[0].base < p.segs[i].base
  {
  }

  lemma DropKeeps(files: Files, p: Part, s: nat)
    requires WellFormedPart(p, s) && |p.segs| > 1 && Holds(files, p)
    ensures Holds(Apply(files, OpOf(p, Drop)), Do(p, Drop))
  {
    hide FileMatches, WellFormedPart;
    var q, files' := Do(p, Drop), Apply(files, OpOf(p, Drop));
    HeadIsLowest(p, s);
    BasesTail(p.segs);
    forall j | 0 <= j < |q.segs|
      ensures FileMatches(files', q, j)
    {
      InBases(p.segs, j + 1);
      FrameFile(files, p, j + 1, files', q, j);
    }
  }

  lemma StepKeeps(files: Files, p: Part, step: Step, s: nat)
    requires WellFormedPart(p, s) && Allowed(p, step, s) && Holds(files, p)
    ensures WellFormedPart(Do(p, step), s)
    ensures Holds(Apply(files, OpOf(p, step)), Do(p, step))
  {
    match step
    case Roll =>
      RollWellFormed(p, s);
      RollKeeps(files, p, s);
    case Put(r) =>
      PutWellFormed(p, r, s);
      PutKeeps(files, p, r, s);
    case Drop =>
      DropWellFormed(p, s);
      DropKeeps(files, p, s);
  }
}
