/** One partition directory: base offset to the bytes of `<base>.log`, and the writes made to it. */
module Disks {
  import opened Bytes

  type Files = map<nat, seq<Byte>>

  datatype DiskOp =
    | CreateFile(base: nat)
    | WriteFile(base: nat, bytes: seq<Byte>)
    | TruncateFile(base: nat, len: nat)
    | DeleteFile(base: nat)

  /** Opening with `create` and `append` keeps what an existing file holds. */
  function Apply(files: Files, op: DiskOp): Files {
    match op
    case CreateFile(b) => if b in files then files else files[b := []]
    case WriteFile(b, bytes) => if b in files then files[b := files[b] + bytes] else files
    case TruncateFile(b, len) => if b in files && len <= |files[b]| then files[b := files[b][..len]] else files
    case DeleteFile(b) => files - {b}
  }

  function ApplyAll(files: Files, ops: seq<DiskOp>): Files {
    if ops == [] then files else Apply(ApplyAll(files, ops[..|ops| - 1]), ops[|ops| - 1])
  }

  lemma {:induction false} ApplyAllConcat(files: Files, a: seq<DiskOp>, b: seq<DiskOp>)
    ensures ApplyAll(files, a + b) == ApplyAll(ApplyAll(files, a), b)
  {
    if b == [] {
      assert a + b == a;
    } else {
      ApplyAllConcat(files, a, b[..|b| - 1]);
      assert (a + b)[..|a + b| - 1] == a + b[..|b| - 1];
    }
  }

  class Disk {
    var files: Files
    /** Every operation so far, in order; a crash happens between or inside two of them. */
    ghost var journal: seq<DiskOp>

    constructor (files: Files)
      ensures this.files == files && journal == []
    {
      this.files := files;
      journal := [];
    }

    method Perform(op: DiskOp)
      modifies this
      ensures files == Apply(old(files), op)
      ensures journal == old(journal) + [op]
    {
      files := Apply(files, op);
      journal := journal + [op];
    }
  }
}
