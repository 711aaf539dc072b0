/** Reading by filtering: the records at or after an offset, and the first few of them. */
module Filtering {
  import opened Prelude
  import opened Codec

  /** Record `i` has offset `base + i`. */
  ghost predicate DenseFrom(rs: seq<Record>, base: nat) {
    forall i :: 0 <= i < |rs| ==> rs[i].offset == base + i
  }

  /** The records at or after `from`, in order. */
  function FilterFrom(rs: seq<Record>, from: nat): seq<Record> {
    if rs == [] then [] else (if rs[0].offset >= from then [rs[0]] else []) + FilterFrom(rs[1..], from)
  }

  function Take(rs: seq<Record>, max: nat): seq<Record> {
    rs[..Min(max, |rs|)]
  }

  lemma {:induction false} FilterKeepsAll(rs: seq<Record>, from: nat)
    requires forall i :: 0 <= i < |rs| ==> rs[i].offset >= from
    ensures FilterFrom(rs, from) == rs
  {
    if rs != [] {
      FilterKeepsAll(rs[1..], from);
    }
  }

  /** On dense records the filter is a suffix. */
  lemma {:induction false} FilterIsSuffix(rs: seq<Record>, first: nat, from: nat)
    requires forall i :: 0 <= i < |rs| ==> rs[i].offset == first + i
    requires first <= from
    ensures FilterFrom(rs, from) == rs[Min(from - first, |rs|)..]
  {
    if first == from {
      FilterKeepsAll(rs, from);
    } else if rs != [] {
      FilterIsSuffix(rs[1..], first + 1, from);
    }
  }

  /**
    Reading records `base`, `base + 1`, ... by position, as an indexed segment does, is filtering them all by
    offset and taking what is wanted.
   */
  lemma SeekIsFilter(rs: seq<Record>, base: nat, from: nat, remaining: nat)
    requires DenseFrom(rs, base)
    ensures var first := Min(Max(from - base, 0), |rs|);
            Take(FilterFrom(rs, from), remaining) == rs[first..first + Min(remaining, |rs| - first)]
  {
    if from < base {
      FilterKeepsAll(rs, from);
    } else {
      FilterIsSuffix(rs, base, from);
    }
  }
}
