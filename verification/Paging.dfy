/** Reading a log page by page, each fetch starting at the previous one's `next_offset`. */
module Paging {
  import opened Prelude
  import opened Codec
  import opened Logs

  function Sum(sizes: seq<nat>): nat {
    if sizes == [] then 0 else sizes[0] + Sum(sizes[1..])
  }

  /** All pages in a row. */
  function Pages(log: Log, from: nat, sizes: seq<nat>): seq<Record>
    requires log.start <= |log.history|
    decreases |sizes|
  {
    if sizes == [] then [] else
      var page := Fetch(log, from, sizes[0]);
      page.records + Pages(log, page.nextOffset, sizes[1..])
  }

  /** Where the last page leaves the reader. */
  function Tail(log: Log, from: nat, sizes: seq<nat>): nat
    requires log.start <= |log.history|
    decreases |sizes|
  {
    if sizes == [] then Max(from, log.start) else Tail(log, Fetch(log, from, sizes[0]).nextOffset, sizes[1..])
  }

  /** Any sequence of page sizes reads what one fetch of their total reads, and ends where it ends. */
  lemma {:induction false} PagingIsOneRead(log: Log, from: nat, sizes: seq<nat>)
    requires log.start <= |log.history|
    ensures Pages(log, from, sizes) == Fetch(log, from, Sum(sizes)).records
    ensures Tail(log, from, sizes) == Fetch(log, from, Sum(sizes)).nextOffset
    decreases |sizes|
  {
    if sizes != [] {
      var page := Fetch(log, from, sizes[0]);
      PagingIsOneRead(log, page.nextOffset, sizes[1..]);
      FetchInTwo(log, from, sizes[0], Sum(sizes[1..]));
    }
  }

  lemma FetchInTwo(log: Log, from: nat, a: nat, b: nat)
    requires log.start <= |log.history|
    ensures var page := Fetch(log, from, a);
            var rest := Fetch(log, page.nextOffset, b);
            var whole := Fetch(log, from, a + b);
            page.records + rest.records == whole.records && rest.nextOffset == whole.nextOffset
  {
  }

  /** Positive pages, enough of them, yield the retained log from the reader's position once, in order. */
  lemma PagesCoverTheLog(log: Log, from: nat, sizes: seq<nat>)
    requires log.start <= |log.history|
    requires forall i :: 0 <= i < |sizes| ==> sizes[i] > 0
    requires |sizes| + Max(from, log.start) >= |log.history|
    ensures var first := Max(from, log.start);
            Pages(log, from, sizes) == Window(log.history, first, |log.history|)
  {
    PagingIsOneRead(log, from, sizes);
    SumAtLeastCount(sizes);
  }

  lemma {:induction false} SumAtLeastCount(sizes: seq<nat>)
    requires forall i :: 0 <= i < |sizes| ==> sizes[i] > 0
    ensures Sum(sizes) >= |sizes|
  {
    if sizes != [] {
      SumAtLeastCount(sizes[1..]);
    }
  }
}
