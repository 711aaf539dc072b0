/** Fixed-width little-endian integers, as Rust's `to_le_bytes` and `from_le_bytes`. */
module Bytes {

  const TWO_32: nat := 0x1_0000_0000
  const TWO_63: nat := 0x8000_0000_0000_0000
  const TWO_64: nat := 0x1_0000_0000_0000_0000

  type Byte = b: int | 0 <= b < 256
  type U64 = n: int | 0 <= n < 0x1_0000_0000_0000_0000

  function Pow256(width: nat): (p: nat)
    ensures p >= 1
  {
    if width == 0 then 1 else 256 * Pow256(width - 1)
  }

  lemma Pow256Widths()
    ensures Pow256(4) == TWO_32 && Pow256(8) == TWO_64
  {
  }

  /** The low `width` bytes of `n`, least significant first. */
  function LeBytes(n: nat, width: nat): (s: seq<Byte>)
    ensures |s| == width
    decreases n, width
  {
    if width == 0 then [] else [n % 256] + LeBytes(n / 256, width - 1)
  }

  /** The integer held little-endian in `data[p..end]`. */
  function LeValue(data: seq<Byte>, p: nat, end: nat): nat
    requires p <= end <= |data|
    decreases end - p
  {
    if p == end then 0 else data[p] + 256 * LeValue(data, p + 1, end)
  }

  lemma {:induction false} LeValueBound(data: seq<Byte>, p: nat, end: nat)
    requires p <= end <= |data|
    ensures LeValue(data, p, end) < Pow256(end - p)
    decreases end - p
  {
    if p < end {
      LeValueBound(data, p + 1, end);
    }
  }

  lemma {:induction false} LeValueOfLeBytes(pre: seq<Byte>, n: nat, width: nat, post: seq<Byte>)
    requires n < Pow256(width)
    ensures LeValue(pre + LeBytes(n, width) + post, |pre|, |pre| + width) == n
    decreases width
  {
    if width > 0 {
      LeValueOfLeBytes(pre + [n % 256], n / 256, width - 1, post);
      assert pre + LeBytes(n, width) + post == (pre + [n % 256]) + LeBytes(n / 256, width - 1) + post;
    }
  }

  /** `data` from `p` and `data'` from `p'` start with the same `n` bytes. */
  ghost predicate SameSpan(data: seq<Byte>, p: nat, data': seq<Byte>, p': nat, n: nat) {
    && p + n <= |data|
    && p' + n <= |data'|
    && forall j :: p <= j < p + n ==> data[j] == data'[j - p + p']
  }

  lemma {:induction false} LeValueSpan(data: seq<Byte>, p: nat, data': seq<Byte>, p': nat, n: nat)
    requires SameSpan(data, p, data', p', n)
    ensures LeValue(data, p, p + n) == LeValue(data', p', p' + n)
    decreases n
  {
    if n > 0 {
      LeValueSpan(data, p + 1, data', p' + 1, n - 1);
    }
  }
}
