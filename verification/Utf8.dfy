/** UTF-8 as Rust's `String` holds it and as `String::from_utf8_lossy` reads it. */
module Utf8 {
  import opened Bytes

  /** U+FFFD, which takes the place of each malformed stretch. */
  const REPLACEMENT: seq<Byte> := [0xEF, 0xBF, 0xBD]

  predicate Continuation(b: Byte) {
    0x80 <= b <= 0xBF
  }

  /** The second byte of a three-byte character led by `lead`. */
  predicate SecondOfThree(lead: Byte, b: Byte) {
    if lead == 0xE0 then 0xA0 <= b <= 0xBF
    else if lead == 0xED then 0x80 <= b <= 0x9F
    else Continuation(b)
  }

  predicate SecondOfFour(lead: Byte, b: Byte) {
    if lead == 0xF0 then 0x90 <= b <= 0xBF
    else if lead == 0xF4 then 0x80 <= b <= 0x8F
    else Continuation(b)
  }

  /** One character of `len` bytes, or a malformed stretch of `len` bytes. */
  datatype Chunk = Chunk(len: nat, good: bool)

  /** What `s` starts with. */
  function First(s: seq<Byte>): (c: Chunk)
    requires s != []
    ensures 1 <= c.len <= |s| && c.len <= 4 && (!c.good ==> c.len <= 3)
  {
    var lead := s[0];
    if lead < 0x80 then Chunk(1, true)
    else if 0xC2 <= lead <= 0xDF then
      if |s| >= 2 && Continuation(s[1]) then Chunk(2, true) else Chunk(1, false)
    else if 0xE0 <= lead <= 0xEF then
      if |s| < 2 || !SecondOfThree(lead, s[1]) then Chunk(1, false)
      else if |s| < 3 || !Continuation(s[2]) then Chunk(2, false)
      else Chunk(3, true)
    else if 0xF0 <= lead <= 0xF4 then
      if |s| < 2 || !SecondOfFour(lead, s[1]) then Chunk(1, false)
      else if |s| < 3 || !Continuation(s[2]) then Chunk(2, false)
      else if |s| < 4 || !Continuation(s[3]) then Chunk(3, false)
      else Chunk(4, true)
    else Chunk(1, false)
  }

  predicate Valid(s: seq<Byte>) {
    s == [] || (First(s).good && Valid(s[First(s).len..]))
  }

  /** The bytes of a Rust `String`. */
  type Text = s: seq<Byte> | Valid(s)

  /** A character is recognised whatever follows it. */
  lemma FirstStays(s: seq<Byte>, t: seq<Byte>)
    requires s != [] && First(s).good
    ensures First(s + t) == First(s)
  {
  }

  lemma ReplacementFirst(t: seq<Byte>)
    ensures First(REPLACEMENT + t) == Chunk(3, true) && (REPLACEMENT + t)[3..] == t
  {
  }

  lemma ValidPrepend(c: seq<Byte>, t: seq<Byte>)
    requires c != [] && First(c) == Chunk(|c|, true) && Valid(t)
    ensures Valid(c + t)
  {
    FirstStays(c, t);
    assert (c + t)[|c|..] == t;
  }

  /** `from_utf8_lossy`: characters are kept, each malformed stretch becomes U+FFFD. */
  function Lossy(s: seq<Byte>): (t: seq<Byte>)
    ensures Valid(t)
  {
    if s == [] then [] else
      var c := First(s);
      var rest := Lossy(s[c.len..]);
      if c.good then
        FirstAlone(s);
        ValidPrepend(s[..c.len], rest);
        s[..c.len] + rest
      else
        ReplacementFirst([]);
        assert REPLACEMENT + [] == REPLACEMENT;
        ValidPrepend(REPLACEMENT, rest);
        REPLACEMENT + rest
  }

  lemma FirstAlone(s: seq<Byte>)
    requires s != [] && First(s).good
    ensures First(s[..First(s).len]) == First(s)
  {
  }

  /** The conversion changes nothing exactly when there is nothing malformed. */
  lemma {:induction false} LossyIffValid(s: seq<Byte>)
    ensures Lossy(s) == s <==> Valid(s)
  {
    if s != [] {
      var c := First(s);
      LossyIffValid(s[c.len..]);
      assert s == s[..c.len] + s[c.len..];
      if c.good {
        assert (s[..c.len] + Lossy(s[c.len..]))[c.len..] == Lossy(s[c.len..]);
      } else if Lossy(s) == s {
        ReplacementFirst(Lossy(s[c.len..]));
        assert false;
      }
    }
  }

  /** Malformed stretches, by length: one of one byte becomes two longer, one of two bytes one longer. */
  function Growth(s: seq<Byte>): nat {
    if s == [] then 0 else
      var c := First(s);
      (if c.good then 0 else 3 - c.len) + Growth(s[c.len..])
  }

  lemma {:induction false} LossyLength(s: seq<Byte>)
    ensures |Lossy(s)| == |s| + Growth(s)
  {
    if s != [] {
      LossyLength(s[First(s).len..]);
    }
  }
}
