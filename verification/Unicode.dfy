/** Unicode's own definition of UTF-8 (section 3.9 of the standard), and that `Utf8` reads texts as it says. */
module Unicode {
  import opened Bytes
  import opened Utf8

  /** A Unicode scalar value: any code point that is not a surrogate. */
  type Scalar = c: int | 0 <= c < 0xD800 || 0xE000 <= c <= 0x10_FFFF

  /** The well-formed byte sequence of a scalar value. */
  function Char(c: Scalar): (s: seq<Byte>)
    ensures 1 <= |s| <= 4
  {
    if c < 0x80 then [c]
    else if c < 0x800 then [0xC0 + c / 0x40, 0x80 + c % 0x40]
    else if c < 0x1_0000 then [0xE0 + c / 0x1000, 0x80 + c / 0x40 % 0x40, 0x80 + c % 0x40]
    else [0xF0 + c / 0x4_0000, 0x80 + c / 0x1000 % 0x40, 0x80 + c / 0x40 % 0x40, 0x80 + c % 0x40]
  }

  function Text(cs: seq<Scalar>): seq<Byte> {
    if cs == [] then [] else Char(cs[0]) + Text(cs[1..])
  }

  // ---- One character --------------------------------------------------------------------------

  lemma CharIsGood(c: Scalar, t: seq<Byte>)
    ensures First(Char(c) + t) == Chunk(|Char(c)|, true)
  {
    assert First(Char(c)) == Chunk(|Char(c)|, true);
    FirstStays(Char(c), t);
  }

  /** The scalar value of the well-formed character that `s` starts with. */
  function Value(s: seq<Byte>): (c: Scalar)
    requires s != [] && First(s).good
  {
    var a: int := s[0];
    match First(s).len
    case 1 => a
    case 2 =>
      var b: int := s[1];
      (a - 0xC0) * 0x40 + (b - 0x80)
    case 3 =>
      var b: int, d: int := s[1], s[2];
      (a - 0xE0) * 0x1000 + (b - 0x80) * 0x40 + (d - 0x80)
    case _ =>
      var b: int, d: int, e: int := s[1], s[2], s[3];
      (a - 0xF0) * 0x4_0000 + (b - 0x80) * 0x1000 + (d - 0x80) * 0x40 + (e - 0x80)
  }

  lemma TwoDigits(x: nat, y: nat)
    requires y < 0x40
    ensures (x * 0x40 + y) / 0x40 == x && (x * 0x40 + y) % 0x40 == y
  {
  }

  lemma ThreeDigits(x: nat, y: nat, z: nat)
    requires y < 0x40 && z < 0x40
    ensures var c := x * 0x1000 + y * 0x40 + z; c / 0x1000 == x && c / 0x40 % 0x40 == y && c % 0x40 == z
  {
    TwoDigits(x * 0x40 + y, z);
    TwoDigits(x, y);
  }

  lemma FourDigits(w: nat, x: nat, y: nat, z: nat)
    requires x < 0x40 && y < 0x40 && z < 0x40
    ensures var c := w * 0x4_0000 + x * 0x1000 + y * 0x40 + z;
            c / 0x4_0000 == w && c / 0x1000 % 0x40 == x && c / 0x40 % 0x40 == y && c % 0x40 == z
  {
    TwoDigits(w * 0x1000 + x * 0x40 + y, z);
    ThreeDigits(w, x, y);
  }

  lemma GoodIsChar(s: seq<Byte>)
    requires s != [] && First(s).good
    ensures Char(Value(s)) == s[..First(s).len]
  {
    var a: int := s[0];
    match First(s).len
    case 1 =>
    case 2 =>
      var b: int := s[1];
      TwoDigits(a - 0xC0, b - 0x80);
    case 3 =>
      var b: int, d: int := s[1], s[2];
      ThreeDigits(a - 0xE0, b - 0x80, d - 0x80);
    case _ =>
      var b: int, d: int, e: int := s[1], s[2], s[3];
      FourDigits(a - 0xF0, b - 0x80, d - 0x80, e - 0x80);
  }

  /** A text starts with a well-formed character exactly when it starts with some scalar value's bytes. */
  lemma FirstIsCharIff(s: seq<Byte>)
    requires s != []
    ensures First(s).good <==> exists c: Scalar :: Char(c) <= s
    ensures forall c: Scalar :: Char(c) <= s ==> First(s).len == |Char(c)|
  {
    if First(s).good {
      GoodIsChar(s);
      assert Char(Value(s)) <= s;
    }
    forall c: Scalar | Char(c) <= s
      ensures First(s) == Chunk(|Char(c)|, true)
    {
      CharIsGood(c, s[|Char(c)|..]);
      assert s == Char(c) + s[|Char(c)|..];
    }
  }

  // ---- What is malformed ----------------------------------------------------------------------

  /** The bytes could still become a well-formed character. */
  ghost predicate Begins(part: seq<Byte>) {
    exists c: Scalar :: part <= Char(c)
  }

  /**
    The stretch one U+FFFD stands for: `n` bytes that could have become a character until the next one came, or a
    single byte that could not.
   */
  ghost predicate MaximalPart(s: seq<Byte>, n: nat) {
    && 1 <= n <= |s|
    && (n == 1 || Begins(s[..n]))
    && (n < |s| ==> !Begins(s[..n + 1]))
  }

  lemma NotAnyMore(s: seq<Byte>, c: Scalar)
    requires s != [] && !First(s).good && First(s).len < |s|
    ensures !(s[..First(s).len + 1] <= Char(c))
  {
  }

  /** What is replaced is exactly a maximal part, of one byte, or of more that begin a character. */
  lemma BadIsMaximal(s: seq<Byte>)
    requires s != [] && !First(s).good
    ensures MaximalPart(s, First(s).len)
  {
    var n := First(s).len;
    if n == 2 {
      Completes(s[..2] + [0x80] + (if s[0] < 0xF0 then [] else [0x80]), s[..2]);
    } else if n == 3 {
      Completes(s[..3] + [0x80], s[..3]);
    }
    if n < |s| {
      forall c: Scalar
        ensures !(s[..n + 1] <= Char(c))
      {
        NotAnyMore(s, c);
      }
    }
  }

  lemma Completes(s: seq<Byte>, part: seq<Byte>)
    requires s != [] && First(s) == Chunk(|s|, true) && part <= s
    ensures Begins(part)
  {
    GoodIsChar(s);
    assert part <= Char(Value(s));
  }

  /** At most one length is maximal, and none when a character is there. */
  lemma MaximalIsUnique(s: seq<Byte>, a: nat, b: nat)
    requires MaximalPart(s, a) && MaximalPart(s, b)
    ensures a == b
  {
  }

  // ---- Whole texts ----------------------------------------------------------------------------

  /** Well-formed texts are exactly the sequences of scalar values. */
  lemma {:induction false} ValidIff(s: seq<Byte>)
    ensures Valid(s) <==> exists cs: seq<Scalar> :: Text(cs) == s
  {
    if Valid(s) {
      var cs := Scalars(s);
    }
    forall cs: seq<Scalar> | Text(cs) == s
      ensures Valid(s)
    {
      TextIsValid(cs);
    }
  }

  lemma {:induction false} Scalars(s: seq<Byte>) returns (cs: seq<Scalar>)
    requires Valid(s)
    ensures Text(cs) == s
  {
    if s == [] {
      cs := [];
    } else {
      var n := First(s).len;
      GoodIsChar(s);
      var rest := Scalars(s[n..]);
      cs := [Value(s)] + rest;
      assert cs[1..] == rest;
      assert s == s[..n] + s[n..];
    }
  }

  lemma {:induction false} TextIsValid(cs: seq<Scalar>)
    ensures Valid(Text(cs))
  {
    if cs != [] {
      TextIsValid(cs[1..]);
      CharIsGood(cs[0], []);
      assert Char(cs[0]) + [] == Char(cs[0]);
      ValidPrepend(Char(cs[0]), Text(cs[1..]));
    }
  }

  /**
    The lossy conversion: a character is kept, whatever follows it; where there is none, the maximal part that
    cannot become one is replaced.
   */
  lemma LossyStep(s: seq<Byte>)
    requires s != []
    ensures forall c: Scalar :: Char(c) <= s ==> Lossy(s) == Char(c) + Lossy(s[|Char(c)|..])
    ensures (forall c: Scalar :: !(Char(c) <= s)) ==>
              && (exists n: nat :: MaximalPart(s, n))
              && forall n: nat :: MaximalPart(s, n) ==> Lossy(s) == [0xEF, 0xBF, 0xBD] + Lossy(s[n..])
  {
    FirstIsCharIff(s);
    forall c: Scalar | Char(c) <= s
      ensures Lossy(s) == Char(c) + Lossy(s[|Char(c)|..])
    {
      assert s[..|Char(c)|] == Char(c);
    }
    if !First(s).good {
      BadIsMaximal(s);
      forall n: nat | MaximalPart(s, n)
        ensures n == First(s).len
      {
        MaximalIsUnique(s, n, First(s).len);
      }
    }
  }
}
