/** UTF-8 well-formedness of byte strings, as `std::str::from_utf8` decides it. */
module Utf8 {

  type Byte = b: int | 0 <= b < 256

  type Bytes = seq<Byte>

  const LF: Byte := 10
  const CR: Byte := 13
  const SPACE: Byte := 32
  const COLON: Byte := 58

  predicate IsContinuation(b: Byte) {
    0x80 <= b <= 0xBF
  }

  /** Length of the well-formed character that starts `s`; 0 when there is none. */
  function CharLen(s: Bytes): (n: nat)
    ensures n <= |s|
  {
    if s == [] then 0
    else if s[0] < 0x80 then 1
    else if |s| >= 2 && 0xC2 <= s[0] <= 0xDF && IsContinuation(s[1]) then 2
    else if |s| >= 3 && IsThreeByteHead(s[0], s[1]) && IsContinuation(s[2]) then 3
    else if |s| >= 4 && IsFourByteHead(s[0], s[1]) && IsContinuation(s[2]) && IsContinuation(s[3]) then 4
    else 0
  }

  predicate IsThreeByteHead(a: Byte, b: Byte) {
    || (a == 0xE0 && 0xA0 <= b <= 0xBF)
    || ((0xE1 <= a <= 0xEC || 0xEE <= a <= 0xEF) && IsContinuation(b))
    || (a == 0xED && 0x80 <= b <= 0x9F)
  }

  predicate IsFourByteHead(a: Byte, b: Byte) {
    || (a == 0xF0 && 0x90 <= b <= 0xBF)
    || (0xF1 <= a <= 0xF3 && IsContinuation(b))
    || (a == 0xF4 && 0x80 <= b <= 0x8F)
  }

  predicate IsUtf8(s: Bytes) {
    s == [] || (CharLen(s) > 0 && IsUtf8(s[CharLen(s)..]))
  }

  lemma {:induction false} Utf8Concat(a: Bytes, b: Bytes)
    requires IsUtf8(a) && IsUtf8(b)
    ensures IsUtf8(a + b)
  {
    if a == [] {
      assert a + b == b;
    } else {
      var n := CharLen(a);
      assert CharLen(a + b) == n;
      assert (a + b)[n..] == a[n..] + b;
      Utf8Concat(a[n..], b);
    }
  }

  /** An ASCII byte is always a character of its own, so a string can be cut around it. */
  lemma {:induction false} Utf8CutAtAscii(a: Bytes, c: Byte, b: Bytes)
    requires c < 0x80
    ensures IsUtf8(a + [c] + b) <==> IsUtf8(a) && IsUtf8(b)
  {
    var s := a + [c] + b;
    if a == [] {
      assert s[1..] == b;
    } else {
      var n := CharLen(s);
      assert s[|a|] == c;
      if n > |a| {
        assert false;
      }
      if n > 0 {
        assert CharLen(a) == n;
        assert s[n..] == a[n..] + [c] + b;
        Utf8CutAtAscii(a[n..], c, b);
      } else {
        assert CharLen(a) == 0;
      }
    }
  }

  // ----------------------------------------------------------------- characters

  /** A Unicode scalar value: a code point that is no surrogate. */
  type Scalar = u: int | 0 <= u < 0xD800 || 0xE000 <= u < 0x11_0000

  /** A byte after the first one carries six bits. */
  function Tail(n: nat): (b: Byte)
    ensures IsContinuation(b) && b == 0x80 + n % 64
  {
    var b: int := 0x80 + n % 64;
    b
  }

  function Head(mark: nat, n: nat): (b: Byte)
    requires mark + n < 256
    ensures b == mark + n
  {
    var b: int := mark + n;
    b
  }

  /** The encoding of section 3 of RFC 3629: one byte for ASCII, else a marked head and six bits in every other byte. */
  function Encode(u: Scalar): (s: Bytes)
    ensures 1 <= |s| <= 4
  {
    if u < 0x80 then [Head(0, u)]
    else if u < 0x800 then [Head(0xC0, u / 64), Tail(u)]
    else if u < 0x1_0000 then [Head(0xE0, u / 64 / 64), Tail(u / 64), Tail(u)]
    else [Head(0xF0, u / 64 / 64 / 64), Tail(u / 64 / 64), Tail(u / 64), Tail(u)]
  }

  function EncodeAll(us: seq<Scalar>): Bytes {
    if us == [] then [] else Encode(us[0]) + EncodeAll(us[1..])
  }

  /** Six more bits. */
  function Shift(n: nat, b: Byte): nat
    requires IsContinuation(b)
  {
    n * 64 + (b as int - 0x80)
  }

  lemma ShiftedBack(n: nat, b: Byte)
    requires IsContinuation(b)
    ensures Shift(n, b) / 64 == n && Tail(Shift(n, b)) == b
  {
  }

  lemma ShiftedAgain(n: nat)
    ensures Shift(n / 64, Tail(n)) == n
  {
  }

  /** The code point that a well-formed first character encodes. */
  function CodePoint(s: Bytes): nat
    requires CharLen(s) > 0
  {
    if CharLen(s) == 1 then s[0]
    else if CharLen(s) == 2 then Shift(s[0] as int - 0xC0, s[1])
    else if CharLen(s) == 3 then Shift(Shift(s[0] as int - 0xE0, s[1]), s[2])
    else Shift(Shift(Shift(s[0] as int - 0xF0, s[1]), s[2]), s[3])
  }

  /** No other length of encoding could carry it: it is a scalar value and the shortest form was used. */
  lemma CodePointFits(s: Bytes)
    requires CharLen(s) > 0
    ensures CodePoint(s) < 0xD800 || 0xE000 <= CodePoint(s) < 0x11_0000
    ensures CharLen(s) == if CodePoint(s) < 0x80 then 1 else if CodePoint(s) < 0x800 then 2
                          else if CodePoint(s) < 0x1_0000 then 3 else 4
  {
  }

  function Decode(s: Bytes): (u: Scalar)
    requires CharLen(s) > 0
  {
    CodePointFits(s);
    CodePoint(s)
  }

  lemma DecodedIsEncoded(s: Bytes)
    requires CharLen(s) > 0
    ensures Encode(Decode(s)) == s[..CharLen(s)]
  {
    CodePointFits(s);
    var n := CharLen(s);
    if n == 2 {
      ShiftedBack(s[0] as int - 0xC0, s[1]);
    } else if n == 3 {
      var high := Shift(s[0] as int - 0xE0, s[1]);
      ShiftedBack(s[0] as int - 0xE0, s[1]);
      ShiftedBack(high, s[2]);
    } else if n == 4 {
      var top := Shift(s[0] as int - 0xF0, s[1]);
      var high := Shift(top, s[2]);
      ShiftedBack(s[0] as int - 0xF0, s[1]);
      ShiftedBack(top, s[2]);
      ShiftedBack(high, s[3]);
    }
  }

  lemma HeadsAreLegal(u: Scalar)
    ensures 0x800 <= u < 0x1_0000 ==> IsThreeByteHead(Head(0xE0, u / 64 / 64), Tail(u / 64))
    ensures u >= 0x1_0000 ==> IsFourByteHead(Head(0xF0, u / 64 / 64 / 64), Tail(u / 64 / 64))
  {
    var middle := u / 64;
    if 0x800 <= u < 0x1_0000 {
      var top := middle / 64;
      assert middle == top * 64 + middle % 64;
    } else if u >= 0x1_0000 {
      var upper := middle / 64;
      var top := upper / 64;
      assert upper == top * 64 + upper % 64;
    }
  }

  lemma EncodedIsCharacter(u: Scalar, rest: Bytes)
    ensures CharLen(Encode(u) + rest) == |Encode(u)|
  {
    HeadsAreLegal(u);
    var s := Encode(u) + rest;
    assert forall i :: 0 <= i < |Encode(u)| ==> s[i] == Encode(u)[i];
  }

  /** Different scalar values have different encodings. */
  lemma EncodeIsInjective(u: Scalar, v: Scalar)
    requires Encode(u) == Encode(v)
    ensures u == v
  {
    ShiftedAgain(u);
    ShiftedAgain(v);
    ShiftedAgain(u / 64);
    ShiftedAgain(v / 64);
    ShiftedAgain(u / 64 / 64);
    ShiftedAgain(v / 64 / 64);
  }

  lemma {:induction false} EncodedIsUtf8(us: seq<Scalar>)
    ensures IsUtf8(EncodeAll(us))
  {
    if us != [] {
      var rest := EncodeAll(us[1..]);
      EncodedIsUtf8(us[1..]);
      EncodedIsCharacter(us[0], rest);
      assert (Encode(us[0]) + rest)[|Encode(us[0])|..] == rest;
    }
  }

  lemma {:induction false} Utf8IsEncoded(s: Bytes) returns (us: seq<Scalar>)
    requires IsUtf8(s)
    ensures EncodeAll(us) == s
  {
    if s == [] {
      us := [];
    } else {
      var n := CharLen(s);
      var others := Utf8IsEncoded(s[n..]);
      DecodedIsEncoded(s);
      us := [Decode(s)] + others;
      assert us[1..] == others;
      assert s == s[..n] + s[n..];
    }
  }

  /** A byte string is well-formed exactly if it is the encoding of some scalar values. */
  lemma Utf8IffEncoded(s: Bytes)
    ensures IsUtf8(s) <==> exists us: seq<Scalar> :: EncodeAll(us) == s
  {
    if IsUtf8(s) {
      var us := Utf8IsEncoded(s);
      assert EncodeAll(us) == s;
    }
    if us: seq<Scalar> :| EncodeAll(us) == s {
      EncodedIsUtf8(us);
    }
  }

  /** The characters that Unicode calls white space. */
  predicate IsWhiteSpace(u: int) {
    || 9 <= u <= 13 || u == 32 || u == 0x85 || u == 0xA0 || u == 0x1680
    || 0x2000 <= u <= 0x200A || u == 0x2028 || u == 0x2029 || u == 0x202F || u == 0x205F || u == 0x3000
  }
}
