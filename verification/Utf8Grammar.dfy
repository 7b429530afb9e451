/**
  Byte sequences of RFC 3629: the octet grammar of section 4 and the encoding of section 3.
*/
module Utf8Grammar {
  type Byte = b: int | 0 <= b < 256

  predicate Tail(b: Byte) {
    0x80 <= b <= 0xBF
  }

  /** One `UTF8-char` of section 4 of RFC 3629. */
  predicate IsChar(u: seq<Byte>) {
    match |u|
    case 1 => u[0] <= 0x7F
    case 2 => 0xC2 <= u[0] <= 0xDF && Tail(u[1])
    case 3 =>
      && Tail(u[2])
      && (|| (u[0] == 0xE0 && 0xA0 <= u[1] <= 0xBF)
          || (0xE1 <= u[0] <= 0xEC && Tail(u[1]))
          || (u[0] == 0xED && 0x80 <= u[1] <= 0x9F)
          || (0xEE <= u[0] <= 0xEF && Tail(u[1])))
    case 4 =>
      && Tail(u[2]) && Tail(u[3])
      && (|| (u[0] == 0xF0 && 0x90 <= u[1] <= 0xBF)
          || (0xF1 <= u[0] <= 0xF3 && Tail(u[1]))
          || (u[0] == 0xF4 && 0x80 <= u[1] <= 0x8F))
    case _ => false
  }

  /** Two bytes that would encode a value below 80 hexadecimal; the grammar excludes them. */
  predicate IsOverlongPair(u: seq<Byte>) {
    |u| == 2 && 0xC0 <= u[0] <= 0xC1 && Tail(u[1])
  }

  /** What the validator takes for one character. */
  predicate IsUnit(u: seq<Byte>) {
    IsChar(u) || IsOverlongPair(u)
  }

  function Flatten(units: seq<seq<Byte>>): seq<Byte> {
    if units == [] then [] else units[0] + Flatten(units[1..])
  }

  /** `s` is the units one after the other. */
  ghost predicate Splits(s: seq<Byte>, units: seq<seq<Byte>>) {
    Flatten(units) == s && forall i :: 0 <= i < |units| ==> IsUnit(units[i])
  }

  /** `s` is in the language `UTF8-octets`. */
  ghost predicate IsRfcString(s: seq<Byte>) {
    exists units :: Flatten(units) == s && forall i :: 0 <= i < |units| ==> IsChar(units[i])
  }

  // ----- Section 3 of RFC 3629

  /** A Unicode scalar value: not above 10FFFF, not a surrogate. */
  type Scalar = v: int | 0 <= v <= 0x10FFFF && !(0xD800 <= v <= 0xDFFF)

  /** A tail byte carries the low six bits; the bits above it go to the bytes in front. */
  function Low(v: nat): (b: Byte)
    ensures Tail(b)
  {
    0x80 + v % 0x40
  }

  function High(v: nat): nat {
    v / 0x40
  }

  function Join(high: nat, tail: Byte): (v: nat)
    requires Tail(tail)
    ensures High(v) == high && Low(v) == tail
  {
    high * 0x40 + (tail as int - 0x80)
  }

  lemma HighLow(v: nat)
    ensures v == 0x40 * High(v) + (Low(v) as int - 0x80)
    ensures Join(High(v), Low(v)) == v
  {}

  function Encode(v: Scalar): seq<Byte> {
    var v1 := High(v);
    var v2 := High(v1);
    HighLow(v);
    HighLow(v1);
    HighLow(v2);
    if v <= 0x7F then [v]
    else if v <= 0x7FF then [0xC0 + v1, Low(v)]
    else if v <= 0xFFFF then [0xE0 + v2, Low(v1), Low(v)]
    else [0xF0 + High(v2), Low(v2), Low(v1), Low(v)]
  }

  lemma EncodeIsChar(v: Scalar)
    ensures IsChar(Encode(v))
  {
    var v1, v2 := High(v), High(High(v));
    if v <= 0x7F {
      assert Encode(v) == [v];
    } else if v <= 0x7FF {
      assert 2 <= v1 <= 0x1F;
    } else if v <= 0xFFFF {
      assert 0x40 * v1 <= v < 0x40 * (v1 + 1) && 0x40 * v2 <= v1 < 0x40 * (v2 + 1);
      assert v2 == 0 ==> v1 >= 0x20;
      assert v2 == 0xD ==> v1 < 0x360;
      assert Low(v1) as int == 0x80 + v1 - 0x40 * v2;
    } else {
      assert 0x40 * v1 <= v < 0x40 * (v1 + 1) && 0x40 * v2 <= v1 < 0x40 * (v2 + 1);
      assert 0x10 <= v2 < 0x110;
      assert Low(v2) as int == 0x80 + v2 - 0x40 * High(v2);
    }
  }

  /** The number the payload bits of a character spell. */
  function Payload(u: seq<Byte>): nat
    requires IsChar(u)
  {
    match |u|
    case 1 => u[0]
    case 2 => Join(u[0] as int - 0xC0, u[1])
    case 3 => Join(Join(u[0] as int - 0xE0, u[1]), u[2])
    case _ => Join(Join(Join(u[0] as int - 0xF0, u[1]), u[2]), u[3])
  }

  function Decode(u: seq<Byte>): (v: Scalar)
    requires IsChar(u)
    ensures Encode(v) == u
  {
    Payload(u)
  }

  lemma DecodeEncode(v: Scalar)
    ensures IsChar(Encode(v)) && Decode(Encode(v)) == v
  {
    EncodeIsChar(v);
    HighLow(v);
    HighLow(High(v));
    HighLow(High(High(v)));
  }

  function EncodeAll(vs: seq<Scalar>): seq<Byte> {
    if vs == [] then [] else Encode(vs[0]) + EncodeAll(vs[1..])
  }
}
