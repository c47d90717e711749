/**
  JavaScript text as UTF-16 code units, and its UTF-8 encoding as the runtime computes it: a surrogate
  pair takes four bytes, and a surrogate without its partner is replaced by U+FFFD, which takes three.
 */
module Utf8 {
  import opened Basics

  type Unit = u: int | 0 <= u < 0x1_0000

  type Text = seq<Unit>

  predicate High(u: Unit) {
    0xD800 <= u < 0xDC00
  }

  predicate Low(u: Unit) {
    0xDC00 <= u < 0xE000
  }

  /** Does the text begin with a surrogate pair? */
  predicate Pair(t: Text) {
    |t| >= 2 && High(t[0]) && Low(t[1])
  }

  function EncodePair(high: Unit, low: Unit): (bytes: Bytes)
    requires High(high) && Low(low)
    ensures |bytes| == 4
  {
    var point := 0x1_0000 + (high - 0xD800) * 0x400 + (low - 0xDC00);
    [0xF0 + point / 0x4_0000, 0x80 + point / 0x1000 % 0x40, 0x80 + point / 0x40 % 0x40, 0x80 + point % 0x40]
  }

  function EncodeUnit(u: Unit): (bytes: Bytes)
    ensures 1 <= |bytes| <= 3
    ensures High(u) || Low(u) ==> |bytes| == 3
  {
    if u < 0x80 then [u]
    else if u < 0x800 then [0xC0 + u / 0x40, 0x80 + u % 0x40]
    else if High(u) || Low(u) then [0xEF, 0xBF, 0xBD]
    else [0xE0 + u / 0x1000, 0x80 + u / 0x40 % 0x40, 0x80 + u % 0x40]
  }

  function Encode(t: Text): Bytes
    decreases |t|
  {
    if t == [] then []
    else if Pair(t) then EncodePair(t[0], t[1]) + Encode(t[2..])
    else EncodeUnit(t[0]) + Encode(t[1..])
  }

  function ByteLength(t: Text): nat {
    |Encode(t)|
  }

  /** Joining two texts joins a surrogate pair. */
  predicate JoinsPair(a: Text, b: Text) {
    a != [] && b != [] && High(a[|a| - 1]) && Low(b[0])
  }

  /** The encoded length of a concatenation: exactly two bytes less when it joins a surrogate pair. */
  lemma {:induction false} ByteLengthOfConcat(a: Text, b: Text)
    ensures ByteLength(a + b) == ByteLength(a) + ByteLength(b) - (if JoinsPair(a, b) then 2 else 0)
    decreases |a|
  {
    if a == [] {
      assert a + b == b;
    } else if |a| == 1 {
      assert (a + b)[1..] == b;
      assert Encode(a) == EncodeUnit(a[0]) + Encode(a[1..]);
      if JoinsPair(a, b) {
        assert (a + b)[2..] == b[1..];
        assert !Pair(b);
      }
    } else if Pair(a) {
      assert (a + b)[2..] == a[2..] + b;
      ByteLengthOfConcat(a[2..], b);
    } else {
      assert (a + b)[1..] == a[1..] + b;
      ByteLengthOfConcat(a[1..], b);
    }
  }

  predicate Ascii(t: Text) {
    forall i | 0 <= i < |t| :: t[i] < 0x80
  }

  /** Plain ASCII text is its own encoding. */
  lemma {:induction false} AsciiEncodesToItself(t: Text)
    requires Ascii(t)
    ensures Encode(t) == t
    decreases |t|
  {
    if t != [] {
      AsciiEncodesToItself(t[1..]);
    }
  }
}
