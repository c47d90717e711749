/**
  Base64url without padding (section 5 of RFC 4648) as the runtime's Buffer writes and reads it: writing
  uses the URL alphabet only, reading also takes the two letters of the plain alphabet, skips every other
  character and drops an incomplete last byte.
 */
module Base64Url {
  import opened Basics
  import opened Results
  import opened Utf8

  type Sextet = d: int | 0 <= d < 64

  function Letter(d: Sextet): Unit {
    if d < 26 then 'A' as int + d
    else if d < 52 then 'a' as int + (d - 26)
    else if d < 62 then '0' as int + (d - 52)
    else if d == 62 then '-' as int
    else '_' as int
  }

  function Value(u: Unit): Option<Sextet> {
    if 'A' as int <= u <= 'Z' as int then Some(u - 'A' as int)
    else if 'a' as int <= u <= 'z' as int then Some(u - 'a' as int + 26)
    else if '0' as int <= u <= '9' as int then Some(u - '0' as int + 52)
    else if u == '-' as int || u == '+' as int then Some(62)
    else if u == '_' as int || u == '/' as int then Some(63)
    else None
  }

  // ---------------------------------------------------------------- bytes and six-bit digits

  function Digit0(a: Byte): Sextet { a / 4 }

  function Digit1(a: Byte, b: Byte): Sextet { a % 4 * 16 + b / 16 }

  function Digit2(b: Byte, c: Byte): Sextet { b % 16 * 4 + c / 64 }

  function Digit3(c: Byte): Sextet { c % 64 }

  function Byte0(p: Sextet, q: Sextet): Byte {
    var high: int := p;
    high * 4 + q / 16
  }

  function Byte1(q: Sextet, r: Sextet): Byte {
    var high: int := q % 16;
    high * 16 + r / 4
  }

  function Byte2(r: Sextet, s: Sextet): Byte {
    var high: int := r % 4;
    high * 64 + s
  }

  /** Three bytes become four digits; one or two left over become two or three. */
  function Digits(b: Bytes): (d: seq<Sextet>)
    ensures 4 * |b| <= 3 * |d| <= 4 * |b| + 2
    decreases |b|
  {
    if b == [] then []
    else if |b| == 1 then [Digit0(b[0]), Digit1(b[0], 0)]
    else if |b| == 2 then [Digit0(b[0]), Digit1(b[0], b[1]), Digit2(b[1], 0)]
    else [Digit0(b[0]), Digit1(b[0], b[1]), Digit2(b[1], b[2]), Digit3(b[2])] + Digits(b[3..])
  }

  function Packed(d: seq<Sextet>): Bytes
    decreases |d|
  {
    if |d| < 2 then []
    else if |d| == 2 then [Byte0(d[0], d[1])]
    else if |d| == 3 then [Byte0(d[0], d[1]), Byte1(d[1], d[2])]
    else [Byte0(d[0], d[1]), Byte1(d[1], d[2]), Byte2(d[2], d[3])] + Packed(d[4..])
  }

  lemma BytesFromDigits(a: Byte, b: Byte, c: Byte)
    ensures Byte0(Digit0(a), Digit1(a, b)) == a
    ensures Byte1(Digit1(a, b), Digit2(b, c)) == b
    ensures Byte2(Digit2(b, c), Digit3(c)) == c
  {
  }

  lemma DigitsFromBytes(p: Sextet, q: Sextet, r: Sextet, s: Sextet)
    ensures Digit0(Byte0(p, q)) == p
    ensures Digit1(Byte0(p, q), Byte1(q, r)) == q
    ensures Digit2(Byte1(q, r), Byte2(r, s)) == r
    ensures Digit3(Byte2(r, s)) == s
    ensures q % 16 == 0 ==> Digit1(Byte0(p, q), 0) == q
    ensures r % 4 == 0 ==> Digit2(Byte1(q, r), 0) == r
  {
  }

  lemma PackedGroup(p: Sextet, q: Sextet, r: Sextet, s: Sextet, rest: seq<Sextet>)
    ensures Packed([p, q, r, s] + rest) == [Byte0(p, q), Byte1(q, r), Byte2(r, s)] + Packed(rest)
  {
    assert ([p, q, r, s] + rest)[4..] == rest;
  }

  lemma DigitsGroup(a: Byte, b: Byte, c: Byte, rest: Bytes)
    ensures Digits([a, b, c] + rest) == [Digit0(a), Digit1(a, b), Digit2(b, c), Digit3(c)] + Digits(rest)
  {
    assert ([a, b, c] + rest)[3..] == rest;
  }

  lemma {:induction false} PackingUndoesDigits(b: Bytes)
    ensures Packed(Digits(b)) == b
    decreases |b|
  {
    if |b| > 2 {
      PackingUndoesDigits(b[3..]);
      BytesFromDigits(b[0], b[1], b[2]);
      PackedGroup(Digit0(b[0]), Digit1(b[0], b[1]), Digit2(b[1], b[2]), Digit3(b[2]), Digits(b[3..]));
      assert b == [b[0], b[1], b[2]] + b[3..];
    } else if |b| == 2 {
      TwoBytes(b[0], b[1]);
      assert b == [b[0], b[1]];
    } else if |b| == 1 {
      OneByte(b[0]);
      assert b == [b[0]];
    }
  }

  lemma OneByte(a: Byte)
    ensures Packed(Digits([a])) == [a]
  {
    var p, q := Digit0(a), Digit1(a, 0);
    assert Digits([a]) == [p, q];
    assert Packed([p, q]) == [Byte0(p, q)];
    assert Byte0(p, q) == a;
  }

  lemma TwoBytes(a: Byte, b: Byte)
    ensures Packed(Digits([a, b])) == [a, b]
  {
    BytesFromDigits(a, b, 0);
    assert Digits([a, b]) == [Digit0(a), Digit1(a, b), Digit2(b, 0)];
  }

  // ---------------------------------------------------------------- digits and letters

  function Letters(d: seq<Sextet>): (t: Text)
    ensures |t| == |d|
  {
    seq(|d|, i requires 0 <= i < |d| => Letter(d[i]))
  }

  /** The digits of the characters that have one. */
  function Values(t: Text): (d: seq<Sextet>)
    ensures |d| <= |t|
    decreases |t|
  {
    if t == [] then []
    else if Value(t[0]).Some? then [Value(t[0]).value] + Values(t[1..])
    else Values(t[1..])
  }

  lemma {:induction false} ReadingUndoesLetters(d: seq<Sextet>)
    ensures Values(Letters(d)) == d
    decreases |d|
  {
    if d != [] {
      assert Letters(d)[1..] == Letters(d[1..]);
      ReadingUndoesLetters(d[1..]);
      assert Value(Letter(d[0])) == Some(d[0]);
    }
  }

  // ---------------------------------------------------------------- the codec

  function Written(b: Bytes): Text {
    Letters(Digits(b))
  }

  function Read(t: Text): Bytes {
    Packed(Values(t))
  }

  predicate UrlLetter(u: Unit) {
    || 'A' as int <= u <= 'Z' as int
    || 'a' as int <= u <= 'z' as int
    || '0' as int <= u <= '9' as int
    || u == '-' as int
    || u == '_' as int
  }

  /** Reading undoes writing, and what is written has four letters for three bytes, all of them URL-safe. */
  lemma ReadUndoesWritten(b: Bytes)
    ensures Read(Written(b)) == b
    ensures |Written(b)| == (4 * |b| + 2) / 3
    ensures forall i | 0 <= i < |Written(b)| :: UrlLetter(Written(b)[i])
    ensures Ascii(Written(b))
  {
    ReadingUndoesLetters(Digits(b));
    PackingUndoesDigits(b);
  }

  // ---------------------------------------------------------------- canonical text

  /** The text a writer produces: URL letters only, no impossible length, and no stray bits at the end. */
  predicate Canonical(t: Text) {
    && (forall i | 0 <= i < |t| :: UrlLetter(t[i]))
    && |t| % 4 != 1
    && (|t| % 4 == 2 ==> Value(t[|t| - 1]).value % 16 == 0)
    && (|t| % 4 == 3 ==> Value(t[|t| - 1]).value % 4 == 0)
  }

  lemma {:induction false} UrlLettersAreLetters(t: Text)
    requires forall i | 0 <= i < |t| :: UrlLetter(t[i])
    ensures |Values(t)| == |t|
    ensures forall i | 0 <= i < |t| :: Value(t[i]) == Some(Values(t)[i])
    ensures Letters(Values(t)) == t
    decreases |t|
  {
    if t != [] {
      forall i | 0 <= i < |t| - 1 ensures UrlLetter(t[1..][i]) {
        assert t[1..][i] == t[i + 1];
      }
      UrlLettersAreLetters(t[1..]);
      assert UrlLetter(t[0]);
      assert Letter(Value(t[0]).value) == t[0];
      assert forall i | 0 < i < |t| :: t[i] == t[1..][i - 1];
      assert forall i | 0 < i < |t| :: Values(t)[i] == Values(t[1..])[i - 1];
    }
  }

  predicate NoStrayBits(d: seq<Sextet>) {
    && |d| % 4 != 1
    && (|d| % 4 == 2 ==> d[|d| - 1] % 16 == 0)
    && (|d| % 4 == 3 ==> d[|d| - 1] % 4 == 0)
  }

  lemma {:induction false} DigitsUndoPacking(d: seq<Sextet>)
    requires NoStrayBits(d)
    ensures Digits(Packed(d)) == d
    decreases |d|
  {
    if |d| >= 4 {
      DigitsUndoPacking(d[4..]);
      DigitsFromBytes(d[0], d[1], d[2], d[3]);
      DigitsGroup(Byte0(d[0], d[1]), Byte1(d[1], d[2]), Byte2(d[2], d[3]), Packed(d[4..]));
      assert d == [d[0], d[1], d[2], d[3]] + d[4..];
    } else {
      ShortDigits(d);
    }
  }

  lemma TwoDigits(p: Sextet, q: Sextet)
    requires q % 16 == 0
    ensures Digits(Packed([p, q])) == [p, q]
  {
    var a := Byte0(p, q);
    assert Packed([p, q]) == [a];
    assert Digits([a]) == [Digit0(a), Digit1(a, 0)];
    assert Digit0(a) == p && Digit1(a, 0) == q;
  }

  lemma ThreeDigits(p: Sextet, q: Sextet, r: Sextet)
    requires r % 4 == 0
    ensures Digits(Packed([p, q, r])) == [p, q, r]
  {
    var a, b := Byte0(p, q), Byte1(q, r);
    assert Packed([p, q, r]) == [a, b];
    assert Digits([a, b]) == [Digit0(a), Digit1(a, b), Digit2(b, 0)];
    assert Digit0(a) == p && Digit1(a, b) == q && Digit2(b, 0) == r;
  }

  lemma ShortDigits(d: seq<Sextet>)
    requires NoStrayBits(d) && |d| <= 3
    ensures Digits(Packed(d)) == d
  {
    if |d| == 2 {
      TwoDigits(d[0], d[1]);
      assert d == [d[0], d[1]];
    } else if |d| == 3 {
      ThreeDigits(d[0], d[1], d[2]);
      assert d == [d[0], d[1], d[2]];
    }
  }

  /** The check `write(read(t)) == t` accepts exactly the canonical texts. */
  lemma RewritesToItselfExactlyWhenCanonical(t: Text)
    ensures Written(Read(t)) == t <==> Canonical(t)
  {
    if Canonical(t) {
      UrlLettersAreLetters(t);
      DigitsUndoPacking(Values(t));
    }
    if Written(Read(t)) == t {
      WrittenIsCanonical(Read(t));
    }
  }

  lemma {:induction false} LastDigit(b: Bytes)
    ensures NoStrayBits(Digits(b))
    decreases |b|
  {
    if |b| > 2 {
      LastDigit(b[3..]);
      GroupBeforeDigits(
        [Digit0(b[0]), Digit1(b[0], b[1]), Digit2(b[1], b[2]), Digit3(b[2])], Digits(b[3..]));
    }
  }

  /** A whole group in front changes neither the count modulo four nor the last digit. */
  lemma GroupBeforeDigits(group: seq<Sextet>, rest: seq<Sextet>)
    requires |group| == 4 && NoStrayBits(rest)
    ensures NoStrayBits(group + rest)
  {
    var d := group + rest;
    assert |d| % 4 == |rest| % 4;
    if rest != [] {
      assert d[|d| - 1] == rest[|rest| - 1];
    }
  }

  lemma WrittenIsCanonical(b: Bytes)
    ensures Canonical(Written(b))
  {
    ReadUndoesWritten(b);
    LastDigit(b);
    var d := Digits(b);
    assert forall i | 0 <= i < |d| :: Value(Letter(d[i])) == Some(d[i]);
  }

  // ---------------------------------------------------------------- the alphabet and the bits

  /** The URL and filename safe alphabet, table 2 of section 5 of RFC 4648: `A`-`Z`, `a`-`z`, `0`-`9`, `-`, `_`. */
  predicate InTableOrder(d: Sextet) {
    && (Letter(0), Letter(25), Letter(26), Letter(51)) == ('A' as int, 'Z' as int, 'a' as int, 'z' as int)
    && (Letter(52), Letter(61), Letter(62), Letter(63)) == ('0' as int, '9' as int, '-' as int, '_' as int)
    && (d < 61 && d != 25 && d != 51 ==> Letter(d + 1) == Letter(d) + 1)
  }

  /** The number written with four six-bit digits, and with three bytes. */
  function FourDigits(p: int, q: int, r: int, s: int): int {
    0x40000 * p + 0x1000 * q + 0x40 * r + s
  }

  function ThreeBytes(a: int, b: int, c: int): int {
    0x10000 * a + 0x100 * b + c
  }

  /** Four digits hold the 24 bits of three bytes in order; a last one or two bytes are followed by zero bits. */
  predicate SameBits(b: Bytes, d: seq<Sextet>, k: nat) {
    var i, j := 3 * k, 4 * k;
    && (i + 2 < |b| ==>
          j + 3 < |d| && FourDigits(d[j], d[j + 1], d[j + 2], d[j + 3]) == ThreeBytes(b[i], b[i + 1], b[i + 2]))
    && (i + 2 == |b| ==> j + 3 == |d| && FourDigits(d[j], d[j + 1], d[j + 2], 0) == ThreeBytes(b[i], b[i + 1], 0))
    && (i + 1 == |b| ==> j + 2 == |d| && FourDigits(d[j], d[j + 1], 0, 0) == ThreeBytes(b[i], 0, 0))
    && (i == |b| ==> j == |d|)
  }

  lemma {:induction false} DigitsKeepTheBits(b: Bytes, k: nat)
    requires 3 * k <= |b|
    ensures SameBits(b, Digits(b), k)
    decreases k
  {
    hide Digit0, Digit1, Digit2, Digit3, FourDigits, ThreeBytes;
    if k > 0 {
      hide SameBits;
      DigitsKeepTheBits(b[3..], k - 1);
      var group := [Digit0(b[0]), Digit1(b[0], b[1]), Digit2(b[1], b[2]), Digit3(b[2])];
      assert Digits(b) == group + Digits(b[3..]);
      ShiftedBits(b, Digits(b[3..]), group, k);
    } else if |b| > 2 {
      GroupBits(b[0], b[1], b[2]);
    } else if |b| > 0 {
      GroupBits(b[0], if |b| == 2 then b[1] else 0, 0);
    }
  }

  lemma ShiftedBits(b: Bytes, rest: seq<Sextet>, group: seq<Sextet>, k: nat)
    requires k > 0 && 3 <= |b| && |group| == 4 && SameBits(b[3..], rest, k - 1)
    ensures SameBits(b, group + rest, k)
  {
    hide FourDigits, ThreeBytes;
    var d, tail := group + rest, b[3..];
    var i, j := 3 * k - 3, 4 * k - 4;
    assert forall n | j <= n < |rest| :: d[n + 4] == rest[n];
    assert forall n | i <= n < |tail| :: b[n + 3] == tail[n];
  }

  lemma GroupBits(a: Byte, b: Byte, c: Byte)
    ensures FourDigits(Digit0(a), Digit1(a, b), Digit2(b, c), Digit3(c)) == ThreeBytes(a, b, c)
    ensures c == 0 ==> Digit3(c) == 0
    ensures b == 0 && c == 0 ==> Digit2(b, c) == 0
  {
    hide FourDigits, ThreeBytes;
    Divides(a, 4);
    Divides(b, 16);
    Divides(c, 64);
    LinearBits(a / 4, a % 4, b / 16, b % 16, c / 64, c % 64);
  }

  lemma Divides(x: nat, n: nat)
    requires n > 0
    ensures x == n * (x / n) + x % n
  {
  }

  lemma LinearBits(a0: int, a1: int, b0: int, b1: int, c0: int, c1: int)
    ensures FourDigits(a0, a1 * 16 + b0, b1 * 4 + c0, c1) == ThreeBytes(4 * a0 + a1, 16 * b0 + b1, 64 * c0 + c1)
  {
  }

  /** The text is what section 5 of RFC 4648 prescribes: letters of its table that hold the bits in order. */
  lemma WrittenAsPrescribed(b: Bytes, k: nat, d: Sextet)
    requires 3 * k <= |b|
    ensures |Written(b)| == |Digits(b)| && forall i | 0 <= i < |Written(b)| :: Written(b)[i] == Letter(Digits(b)[i])
    ensures SameBits(b, Digits(b), k)
    ensures InTableOrder(d)
  {
    DigitsKeepTheBits(b, k);
  }

  /** The letters of a text, with those of the plain alphabet replaced by those of the URL alphabet. */
  function Cleaned(t: Text): (r: Text)
    ensures forall i | 0 <= i < |r| :: UrlLetter(r[i])
    decreases |t|
  {
    if t == [] then []
    else
      var u := if t[0] == '+' as int then '-' as int else if t[0] == '/' as int then '_' as int else t[0];
      (if UrlLetter(u) then [u] else []) + Cleaned(t[1..])
  }

  /** The reader takes both alphabets and skips every other character: it reads exactly the cleaned text. */
  lemma {:induction false} ReaderTakesBothAlphabets(t: Text)
    ensures Values(Cleaned(t)) == Values(t) && |Values(t)| == |Cleaned(t)| && Read(Cleaned(t)) == Read(t)
    decreases |t|
  {
    UrlLettersAreLetters(Cleaned(t));
    if t != [] {
      ReaderTakesBothAlphabets(t[1..]);
      var rest := Cleaned(t[1..]);
      if Cleaned(t) != rest {
        assert Cleaned(t)[1..] == rest;
      }
    }
  }
}
