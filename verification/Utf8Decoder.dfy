/**
  Reading UTF-8 back as the runtime does: a well-formed byte sequence yields its scalar value, and the
  longest ill-formed start of one yields a single U+FFFD.
 */
module Utf8Decoder {
  import opened Basics
  import opened Utf8

  const REPLACEMENT: Unit := 0xFFFD

  // ---------------------------------------------------------------- decoding

  /** How many continuation bytes a leading byte announces; none for a byte that cannot lead. */
  function Announced(lead: Byte): (n: nat)
    ensures n <= 3
  {
    if 0xC2 <= lead < 0xE0 then 1
    else if 0xE0 <= lead < 0xF0 then 2
    else if 0xF0 <= lead < 0xF5 then 3
    else 0
  }

  /** Is byte k after the leading byte one that may stand there? */
  predicate Continues(lead: Byte, k: nat, b: Byte) {
    if k > 1 then 0x80 <= b < 0xC0
    else if lead == 0xE0 then 0xA0 <= b < 0xC0
    else if lead == 0xED then 0x80 <= b < 0xA0
    else if lead == 0xF0 then 0x90 <= b < 0xC0
    else if lead == 0xF4 then 0x80 <= b < 0x90
    else 0x80 <= b < 0xC0
  }

  /** How many of the announced bytes are there, in order. */
  function Present(b: Bytes): (n: nat)
    requires b != []
    ensures n <= Announced(b[0]) && n < |b|
  {
    var lead := b[0];
    if Announced(lead) < 1 || |b| < 2 || !Continues(lead, 1, b[1]) then 0
    else if Announced(lead) < 2 || |b| < 3 || !Continues(lead, 2, b[2]) then 1
    else if Announced(lead) < 3 || |b| < 4 || !Continues(lead, 3, b[3]) then 2
    else 3
  }

  function Scalar(b: Bytes): (point: nat)
    requires b != [] && Announced(b[0]) > 0 && Present(b) == Announced(b[0])
    ensures point < 0x11_0000
    ensures Announced(b[0]) < 3 ==> point < 0x1_0000
    ensures Announced(b[0]) == 3 ==> point >= 0x1_0000
  {
    var lead: int, second: int := b[0], b[1] - 0x80;
    if Announced(b[0]) == 1 then (lead - 0xC0) * 0x40 + second
    else
      var third: int := b[2] - 0x80;
      if Announced(b[0]) == 2 then (lead - 0xE0) * 0x1000 + second * 0x40 + third
      else
        var fourth: int := b[3] - 0x80;
        (lead - 0xF0) * 0x4_0000 + second * 0x1000 + third * 0x40 + fourth
  }

  function Units(point: nat): Text
    requires point < 0x11_0000
  {
    if point < 0x1_0000 then [point]
    else [0xD800 + (point - 0x1_0000) / 0x400, 0xDC00 + (point - 0x1_0000) % 0x400]
  }

  /** The units of the first character, and how many bytes it took. */
  function First(b: Bytes): (first: (Text, nat))
    requires b != []
    ensures 0 < first.1 <= |b|
  {
    if b[0] < 0x80 then ([b[0]], 1)
    else if Announced(b[0]) > 0 && Present(b) == Announced(b[0]) then (Units(Scalar(b)), 1 + Present(b))
    else ([REPLACEMENT], 1 + Present(b))
  }

  function Decode(b: Bytes): Text
    decreases |b|
  {
    if b == [] then [] else First(b).0 + Decode(b[First(b).1..])
  }

  // ---------------------------------------------------------------- encoding, then decoding

  /** Every surrogate has its partner. */
  predicate WellFormed(t: Text) {
    && (forall i | 0 <= i < |t| && High(t[i]) :: i + 1 < |t| && Low(t[i + 1]))
    && (forall i | 0 <= i < |t| && Low(t[i]) :: i > 0 && High(t[i - 1]))
  }

  /** The text with U+FFFD in place of every surrogate that has no partner. */
  function Repaired(t: Text): (r: Text)
    ensures |r| == |t|
    decreases |t|
  {
    if t == [] then []
    else if Pair(t) then t[..2] + Repaired(t[2..])
    else [if High(t[0]) || Low(t[0]) then REPLACEMENT else t[0]] + Repaired(t[1..])
  }

  /** Dividing by 64 twice is dividing by 4096. */
  lemma SixAndSix(n: nat)
    ensures n / 0x40 / 0x40 == n / 0x1000
    ensures n == n / 0x1000 * 0x1000 + n / 0x40 % 0x40 * 0x40 + n % 0x40
  {
    var q, r := n / 0x40, n % 0x40;
    var p, t := q / 0x40, q % 0x40;
    assert n == 0x40 * q + r && q == 0x40 * p + t;
    assert n == 0x1000 * p + (0x40 * t + r) && 0 <= 0x40 * t + r < 0x1000;
  }

  lemma TwoBytes(b: Bytes, u: Unit)
    requires |b| >= 2 && 0x80 <= u < 0x800 && b[0] == 0xC0 + u / 0x40 && b[1] == 0x80 + u % 0x40
    ensures First(b) == ([u], 2)
  {
    assert Present(b) == 1;
  }

  lemma ThreeBytes(b: Bytes, u: Unit)
    requires |b| >= 3 && 0x800 <= u && !High(u) && !Low(u)
    requires b[0] == 0xE0 + u / 0x1000 && b[1] == 0x80 + u / 0x40 % 0x40 && b[2] == 0x80 + u % 0x40
    ensures First(b) == ([u], 3)
  {
    SixAndSix(u);
    assert b[0] == 0xE0 ==> b[1] >= 0xA0;
    assert b[0] == 0xED ==> b[1] < 0xA0;
    assert Present(b) == 2;
  }

  lemma FirstUnit(u: Unit, rest: Bytes)
    ensures First(EncodeUnit(u) + rest) == ([if High(u) || Low(u) then REPLACEMENT else u], |EncodeUnit(u)|)
  {
    var b := EncodeUnit(u) + rest;
    assert forall i | 0 <= i < |EncodeUnit(u)| :: b[i] == EncodeUnit(u)[i];
    if High(u) || Low(u) {
      assert b[0] == 0xEF && b[1] == 0xBF && b[2] == 0xBD;
      assert Present(b) == 2;
    } else if 0x80 <= u < 0x800 {
      TwoBytes(b, u);
      hide First;
    } else if u >= 0x800 {
      ThreeBytes(b, u);
      hide First;
    }
  }

  lemma FourBytes(b: Bytes, point: nat)
    requires |b| >= 4 && 0x1_0000 <= point < 0x11_0000
    requires b[0] == 0xF0 + point / 0x4_0000 && b[1] == 0x80 + point / 0x1000 % 0x40
    requires b[2] == 0x80 + point / 0x40 % 0x40 && b[3] == 0x80 + point % 0x40
    ensures First(b) == (Units(point), 4)
  {
    FourContinue(b, point);
    Recomposed(point);
    hide Present, Units, Continues;
    assert Scalar(b) == point;
  }

  lemma FourContinue(b: Bytes, point: nat)
    requires |b| >= 4 && 0x1_0000 <= point < 0x11_0000
    requires b[0] == 0xF0 + point / 0x4_0000 && b[1] == 0x80 + point / 0x1000 % 0x40
    requires b[2] == 0x80 + point / 0x40 % 0x40 && b[3] == 0x80 + point % 0x40
    ensures Announced(b[0]) == 3 && Present(b) == 3
  {
    assert b[0] == 0xF0 ==> b[1] >= 0x90;
    assert b[0] == 0xF4 ==> b[1] < 0x90;
    assert b[1] < 0xC0 && b[2] < 0xC0 && b[3] < 0xC0;
  }

  lemma Recomposed(point: nat)
    ensures point / 0x4_0000 * 0x4_0000 + point / 0x1000 % 0x40 * 0x1000 + point / 0x40 % 0x40 * 0x40 + point % 0x40
         == point
  {
    SixAndSix(point);
    var q := point / 0x1000;
    assert q == q / 0x40 * 0x40 + q % 0x40;
    SixAndSixAndSix(point);
  }

  lemma SixAndSixAndSix(n: nat)
    ensures n / 0x1000 / 0x40 == n / 0x4_0000
  {
    var q, r := n / 0x1000, n % 0x1000;
    var p, t := q / 0x40, q % 0x40;
    assert n == 0x1000 * q + r && q == 0x40 * p + t;
    assert n == 0x4_0000 * p + (0x1000 * t + r) && 0 <= 0x1000 * t + r < 0x4_0000;
  }

  lemma FirstPair(high: Unit, low: Unit, rest: Bytes)
    requires High(high) && Low(low)
    ensures First(EncodePair(high, low) + rest) == ([high, low], 4)
  {
    var point := 0x1_0000 + (high - 0xD800) * 0x400 + (low - 0xDC00);
    var b := EncodePair(high, low) + rest;
    assert b[0] == 0xF0 + point / 0x4_0000 && b[1] == 0x80 + point / 0x1000 % 0x40;
    assert b[2] == 0x80 + point / 0x40 % 0x40 && b[3] == 0x80 + point % 0x40;
    FourBytes(b, point);
    assert (point - 0x1_0000) / 0x400 == high - 0xD800;
  }

  /** Decoding undoes encoding up to the repair of lone surrogates. */
  lemma {:induction false} DecodeRepairs(t: Text)
    ensures Decode(Encode(t)) == Repaired(t)
    decreases |t|
  {
    if t == [] {
    } else if Pair(t) {
      var rest := Encode(t[2..]);
      FirstPair(t[0], t[1], rest);
      assert (EncodePair(t[0], t[1]) + rest)[4..] == rest;
      DecodeRepairs(t[2..]);
      assert t[..2] == [t[0], t[1]];
    } else {
      var rest := Encode(t[1..]);
      FirstUnit(t[0], rest);
      assert (EncodeUnit(t[0]) + rest)[|EncodeUnit(t[0])|..] == rest;
      DecodeRepairs(t[1..]);
    }
  }

  lemma {:induction false} RepairLeavesExactlyTheWellFormed(t: Text)
    ensures Repaired(t) == t <==> WellFormed(t)
    decreases |t|
  {
    if t == [] {
    } else if Pair(t) {
      RepairLeavesExactlyTheWellFormed(t[2..]);
      PairBeforeText(t);
      assert t == t[..2] + t[2..];
      assert Repaired(t)[2..] == Repaired(t[2..]);
    } else {
      RepairLeavesExactlyTheWellFormed(t[1..]);
      UnitBeforeText(t);
      assert t == [t[0]] + t[1..];
      assert Repaired(t)[1..] == Repaired(t[1..]);
    }
  }

  lemma PairBeforeText(t: Text)
    requires Pair(t)
    ensures WellFormed(t) <==> WellFormed(t[2..])
  {
    var r := t[2..];
    assert forall i | 0 <= i < |r| :: r[i] == t[i + 2];
    if WellFormed(t) {
      forall i | 0 <= i < |r| && Low(r[i]) ensures i > 0 && High(r[i - 1]) {
        assert Low(t[i + 2]);
        assert High(t[i + 1]);
      }
    }
    if WellFormed(r) {
      forall i | 0 <= i < |t| && High(t[i]) ensures i + 1 < |t| && Low(t[i + 1]) {
        if i >= 2 {
          assert High(r[i - 2]);
          assert Low(r[i - 1]);
        }
      }
      forall i | 0 <= i < |t| && Low(t[i]) ensures i > 0 && High(t[i - 1]) {
        if i >= 2 {
          assert Low(r[i - 2]);
          assert High(r[i - 3]);
        }
      }
    }
  }

  lemma UnitBeforeText(t: Text)
    requires t != [] && !Pair(t)
    ensures WellFormed(t) <==> !High(t[0]) && !Low(t[0]) && WellFormed(t[1..])
  {
    var r := t[1..];
    assert forall i | 0 <= i < |r| :: r[i] == t[i + 1];
    if WellFormed(t) {
      assert !High(t[0]);
      forall i | 0 <= i < |r| && Low(r[i]) ensures i > 0 && High(r[i - 1]) {
        assert Low(t[i + 1]);
        assert High(t[i]);
      }
    }
    if !High(t[0]) && !Low(t[0]) && WellFormed(r) {
      forall i | 0 <= i < |t| && High(t[i]) ensures i + 1 < |t| && Low(t[i + 1]) {
        assert High(r[i - 1]);
        assert Low(r[i]);
      }
      forall i | 0 <= i < |t| && Low(t[i]) ensures i > 0 && High(t[i - 1]) {
        assert Low(r[i - 1]);
        assert High(r[i - 2]);
      }
    }
  }

  /** A text survives the trip through UTF-8 exactly when it is well formed. */
  lemma SurvivesExactlyWhenWellFormed(t: Text)
    ensures Decode(Encode(t)) == t <==> WellFormed(t)
  {
    DecodeRepairs(t);
    RepairLeavesExactlyTheWellFormed(t);
  }

  lemma AsciiDecodesToItself(t: Text)
    requires Ascii(t)
    ensures Encode(t) == t && Decode(t) == t && Repaired(t) == t
  {
    AsciiEncodesToItself(t);
    DecodeRepairs(t);
    RepairLeavesExactlyTheWellFormed(t);
  }
}
