/**
  The encrypted text format of stored credentials: `v1`, nonce, tag and ciphertext, the last three in
  base64url, joined by dots. The cipher and the key derivation are parameters that obey the laws stated by
  Lawful; nothing is claimed about what happens under a wrong key.
 */
module SecretBoxes {
  import opened Basics
  import opened Results
  import opened Utf8
  import opened Utf8Decoder
  import Base64Url

  const KEY_BYTES: nat := 32
  const NONCE_BYTES: nat := 12
  const TAG_BYTES: nat := 16

  datatype Ciphertext = Ciphertext(tag: Bytes, body: Bytes)

  /** `seal(key, nonce, plain, aad)`, `unseal(key, nonce, ciphertext, aad)` and `derive(password, salt)`. */
  datatype Primitives = Primitives(
    seal: (Bytes, Bytes, Bytes, Bytes) -> Ciphertext,
    unseal: (Bytes, Bytes, Ciphertext, Bytes) -> Option<Bytes>,
    derive: (Text, Bytes) -> Bytes)
  {
    /** What AES-256-GCM and PBKDF2 are relied on for: unsealing undoes sealing, and lengths are known. */
    ghost predicate Lawful() {
      && (forall key, nonce, plain, aad | |key| == KEY_BYTES && |nonce| == NONCE_BYTES ::
            var sealed := seal(key, nonce, plain, aad);
            && |sealed.tag| == TAG_BYTES
            && |sealed.body| == |plain|
            && unseal(key, nonce, sealed, aad) == Some(plain))
      && (forall password, salt :: |derive(password, salt)| == KEY_BYTES)
    }
  }

  /** The laws ask for nothing impossible. */
  lemma LawsCanBeMet() returns (c: Primitives)
    ensures c.Lawful()
  {
    c := Primitives(
      (key: Bytes, nonce: Bytes, plain: Bytes, aad: Bytes) => Ciphertext(seq(TAG_BYTES, i => 0), plain),
      (key: Bytes, nonce: Bytes, sealed: Ciphertext, aad: Bytes) => Some(sealed.body),
      (password: Text, salt: Bytes) => seq(KEY_BYTES, i => 0));
  }

  // ---------------------------------------------------------------- dotted text

  const DOT: Unit := '.' as int

  predicate Dotless(t: Text) {
    forall i | 0 <= i < |t| :: t[i] != DOT
  }

  /** The index of the first dot, or the length of a text without one. */
  function FirstDot(t: Text): (n: nat)
    ensures n <= |t|
    ensures forall i | 0 <= i < n :: t[i] != DOT
    ensures n < |t| ==> t[n] == DOT
    decreases |t|
  {
    if t == [] || t[0] == DOT then 0 else
      assert forall i | 0 < i < |t| :: t[i] == t[1..][i - 1];
      1 + FirstDot(t[1..])
  }

  function Split(t: Text): (parts: seq<Text>)
    ensures parts != []
    decreases |t|
  {
    var n := FirstDot(t);
    if n == |t| then [t] else [t[..n]] + Split(t[n + 1..])
  }

  function Join(parts: seq<Text>): Text
    requires parts != []
    decreases |parts|
  {
    if |parts| == 1 then parts[0] else parts[0] + [DOT] + Join(parts[1..])
  }

  lemma FirstDotFollows(a: Text, rest: Text)
    requires Dotless(a)
    ensures FirstDot(a + [DOT] + rest) == |a|
  {
    var t := a + [DOT] + rest;
    var n := FirstDot(t);
    assert forall i | 0 <= i < |a| :: t[i] == a[i];
    assert t[|a|] == DOT;
  }

  /** Splitting undoes joining when no part holds a dot. */
  lemma {:induction false} SplitUndoesJoin(parts: seq<Text>)
    requires parts != []
    requires forall i | 0 <= i < |parts| :: Dotless(parts[i])
    ensures Split(Join(parts)) == parts
    decreases |parts|
  {
    var a := parts[0];
    if |parts| == 1 {
      assert parts == [a];
      assert Dotless(a);
    } else {
      var rest := Join(parts[1..]);
      FirstDotFollows(a, rest);
      assert (a + [DOT] + rest)[..|a|] == a && (a + [DOT] + rest)[|a| + 1..] == rest;
      SplitUndoesJoin(parts[1..]);
      assert parts == [a] + parts[1..];
    }
  }

  /** Joining undoes splitting, and no part holds a dot: splitting cuts at every dot and nowhere else. */
  lemma {:induction false} JoinUndoesSplit(t: Text)
    ensures Join(Split(t)) == t
    ensures forall i | 0 <= i < |Split(t)| :: Dotless(Split(t)[i])
    decreases |t|
  {
    var n := FirstDot(t);
    if n < |t| {
      JoinUndoesSplit(t[n + 1..]);
      assert Split(t)[1..] == Split(t[n + 1..]);
      assert t == t[..n] + [DOT] + t[n + 1..];
    }
  }

  // ---------------------------------------------------------------- encrypt and decrypt

  datatype Failure = EmptyValueOrScope | InvalidValue | AuthenticationFailed

  const V1: Text := ['v' as int, '1' as int]

  function Parts(c: Primitives, key: Bytes, nonce: Bytes, value: Text, scope: Text): (parts: seq<Text>)
    ensures |parts| == 4
  {
    var sealed := c.seal(key, nonce, Encode(value), Encode(scope));
    [V1, Base64Url.Written(nonce), Base64Url.Written(sealed.tag), Base64Url.Written(sealed.body)]
  }

  function Encrypt(c: Primitives, key: Bytes, nonce: Bytes, value: Text, scope: Text): Result<Text, Failure> {
    if value == [] || scope == [] then Err(EmptyValueOrScope) else Ok(Join(Parts(c, key, nonce, value, scope)))
  }

  function Decrypt(c: Primitives, key: Bytes, value: Text, scope: Text): Result<Text, Failure> {
    var parts := Split(value);
    if |parts| != 4 || parts[0] != V1 || scope == [] then Err(InvalidValue)
    else
      var nonce, tag := Base64Url.Read(parts[1]), Base64Url.Read(parts[2]);
      if |nonce| != NONCE_BYTES || |tag| != TAG_BYTES then Err(InvalidValue)
      else
        match c.unseal(key, nonce, Ciphertext(tag, Base64Url.Read(parts[3])), Encode(scope))
        case None => Err(AuthenticationFailed)
        case Some(plain) => Ok(Decode(plain))
  }

  lemma WrittenIsDotless(b: Bytes)
    ensures Dotless(Base64Url.Written(b))
  {
    Base64Url.ReadUndoesWritten(b);
    var t := Base64Url.Written(b);
    forall i | 0 <= i < |t| ensures t[i] != DOT {
      assert Base64Url.UrlLetter(t[i]);
    }
  }

  lemma PartsSplit(c: Primitives, key: Bytes, nonce: Bytes, value: Text, scope: Text)
    ensures Split(Join(Parts(c, key, nonce, value, scope))) == Parts(c, key, nonce, value, scope)
  {
    var sealed := c.seal(key, nonce, Encode(value), Encode(scope));
    WrittenIsDotless(nonce);
    WrittenIsDotless(sealed.tag);
    WrittenIsDotless(sealed.body);
    SplitUndoesJoin(Parts(c, key, nonce, value, scope));
  }

  /**
    Decrypting what was encrypted under the same key and scope never fails, and gives the value back with
    its lone surrogates repaired.
   */
  lemma DecryptUndoesEncrypt(c: Primitives, key: Bytes, nonce: Bytes, value: Text, scope: Text)
    requires c.Lawful() && |key| == KEY_BYTES && |nonce| == NONCE_BYTES && value != [] && scope != []
    ensures Encrypt(c, key, nonce, value, scope).Ok?
    ensures Decrypt(c, key, Encrypt(c, key, nonce, value, scope).value, scope) == Ok(Repaired(value))
  {
    PartsSplit(c, key, nonce, value, scope);
    var sealed := c.seal(key, nonce, Encode(value), Encode(scope));
    assert c.unseal(key, nonce, sealed, Encode(scope)) == Some(Encode(value));
    Base64Url.ReadUndoesWritten(nonce);
    Base64Url.ReadUndoesWritten(sealed.tag);
    Base64Url.ReadUndoesWritten(sealed.body);
    DecodeRepairs(value);
  }

  /** A stored value comes back unchanged exactly when it had no lone surrogate. */
  lemma ValueReturnsExactlyWhenWellFormed(
      c: Primitives, key: Bytes, nonce: Bytes, value: Text, scope: Text)
    requires c.Lawful() && |key| == KEY_BYTES && |nonce| == NONCE_BYTES && value != [] && scope != []
    ensures Decrypt(c, key, Encrypt(c, key, nonce, value, scope).value, scope) == Ok(value) <==> WellFormed(value)
  {
    DecryptUndoesEncrypt(c, key, nonce, value, scope);
    RepairLeavesExactlyTheWellFormed(value);
  }

  /** The encrypted text is ASCII, and its length follows from the length of the value. */
  lemma EncryptedShape(c: Primitives, key: Bytes, nonce: Bytes, value: Text, scope: Text)
    requires c.Lawful() && |key| == KEY_BYTES && |nonce| == NONCE_BYTES && value != [] && scope != []
    ensures var text := Encrypt(c, key, nonce, value, scope).value;
      Ascii(text) && |text| == 43 + (4 * ByteLength(value) + 2) / 3
  {
    var sealed := c.seal(key, nonce, Encode(value), Encode(scope));
    Base64Url.ReadUndoesWritten(nonce);
    Base64Url.ReadUndoesWritten(sealed.tag);
    Base64Url.ReadUndoesWritten(sealed.body);
    var p := Parts(c, key, nonce, value, scope);
    FourJoined(p[0], p[1], p[2], p[3]);
    assert p == [p[0], p[1], p[2], p[3]];
  }

  lemma FourJoined(a: Text, b: Text, c: Text, d: Text)
    ensures Join([a, b, c, d]) == a + [DOT] + (b + [DOT] + (c + [DOT] + d))
  {
    assert [a, b, c, d][1..] == [b, c, d];
    assert [b, c, d][1..] == [c, d];
    assert [c, d][1..] == [d];
    assert Join([c, d]) == c + [DOT] + d;
    assert Join([b, c, d]) == b + [DOT] + Join([c, d]);
  }

  // ---------------------------------------------------------------- what the text says

  /** `v1.a.b.d`, where the last three parts hold no dot. */
  predicate Written4(text: Text, a: Text, b: Text, d: Text) {
    && Dotless(a) && Dotless(b) && Dotless(d)
    && text == ['v' as int, '1' as int, '.' as int] + a + ['.' as int] + b + ['.' as int] + d
  }

  lemma Written4Splits(text: Text, a: Text, b: Text, d: Text)
    requires Written4(text, a, b, d)
    ensures Split(text) == [V1, a, b, d]
  {
    var parts := [V1, a, b, d];
    FourJoined(V1, a, b, d);
    FourInOne(a, b, d);
    SplitUndoesJoin(parts);
  }

  /** What is encrypted is the UTF-8 form of the value, authenticated together with the scope. */
  lemma EncryptedSays(c: Primitives, key: Bytes, nonce: Bytes, value: Text, scope: Text)
    ensures Encrypt(c, key, nonce, value, scope).Err? <==> value == [] || scope == []
    ensures value != [] && scope != [] ==>
      var sealed := c.seal(key, nonce, Encode(value), Encode(scope));
      Written4(Encrypt(c, key, nonce, value, scope).value,
               Base64Url.Written(nonce), Base64Url.Written(sealed.tag), Base64Url.Written(sealed.body))
  {
    if value != [] && scope != [] {
      var sealed := c.seal(key, nonce, Encode(value), Encode(scope));
      WrittenIsDotless(nonce);
      WrittenIsDotless(sealed.tag);
      WrittenIsDotless(sealed.body);
      var parts := Parts(c, key, nonce, value, scope);
      assert forall i | 0 <= i < 4 :: Dotless(parts[i]);
      hide Base64Url.Written, Encode, Join, Dotless;
      FourthOf(Join(parts), parts);
    }
  }

  /**
    A text that decrypts has the four parts, a nonce of 12 bytes and a tag of 16; its plaintext is what the
    cipher authenticates under the key and the scope. Any other such text fails to authenticate, and every
    other text or an empty scope is invalid.
   */
  lemma DecryptedSays(c: Primitives, key: Bytes, text: Text, scope: Text, a: Text, b: Text, d: Text)
    requires Written4(text, a, b, d)
    ensures var nonce, tag := Base64Url.Read(a), Base64Url.Read(b);
      Decrypt(c, key, text, scope)
      == (if scope == [] || |nonce| != 12 || |tag| != 16 then Err(InvalidValue)
          else
            var plain := c.unseal(key, nonce, Ciphertext(tag, Base64Url.Read(d)), Encode(scope));
            if plain.None? then Err(AuthenticationFailed) else Ok(Decode(plain.value)))
  {
    Written4Splits(text, a, b, d);
  }

  lemma AnyOtherTextIsInvalid(c: Primitives, key: Bytes, text: Text, scope: Text)
    ensures Decrypt(c, key, text, scope) != Err(InvalidValue) ==> exists a, b, d :: Written4(text, a, b, d)
  {
    var parts := Split(text);
    JoinUndoesSplit(text);
    if |parts| == 4 && parts[0] == V1 {
      FourthOf(text, parts);
    }
  }

  lemma FourthOf(text: Text, parts: seq<Text>)
    requires |parts| == 4 && parts[0] == V1 && Join(parts) == text
    requires forall i | 0 <= i < |parts| :: Dotless(parts[i])
    ensures Written4(text, parts[1], parts[2], parts[3])
  {
    var b, c, d := parts[1], parts[2], parts[3];
    assert parts == [V1, b, c, d];
    FourJoined(V1, b, c, d);
    FourInOne(b, c, d);
  }

  lemma FourInOne(b: Text, c: Text, d: Text)
    ensures V1 + [DOT] + (b + [DOT] + (c + [DOT] + d))
         == ['v' as int, '1' as int, '.' as int] + b + ['.' as int] + c + ['.' as int] + d
  {
    assert V1 + [DOT] == ['v' as int, '1' as int, '.' as int];
  }
}
