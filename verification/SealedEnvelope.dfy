/**
  The sealed envelope byte by byte: what is written where, what a successful decode has authenticated, and
  which input is refused for which reason.
 */
module SealedEnvelopes {
  import opened Basics
  import opened Results
  import opened Utf8
  import opened Utf8Decoder
  import opened SecretBoxes
  import opened SealedBytes
  import Base64Url

  predicate StartsWithMagic(bytes: Bytes) {
    && |bytes| >= 10
    && bytes[..10] == ['N' as int, 'X' as int, 'S' as int, 'E' as int, 'A' as int, 'L' as int, 'E' as int, 'D' as int,
                       '2' as int, 10]
  }

  /** The length of the instance-wrapped key, as the envelope states it. */
  function Stated(bytes: Bytes): nat
    requires |bytes| >= 88
  {
    var high: int, low: int := bytes[86], bytes[87];
    256 * high + low
  }

  /** Some bytes hold a nonce, a tag and what the cipher makes of `plain` under this key and these other bytes. */
  predicate Seal(c: Primitives, bytes: Bytes, key: Bytes, plain: Bytes, aad: Bytes) {
    && |bytes| >= 28
    && c.seal(key, bytes[..12], plain, aad) == Ciphertext(bytes[12..28], bytes[28..])
  }

  /**
    An envelope holds the magic, the salt, the data key sealed under the password and authenticated with both,
    the length of the instance-wrapped key and that key, and the plaintext sealed under the data key and
    authenticated with all that precedes it.
   */
  predicate Holds(c: Primitives, bytes: Bytes, random: Random, passwordKey: Bytes, instance: Bytes, plain: Bytes) {
    var end := 88 + |instance|;
    && |bytes| == 116 + |instance| + |plain|
    && StartsWithMagic(bytes) && bytes[10..26] == random.salt
    && Seal(c, bytes[26..86], passwordKey, random.dataKey, bytes[..26])
    && bytes[26..38] == random.wrapNonce
    && Stated(bytes) == |instance| && bytes[88..end] == instance
    && Seal(c, bytes[end..], random.dataKey, plain, bytes[..end])
    && bytes[end..end + 12] == random.bodyNonce
  }

  /** That is what encoding writes, each nonce being the one drawn for it. */
  lemma EnvelopeSays(c: Primitives, s: Settings, plain: Bytes, password: Text, random: Random)
    requires Seals(c, s, plain, password, random)
    ensures |InstanceWrapped(c, s.instance, random)| <= 101 && Sealed(c, s, plain, password, random).Ok?
    ensures Holds(c, Sealed(c, s, plain, password, random).value, random, c.derive(password, random.salt),
                  InstanceWrapped(c, s.instance, random), plain)
  {
    RealEnvelope(c, s, plain, password, random);
    var bytes := Sealed(c, s, plain, password, random).value;
    var header := EnvelopeHeader(c, s, password, random);
    var wrapped, key := PasswordWrapped(c, password, random), c.derive(password, random.salt);
    var body := SealWith(c, random.dataKey, random.bodyNonce, plain, header);
    assert |key| == 32;
    SealWithIsSeal(c, key, random.wrapNonce, random.dataKey, Prefix(random.salt));
    SealWithIsSeal(c, random.dataKey, random.bodyNonce, plain, header);
    hide *;
    PiecesHold(c, bytes, random, key, wrapped, InstanceWrapped(c, s.instance, random), body, plain);
  }

  lemma PiecesHold(c: Primitives, bytes: Bytes, random: Random, key: Bytes,
                   wrapped: Bytes, instance: Bytes, body: Bytes, plain: Bytes)
    requires |random.salt| == 16 && |wrapped| == 60 && |instance| <= 256 && |body| == 28 + |plain|
    requires LaidOut(bytes, random.salt, wrapped, instance, body)
    requires Seal(c, wrapped, key, random.dataKey, Prefix(random.salt)) && wrapped[..12] == random.wrapNonce
    requires Seal(c, body, random.dataKey, plain, Header(random.salt, wrapped, instance))
    requires body[..12] == random.bodyNonce
    ensures Holds(c, bytes, random, key, instance, plain)
  {
    hide *;
    PiecesSay(bytes, random.salt, wrapped, instance, body);
    var end := 88 + |instance|;
    assert Seal(c, bytes[26..86], key, random.dataKey, bytes[..26]);
    assert Seal(c, bytes[end..], random.dataKey, plain, bytes[..end]);
    assert |bytes| == 116 + |instance| + |plain|;
    ShowHolds(c, bytes, random, key, instance, plain);
  }

  lemma ShowHolds(c: Primitives, bytes: Bytes, random: Random, key: Bytes, instance: Bytes, plain: Bytes)
    requires |bytes| == 116 + |instance| + |plain| && StartsWithMagic(bytes) && bytes[10..26] == random.salt
    requires Seal(c, bytes[26..86], key, random.dataKey, bytes[..26]) && bytes[26..38] == random.wrapNonce
    requires Stated(bytes) == |instance| && bytes[88..88 + |instance|] == instance
    requires Seal(c, bytes[88 + |instance|..], random.dataKey, plain, bytes[..88 + |instance|])
    requires bytes[88 + |instance|..100 + |instance|] == random.bodyNonce
    ensures Holds(c, bytes, random, key, instance, plain)
  {
  }

  /** The pieces of a laid-out envelope, where they start and where they end. */
  lemma PiecesSay(bytes: Bytes, salt: Bytes, wrapped: Bytes, instance: Bytes, body: Bytes)
    requires |salt| == 16 && |wrapped| == 60 && |instance| <= 256 && |body| >= 28
    requires LaidOut(bytes, salt, wrapped, instance, body)
    ensures var end := 88 + |instance|;
      && |bytes| == end + |body|
      && StartsWithMagic(bytes) && bytes[10..26] == salt
      && bytes[..26] == Prefix(salt) && bytes[26..86] == wrapped && bytes[26..38] == wrapped[..12]
      && Stated(bytes) == |instance| && bytes[88..end] == instance
      && bytes[..end] == Header(salt, wrapped, instance)
      && bytes[end..] == body && bytes[end..end + 12] == body[..12]
  {
    var end := 88 + |instance|;
    assert bytes[26..38] == bytes[26..86][..12];
    assert bytes[end..end + 12] == bytes[end..][..12];
    hide Prefix, Header;
  }

  /** What encoding refuses, and in which order: a plaintext over the limit, then a password that cannot be. */
  lemma SealedExactlyWhen(c: Primitives, s: Settings, plain: Bytes, password: Text, random: Random)
    requires |InstanceWrapped(c, s.instance, random)| < 0x1_0000
    ensures var r := Sealed(c, s, plain, password, random);
      var possible := password != [] && ByteLength(password) <= 8192 && WellFormed(password);
      && (r == Err(LimitExceeded) <==> |plain| > s.maxPlainBytes)
      && (r == Err(InvalidInput) <==> |plain| <= s.maxPlainBytes && !possible)
      && (r == Err(Unavailable) <==> |plain| <= s.maxPlainBytes && possible && !random.derives)
      && (r.Ok? <==> |plain| <= s.maxPlainBytes && possible && random.derives)
  {
    PasswordsAcceptedExactly(password);
    hide AcceptsPassword, ByteLength, WellFormed, InstanceWrapped;
  }

  lemma SealWithIsSeal(c: Primitives, key: Bytes, nonce: Bytes, plain: Bytes, aad: Bytes)
    requires c.Lawful() && |key| == 32 && |nonce| == 12
    ensures Seal(c, SealWith(c, key, nonce, plain, aad), key, plain, aad)
    ensures SealWith(c, key, nonce, plain, aad)[..12] == nonce
  {
    var sealed := c.seal(key, nonce, plain, aad);
    var bytes := SealWith(c, key, nonce, plain, aad);
    assert |sealed.tag| == 16 && sealed == Ciphertext(sealed.tag, sealed.body);
    assert bytes[..12] == nonce;
    assert bytes[12..28] == sealed.tag && bytes[28..] == sealed.body;
  }

  /** With a box the wrapped key is its encryption of the data key in base64url under the scope of this format. */
  lemma InstanceKeyIsEncrypted(c: Primitives, s: Settings, random: Random)
    requires Real(c, s, random)
    ensures s.instance.None? ==> InstanceWrapped(c, s.instance, random) == []
    ensures s.instance.Some? ==>
      var text := Encrypt(c, s.instance.value, random.boxNonce, Base64Url.Written(random.dataKey), InstanceScope());
      && text.Ok? && |InstanceWrapped(c, s.instance, random)| == |text.value|
      && (forall i | 0 <= i < |text.value| :: InstanceWrapped(c, s.instance, random)[i] == text.value[i])
  {
    if s.instance.Some? {
      WrappedLetters(c, s.instance.value, random.boxNonce, random.dataKey, InstanceScope());
      var text := Encrypt(c, s.instance.value, random.boxNonce, Base64Url.Written(random.dataKey), InstanceScope());
      AsciiBytesAreTheText(text.value);
      assert InstanceWrapped(c, s.instance, random) == AsciiBytes(text.value);
      hide Encrypt, AsciiBytes, InstanceWrapped, Base64Url.Written;
    }
  }

  lemma AsciiBytesAreTheText(t: Text)
    requires Ascii(t)
    ensures forall i | 0 <= i < |t| :: AsciiBytes(t)[i] == t[i]
  {
  }

  // ---------------------------------------------------------------- decoding

  /** The bytes look like an envelope: the magic, a stated length within bounds, and room for what follows. */
  predicate Wellformed(bytes: Bytes) {
    |bytes| >= 116 && StartsWithMagic(bytes) && Stated(bytes) <= 256 && |bytes| >= 116 + Stated(bytes)
  }

  /**
    The refusals before any key is tried: input far too long, then input that is no envelope, then a plaintext
    over the limit.
   */
  lemma MeasuredExactly(s: Settings, bytes: Bytes)
    ensures Measured(s, bytes)
      == if |bytes| > s.maxPlainBytes + 372 then Err(LimitExceeded)
         else if !Wellformed(bytes) then Err(InvalidInput)
         else if |bytes| - 116 - Stated(bytes) > s.maxPlainBytes then Err(LimitExceeded)
         else Ok(88 + Stated(bytes))
  {
    assert |bytes| >= 10 ==> (bytes[..10] == Magic() <==> StartsWithMagic(bytes));
  }

  /** The cipher authenticates a nonce, a tag and the rest of these bytes, together with `aad`, as `plain`. */
  predicate Authentic(c: Primitives, bytes: Bytes, key: Bytes, plain: Bytes, aad: Bytes) {
    && |bytes| >= 28
    && c.unseal(key, bytes[..12], Ciphertext(bytes[12..28], bytes[28..]), aad) == Some(plain)
  }

  /** The key that the decoder's own box yields: 32 bytes whose only spelling in base64url is what it decrypts. */
  predicate OwnKey(c: Primitives, s: Settings, bytes: Bytes, key: Bytes)
    requires Wellformed(bytes)
  {
    var wrapped := bytes[88..88 + Stated(bytes)];
    && |wrapped| > 0 && s.instance.Some? && |key| == 32
    && Decrypt(c, s.instance.value, AsciiText(wrapped), InstanceScope()) == Ok(Base64Url.Written(key))
  }

  /** The key that the password opens. */
  predicate PasswordKey(c: Primitives, bytes: Bytes, password: Option<Text>, key: Bytes)
    requires Wellformed(bytes)
  {
    && password.Some? && AcceptsPassword(password.value)
    && Authentic(c, bytes[26..86], c.derive(password.value, bytes[10..26]), key, bytes[..26])
  }

  lemma OwnKeyIs(c: Primitives, s: Settings, bytes: Bytes, key: Bytes)
    requires Wellformed(bytes)
    ensures OwnKey(c, s, bytes, key)
       <==> InstanceKey(c, s.instance, bytes[88..88 + Stated(bytes)]) == Some(key)
  {
    Base64Url.ReadUndoesWritten(key);
  }

  /**
    A decode succeeds exactly when the input is an envelope within the limits whose body authenticates, with
    all that precedes it, under the key of the own box or, if that yields none, under the key that the given
    password opens. The plaintext is the authenticated one.
   */
  lemma OpenedExactlyWhen(
      c: Primitives, s: Settings, bytes: Bytes, password: Option<Text>, derives: bool, plain: Bytes)
    ensures Opened(c, s, bytes, password, derives) == Ok(plain)
      <==> && |bytes| <= s.maxPlainBytes + 372 && Wellformed(bytes)
           && |bytes| - 116 - Stated(bytes) <= s.maxPlainBytes
           && var end := 88 + Stated(bytes);
              exists key ::
                && Authentic(c, bytes[end..], key, plain, bytes[..end])
                && (OwnKey(c, s, bytes, key)
                    || (derives && PasswordKey(c, bytes, password, key)
                        && forall own :: !OwnKey(c, s, bytes, own)))
  {
    MeasuredExactly(s, bytes);
    if Measured(s, bytes).Ok? {
      var end := 88 + Stated(bytes);
      var own := InstanceKey(c, s.instance, bytes[88..end]);
      forall key
        ensures OwnKey(c, s, bytes, key) <==> own == Some(key)
      {
        OwnKeyIs(c, s, bytes, key);
      }
      forall key
        ensures PasswordKey(c, bytes, password, key) && derives
           <==> KeyByPassword(c, bytes, password, derives) == Ok(key)
      {
        PasswordKeyIs(c, bytes, password, derives, key);
      }
      forall key
        ensures Authentic(c, bytes[end..], key, plain, bytes[..end]) <==> Body(c, key, bytes, end) == Ok(plain)
      {
      }
      hide OwnKey, PasswordKey, Authentic, KeyByPassword, InstanceKey, Body, Measured, Wellformed;
      TheKeyDecides(c, s, bytes, password, derives, plain);
    }
  }

  lemma PasswordKeyIs(c: Primitives, bytes: Bytes, password: Option<Text>, derives: bool, key: Bytes)
    requires Wellformed(bytes)
    ensures PasswordKey(c, bytes, password, key) && derives <==> KeyByPassword(c, bytes, password, derives) == Ok(key)
  {
    assert bytes[26..86][..12] == bytes[26..38];
  }

  lemma TheKeyDecides(
      c: Primitives, s: Settings, bytes: Bytes, password: Option<Text>, derives: bool, plain: Bytes)
    requires Measured(s, bytes).Ok?
    ensures var end := Measured(s, bytes).value;
      var own := InstanceKey(c, s.instance, bytes[88..end]);
      var key := if own.Some? then Ok(own.value) else KeyByPassword(c, bytes, password, derives);
      Opened(c, s, bytes, password, derives) == Ok(plain) <==> key.Ok? && Body(c, key.value, bytes, end) == Ok(plain)
  {
  }

  /**
    Why a well-formed envelope within the limits is refused: no key and no password, a password that cannot
    be, a derivation that fails, or something that does not authenticate.
   */
  lemma RefusedExactlyWhen(c: Primitives, s: Settings, bytes: Bytes, password: Option<Text>, derives: bool)
    requires Measured(s, bytes).Ok?
    ensures var end := Measured(s, bytes).value;
      var noKey := InstanceKey(c, s.instance, bytes[88..end]).None?;
      var given := password.Some? && |password.value| > 0;
      var r := Opened(c, s, bytes, password, derives);
      && (r == Err(PasswordRequired) <==> noKey && !given)
      && (r == Err(InvalidInput) <==> noKey && given && !AcceptsPassword(password.value))
      && (r == Err(Unavailable) <==> noKey && given && AcceptsPassword(password.value) && !derives)
      && r != Err(LimitExceeded)
  {
    hide AcceptsPassword, InstanceKey;
  }
}
