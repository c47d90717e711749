/**
  The sealed binary envelope: a data key encrypts the plaintext; the data key is wrapped once under a
  password and, when the instance has a secret box, once more under the instance's own key.

      magic 10 | salt 16 | password-wrapped key 60 | length 2 | instance-wrapped key 0 or 101 | sealed body

  Randomness is a parameter. What the two asynchronous methods compute is Sealed and Opened; the methods
  do the same over key buffers that they erase.
 */
module SealedBytes {
  import opened Basics
  import opened Results
  import opened Utf8
  import opened Utf8Decoder
  import opened SecretBoxes
  import Base64Url

  const MAGIC_BYTES: nat := 10
  const SALT_BYTES: nat := 16
  const PREFIX_BYTES: nat := MAGIC_BYTES + SALT_BYTES
  const SEAL_BYTES: nat := NONCE_BYTES + TAG_BYTES
  const WRAPPED_KEY_BYTES: nat := SEAL_BYTES + KEY_BYTES
  const FIXED_HEADER_BYTES: nat := MAGIC_BYTES + SALT_BYTES + WRAPPED_KEY_BYTES + 2
  const MAX_INSTANCE_KEY_BYTES: nat := 256
  const MAX_PASSWORD_BYTES: nat := 8192

  /** `NXSEALED2` and a line feed. */
  function Magic(): (magic: Bytes)
    ensures |magic| == MAGIC_BYTES
  {
    [0x4E, 0x58, 0x53, 0x45, 0x41, 0x4C, 0x45, 0x44, 0x32, 0x0A]
  }

  /** `sealed-bytes:key:v2`. */
  function InstanceScope(): (scope: Text)
    ensures scope != []
  {
    [0x73, 0x65, 0x61, 0x6C, 0x65, 0x64, 0x2D, 0x62, 0x79, 0x74, 0x65, 0x73, 0x3A, 0x6B, 0x65, 0x79, 0x3A, 0x76, 0x32]
  }

  /** `OpenFailed` is the kind `authentication_failed`. */
  datatype SealFailure = InvalidInput | LimitExceeded | PasswordRequired | OpenFailed | Unavailable

  datatype Settings = Settings(maxPlainBytes: nat, instance: Option<Bytes>)

  predicate Configured(s: Settings) {
    && 1 <= s.maxPlainBytes <= MAX_SAFE_INTEGER
    && (s.instance.Some? ==> |s.instance.value| == KEY_BYTES)
  }

  /** The random bytes of one encode; `derives`: the key derivation does not fail. */
  datatype Random = Random(
    salt: Bytes, dataKey: Bytes, wrapNonce: Bytes, boxNonce: Bytes, bodyNonce: Bytes, derives: bool)

  predicate Drawn(r: Random) {
    && |r.salt| == SALT_BYTES
    && |r.dataKey| == KEY_BYTES
    && |r.wrapNonce| == NONCE_BYTES
    && |r.boxNonce| == NONCE_BYTES
    && |r.bodyNonce| == NONCE_BYTES
  }

  // ---------------------------------------------------------------- pieces

  predicate AcceptsPassword(password: Text) {
    password != [] && ByteLength(password) <= MAX_PASSWORD_BYTES && Decode(Encode(password)) == password
  }

  function SealWith(c: Primitives, key: Bytes, nonce: Bytes, plain: Bytes, aad: Bytes): Bytes {
    var sealed := c.seal(key, nonce, plain, aad);
    nonce + sealed.tag + sealed.body
  }

  function UnsealWith(c: Primitives, key: Bytes, bytes: Bytes, aad: Bytes): Option<Bytes>
    requires |bytes| >= SEAL_BYTES
  {
    c.unseal(key, bytes[..NONCE_BYTES], Ciphertext(bytes[NONCE_BYTES..SEAL_BYTES], bytes[SEAL_BYTES..]), aad)
  }

  lemma UnsealUndoesSeal(c: Primitives, key: Bytes, nonce: Bytes, plain: Bytes, aad: Bytes)
    requires c.Lawful() && |key| == KEY_BYTES && |nonce| == NONCE_BYTES
    ensures var bytes := SealWith(c, key, nonce, plain, aad);
      |bytes| == SEAL_BYTES + |plain| && UnsealWith(c, key, bytes, aad) == Some(plain)
  {
    var sealed := c.seal(key, nonce, plain, aad);
    var bytes := SealWith(c, key, nonce, plain, aad);
    assert |sealed.tag| == TAG_BYTES && |sealed.body| == |plain|;
    assert bytes[..NONCE_BYTES] == nonce;
    assert bytes[NONCE_BYTES..SEAL_BYTES] == sealed.tag;
    assert bytes[SEAL_BYTES..] == sealed.body;
  }

  /** Writing text as `ascii` keeps the low byte of each unit; reading it keeps the low seven bits. */
  function AsciiBytes(t: Text): (b: Bytes)
    ensures |b| == |t|
  {
    seq(|t|, i requires 0 <= i < |t| => t[i] % 0x100)
  }

  function AsciiText(b: Bytes): (t: Text)
    ensures |t| == |b|
  {
    seq(|b|, i requires 0 <= i < |b| => b[i] % 0x80)
  }

  lemma AsciiTravels(t: Text)
    requires Ascii(t)
    ensures AsciiText(AsciiBytes(t)) == t
  {
  }

  function Read16(high: Byte, low: Byte): nat {
    var h: int := high;
    h * 0x100 + low
  }

  /** The two-byte big-endian length. */
  function Length16(n: nat): (b: Bytes)
    requires n < 0x1_0000
    ensures |b| == 2 && Read16(b[0], b[1]) == n
  {
    [n / 0x100, n % 0x100]
  }

  function InstanceWrapped(c: Primitives, instance: Option<Bytes>, random: Random): Bytes {
    match instance
    case None => []
    case Some(key) =>
      match Encrypt(c, key, random.boxNonce, Base64Url.Written(random.dataKey), InstanceScope())
      case Err(_) => []
      case Ok(text) => AsciiBytes(text)
  }

  function InstanceKey(c: Primitives, instance: Option<Bytes>, wrapped: Bytes): (key: Option<Bytes>)
    ensures key.Some? ==> |key.value| == KEY_BYTES
  {
    if wrapped == [] || instance.None? then None
    else
      match Decrypt(c, instance.value, AsciiText(wrapped), InstanceScope())
      case Err(_) => None
      case Ok(encoded) =>
        var key := Base64Url.Read(encoded);
        if |key| == KEY_BYTES && Base64Url.Written(key) == encoded then Some(key) else None
  }

  // ---------------------------------------------------------------- what encode and decode compute

  function Prefix(salt: Bytes): Bytes {
    Magic() + salt
  }

  function Header(salt: Bytes, passwordWrapped: Bytes, instanceWrapped: Bytes): Bytes
    requires |instanceWrapped| < 0x1_0000
  {
    Prefix(salt) + passwordWrapped + Length16(|instanceWrapped|) + instanceWrapped
  }

  function PasswordWrapped(c: Primitives, password: Text, random: Random): Bytes {
    SealWith(c, c.derive(password, random.salt), random.wrapNonce, random.dataKey, Prefix(random.salt))
  }

  ghost predicate Real(c: Primitives, s: Settings, random: Random) {
    c.Lawful() && Configured(s) && Drawn(random)
  }

  /** Encoding succeeds. */
  ghost predicate Seals(c: Primitives, s: Settings, plain: Bytes, password: Text, random: Random) {
    Real(c, s, random) && AcceptsPassword(password) && |plain| <= s.maxPlainBytes && random.derives
  }

  lemma WrappedLetters(c: Primitives, key: Bytes, nonce: Bytes, dataKey: Bytes, scope: Text)
    requires c.Lawful() && |key| == KEY_BYTES && |nonce| == NONCE_BYTES && |dataKey| == KEY_BYTES && scope != []
    ensures var wrapped := Encrypt(c, key, nonce, Base64Url.Written(dataKey), scope);
      && wrapped.Ok? && Ascii(wrapped.value) && |wrapped.value| == 101
      && Decrypt(c, key, wrapped.value, scope) == Ok(Base64Url.Written(dataKey))
  {
    var letters := Base64Url.Written(dataKey);
    Base64Url.ReadUndoesWritten(dataKey);
    AsciiDecodesToItself(letters);
    assert ByteLength(letters) == 43;
    DecryptUndoesEncrypt(c, key, nonce, letters, scope);
    EncryptedShape(c, key, nonce, letters, scope);
  }

  /** An instance wraps its key in nothing, or in the 101 characters of an encrypted 43-letter text. */
  lemma InstanceWrappedShape(c: Primitives, s: Settings, random: Random)
    requires Real(c, s, random)
    ensures |InstanceWrapped(c, s.instance, random)| == if s.instance.Some? then 101 else 0
  {
    if s.instance.Some? {
      WrappedLetters(c, s.instance.value, random.boxNonce, random.dataKey, InstanceScope());
    }
  }

  function EnvelopeHeader(c: Primitives, s: Settings, password: Text, random: Random): Bytes
    requires |InstanceWrapped(c, s.instance, random)| < 0x1_0000
  {
    Header(random.salt, PasswordWrapped(c, password, random), InstanceWrapped(c, s.instance, random))
  }

  function Sealed(c: Primitives, s: Settings, plain: Bytes, password: Text, random: Random)
    : Result<Bytes, SealFailure>
    requires |InstanceWrapped(c, s.instance, random)| < 0x1_0000
  {
    if |plain| > s.maxPlainBytes then Err(LimitExceeded)
    else if !AcceptsPassword(password) then Err(InvalidInput)
    else if !random.derives then Err(Unavailable)
    else
      var header := EnvelopeHeader(c, s, password, random);
      Ok(header + SealWith(c, random.dataKey, random.bodyNonce, plain, header))
  }

  function Body(c: Primitives, key: Bytes, bytes: Bytes, headerLength: nat): Result<Bytes, SealFailure>
    requires headerLength + SEAL_BYTES <= |bytes|
  {
    match UnsealWith(c, key, bytes[headerLength..], bytes[..headerLength])
    case None => Err(OpenFailed)
    case Some(plain) => Ok(plain)
  }

  /** `derives`: the key derivation does not fail. */
  function KeyByPassword(
      c: Primitives, bytes: Bytes, password: Option<Text>, derives: bool): Result<Bytes, SealFailure>
    requires |bytes| >= FIXED_HEADER_BYTES
  {
    if password.None? || password.value == [] then Err(PasswordRequired)
    else if !AcceptsPassword(password.value) then Err(InvalidInput)
    else if !derives then Err(Unavailable)
    else
      var key := c.derive(password.value, bytes[MAGIC_BYTES..PREFIX_BYTES]);
      match UnsealWith(c, key, bytes[PREFIX_BYTES..PREFIX_BYTES + WRAPPED_KEY_BYTES], bytes[..PREFIX_BYTES])
      case None => Err(OpenFailed)
      case Some(dataKey) => Ok(dataKey)
  }

  /** Where the header ends, or why the input is refused before any key is tried. */
  function Measured(s: Settings, bytes: Bytes): (headerLength: Result<nat, SealFailure>)
    ensures headerLength.Ok? ==> FIXED_HEADER_BYTES <= headerLength.value <= |bytes| - SEAL_BYTES
  {
    if |bytes| > s.maxPlainBytes + FIXED_HEADER_BYTES + MAX_INSTANCE_KEY_BYTES + SEAL_BYTES then Err(LimitExceeded)
    else if |bytes| < FIXED_HEADER_BYTES + SEAL_BYTES || bytes[..MAGIC_BYTES] != Magic() then Err(InvalidInput)
    else
      var instanceLength := Read16(bytes[FIXED_HEADER_BYTES - 2], bytes[FIXED_HEADER_BYTES - 1]);
      var headerLength := FIXED_HEADER_BYTES + instanceLength;
      if instanceLength > MAX_INSTANCE_KEY_BYTES || |bytes| < headerLength + SEAL_BYTES then Err(InvalidInput)
      else if |bytes| - headerLength - SEAL_BYTES > s.maxPlainBytes then Err(LimitExceeded)
      else Ok(headerLength)
  }

  /** The data key: from the instance's own wrapping when that works, else from the password's. */
  function DataKey(
      c: Primitives, s: Settings, bytes: Bytes, headerLength: nat, password: Option<Text>, derives: bool)
    : Result<Bytes, SealFailure>
    requires FIXED_HEADER_BYTES <= headerLength <= |bytes|
  {
    match InstanceKey(c, s.instance, bytes[FIXED_HEADER_BYTES..headerLength])
    case Some(key) => Ok(key)
    case None => KeyByPassword(c, bytes, password, derives)
  }

  function Opened(
      c: Primitives, s: Settings, bytes: Bytes, password: Option<Text>, derives: bool): Result<Bytes, SealFailure>
  {
    match Measured(s, bytes)
    case Err(e) => Err(e)
    case Ok(headerLength) =>
      match DataKey(c, s, bytes, headerLength, password, derives)
      case Err(e) => Err(e)
      case Ok(key) => Body(c, key, bytes, headerLength)
  }

  /** The accepted passwords: not empty, at most 8192 bytes, and no lone surrogate. */
  lemma PasswordsAcceptedExactly(password: Text)
    ensures AcceptsPassword(password)
      <==> password != [] && ByteLength(password) <= 8192 && WellFormed(password)
  {
    SurvivesExactlyWhenWellFormed(password);
  }

  // ---------------------------------------------------------------- the layout

  /** Where each piece of an envelope lies. */
  predicate LaidOut(bytes: Bytes, salt: Bytes, passwordWrapped: Bytes, instanceWrapped: Bytes, body: Bytes)
    requires |instanceWrapped| < 0x1_0000
  {
    var end := FIXED_HEADER_BYTES + |instanceWrapped|;
    && |bytes| == end + |body|
    && bytes[..end] == Header(salt, passwordWrapped, instanceWrapped) && bytes[end..] == body
    && bytes[FIXED_HEADER_BYTES..end] == instanceWrapped
    && Read16(bytes[FIXED_HEADER_BYTES - 2], bytes[FIXED_HEADER_BYTES - 1]) == |instanceWrapped|
    && bytes[PREFIX_BYTES..PREFIX_BYTES + WRAPPED_KEY_BYTES] == passwordWrapped
    && bytes[..PREFIX_BYTES] == Prefix(salt)
    && bytes[..MAGIC_BYTES] == Magic()
    && bytes[MAGIC_BYTES..PREFIX_BYTES] == salt
  }

  lemma Layout(salt: Bytes, passwordWrapped: Bytes, instanceWrapped: Bytes, body: Bytes)
    requires |salt| == SALT_BYTES && |passwordWrapped| == WRAPPED_KEY_BYTES && |instanceWrapped| < 0x1_0000
    ensures LaidOut(Header(salt, passwordWrapped, instanceWrapped) + body, salt, passwordWrapped, instanceWrapped, body)
  {
    var header := Header(salt, passwordWrapped, instanceWrapped);
    assert |header| == FIXED_HEADER_BYTES + |instanceWrapped|;
  }

  lemma TheKeyIsWrapped(c: Primitives, password: Text, random: Random)
    requires c.Lawful() && Drawn(random)
    ensures var wrapped := PasswordWrapped(c, password, random);
      && |wrapped| == WRAPPED_KEY_BYTES
      && UnsealWith(c, c.derive(password, random.salt), wrapped, Prefix(random.salt)) == Some(random.dataKey)
  {
    var key := c.derive(password, random.salt);
    assert |key| == KEY_BYTES;
    UnsealUndoesSeal(c, key, random.wrapNonce, random.dataKey, Prefix(random.salt));
  }

  /** What a real envelope consists of. */
  lemma RealEnvelope(c: Primitives, s: Settings, plain: Bytes, password: Text, random: Random)
    requires Seals(c, s, plain, password, random)
    ensures |InstanceWrapped(c, s.instance, random)| <= 101
    ensures Sealed(c, s, plain, password, random).Ok?
    ensures var wrapped := PasswordWrapped(c, password, random);
      var header := EnvelopeHeader(c, s, password, random);
      var body := SealWith(c, random.dataKey, random.bodyNonce, plain, header);
      && |wrapped| == WRAPPED_KEY_BYTES
      && UnsealWith(c, c.derive(password, random.salt), wrapped, Prefix(random.salt)) == Some(random.dataKey)
      && |body| == SEAL_BYTES + |plain|
      && UnsealWith(c, random.dataKey, body, header) == Some(plain)
      && LaidOut(Sealed(c, s, plain, password, random).value, random.salt, wrapped,
                 InstanceWrapped(c, s.instance, random), body)
  {
    InstanceWrappedShape(c, s, random);
    TheKeyIsWrapped(c, password, random);
    var wrapped := PasswordWrapped(c, password, random);
    var header := EnvelopeHeader(c, s, password, random);
    UnsealUndoesSeal(c, random.dataKey, random.bodyNonce, plain, header);
    Layout(random.salt, wrapped, InstanceWrapped(c, s.instance, random),
           SealWith(c, random.dataKey, random.bodyNonce, plain, header));
  }

  // ---------------------------------------------------------------- round trips

  lemma LaidOutMeasures(
      decoder: Settings, bytes: Bytes, salt: Bytes, passwordWrapped: Bytes, instanceWrapped: Bytes, body: Bytes)
    requires |instanceWrapped| <= MAX_INSTANCE_KEY_BYTES && |body| >= SEAL_BYTES
    requires LaidOut(bytes, salt, passwordWrapped, instanceWrapped, body)
    ensures Measured(decoder, bytes)
      == if |body| - SEAL_BYTES <= decoder.maxPlainBytes then Ok(FIXED_HEADER_BYTES + |instanceWrapped|)
         else Err(LimitExceeded)
  {
  }

  /** A real envelope is refused by a length check exactly when its plaintext is over the decoder's limit. */
  lemma RealEnvelopeMeasures(
      c: Primitives, s: Settings, plain: Bytes, password: Text, random: Random, decoder: Settings)
    requires Seals(c, s, plain, password, random)
    ensures |InstanceWrapped(c, s.instance, random)| <= 101
    ensures Sealed(c, s, plain, password, random).Ok?
    ensures var bytes := Sealed(c, s, plain, password, random).value;
      var instance := |InstanceWrapped(c, s.instance, random)|;
      && |bytes| == FIXED_HEADER_BYTES + instance + SEAL_BYTES + |plain|
      && Measured(decoder, bytes)
           == if |plain| <= decoder.maxPlainBytes then Ok(FIXED_HEADER_BYTES + instance) else Err(LimitExceeded)
  {
    RealEnvelope(c, s, plain, password, random);
    var header := EnvelopeHeader(c, s, password, random);
    LaidOutMeasures(decoder, Sealed(c, s, plain, password, random).value, random.salt,
                    PasswordWrapped(c, password, random), InstanceWrapped(c, s.instance, random),
                    SealWith(c, random.dataKey, random.bodyNonce, plain, header));
  }

  lemma PasswordGivesTheKey(
      c: Primitives, s: Settings, plain: Bytes, password: Text, random: Random)
    requires Seals(c, s, plain, password, random)
    ensures |InstanceWrapped(c, s.instance, random)| <= 101
    ensures var bytes := Sealed(c, s, plain, password, random).value;
      |bytes| >= FIXED_HEADER_BYTES && KeyByPassword(c, bytes, Some(password), true) == Ok(random.dataKey)
  {
    RealEnvelope(c, s, plain, password, random);
  }

  lemma TheKeyOpensTheBody(
      c: Primitives, s: Settings, plain: Bytes, password: Text, random: Random)
    requires Seals(c, s, plain, password, random)
    ensures |InstanceWrapped(c, s.instance, random)| <= 101
    ensures var bytes := Sealed(c, s, plain, password, random).value;
      var end := FIXED_HEADER_BYTES + |InstanceWrapped(c, s.instance, random)|;
      && end + SEAL_BYTES <= |bytes|
      && bytes[FIXED_HEADER_BYTES..end] == InstanceWrapped(c, s.instance, random)
      && Body(c, random.dataKey, bytes, end) == Ok(plain)
  {
    RealEnvelope(c, s, plain, password, random);
  }

  /** The instance's own wrapping gives the data key back. */
  lemma InstanceGivesTheKey(c: Primitives, s: Settings, random: Random)
    requires Real(c, s, random) && s.instance.Some?
    ensures InstanceKey(c, s.instance, InstanceWrapped(c, s.instance, random)) == Some(random.dataKey)
  {
    WrappedLetters(c, s.instance.value, random.boxNonce, random.dataKey, InstanceScope());
    Base64Url.ReadUndoesWritten(random.dataKey);
    var text := Encrypt(c, s.instance.value, random.boxNonce, Base64Url.Written(random.dataKey), InstanceScope()).value;
    AsciiTravels(text);
    assert InstanceWrapped(c, s.instance, random) == AsciiBytes(text);
  }

  /** What a decoder's own box makes of the envelope: nothing, or the data key. */
  predicate OwnKeyOrNone(c: Primitives, s: Settings, random: Random, decoder: Settings) {
    var own := InstanceKey(c, decoder.instance, InstanceWrapped(c, s.instance, random));
    own.None? || own == Some(random.dataKey)
  }

  /**
    With the same box, with none, or with one that does not open the wrapped key, decoding under the
    password gives the plaintext back.
   */
  lemma PasswordOpensEverywhere(
      c: Primitives, s: Settings, plain: Bytes, password: Text, random: Random, decoder: Settings)
    requires Seals(c, s, plain, password, random)
    requires |plain| <= decoder.maxPlainBytes && OwnKeyOrNone(c, s, random, decoder)
    ensures |InstanceWrapped(c, s.instance, random)| <= 101
    ensures Opened(c, decoder, Sealed(c, s, plain, password, random).value, Some(password), true) == Ok(plain)
  {
    RealEnvelopeMeasures(c, s, plain, password, random, decoder);
    PasswordGivesTheKey(c, s, plain, password, random);
    TheKeyOpensTheBody(c, s, plain, password, random);
  }

  /** The decoder's box leads to the data key or to nothing when it is the same, absent, or does not decrypt. */
  lemma WhenTheOwnKeyIsRight(c: Primitives, s: Settings, random: Random, decoder: Settings)
    requires Real(c, s, random)
    requires
      || decoder.instance.None?
      || s.instance.None?
      || decoder.instance == s.instance
      || Decrypt(c, decoder.instance.value, AsciiText(InstanceWrapped(c, s.instance, random)), InstanceScope()).Err?
    ensures OwnKeyOrNone(c, s, random, decoder)
  {
    if decoder.instance == s.instance && s.instance.Some? {
      InstanceGivesTheKey(c, s, random);
    }
  }

  /** On the sealing instance the password is never asked for, and a wrong or missing one does not matter. */
  lemma OwnInstanceNeedsNoPassword(
      c: Primitives, s: Settings, plain: Bytes, password: Text, random: Random, decoder: Settings,
      given: Option<Text>, derives: bool)
    requires Seals(c, s, plain, password, random)
    requires |plain| <= decoder.maxPlainBytes && s.instance.Some? && decoder.instance == s.instance
    ensures |InstanceWrapped(c, s.instance, random)| <= 101
    ensures Opened(c, decoder, Sealed(c, s, plain, password, random).value, given, derives) == Ok(plain)
  {
    RealEnvelopeMeasures(c, s, plain, password, random, decoder);
    InstanceGivesTheKey(c, s, random);
    TheKeyOpensTheBody(c, s, plain, password, random);
  }

  /** Without a password, a real envelope within the limit asks for one exactly when the box yields no key. */
  lemma PasswordRequiredExactlyWithoutTheKey(
      c: Primitives, s: Settings, plain: Bytes, password: Text, random: Random, decoder: Settings,
      given: Option<Text>, derives: bool)
    requires Seals(c, s, plain, password, random)
    requires given.None? || given.value == []
    ensures |InstanceWrapped(c, s.instance, random)| <= 101
    ensures Opened(c, decoder, Sealed(c, s, plain, password, random).value, given, derives) == Err(PasswordRequired)
      <==> |plain| <= decoder.maxPlainBytes
           && InstanceKey(c, decoder.instance, InstanceWrapped(c, s.instance, random)).None?
  {
    RealEnvelopeMeasures(c, s, plain, password, random, decoder);
    TheKeyOpensTheBody(c, s, plain, password, random);
  }

  // ---------------------------------------------------------------- the methods and their key buffers

  ghost predicate Erased(buffer: array<Byte>)
    reads buffer
  {
    forall i | 0 <= i < buffer.Length :: buffer[i] == 0
  }

  ghost predicate AllErased(buffers: seq<array<Byte>>)
    reads buffers
  {
    forall i | 0 <= i < |buffers| :: Erased(buffers[i])
  }

  function Listed(buffer: array?<Byte>): (buffers: seq<array<Byte>>) {
    if buffer == null then [] else [buffer]
  }

  method Erase(buffer: array<Byte>)
    modifies buffer
    ensures Erased(buffer)
  {
    forall i | 0 <= i < buffer.Length {
      buffer[i] := 0;
    }
  }

  method ToBuffer(bytes: Bytes) returns (buffer: array<Byte>)
    ensures fresh(buffer) && buffer[..] == bytes
  {
    buffer := new Byte[|bytes|](i requires 0 <= i < |bytes| => bytes[i]);
  }

  /** How many keys the box's wrapping brings to light that do not qualify as the data key. */
  function RejectedKeys(c: Primitives, instance: Option<Bytes>, wrapped: Bytes): nat {
    if wrapped != [] && instance.Some? && InstanceKey(c, instance, wrapped).None?
       && Decrypt(c, instance.value, AsciiText(wrapped), InstanceScope()).Ok?
    then 1 else 0
  }

  /** How many keys are held in the clear on the way to the data key, without it. */
  function KeysSpent(
      c: Primitives, s: Settings, bytes: Bytes, headerLength: nat, password: Option<Text>, derives: bool): nat
    requires FIXED_HEADER_BYTES <= headerLength <= |bytes|
  {
    var wrapped := bytes[FIXED_HEADER_BYTES..headerLength];
    RejectedKeys(c, s.instance, wrapped) +
    if InstanceKey(c, s.instance, wrapped).Some? then 0
    else match KeyByPassword(c, bytes, password, derives)
      case Err(e) => if e == OpenFailed then 1 else 0
      case Ok(_) => 1
  }

  /** How many keys a decode holds in the clear. */
  function KeysHeld(c: Primitives, s: Settings, bytes: Bytes, password: Option<Text>, derives: bool): nat {
    match Measured(s, bytes)
    case Err(_) => 0
    case Ok(headerLength) =>
      KeysSpent(c, s, bytes, headerLength, password, derives)
      + if DataKey(c, s, bytes, headerLength, password, derives).Ok? then 1 else 0
  }

  class Sealer {
    const settings: Settings

    constructor (settings: Settings)
      requires Configured(settings)
      ensures this.settings == settings
    {
      this.settings := settings;
    }

    /** The constructor's own check of its limit. */
    static method Create(maxPlainBytes: int, instance: Option<Bytes>) returns (r: Result<Sealer, SealFailure>)
      requires instance.Some? ==> |instance.value| == KEY_BYTES
      ensures r.Ok? <==> 1 <= maxPlainBytes <= MAX_SAFE_INTEGER
      ensures r.Ok? ==> fresh(r.value) && r.value.settings == Settings(maxPlainBytes, instance)
      ensures r.Err? ==> r.error == InvalidInput
    {
      if maxPlainBytes < 1 || maxPlainBytes > MAX_SAFE_INTEGER {
        return Err(InvalidInput);
      }
      var sealer := new Sealer(Settings(maxPlainBytes, instance));
      return Ok(sealer);
    }

    /**
      `dataKey` is the buffer of random bytes and `passwordSecret` the one the key derivation fills; both
      are erased whenever they were used, and untouched otherwise.
     */
    method Encode(c: Primitives, plain: Bytes, password: Text, random: Random,
                  passwordSecret: array<Byte>, dataKey: array<Byte>)
      returns (r: Result<Bytes, SealFailure>)
      requires Real(c, settings, random)
      requires passwordSecret.Length == KEY_BYTES && dataKey.Length == KEY_BYTES && passwordSecret != dataKey
      modifies passwordSecret, dataKey
      ensures |InstanceWrapped(c, settings.instance, random)| <= 101
      ensures r == Sealed(c, settings, plain, password, random)
      ensures r.Ok? ==> Erased(passwordSecret) && Erased(dataKey)
      ensures r.Err? ==> passwordSecret[..] == old(passwordSecret[..]) && dataKey[..] == old(dataKey[..])
    {
      InstanceWrappedShape(c, settings, random);
      if |plain| > settings.maxPlainBytes {
        return Err(LimitExceeded);
      }
      if !AcceptsPassword(password) {
        return Err(InvalidInput);
      }
      if !random.derives {
        return Err(Unavailable);
      }
      var derived := c.derive(password, random.salt);
      forall i | 0 <= i < KEY_BYTES {
        passwordSecret[i] := derived[i];
      }
      forall i | 0 <= i < KEY_BYTES {
        dataKey[i] := random.dataKey[i];
      }
      assert passwordSecret[..] == derived && dataKey[..] == random.dataKey;
      var prefix := Magic() + random.salt;
      var passwordWrapped := SealWith(c, passwordSecret[..], random.wrapNonce, dataKey[..], prefix);
      var instanceWrapped := InstanceWrapped(c, settings.instance, random);
      var header := prefix + passwordWrapped + Length16(|instanceWrapped|) + instanceWrapped;
      r := Ok(header + SealWith(c, dataKey[..], random.bodyNonce, plain, header));
      Erase(passwordSecret);
      Erase(dataKey);
    }

    /** Every buffer that held a key during the call is in `keys`, and is erased. */
    method Decode(c: Primitives, input: Bytes, password: Option<Text>, derives: bool)
      returns (r: Result<Bytes, SealFailure>, keys: seq<array<Byte>>)
      requires c.Lawful()
      ensures r == Opened(c, settings, input, password, derives)
      ensures fresh(keys) && AllErased(keys)
      ensures |keys| == KeysHeld(c, settings, input, password, derives)
    {
      keys := [];
      match Measured(settings, input)
      case Err(e) =>
        r := Err(e);
      case Ok(headerLength) =>
        var failure, dataKey, spent := FindDataKey(c, input, headerLength, password, derives);
        keys := spent;
        if failure.Some? {
          return Err(failure.value), keys;
        }
        r := Body(c, dataKey[..], input, headerLength);
        Erase(dataKey);
        keys := keys + [dataKey];
    }

    method FindDataKey(c: Primitives, input: Bytes, headerLength: nat, password: Option<Text>, derives: bool)
      returns (failure: Option<SealFailure>, dataKey: array?<Byte>, spent: seq<array<Byte>>)
      requires FIXED_HEADER_BYTES <= headerLength <= |input|
      ensures match DataKey(c, settings, input, headerLength, password, derives)
        case Err(e) => failure == Some(e)
        case Ok(key) => failure == None && dataKey != null && fresh(dataKey) && dataKey[..] == key
      ensures |spent| == KeysSpent(c, settings, input, headerLength, password, derives)
      ensures fresh(spent) && AllErased(spent) && dataKey !in spent
    {
      var own, rejected := TryInstance(c, input[FIXED_HEADER_BYTES..headerLength]);
      if own != null {
        return None, own, Listed(rejected);
      }
      var refusal, unwrapped, derived := UnwrapByPassword(c, input, password, derives);
      return refusal, unwrapped, Listed(rejected) + Listed(derived);
    }

    /** The data key unwrapped under the password, in a fresh buffer; `derived` held the password's key. */
    method UnwrapByPassword(c: Primitives, input: Bytes, password: Option<Text>, derives: bool)
      returns (failure: Option<SealFailure>, dataKey: array?<Byte>, derived: array?<Byte>)
      requires |input| >= FIXED_HEADER_BYTES
      ensures match KeyByPassword(c, input, password, derives)
        case Err(e) => failure == Some(e) && dataKey == null && (derived != null <==> e == OpenFailed)
        case Ok(key) => failure == None && dataKey != null && fresh(dataKey) && dataKey[..] == key && derived != null
      ensures derived != null ==> fresh(derived) && Erased(derived) && derived != dataKey
    {
      failure, dataKey, derived := None, null, null;
      if password.None? || password.value == [] {
        return Some(PasswordRequired), null, null;
      }
      if !AcceptsPassword(password.value) {
        return Some(InvalidInput), null, null;
      }
      if !derives {
        return Some(Unavailable), null, null;
      }
      var key := ToBuffer(c.derive(password.value, input[MAGIC_BYTES..PREFIX_BYTES]));
      var unwrapped := UnsealWith(
        c, key[..], input[PREFIX_BYTES..PREFIX_BYTES + WRAPPED_KEY_BYTES], input[..PREFIX_BYTES]);
      Erase(key);
      derived := key;
      if unwrapped.None? {
        return Some(OpenFailed), null, key;
      }
      dataKey := ToBuffer(unwrapped.value);
    }

    /** The instance key in a fresh buffer, if the box yields one; `rejected` held a key that did not qualify. */
    method TryInstance(c: Primitives, wrapped: Bytes)
      returns (own: array?<Byte>, rejected: array?<Byte>)
      ensures own == null <==> InstanceKey(c, settings.instance, wrapped).None?
      ensures own != null ==> fresh(own) && own[..] == InstanceKey(c, settings.instance, wrapped).value
      ensures rejected != null <==> RejectedKeys(c, settings.instance, wrapped) == 1
      ensures rejected != null ==> fresh(rejected) && Erased(rejected) && rejected != own
    {
      own, rejected := null, null;
      if wrapped == [] || settings.instance.None? {
        return;
      }
      var decrypted := Decrypt(c, settings.instance.value, AsciiText(wrapped), InstanceScope());
      if decrypted.Err? {
        return;
      }
      var key := ToBuffer(Base64Url.Read(decrypted.value));
      if key.Length == KEY_BYTES && Base64Url.Written(key[..]) == decrypted.value {
        own := key;
        return;
      }
      Erase(key);
      rejected := key;
    }
  }
}
