/** P-256 public keys and their JWK form (jwk.go; section 6.2.1 of RFC 7518). */
module Jwk {
  import opened Errors
  import opened Base64Url
  import Field

  datatype Curve = P256 | OtherCurve(bits: nat)

  datatype PublicKey = PublicKey(curve: Curve, x: nat, y: nat)

  /** A private key is identified with the public key it belongs to. */
  datatype PrivateKey = PrivateKey(public: PublicKey)

  datatype JWK = JWK(
    keyType: string, curve: string, keyID: string, use: string, algorithm: string,
    x: string, y: string)

  const ALGORITHM := "ES256"
  const KEY_TYPE := "EC"
  const CURVE := "P-256"
  const KEY_USE := "sig"

  const COORDINATE_LENGTH: nat := 32
  const FIELD_PRIME: nat := 0xffffffff00000001000000000000000000000000ffffffffffffffffffffffff
  const CURVE_B: nat := 0x5ac635d8aa3a93e7b3ebbd55769886bc651d06b0cc53b0f63bce3c3e27d2604b

  /** The point check of `ecdsa.ParseUncompressedPublicKey` and of `PublicKey.Bytes`. */
  predicate OnCurve(x: nat, y: nat) {
    Field.OnCurve(x, y, CURVE_B, FIELD_PRIME)
  }

  predicate Usable(key: PublicKey) {
    key.curve == P256 && OnCurve(key.x, key.y)
  }

  /** The generator of the group, the one point every description of the curve names. */
  const BASE_POINT := PublicKey(
    P256,
    0x6b17d1f2e12c4247f8bce6e563a440f277037d812deb33a0f4a13945d898c296,
    0x4fe342e2fe1a7f9b8ee7eb4a7c0f9e162bce33576b315ececbb6406837bf51f5)

  lemma BasePointIsUsable()
    ensures Usable(BASE_POINT)
  {
    Field.OnCurveBy(
      0x6b17d1f2e12c4247f8bce6e563a440f277037d812deb33a0f4a13945d898c296,
      0x4fe342e2fe1a7f9b8ee7eb4a7c0f9e162bce33576b315ececbb6406837bf51f5,
      0x5ac635d8aa3a93e7b3ebbd55769886bc651d06b0cc53b0f63bce3c3e27d2604b,
      0xffffffff00000001000000000000000000000000ffffffffffffffffffffffff,
      0x12bdd1ad23dfc833dccf5f6141d6bb4a1f365dc1430b0e600b52dd851938d2d6
      * 0x10000000000000000000000000000000000000000000000000000000000000000
      + 0x933106a72efbf035fdaf43963b37fd5456e90c6581a8fb7a0d8a46a3629f0458);
  }

  /** Its inverse: the other point over the same `x`. */
  const MIRROR_POINT := PublicKey(
    P256,
    0x6b17d1f2e12c4247f8bce6e563a440f277037d812deb33a0f4a13945d898c296,
    0xb01cbd1c01e58065711814b583f061e9d431cca994cea1313449bf97c840ae0a)

  lemma MirrorPointIsUsable()
    ensures Usable(MIRROR_POINT)
  {
    Field.OnCurveBy(
      0x6b17d1f2e12c4247f8bce6e563a440f277037d812deb33a0f4a13945d898c296,
      0xb01cbd1c01e58065711814b583f061e9d431cca994cea1313449bf97c840ae0a,
      0x5ac635d8aa3a93e7b3ebbd55769886bc651d06b0cc53b0f63bce3c3e27d2604b,
      0xffffffff00000001000000000000000000000000ffffffffffffffffffffffff,
      0x12bdd1ad23dfc833dccf5f6141d6bb4a1f365dc1430b0e600b52dd851938d2d6
      * 0x10000000000000000000000000000000000000000000000000000000000000000
      + 0x32f78c6e2b30ef6c1b7f1a2b33573980ae857313580bb917a4f6c773d21da843);
  }

  /** Big-endian fixed-width octets of a field element. */
  function Octets(n: nat, width: nat): (b: seq<Byte>)
    ensures |b| == width
  {
    if width == 0 then [] else Octets(n / 256, width - 1) + [n % 256]
  }

  function Magnitude(b: seq<Byte>): nat {
    if b == [] then 0 else Magnitude(b[..|b| - 1]) * 256 + b[|b| - 1]
  }

  function Radix(width: nat): (r: nat)
    ensures r > 0
  {
    if width == 0 then 1 else 256 * Radix(width - 1)
  }

  /** `ecdsa.PublicKey.Bytes` on a P-256 key: the 65-byte uncompressed point. */
  function Uncompressed(key: PublicKey): seq<Byte>
    requires key.curve == P256
  {
    [4] + Octets(key.x, COORDINATE_LENGTH) + Octets(key.y, COORDINATE_LENGTH)
  }

  function NewJWK(keyID: string, key: Option<PublicKey>): Result<JWK> {
    if keyID == "" then Err(Plain(ErrMissingKeyID))
    else if key.None? then Err(Plain(ErrMissingKey))
    else if key.value.curve != P256 then Err(Plain(ErrUnsupportedCurve))
    else if !OnCurve(key.value.x, key.value.y) then Err(Plain(ErrEncodeKey))
    else
      var encoded := Uncompressed(key.value);
      Ok(JWK(KEY_TYPE, CURVE, keyID, KEY_USE, ALGORITHM, Encode(encoded[1..33]), Encode(encoded[33..])))
  }

  function Coordinate(encoded: string): Result<seq<Byte>> {
    match Decode(encoded)
    case None => Err(Plain(ErrDecodeCoordinate))
    case Some(decoded) =>
      if |decoded| != COORDINATE_LENGTH then Err(Plain(ErrUnexpectedKeyLength)) else Ok(decoded)
  }

  function ToPublicKey(key: JWK): Result<PublicKey> {
    if key.keyID == "" then Err(Plain(ErrMissingKeyID))
    else if key.keyType != KEY_TYPE then Err(Plain(ErrUnsupportedKeyType))
    else if key.curve != CURVE then Err(Plain(ErrUnsupportedCurve))
    else if key.algorithm != ALGORITHM then Err(Plain(ErrUnsupportedAlgorithm))
    else if key.use != KEY_USE then Err(Plain(ErrUnsupportedKeyUse))
    else match Coordinate(key.x)
      case Err(e) => Err(e)
      case Ok(x) =>
        match Coordinate(key.y)
        case Err(e) => Err(e)
        case Ok(y) =>
          if OnCurve(Magnitude(x), Magnitude(y))
          then Ok(PublicKey(P256, Magnitude(x), Magnitude(y)))
          else Err(Plain(ErrInvalidPublicKey))
  }

  lemma {:induction false} OctetsRoundTrip(n: nat, width: nat)
    requires n < Radix(width)
    ensures Magnitude(Octets(n, width)) == n
  {
    if width > 0 {
      OctetsRoundTrip(n / 256, width - 1);
      var b := Octets(n, width);
      assert b[..width - 1] == Octets(n / 256, width - 1);
    }
  }

  lemma {:induction false} MagnitudeRoundTrip(b: seq<Byte>)
    ensures Octets(Magnitude(b), |b|) == b
    ensures Magnitude(b) < Radix(|b|)
  {
    if b != [] {
      MagnitudeRoundTrip(b[..|b| - 1]);
      assert Magnitude(b) / 256 == Magnitude(b[..|b| - 1]);
      assert b == b[..|b| - 1] + [b[|b| - 1]];
    }
  }

  lemma {:induction false} RadixSplit(a: nat, b: nat)
    ensures Radix(a + b) == Radix(a) * Radix(b)
  {
    if b > 0 {
      RadixSplit(a, b - 1);
      assert Radix(a + b) == 256 * Radix(a + b - 1);
      assert Radix(b) == 256 * Radix(b - 1);
      assert 256 * (Radix(a) * Radix(b - 1)) == Radix(a) * (256 * Radix(b - 1));
    }
  }

  lemma FieldElementsFit()
    ensures FIELD_PRIME < Radix(COORDINATE_LENGTH)
  {
    assert Radix(4) == 0x1_0000_0000;
    RadixSplit(4, 4);
    RadixSplit(8, 8);
    RadixSplit(16, 16);
  }

  /** Describing a usable key succeeds and the verifier reads the same key back. */
  lemma RoundTrip(keyID: string, key: PublicKey)
    requires keyID != "" && Usable(key)
    ensures var jwk := NewJWK(keyID, Some(key));
            && jwk.Ok? && jwk.value.keyID == keyID
            && Canonical(jwk.value.x) && Canonical(jwk.value.y)
            && |jwk.value.x| == 43 && |jwk.value.y| == 43
            && ToPublicKey(jwk.value) == Ok(key)
  {
    var encoded := Uncompressed(key);
    var x, y := Octets(key.x, COORDINATE_LENGTH), Octets(key.y, COORDINATE_LENGTH);
    assert encoded[1..33] == x && encoded[33..] == y;
    Base64Url.RoundTrip(x);
    Base64Url.RoundTrip(y);
    FieldElementsFit();
    OctetsRoundTrip(key.x, COORDINATE_LENGTH);
    OctetsRoundTrip(key.y, COORDINATE_LENGTH);
  }

  /** `NewJWK` accepts exactly the named usable keys. */
  lemma NewJWKAccepts(keyID: string, key: Option<PublicKey>)
    ensures NewJWK(keyID, key).Ok? <==> keyID != "" && key.Some? && Usable(key.value)
  {}

  /** Any JWK the decoder accepts, canonical or not, can be described again; the new text is
      canonical, names the same key, and equals the old one exactly when that was canonical. */
  lemma Redescribe(jwk: JWK)
    requires ToPublicKey(jwk).Ok?
    ensures var again := NewJWK(jwk.keyID, Some(ToPublicKey(jwk).value));
            && again.Ok?
            && ToPublicKey(again.value) == ToPublicKey(jwk)
            && (again.value == jwk <==> Canonical(jwk.x) && Canonical(jwk.y))
  {
    var key := ToPublicKey(jwk).value;
    RoundTrip(jwk.keyID, key);
    var x, y := Coordinate(jwk.x).value, Coordinate(jwk.y).value;
    MagnitudeRoundTrip(x);
    MagnitudeRoundTrip(y);
    var encoded := Uncompressed(key);
    assert encoded[1..33] == x && encoded[33..] == y;
    ReencodeIffCanonical(jwk.x);
    ReencodeIffCanonical(jwk.y);
  }

  /** The octets are the digits of the number, most significant first. */
  lemma {:induction false} OctetAt(n: nat, width: nat, k: nat)
    requires k < width
    ensures Octets(n, width)[k] == (n / Radix(width - 1 - k)) % 256
  {
    if k < width - 1 {
      OctetAt(n / 256, width - 1, k);
      DivideTwice(n, Radix(width - 2 - k));
    }
  }

  lemma DivideTwice(n: nat, d: nat)
    requires d > 0
    ensures (n / 256) / d == n / (256 * d)
  {
    var q := (n / 256) / d;
    var r := (n / 256) % d;
    assert n == 256 * (q * d + r) + n % 256;
    assert n == q * (256 * d) + (256 * r + n % 256);
    assert 256 * r + n % 256 < 256 * d;
    Field.RemainderIsUnique(n, q, 256 * r + n % 256, 256 * d);
    assert (n / (256 * d)) * (256 * d) == q * (256 * d);
    SameFactor(n / (256 * d), q, 256 * d);
  }

  lemma SameFactor(a: int, b: int, d: nat)
    requires d > 0 && a * d == b * d
    ensures a == b
  {
    Field.Multiple(a - b, d);
    assert (a - b) * d == 0;
  }

  /** The names a verifier insists on: type, curve, algorithm and use. */
  predicate ForVerifying(jwk: JWK) {
    && jwk.keyID != "" && jwk.keyType == "EC" && jwk.curve == "P-256"
    && jwk.algorithm == "ES256" && jwk.use == "sig"
  }

  /** Which key a JWK describes, if any: the point on the curve whose coordinates, as 32 octets each,
      are what its two texts decode to. */
  lemma PublicKeyIff(jwk: JWK, key: PublicKey)
    ensures ToPublicKey(jwk) == Ok(key) <==>
            && ForVerifying(jwk) && Usable(key)
            && Decode(jwk.x) == Some(Octets(key.x, 32)) && Decode(jwk.y) == Some(Octets(key.y, 32))
  {
    CoordinateIs(jwk.x, key.x);
    CoordinateIs(jwk.y, key.y);
  }

  lemma CoordinateIs(text: string, n: nat)
    ensures Coordinate(text).Ok? && Magnitude(Coordinate(text).value) == n ==>
              Decode(text) == Some(Octets(n, 32))
    ensures n < FIELD_PRIME && Decode(text) == Some(Octets(n, 32)) ==>
              Coordinate(text).Ok? && Magnitude(Coordinate(text).value) == n
  {
    if Coordinate(text).Ok? { MagnitudeRoundTrip(Coordinate(text).value); }
    if n < FIELD_PRIME {
      FieldElementsFit();
      OctetsRoundTrip(n, 32);
    }
  }

  /** The JWK of a key: its kid, the names, and the two coordinates written out. */
  lemma NewJWKIs(keyID: string, key: PublicKey)
    requires keyID != "" && Usable(key)
    ensures var jwk := NewJWK(keyID, Some(key));
            && jwk.Ok? && jwk.value.keyID == keyID && ForVerifying(jwk.value)
            && Decode(jwk.value.x) == Some(Octets(key.x, 32)) && Decode(jwk.value.y) == Some(Octets(key.y, 32))
  {
    RoundTrip(keyID, key);
    PublicKeyIff(NewJWK(keyID, Some(key)).value, key);
  }
}
