/** The signing key set: the kid header, the signature, and the published document
    (issuer/signer.go, and the set itself from issuer/keys.go). */
module Signer {
  import opened Errors
  import opened Jwk
  import opened Wire

  datatype SigningKey = SigningKey(keyID: string, key: Option<PrivateKey>)
  datatype PublishedKey = PublishedKey(keyID: string, key: Option<PublicKey>)
  datatype KeySet = KeySet(signing: SigningKey, published: seq<PublishedKey>)

  function Bits(c: Curve): nat {
    match c case P256 => 256 case OtherCurve(bits) => bits
  }

  /** `signer.sign` under what the key provider answered. */
  function Sign(keys: Result<KeySet>, payload: Payload): Result<Token> {
    match keys
    case Err(e) => Err(Wrapping(ErrKeyProvider, e))
    case Ok(k) =>
      if k.signing.keyID == "" then Err(Plain(ErrMissingSigningKeyID))
      else if k.signing.key.None? then Err(Plain(ErrMissingSigningKey))
      else if Bits(k.signing.key.value.public.curve) != 256 then Err(Plain(ErrSign))
      else
        var header := Header(ALGORITHM, Some("JWT"), Some(k.signing.keyID));
        Ok(Token(header, payload, SignedBy(k.signing.key.value.public, header, payload)))
  }

  function Appended(jwks: seq<JWK>, rest: Result<seq<JWK>>): Result<seq<JWK>> {
    match rest case Err(e) => Err(e) case Ok(more) => Ok(jwks + more)
  }

  /** The published keys after the signing key, refused at the first repeated kid or key that
      cannot be described. */
  function DescribeRest(published: seq<PublishedKey>, seen: set<string>): Result<seq<JWK>> {
    if published == [] then Ok([])
    else if published[0].keyID in seen then Err(Plain(ErrDuplicateKeyID))
    else match NewJWK(published[0].keyID, published[0].key)
      case Err(e) => Err(Wrapping(ErrDescribeKey, e))
      case Ok(jwk) =>
        Appended([jwk], DescribeRest(published[1..], seen + {published[0].keyID}))
  }

  function Document(keys: Result<KeySet>): Result<seq<JWK>> {
    match keys
    case Err(e) => Err(Wrapping(ErrKeyProvider, e))
    case Ok(k) =>
      if k.signing.key.None? then Err(Plain(ErrMissingSigningKey))
      else match NewJWK(k.signing.keyID, Some(k.signing.key.value.public))
        case Err(e) => Err(Wrapping(ErrDescribeKey, e))
        case Ok(signing) =>
          Appended([signing], DescribeRest(k.published, {signing.keyID}))
  }

  /** One more key described, one fewer to go. */
  lemma DescribeStep(jwks: seq<JWK>, published: seq<PublishedKey>, seen: set<string>)
    requires published != [] && published[0].keyID !in seen
    requires NewJWK(published[0].keyID, published[0].key).Ok?
    ensures var jwk := NewJWK(published[0].keyID, published[0].key).value;
            Appended(jwks, DescribeRest(published, seen))
              == Appended(jwks + [jwk], DescribeRest(published[1..], seen + {published[0].keyID}))
  {
    var jwk := NewJWK(published[0].keyID, published[0].key).value;
    var rest := DescribeRest(published[1..], seen + {published[0].keyID});
    if rest.Ok? { assert jwks + ([jwk] + rest.value) == jwks + [jwk] + rest.value; }
  }

  /** `signer.jwks`: the loop that fills the document. */
  method Publish(keys: Result<KeySet>) returns (document: Result<seq<JWK>>)
    ensures document == Document(keys)
  {
    if keys.Err? {
      return Err(Wrapping(ErrKeyProvider, keys.error));
    }
    if keys.value.signing.key.None? {
      return Err(Plain(ErrMissingSigningKey));
    }
    var signing := NewJWK(keys.value.signing.keyID, Some(keys.value.signing.key.value.public));
    if signing.Err? {
      return Err(Wrapping(ErrDescribeKey, signing.error));
    }
    var published := keys.value.published;
    var jwks := [signing.value];
    var seen := {signing.value.keyID};
    var i := 0;
    while i < |published|
      invariant 0 <= i <= |published|
      invariant Document(keys) == Appended(jwks, DescribeRest(published[i..], seen))
    {
      var next := published[i];
      ghost var rest := published[i..];
      assert rest[0] == next && rest[1..] == published[i + 1..];
      if next.keyID in seen {
        return Err(Plain(ErrDuplicateKeyID));
      }
      var key := NewJWK(next.keyID, next.key);
      if key.Err? {
        return Err(Wrapping(ErrDescribeKey, key.error));
      }
      DescribeStep(jwks, rest, seen);
      jwks := jwks + [key.value];
      seen := seen + {next.keyID};
      i := i + 1;
    }
    assert published[i..] == [] && jwks + [] == jwks;
    return Ok(jwks);
  }

  /** The set as one list of named public keys, the signing key first. */
  function Named(k: KeySet): seq<PublishedKey> {
    [PublishedKey(k.signing.keyID, if k.signing.key.None? then None else Some(k.signing.key.value.public))]
    + k.published
  }

  predicate Nameable(key: PublishedKey) {
    key.keyID != "" && key.key.Some? && Usable(key.key.value)
  }

  predicate DistinctKids(keys: seq<PublishedKey>) {
    forall i, j :: 0 <= i < j < |keys| ==> keys[i].keyID != keys[j].keyID
  }

  predicate Publishable(keys: seq<PublishedKey>) {
    && (forall i :: 0 <= i < |keys| ==> Nameable(keys[i]))
    && DistinctKids(keys)
  }

  predicate Describes(document: seq<JWK>, keys: seq<PublishedKey>) {
    && |document| == |keys|
    && forall i :: 0 <= i < |keys| ==> Ok(document[i]) == NewJWK(keys[i].keyID, keys[i].key)
  }

  predicate UnseenIn(keys: seq<PublishedKey>, seen: set<string>) {
    forall i :: 0 <= i < |keys| ==> keys[i].keyID !in seen
  }

  lemma PublishableSplit(keys: seq<PublishedKey>, seen: set<string>)
    requires keys != []
    ensures Publishable(keys) && UnseenIn(keys, seen) <==>
            && Nameable(keys[0]) && keys[0].keyID !in seen
            && Publishable(keys[1..]) && UnseenIn(keys[1..], seen + {keys[0].keyID})
  {
    var rest := keys[1..];
    assert forall i :: 0 < i < |keys| ==> keys[i] == rest[i - 1];
    assert forall i :: 0 <= i < |rest| ==> rest[i] == keys[i + 1];
  }

  lemma {:induction false} DescribeRestCorrect(published: seq<PublishedKey>, seen: set<string>)
    ensures var r := DescribeRest(published, seen);
            && (r.Ok? <==> Publishable(published) && UnseenIn(published, seen))
            && (r.Ok? ==> Describes(r.value, published))
  {
    if published != [] {
      NewJWKAccepts(published[0].keyID, published[0].key);
      PublishableSplit(published, seen);
      DescribeRestCorrect(published[1..], seen + {published[0].keyID});
    }
  }

  /** The whole set is publishable exactly when its signing key and its published keys are, and
      the signing kid is not published again. */
  lemma NamedIsPublishable(k: KeySet)
    ensures Publishable(Named(k)) <==>
            && Nameable(Named(k)[0]) && Publishable(k.published)
            && forall i :: 0 <= i < |k.published| ==> k.published[i].keyID != k.signing.keyID
  {
    var all := Named(k);
    assert forall i :: 0 < i < |all| ==> all[i] == k.published[i - 1];
    assert forall i :: 0 <= i < |k.published| ==> k.published[i] == all[i + 1];
    if Publishable(all) {
      forall i, j | 0 <= i < j < |k.published| ensures k.published[i].keyID != k.published[j].keyID {
        assert all[i + 1].keyID != all[j + 1].keyID;
      }
      forall i | 0 <= i < |k.published| ensures k.published[i].keyID != k.signing.keyID {
        assert all[0].keyID != all[i + 1].keyID;
      }
    }
  }

  /** The document is refused exactly when some key cannot be named or a kid repeats; otherwise it
      lists the signing key and every published key, in order and under their kids. */
  lemma DocumentCorrect(k: KeySet)
    ensures Document(Ok(k)).Ok? <==> Publishable(Named(k))
    ensures Document(Ok(k)).Ok? ==> Describes(Document(Ok(k)).value, Named(k))
  {
    var first := Named(k)[0];
    NewJWKAccepts(first.keyID, first.key);
    DescribeRestCorrect(k.published, {k.signing.keyID});
    NamedIsPublishable(k);
    assert forall i :: 0 < i < |Named(k)| ==> Named(k)[i] == k.published[i - 1];
  }
}
