/** Reading a published key set into the map a verifier looks kids up in
    (`parseKeys` of jwks/cache.go). */
module KeyDocument {
  import opened Errors
  import opened Jwk
  import opened Signer

  /** What `json.Unmarshal` made of a response body. */
  datatype JsonDocument = Undecodable(cause: Error) | Listing(keys: seq<JWK>)

  type Keys = map<string, PublicKey>

  function ReadOn(listed: seq<JWK>, keys: Keys): Result<Keys> {
    if listed == [] then Ok(keys)
    else match ToPublicKey(listed[0])
      case Err(e) => Err(Wrapping(ErrInvalidKey, e))
      case Ok(key) =>
        if listed[0].keyID in keys then Err(Plain(ErrDuplicateKeyID))
        else ReadOn(listed[1..], keys[listed[0].keyID := key])
  }

  function KeysOf(document: JsonDocument): Result<Keys> {
    match document
    case Undecodable(cause) => Err(Wrapping(ErrDecodeDocument, cause))
    case Listing(listed) => ReadOn(listed, map[])
  }

  method ParseKeys(document: JsonDocument) returns (result: Result<Keys>)
    ensures result == KeysOf(document)
  {
    if document.Undecodable? {
      return Err(Wrapping(ErrDecodeDocument, document.cause));
    }
    var listed := document.keys;
    var keys: Keys := map[];
    var i := 0;
    while i < |listed|
      invariant 0 <= i <= |listed|
      invariant KeysOf(document) == ReadOn(listed[i..], keys)
    {
      var value := listed[i];
      ghost var rest := listed[i..];
      assert rest[0] == value && rest[1..] == listed[i + 1..];
      var key := ToPublicKey(value);
      if key.Err? {
        return Err(Wrapping(ErrInvalidKey, key.error));
      }
      if value.keyID in keys {
        return Err(Plain(ErrDuplicateKeyID));
      }
      keys := keys[value.keyID := key.value];
      i := i + 1;
    }
    return Ok(keys);
  }

  predicate Readable(listed: seq<JWK>) {
    && (forall i :: 0 <= i < |listed| ==> ToPublicKey(listed[i]).Ok?)
    && forall i, j :: 0 <= i < j < |listed| ==> listed[i].keyID != listed[j].keyID
  }

  /** The map holds what it held before plus one entry per listed key. */
  predicate Holds(m: Keys, before: Keys, listed: seq<JWK>) {
    && (forall k :: k in before ==> k in m && m[k] == before[k])
    && (forall i :: 0 <= i < |listed| ==>
          listed[i].keyID in m && Ok(m[listed[i].keyID]) == ToPublicKey(listed[i]))
    && (forall k :: k in m ==> k in before || exists i :: 0 <= i < |listed| && listed[i].keyID == k)
  }

  lemma HoldsStep(m: Keys, before: Keys, listed: seq<JWK>)
    requires listed != [] && ToPublicKey(listed[0]).Ok? && listed[0].keyID !in before
    requires Holds(m, before[listed[0].keyID := ToPublicKey(listed[0]).value], listed[1..])
    ensures Holds(m, before, listed)
  {
    var head, rest := listed[0], listed[1..];
    forall i | 0 <= i < |listed|
      ensures listed[i].keyID in m && Ok(m[listed[i].keyID]) == ToPublicKey(listed[i])
    {
      if i > 0 { assert listed[i] == rest[i - 1]; }
    }
    forall k | k in m
      ensures k in before || exists i :: 0 <= i < |listed| && listed[i].keyID == k
    {
      if k !in before {
        if k == head.keyID {
          assert listed[0].keyID == k;
        } else {
          var i :| 0 <= i < |rest| && rest[i].keyID == k;
          assert listed[i + 1].keyID == k;
        }
      }
    }
  }

  predicate Unseen(listed: seq<JWK>, before: Keys) {
    forall i :: 0 <= i < |listed| ==> listed[i].keyID !in before
  }

  lemma ReadableStep(listed: seq<JWK>, before: Keys, key: PublicKey)
    requires listed != [] && ToPublicKey(listed[0]) == Ok(key) && listed[0].keyID !in before
    ensures Readable(listed) && Unseen(listed, before) <==>
            Readable(listed[1..]) && Unseen(listed[1..], before[listed[0].keyID := key])
  {
    var rest := listed[1..];
    assert forall i :: 0 < i < |listed| ==> listed[i] == rest[i - 1];
    assert forall i :: 0 <= i < |rest| ==> rest[i] == listed[i + 1];
  }

  lemma {:induction false} ReadOnCorrect(listed: seq<JWK>, before: Keys)
    ensures ReadOn(listed, before).Ok? <==> Readable(listed) && Unseen(listed, before)
    ensures ReadOn(listed, before).Ok? ==> Holds(ReadOn(listed, before).value, before, listed)
  {
    if listed != [] && ToPublicKey(listed[0]).Ok? && listed[0].keyID !in before {
      var key := ToPublicKey(listed[0]).value;
      ReadableStep(listed, before, key);
      ReadOnCorrect(listed[1..], before[listed[0].keyID := key]);
      if ReadOn(listed, before).Ok? { HoldsStep(ReadOn(listed, before).value, before, listed); }
    }
  }

  /** A document is accepted exactly when every key in it is and no kid repeats; the map then has
      one entry per listed key and nothing else. */
  lemma KeysOfCorrect(listed: seq<JWK>)
    ensures KeysOf(Listing(listed)).Ok? <==> Readable(listed)
    ensures KeysOf(Listing(listed)).Ok? ==> Holds(KeysOf(Listing(listed)).value, map[], listed)
  {
    ReadOnCorrect(listed, map[]);
  }

  lemma HoldsOneMap(m: Keys, n: Keys, listed: seq<JWK>)
    requires Holds(m, map[], listed) && Holds(n, map[], listed)
    ensures m == n
  {
    forall k | k in m ensures k in n && n[k] == m[k] {
      var i :| 0 <= i < |listed| && listed[i].keyID == k;
    }
    forall k | k in n ensures k in m {
      var i :| 0 <= i < |listed| && listed[i].keyID == k;
    }
  }

  /** What a document reads as, without naming the reader. */
  lemma KeysOfIff(listed: seq<JWK>, keys: Keys)
    ensures KeysOf(Listing(listed)) == Ok(keys) <==> Readable(listed) && Holds(keys, map[], listed)
  {
    KeysOfCorrect(listed);
    if Readable(listed) && Holds(keys, map[], listed) {
      HoldsOneMap(keys, KeysOf(Listing(listed)).value, listed);
    }
  }

  /** The map a verifier reads is the published set itself: each of its keys under its kid, and
      no other kid. */
  predicate SameKeys(m: Keys, keys: seq<PublishedKey>) {
    && (forall i :: 0 <= i < |keys| ==> keys[i].keyID in m && keys[i].key == Some(m[keys[i].keyID]))
    && (forall k :: k in m ==> exists i :: 0 <= i < |keys| && keys[i].keyID == k)
  }

  lemma DescribedIsReadable(listed: seq<JWK>, keys: seq<PublishedKey>)
    requires Publishable(keys) && Describes(listed, keys)
    ensures Readable(listed)
    ensures forall i :: 0 <= i < |keys| ==>
              listed[i].keyID == keys[i].keyID && ToPublicKey(listed[i]) == Ok(keys[i].key.value)
  {
    forall i | 0 <= i < |keys|
      ensures listed[i].keyID == keys[i].keyID && ToPublicKey(listed[i]) == Ok(keys[i].key.value)
    {
      assert Nameable(keys[i]);
      Jwk.RoundTrip(keys[i].keyID, keys[i].key.value);
    }
  }

  lemma HeldIsSame(m: Keys, listed: seq<JWK>, keys: seq<PublishedKey>)
    requires Publishable(keys) && Describes(listed, keys) && Holds(m, map[], listed)
    ensures SameKeys(m, keys)
  {
    DescribedIsReadable(listed, keys);
    forall i | 0 <= i < |keys| ensures keys[i].keyID in m && keys[i].key == Some(m[keys[i].keyID]) {
      assert listed[i].keyID in m;
    }
    forall k | k in m ensures exists i :: 0 <= i < |keys| && keys[i].keyID == k {
      var i :| 0 <= i < |listed| && listed[i].keyID == k;
      assert keys[i].keyID == k;
    }
  }

  /** Whatever document the issuer succeeds in publishing, a verifier accepts whole: no kid is
      lost, repeated or bound to another key. */
  lemma PublishThenParse(k: KeySet)
    requires Document(Ok(k)).Ok?
    ensures var parsed := KeysOf(Listing(Document(Ok(k)).value));
            parsed.Ok? && SameKeys(parsed.value, Named(k)) && |parsed.value| == |k.published| + 1
  {
    var listed, keys := Document(Ok(k)).value, Named(k);
    DocumentCorrect(k);
    DescribedIsReadable(listed, keys);
    KeysOfCorrect(listed);
    var m := KeysOf(Listing(listed)).value;
    HeldIsSame(m, listed, keys);
    CountKids(m.Keys, keys);
    assert |m.Keys| == |m|;
  }

  lemma {:induction false} CountKids(kids: set<string>, keys: seq<PublishedKey>)
    requires DistinctKids(keys)
    requires forall i :: 0 <= i < |keys| ==> keys[i].keyID in kids
    requires forall k :: k in kids ==> exists i :: 0 <= i < |keys| && keys[i].keyID == k
    ensures |kids| == |keys|
  {
    if keys != [] {
      var n := |keys| - 1;
      var fewer := kids - {keys[n].keyID};
      forall k | k in fewer ensures exists i :: 0 <= i < n && keys[..n][i].keyID == k {
        var i :| 0 <= i < |keys| && keys[i].keyID == k;
        assert keys[..n][i].keyID == k;
      }
      CountKids(fewer, keys[..n]);
    }
  }
}
