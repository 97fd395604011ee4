/** The signed token and the JSON form of its claim set (issuer/claims.go, and the decoding side
    of claims.go through golang-jwt). */
module Wire {
  import opened Errors
  import opened InternalJwt
  import opened Jwk

  /** Claim names; `Unknown` stands for every member the claim set does not know. */
  datatype Name =
    | Iss | Sub | Aud | Exp | Nbf | Iat | Jti | TokenUse | ClientID | Txn | Scope
    | SrcJti | SrcExp | OriginSub | TenantID | EventID | Unknown(name: string)

  /** A JSON value. A number is a count of seconds at nanosecond resolution; `Other` is a
      boolean, an object or a mixed array. */
  datatype Json = Null | Str(text: string) | Num(at: Time) | Arr(items: seq<string>) | Other

  type Payload = map<Name, Json>

  const NAMES: set<Name> := {
    Iss, Sub, Aud, Exp, Nbf, Iat, Jti, TokenUse, ClientID, Txn, Scope,
    SrcJti, SrcExp, OriginSub, TenantID, EventID }

  /** `omitempty` on a string and on a date. */
  function NonEmpty(text: string): Option<Json> {
    if text == "" then None else Some(Str(text))
  }

  function Date(at: Option<Time>): Option<Json> {
    match at case None => None case Some(t) => Some(Num(Truncate(t)))
  }

  /** One member of `signedClaims`, or its absence. */
  function Member(c: Claims, n: Name): Option<Json>
    requires |c.audience| == 1
  {
    match n
    case Iss => NonEmpty(c.issuer)
    case Sub => NonEmpty(c.subject)
    case Aud => Some(Str(c.audience[0]))
    case Exp => Date(c.expiresAt)
    case Nbf => Date(c.notBefore)
    case Iat => Date(c.issuedAt)
    case Jti => NonEmpty(c.id)
    case TokenUse => Some(Str(c.tokenUse))
    case ClientID => Some(Str(c.clientID))
    case Txn => Some(Str(c.txn))
    case Scope => NonEmpty(c.scope)
    case SrcJti => NonEmpty(c.sourceJTI)
    case SrcExp => Date(c.sourceExpiresAt)
    case OriginSub => NonEmpty(c.originSub)
    case TenantID => NonEmpty(c.tenantPublicID)
    case EventID => NonEmpty(c.eventPublicID)
    case Unknown(_) => None
  }

  function NewSignedClaims(c: Claims): Result<Payload> {
    if |c.audience| != 1 then Err(Plain(ErrAudienceCount))
    else Ok(map n | n in NAMES && Member(c, n).Some? :: Member(c, n).value)
  }

  function DecodeString(p: Payload, n: Name): Option<string> {
    if n !in p then Some("")
    else match p[n]
      case Null => Some("")
      case Str(text) => Some(text)
      case _ => None
  }

  function DecodeDate(p: Payload, n: Name): Option<Option<Time>> {
    if n !in p then Some(None)
    else match p[n]
      case Null => Some(None)
      case Num(at) => Some(Some(Truncate(at)))
      case _ => None
  }

  function DecodeAudience(p: Payload): Option<seq<string>> {
    if Aud !in p then Some([])
    else match p[Aud]
      case Null => Some([])
      case Str(text) => Some([text])
      case Arr(items) => Some(items)
      case _ => None
  }

  /** `json.Unmarshal` into the claim set: any member of the wrong type fails the whole. */
  predicate Decodable(p: Payload) {
    && DecodeString(p, Iss).Some? && DecodeString(p, Sub).Some? && DecodeAudience(p).Some?
    && DecodeDate(p, Exp).Some? && DecodeDate(p, Nbf).Some? && DecodeDate(p, Iat).Some?
    && DecodeString(p, Jti).Some? && DecodeString(p, TokenUse).Some? && DecodeString(p, ClientID).Some?
    && DecodeString(p, Txn).Some? && DecodeString(p, Scope).Some? && DecodeString(p, SrcJti).Some?
    && DecodeDate(p, SrcExp).Some? && DecodeString(p, OriginSub).Some?
    && DecodeString(p, TenantID).Some? && DecodeString(p, EventID).Some?
  }

  function Decode(p: Payload): Claims
    requires Decodable(p)
  {
    Claims(
      DecodeString(p, Iss).value, DecodeString(p, Sub).value, DecodeAudience(p).value,
      DecodeDate(p, Exp).value, DecodeDate(p, Nbf).value, DecodeDate(p, Iat).value,
      DecodeString(p, Jti).value, DecodeString(p, TokenUse).value, DecodeString(p, ClientID).value,
      DecodeString(p, Txn).value, DecodeString(p, Scope).value, DecodeString(p, SrcJti).value,
      DecodeDate(p, SrcExp).value, DecodeString(p, OriginSub).value,
      DecodeString(p, TenantID).value, DecodeString(p, EventID).value)
  }

  /** The dates of a claim set as the wire carries them. */
  predicate WholeSeconds(c: Claims) {
    && WholeSecond(c.expiresAt) && WholeSecond(c.notBefore)
    && WholeSecond(c.issuedAt) && WholeSecond(c.sourceExpiresAt)
  }

  function Truncated(at: Option<Time>): Option<Time> {
    match at case None => None case Some(t) => Some(Truncate(t))
  }

  lemma MembersAreMapped(c: Claims, n: Name)
    requires |c.audience| == 1 && n in NAMES
    ensures var p := NewSignedClaims(c).value;
            && (n in p <==> Member(c, n).Some?)
            && (n in p ==> p[n] == Member(c, n).value)
  {}

  lemma StringSurvives(c: Claims, n: Name, text: string)
    requires |c.audience| == 1 && n in NAMES
    requires Member(c, n) == NonEmpty(text) || Member(c, n) == Some(Str(text))
    ensures DecodeString(NewSignedClaims(c).value, n) == Some(text)
  {
    MembersAreMapped(c, n);
  }

  lemma NamesSurvive(c: Claims)
    requires |c.audience| == 1
    ensures var p := NewSignedClaims(c).value;
            && DecodeString(p, Iss) == Some(c.issuer) && DecodeString(p, Sub) == Some(c.subject)
            && DecodeString(p, Jti) == Some(c.id) && DecodeString(p, TokenUse) == Some(c.tokenUse)
            && DecodeString(p, ClientID) == Some(c.clientID)
  {
    StringSurvives(c, Iss, c.issuer);
    StringSurvives(c, Sub, c.subject);
    StringSurvives(c, Jti, c.id);
    StringSurvives(c, TokenUse, c.tokenUse);
    StringSurvives(c, ClientID, c.clientID);
  }

  lemma OriginsSurvive(c: Claims)
    requires |c.audience| == 1
    ensures var p := NewSignedClaims(c).value;
            && DecodeString(p, Txn) == Some(c.txn)
            && DecodeString(p, Scope) == Some(c.scope) && DecodeString(p, SrcJti) == Some(c.sourceJTI)
            && DecodeString(p, OriginSub) == Some(c.originSub)
            && DecodeString(p, TenantID) == Some(c.tenantPublicID)
            && DecodeString(p, EventID) == Some(c.eventPublicID)
  {
    StringSurvives(c, Txn, c.txn);
    StringSurvives(c, Scope, c.scope);
    StringSurvives(c, SrcJti, c.sourceJTI);
    StringSurvives(c, OriginSub, c.originSub);
    StringSurvives(c, TenantID, c.tenantPublicID);
    StringSurvives(c, EventID, c.eventPublicID);
  }

  lemma DateSurvives(c: Claims, n: Name, at: Option<Time>)
    requires |c.audience| == 1 && n in NAMES && Member(c, n) == Date(at)
    ensures DecodeDate(NewSignedClaims(c).value, n) == Some(Truncated(at))
  {
    MembersAreMapped(c, n);
    if at.Some? { TruncateBounds(at.value); }
  }

  lemma DatesSurvive(c: Claims)
    requires |c.audience| == 1
    ensures var p := NewSignedClaims(c).value;
            && DecodeDate(p, Exp) == Some(Truncated(c.expiresAt))
            && DecodeDate(p, Nbf) == Some(Truncated(c.notBefore))
            && DecodeDate(p, Iat) == Some(Truncated(c.issuedAt))
            && DecodeDate(p, SrcExp) == Some(Truncated(c.sourceExpiresAt))
  {
    DateSurvives(c, Exp, c.expiresAt);
    DateSurvives(c, Nbf, c.notBefore);
    DateSurvives(c, Iat, c.issuedAt);
    DateSurvives(c, SrcExp, c.sourceExpiresAt);
  }

  lemma TruncatedIsItself(at: Option<Time>)
    ensures Truncated(at) == at <==> WholeSecond(at)
  {}

  /** Every claim set of one audience survives the wire; only sub-second digits are lost. */
  lemma RoundTrip(c: Claims)
    requires |c.audience| == 1
    ensures var p := NewSignedClaims(c);
            && p.Ok? && Decodable(p.value)
            && Decode(p.value) == c.(
                 expiresAt := Truncated(c.expiresAt), notBefore := Truncated(c.notBefore),
                 issuedAt := Truncated(c.issuedAt), sourceExpiresAt := Truncated(c.sourceExpiresAt))
            && (Decode(p.value) == c <==> WholeSeconds(c))
  {
    NamesSurvive(c);
    OriginsSurvive(c);
    DatesSurvive(c);
    MembersAreMapped(c, Aud);
    assert c.audience == [c.audience[0]];
    TruncatedIsItself(c.expiresAt);
    TruncatedIsItself(c.notBefore);
    TruncatedIsItself(c.issuedAt);
    TruncatedIsItself(c.sourceExpiresAt);
  }

  /** The claim behind a member is there: four members always are, the others when not empty. */
  predicate Given(c: Claims, n: Name) {
    match n
    case Aud => true
    case TokenUse => true
    case ClientID => true
    case Txn => true
    case Iss => c.issuer != ""
    case Sub => c.subject != ""
    case Jti => c.id != ""
    case Exp => c.expiresAt != None
    case Nbf => c.notBefore != None
    case Iat => c.issuedAt != None
    case Scope => c.scope != ""
    case SrcJti => c.sourceJTI != ""
    case SrcExp => c.sourceExpiresAt != None
    case OriginSub => c.originSub != ""
    case TenantID => c.tenantPublicID != ""
    case EventID => c.eventPublicID != ""
    case Unknown(_) => false
  }

  /** An empty claim is left out of the payload, never written as an empty member. */
  lemma EmptyMembersAreAbsent(c: Claims, n: Name)
    requires |c.audience| == 1
    ensures n in NewSignedClaims(c).value <==> Given(c, n)
  {
    if n in NAMES { MembersAreMapped(c, n); }
  }

  /** How a claim that is given is written: `aud` as one string, dates as whole-second numbers, all
      else as strings. */
  predicate Written(c: Claims, n: Name, value: Json)
    requires |c.audience| == 1
  {
    match n
    case Iss => value == Str(c.issuer)
    case Sub => value == Str(c.subject)
    case Aud => value == Str(c.audience[0])
    case Exp => c.expiresAt.Some? && value == Num(Truncate(c.expiresAt.value))
    case Nbf => c.notBefore.Some? && value == Num(Truncate(c.notBefore.value))
    case Iat => c.issuedAt.Some? && value == Num(Truncate(c.issuedAt.value))
    case Jti => value == Str(c.id)
    case TokenUse => value == Str(c.tokenUse)
    case ClientID => value == Str(c.clientID)
    case Txn => value == Str(c.txn)
    case Scope => value == Str(c.scope)
    case SrcJti => value == Str(c.sourceJTI)
    case SrcExp => c.sourceExpiresAt.Some? && value == Num(Truncate(c.sourceExpiresAt.value))
    case OriginSub => value == Str(c.originSub)
    case TenantID => value == Str(c.tenantPublicID)
    case EventID => value == Str(c.eventPublicID)
    case Unknown(_) => false
  }

  /** The payload has exactly the members whose claims are given, each in its form. */
  lemma PayloadIs(c: Claims, n: Name, value: Json)
    requires |c.audience| == 1
    ensures var p := NewSignedClaims(c).value;
            n in p && p[n] == value <==> Given(c, n) && Written(c, n, value)
  {
    if n in NAMES { MembersAreMapped(c, n); }
  }

  datatype Header = Header(alg: string, typ: Option<string>, kid: Option<string>)

  /** An ideal signature: it records the key and the exact header and payload it was made over. */
  datatype Signature =
    | SignedBy(key: PublicKey, header: Header, payload: Payload)
    | Unsigned

  datatype Token = Token(header: Header, payload: Payload, signature: Signature)

  predicate SignatureValid(key: PublicKey, token: Token) {
    token.signature == SignedBy(key, token.header, token.payload)
  }

  /** What a caller may present: nothing, text that is no JWT, or a JWT. */
  datatype Presented = Empty | Garbled | Parsed(token: Token)

  // ---- Reading any payload --------------------------------------------------------------------------

  /** Dates read from a payload, whoever wrote it, are whole seconds. */
  lemma ReadDatesAreWhole(p: Payload)
    requires Decodable(p)
    ensures WholeSeconds(Decode(p))
  {
    forall at: Time ensures Truncate(at) % SECOND == 0 { TruncateBounds(at); }
  }

  /** Every member reads alike in both, whatever it is read as. */
  ghost predicate ReadAlike(p: Payload, q: Payload) {
    && (forall n :: DecodeString(p, n) == DecodeString(q, n) || n == Aud || n.Unknown?)
    && (forall n :: DecodeDate(p, n) == DecodeDate(q, n) || n == Aud || n.Unknown?)
    && DecodeAudience(p) == DecodeAudience(q)
  }

  lemma ReadAlikeIsSame(p: Payload, q: Payload)
    requires ReadAlike(p, q)
    ensures Decodable(p) <==> Decodable(q)
    ensures Decodable(p) ==> Decode(p) == Decode(q)
  {}

  /** A null member reads as an absent one. */
  lemma NullIsAbsent(p: Payload, n: Name)
    ensures Decodable(p[n := Null]) <==> Decodable(p - {n})
    ensures Decodable(p - {n}) ==> Decode(p[n := Null]) == Decode(p - {n})
  {
    assert ReadAlike(p[n := Null], p - {n});
    ReadAlikeIsSame(p[n := Null], p - {n});
  }

  /** One audience may be a string or a list of one. */
  lemma AudienceForms(p: Payload, audience: string)
    ensures Decodable(p[Aud := Str(audience)]) <==> Decodable(p[Aud := Arr([audience])])
    ensures Decodable(p[Aud := Str(audience)]) ==>
              && Decode(p[Aud := Str(audience)]) == Decode(p[Aud := Arr([audience])])
              && Decode(p[Aud := Str(audience)]).audience == [audience]
  {
    assert ReadAlike(p[Aud := Str(audience)], p[Aud := Arr([audience])]);
    ReadAlikeIsSame(p[Aud := Str(audience)], p[Aud := Arr([audience])]);
  }

  /** Members the claim set does not know are read over. */
  lemma UnknownIsReadOver(p: Payload, name: string, value: Json)
    ensures Decodable(p[Unknown(name) := value]) <==> Decodable(p)
    ensures Decodable(p) ==> Decode(p[Unknown(name) := value]) == Decode(p)
  {
    assert ReadAlike(p[Unknown(name) := value], p);
    ReadAlikeIsSame(p[Unknown(name) := value], p);
  }
}
