/** The audit trail across arbitrarily many interleaved issues: what `src_jti`, `txn` and
    `origin_sub` let an auditor reconstruct (issuer/service.go, issuer/external.go). */
module AuditTrail {
  import opened Errors
  import opened InternalJwt
  import opened Issuer
  import opened Verifier
  import opened TokenChain
  import opened Wire
  import opened Jwk
  import Signer

  /** One successful issue: the call, its clock reading and fresh jti, and the claims issued. */
  datatype Entry = Entry(call: Call, now: Time, jti: string, claims: Claims)

  /** The call starts a processing chain and so mints its txn. */
  predicate Mints(e: Entry) {
    e.call.FromExternal? || (e.call.MachineOrigin? && e.call.machine.context.None?)
  }

  function Context(e: Entry): Claims
    requires !Mints(e)
  {
    if e.call.UserOrigin? then e.call.user.context else e.call.machine.context.value
  }

  predicate Logged(log: seq<Entry>, c: Claims, k: nat)
    requires k <= |log|
  {
    exists j :: 0 <= j < k && log[j].claims == c
  }

  /** A log of issues by one issuer: every context is a token issued before, every jti is fresh,
      and so is every minted txn. */
  ghost predicate ValidLog(i: Issuer, log: seq<Entry>) {
    && (forall k :: 0 <= k < |log| ==>
          && Identified(log[k].call, log[k].jti)
          && Derive(i, log[k].call, log[k].now, log[k].jti) == Ok(log[k].claims))
    && (forall k :: 0 <= k < |log| && !Mints(log[k]) ==> Logged(log, Context(log[k]), k))
    && (forall j, k :: 0 <= j < k < |log| ==> log[j].jti != log[k].jti)
    && (forall j, k :: 0 <= j < k < |log| && Mints(log[j]) && Mints(log[k]) ==> log[j].claims.txn != log[k].claims.txn)
  }

  /** A service token re-issued for a user, recognised by its claims alone. */
  predicate UserOriginToken(c: Claims) {
    c.tokenUse == SERVICE && c.originSub != ""
  }

  lemma EntryFacts(i: Issuer, log: seq<Entry>, k: nat)
    requires ValidLog(i, log) && k < |log|
    ensures var e := log[k];
            && e.claims.id == e.jti
            && (e.call.FromExternal? <==> EntryToken(e.claims))
            && (e.call.UserOrigin? <==> UserOriginToken(e.claims))
            && (e.call.MachineOrigin? <==> MachineServiceToken(e.claims))
            && (!Mints(e) ==> e.claims.txn == Context(e).txn)
            && (e.call.UserOrigin? ==> e.claims.sourceJTI == Context(e).id)
  {
    DerivedKind(i, log[k].call, log[k].now, log[k].jti);
    DerivedShape(i, log[k].call, log[k].now, log[k].jti);
  }

  /** The one logged token whose jti a user-origin token's `src_jti` names. */
  ghost function Parent(i: Issuer, log: seq<Entry>, k: nat): (p: nat)
    requires ValidLog(i, log) && k < |log| && !Mints(log[k])
    ensures p < k && log[p].claims == Context(log[k])
  {
    var p :| 0 <= p < k && log[p].claims == Context(log[k]);
    p
  }

  lemma ParentIsNamed(i: Issuer, log: seq<Entry>, k: nat)
    requires ValidLog(i, log) && k < |log| && UserOriginToken(log[k].claims)
    ensures log[k].call.UserOrigin?
    ensures var p := Parent(i, log, k);
            && Names(log, k, p)
            && (EntryToken(log[p].claims) || UserOriginToken(log[p].claims))
            && (EntryToken(log[p].claims) ==> log[k].claims.originSub == log[p].claims.subject)
            && (UserOriginToken(log[p].claims) ==> log[k].claims.originSub == log[p].claims.originSub)
            && log[k].claims.scope == log[p].claims.scope
  {
    EntryFacts(i, log, k);
    var p := Parent(i, log, k);
    EntryFacts(i, log, p);
    forall j | 0 <= j < |log|
      ensures log[j].claims.id == log[k].claims.sourceJTI <==> j == p
    {
      EntryFacts(i, log, j);
    }
  }

  /** Walking `src_jti` back from the k-th token until a token that is not a re-issue. */
  ghost function Trail(i: Issuer, log: seq<Entry>, k: nat): seq<nat>
    requires ValidLog(i, log) && k < |log|
    decreases k
  {
    if !UserOriginToken(log[k].claims) then [k]
    else
      ParentIsNamed(i, log, k);
      [k] + Trail(i, log, Parent(i, log, k))
  }

  /** `src_jti` of the k-th token names the p-th and no other. */
  predicate Names(log: seq<Entry>, k: nat, p: nat)
    requires k < |log|
  {
    forall j :: 0 <= j < |log| ==> (log[j].claims.id == log[k].claims.sourceJTI <==> j == p)
  }

  /** A strictly backward walk through user-origin tokens, each naming the next. */
  predicate BackwardWalk(log: seq<Entry>, trail: seq<nat>) {
    && (forall n :: 0 <= n < |trail| ==> trail[n] < |log|)
    && (forall m, n :: 0 <= m < n < |trail| ==> trail[m] > trail[n])
    && (forall n :: 0 <= n < |trail| - 1 ==>
          UserOriginToken(log[trail[n]].claims) && Names(log, trail[n], trail[n + 1]))
  }

  lemma WalkExtends(log: seq<Entry>, k: nat, rest: seq<nat>)
    requires k < |log| && rest != [] && k > rest[0] && BackwardWalk(log, rest)
    requires UserOriginToken(log[k].claims) && Names(log, k, rest[0])
    ensures BackwardWalk(log, [k] + rest)
  {
    var trail := [k] + rest;
    forall m, n | 0 <= m < n < |trail| ensures trail[m] > trail[n] {
      assert n > 1 ==> rest[0] > rest[n - 1];
    }
  }

  /** The root is the external conversion the k-th token goes back to. */
  predicate Accounts(log: seq<Entry>, root: nat, k: nat)
    requires k < |log|
  {
    && root < |log| && log[root].call.FromExternal?
    && SaysWhat(log[root].claims, log[root].call.external)
    && log[root].claims.txn == log[k].claims.txn
    && log[root].claims.scope == log[k].claims.scope
    && log[root].claims.subject == log[k].claims.originSub
  }

  /** From any user-origin service token the walk ends after finitely many distinct tokens at an
      external conversion, and at no earlier one; that conversion has the same txn and scope, and
      its `sub` is the walked token's `origin_sub`. */
  lemma {:induction false} TrailReachesTheConversion(i: Issuer, log: seq<Entry>, k: nat)
    requires ValidLog(i, log) && k < |log| && UserOriginToken(log[k].claims)
    ensures var trail := Trail(i, log, k);
            |trail| >= 2 && trail[0] == k && BackwardWalk(log, trail) && Accounts(log, trail[|trail| - 1], k)
    decreases k
  {
    ParentIsNamed(i, log, k);
    EntryFacts(i, log, k);
    var p := Parent(i, log, k);
    if UserOriginToken(log[p].claims) {
      TrailReachesTheConversion(i, log, p);
    } else {
      EntryFacts(i, log, p);
      assert Trail(i, log, p) == [p];
    }
    WalkExtends(log, k, Trail(i, log, p));
  }

  /** The token whose issue minted the txn of the k-th token. */
  ghost function Origin(i: Issuer, log: seq<Entry>, k: nat): (m: nat)
    requires ValidLog(i, log) && k < |log|
    ensures m <= k && Mints(log[m])
    decreases k
  {
    if Mints(log[k]) then k else Origin(i, log, Parent(i, log, k))
  }

  lemma {:induction false} OriginSharesTxn(i: Issuer, log: seq<Entry>, k: nat)
    requires ValidLog(i, log) && k < |log|
    ensures log[Origin(i, log, k)].claims.txn == log[k].claims.txn
    ensures MachineServiceToken(log[Origin(i, log, k)].claims) <==> MachineServiceToken(log[k].claims)
    decreases k
  {
    EntryFacts(i, log, k);
    if !Mints(log[k]) {
      var p := Parent(i, log, k);
      OriginSharesTxn(i, log, p);
      EntryFacts(i, log, p);
      if log[k].call.UserOrigin? { ParentIsNamed(i, log, k); }
    }
  }

  lemma {:induction false} TrailEndsAtOrigin(i: Issuer, log: seq<Entry>, k: nat)
    requires ValidLog(i, log) && k < |log| && (EntryToken(log[k].claims) || UserOriginToken(log[k].claims))
    ensures var trail := Trail(i, log, k); trail[|trail| - 1] == Origin(i, log, k)
    decreases k
  {
    EntryFacts(i, log, k);
    if UserOriginToken(log[k].claims) {
      ParentIsNamed(i, log, k);
      TrailEndsAtOrigin(i, log, Parent(i, log, k));
    }
  }

  /** Two issued tokens carry the same txn exactly when they belong to the same processing chain;
      so no user's token ever shares a txn with a machine's. */
  lemma TxnNamesTheChain(i: Issuer, log: seq<Entry>, a: nat, b: nat)
    requires ValidLog(i, log) && a < |log| && b < |log|
    ensures log[a].claims.txn == log[b].claims.txn <==> Origin(i, log, a) == Origin(i, log, b)
    ensures log[a].claims.txn == log[b].claims.txn ==>
              (MachineServiceToken(log[a].claims) <==> MachineServiceToken(log[b].claims))
  {
    OriginSharesTxn(i, log, a);
    OriginSharesTxn(i, log, b);
    var m, n := Origin(i, log, a), Origin(i, log, b);
    if m < n { assert log[m].claims.txn != log[n].claims.txn; }
    if n < m { assert log[n].claims.txn != log[m].claims.txn; }
  }

  // ---- From presented tokens to the log -------------------------------------------------------------

  /** One issue as the gateway makes it: its entry, the keys it signed with, the token, and for a
      re-issue the token presented for it, by whom, and what the verification of it used. */
  datatype Issuance = Issuance(
    entry: Entry, keys: Result<Signer.KeySet>, token: Token,
    presented: Token, presenter: string, resolve: Resolver, at: Time)

  function Entries(log: seq<Issuance>): (entries: seq<Entry>)
    ensures |entries| == |log|
  {
    seq(|log|, k requires 0 <= k < |log| => log[k].entry)
  }

  /** The issue is what the gateway does: derive, sign, and for a re-issue verify what was presented
      and derive from exactly that. */
  ghost predicate AsIssued(i: Issuer, v: Verifier, e: Issuance) {
    && Identified(e.entry.call, e.entry.jti)
    && Issue(e.keys, Derive(i, e.entry.call, e.entry.now, e.entry.jti)) == Ok(Issued(e.token, e.entry.claims))
    && (!Mints(e.entry) ==>
          VerifyContext(v, Parsed(e.presented), e.presenter, e.resolve, e.at) == Ok(Context(e.entry)))
  }

  /** What ideal signatures give: a token whose signature checks under the key its kid resolves to
      was issued before. */
  ghost predicate Unforged(log: seq<Issuance>, k: nat)
    requires k < |log|
  {
    forall key :: LeadsTo(log[k].presented.header, log[k].resolve, key)
                  && SignatureValid(key, log[k].presented) ==>
      exists j :: 0 <= j < k && log[j].token == log[k].presented
  }

  /** A log of issues by one issuer, contexts being whatever callers presented and the gateway
      verified: no signature is forged, every jti and every minted txn is fresh. */
  ghost predicate GenuineLog(i: Issuer, v: Verifier, log: seq<Issuance>) {
    && (forall k :: 0 <= k < |log| ==> AsIssued(i, v, log[k]))
    && (forall k :: 0 <= k < |log| && !Mints(log[k].entry) ==> Unforged(log, k))
    && (forall j, k :: 0 <= j < k < |log| ==> log[j].entry.jti != log[k].entry.jti)
    && (forall j, k :: 0 <= j < k < |log| && Mints(log[j].entry) && Mints(log[k].entry) ==>
          log[j].entry.claims.txn != log[k].entry.claims.txn)
  }

  lemma VerifiedUnder(v: Verifier, token: Token, presenter: string, resolve: Resolver, at: Time, c: Claims)
    returns (key: PublicKey)
    requires v.Valid() && VerifyContext(v, Parsed(token), presenter, resolve, at) == Ok(c)
    ensures LeadsTo(token.header, resolve, key) && SignatureValid(key, token)
    ensures Decodable(token.payload) && Decode(token.payload) == c
  {
    AcceptedIff(v, Parsed(token), presenter, resolve, at, c);
    key :| LeadsTo(token.header, resolve, key) && SignatureValid(key, token);
  }

  /** A context the gateway verified is the claim set of a token it issued before. */
  lemma PresentedWasIssued(i: Issuer, v: Verifier, log: seq<Issuance>, k: nat)
    requires v.Valid() && GenuineLog(i, v, log) && k < |log| && !Mints(log[k].entry)
    ensures Logged(Entries(log), Context(log[k].entry), k)
  {
    var e := log[k];
    var key := VerifiedUnder(v, e.presented, e.presenter, e.resolve, e.at, Context(e.entry));
    var j :| 0 <= j < k && log[j].token == e.presented;
    IssuedToken(i, log[j].keys, log[j].entry.call, log[j].entry.now, log[j].entry.jti);
    assert Entries(log)[j].claims == Context(e.entry);
  }

  lemma IssuedAsDerived(i: Issuer, v: Verifier, e: Issuance)
    requires AsIssued(i, v, e)
    ensures Derive(i, e.entry.call, e.entry.now, e.entry.jti) == Ok(e.entry.claims)
  {}

  /** So the gateway's own log is one the audit theorems are about, whatever callers present. */
  lemma GenuineLogIsValid(i: Issuer, v: Verifier, log: seq<Issuance>)
    requires v.Valid() && GenuineLog(i, v, log)
    ensures ValidLog(i, Entries(log))
  {
    var entries := Entries(log);
    forall k | 0 <= k < |log|
      ensures Identified(entries[k].call, entries[k].jti)
      ensures Derive(i, entries[k].call, entries[k].now, entries[k].jti) == Ok(entries[k].claims)
    {
      IssuedAsDerived(i, v, log[k]);
    }
    forall k | 0 <= k < |log| && !Mints(entries[k]) ensures Logged(entries, Context(entries[k]), k) {
      PresentedWasIssued(i, v, log, k);
    }
  }
}
