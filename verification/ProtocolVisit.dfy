/** One honest device's way through the protocol: how far it has got, and that each of its own events takes it one
    further. */
module ProtocolVisit {
  import opened Terms
  import opened Protocol
  import opened ProtocolInvariant
  import opened ProtocolSteps
  import P = Pairings
  import E = Enrollment
  import R = EnrollmentRecords
  import L = RateLimit

  /** One device's enrollment: what is drawn for it, its keys, its request and address, and the clock at each step. */
  datatype Visit = Visit(
    code: string, draws: P.Draws, handle: string, signing: Pem, encryption: Pem, request: string,
    address: string, mintMs: int, attemptMs: int, redeemedMs: int, createdMs: int, callbackMs: int, approvedMs: int,
    claimMs: int, enrolledMs: int, expiryMs: int)
  {
    function Pair(): Digest { Sha256(draws.pairId) }
    function ExpiresAt(cfg: Config): int { createdMs + cfg.pairingTtlMs }
    function PairDraws(): set<string> { {draws.pairId, draws.oauthState, draws.pkceVerifier} }
    function Draws(): set<string> { PairDraws() + {code, handle} }

    /** The record the claim leaves behind. */
    function Device(cfg: Config): R.Device {
      R.Device(Pair(), signing, encryption, enrolledMs, expiryMs + cfg.recordTtlMs, false)
    }
  }

  /** The device holds keys of the right kinds, printed as PEM, what is drawn for it is distinct, and every step
      comes in time. */
  predicate Honest(cfg: Config, v: Visit) {
    && v.signing.Holds(Ed25519) && v.encryption.Holds(X25519)
    && R.NamesPublicKey(v.signing.text) && R.NamesPublicKey(v.encryption.text)
    && v.code != "" && v.draws.pairId != "" && v.draws.pairId != v.draws.oauthState
    && v.code !in v.PairDraws() && v.handle !in v.PairDraws() && v.handle != v.code
    && 0 <= v.mintMs && v.redeemedMs < v.mintMs + cfg.codeTtlMs
    && v.callbackMs < v.ExpiresAt(cfg) && v.approvedMs < v.ExpiresAt(cfg) && v.claimMs < v.ExpiresAt(cfg)
    && 0 <= v.enrolledMs < v.expiryMs + cfg.recordTtlMs
  }

  predicate LifetimesInRange(cfg: Config) {
    E.MIN_TTL_MS <= cfg.codeTtlMs <= E.MAX_TTL_MS && 0 < cfg.pairingTtlMs <= P.MAX_PAIRING_TTL_MS
  }

  function ProofOf(v: Visit, cfg: Config): Signature
    requires v.signing.key.Some?
  {
    SignedBy(v.signing.key.value, PairingProof(v.Pair(), v.ExpiresAt(cfg)))
  }

  /** The visit's own eight events. */
  function OwnEvent(v: Visit, cfg: Config, n: nat): Event
    requires v.signing.key.Some? && n < 8
  {
    if n == 0 then Mint(v.code, E.Spells(Fingerprint(v.signing.key.value)), v.mintMs)
    else if n == 1 then PairAttempt(v.request, v.address, v.attemptMs)
    else if n == 2 then Event.Pair(v.request, v.code, v.signing, v.encryption, v.redeemedMs, v.createdMs, v.draws)
    else if n == 3 then Callback(v.draws.oauthState, v.handle, v.callbackMs)
    else if n == 4 then CallbackEnds(v.handle, true, v.approvedMs)
    else if n == 5 then Claim(v.draws.pairId, ProofOf(v, cfg), v.claimMs, v.enrolledMs, v.expiryMs)
    else if n == 6 then WriteEnds(R.Written)
    else MintEnds(ByClaim(v.Pair(), v.encryption), true)
  }

  // ---------- how far the visit has got ----------

  ghost predicate CodeHeld(b: Broker, cfg: Config, v: Visit) {
    && v.signing.key.Some? && Sha256(v.code) in b.codes
    && b.codes[Sha256(v.code)] == E.CodeRecord(Sha256(v.code), v.mintMs + cfg.codeTtlMs, false,
                                               Sha256OfHex(Fingerprint(v.signing.key.value)))
  }

  /** The pairing as created, and where it has got to. */
  ghost predicate PairingAt(b: Broker, cfg: Config, v: Visit, status: P.Status) {
    && v.Pair() in b.pairings.records
    && var r := b.pairings.records[v.Pair()];
    && r.status == status && r.signing == v.signing && r.encryption == v.encryption && r.expiresAtMs == v.ExpiresAt(cfg)
    && r.proofMessage == PairingProof(v.Pair(), v.ExpiresAt(cfg)) && r.stateHash == Sha256(v.draws.oauthState)
    && (status == P.CallbackStateConsumed ==> r.handleHash == Some(Sha256(v.handle)))
  }

  predicate Stored(records: R.Records, cfg: Config, v: Visit) {
    v.Pair() in records && records[v.Pair()] == v.Device(cfg)
  }

  ghost predicate StoredThroughout(b: Broker, cfg: Config, v: Visit) {
    Stored(b.records, cfg, v) && Stored(b.disk, cfg, v) && (b.write.Some? ==> Stored(b.write.value.snapshot, cfg, v))
  }

  /** The code is held, and what the visit still needs is undrawn. */
  ghost predicate Invited(b: Broker, cfg: Config, v: Visit) {
    Fresh(b, v.PairDraws()) && Fresh(b, {v.handle}) && CodeHeld(b, cfg, v)
  }

  /** After `n` of the visit's own events. */
  ghost predicate Reached(b: Broker, cfg: Config, v: Visit, n: nat) {
    if n == 0 then Fresh(b, v.Draws())
    else if n == 1 then Invited(b, cfg, v)
    else if n == 2 then Invited(b, cfg, v) && v.request in b.admitted
    else if n == 3 then Fresh(b, {v.handle}) && PairingAt(b, cfg, v, P.Pending)
    else if n == 4 then v.handle in b.callbacks && PairingAt(b, cfg, v, P.CallbackStateConsumed)
    else if n == 5 then PairingAt(b, cfg, v, P.Authorized)
    else if n == 6 then
      && Stored(b.records, cfg, v)
      && b.write.Some? && b.write.value.owner == ForClaim(v.Pair(), v.encryption)
      && Stored(b.write.value.snapshot, cfg, v)
    else if n == 7 then ByClaim(v.Pair(), v.encryption) in b.grants && StoredThroughout(b, cfg, v)
    else SealedFor(v.Pair(), v.encryption, ByClaim(v.Pair(), v.encryption)) in b.log && StoredThroughout(b, cfg, v)
  }

  /** What the visit's next own event needs besides: an attempt left for its address, room in the stores, and no
      other write under way. */
  ghost predicate Ready(b: Broker, cfg: Config, v: Visit, n: nat) {
    && (n == 0 ==> |E.Evict(b.codes, v.mintMs)| < cfg.codeCapacity)
    && (n == 1 ==> L.Allow(b.attempts, L.Attempt(v.address, v.attemptMs), cfg.maxPairAttempts, cfg.rateLimitWindowMs).1)
    && (n == 2 ==> |P.Evict(b.pairings, v.createdMs).records| < cfg.pairingCapacity)
    && (n == 5 ==> b.write.None?)
  }

  // ---------- the visit's own events ----------

  lemma OwnEventAdvances(b: Broker, cfg: Config, v: Visit, n: nat)
    requires Inv(b, cfg) && Honest(cfg, v) && LifetimesInRange(cfg) && n < 8 && Reached(b, cfg, v, n)
      && Ready(b, cfg, v, n)
    ensures Reached(Apply(b, cfg, OwnEvent(v, cfg, n)), cfg, v, n + 1)
  {
    if n == 0 { MintGivesCode(b, cfg, v); }
    else if n == 1 { AttemptAdmits(b, cfg, v); }
    else if n == 2 { PairCreates(b, cfg, v); }
    else if n == 3 { CallbackConsumes(b, cfg, v); }
    else if n == 4 { ApprovalAuthorizes(b, cfg, v); }
    else if n == 5 { ClaimEnrolls(b, cfg, v); }
    else if n == 6 { WriteGrants(b, cfg, v); }
    else { MintSeals(b, cfg, v); }
  }

  lemma AttemptAdmits(b: Broker, cfg: Config, v: Visit)
    requires Honest(cfg, v) && Reached(b, cfg, v, 1) && Ready(b, cfg, v, 1)
    ensures Reached(Apply(b, cfg, OwnEvent(v, cfg, 1)), cfg, v, 2)
  {}

  lemma MintGivesCode(b: Broker, cfg: Config, v: Visit)
    requires Honest(cfg, v) && LifetimesInRange(cfg) && Reached(b, cfg, v, 0) && Ready(b, cfg, v, 0)
    ensures Reached(Apply(b, cfg, OwnEvent(v, cfg, 0)), cfg, v, 1)
  {
    var fingerprint := E.Spells(Fingerprint(v.signing.key.value));
    E.IssueChanges(b.codes, cfg.codeCapacity, v.mintMs, cfg.codeTtlMs, fingerprint, v.code);
    assert ApplyMint(b, cfg, v.code, fingerprint, v.mintMs).drawn == b.drawn + {v.code};
  }

  lemma PairCreates(b: Broker, cfg: Config, v: Visit)
    requires Honest(cfg, v) && LifetimesInRange(cfg) && Reached(b, cfg, v, 2) && Ready(b, cfg, v, 2)
    ensures Reached(Apply(b, cfg, OwnEvent(v, cfg, 2)), cfg, v, 3)
  {
    var left := Heard(b, v.request).(codes := E.Consume(b.codes, v.code, v.redeemedMs,
      Some(E.Spells(Fingerprint(v.signing.key.value)))).0);
    var request := P.PairRequest(v.signing, v.encryption, v.createdMs, cfg.pairingTtlMs);
    PairOutcome(Heard(b, v.request), cfg, v.code, v.signing, v.encryption, v.redeemedMs, v.createdMs, v.draws);
    assert Apply(b, cfg, OwnEvent(v, cfg, 2))
      == PairIn(Evicted(left, v.createdMs), cfg, Sha256(v.code), request, v.draws);
    CreationPlaces(Evicted(left, v.createdMs), cfg, v);
  }

  lemma CreationPlaces(b: Broker, cfg: Config, v: Visit)
    requires Honest(cfg, v) && Fresh(b, {v.handle}) && |b.pairings.records| < cfg.pairingCapacity
    ensures
      var b' := PairIn(b, cfg, Sha256(v.code), P.PairRequest(v.signing, v.encryption, v.createdMs, cfg.pairingTtlMs),
        v.draws);
      Fresh(b', {v.handle}) && PairingAt(b', cfg, v, P.Pending)
  {}

  /** Evicting others leaves a pairing that has not expired where it is, with its index entries. */
  lemma SurvivesEviction(b: Broker, cfg: Config, v: Visit, status: P.Status, nowMs: int)
    requires P.Consistent(b.pairings, cfg.pairingCapacity) && PairingAt(b, cfg, v, status) && nowMs < v.ExpiresAt(cfg)
    ensures PairingAt(Evicted(b, nowMs), cfg, v, status) && P.RecordIndexed(Evicted(b, nowMs).pairings, v.Pair())
  {
    P.EvictKeepsConsistent(b.pairings, cfg.pairingCapacity, nowMs);
    P.EvictedRecords(b.pairings, nowMs);
    assert P.RecordIndexed(Evicted(b, nowMs).pairings, v.Pair());
  }

  lemma CallbackConsumes(b: Broker, cfg: Config, v: Visit)
    requires P.Consistent(b.pairings, cfg.pairingCapacity) && Honest(cfg, v) && Reached(b, cfg, v, 3)
    ensures Reached(Apply(b, cfg, OwnEvent(v, cfg, 3)), cfg, v, 4)
  {
    SurvivesEviction(b, cfg, v, P.Pending, v.callbackMs);
    CallbackInConsumes(Evicted(b, v.callbackMs), cfg, v);
  }

  lemma CallbackInConsumes(b: Broker, cfg: Config, v: Visit)
    requires PairingAt(b, cfg, v, P.Pending) && P.RecordIndexed(b.pairings, v.Pair())
    ensures
      var b' := CallbackIn(b, v.draws.oauthState, v.handle, v.callbackMs);
      v.handle in b'.callbacks && PairingAt(b', cfg, v, P.CallbackStateConsumed)
  {}

  lemma ApprovalAuthorizes(b: Broker, cfg: Config, v: Visit)
    requires P.Consistent(b.pairings, cfg.pairingCapacity) && Honest(cfg, v) && Reached(b, cfg, v, 4)
    ensures Reached(Apply(b, cfg, OwnEvent(v, cfg, 4)), cfg, v, 5)
  {
    var waiting := b.(callbacks := b.callbacks - {v.handle});
    SurvivesEviction(waiting, cfg, v, P.CallbackStateConsumed, v.approvedMs);
    ApprovalInAuthorizes(Evicted(waiting, v.approvedMs), cfg, v);
  }

  lemma ApprovalInAuthorizes(b: Broker, cfg: Config, v: Visit)
    requires PairingAt(b, cfg, v, P.CallbackStateConsumed) && P.RecordIndexed(b.pairings, v.Pair())
    ensures PairingAt(AuthorizeIn(b, v.handle, v.approvedMs), cfg, v, P.Authorized)
  {}

  lemma ClaimEnrolls(b: Broker, cfg: Config, v: Visit)
    requires Honest(cfg, v) && Reached(b, cfg, v, 5) && Ready(b, cfg, v, 5)
    ensures Reached(Apply(b, cfg, OwnEvent(v, cfg, 5)), cfg, v, 6)
  {
    var (pairings, claimed) := P.OpenClaim(b.pairings, v.draws.pairId, ProofOf(v, cfg), v.claimMs);
    assert claimed == P.Claimed(v.signing, v.encryption);
    ClaimIsIn(b, cfg, v.draws.pairId, ProofOf(v, cfg), v.claimMs, v.enrolledMs, v.expiryMs);
  }

  lemma WriteGrants(b: Broker, cfg: Config, v: Visit)
    requires Honest(cfg, v) && Reached(b, cfg, v, 6)
    ensures Reached(Apply(b, cfg, OwnEvent(v, cfg, 6)), cfg, v, 7)
  {}

  lemma MintSeals(b: Broker, cfg: Config, v: Visit)
    requires Honest(cfg, v) && Reached(b, cfg, v, 7)
    ensures Reached(Apply(b, cfg, OwnEvent(v, cfg, 7)), cfg, v, 8)
  {
    var b' := Apply(b, cfg, OwnEvent(v, cfg, 7));
    assert b'.log[|b.log|] == SealedFor(v.Pair(), v.encryption, ByClaim(v.Pair(), v.encryption));
  }

  // ---------- polling ----------

  /** A claim made in time before consent is given is told to wait, whatever its proof, and changes nothing. */
  lemma PollingIsToldToWait(b: Broker, cfg: Config, v: Visit, n: nat, proof: Signature, nowMs: int, enrolledMs: int,
                            expiryMs: int)
    requires 3 <= n <= 4 && Reached(b, cfg, v, n) && nowMs < v.ExpiresAt(cfg)
    ensures P.OpenClaim(b.pairings, v.draws.pairId, proof, nowMs).1 == P.ClaimRefused(P.NotAuthorizedYet)
    ensures Apply(b, cfg, Claim(v.draws.pairId, proof, nowMs, enrolledMs, expiryMs)) == b
  {}
}
