/** The broker as one step machine: every handler of broker/src/server.ts and
    broker/src/admin-server.ts cut at the awaits that leave the process, over the stores' own
    operations. A step carries its clock readings, its random draws and what the outside answered. */
module Protocol {
  import opened Terms
  import P = Pairings
  import E = Enrollment
  import R = EnrollmentRecords
  import B = BrokerServer
  import L = RateLimit

  datatype Config = Config(pairingCapacity: nat, codeCapacity: nat, codeTtlMs: int, pairingTtlMs: int,
                           nonceTtlMs: int, recordTtlMs: int, maxPairAttempts: nat, rateLimitWindowMs: nat)

  /** What has happened, oldest first. A pairing is named by the digest of its id. */
  datatype Fact =
    | Minted(code: Digest, approved: Digest)
    | Created(pair: Digest, code: Digest, signing: Pem, encryption: Pem, state: Digest, expiresAtMs: int)
    | StateConsumed(pair: Digest, state: Digest, handle: Digest, atMs: int)
    | Authorized(pair: Digest, handle: Digest, atMs: int)
    | Claimed(pair: Digest, signing: Pem, encryption: Pem, proof: Signature, atMs: int)
    | NonceIssued(pair: Digest, nonce: string, expiresAtMs: int)
    | NonceUsed(pair: Digest, nonce: string, signing: Pem, encryption: Pem, proof: Signature, atMs: int)
    | SealedFor(pair: Digest, encryption: Pem, grant: Grant)
    | RevokeBegun(pair: Digest)
    | RevokeCompleted(pair: Digest)
    | Restarted

  type Log = seq<Fact>

  /** A handler that has been told to mint a lease and is waiting for the provider. */
  datatype Grant = ByClaim(pair: Digest, encryption: Pem) | ByNonce(pair: Digest, nonce: string, encryption: Pem)

  /** The handler waiting for the store's one write, and the snapshot being written. */
  datatype Write = Write(snapshot: R.Records, owner: Owner)
  datatype Owner = ForClaim(pair: Digest, encryption: Pem) | ForRevocation(pair: Digest)

  /** An admin revoke between the pairing store and the record store. */
  datatype Revocation = Revocation(pairId: string, found: bool)

  datatype Broker = Broker(
    codes: map<Digest, E.CodeRecord>, pairings: P.Pairings, records: R.Records, disk: R.Records,
    write: Option<Write>, nonces: B.Nonces, attempts: L.Attempts, admitted: set<string>, callbacks: set<string>,
    revocations: set<Revocation>, grants: set<Grant>, drawn: set<string>, log: Log)

  datatype Event =
    | Mint(code: string, fingerprint: E.FingerprintText, nowMs: int)
    | PairAttempt(request: string, address: string, nowMs: int)
    | Pair(request: string, code: string, signing: Pem, encryption: Pem, redeemedMs: int, createdMs: int,
           draws: P.Draws)
    | Callback(oauthState: string, handle: string, nowMs: int)
    | CallbackEnds(handle: string, exchanged: bool, nowMs: int)
    | Claim(pairId: string, proof: Signature, nowMs: int, enrolledMs: int, expiryMs: int)
    | WriteEnds(io: R.WriteIo)
    | NonceRequest(pairId: string, nonce: string, checkedMs: int, nowMs: int)
    | LeaseRequest(pairId: string, nonce: string, proof: Signature, checkedMs: int, nowMs: int)
    | MintEnds(grant: Grant, sealed: bool)
    | AdminRevoke(pairId: string)
    | AdminRevokeRecord(revocation: Revocation)
    | Restart

  const NO_PAIRINGS := P.Pairings(map[], map[], map[], map[])

  function Start(disk: R.Records, drawn: set<string>, log: Log): Broker {
    Broker(map[], NO_PAIRINGS, disk, disk, None, map[], map[], {}, {}, {}, {}, drawn, log)
  }

  /** Random draws are new: a step that would repeat one does not happen. */
  predicate Fresh(b: Broker, draws: set<string>) { draws !! b.drawn }

  ghost function ApplyMint(b: Broker, cfg: Config, code: string, fingerprint: E.FingerprintText, nowMs: int): Broker {
    if !Fresh(b, {code}) then b else
    var (codes, result) := E.Issue(b.codes, cfg.codeCapacity, nowMs, cfg.codeTtlMs, fingerprint, code);
    var b' := b.(codes := codes, drawn := b.drawn + {code});
    if result.Minted? then b'.(log := b.log + [Minted(Sha256(code), Sha256OfHex(fingerprint.fingerprint))]) else b'
  }

  /** Expired pairings are dropped at the start of the operations that can meet one. */
  ghost function Evicted(b: Broker, nowMs: int): Broker { b.(pairings := P.Evict(b.pairings, nowMs)) }

  /** The rate limit decides before the request's body is read; a request that passes waits in `admitted`. */
  ghost function ApplyPairAttempt(b: Broker, cfg: Config, request: string, address: string, nowMs: int): Broker {
    var (attempts, allowed) :=
      L.Allow(b.attempts, L.Attempt(address, nowMs), cfg.maxPairAttempts, cfg.rateLimitWindowMs);
    b.(attempts := attempts, admitted := if allowed then b.admitted + {request} else b.admitted)
  }

  ghost function Heard(b: Broker, request: string): Broker { b.(admitted := b.admitted - {request}) }

  ghost function ApplyPairRequest(b: Broker, cfg: Config, request: string, code: string, signing: Pem, encryption: Pem,
      redeemedMs: int, createdMs: int, draws: P.Draws): Broker {
    if request !in b.admitted then b
    else ApplyPair(Heard(b, request), cfg, code, signing, encryption, redeemedMs, createdMs, draws)
  }

  /** A code is burned before the pairing is created, so a full pairing store or an unusable key costs the code. */
  ghost function ApplyPair(b: Broker, cfg: Config, code: string, signing: Pem, encryption: Pem,
                           redeemedMs: int, createdMs: int, draws: P.Draws): Broker
  {
    if signing.key.None? || !Fresh(b, {draws.pairId, draws.oauthState, draws.pkceVerifier})
       || draws.pairId == draws.oauthState then b else
    var (codes, redemption) := E.Consume(b.codes, code, redeemedMs, Some(E.Spells(Fingerprint(signing.key.value))));
    var b' := b.(codes := codes);
    if !redemption.Redeemed? || !(0 < cfg.pairingTtlMs <= P.MAX_PAIRING_TTL_MS) then b' else
    PairIn(Evicted(b', createdMs), cfg, Sha256(code),
      P.PairRequest(signing, encryption, createdMs, cfg.pairingTtlMs), draws)
  }

  ghost function PairIn(b: Broker, cfg: Config, code: Digest, request: P.PairRequest, draws: P.Draws): Broker {
    var (pairings, result) := P.CreateIn(b.pairings, cfg.pairingCapacity, request, draws);
    if !result.Created? then b else
    b.(pairings := pairings, drawn := b.drawn + {draws.pairId, draws.oauthState, draws.pkceVerifier},
       log := b.log + [Created(Sha256(draws.pairId), code, request.signing, request.encryption,
                               Sha256(draws.oauthState), result.expiresAtMs)])
  }

  ghost function ApplyCallback(b: Broker, oauthState: string, handle: string, nowMs: int): Broker {
    if !Fresh(b, {handle}) then b else CallbackIn(Evicted(b, nowMs), oauthState, handle, nowMs)
  }

  ghost function CallbackIn(b: Broker, oauthState: string, handle: string, nowMs: int): Broker {
    var (pairings, consumed) := P.ConsumeIn(b.pairings, oauthState, handle);
    if consumed.None? then b else
    var pair := b.pairings.states[Sha256(oauthState)];
    b.(pairings := pairings, drawn := b.drawn + {handle}, callbacks := b.callbacks + {handle},
       log := b.log + [StateConsumed(pair, Sha256(oauthState), Sha256(handle), nowMs)])
  }

  ghost function ApplyCallbackEnds(b: Broker, handle: string, exchanged: bool, nowMs: int): Broker {
    if handle !in b.callbacks then b else
    var b' := b.(callbacks := b.callbacks - {handle});
    if exchanged then AuthorizeIn(Evicted(b', nowMs), handle, nowMs) else b'
  }

  ghost function AuthorizeIn(b: Broker, handle: string, nowMs: int): Broker {
    var (pairings, done) := P.AuthorizeIn(b.pairings, handle);
    if !done then b else
    b.(pairings := pairings, log := b.log + [Authorized(b.pairings.handles[Sha256(handle)], Sha256(handle), nowMs)])
  }

  /** Opening the claim, filling the record in memory and starting its write are one step; store writes
      do not overlap. A record the store refuses leaves the pairing enrolled without one. */
  ghost function ApplyClaim(b: Broker, cfg: Config, pairId: string, proof: Signature, nowMs: int, enrolledMs: int,
      expiryMs: int): Broker {
    var (pairings, result) := P.OpenClaim(b.pairings, pairId, proof, nowMs);
    if !result.Claimed? then b.(pairings := pairings)
    else if b.write.Some? then b else
    ClaimIn(b, pairings,
      R.RecordInput(pairId, result.signing, result.encryption, enrolledMs, expiryMs + cfg.recordTtlMs), proof, nowMs)
  }

  ghost function ClaimIn(b: Broker, pairings: P.Pairings, input: R.RecordInput, proof: Signature, nowMs: int): Broker {
    EnrollIn(b.(pairings := pairings,
                log := b.log + [Claimed(Sha256(input.pairId), input.signing, input.encryption, proof, nowMs)]), input)
  }

  ghost function EnrollIn(b: Broker, input: R.RecordInput): Broker {
    if !R.Acceptable(input) then b else
    var records := R.Record(b.records, input);
    b.(records := records, write := Some(Write(records, ForClaim(Sha256(input.pairId), input.encryption))))
  }

  ghost function ApplyWriteEnds(b: Broker, io: R.WriteIo): Broker {
    if b.write.None? then b else
    var write := b.write.value;
    var b' := b.(write := None, disk := if io.FailsBeforeRename? then b.disk else write.snapshot);
    if !io.Written? then b' else
    match write.owner
    case ForClaim(pair, encryption) => b'.(grants := b.grants + {ByClaim(pair, encryption)})
    case ForRevocation(pair) => b'.(log := b.log + [RevokeCompleted(pair)])
  }

  ghost function ApplyNonceRequest(b: Broker, cfg: Config, pairId: string, nonce: string, checkedMs: int,
      nowMs: int): Broker {
    if !Fresh(b, {nonce}) then b else
    var (nonces, reply) := B.IssueDurableNonce(b.nonces, P.StatusOf(b.pairings, pairId), R.Find(b.records, pairId),
                                               pairId, checkedMs, nowMs, cfg.nonceTtlMs, nonce);
    var b' := b.(nonces := nonces, drawn := b.drawn + {nonce});
    if !reply.NonceIssued? then b' else
    b'.(log := b.log + [NonceIssued(Sha256(pairId), nonce, reply.expiresAtMs)])
  }

  ghost function ApplyLeaseRequest(b: Broker, pairId: string, nonce: string, proof: Signature, checkedMs: int,
      nowMs: int): Broker {
    var record := R.Find(b.records, pairId);
    var (nonces, reply) := B.ConsumeDurableNonce(b.nonces, P.StatusOf(b.pairings, pairId), record, pairId, nonce, proof,
      checkedMs, nowMs);
    if !reply.LeaseAllowed? then b.(nonces := nonces) else
    b.(nonces := nonces, grants := b.grants + {ByNonce(Sha256(pairId), nonce, reply.encryption)},
       log := b.log + [NonceUsed(Sha256(pairId), nonce, record.value.signing, reply.encryption, proof, nowMs)])
  }

  ghost function ApplyMintEnds(b: Broker, grant: Grant, sealed: bool): Broker {
    if grant !in b.grants then b else
    var b' := b.(grants := b.grants - {grant});
    if sealed then b'.(log := b.log + [SealedFor(grant.pair, grant.encryption, grant)]) else b'
  }

  ghost function ApplyAdminRevoke(b: Broker, pairId: string): Broker {
    var (pairings, found) := P.Revoke(b.pairings, pairId);
    b.(pairings := pairings, revocations := b.revocations + {Revocation(pairId, found)},
       log := if found then b.log + [RevokeBegun(Sha256(pairId))] else b.log)
  }

  ghost function ApplyAdminRevokeRecord(b: Broker, revocation: Revocation): Broker {
    var pair := Sha256(revocation.pairId);
    if revocation !in b.revocations || (b.write.Some? && pair in b.records) then b else
    var b' := b.(revocations := b.revocations - {revocation});
    if pair in b.records then
      var records := R.Revoke(b.records, revocation.pairId);
      b'.(records := records, write := Some(Write(records, ForRevocation(pair))))
    else if revocation.found then b'.(log := b.log + [RevokeCompleted(pair)])
    else b'
  }

  ghost function Apply(b: Broker, cfg: Config, event: Event): Broker {
    match event
    case Mint(code, fingerprint, nowMs) => ApplyMint(b, cfg, code, fingerprint, nowMs)
    case PairAttempt(request, address, nowMs) => ApplyPairAttempt(b, cfg, request, address, nowMs)
    case Pair(request, code, signing, encryption, redeemedMs, createdMs, draws) =>
      ApplyPairRequest(b, cfg, request, code, signing, encryption, redeemedMs, createdMs, draws)
    case Callback(oauthState, handle, nowMs) => ApplyCallback(b, oauthState, handle, nowMs)
    case CallbackEnds(handle, exchanged, nowMs) => ApplyCallbackEnds(b, handle, exchanged, nowMs)
    case Claim(pairId, proof, nowMs, enrolledMs, expiryMs) =>
      ApplyClaim(b, cfg, pairId, proof, nowMs, enrolledMs, expiryMs)
    case WriteEnds(io) => ApplyWriteEnds(b, io)
    case NonceRequest(pairId, nonce, checkedMs, nowMs) => ApplyNonceRequest(b, cfg, pairId, nonce, checkedMs, nowMs)
    case LeaseRequest(pairId, nonce, proof, checkedMs, nowMs) =>
      ApplyLeaseRequest(b, pairId, nonce, proof, checkedMs, nowMs)
    case MintEnds(grant, sealed) => ApplyMintEnds(b, grant, sealed)
    case AdminRevoke(pairId) => ApplyAdminRevoke(b, pairId)
    case AdminRevokeRecord(revocation) => ApplyAdminRevokeRecord(b, revocation)
    case Restart => Start(b.disk, b.drawn, b.log + [Restarted])
  }

  ghost function Run(cfg: Config, events: seq<Event>): Broker {
    if events == [] then Start(map[], {}, [])
    else Apply(Run(cfg, events[..|events| - 1]), cfg, events[|events| - 1])
  }
}
