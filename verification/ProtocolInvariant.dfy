/** What every step of the broker keeps: each stored item is backed by the facts that led to it, and
    each new fact is allowed by the facts before it. */
module ProtocolInvariant {
  import opened Terms
  import opened Protocol
  import P = Pairings
  import E = Enrollment
  import R = EnrollmentRecords
  import B = BrokerServer

  // ---------- questions about the log ----------

  ghost predicate CreatedAs(log: Log, pair: Digest, signing: Pem, encryption: Pem, state: Digest, expiresAtMs: int) {
    exists f :: f in log && f.Created? && f.pair == pair && f.signing == signing && f.encryption == encryption
                && f.state == state && f.expiresAtMs == expiresAtMs
  }

  ghost predicate ConsumedAs(log: Log, pair: Digest, handle: Digest) {
    exists f :: f in log && f.StateConsumed? && f.pair == pair && f.handle == handle
  }

  ghost predicate ClaimedAs(log: Log, pair: Digest, signing: Pem, encryption: Pem) {
    exists f :: f in log && f.Claimed? && f.pair == pair && f.signing == signing && f.encryption == encryption
  }

  ghost predicate UsedAs(log: Log, pair: Digest, nonce: string, encryption: Pem) {
    exists f :: f in log && f.NonceUsed? && f.pair == pair && f.nonce == nonce && f.encryption == encryption
  }

  ghost predicate NoCreated(log: Log, pair: Digest) { forall f :: f in log && f.Created? ==> f.pair != pair }
  ghost predicate NoRedeemed(log: Log, code: Digest) { forall f :: f in log && f.Created? ==> f.code != code }
  ghost predicate NoMinted(log: Log, code: Digest) { forall f :: f in log && f.Minted? ==> f.code != code }
  ghost predicate NoConsumed(log: Log, pair: Digest) { forall f :: f in log && f.StateConsumed? ==> f.pair != pair }
  ghost predicate NoAuthorized(log: Log, pair: Digest) { forall f :: f in log && f.Authorized? ==> f.pair != pair }
  ghost predicate NoClaimed(log: Log, pair: Digest) { forall f :: f in log && f.Claimed? ==> f.pair != pair }
  ghost predicate NoIssued(log: Log, nonce: string) { forall f :: f in log && f.NonceIssued? ==> f.nonce != nonce }
  ghost predicate NoUsed(log: Log, nonce: string) { forall f :: f in log && f.NonceUsed? ==> f.nonce != nonce }

  ghost predicate IssuedSinceRestart(log: Log, pair: Digest, nonce: string, expiresAtMs: int) {
    exists i :: 0 <= i < |log| && log[i] == NonceIssued(pair, nonce, expiresAtMs) && NoRestartIn(log, i)
  }

  ghost predicate NoRestartIn(log: Log, from: int) { forall j :: 0 <= from < j < |log| ==> !log[j].Restarted? }

  /** No revoke of the pairing has begun, let alone been completed. */
  ghost predicate NotRevoked(log: Log, pair: Digest) { RevokeBegun(pair) !in log && RevokeCompleted(pair) !in log }

  /** When a fact may follow the facts before it. */
  ghost predicate Allowed(log: Log, e: Fact) {
    match e
    case Minted(code, _) => NoMinted(log, code)
    case Created(pair, code, signing, _, _, _) =>
      && signing.key.Some? && Fact.Minted(code, Sha256OfHex(Fingerprint(signing.key.value))) in log
      && NoCreated(log, pair) && NoRedeemed(log, code)
    case StateConsumed(pair, state, _, atMs) =>
      && (exists f :: f in log && f.Created? && f.pair == pair && f.state == state && atMs < f.expiresAtMs)
      && NoConsumed(log, pair) && NotRevoked(log, pair)
    case Authorized(pair, handle, atMs) =>
      && ConsumedAs(log, pair, handle)
      && (exists f :: f in log && f.Created? && f.pair == pair && atMs < f.expiresAtMs)
      && NoAuthorized(log, pair) && NotRevoked(log, pair)
    case Claimed(pair, signing, encryption, proof, atMs) =>
      && (exists f :: f in log && f.Created? && f.pair == pair && f.signing == signing && f.encryption == encryption
                      && atMs < f.expiresAtMs && Verifies(signing, PairingProof(pair, f.expiresAtMs), proof))
      && (exists f :: f in log && f.Authorized? && f.pair == pair)
      && NoClaimed(log, pair) && NotRevoked(log, pair)
    case NonceIssued(pair, nonce, _) =>
      && (exists f :: f in log && f.Claimed? && f.pair == pair)
      && NoIssued(log, nonce) && RevokeCompleted(pair) !in log
    case NonceUsed(pair, nonce, signing, encryption, proof, atMs) =>
      && (exists expiresAtMs :: IssuedSinceRestart(log, pair, nonce, expiresAtMs) && atMs < expiresAtMs)
      && ClaimedAs(log, pair, signing, encryption) && Verifies(signing, NonceBytes(nonce), proof)
      && NoUsed(log, nonce) && RevokeCompleted(pair) !in log
    case SealedFor(pair, encryption, grant) =>
      && grant.pair == pair && grant.encryption == encryption && GrantTold(log, grant)
    case RevokeBegun(pair) => exists f :: f in log && f.Created? && f.pair == pair
    case RevokeCompleted(pair) => exists f :: f in log && f.Created? && f.pair == pair
    case Restarted => true
  }

  ghost predicate LogAllowed(log: Log) {
    log == [] || (LogAllowed(log[..|log| - 1]) && Allowed(log[..|log| - 1], log[|log| - 1]))
  }

  ghost predicate GrantTold(log: Log, grant: Grant) {
    match grant
    case ByClaim(pair, encryption) => exists signing :: ClaimedAs(log, pair, signing, encryption)
    case ByNonce(pair, nonce, encryption) => UsedAs(log, pair, nonce, encryption)
  }

  // ---------- the invariant, item by item ----------

  ghost predicate Drawn(drawn: set<string>, d: Digest) { d.Sha256? && d.preimage in drawn }

  ghost predicate FactDrawn(drawn: set<string>, f: Fact) {
    match f
    case Minted(code, _) => Drawn(drawn, code)
    case Created(pair, code, _, _, _, _) => Drawn(drawn, pair) && Drawn(drawn, code)
    case StateConsumed(pair, _, _, _) => Drawn(drawn, pair)
    case Authorized(pair, _, _) => Drawn(drawn, pair)
    case Claimed(pair, _, _, _, _) => Drawn(drawn, pair)
    case NonceIssued(_, nonce, _) => nonce in drawn
    case NonceUsed(_, nonce, _, _, _, _) => nonce in drawn
    case _ => true
  }

  ghost predicate CodeTold(log: Log, c: Digest, record: E.CodeRecord) {
    record.codeHash == c && Fact.Minted(c, record.expectedFingerprintHash) in log
      && (!record.used ==> NoRedeemed(log, c))
  }

  ghost predicate PairingTold(log: Log, drawn: set<string>, k: Digest, r: P.Pairing) {
    && Drawn(drawn, k) && Drawn(drawn, r.stateHash)
    && (r.handleHash.Some? ==> Drawn(drawn, r.handleHash.value))
    && r.proofMessage == PairingProof(k, r.expiresAtMs)
    && CreatedAs(log, k, r.signing, r.encryption, r.stateHash, r.expiresAtMs)
    && (r.status == P.Pending ==> NoConsumed(log, k))
    && (r.status == P.Pending || r.status == P.CallbackStateConsumed ==> NoAuthorized(log, k))
    && (r.status == P.Pending || r.status == P.CallbackStateConsumed || r.status == P.Authorized ==> NoClaimed(log, k))
    && (r.status == P.CallbackStateConsumed && r.handleHash.Some? ==> ConsumedAs(log, k, r.handleHash.value))
    && (r.status == P.Authorized ==> exists f :: f in log && f.Authorized? && f.pair == k)
    && (r.status == P.Enrolled ==> exists f :: f in log && f.Claimed? && f.pair == k)
  }

  ghost predicate DeviceTold(log: Log, k: Digest, d: R.Device) {
    d.pairIdHash == k && ClaimedAs(log, k, d.signing, d.encryption)
  }

  ghost predicate DevicesTold(log: Log, devices: R.Records) {
    forall k {:trigger DeviceTold(log, k, devices[k])} :: k in devices ==> DeviceTold(log, k, devices[k])
  }

  ghost predicate NonceTold(log: Log, drawn: set<string>, h: Digest, entry: P.NonceEntry) {
    && Drawn(drawn, h) && NoUsed(log, h.preimage)
    && IssuedSinceRestart(log, entry.pairKey, h.preimage, entry.expiresAtMs)
  }

  /** The pairing existed, and is gone or revoked. */
  ghost predicate Stopped(b: Broker, k: Digest) {
    && (exists f :: f in b.log && f.Created? && f.pair == k)
    && (k in b.pairings.records ==> b.pairings.records[k].status == P.Revoked)
  }

  /** No step can bring this pairing to a claim, and its record, if it has one, refuses it. */
  ghost predicate Refused(b: Broker, k: Digest) {
    && (exists f :: f in b.log && f.Created? && f.pair == k)
    && (k in b.pairings.records ==>
      b.pairings.records[k].status == P.Revoked || b.pairings.records[k].status == P.Enrolled)
    && (k in b.records ==> b.records[k].revoked)
  }

  ghost predicate RefusedForGood(b: Broker, k: Digest) {
    && Refused(b, k)
    && (k in b.disk ==> b.disk[k].revoked)
    && (b.write.Some? && k in b.write.value.snapshot ==> b.write.value.snapshot[k].revoked)
  }

  ghost predicate RevocationTold(b: Broker, revocation: Revocation) {
    revocation.found ==> RevokeBegun(Sha256(revocation.pairId)) in b.log
  }

  ghost predicate WriteTold(b: Broker) {
    b.write.Some? ==>
      var write := b.write.value;
      && write.snapshot.Keys <= b.records.Keys
      && DevicesTold(b.log, write.snapshot)
      && match write.owner
         case ForClaim(pair, encryption) => exists signing :: ClaimedAs(b.log, pair, signing, encryption)
         case ForRevocation(pair) => Refused(b, pair) && pair in write.snapshot && write.snapshot[pair].revoked
  }

  /** What a revoke that has begun, or is completed, keeps in force. */
  ghost predicate RevokesHold(b: Broker, f: Fact) {
    (f.RevokeBegun? ==> Stopped(b, f.pair)) && (f.RevokeCompleted? ==> RefusedForGood(b, f.pair))
  }

  ghost predicate LogOk(b: Broker) {
    && LogAllowed(b.log)
    && (forall f {:trigger FactDrawn(b.drawn, f)} :: f in b.log ==> FactDrawn(b.drawn, f))
    && (forall f {:trigger f in b.log} :: f in b.log ==> RevokesHold(b, f))
  }

  ghost predicate PairingsOk(b: Broker, cfg: Config) {
    && P.Consistent(b.pairings, cfg.pairingCapacity)
    && b.pairings.nonces == map[]
    && (forall h :: h in b.pairings.states ==> Drawn(b.drawn, h))
    && (forall h :: h in b.pairings.handles ==> Drawn(b.drawn, h) && Drawn(b.drawn, b.pairings.handles[h]))
    && (forall k {:trigger PairingTold(b.log, b.drawn, k, b.pairings.records[k])} :: k in b.pairings.records ==>
          PairingTold(b.log, b.drawn, k, b.pairings.records[k]))
  }

  ghost predicate CodesOk(b: Broker, cfg: Config) {
    && E.Sound(b.codes, cfg.codeCapacity)
    && (forall c {:trigger CodeTold(b.log, c, b.codes[c])} :: c in b.codes ==> CodeTold(b.log, c, b.codes[c]))
  }

  ghost predicate RecordsOk(b: Broker) {
    && DevicesTold(b.log, b.records) && DevicesTold(b.log, b.disk) && b.disk.Keys <= b.records.Keys
    && WriteTold(b)
  }

  ghost predicate TasksOk(b: Broker) {
    && (forall h {:trigger NonceTold(b.log, b.drawn, h, b.nonces[h])} ::
      h in b.nonces ==> NonceTold(b.log, b.drawn, h, b.nonces[h]))
    && (forall g {:trigger GrantTold(b.log, g)} :: g in b.grants ==> GrantTold(b.log, g))
    && (forall r {:trigger RevocationTold(b, r)} :: r in b.revocations ==> RevocationTold(b, r))
  }

  ghost predicate Inv(b: Broker, cfg: Config) {
    LogOk(b) && PairingsOk(b, cfg) && CodesOk(b, cfg) && RecordsOk(b) && TasksOk(b)
  }
}
