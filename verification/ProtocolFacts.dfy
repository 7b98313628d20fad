/** Exactly which fact a step adds, in terms of the records, codes and nonces it finds. */
module ProtocolFacts {
  import opened Terms
  import opened Protocol
  import opened ProtocolInvariant
  import opened ProtocolSteps
  import P = Pairings
  import E = Enrollment
  import R = EnrollmentRecords
  import B = BrokerServer

  function Told(log: Log, told: bool, f: Fact): Log { if told then log + [f] else log }

  /** A code is minted exactly for a good fingerprint, in a good time and with room. */
  lemma MintedIff(b: Broker, cfg: Config, code: string, fingerprint: E.FingerprintText, nowMs: int)
    requires Fresh(b, {code})
    ensures
      var minted := nowMs >= 0 && E.MIN_TTL_MS <= cfg.codeTtlMs <= E.MAX_TTL_MS && fingerprint.Spells?
                    && |E.LiveCodes(b.codes, nowMs)| < cfg.codeCapacity;
      ApplyMint(b, cfg, code, fingerprint, nowMs).log
      == if minted then b.log + [Fact.Minted(Sha256(code), Sha256OfHex(fingerprint.fingerprint))] else b.log
  {
    E.MintAnswers(b.codes, cfg.codeCapacity, nowMs, cfg.codeTtlMs, fingerprint, code);
  }

  /** A callback is told exactly when a pairing waits for its state. */
  lemma StateConsumedIff(b: Broker, cfg: Config, oauthState: string, handle: string, nowMs: int)
    requires Inv(b, cfg) && Fresh(b, {handle})
    ensures
      var records, after := b.pairings.records, ApplyCallback(b, oauthState, handle, nowMs);
      && (forall k :: P.WaitsFor(records, k, oauthState, nowMs) ==>
            after.log == b.log + [StateConsumed(k, Sha256(oauthState), Sha256(handle), nowMs)]
            && after.callbacks == b.callbacks + {handle})
      && ((forall k :: !P.WaitsFor(records, k, oauthState, nowMs)) ==>
            after.log == b.log && after.callbacks == b.callbacks)
  {
    P.ConsumeAnswers(b.pairings, cfg.pairingCapacity, oauthState, nowMs, handle);
    forall k | P.WaitsFor(b.pairings.records, k, oauthState, nowMs)
      ensures P.Evict(b.pairings, nowMs).states[Sha256(oauthState)] == k
    {
      StateLeadsTo(b.pairings, cfg.pairingCapacity, k, oauthState, nowMs);
    }
  }

  lemma StateLeadsTo(p: P.Pairings, capacity: nat, k: Digest, oauthState: string, nowMs: int)
    requires P.Consistent(p, capacity) && P.WaitsFor(p.records, k, oauthState, nowMs)
    ensures Sha256(oauthState) in P.Evict(p, nowMs).states && P.Evict(p, nowMs).states[Sha256(oauthState)] == k
  {
    P.EvictKeepsConsistent(p, capacity, nowMs);
    P.EvictedRecords(p, nowMs);
    assert P.RecordIndexed(P.Evict(p, nowMs), k);
  }

  /** An approval is told exactly when the exchange succeeded and a pairing awaits it with this handle; a failed
      exchange ends the handler and leaves every pairing as it is. */
  lemma AuthorizedIff(b: Broker, cfg: Config, handle: string, exchanged: bool, nowMs: int)
    requires Inv(b, cfg) && handle in b.callbacks
    ensures
      var records, after := b.pairings.records, ApplyCallbackEnds(b, handle, exchanged, nowMs);
      && (forall k :: exchanged && P.AwaitsApproval(records, k, handle, nowMs) ==>
            after.log == b.log + [Authorized(k, Sha256(handle), nowMs)])
      && ((forall k :: !P.AwaitsApproval(records, k, handle, nowMs)) ==> after.log == b.log)
      && (!exchanged ==> after == b.(callbacks := b.callbacks - {handle}))
  {
    P.AuthorizeAnswers(b.pairings, cfg.pairingCapacity, handle, nowMs);
    forall k | P.AwaitsApproval(b.pairings.records, k, handle, nowMs)
      ensures P.Evict(b.pairings, nowMs).handles[Sha256(handle)] == k
    {
      HandleLeadsTo(b.pairings, cfg.pairingCapacity, k, handle, nowMs);
    }
  }

  lemma HandleLeadsTo(p: P.Pairings, capacity: nat, k: Digest, handle: string, nowMs: int)
    requires P.Consistent(p, capacity) && P.AwaitsApproval(p.records, k, handle, nowMs)
    ensures Sha256(handle) in P.Evict(p, nowMs).handles && P.Evict(p, nowMs).handles[Sha256(handle)] == k
  {
    P.EvictKeepsConsistent(p, capacity, nowMs);
    P.EvictedRecords(p, nowMs);
    assert P.RecordIndexed(P.Evict(p, nowMs), k);
  }

  /** A claim is told exactly when it opens, with the pairing's own keys, and no other write is under way. */
  lemma ClaimedIff(b: Broker, cfg: Config, pairId: string, proof: Signature, nowMs: int, enrolledMs: int, expiryMs: int)
    requires b.write.None?
    ensures
      var k := Sha256(pairId);
      var opens := P.Live(b.pairings.records, k, nowMs) && b.pairings.records[k].status == P.Authorized
                   && Verifies(b.pairings.records[k].signing, b.pairings.records[k].proofMessage, proof);
      ApplyClaim(b, cfg, pairId, proof, nowMs, enrolledMs, expiryMs).log ==
        if opens
        then b.log + [Claimed(k, b.pairings.records[k].signing, b.pairings.records[k].encryption, proof, nowMs)]
        else b.log
  {
    P.ClaimAnswers(b.pairings, pairId, proof, nowMs);
    if P.OpenClaim(b.pairings, pairId, proof, nowMs).1.Claimed? {
      ClaimIsIn(b, cfg, pairId, proof, nowMs, enrolledMs, expiryMs);
    }
  }

  /** A nonce is told exactly when it is issued, to a device neither refused nor waiting. */
  lemma NonceIssuedIff(b: Broker, cfg: Config, pairId: string, nonce: string, checkedMs: int, nowMs: int)
    requires Fresh(b, {nonce})
    ensures
      var phase, record := P.StatusOf(b.pairings, pairId), R.Find(b.records, pairId);
      ApplyNonceRequest(b, cfg, pairId, nonce, checkedMs, nowMs).log ==
        Told(b.log, !B.Refused(phase, record, checkedMs) && !B.Waiting(phase, record),
             NonceIssued(Sha256(pairId), nonce, nowMs + cfg.nonceTtlMs))
  {
    var phase, record := P.StatusOf(b.pairings, pairId), R.Find(b.records, pairId);
    B.NonceAnswers(b.nonces, phase, record, pairId, checkedMs, nowMs, cfg.nonceTtlMs, nonce);
    B.DurableNonceIssue(b.nonces, phase, record, pairId, checkedMs, nowMs, cfg.nonceTtlMs, nonce);
  }

  /** A nonce's use is told exactly when it is good, and proved with the key of the device's record. */
  lemma NonceUsedIff(b: Broker, pairId: string, nonce: string, proof: Signature, checkedMs: int, nowMs: int)
    ensures
      var phase, record := P.StatusOf(b.pairings, pairId), R.Find(b.records, pairId);
      var used := !B.Refused(phase, record, checkedMs) && !B.Waiting(phase, record)
                  && P.Usable(b.nonces, Sha256(pairId), nonce, nowMs)
                  && Verifies(record.value.signing, NonceBytes(nonce), proof);
      ApplyLeaseRequest(b, pairId, nonce, proof, checkedMs, nowMs).log ==
        if used
        then b.log + [NonceUsed(Sha256(pairId), nonce, record.value.signing, record.value.encryption, proof, nowMs)]
        else b.log
  {
    var phase, record := P.StatusOf(b.pairings, pairId), R.Find(b.records, pairId);
    B.LeaseAnswers(b.nonces, phase, record, pairId, nonce, proof, checkedMs, nowMs);
  }

  /** A lease is sealed exactly when a handler that was told to mint one ends with it. */
  lemma SealedIff(b: Broker, grant: Grant, sealed: bool)
    ensures ApplyMintEnds(b, grant, sealed).log
            == Told(b.log, grant in b.grants && sealed, SealedFor(grant.pair, grant.encryption, grant))
  {}

  /** A revoke begins exactly when its pairing is held, and is completed exactly by a write of its flagged record, or at
      once where there is no record and there was a pairing. */
  lemma RevokeToldIff(b: Broker, pairId: string, revocation: Revocation, io: R.WriteIo)
    ensures ApplyAdminRevoke(b, pairId).log
            == Told(b.log, Sha256(pairId) in b.pairings.records, RevokeBegun(Sha256(pairId)))
    ensures ApplyAdminRevokeRecord(b, revocation).log
            == Told(b.log, revocation in b.revocations && Sha256(revocation.pairId) !in b.records && revocation.found,
                    RevokeCompleted(Sha256(revocation.pairId)))
    ensures b.write.Some? && b.write.value.owner.ForRevocation? ==>
      ApplyWriteEnds(b, io).log == Told(b.log, io.Written?, RevokeCompleted(b.write.value.owner.pair))
    ensures b.write.None? || b.write.value.owner.ForClaim? ==> ApplyWriteEnds(b, io).log == b.log
  {}
}
