/** The closures of the broker server that own state (broker/src/server.ts:148-262): the rate limit
    and the process-local nonces that renew a lease against the durable record. */
module BrokerServer {
  import opened Terms
  import opened Pairings
  import EnrollmentRecords
  import RateLimit

  type Nonces = map<Digest, NonceEntry>

  datatype Refusal = NotAuthorizedYetReply | RevokedReply | InvalidNonceReply | InvalidProofReply

  datatype NonceReply = NonceIssued(nonce: string, expiresAtMs: int) | NonceRefused(reason: Refusal)

  datatype LeaseReply = LeaseAllowed(encryption: Pem) | LeaseRefused(reason: Refusal)

  predicate HandshakeInProgress(phase: Option<Status>) {
    phase == Some(Pending) || phase == Some(CallbackStateConsumed) || phase == Some(Authorized)
  }

  /** `phase` is the handshake status this process holds, `record` what the durable store found. */
  function IssueDurableNonce(nonces: Nonces, phase: Option<Status>, record: Option<EnrollmentRecords.Device>,
                             pairId: string, checkedMs: int, nowMs: int, ttlMs: int, nonce: string)
      : (Nonces, NonceReply)
  {
    if phase == Some(Revoked) then (nonces, NonceRefused(RevokedReply))
    else if record.None? || record.value.revoked || checkedMs >= record.value.expiresAtMs then
      (nonces, NonceRefused(if record.None? && HandshakeInProgress(phase) then NotAuthorizedYetReply else RevokedReply))
    else (nonces[Sha256(nonce) := NonceEntry(Sha256(pairId), nowMs + ttlMs)], NonceIssued(nonce, nowMs + ttlMs))
  }

  function ConsumeDurableNonce(nonces: Nonces, phase: Option<Status>, record: Option<EnrollmentRecords.Device>,
                               pairId: string, nonce: string, proof: Signature, checkedMs: int, nowMs: int)
      : (Nonces, LeaseReply)
  {
    var hash := Sha256(nonce);
    if phase == Some(Revoked) then (nonces, LeaseRefused(RevokedReply))
    else if record.None? then
      (nonces, LeaseRefused(if HandshakeInProgress(phase) then NotAuthorizedYetReply else RevokedReply))
    else if record.value.revoked || checkedMs >= record.value.expiresAtMs then (nonces, LeaseRefused(RevokedReply))
    else if hash !in nonces || nonces[hash].pairKey != Sha256(pairId) then (nonces, LeaseRefused(InvalidNonceReply))
    else if nowMs >= nonces[hash].expiresAtMs then (nonces - {hash}, LeaseRefused(InvalidNonceReply))
    else if !Verifies(record.value.signing, NonceBytes(nonce), proof) then
      (nonces - {hash}, LeaseRefused(InvalidProofReply))
    else (nonces - {hash}, LeaseAllowed(record.value.encryption))
  }

  /** Exactly when a nonce opens a lease, and what every attempt at it leaves behind: an attempt in the
      name of another pairing leaves it, one that got as far as the proof burns it. */
  lemma DurableNonceUse(nonces: Nonces, phase: Option<Status>, record: Option<EnrollmentRecords.Device>,
                        pairId: string, nonce: string, proof: Signature, checkedMs: int, nowMs: int)
    ensures
      var (left, reply) := ConsumeDurableNonce(nonces, phase, record, pairId, nonce, proof, checkedMs, nowMs);
      var hash := Sha256(nonce);
      && (reply.LeaseAllowed? <==>
            && phase != Some(Revoked) && record.Some? && !record.value.revoked && checkedMs < record.value.expiresAtMs
            && hash in nonces && nonces[hash].pairKey == Sha256(pairId) && nowMs < nonces[hash].expiresAtMs
            && Verifies(record.value.signing, NonceBytes(nonce), proof))
      && (reply.LeaseAllowed? || reply == LeaseRefused(InvalidProofReply) ==> hash !in left)
      && (hash in nonces && nonces[hash].pairKey != Sha256(pairId) ==> left == nonces && !reply.LeaseAllowed?)
      && (forall h :: h != hash ==> (h in left <==> h in nonces))
      && (forall h :: h in left ==> left[h] == nonces[h])
  {}

  /** Exactly when a nonce is issued, what is then stored, and that a refusal stores nothing and tells a device
      that is still enrolling to wait. */
  lemma DurableNonceIssue(nonces: Nonces, phase: Option<Status>, record: Option<EnrollmentRecords.Device>,
                          pairId: string, checkedMs: int, nowMs: int, ttlMs: int, nonce: string)
    ensures
      var (stored, reply) := IssueDurableNonce(nonces, phase, record, pairId, checkedMs, nowMs, ttlMs, nonce);
      && (reply.NonceIssued? <==>
            phase != Some(Revoked) && record.Some? && !record.value.revoked && checkedMs < record.value.expiresAtMs)
      && (reply.NonceIssued? ==>
            reply == NonceIssued(nonce, nowMs + ttlMs)
            && stored == nonces[Sha256(nonce) := NonceEntry(Sha256(pairId), reply.expiresAtMs)])
      && (!reply.NonceIssued? ==> stored == nonces)
      && (reply == NonceRefused(NotAuthorizedYetReply) <==> record.None? && HandshakeInProgress(phase))
  {}

  /** A nonce just issued opens a lease exactly for its own pairing, in time, with a proof by the device's key, while
      the device is enrolled. */
  lemma IssuedNonceOpensIff(nonces: Nonces, phase: Option<Status>, record: Option<EnrollmentRecords.Device>,
                            pairId: string, checkedMs: int, nowMs: int, ttlMs: int, nonce: string,
                            laterPhase: Option<Status>, laterRecord: Option<EnrollmentRecords.Device>, otherId: string,
                            proof: Signature, laterCheckedMs: int, laterMs: int)
    requires IssueDurableNonce(nonces, phase, record, pairId, checkedMs, nowMs, ttlMs, nonce).1.NonceIssued?
    ensures
      var stored := IssueDurableNonce(nonces, phase, record, pairId, checkedMs, nowMs, ttlMs, nonce).0;
      var reply := ConsumeDurableNonce(stored, laterPhase, laterRecord, otherId, nonce, proof,
        laterCheckedMs, laterMs).1;
      reply.LeaseAllowed? <==>
        && otherId == pairId && laterMs < nowMs + ttlMs && laterPhase != Some(Revoked)
        && laterRecord.Some? && !laterRecord.value.revoked && laterCheckedMs < laterRecord.value.expiresAtMs
        && Verifies(laterRecord.value.signing, NonceBytes(nonce), proof)
  {
    DurableNonceIssue(nonces, phase, record, pairId, checkedMs, nowMs, ttlMs, nonce);
    DurableNonceUse(IssueDurableNonce(nonces, phase, record, pairId, checkedMs, nowMs, ttlMs, nonce).0,
                    laterPhase, laterRecord, otherId, nonce, proof, laterCheckedMs, laterMs);
  }

  /** A device the broker refuses for good: revoked in the handshake, or its record revoked, expired or missing with
      no handshake under way. */
  predicate Refused(phase: Option<Status>, record: Option<EnrollmentRecords.Device>, checkedMs: int) {
    || phase == Some(Revoked)
    || (record.None? && !HandshakeInProgress(phase))
    || (record.Some? && (record.value.revoked || checkedMs >= record.value.expiresAtMs))
  }

  predicate Waiting(phase: Option<Status>, record: Option<EnrollmentRecords.Device>) {
    record.None? && (phase == Some(Pending) || phase == Some(CallbackStateConsumed) || phase == Some(Authorized))
  }

  predicate NonceAnswer(phase: Option<Status>, record: Option<EnrollmentRecords.Device>, checkedMs: int,
      reply: NonceReply)
  {
    && (reply == NonceRefused(RevokedReply) <==> Refused(phase, record, checkedMs))
    && (reply == NonceRefused(NotAuthorizedYetReply) <==> Waiting(phase, record))
    && (reply.NonceIssued? <==> !Refused(phase, record, checkedMs) && !Waiting(phase, record))
  }

  /** The nonce is looked at only for a device that is neither refused nor waiting, the proof only for a good nonce. */
  predicate LeaseAnswer(nonces: Nonces, phase: Option<Status>, record: Option<EnrollmentRecords.Device>, pairId: string,
      nonce: string, proof: Signature, checkedMs: int, nowMs: int, reply: LeaseReply)
  {
    var usable := Usable(nonces, Sha256(pairId), nonce, nowMs);
    var enrolled := !Refused(phase, record, checkedMs) && !Waiting(phase, record);
    && (reply == LeaseRefused(RevokedReply) <==> Refused(phase, record, checkedMs))
    && (reply == LeaseRefused(NotAuthorizedYetReply) <==> Waiting(phase, record))
    && (reply == LeaseRefused(InvalidNonceReply) <==> enrolled && !usable)
    && (enrolled ==>
          record.Some?
          && var proved := Verifies(record.value.signing, NonceBytes(nonce), proof);
          && (reply == LeaseRefused(InvalidProofReply) <==> usable && !proved)
          && (reply == LeaseAllowed(record.value.encryption) <==> usable && proved))
  }

  lemma NonceAnswers(nonces: Nonces, phase: Option<Status>, record: Option<EnrollmentRecords.Device>, pairId: string,
                     checkedMs: int, nowMs: int, ttlMs: int, nonce: string)
    ensures NonceAnswer(phase, record, checkedMs,
                        IssueDurableNonce(nonces, phase, record, pairId, checkedMs, nowMs, ttlMs, nonce).1)
  {}

  lemma LeaseAnswers(nonces: Nonces, phase: Option<Status>, record: Option<EnrollmentRecords.Device>, pairId: string,
                     nonce: string, proof: Signature, checkedMs: int, nowMs: int)
    ensures LeaseAnswer(nonces, phase, record, pairId, nonce, proof, checkedMs, nowMs,
                        ConsumeDurableNonce(nonces, phase, record, pairId, nonce, proof, checkedMs, nowMs).1)
  {}

  /** An attempt that finds its nonce burns it; every other attempt leaves all nonces. */
  lemma LeaseAttemptLeaves(nonces: Nonces, phase: Option<Status>, record: Option<EnrollmentRecords.Device>,
                           pairId: string, nonce: string, proof: Signature, checkedMs: int, nowMs: int)
    ensures
      var left := ConsumeDurableNonce(nonces, phase, record, pairId, nonce, proof, checkedMs, nowMs).0;
      var found := !Refused(phase, record, checkedMs) && !Waiting(phase, record)
                   && Sha256(nonce) in nonces && nonces[Sha256(nonce)].pairKey == Sha256(pairId);
      left == if found then nonces - {Sha256(nonce)} else nonces
  {}

  class BrokerServer {
    const maxPairAttempts: nat
    const rateLimitWindowMs: nat
    const nonceTtlMs: nat
    var attempts: RateLimit.Attempts
    var issuedNonces: Nonces

    constructor (maxPairAttempts: nat, rateLimitWindowMs: nat, nonceTtlMs: nat)
      requires maxPairAttempts >= 1 && rateLimitWindowMs >= 1_000 && 1 <= nonceTtlMs <= 120_000
      ensures attempts == map[] && issuedNonces == map[]
      ensures this.maxPairAttempts == maxPairAttempts && this.rateLimitWindowMs == rateLimitWindowMs
        && this.nonceTtlMs == nonceTtlMs
    {
      this.maxPairAttempts, this.rateLimitWindowMs, this.nonceTtlMs := maxPairAttempts, rateLimitWindowMs, nonceTtlMs;
      attempts := map[];
      issuedNonces := map[];
    }

    method AllowPairAttempt(clientAddress: string, nowMs: int) returns (allowed: bool)
      modifies this`attempts
      ensures (attempts, allowed) ==
              RateLimit.Allow(old(attempts), RateLimit.Attempt(clientAddress, nowMs), maxPairAttempts,
                rateLimitWindowMs)
    {
      var addresses := attempts.Keys;
      while addresses != {}
        invariant addresses <= attempts.Keys
        invariant attempts == RateLimit.EvictAmong(old(attempts), old(attempts).Keys - addresses, nowMs,
          rateLimitWindowMs)
      {
        var address :| address in addresses;
        addresses := addresses - {address};
        if nowMs - attempts[address].startedAtMs >= rateLimitWindowMs { attempts := attempts - {address}; }
      }
      assert old(attempts).Keys - addresses == old(attempts).Keys;
      if clientAddress !in attempts {
        attempts := attempts[clientAddress := RateLimit.Window(nowMs, 1)];
        return true;
      }
      var entry := attempts[clientAddress];
      if entry.count >= maxPairAttempts { return false; }
      attempts := attempts[clientAddress := entry.(count := entry.count + 1)];
      return true;
    }

    method IssueNonceFor(phase: Option<Status>, record: Option<EnrollmentRecords.Device>, pairId: string,
                         checkedMs: int, nowMs: int, nonce: string) returns (reply: NonceReply)
      modifies this`issuedNonces
      ensures (issuedNonces, reply) ==
              IssueDurableNonce(old(issuedNonces), phase, record, pairId, checkedMs, nowMs, nonceTtlMs, nonce)
      ensures NonceAnswer(phase, record, checkedMs, reply)
    {
      if phase == Some(Revoked) { return NonceRefused(RevokedReply); }
      if record.None? || record.value.revoked || checkedMs >= record.value.expiresAtMs {
        return NonceRefused(if record.None? && HandshakeInProgress(phase) then NotAuthorizedYetReply else RevokedReply);
      }
      var expiresAtMs := nowMs + nonceTtlMs;
      issuedNonces := issuedNonces[Sha256(nonce) := NonceEntry(Sha256(pairId), expiresAtMs)];
      return NonceIssued(nonce, expiresAtMs);
    }

    method ConsumeNonceFor(phase: Option<Status>, record: Option<EnrollmentRecords.Device>, pairId: string,
                           nonce: string, proof: Signature, checkedMs: int, nowMs: int) returns (reply: LeaseReply)
      modifies this`issuedNonces
      ensures (issuedNonces, reply) ==
              ConsumeDurableNonce(old(issuedNonces), phase, record, pairId, nonce, proof, checkedMs, nowMs)
      ensures LeaseAnswer(old(issuedNonces), phase, record, pairId, nonce, proof, checkedMs, nowMs, reply)
    {
      if phase == Some(Revoked) { return LeaseRefused(RevokedReply); }
      if record.None? {
        return LeaseRefused(if HandshakeInProgress(phase) then NotAuthorizedYetReply else RevokedReply);
      }
      if record.value.revoked || checkedMs >= record.value.expiresAtMs { return LeaseRefused(RevokedReply); }
      var hash := Sha256(nonce);
      if hash !in issuedNonces || issuedNonces[hash].pairKey != Sha256(pairId) {
        return LeaseRefused(InvalidNonceReply);
      }
      var pending := issuedNonces[hash];
      issuedNonces := issuedNonces - {hash};
      if nowMs >= pending.expiresAtMs { return LeaseRefused(InvalidNonceReply); }
      if !Verifies(record.value.signing, NonceBytes(nonce), proof) { return LeaseRefused(InvalidProofReply); }
      return LeaseAllowed(record.value.encryption);
    }
  }
}
