/** What each step of the broker leaves alone. */
module ProtocolFrames {
  import opened Terms
  import opened Protocol
  import opened ProtocolSteps
  import P = Pairings
  import E = Enrollment
  import R = EnrollmentRecords
  import B = BrokerServer

  // ---------- step by step ----------

  /** A pairing request touches the codes and the pairings, and of the waiting requests takes only its own. */
  ghost predicate PairFrame(b: Broker, b': Broker, request: string) {
    && b' == b.(codes := b'.codes, pairings := b'.pairings, admitted := b'.admitted, drawn := b'.drawn, log := b'.log)
    && b.admitted - {request} <= b'.admitted && b.log <= b'.log
  }

  lemma PairStaysIn(b: Broker, cfg: Config, e: Event)
    requires e.Pair?
    ensures PairFrame(b, Apply(b, cfg, e), e.request)
  {
    if e.request in b.admitted && e.signing.key.Some? {
      var heard := Heard(b, e.request);
      var codes := E.Consume(b.codes, e.code, e.redeemedMs, Some(E.Spells(Fingerprint(e.signing.key.value)))).0;
      PairOutcome(heard, cfg, e.code, e.signing, e.encryption, e.redeemedMs, e.createdMs, e.draws);
      PairInStaysIn(Evicted(heard.(codes := codes), e.createdMs), cfg, Sha256(e.code),
                    P.PairRequest(e.signing, e.encryption, e.createdMs, cfg.pairingTtlMs), e.draws);
    }
  }

  lemma PairInStaysIn(b: Broker, cfg: Config, code: Digest, request: P.PairRequest, draws: P.Draws)
    ensures
      var b' := PairIn(b, cfg, code, request, draws);
      b' == b.(pairings := b'.pairings, drawn := b'.drawn, log := b'.log) && b.log <= b'.log
  {}

  /** Unless a pairing is created the pairings are as they were, or without the expired. */
  lemma PairPairings(b: Broker, cfg: Config, e: Event)
    requires e.Pair?
    ensures
      var pairings := Apply(b, cfg, e).pairings;
      || pairings == b.pairings
      || pairings == P.CreateIn(P.Evict(b.pairings, e.createdMs), cfg.pairingCapacity,
                                P.PairRequest(e.signing, e.encryption, e.createdMs, cfg.pairingTtlMs), e.draws).0
  {
    if e.request in b.admitted && e.signing.key.Some? {
      var heard := Heard(b, e.request);
      var codes := E.Consume(b.codes, e.code, e.redeemedMs, Some(E.Spells(Fingerprint(e.signing.key.value)))).0;
      PairOutcome(heard, cfg, e.code, e.signing, e.encryption, e.redeemedMs, e.createdMs, e.draws);
      PairInPairings(Evicted(heard.(codes := codes), e.createdMs), cfg, Sha256(e.code),
                     P.PairRequest(e.signing, e.encryption, e.createdMs, cfg.pairingTtlMs), e.draws);
    }
  }

  lemma PairInPairings(b: Broker, cfg: Config, code: Digest, request: P.PairRequest, draws: P.Draws)
    ensures PairIn(b, cfg, code, request, draws).pairings
            == P.CreateIn(b.pairings, cfg.pairingCapacity, request, draws).0
  {}

  /** A callback touches the pairings and the handlers that wait. */
  ghost predicate CallbackFrame(b: Broker, b': Broker) {
    && b' == b.(pairings := b'.pairings, callbacks := b'.callbacks, drawn := b'.drawn, log := b'.log)
    && b.log <= b'.log
  }

  lemma CallbackStaysIn(b: Broker, cfg: Config, e: Event)
    requires e.Callback? || e.CallbackEnds?
    ensures CallbackFrame(b, Apply(b, cfg, e))
    ensures b.callbacks - (if e.CallbackEnds? then {e.handle} else {}) <= Apply(b, cfg, e).callbacks
  {
    if e.Callback? {
      CallbackInStaysIn(Evicted(b, e.nowMs), e.oauthState, e.handle, e.nowMs);
    } else {
      AuthorizeInStaysIn(Evicted(b.(callbacks := b.callbacks - {e.handle}), e.nowMs), e.handle, e.nowMs);
    }
  }

  lemma CallbackInStaysIn(b: Broker, oauthState: string, handle: string, nowMs: int)
    ensures CallbackFrame(b, CallbackIn(b, oauthState, handle, nowMs))
    ensures b.callbacks <= CallbackIn(b, oauthState, handle, nowMs).callbacks
  {}

  lemma AuthorizeInStaysIn(b: Broker, handle: string, nowMs: int)
    ensures
      var b' := AuthorizeIn(b, handle, nowMs);
      b' == b.(pairings := b'.pairings, log := b'.log) && b.log <= b'.log
  {}

  /** A claim touches its own pairing and record, and starts at most one write, of all records. */
  ghost predicate ClaimFrame(b: Broker, b': Broker, pair: Digest) {
    && b' == b.(pairings := b'.pairings, records := b'.records, write := b'.write, log := b'.log)
    && b.log <= b'.log
    && (forall k :: k in b.records && k != pair ==> k in b'.records && b'.records[k] == b.records[k])
    && (b'.write != b.write ==> b.write.None? && b'.write.Some? && b'.write.value.snapshot == b'.records)
  }

  lemma ClaimStaysIn(b: Broker, cfg: Config, e: Event)
    requires e.Claim?
    ensures ClaimFrame(b, Apply(b, cfg, e), Sha256(e.pairId))
  {
    var (pairings, result) := P.OpenClaim(b.pairings, e.pairId, e.proof, e.nowMs);
    if !result.Claimed? {
      PairingsAloneStaysIn(b, pairings, Sha256(e.pairId));
    } else if b.write.None? {
      var input :=
        R.RecordInput(e.pairId, result.signing, result.encryption, e.enrolledMs, e.expiryMs + cfg.recordTtlMs);
      ClaimInStaysIn(b, pairings, input, e.proof, e.nowMs);
    }
  }

  lemma PairingsAloneStaysIn(b: Broker, pairings: P.Pairings, pair: Digest)
    ensures ClaimFrame(b, b.(pairings := pairings), pair)
  {}

  lemma ClaimInStaysIn(b: Broker, pairings: P.Pairings, input: R.RecordInput, proof: Signature, nowMs: int)
    requires b.write.None?
    ensures ClaimFrame(b, ClaimIn(b, pairings, input, proof, nowMs), Sha256(input.pairId))
  {}

  /** Requests for nonces and leases touch nonces and grants. */
  ghost predicate RenewalFrame(b: Broker, b': Broker) {
    && b' == b.(nonces := b'.nonces, grants := b'.grants, drawn := b'.drawn, log := b'.log)
    && b.grants <= b'.grants && b.log <= b'.log
  }

  lemma RenewalStaysIn(b: Broker, cfg: Config, e: Event)
    requires e.NonceRequest? || e.LeaseRequest?
    ensures RenewalFrame(b, Apply(b, cfg, e))
  {
    if e.NonceRequest? { NonceStaysIn(b, cfg, e.pairId, e.nonce, e.checkedMs, e.nowMs); }
    else { LeaseStaysIn(b, e.pairId, e.nonce, e.proof, e.checkedMs, e.nowMs); }
  }

  lemma NonceStaysIn(b: Broker, cfg: Config, pairId: string, nonce: string, checkedMs: int, nowMs: int)
    ensures RenewalFrame(b, ApplyNonceRequest(b, cfg, pairId, nonce, checkedMs, nowMs))
  {}

  lemma LeaseStaysIn(b: Broker, pairId: string, nonce: string, proof: Signature, checkedMs: int, nowMs: int)
    ensures RenewalFrame(b, ApplyLeaseRequest(b, pairId, nonce, proof, checkedMs, nowMs))
  {}

  /** The end of a write moves the snapshot to the disk, or not, and lets its handler go on. */
  ghost predicate WriteFrame(b: Broker, b': Broker) {
    && b' == b.(write := None, disk := b'.disk, grants := b'.grants, log := b'.log)
    && b.grants <= b'.grants && b.log <= b'.log
    && (b'.disk == b.disk || (b.write.Some? && b'.disk == b.write.value.snapshot))
  }

  lemma WriteStaysIn(b: Broker, io: R.WriteIo)
    ensures WriteFrame(b, ApplyWriteEnds(b, io))
  {
    if b.write.None? { assert b == b.(write := None); }
  }

  /** The second half of a revoke touches its own record and starts at most one write, of all records. */
  ghost predicate RecordRevokeFrame(b: Broker, b': Broker, pair: Digest) {
    && b' == b.(revocations := b'.revocations, records := b'.records, write := b'.write, log := b'.log)
    && b.log <= b'.log
    && (forall k :: k in b.records && k != pair ==> k in b'.records && b'.records[k] == b.records[k])
    && (b'.write != b.write ==> b.write.None? && b'.write.Some? && b'.write.value.snapshot == b'.records)
  }

  lemma RecordRevokeStaysIn(b: Broker, revocation: Revocation)
    ensures RecordRevokeFrame(b, ApplyAdminRevokeRecord(b, revocation), Sha256(revocation.pairId))
  {}

  lemma RevokeStaysIn(b: Broker, pairId: string)
    ensures
      var b' := ApplyAdminRevoke(b, pairId);
      && b' == b.(pairings := P.Revoke(b.pairings, pairId).0, revocations := b'.revocations, log := b'.log)
      && b.log <= b'.log
  {}

  /** The frame of whatever step this is. */
  ghost predicate Framed(b: Broker, b': Broker, e: Event) {
    match e
    case Mint(_, _, _) => b' == b.(codes := b'.codes, drawn := b'.drawn, log := b'.log) && b.log <= b'.log
    case PairAttempt(_, _, _) =>
      b' == b.(attempts := b'.attempts, admitted := b'.admitted) && b.admitted <= b'.admitted
    case Pair(request, _, _, _, _, _, _) => PairFrame(b, b', request)
    case Callback(_, _, _) => CallbackFrame(b, b')
    case CallbackEnds(_, _, _) => CallbackFrame(b, b')
    case Claim(pairId, _, _, _, _) => ClaimFrame(b, b', Sha256(pairId))
    case WriteEnds(_) => WriteFrame(b, b')
    case NonceRequest(_, _, _, _) => RenewalFrame(b, b')
    case LeaseRequest(_, _, _, _, _) => RenewalFrame(b, b')
    case MintEnds(grant, _) =>
      b' == b.(grants := b'.grants, log := b'.log) && b.grants - {grant} <= b'.grants <= b.grants
      && b.log <= b'.log
    case AdminRevoke(pairId) =>
      && b' == b.(pairings := P.Revoke(b.pairings, pairId).0, revocations := b'.revocations, log := b'.log)
      && b.log <= b'.log
    case AdminRevokeRecord(revocation) => RecordRevokeFrame(b, b', Sha256(revocation.pairId))
    case Restart => b' == Start(b.disk, b.drawn, b.log + [Restarted])
  }

  lemma EachInItsFrame(b: Broker, cfg: Config, e: Event)
    ensures Framed(b, Apply(b, cfg, e), e)
  {
    if e.Pair? { PairStaysIn(b, cfg, e); }
    else if e.Callback? || e.CallbackEnds? { CallbackStaysIn(b, cfg, e); }
    else if e.Claim? { ClaimStaysIn(b, cfg, e); }
    else if e.NonceRequest? || e.LeaseRequest? { RenewalStaysIn(b, cfg, e); }
    else if e.WriteEnds? { WriteStaysIn(b, e.io); }
    else if e.AdminRevokeRecord? { RecordRevokeStaysIn(b, e.revocation); }
    else if e.AdminRevoke? { RevokeStaysIn(b, e.pairId); }
    else if e.Mint? || e.PairAttempt? { EarlyStaysIn(b, cfg, e); }
    else { RestStaysIn(b, cfg, e); }
  }

  lemma EarlyStaysIn(b: Broker, cfg: Config, e: Event)
    requires e.Mint? || e.PairAttempt?
    ensures Framed(b, Apply(b, cfg, e), e)
  {}

  lemma RestStaysIn(b: Broker, cfg: Config, e: Event)
    requires e.MintEnds? || e.Restart?
    ensures Framed(b, Apply(b, cfg, e), e)
  {}

  /** No step takes a fact back. */
  lemma StepAddsFacts(b: Broker, cfg: Config, e: Event)
    ensures b.log <= Apply(b, cfg, e).log
  {
    EachInItsFrame(b, cfg, e);
  }

  /** Only minting, pairing and a restart touch the codes. */
  lemma OthersKeepCodes(b: Broker, cfg: Config, e: Event)
    requires !e.Mint? && !e.Pair?
    ensures Apply(b, cfg, e).codes == if e.Restart? then map[] else b.codes
  {
    EachInItsFrame(b, cfg, e);
    CodesInFrame(b, Apply(b, cfg, e), e);
  }

  lemma CodesInFrame(b: Broker, b': Broker, e: Event)
    requires Framed(b, b', e) && !e.Mint? && !e.Pair?
    ensures b'.codes == if e.Restart? then map[] else b.codes
  {}

  // ---------- who is told what, and what reaches the disk ----------

  /** A handler may mint a lease from this step on exactly when the write of its claimed record has just been completed,
      or its nonce has just been accepted. */
  lemma GrantIsNewIff(b: Broker, cfg: Config, e: Event, g: Grant)
    requires g !in b.grants
    ensures g in Apply(b, cfg, e).grants <==>
      || (e.WriteEnds? && e.io.Written? && g.ByClaim?
          && b.write.Some? && b.write.value.owner == ForClaim(g.pair, g.encryption))
      || (e.LeaseRequest? && g.ByNonce? && g.pair == Sha256(e.pairId) && g.nonce == e.nonce
          && B.ConsumeDurableNonce(b.nonces, P.StatusOf(b.pairings, e.pairId), R.Find(b.records, e.pairId), e.pairId,
                                   e.nonce, e.proof, e.checkedMs, e.nowMs).1 == B.LeaseAllowed(g.encryption))
  {
    if e.WriteEnds? { WriteGrants(b, e.io, g); }
    else if e.LeaseRequest? { LeaseGrants(b, e.pairId, e.nonce, e.proof, e.checkedMs, e.nowMs, g); }
    else {
      EachInItsFrame(b, cfg, e);
      if e.NonceRequest? { NonceGrantsNone(b, cfg, e.pairId, e.nonce, e.checkedMs, e.nowMs); }
      NoGrantInFrame(b, Apply(b, cfg, e), cfg, e, g);
    }
  }

  lemma WriteGrants(b: Broker, io: R.WriteIo, g: Grant)
    requires g !in b.grants
    ensures g in ApplyWriteEnds(b, io).grants <==>
      io.Written? && g.ByClaim? && b.write.Some? && b.write.value.owner == ForClaim(g.pair, g.encryption)
  {}

  lemma LeaseGrants(b: Broker, pairId: string, nonce: string, proof: Signature, checkedMs: int, nowMs: int, g: Grant)
    requires g !in b.grants
    ensures
      var reply := B.ConsumeDurableNonce(b.nonces, P.StatusOf(b.pairings, pairId), R.Find(b.records, pairId), pairId,
                                         nonce, proof, checkedMs, nowMs).1;
      g in ApplyLeaseRequest(b, pairId, nonce, proof, checkedMs, nowMs).grants <==>
        g.ByNonce? && g.pair == Sha256(pairId) && g.nonce == nonce && reply == B.LeaseAllowed(g.encryption)
  {}

  lemma NonceGrantsNone(b: Broker, cfg: Config, pairId: string, nonce: string, checkedMs: int, nowMs: int)
    ensures ApplyNonceRequest(b, cfg, pairId, nonce, checkedMs, nowMs).grants == b.grants
  {}

  lemma NoGrantInFrame(b: Broker, b': Broker, cfg: Config, e: Event, g: Grant)
    requires Framed(b, b', e) && g !in b.grants && !e.WriteEnds? && !e.LeaseRequest?
    requires e.NonceRequest? ==> b'.grants == b.grants
    requires e.MintEnds? ==> b'.grants <= b.grants
    ensures g !in b'.grants
  {}

  /** The disk changes by a write that gets as far as its rename, and by nothing else; it then holds the snapshot taken
      when the write began. */
  lemma DiskMoves(b: Broker, cfg: Config, e: Event)
    ensures Apply(b, cfg, e).disk ==
      if e.WriteEnds? && b.write.Some? && !e.io.FailsBeforeRename? then b.write.value.snapshot else b.disk
  {
    if e.WriteEnds? { WriteMovesDisk(b, e.io); }
    else {
      EachInItsFrame(b, cfg, e);
      DiskInFrame(b, Apply(b, cfg, e), e);
    }
  }

  lemma WriteMovesDisk(b: Broker, io: R.WriteIo)
    ensures ApplyWriteEnds(b, io).disk ==
      if b.write.Some? && !io.FailsBeforeRename? then b.write.value.snapshot else b.disk
  {}

  lemma DiskInFrame(b: Broker, b': Broker, e: Event)
    requires Framed(b, b', e) && !e.WriteEnds?
    ensures b'.disk == b.disk
  {}
}
