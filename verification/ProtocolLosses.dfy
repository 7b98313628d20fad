/** What can be lost on the way: a callback handle left behind by a late claim, a code burned for nothing, and a
    revoke that a restart overtakes. Each comes with the exact condition and a run that shows it. */
module ProtocolLosses {
  import opened Terms
  import opened Protocol
  import opened ProtocolInvariant
  import opened ProtocolSteps
  import opened ProtocolFrames
  import opened ProtocolVisit
  import opened ProtocolCompletion
  import P = Pairings
  import E = Enrollment
  import R = EnrollmentRecords
  import B = BrokerServer

  // ---------- handles left behind ----------

  /** Every callback handle leads to a pairing that is still held. */
  ghost predicate HandlesHeld(p: P.Pairings) { forall h :: h in p.handles ==> p.handles[h] in p.records }

  /** A claim of a pairing that waits for its approval, at or after its expiry. */
  predicate Strands(p: P.Pairings, pairId: string, nowMs: int) {
    && Sha256(pairId) in p.records && p.records[Sha256(pairId)].status == P.CallbackStateConsumed
    && nowMs >= p.records[Sha256(pairId)].expiresAtMs
  }

  lemma ClaimKeepsHandlesIff(p: P.Pairings, capacity: nat, pairId: string, proof: Signature, nowMs: int)
    requires P.Consistent(p, capacity) && HandlesHeld(p)
    ensures HandlesHeld(P.OpenClaim(p, pairId, proof, nowMs).0) <==> !Strands(p, pairId, nowMs)
  {
    var key := Sha256(pairId);
    if key in p.records {
      assert P.RecordIndexed(p, key);
      forall h | h in p.handles && p.handles[h] == key ensures p.records[key].handleHash == Some(h) {
        assert P.HandlePointsBack(p, h);
      }
      if Strands(p, pairId, nowMs) {
        var h := p.records[key].handleHash.value;
        assert h in P.OpenClaim(p, pairId, proof, nowMs).0.handles;
      }
    }
  }

  lemma EvictionKeepsHandles(p: P.Pairings, capacity: nat, nowMs: int)
    requires P.Consistent(p, capacity) && HandlesHeld(p)
    ensures HandlesHeld(P.Evict(p, nowMs))
  {
    var gone := P.ExpiredAmong(p, p.records.Keys, nowMs);
    forall h | h in p.handles && p.handles[h] in gone ensures h in P.HandleHashes(p, gone) {
      assert P.HandlePointsBack(p, h);
    }
  }

  lemma CreationKeepsHandles(p: P.Pairings, capacity: nat, request: P.PairRequest, draws: P.Draws)
    requires P.Consistent(p, capacity) && HandlesHeld(p)
    ensures HandlesHeld(P.CreateIn(P.Evict(p, request.nowMs), capacity, request, draws).0)
  {
    EvictionKeepsHandles(p, capacity, request.nowMs);
    InsertionKeepsHandles(P.Evict(p, request.nowMs), capacity, request, draws);
  }

  lemma InsertionKeepsHandles(q: P.Pairings, capacity: nat, request: P.PairRequest, draws: P.Draws)
    requires HandlesHeld(q)
    ensures HandlesHeld(P.CreateIn(q, capacity, request, draws).0)
  {}

  ghost predicate StepStrands(b: Broker, e: Event) { e.Claim? && Strands(b.pairings, e.pairId, e.nowMs) }

  /** A step leaves a handle behind exactly when it is a late claim of a pairing that waits for its approval. */
  lemma StepKeepsHandlesIff(b: Broker, cfg: Config, e: Event)
    requires Inv(b, cfg) && HandlesHeld(b.pairings)
    ensures HandlesHeld(Apply(b, cfg, e).pairings) <==> !StepStrands(b, e)
  {
    if e.Claim? {
      ClaimKeepsHandlesIff(b.pairings, cfg.pairingCapacity, e.pairId, e.proof, e.nowMs);
      ClaimMovesPairings(b, cfg, e);
    } else if e.Pair? {
      PairKeepsHandles(b, cfg, e);
    } else if e.Callback? || e.CallbackEnds? {
      CallbackKeepsHandles(b, cfg, e);
    } else {
      EachInItsFrame(b, cfg, e);
      RestKeepsHandles(b, Apply(b, cfg, e), cfg, e);
    }
  }

  lemma ClaimMovesPairings(b: Broker, cfg: Config, e: Event)
    requires e.Claim?
    ensures
      var (pairings, result) := P.OpenClaim(b.pairings, e.pairId, e.proof, e.nowMs);
      Apply(b, cfg, e).pairings == if result.Claimed? && b.write.Some? then b.pairings else pairings
  {}

  lemma PairKeepsHandles(b: Broker, cfg: Config, e: Event)
    requires e.Pair? && Inv(b, cfg) && HandlesHeld(b.pairings)
    ensures HandlesHeld(Apply(b, cfg, e).pairings)
  {
    PairPairings(b, cfg, e);
    CreationKeepsHandles(b.pairings, cfg.pairingCapacity,
                         P.PairRequest(e.signing, e.encryption, e.createdMs, cfg.pairingTtlMs), e.draws);
  }

  lemma CallbackKeepsHandles(b: Broker, cfg: Config, e: Event)
    requires (e.Callback? || e.CallbackEnds?) && Inv(b, cfg) && HandlesHeld(b.pairings)
    ensures HandlesHeld(Apply(b, cfg, e).pairings)
  {
    EvictionKeepsHandles(b.pairings, cfg.pairingCapacity, e.nowMs);
    if e.Callback? {
      CallbackInKeepsHandles(Evicted(b, e.nowMs), e.oauthState, e.handle, e.nowMs);
    } else {
      ApprovalKeepsHandles(b, e.handle, e.exchanged, e.nowMs);
    }
  }

  lemma ApprovalKeepsHandles(b: Broker, handle: string, exchanged: bool, nowMs: int)
    requires HandlesHeld(b.pairings) && HandlesHeld(P.Evict(b.pairings, nowMs))
    ensures HandlesHeld(ApplyCallbackEnds(b, handle, exchanged, nowMs).pairings)
  {
    AuthorizeInKeepsHandles(Evicted(b.(callbacks := b.callbacks - {handle}), nowMs), handle, nowMs);
  }

  lemma CallbackInKeepsHandles(b: Broker, oauthState: string, handle: string, nowMs: int)
    requires HandlesHeld(b.pairings)
    ensures HandlesHeld(CallbackIn(b, oauthState, handle, nowMs).pairings)
  {}

  lemma AuthorizeInKeepsHandles(b: Broker, handle: string, nowMs: int)
    requires HandlesHeld(b.pairings)
    ensures HandlesHeld(AuthorizeIn(b, handle, nowMs).pairings)
  {}

  lemma RestKeepsHandles(b: Broker, b': Broker, cfg: Config, e: Event)
    requires Framed(b, b', e) && HandlesHeld(b.pairings)
    requires !e.Pair? && !e.Callback? && !e.CallbackEnds? && !e.Claim?
    ensures HandlesHeld(b'.pairings)
  {}

  ghost predicate AlwaysHeld(b: Broker, cfg: Config, events: seq<Event>)
    decreases events
  {
    HandlesHeld(b.pairings) && (events != [] ==> AlwaysHeld(Apply(b, cfg, events[0]), cfg, events[1..]))
  }

  ghost predicate NeverStrands(b: Broker, cfg: Config, events: seq<Event>)
    decreases events
  {
    events != [] ==> !StepStrands(b, events[0]) && NeverStrands(Apply(b, cfg, events[0]), cfg, events[1..])
  }

  /** Over a run every handle leads to a held pairing exactly when no claim comes late between callback and approval. */
  lemma {:induction false} AlwaysHeldIff(b: Broker, cfg: Config, events: seq<Event>)
    requires Inv(b, cfg) && HandlesHeld(b.pairings)
    ensures AlwaysHeld(b, cfg, events) <==> NeverStrands(b, cfg, events)
    decreases events
  {
    if events != [] {
      StepKeepsHandlesIff(b, cfg, events[0]);
      if StepStrands(b, events[0]) {
        assert !AlwaysHeld(Apply(b, cfg, events[0]), cfg, events[1..]);
      } else {
        StepKeepsInv(b, cfg, events[0]);
        AlwaysHeldIff(Apply(b, cfg, events[0]), cfg, events[1..]);
      }
    }
  }

  /** A device that claims when its pairing has expired, between its callback and its approval. */
  lemma HandleLeftBehind(cfg: Config, key: string) returns (events: seq<Event>)
    requires RoomForOne(cfg)
    ensures !HandlesHeld(Run(cfg, events).pairings)
  {
    var v := HonestVisit(cfg, key);
    var b := VisitAlone(cfg, v, 4);
    events := LateClaim(cfg, v, OwnEvents(v, cfg, 4));
  }

  lemma LateClaim(cfg: Config, v: Visit, before: seq<Event>) returns (events: seq<Event>)
    requires Honest(cfg, v) && PairingAt(Run(cfg, before), cfg, v, P.CallbackStateConsumed)
    ensures !HandlesHeld(Run(cfg, events).pairings)
  {
    var late := Claim(v.draws.pairId, ProofOf(v, cfg), v.ExpiresAt(cfg), 0, 0);
    events := before + [late];
    RunKeepsInv(cfg, before);
    RunOneMore(cfg, before, late);
    ClaimMovesPairings(Run(cfg, before), cfg, late);
    LateClaimStrands(Run(cfg, before), cfg, v, late.proof);
  }

  lemma LateClaimStrands(b: Broker, cfg: Config, v: Visit, proof: Signature)
    requires P.Consistent(b.pairings, cfg.pairingCapacity) && PairingAt(b, cfg, v, P.CallbackStateConsumed)
    ensures
      var (after, result) := P.OpenClaim(b.pairings, v.draws.pairId, proof, v.ExpiresAt(cfg));
      !result.Claimed? && !HandlesHeld(after)
  {
    assert P.RecordIndexed(b.pairings, v.Pair());
    var after := P.OpenClaim(b.pairings, v.draws.pairId, proof, v.ExpiresAt(cfg)).0;
    assert Sha256(v.handle) in after.handles && v.Pair() !in after.records;
  }

  // ---------- codes burned for nothing ----------

  /** The code is held unused and unexpired for the device. */
  ghost predicate CodeOpens(b: Broker, code: string, signing: Pem, redeemedMs: int) {
    && signing.key.Some? && code != "" && Sha256(code) in b.codes
    && var record := b.codes[Sha256(code)];
    && !record.used && redeemedMs < record.expiresAtMs
    && record.expectedFingerprintHash == Sha256OfHex(Fingerprint(signing.key.value))
  }

  /** The pairing store has room once the expired are gone, and both keys are of the right kind. */
  ghost predicate PairingFits(b: Broker, cfg: Config, signing: Pem, encryption: Pem, createdMs: int) {
    && 0 < cfg.pairingTtlMs <= P.MAX_PAIRING_TTL_MS
    && |P.Evict(b.pairings, createdMs).records| < cfg.pairingCapacity
    && signing.Holds(Ed25519) && encryption.Holds(X25519)
  }

  ghost predicate Burned(b: Broker, b': Broker, code: Digest) {
    code in b.codes && !b.codes[code].used && code in b'.codes && b'.codes[code].used
  }

  /** A request creates its pairing exactly when the code opens and the pairing fits, and burns its code without
      creating one exactly when the code opens and the pairing does not fit. */
  lemma CodeWastedIff(b: Broker, cfg: Config, e: Event)
    requires Inv(b, cfg) && e.Pair? && e.request in b.admitted && e.draws.pairId != e.draws.oauthState
    requires Fresh(b, {e.draws.pairId, e.draws.oauthState, e.draws.pkceVerifier})
    ensures
      var b' := Apply(b, cfg, e);
      var opens := CodeOpens(b, e.code, e.signing, e.redeemedMs);
      var fits := PairingFits(b, cfg, e.signing, e.encryption, e.createdMs);
      && (Sha256(e.draws.pairId) in b'.pairings.records <==> opens && fits)
      && (Burned(b, b', Sha256(e.code)) && Sha256(e.draws.pairId) !in b'.pairings.records <==> opens && !fits)
  {
    UndrawnUnseen(b, cfg, e.draws.pairId);
    if e.signing.key.Some? { WastedCases(b, cfg, e, Apply(b, cfg, e)); }
  }

  lemma WastedCases(b: Broker, cfg: Config, e: Event, b': Broker)
    requires e.Pair? && e.signing.key.Some? && e.draws.pairId != e.draws.oauthState
    requires Fresh(b, {e.draws.pairId, e.draws.oauthState, e.draws.pkceVerifier})
    requires Sha256(e.draws.pairId) !in b.pairings.records
    requires b' == ApplyPair(Heard(b, e.request), cfg, e.code, e.signing, e.encryption, e.redeemedMs, e.createdMs,
                             e.draws)
    ensures
      var opens := CodeOpens(b, e.code, e.signing, e.redeemedMs);
      var fits := PairingFits(b, cfg, e.signing, e.encryption, e.createdMs);
      && (Sha256(e.draws.pairId) in b'.pairings.records <==> opens && fits)
      && (Burned(b, b', Sha256(e.code)) && Sha256(e.draws.pairId) !in b'.pairings.records <==> opens && !fits)
  {
    var presented := Some(E.Spells(Fingerprint(e.signing.key.value)));
    E.RedeemedIff(b.codes, e.code, e.redeemedMs, presented);
    P.EvictedRecords(b.pairings, e.createdMs);
    PairCases(Heard(b, e.request), cfg, e);
  }

  lemma PairCases(b: Broker, cfg: Config, e: Event)
    requires e.Pair? && e.signing.key.Some? && e.draws.pairId != e.draws.oauthState
    requires Fresh(b, {e.draws.pairId, e.draws.oauthState, e.draws.pkceVerifier})
    ensures
      var (codes, redemption) :=
        E.Consume(b.codes, e.code, e.redeemedMs, Some(E.Spells(Fingerprint(e.signing.key.value))));
      var after := ApplyPair(b, cfg, e.code, e.signing, e.encryption, e.redeemedMs, e.createdMs, e.draws);
      && after.codes == codes
      && (!redemption.Redeemed? ==> after.pairings == b.pairings)
      && (redemption.Redeemed? && PairingFits(b, cfg, e.signing, e.encryption, e.createdMs) ==>
            Sha256(e.draws.pairId) in after.pairings.records)
      && (redemption.Redeemed? && !PairingFits(b, cfg, e.signing, e.encryption, e.createdMs) ==>
            after.pairings == b.pairings || after.pairings == P.Evict(b.pairings, e.createdMs))
  {
    var (codes, redemption) :=
      E.Consume(b.codes, e.code, e.redeemedMs, Some(E.Spells(Fingerprint(e.signing.key.value))));
    var request := P.PairRequest(e.signing, e.encryption, e.createdMs, cfg.pairingTtlMs);
    if redemption.Redeemed? {
      RedeemedPair(b, cfg, e);
      PairInPairings(Evicted(b.(codes := codes), e.createdMs), cfg, Sha256(e.code), request, e.draws);
      PairInStaysIn(Evicted(b.(codes := codes), e.createdMs), cfg, Sha256(e.code), request, e.draws);
    }
  }

  lemma RedeemedPair(b: Broker, cfg: Config, e: Event)
    requires e.Pair? && e.signing.key.Some? && e.draws.pairId != e.draws.oauthState
    requires Fresh(b, {e.draws.pairId, e.draws.oauthState, e.draws.pkceVerifier})
    requires E.Consume(b.codes, e.code, e.redeemedMs, Some(E.Spells(Fingerprint(e.signing.key.value)))).1.Redeemed?
    ensures
      var left := b.(codes := E.Consume(b.codes, e.code, e.redeemedMs,
                                        Some(E.Spells(Fingerprint(e.signing.key.value)))).0);
      ApplyPair(b, cfg, e.code, e.signing, e.encryption, e.redeemedMs, e.createdMs, e.draws) ==
        if 0 < cfg.pairingTtlMs <= P.MAX_PAIRING_TTL_MS
        then PairIn(Evicted(left, e.createdMs), cfg, Sha256(e.code),
                    P.PairRequest(e.signing, e.encryption, e.createdMs, cfg.pairingTtlMs), e.draws)
        else left
  {}

  /** A device that sends its signing key where its encryption key belongs loses its code. */
  lemma WrongKeyWastesCode(cfg: Config, key: string) returns (events: seq<Event>, code: Digest)
    requires RoomForOne(cfg)
    ensures code in Run(cfg, events).codes && Run(cfg, events).codes[code].used
    ensures Run(cfg, events).pairings.records == map[]
  {
    var v := HonestVisit(cfg, key);
    var b := VisitAlone(cfg, v, 2);
    events := WrongKeyAfter(cfg, v, OwnEvents(v, cfg, 2));
    code := Sha256(v.code);
  }

  lemma WrongKeyAfter(cfg: Config, v: Visit, before: seq<Event>) returns (events: seq<Event>)
    requires Honest(cfg, v) && Reached(Run(cfg, before), cfg, v, 2) && Run(cfg, before).pairings == NO_PAIRINGS
    ensures
      var b' := Run(cfg, events);
      Sha256(v.code) in b'.codes && b'.codes[Sha256(v.code)].used && b'.pairings.records == map[]
  {
    events := before + [WrongKey(v)];
    RunOneMore(cfg, before, WrongKey(v));
    WrongKeyBurns(Run(cfg, before), cfg, v);
  }

  lemma WrongKeyBurns(b: Broker, cfg: Config, v: Visit)
    requires Honest(cfg, v) && Reached(b, cfg, v, 2) && b.pairings == NO_PAIRINGS
    ensures
      var b' := ApplyPairRequest(b, cfg, v.request, v.code, v.signing, v.signing, v.redeemedMs, v.createdMs, v.draws);
      && Sha256(v.code) in b'.codes && b'.codes[Sha256(v.code)].used && b'.pairings.records == map[]
  {
    var presented := Some(E.Spells(Fingerprint(v.signing.key.value)));
    E.RedeemedIff(b.codes, v.code, v.redeemedMs, presented);
    PairCases(Heard(b, v.request), cfg, WrongKey(v));
    P.EvictedRecords(b.pairings, v.createdMs);
    assert P.Evict(b.pairings, v.createdMs).records == map[];
  }

  function WrongKey(v: Visit): Event {
    Event.Pair(v.request, v.code, v.signing, v.signing, v.redeemedMs, v.createdMs, v.draws)
  }

  // ---------- pairings enrolled without a record ----------

  /** A claim that opens enrolls its pairing, and begins to write its record exactly when the record store takes it:
      both keys named as public keys and the times in order. Otherwise the pairing stays enrolled without one. */
  lemma EnrolledWithoutRecordIff(b: Broker, cfg: Config, e: Event)
    requires e.Claim? && b.write.None? && Sha256(e.pairId) in b.pairings.records
    requires
      var r := b.pairings.records[Sha256(e.pairId)];
      r.status == P.Authorized && e.nowMs < r.expiresAtMs && Verifies(r.signing, r.proofMessage, e.proof)
    ensures
      var r, k, b' := b.pairings.records[Sha256(e.pairId)], Sha256(e.pairId), Apply(b, cfg, e);
      var taken := e.pairId != "" && R.NamesPublicKey(r.signing.text) && R.NamesPublicKey(r.encryption.text)
                   && 0 <= e.enrolledMs < e.expiryMs + cfg.recordTtlMs;
      && k in b'.pairings.records && b'.pairings.records[k].status == P.Enrolled
      && (taken ==>
            && b'.records == b.records[k := R.Device(k, r.signing, r.encryption, e.enrolledMs,
                                                      e.expiryMs + cfg.recordTtlMs, false)]
            && b'.write == Some(Write(b'.records, ForClaim(k, r.encryption))))
      && (!taken ==> b'.records == b.records && b'.write == None)
  {
    var result := P.OpenClaim(b.pairings, e.pairId, e.proof, e.nowMs).1;
    ClaimIsIn(b, cfg, e.pairId, e.proof, e.nowMs, e.enrolledMs, e.expiryMs);
    assert result.Claimed?;
  }

  // ---------- a revoke overtaken by a restart ----------

  /** The first half of a revoke, then a restart before the second: the device's record is as it was, and renews. */
  lemma RestartOvertakesRevoke(cfg: Config, key: string) returns (events: seq<Event>, pair: Digest)
    requires RoomForOne(cfg)
    ensures
      var log := Run(cfg, events).log;
      exists i, j ::
        0 <= i < j < |log| && log[i] == RevokeBegun(pair) && log[j].NonceIssued? && log[j].pair == pair
  {
    var v := HonestVisit(cfg, key);
    var own := OwnEvents(v, cfg, 7);
    var b := VisitAlone(cfg, v, 7);
    pair := v.Pair();
    var revoke, request := AdminRevoke(v.draws.pairId), NonceRequest(v.draws.pairId, "n", 0, 0);
    events := own + [revoke] + [Restart] + [request];
    StillHeld(cfg, v);
    OwnDraws(cfg, v, 7);
    RunOneMore(cfg, own, revoke);
    RunOneMore(cfg, own + [revoke], Restart);
    RunOneMore(cfg, own + [revoke] + [Restart], request);
    RenewedAfterAll(b, cfg, v);
    RevokedThenRenewed(b.log, Run(cfg, events).log, pair, cfg.nonceTtlMs);
  }

  lemma RevokedThenRenewed(earlier: Log, log: Log, pair: Digest, expiresAtMs: int)
    requires log == earlier + [RevokeBegun(pair)] + [Restarted] + [NonceIssued(pair, "n", expiresAtMs)]
    ensures exists i, j ::
      0 <= i < j < |log| && log[i] == RevokeBegun(pair) && log[j].NonceIssued? && log[j].pair == pair
  {
    var n := |earlier|;
    assert log[n] == RevokeBegun(pair) && log[n + 2] == NonceIssued(pair, "n", expiresAtMs);
  }

  lemma RenewedAfterAll(b: Broker, cfg: Config, v: Visit)
    requires Honest(cfg, v) && v.enrolledMs == 0 && StoredThroughout(b, cfg, v) && v.Pair() in b.pairings.records
    requires Fresh(b, {"n"})
    ensures
      var revoked := Apply(b, cfg, AdminRevoke(v.draws.pairId));
      var after := Apply(Apply(revoked, cfg, Restart), cfg, NonceRequest(v.draws.pairId, "n", 0, 0));
      after.log == b.log + [RevokeBegun(v.Pair())] + [Restarted] + [NonceIssued(v.Pair(), "n", cfg.nonceTtlMs)]
  {
    var revoked := Apply(b, cfg, AdminRevoke(v.draws.pairId));
    var restarted := Apply(revoked, cfg, Restart);
    B.DurableNonceIssue(restarted.nonces, None, R.Find(restarted.records, v.draws.pairId), v.draws.pairId, 0, 0,
                        cfg.nonceTtlMs, "n");
  }

  lemma StillHeld(cfg: Config, v: Visit)
    requires Honest(cfg, v) && RoomForOne(cfg)
    ensures v.Pair() in Run(cfg, OwnEvents(v, cfg, 7)).pairings.records
  {
    var b := VisitAlone(cfg, v, 5);
    HeldAfterClaim(cfg, v, OwnEvents(v, cfg, 5), OwnEvent(v, cfg, 5), OwnEvent(v, cfg, 6));
  }

  lemma HeldAfterClaim(cfg: Config, v: Visit, before: seq<Event>, claim: Event, written: Event)
    requires PairingAt(Run(cfg, before), cfg, v, P.Authorized) && written.WriteEnds?
    requires claim.Claim? && claim.pairId == v.draws.pairId && claim.nowMs < v.ExpiresAt(cfg)
    ensures v.Pair() in Run(cfg, before + [claim] + [written]).pairings.records
  {
    RunOneMore(cfg, before, claim);
    RunOneMore(cfg, before + [claim], written);
    ClaimMovesPairings(Run(cfg, before), cfg, claim);
    TimelyClaimKeeps(Run(cfg, before).pairings, claim.pairId, claim.proof, claim.nowMs);
    WriteKeepsPairings(Run(cfg, before + [claim]), cfg, written);
  }

  lemma TimelyClaimKeeps(p: P.Pairings, pairId: string, proof: Signature, nowMs: int)
    requires Sha256(pairId) in p.records && nowMs < p.records[Sha256(pairId)].expiresAtMs
    ensures Sha256(pairId) in P.OpenClaim(p, pairId, proof, nowMs).0.records
  {}

  lemma WriteKeepsPairings(b: Broker, cfg: Config, e: Event)
    requires e.WriteEnds?
    ensures Apply(b, cfg, e).pairings == b.pairings
  {}

  lemma {:induction false} OwnDraws(cfg: Config, v: Visit, n: nat)
    requires v.signing.key.Some? && n <= 8
    ensures Run(cfg, OwnEvents(v, cfg, n)).drawn <= v.Draws()
  {
    if n > 0 {
      OwnDraws(cfg, v, n - 1);
      var e := OwnEvent(v, cfg, n - 1);
      RunOneMore(cfg, OwnEvents(v, cfg, n - 1), e);
      OnlyNewDraws(Run(cfg, OwnEvents(v, cfg, n - 1)), cfg, e);
      assert NewDraws(e) <= v.Draws();
    }
  }
}
