/** Each step of the broker keeps the invariant. */
module ProtocolSteps {
  import opened Terms
  import opened Protocol
  import opened ProtocolInvariant
  import P = Pairings
  import E = Enrollment
  import R = EnrollmentRecords
  import B = BrokerServer

  // ---------- what stays true when the log grows by at most one fact ----------

  ghost predicate Moves(news: Log, k: Digest) {
    exists f :: f in news && (f.StateConsumed? || f.Authorized? || f.Claimed?) && f.pair == k
  }

  ghost predicate Grows(b: Broker, b': Broker, news: Log) {
    b'.log == b.log + news && b.drawn <= b'.drawn && |news| <= 1
  }

  lemma PairingStaysTold(log: Log, drawn: set<string>, k: Digest, r: P.Pairing, news: Log, drawn': set<string>)
    requires PairingTold(log, drawn, k, r) && drawn <= drawn' && !Moves(news, k)
    ensures PairingTold(log + news, drawn', k, r)
  {
    var f :| f in log && f.Created? && f.pair == k && f.signing == r.signing && f.encryption == r.encryption
             && f.state == r.stateHash && f.expiresAtMs == r.expiresAtMs;
    assert f in log + news;
    if r.status == P.CallbackStateConsumed && r.handleHash.Some? {
      var g :| g in log && g.StateConsumed? && g.pair == k && g.handle == r.handleHash.value;
      assert g in log + news;
    }
  }

  lemma SamePairings(b: Broker, cfg: Config, b': Broker, news: Log)
    requires PairingsOk(b, cfg) && Grows(b, b', news) && b'.pairings == b.pairings && forall k :: !Moves(news, k)
    ensures PairingsOk(b', cfg)
  {
    forall k | k in b.pairings.records ensures PairingTold(b'.log, b'.drawn, k, b.pairings.records[k]) {
      PairingStaysTold(b.log, b.drawn, k, b.pairings.records[k], news, b'.drawn);
    }
  }

  lemma SameCodes(b: Broker, cfg: Config, b': Broker, news: Log)
    requires CodesOk(b, cfg) && Grows(b, b', news) && b'.codes == b.codes && forall f :: f in news ==> !f.Created?
    ensures CodesOk(b', cfg)
  {
    forall c | c in b.codes ensures CodeTold(b'.log, c, b.codes[c]) {
      assert CodeTold(b.log, c, b.codes[c]);
    }
  }

  lemma ClaimedStays(log: Log, news: Log, pair: Digest, signing: Pem, encryption: Pem)
    requires ClaimedAs(log, pair, signing, encryption)
    ensures ClaimedAs(log + news, pair, signing, encryption)
  {
    var f :| f in log && f.Claimed? && f.pair == pair && f.signing == signing && f.encryption == encryption;
    assert f in log + news;
  }

  lemma DevicesStayTold(log: Log, news: Log, devices: R.Records)
    requires DevicesTold(log, devices)
    ensures DevicesTold(log + news, devices)
  {
    forall k | k in devices ensures DeviceTold(log + news, k, devices[k]) {
      assert DeviceTold(log, k, devices[k]);
      ClaimedStays(log, news, k, devices[k].signing, devices[k].encryption);
    }
  }

  ghost predicate KeepsRefused(b: Broker, b': Broker) {
    forall k {:trigger Refused(b', k)} :: Refused(b, k) ==> Refused(b', k)
  }

  ghost predicate KeepsStopped(b: Broker, b': Broker) {
    forall k {:trigger Stopped(b', k)} :: Stopped(b, k) ==> Stopped(b', k)
  }

  ghost predicate KeepsRefusedForGood(b: Broker, b': Broker) {
    forall k {:trigger RefusedForGood(b', k)} :: RefusedForGood(b, k) ==> RefusedForGood(b', k)
  }

  lemma SameRecords(b: Broker, b': Broker, news: Log)
    requires RecordsOk(b) && Grows(b, b', news) && KeepsRefused(b, b')
    requires b'.records == b.records && b'.disk == b.disk && b'.write == b.write
    ensures RecordsOk(b')
  {
    DevicesStayTold(b.log, news, b.records);
    DevicesStayTold(b.log, news, b.disk);
    if b.write.Some? {
      DevicesStayTold(b.log, news, b.write.value.snapshot);
      if b.write.value.owner.ForClaim? {
        var owner := b.write.value.owner;
        var signing :| ClaimedAs(b.log, owner.pair, signing, owner.encryption);
        ClaimedStays(b.log, news, owner.pair, signing, owner.encryption);
      } else {
        assert Refused(b', b.write.value.owner.pair);
      }
    }
  }

  lemma GrantStaysTold(log: Log, news: Log, g: Grant)
    requires GrantTold(log, g)
    ensures GrantTold(log + news, g)
  {
    match g {
      case ByClaim(pair, encryption) =>
        var signing :| ClaimedAs(log, pair, signing, encryption);
        ClaimedStays(log, news, pair, signing, encryption);
      case ByNonce(pair, nonce, encryption) =>
        var f :| f in log && f.NonceUsed? && f.pair == pair && f.nonce == nonce && f.encryption == encryption;
        assert f in log + news;
    }
  }

  lemma NonceStaysTold(log: Log, drawn: set<string>, h: Digest, entry: P.NonceEntry, news: Log, drawn': set<string>)
    requires NonceTold(log, drawn, h, entry) && drawn <= drawn'
    requires forall f :: f in news ==> !f.Restarted? && (f.NonceUsed? ==> f.nonce != h.preimage)
    ensures NonceTold(log + news, drawn', h, entry)
  {
    var i :| 0 <= i < |log| && log[i] == NonceIssued(entry.pairKey, h.preimage, entry.expiresAtMs)
      && NoRestartIn(log, i);
    assert (log + news)[i] == log[i];
    forall j | i < j < |log + news| ensures !(log + news)[j].Restarted? {
      if j < |log| { assert (log + news)[j] == log[j]; } else { assert (log + news)[j] in news; }
    }
    assert NoRestartIn(log + news, i);
  }

  lemma AllowedGrows(log: Log, e: Fact)
    requires LogAllowed(log) && Allowed(log, e)
    ensures LogAllowed(log + [e])
  {
    assert (log + [e])[..|log|] == log;
  }

  lemma LogStaysOk(b: Broker, b': Broker, news: Log)
    requires LogOk(b) && Grows(b, b', news) && KeepsRefusedForGood(b, b') && KeepsStopped(b, b')
    requires forall f :: f in news ==> Allowed(b.log, f) && FactDrawn(b'.drawn, f) && RevokesHold(b', f)
    ensures LogOk(b')
  {
    if news == [] { assert b'.log == b.log; } else {
      assert news == [news[0]];
      AllowedGrows(b.log, news[0]);
    }
    forall f | f in b'.log ensures FactDrawn(b'.drawn, f) && RevokesHold(b', f) {
      if f in b.log { assert FactDrawn(b.drawn, f) && RevokesHold(b, f); } else { assert f in news; }
    }
  }

  /** Statuses only move forward and no refused pairing gains a live record: refusals stay. */
  lemma RefusalsStay(b: Broker, b': Broker, news: Log, born: set<Digest>)
    requires LogOk(b) && Grows(b, b', news)
    requires P.OnlyForward(b.pairings, b'.pairings, born)
    requires forall k :: k in born ==> !Drawn(b.drawn, k)
    requires forall k :: k in b'.records && Refused(b, k) ==>
      k in b.records && (b.records[k].revoked ==> b'.records[k].revoked)
    requires forall k :: k in b'.disk && RefusedForGood(b, k) ==> b'.disk[k].revoked
    requires b'.write.Some? ==>
      forall k :: k in b'.write.value.snapshot && RefusedForGood(b, k) ==> b'.write.value.snapshot[k].revoked
    ensures KeepsRefused(b, b') && KeepsRefusedForGood(b, b') && KeepsStopped(b, b')
  {
    forall k | Refused(b, k) ensures Refused(b', k) { NotBorn(b, b', news, born, k); }
    forall k | Stopped(b, k) ensures Stopped(b', k) { NotBorn(b, b', news, born, k); }
  }

  /** A pairing created before is not born now, and stays created. */
  lemma NotBorn(b: Broker, b': Broker, news: Log, born: set<Digest>, k: Digest)
    requires LogOk(b) && Grows(b, b', news) && forall l :: l in born ==> !Drawn(b.drawn, l)
    requires exists f :: f in b.log && f.Created? && f.pair == k
    ensures k !in born && exists f :: f in b'.log && f.Created? && f.pair == k
  {
    var f :| f in b.log && f.Created? && f.pair == k;
    assert f in b'.log && FactDrawn(b.drawn, f);
  }

  lemma OtherTasks(b: Broker, b': Broker, news: Log, born: set<Digest>)
    requires LogOk(b) && TasksOk(b) && Grows(b, b', news)
    requires P.OnlyForward(b.pairings, b'.pairings, born) && forall k :: k in born ==> !Drawn(b.drawn, k)
    requires forall f :: f in news ==> !f.Restarted? && (f.NonceUsed? ==> Sha256(f.nonce) !in b.nonces)
    ensures forall h :: h in b.nonces ==> NonceTold(b'.log, b'.drawn, h, b.nonces[h])
    ensures forall g :: g in b.grants ==> GrantTold(b'.log, g)
    ensures forall r :: r in b.revocations ==> RevocationTold(b', r)
  {
    forall h | h in b.nonces ensures NonceTold(b'.log, b'.drawn, h, b.nonces[h]) {
      assert NonceTold(b.log, b.drawn, h, b.nonces[h]);
      NonceStaysTold(b.log, b.drawn, h, b.nonces[h], news, b'.drawn);
    }
    forall g | g in b.grants ensures GrantTold(b'.log, g) { GrantStaysTold(b.log, news, g); }
    forall r | r in b.revocations ensures RevocationTold(b', r) { assert RevocationTold(b, r); }
  }

  // ---------- the steps ----------

  lemma EvictionKeepsPairings(b: Broker, cfg: Config, nowMs: int)
    requires PairingsOk(b, cfg)
    ensures PairingsOk(Evicted(b, nowMs), cfg)
    ensures P.OnlyForward(b.pairings, Evicted(b, nowMs).pairings, {})
  {
    var b' := Evicted(b, nowMs);
    P.EvictKeepsConsistent(b.pairings, cfg.pairingCapacity, nowMs);
    P.EvictedRecords(b.pairings, nowMs);
    forall k | k in b'.pairings.records ensures PairingTold(b'.log, b'.drawn, k, b'.pairings.records[k]) {
      assert PairingTold(b.log, b.drawn, k, b.pairings.records[k]);
    }
  }

  lemma EvictionKeepsInv(b: Broker, cfg: Config, nowMs: int)
    requires Inv(b, cfg)
    ensures Inv(Evicted(b, nowMs), cfg)
  {
    EvictionKeepsPairings(b, cfg, nowMs);
    assert b.log == b.log + [];
    OnlyPairingsChange(b, cfg, Evicted(b, nowMs), [], {});
  }

  /** The rest of the invariant when a step leaves the codes, the records and the nonces alone. */
  lemma OnlyPairingsChange(b: Broker, cfg: Config, b': Broker, news: Log, born: set<Digest>)
    requires Inv(b, cfg) && Grows(b, b', news)
    requires b' == b.(pairings := b'.pairings, callbacks := b'.callbacks, revocations := b'.revocations,
                      drawn := b'.drawn, log := b'.log)
    requires PairingsOk(b', cfg) && forall r :: r in b'.revocations ==> r in b.revocations || RevocationTold(b', r)
    requires P.OnlyForward(b.pairings, b'.pairings, born) && forall k :: k in born ==> !Drawn(b.drawn, k)
    requires forall f :: f in news ==>
      && Allowed(b.log, f) && FactDrawn(b'.drawn, f) && !f.RevokeCompleted? && !f.Restarted? && !f.NonceUsed?
      && (f.Created? ==> forall c :: c in b.codes && !b.codes[c].used ==> f.code != c)
      && RevokesHold(b', f)
    ensures Inv(b', cfg)
  {
    RefusalsStay(b, b', news, born);
    LogStaysOk(b, b', news);
    SameRecords(b, b', news);
    OtherTasks(b, b', news, born);
    forall c | c in b.codes ensures CodeTold(b'.log, c, b.codes[c]) { assert CodeTold(b.log, c, b.codes[c]); }
  }

  /** The rest of the invariant when a step touches the codes, the draws and the log only. */
  lemma OnlyCodesChange(b: Broker, cfg: Config, b': Broker, news: Log)
    requires Inv(b, cfg) && Grows(b, b', news) && CodesOk(b', cfg)
    requires b' == b.(codes := b'.codes, drawn := b'.drawn, log := b'.log)
    requires forall f :: f in news ==> f.Minted? && Allowed(b.log, f) && FactDrawn(b'.drawn, f)
    ensures Inv(b', cfg)
  {
    SamePairings(b, cfg, b', news);
    RefusalsStay(b, b', news, {});
    SameRecords(b, b', news);
    OtherTasks(b, b', news, {});
    LogStaysOk(b, b', news);
  }

  lemma NewCode(b: Broker, code: string)
    requires LogOk(b) && code !in b.drawn
    ensures NoMinted(b.log, Sha256(code)) && NoRedeemed(b.log, Sha256(code))
  {
    forall f | f in b.log ensures f.Minted? || f.Created? ==> f.code != Sha256(code) { assert FactDrawn(b.drawn, f); }
  }

  lemma MintKeepsCodes(b: Broker, cfg: Config, code: string, fingerprint: E.FingerprintText, nowMs: int)
    requires LogOk(b) && CodesOk(b, cfg) && Fresh(b, {code})
    ensures CodesOk(ApplyMint(b, cfg, code, fingerprint, nowMs), cfg)
  {
    var b' := ApplyMint(b, cfg, code, fingerprint, nowMs);
    E.IssueKeepsSound(b.codes, cfg.codeCapacity, nowMs, cfg.codeTtlMs, fingerprint, code);
    NewCode(b, code);
    E.IssueChanges(b.codes, cfg.codeCapacity, nowMs, cfg.codeTtlMs, fingerprint, code);
    var news := MintNews(b, cfg, code, fingerprint, nowMs);
    forall c | c in b'.codes ensures CodeTold(b'.log, c, b'.codes[c]) {
      if c in b.codes && b'.codes[c] == b.codes[c] {
        assert CodeTold(b.log, c, b.codes[c]);
      } else {
        assert c == Sha256(code) && b'.log[|b'.log| - 1] in b'.log;
      }
    }
  }

  lemma MintKeepsInv(b: Broker, cfg: Config, code: string, fingerprint: E.FingerprintText, nowMs: int)
    requires Inv(b, cfg)
    ensures Inv(ApplyMint(b, cfg, code, fingerprint, nowMs), cfg)
  {
    if Fresh(b, {code}) {
      var b' := ApplyMint(b, cfg, code, fingerprint, nowMs);
      var news := MintNews(b, cfg, code, fingerprint, nowMs);
      MintKeepsCodes(b, cfg, code, fingerprint, nowMs);
      NewCode(b, code);
      OnlyCodesChange(b, cfg, b', news);
    }
  }

  lemma MintNews(b: Broker, cfg: Config, code: string, fingerprint: E.FingerprintText, nowMs: int) returns (news: Log)
    requires Fresh(b, {code})
    ensures
      var b' := ApplyMint(b, cfg, code, fingerprint, nowMs);
      b' == b.(codes := b'.codes, drawn := b.drawn + {code}, log := b.log + news)
    ensures news == [] || (fingerprint.Spells?
      && news == [Fact.Minted(Sha256(code), Sha256OfHex(fingerprint.fingerprint))])
  {
    var result := E.Issue(b.codes, cfg.codeCapacity, nowMs, cfg.codeTtlMs, fingerprint, code).1;
    news := if result.Minted? then [Fact.Minted(Sha256(code), Sha256OfHex(fingerprint.fingerprint))] else [];
    assert b.log + [] == b.log;
  }

  lemma UndrawnUnseen(b: Broker, cfg: Config, x: string)
    requires PairingsOk(b, cfg) && x !in b.drawn
    ensures P.Unseen(b.pairings, Sha256(x))
  {
    forall k | k in b.pairings.records ensures k != Sha256(x) && b.pairings.records[k].stateHash != Sha256(x)
                                                && b.pairings.records[k].handleHash != Some(Sha256(x)) {
      assert PairingTold(b.log, b.drawn, k, b.pairings.records[k]);
    }
  }

  /** A pairing that is neither revoked nor enrolled has no revoke behind it. */
  lemma NeverRevoked(b: Broker, k: Digest)
    requires LogOk(b) && k in b.pairings.records
    requires b.pairings.records[k].status != P.Revoked && b.pairings.records[k].status != P.Enrolled
    ensures NotRevoked(b.log, k)
  {
    NotRefused(b, k);
    assert RevokeBegun(k) in b.log ==> RevokesHold(b, RevokeBegun(k));
  }

  /** A pairing that is neither revoked nor enrolled, or has an unrevoked record, has no completed revoke behind it. */
  lemma NotRefused(b: Broker, k: Digest)
    requires LogOk(b)
    requires (k in b.pairings.records && b.pairings.records[k].status != P.Revoked
      && b.pairings.records[k].status != P.Enrolled)
          || (k in b.records && !b.records[k].revoked)
    ensures RevokeCompleted(k) !in b.log
  {
    var done := RevokeCompleted(k);
    assert done in b.log ==> RevokesHold(b, done);
  }

  // --- pair

  lemma AdmissionKeepsInv(b: Broker, cfg: Config, b': Broker)
    requires Inv(b, cfg) && b' == b.(attempts := b'.attempts, admitted := b'.admitted)
    ensures Inv(b', cfg)
  {
    assert b'.log == b.log + [];
    SamePairings(b, cfg, b', []);
    SameCodes(b, cfg, b', []);
    RefusalsStay(b, b', [], {});
    SameRecords(b, b', []);
    OtherTasks(b, b', [], {});
    LogStaysOk(b, b', []);
  }

  lemma RedeemKeepsInv(b: Broker, cfg: Config, code: string, nowMs: int, fingerprint: Option<E.FingerprintText>)
    requires Inv(b, cfg)
    ensures Inv(b.(codes := E.Consume(b.codes, code, nowMs, fingerprint).0), cfg)
  {
    var b' := b.(codes := E.Consume(b.codes, code, nowMs, fingerprint).0);
    E.ConsumeKeepsSound(b.codes, cfg.codeCapacity, code, nowMs, fingerprint);
    forall c | c in b'.codes ensures CodeTold(b'.log, c, b'.codes[c]) { assert CodeTold(b.log, c, b.codes[c]); }
    assert b.log == b.log + [];
    OnlyCodesChange(b, cfg, b', []);
  }

  lemma PairInKeepsPairings(b: Broker, cfg: Config, code: Digest, request: P.PairRequest, draws: P.Draws)
    requires LogOk(b) && PairingsOk(b, cfg) && Fresh(b, {draws.pairId, draws.oauthState, draws.pkceVerifier})
    ensures PairingsOk(PairIn(b, cfg, code, request, draws), cfg)
  {
    var b' := PairIn(b, cfg, code, request, draws);
    var (pairings, result) := P.CreateIn(b.pairings, cfg.pairingCapacity, request, draws);
    if result.Created? {
      UndrawnUnseen(b, cfg, draws.pairId);
      UndrawnUnseen(b, cfg, draws.oauthState);
      P.CreateInKeepsConsistent(b.pairings, cfg.pairingCapacity, request, draws);
      forall k | k in pairings.records ensures PairingTold(b'.log, b'.drawn, k, pairings.records[k]) {
        if k == Sha256(draws.pairId) {
          NewPairingTold(b, b', request, draws, b'.log[|b.log|]);
        } else {
          assert PairingTold(b.log, b.drawn, k, b.pairings.records[k]);
          PairingStaysTold(b.log, b.drawn, k, b.pairings.records[k], [b'.log[|b.log|]], b'.drawn);
        }
      }
    }
  }

  lemma NewPairingTold(b: Broker, b': Broker, request: P.PairRequest, draws: P.Draws, e: Fact)
    requires LogOk(b) && draws.pairId !in b.drawn && {draws.pairId, draws.oauthState} <= b'.drawn
      && b'.log == b.log + [e]
    requires e.Created? && e.pair == Sha256(draws.pairId) && e.signing == request.signing
      && e.encryption == request.encryption
    requires e.state == Sha256(draws.oauthState) && e.expiresAtMs == request.nowMs + request.ttlMs
    ensures PairingTold(b'.log, b'.drawn, Sha256(draws.pairId), P.NewPairing(request, draws))
  {
    UndrawnPair(b, draws.pairId);
    assert e in b'.log && CreatedAs(b'.log, e.pair, e.signing, e.encryption, e.state, e.expiresAtMs);
  }

  lemma UndrawnPair(b: Broker, x: string)
    requires LogOk(b) && x !in b.drawn
    ensures var k := Sha256(x);
      NoCreated(b.log, k) && NoConsumed(b.log, k) && NoAuthorized(b.log, k) && NoClaimed(b.log, k)
    ensures NoIssued(b.log, x) && NoUsed(b.log, x)
  {
    forall f | f in b.log && f.Created? ensures f.pair != Sha256(x) { assert FactDrawn(b.drawn, f); }
    forall f | f in b.log && f.StateConsumed? ensures f.pair != Sha256(x) { assert FactDrawn(b.drawn, f); }
    forall f | f in b.log && f.Authorized? ensures f.pair != Sha256(x) { assert FactDrawn(b.drawn, f); }
    forall f | f in b.log && f.Claimed? ensures f.pair != Sha256(x) { assert FactDrawn(b.drawn, f); }
    forall f | f in b.log && f.NonceIssued? ensures f.nonce != x { assert FactDrawn(b.drawn, f); }
    forall f | f in b.log && f.NonceUsed? ensures f.nonce != x { assert FactDrawn(b.drawn, f); }
  }

  lemma PairInKeepsInv(b: Broker, cfg: Config, code: Digest, request: P.PairRequest, draws: P.Draws)
    requires Inv(b, cfg) && Fresh(b, {draws.pairId, draws.oauthState, draws.pkceVerifier})
    requires request.signing.key.Some?
      && Fact.Minted(code, Sha256OfHex(Fingerprint(request.signing.key.value))) in b.log
    requires NoRedeemed(b.log, code) && (code in b.codes ==> b.codes[code].used)
    ensures Inv(PairIn(b, cfg, code, request, draws), cfg)
  {
    var b' := PairIn(b, cfg, code, request, draws);
    if P.CreateIn(b.pairings, cfg.pairingCapacity, request, draws).1.Created? {
      PairInKeepsPairings(b, cfg, code, request, draws);
      P.CreateInOnlyForward(b.pairings, cfg.pairingCapacity, request, draws);
      UndrawnPair(b, draws.pairId);
      assert FactDrawn(b.drawn, Fact.Minted(code, Sha256OfHex(Fingerprint(request.signing.key.value))));
      OnlyPairingsChange(b, cfg, b', [b'.log[|b.log|]], {Sha256(draws.pairId)});
    }
  }

  lemma PairKeepsInv(b: Broker, cfg: Config, code: string, signing: Pem, encryption: Pem,
                     redeemedMs: int, createdMs: int, draws: P.Draws)
    requires Inv(b, cfg)
    ensures Inv(ApplyPair(b, cfg, code, signing, encryption, redeemedMs, createdMs, draws), cfg)
  {
    if signing.key.Some? && Fresh(b, {draws.pairId, draws.oauthState, draws.pkceVerifier}) {
      var fingerprint := Some(E.Spells(Fingerprint(signing.key.value)));
      RedeemKeepsInv(b, cfg, code, redeemedMs, fingerprint);
      if E.Consume(b.codes, code, redeemedMs, fingerprint).1.Redeemed? {
        CreationAfterRedeeming(b, cfg, code, signing, encryption, redeemedMs, createdMs, draws);
      }
      PairOutcome(b, cfg, code, signing, encryption, redeemedMs, createdMs, draws);
    }
  }

  lemma PairOutcome(b: Broker, cfg: Config, code: string, signing: Pem, encryption: Pem,
                    redeemedMs: int, createdMs: int, draws: P.Draws)
    requires signing.key.Some?
    ensures
      var after := ApplyPair(b, cfg, code, signing, encryption, redeemedMs, createdMs, draws);
      var (codes, redemption) := E.Consume(b.codes, code, redeemedMs, Some(E.Spells(Fingerprint(signing.key.value))));
      || after == b || after == b.(codes := codes)
      || (redemption.Redeemed? && after == PairIn(Evicted(b.(codes := codes), createdMs), cfg, Sha256(code),
                                                  P.PairRequest(signing, encryption, createdMs, cfg.pairingTtlMs),
                                                  draws))
  {}

  lemma CreationAfterRedeeming(b: Broker, cfg: Config, code: string, signing: Pem, encryption: Pem,
                               redeemedMs: int, createdMs: int, draws: P.Draws)
    requires Inv(b, cfg) && signing.key.Some? && Fresh(b, {draws.pairId, draws.oauthState, draws.pkceVerifier})
    requires E.Consume(b.codes, code, redeemedMs, Some(E.Spells(Fingerprint(signing.key.value)))).1.Redeemed?
    ensures
      var left := b.(codes := E.Consume(b.codes, code, redeemedMs, Some(E.Spells(Fingerprint(signing.key.value)))).0);
      Inv(PairIn(Evicted(left, createdMs), cfg, Sha256(code),
        P.PairRequest(signing, encryption, createdMs, cfg.pairingTtlMs), draws), cfg)
  {
    var fingerprint := Some(E.Spells(Fingerprint(signing.key.value)));
    RedeemedCode(b, cfg, code, redeemedMs, signing);
    RedeemKeepsInv(b, cfg, code, redeemedMs, fingerprint);
    CreationKeepsInv(b.(codes := E.Consume(b.codes, code, redeemedMs, fingerprint).0), cfg, Sha256(code),
                     P.PairRequest(signing, encryption, createdMs, cfg.pairingTtlMs), draws);
  }

  /** A code that redeems was minted for the device's key and has created no pairing. */
  lemma RedeemedCode(b: Broker, cfg: Config, code: string, nowMs: int, signing: Pem)
    requires CodesOk(b, cfg) && signing.key.Some?
    requires E.Consume(b.codes, code, nowMs, Some(E.Spells(Fingerprint(signing.key.value)))).1.Redeemed?
    ensures
      var c, codes := Sha256(code), E.Consume(b.codes, code, nowMs, Some(E.Spells(Fingerprint(signing.key.value)))).0;
      && Fact.Minted(c, Sha256OfHex(Fingerprint(signing.key.value))) in b.log
      && NoRedeemed(b.log, c) && (c in codes ==> codes[c].used)
  {
    assert CodeTold(b.log, Sha256(code), b.codes[Sha256(code)]);
  }

  lemma CreationKeepsInv(b: Broker, cfg: Config, code: Digest, request: P.PairRequest, draws: P.Draws)
    requires Inv(b, cfg) && Fresh(b, {draws.pairId, draws.oauthState, draws.pkceVerifier})
    requires request.signing.key.Some?
      && Fact.Minted(code, Sha256OfHex(Fingerprint(request.signing.key.value))) in b.log
    requires NoRedeemed(b.log, code) && (code in b.codes ==> b.codes[code].used)
    ensures Inv(PairIn(Evicted(b, request.nowMs), cfg, code, request, draws), cfg)
  {
    EvictionKeepsInv(b, cfg, request.nowMs);
    PairInKeepsInv(Evicted(b, request.nowMs), cfg, code, request, draws);
  }

  // --- callback

  /** Replacing the pairing at `key`, whose own telling is given; the others stay told. */
  lemma OnePairingMoves(b: Broker, cfg: Config, b': Broker, key: Digest, e: Fact)
    requires PairingsOk(b, cfg) && Grows(b, b', [e]) && P.Consistent(b'.pairings, cfg.pairingCapacity)
    requires key in b.pairings.records && key in b'.pairings.records
    requires b'.pairings.records == b.pairings.records[key := b'.pairings.records[key]]
    requires PairingTold(b'.log, b'.drawn, key, b'.pairings.records[key])
    requires (e.StateConsumed? || e.Authorized? || e.Claimed?) && e.pair == key
    requires b'.pairings.nonces == map[] && b'.pairings.states.Keys <= b.pairings.states.Keys
    requires forall h :: h in b'.pairings.handles ==> Drawn(b'.drawn, h) && Drawn(b'.drawn, b'.pairings.handles[h])
    ensures PairingsOk(b', cfg)
  {
    forall k | k in b'.pairings.records ensures PairingTold(b'.log, b'.drawn, k, b'.pairings.records[k]) {
      if k != key {
        assert PairingTold(b.log, b.drawn, k, b.pairings.records[k]);
        PairingStaysTold(b.log, b.drawn, k, b.pairings.records[k], [e], b'.drawn);
      }
    }
  }

  lemma CreatedStays(log: Log, e: Fact, r: P.Pairing, k: Digest)
    requires CreatedAs(log, k, r.signing, r.encryption, r.stateHash, r.expiresAtMs)
    ensures CreatedAs(log + [e], k, r.signing, r.encryption, r.stateHash, r.expiresAtMs)
  {
    var f :| f in log && f.Created? && f.pair == k && f.signing == r.signing && f.encryption == r.encryption
             && f.state == r.stateHash && f.expiresAtMs == r.expiresAtMs;
    assert f in log + [e];
  }

  lemma CallbackInKeepsPairings(b: Broker, cfg: Config, oauthState: string, handle: string, nowMs: int)
    requires PairingsOk(b, cfg) && Fresh(b, {handle}) && P.ConsumeIn(b.pairings, oauthState, handle).1.Some?
    ensures PairingsOk(CallbackIn(b, oauthState, handle, nowMs), cfg)
  {
    var b' := CallbackIn(b, oauthState, handle, nowMs);
    var key := b.pairings.states[Sha256(oauthState)];
    var r := b.pairings.records[key];
    var e := StateConsumed(key, Sha256(oauthState), Sha256(handle), nowMs);
    assert PairingTold(b.log, b.drawn, key, r);
    UndrawnUnseen(b, cfg, handle);
    P.ConsumeInKeepsConsistent(b.pairings, cfg.pairingCapacity, oauthState, handle);
    CreatedStays(b.log, e, r, key);
    assert e in b'.log && ConsumedAs(b'.log, key, Sha256(handle));
    OnePairingMoves(b, cfg, b', key, e);
  }

  lemma CallbackAllowed(b: Broker, cfg: Config, oauthState: string, handle: string, nowMs: int)
    requires LogOk(b) && PairingsOk(b, cfg) && P.ConsumeIn(b.pairings, oauthState, handle).1.Some?
    requires nowMs < b.pairings.records[b.pairings.states[Sha256(oauthState)]].expiresAtMs
    ensures
      var e := StateConsumed(b.pairings.states[Sha256(oauthState)], Sha256(oauthState), Sha256(handle), nowMs);
      Allowed(b.log, e) && FactDrawn(b.drawn, e)
  {
    var key := b.pairings.states[Sha256(oauthState)];
    assert PairingTold(b.log, b.drawn, key, b.pairings.records[key]);
    NeverRevoked(b, key);
  }

  lemma CallbackInKeepsInv(b: Broker, cfg: Config, oauthState: string, handle: string, nowMs: int)
    requires Inv(b, cfg) && Fresh(b, {handle})
    requires forall k :: k in b.pairings.records ==> nowMs < b.pairings.records[k].expiresAtMs
    ensures Inv(CallbackIn(b, oauthState, handle, nowMs), cfg)
  {
    if P.ConsumeIn(b.pairings, oauthState, handle).1.Some? {
      CallbackInKeepsPairings(b, cfg, oauthState, handle, nowMs);
      var e := CallbackFacts(b, cfg, oauthState, handle, nowMs);
      PairingMoveKeepsInv(b, cfg, CallbackIn(b, oauthState, handle, nowMs), e);
    }
  }

  /** A callback or an approval: one pairing moves, and one fact tells it. */
  lemma PairingMoveKeepsInv(b: Broker, cfg: Config, b': Broker, e: Fact)
    requires Inv(b, cfg) && PairingsOk(b', cfg) && P.OnlyForward(b.pairings, b'.pairings, {})
    requires b' == b.(pairings := b'.pairings, callbacks := b'.callbacks, drawn := b'.drawn, log := b.log + [e])
    requires b.drawn <= b'.drawn && (e.StateConsumed? || e.Authorized?) && Allowed(b.log, e) && FactDrawn(b'.drawn, e)
    ensures Inv(b', cfg)
  {
    OnlyPairingsChange(b, cfg, b', [e], {});
  }

  lemma CallbackFacts(b: Broker, cfg: Config, oauthState: string, handle: string, nowMs: int) returns (e: Fact)
    requires LogOk(b) && PairingsOk(b, cfg) && P.ConsumeIn(b.pairings, oauthState, handle).1.Some?
    requires forall k :: k in b.pairings.records ==> nowMs < b.pairings.records[k].expiresAtMs
    ensures e.StateConsumed? && Allowed(b.log, e) && FactDrawn(b.drawn + {handle}, e)
    ensures
      var b' := CallbackIn(b, oauthState, handle, nowMs);
      && b' == b.(pairings := b'.pairings, callbacks := b'.callbacks, drawn := b.drawn + {handle}, log := b.log + [e])
      && P.OnlyForward(b.pairings, b'.pairings, {})
  {
    CallbackAllowed(b, cfg, oauthState, handle, nowMs);
    P.ConsumeInOnlyForward(b.pairings, oauthState, handle);
    e := StateConsumed(b.pairings.states[Sha256(oauthState)], Sha256(oauthState), Sha256(handle), nowMs);
  }

  lemma CallbackKeepsInv(b: Broker, cfg: Config, oauthState: string, handle: string, nowMs: int)
    requires Inv(b, cfg)
    ensures Inv(ApplyCallback(b, oauthState, handle, nowMs), cfg)
  {
    EvictionKeepsInv(b, cfg, nowMs);
    P.EvictedRecords(b.pairings, nowMs);
    if Fresh(b, {handle}) { CallbackInKeepsInv(Evicted(b, nowMs), cfg, oauthState, handle, nowMs); }
  }

  lemma AuthorizeInKeepsPairings(b: Broker, cfg: Config, handle: string, nowMs: int)
    requires PairingsOk(b, cfg) && P.AuthorizeIn(b.pairings, handle).1
    ensures PairingsOk(AuthorizeIn(b, handle, nowMs), cfg)
  {
    var b' := AuthorizeIn(b, handle, nowMs);
    var key := b.pairings.handles[Sha256(handle)];
    var r := b.pairings.records[key];
    var e := Authorized(key, Sha256(handle), nowMs);
    assert PairingTold(b.log, b.drawn, key, r);
    P.AuthorizeInKeepsConsistent(b.pairings, cfg.pairingCapacity, handle);
    CreatedStays(b.log, e, r, key);
    assert e in b'.log;
    OnePairingMoves(b, cfg, b', key, e);
  }

  lemma AuthorizeAllowed(b: Broker, cfg: Config, handle: string, nowMs: int)
    requires LogOk(b) && PairingsOk(b, cfg) && P.AuthorizeIn(b.pairings, handle).1
    requires nowMs < b.pairings.records[b.pairings.handles[Sha256(handle)]].expiresAtMs
    ensures
      var e := Authorized(b.pairings.handles[Sha256(handle)], Sha256(handle), nowMs);
      Allowed(b.log, e) && FactDrawn(b.drawn, e)
  {
    var key := b.pairings.handles[Sha256(handle)];
    assert PairingTold(b.log, b.drawn, key, b.pairings.records[key]);
    NeverRevoked(b, key);
  }

  lemma AuthorizeInKeepsInv(b: Broker, cfg: Config, handle: string, nowMs: int)
    requires Inv(b, cfg)
    requires forall k :: k in b.pairings.records ==> nowMs < b.pairings.records[k].expiresAtMs
    ensures Inv(AuthorizeIn(b, handle, nowMs), cfg)
  {
    if P.AuthorizeIn(b.pairings, handle).1 {
      AuthorizeInKeepsPairings(b, cfg, handle, nowMs);
      AuthorizeAllowed(b, cfg, handle, nowMs);
      P.AuthorizeInOnlyForward(b.pairings, handle);
      PairingMoveKeepsInv(b, cfg, AuthorizeIn(b, handle, nowMs),
                          Authorized(b.pairings.handles[Sha256(handle)], Sha256(handle), nowMs));
    }
  }

  lemma CallbackEndsKeepsInv(b: Broker, cfg: Config, handle: string, exchanged: bool, nowMs: int)
    requires Inv(b, cfg)
    ensures Inv(ApplyCallbackEnds(b, handle, exchanged, nowMs), cfg)
  {
    if handle in b.callbacks {
      var b' := b.(callbacks := b.callbacks - {handle});
      assert b'.log == b.log + [];
      SamePairings(b, cfg, b', []);
      OnlyPairingsChange(b, cfg, b', [], {});
      EvictionKeepsInv(b', cfg, nowMs);
      P.EvictedRecords(b'.pairings, nowMs);
      AuthorizeInKeepsInv(Evicted(b', nowMs), cfg, handle, nowMs);
    }
  }

  // --- claim

  lemma ClaimedKeepsPairings(b: Broker, cfg: Config, pairId: string, proof: Signature, nowMs: int, b': Broker)
    requires PairingsOk(b, cfg) && P.OpenClaim(b.pairings, pairId, proof, nowMs).1.Claimed?
    requires b'.pairings == P.OpenClaim(b.pairings, pairId, proof, nowMs).0 && b'.drawn == b.drawn
    requires
      var result := P.OpenClaim(b.pairings, pairId, proof, nowMs).1;
      b'.log == b.log + [Claimed(Sha256(pairId), result.signing, result.encryption, proof, nowMs)]
    ensures PairingsOk(b', cfg)
  {
    var key := Sha256(pairId);
    var r := b.pairings.records[key];
    var e := b'.log[|b.log|];
    P.ClaimKeepsConsistent(b.pairings, cfg.pairingCapacity, pairId, proof, nowMs);
    assert PairingTold(b.log, b.drawn, key, r);
    CreatedStays(b.log, e, r, key);
    assert e in b'.log;
    OnePairingMoves(b, cfg, b', key, e);
  }

  lemma RefusedClaimKeepsPairings(b: Broker, cfg: Config, pairId: string, proof: Signature, nowMs: int)
    requires PairingsOk(b, cfg) && !P.OpenClaim(b.pairings, pairId, proof, nowMs).1.Claimed?
    ensures PairingsOk(b.(pairings := P.OpenClaim(b.pairings, pairId, proof, nowMs).0), cfg)
  {
    var q := P.OpenClaim(b.pairings, pairId, proof, nowMs).0;
    P.ClaimKeepsConsistent(b.pairings, cfg.pairingCapacity, pairId, proof, nowMs);
    forall k | k in q.records ensures PairingTold(b.log, b.drawn, k, q.records[k]) {
      assert PairingTold(b.log, b.drawn, k, b.pairings.records[k]);
    }
  }

  lemma ClaimAllowed(b: Broker, cfg: Config, pairId: string, proof: Signature, nowMs: int)
    requires LogOk(b) && PairingsOk(b, cfg) && P.OpenClaim(b.pairings, pairId, proof, nowMs).1.Claimed?
    ensures
      var result := P.OpenClaim(b.pairings, pairId, proof, nowMs).1;
      var e := Claimed(Sha256(pairId), result.signing, result.encryption, proof, nowMs);
      Allowed(b.log, e) && FactDrawn(b.drawn, e)
    ensures !Refused(b, Sha256(pairId))
  {
    var key := Sha256(pairId);
    var r := b.pairings.records[key];
    assert PairingTold(b.log, b.drawn, key, r);
    NeverRevoked(b, key);
  }

  lemma ClaimKeepsInv(b: Broker, cfg: Config, pairId: string, proof: Signature, nowMs: int, enrolledMs: int,
      expiryMs: int)
    requires Inv(b, cfg)
    ensures Inv(ApplyClaim(b, cfg, pairId, proof, nowMs, enrolledMs, expiryMs), cfg)
  {
    if P.OpenClaim(b.pairings, pairId, proof, nowMs).1.Claimed? {
      if b.write.None? { ClaimedKeepsInv(b, cfg, pairId, proof, nowMs, enrolledMs, expiryMs); }
    } else {
      P.ClaimOnlyForward(b.pairings, pairId, proof, nowMs);
      RefusedClaimKeepsPairings(b, cfg, pairId, proof, nowMs);
      assert b.log == b.log + [];
      OnlyPairingsChange(b, cfg, b.(pairings := P.OpenClaim(b.pairings, pairId, proof, nowMs).0), [], {});
    }
  }

  lemma ClaimedKeepsInv(b: Broker, cfg: Config, pairId: string, proof: Signature, nowMs: int, enrolledMs: int,
      expiryMs: int)
    requires Inv(b, cfg) && b.write.None? && P.OpenClaim(b.pairings, pairId, proof, nowMs).1.Claimed?
    ensures Inv(ApplyClaim(b, cfg, pairId, proof, nowMs, enrolledMs, expiryMs), cfg)
  {
    var (pairings, result) := P.OpenClaim(b.pairings, pairId, proof, nowMs);
    var input := R.RecordInput(pairId, result.signing, result.encryption, enrolledMs, expiryMs + cfg.recordTtlMs);
    var e := Claimed(Sha256(pairId), result.signing, result.encryption, proof, nowMs);
    ClaimFacts(b, cfg, pairId, proof, nowMs);
    ClaimOutcome(b, cfg, b.(pairings := pairings, log := b.log + [e]), e, input);
    ClaimIsIn(b, cfg, pairId, proof, nowMs, enrolledMs, expiryMs);
  }

  lemma ClaimIsIn(b: Broker, cfg: Config, pairId: string, proof: Signature, nowMs: int, enrolledMs: int, expiryMs: int)
    requires b.write.None? && P.OpenClaim(b.pairings, pairId, proof, nowMs).1.Claimed?
    ensures
      var (pairings, result) := P.OpenClaim(b.pairings, pairId, proof, nowMs);
      var input := R.RecordInput(pairId, result.signing, result.encryption, enrolledMs, expiryMs + cfg.recordTtlMs);
      var e := Claimed(Sha256(pairId), result.signing, result.encryption, proof, nowMs);
      ApplyClaim(b, cfg, pairId, proof, nowMs, enrolledMs, expiryMs)
        == EnrollIn(b.(pairings := pairings, log := b.log + [e]), input)
  {}

  lemma ClaimFacts(b: Broker, cfg: Config, pairId: string, proof: Signature, nowMs: int)
    requires LogOk(b) && PairingsOk(b, cfg) && P.OpenClaim(b.pairings, pairId, proof, nowMs).1.Claimed?
    ensures
      var (pairings, result) := P.OpenClaim(b.pairings, pairId, proof, nowMs);
      var e := Claimed(Sha256(pairId), result.signing, result.encryption, proof, nowMs);
      && PairingsOk(b.(pairings := pairings, log := b.log + [e]), cfg)
      && P.OnlyForward(b.pairings, pairings, {})
      && Allowed(b.log, e) && FactDrawn(b.drawn, e) && !Refused(b, e.pair)
  {
    var (pairings, result) := P.OpenClaim(b.pairings, pairId, proof, nowMs);
    var e := Claimed(Sha256(pairId), result.signing, result.encryption, proof, nowMs);
    P.ClaimOnlyForward(b.pairings, pairId, proof, nowMs);
    ClaimedKeepsPairings(b, cfg, pairId, proof, nowMs, b.(pairings := pairings, log := b.log + [e]));
    ClaimAllowed(b, cfg, pairId, proof, nowMs);
  }

  lemma ClaimOutcome(b: Broker, cfg: Config, b1: Broker, e: Fact, input: R.RecordInput)
    requires Inv(b, cfg) && PairingsOk(b1, cfg) && P.OnlyForward(b.pairings, b1.pairings, {})
    requires e.Claimed? && Allowed(b.log, e) && FactDrawn(b.drawn, e) && !Refused(b, e.pair)
    requires b1 == b.(pairings := b1.pairings, log := b.log + [e])
    requires Sha256(input.pairId) == e.pair && input.signing == e.signing && input.encryption == e.encryption
    ensures Inv(EnrollIn(b1, input), cfg)
  {
    if R.Acceptable(input) {
      var b2 := EnrollIn(b1, input);
      assert b2.records == b.records[e.pair := R.DeviceOf(input)];
      forall k | k in b2.pairings.records ensures PairingTold(b2.log, b2.drawn, k, b2.pairings.records[k]) {
        assert PairingTold(b1.log, b1.drawn, k, b1.pairings.records[k]);
      }
      ClaimWithRecord(b, cfg, b2, e, R.DeviceOf(input));
    } else {
      OnlyPairingsChange(b, cfg, b1, [e], {});
    }
  }

  /** The rest of the invariant when a claim also fills the record and starts its write. */
  lemma ClaimWithRecord(b: Broker, cfg: Config, b': Broker, e: Fact, device: R.Device)
    requires Inv(b, cfg) && PairingsOk(b', cfg) && P.OnlyForward(b.pairings, b'.pairings, {})
    requires e.Claimed? && Allowed(b.log, e) && FactDrawn(b.drawn, e) && !Refused(b, e.pair)
    requires b' == b.(pairings := b'.pairings, records := b'.records, write := b'.write, log := b.log + [e])
    requires device.pairIdHash == e.pair && device.signing == e.signing && device.encryption == e.encryption
    requires b'.records == b.records[e.pair := device]
      && b'.write == Some(Write(b'.records, ForClaim(e.pair, e.encryption)))
    ensures Inv(b', cfg)
  {
    ClaimKeepsLog(b, cfg, b', e);
    ClaimKeepsRecords(b, b', e, device);
    OtherTasks(b, b', [e], {});
    SameCodes(b, cfg, b', [e]);
  }

  lemma ClaimKeepsLog(b: Broker, cfg: Config, b': Broker, e: Fact)
    requires Inv(b, cfg) && P.OnlyForward(b.pairings, b'.pairings, {})
    requires e.Claimed? && Allowed(b.log, e) && FactDrawn(b.drawn, e) && !Refused(b, e.pair)
    requires b' == b.(pairings := b'.pairings, records := b'.records, write := b'.write, log := b.log + [e])
    requires forall k :: k in b'.records && k != e.pair ==> k in b.records && b'.records[k] == b.records[k]
    requires b'.write == Some(Write(b'.records, ForClaim(e.pair, e.encryption)))
    ensures LogOk(b')
  {
    RefusalsStay(b, b', [e], {});
    LogStaysOk(b, b', [e]);
  }

  lemma ClaimKeepsRecords(b: Broker, b': Broker, e: Fact, device: R.Device)
    requires RecordsOk(b) && e.Claimed? && b'.log == b.log + [e] && b'.disk == b.disk
    requires device.pairIdHash == e.pair && device.signing == e.signing && device.encryption == e.encryption
    requires b'.records == b.records[e.pair := device]
      && b'.write == Some(Write(b'.records, ForClaim(e.pair, e.encryption)))
    ensures RecordsOk(b')
  {
    DevicesStayTold(b.log, [e], b.records);
    DevicesStayTold(b.log, [e], b.disk);
    assert e in b'.log && ClaimedAs(b'.log, e.pair, e.signing, e.encryption);
    forall k | k in b'.records ensures DeviceTold(b'.log, k, b'.records[k]) {
      if k != e.pair { assert DeviceTold(b'.log, k, b.records[k]); }
    }
  }

  // --- the store's write

  lemma WriteEndsKeepsRest(b: Broker, cfg: Config, b': Broker, news: Log)
    requires Inv(b, cfg) && b.write.Some? && Grows(b, b', news)
    requires b' == b.(write := None, disk := b'.disk, grants := b'.grants, log := b'.log)
    requires b'.disk == b.disk || b'.disk == b.write.value.snapshot
    requires forall g :: g in b'.grants ==> g in b.grants || GrantTold(b'.log, g)
    requires forall f :: f in news ==>
      f.RevokeCompleted? && Refused(b, f.pair) && (f.pair in b'.disk ==> b'.disk[f.pair].revoked)
    ensures Inv(b', cfg)
  {
    SamePairings(b, cfg, b', news);
    SameCodes(b, cfg, b', news);
    RefusalsStay(b, b', news, {});
    DevicesStayTold(b.log, news, b.records);
    DevicesStayTold(b.log, news, b'.disk);
    OtherTasks(b, b', news, {});
    forall f | f in news ensures RefusedForGood(b', f.pair) { assert Refused(b', f.pair); }
    LogStaysOk(b, b', news);
  }

  lemma WriteEndsKeepsInv(b: Broker, cfg: Config, io: R.WriteIo)
    requires Inv(b, cfg)
    ensures Inv(ApplyWriteEnds(b, io), cfg)
  {
    if b.write.Some? {
      var b' := ApplyWriteEnds(b, io);
      var owner := b.write.value.owner;
      var news := if io.Written? && owner.ForRevocation? then [RevokeCompleted(owner.pair)] else [];
      assert b'.log == b.log + news;
      if io.Written? && owner.ForClaim? { assert GrantTold(b'.log, ByClaim(owner.pair, owner.encryption)); }
      WriteEndsKeepsRest(b, cfg, b', news);
    }
  }

  // --- nonces and leases

  /** The rest of the invariant when a step touches the nonces, the grants, the draws and the log only. */
  lemma OnlyNoncesChange(b: Broker, cfg: Config, b': Broker, news: Log)
    requires Inv(b, cfg) && Grows(b, b', news)
    requires b' == b.(nonces := b'.nonces, grants := b'.grants, drawn := b'.drawn, log := b'.log)
    requires forall f :: f in news ==> Allowed(b.log, f) && FactDrawn(b'.drawn, f)
    requires forall f :: f in news ==> (f.NonceIssued? || f.NonceUsed? || f.SealedFor?)
                                       && (f.NonceUsed? ==> Sha256(f.nonce) !in b'.nonces)
    requires forall h :: h in b'.nonces ==>
      (h in b.nonces && b'.nonces[h] == b.nonces[h]) || NonceTold(b'.log, b'.drawn, h, b'.nonces[h])
    requires forall g :: g in b'.grants ==> g in b.grants || GrantTold(b'.log, g)
    ensures Inv(b', cfg)
  {
    SamePairings(b, cfg, b', news);
    SameCodes(b, cfg, b', news);
    RefusalsStay(b, b', news, {});
    SameRecords(b, b', news);
    LogStaysOk(b, b', news);
    forall h | h in b'.nonces ensures NonceTold(b'.log, b'.drawn, h, b'.nonces[h]) {
      if h in b.nonces && b'.nonces[h] == b.nonces[h] {
        assert NonceTold(b.log, b.drawn, h, b.nonces[h]);
        NonceStaysTold(b.log, b.drawn, h, b.nonces[h], news, b'.drawn);
      }
    }
    forall g | g in b'.grants ensures GrantTold(b'.log, g) {
      if g in b.grants { GrantStaysTold(b.log, news, g); }
    }
    forall r | r in b'.revocations ensures RevocationTold(b', r) { assert RevocationTold(b, r); }
  }

  lemma NonceRequestKeepsInv(b: Broker, cfg: Config, pairId: string, nonce: string, checkedMs: int, nowMs: int)
    requires Inv(b, cfg)
    ensures Inv(ApplyNonceRequest(b, cfg, pairId, nonce, checkedMs, nowMs), cfg)
  {
    if Fresh(b, {nonce}) {
      var b' := ApplyNonceRequest(b, cfg, pairId, nonce, checkedMs, nowMs);
      var issued := NonceOutcome(b, cfg, pairId, nonce, checkedMs, nowMs);
      if issued {
        IssueKeepsInv(b, cfg, b', Sha256(pairId), nonce, nowMs + cfg.nonceTtlMs);
      } else {
        MoreDrawnKeepsInv(b, cfg, b');
      }
    }
  }

  lemma MoreDrawnKeepsInv(b: Broker, cfg: Config, b': Broker)
    requires Inv(b, cfg) && b' == b.(drawn := b'.drawn) && b.drawn <= b'.drawn
    ensures Inv(b', cfg)
  {
    assert b'.log == b.log + [];
    OnlyNoncesChange(b, cfg, b', []);
  }

  lemma NonceOutcome(b: Broker, cfg: Config, pairId: string, nonce: string, checkedMs: int, nowMs: int)
      returns (issued: bool)
    requires Fresh(b, {nonce})
    ensures
      var b', pair := ApplyNonceRequest(b, cfg, pairId, nonce, checkedMs, nowMs), Sha256(pairId);
      if !issued then b' == b.(drawn := b.drawn + {nonce})
      else
        pair in b.records && !b.records[pair].revoked &&
        b' == b.(nonces := b.nonces[Sha256(nonce) := P.NonceEntry(pair, nowMs + cfg.nonceTtlMs)],
                drawn := b.drawn + {nonce},
                 log := b.log + [NonceIssued(pair, nonce, nowMs + cfg.nonceTtlMs)])
  {
    var phase, record := P.StatusOf(b.pairings, pairId), R.Find(b.records, pairId);
    B.DurableNonceIssue(b.nonces, phase, record, pairId, checkedMs, nowMs, cfg.nonceTtlMs, nonce);
    issued := B.IssueDurableNonce(b.nonces, phase, record, pairId, checkedMs, nowMs,
      cfg.nonceTtlMs, nonce).1.NonceIssued?;
  }

  lemma IssueKeepsInv(b: Broker, cfg: Config, b': Broker, pair: Digest, nonce: string, expiresAtMs: int)
    requires Inv(b, cfg) && nonce !in b.drawn && pair in b.records && !b.records[pair].revoked
    requires b' == b.(nonces := b.nonces[Sha256(nonce) := P.NonceEntry(pair, expiresAtMs)], drawn := b.drawn + {nonce},
                      log := b.log + [NonceIssued(pair, nonce, expiresAtMs)])
    ensures Inv(b', cfg)
  {
    var e := NonceIssued(pair, nonce, expiresAtMs);
    assert DeviceTold(b.log, pair, b.records[pair]);
    NotRefused(b, pair);
    UndrawnPair(b, nonce);
    assert b'.log[|b.log|] == e && NoRestartIn(b'.log, |b.log|);
    assert NonceTold(b'.log, b'.drawn, Sha256(nonce), P.NonceEntry(pair, expiresAtMs));
    OnlyNoncesChange(b, cfg, b', [e]);
  }

  lemma LeaseRequestKeepsInv(b: Broker, cfg: Config, pairId: string, nonce: string, proof: Signature, checkedMs: int,
      nowMs: int)
    requires Inv(b, cfg)
    ensures Inv(ApplyLeaseRequest(b, pairId, nonce, proof, checkedMs, nowMs), cfg)
  {
    var (nonces, reply) := B.ConsumeDurableNonce(b.nonces, P.StatusOf(b.pairings, pairId), R.Find(b.records, pairId),
                                                 pairId, nonce, proof, checkedMs, nowMs);
    B.DurableNonceUse(b.nonces, P.StatusOf(b.pairings, pairId), R.Find(b.records, pairId), pairId, nonce, proof,
      checkedMs, nowMs);
    if reply.LeaseAllowed? {
      LeaseAllowed(b, cfg, pairId, nonce, proof, checkedMs, nowMs);
      var record := b.records[Sha256(pairId)];
      var e := NonceUsed(Sha256(pairId), nonce, record.signing, record.encryption, proof, nowMs);
      UseKeepsInv(b, cfg, ApplyLeaseRequest(b, pairId, nonce, proof, checkedMs, nowMs), e);
    } else {
      FewerNoncesKeepInv(b, cfg, b.(nonces := nonces));
    }
  }

  lemma FewerNoncesKeepInv(b: Broker, cfg: Config, b': Broker)
    requires Inv(b, cfg) && b' == b.(nonces := b'.nonces)
    requires forall h :: h in b'.nonces ==> h in b.nonces && b'.nonces[h] == b.nonces[h]
    ensures Inv(b', cfg)
  {
    assert b'.log == b.log + [];
    OnlyNoncesChange(b, cfg, b', []);
  }

  lemma UseKeepsInv(b: Broker, cfg: Config, b': Broker, e: Fact)
    requires Inv(b, cfg) && e.NonceUsed? && Allowed(b.log, e) && FactDrawn(b.drawn, e)
    requires b' == b.(nonces := b.nonces - {Sha256(e.nonce)},
                      grants := b.grants + {ByNonce(e.pair, e.nonce, e.encryption)}, log := b.log + [e])
    ensures Inv(b', cfg)
  {
    var grant := ByNonce(e.pair, e.nonce, e.encryption);
    UseTold(b.log, e);
    assert forall g :: g in b'.grants ==> g in b.grants || g == grant;
    assert forall f :: f in [e] ==> f == e;
    OnlyNoncesChange(b, cfg, b', [e]);
  }

  lemma UseTold(log: Log, e: Fact)
    requires e.NonceUsed?
    ensures GrantTold(log + [e], ByNonce(e.pair, e.nonce, e.encryption))
  {
    assert e in log + [e] && UsedAs(log + [e], e.pair, e.nonce, e.encryption);
  }

  lemma LeaseAllowed(b: Broker, cfg: Config, pairId: string, nonce: string, proof: Signature, checkedMs: int,
      nowMs: int)
    requires LogOk(b) && DevicesTold(b.log, b.records) && TasksOk(b)
    requires B.ConsumeDurableNonce(b.nonces, P.StatusOf(b.pairings, pairId), R.Find(b.records, pairId), pairId, nonce,
                                   proof, checkedMs, nowMs).1.LeaseAllowed?
    ensures
      var record := b.records[Sha256(pairId)];
      var e := NonceUsed(Sha256(pairId), nonce, record.signing, record.encryption, proof, nowMs);
      Allowed(b.log, e) && FactDrawn(b.drawn, e)
  {
    var pair, h := Sha256(pairId), Sha256(nonce);
    assert DeviceTold(b.log, pair, b.records[pair]);
    assert NonceTold(b.log, b.drawn, h, b.nonces[h]);
    NotRefused(b, pair);
    assert IssuedSinceRestart(b.log, pair, nonce, b.nonces[h].expiresAtMs);
  }

  lemma MintEndsKeepsInv(b: Broker, cfg: Config, grant: Grant, sealed: bool)
    requires Inv(b, cfg)
    ensures Inv(ApplyMintEnds(b, grant, sealed), cfg)
  {
    if grant in b.grants {
      var news := if sealed then [SealedFor(grant.pair, grant.encryption, grant)] else [];
      assert ApplyMintEnds(b, grant, sealed).log == b.log + news;
      assert GrantTold(b.log, grant);
      OnlyNoncesChange(b, cfg, ApplyMintEnds(b, grant, sealed), news);
    }
  }

  // --- revoke and restart

  lemma RevokeKeepsPairings(b: Broker, cfg: Config, b': Broker, pairId: string, news: Log)
    requires PairingsOk(b, cfg) && b'.pairings == P.Revoke(b.pairings, pairId).0 && Grows(b, b', news)
      && forall k :: !Moves(news, k)
    ensures PairingsOk(b', cfg)
  {
    P.RevokeKeepsConsistent(b.pairings, cfg.pairingCapacity, pairId);
    forall l | l in b'.pairings.records ensures PairingTold(b'.log, b'.drawn, l, b'.pairings.records[l]) {
      PairingStaysTold(b.log, b.drawn, l, b.pairings.records[l], news, b'.drawn);
    }
  }

  lemma AdminRevokeKeepsInv(b: Broker, cfg: Config, pairId: string)
    requires Inv(b, cfg)
    ensures Inv(ApplyAdminRevoke(b, pairId), cfg)
  {
    var b' := ApplyAdminRevoke(b, pairId);
    if Sha256(pairId) in b.pairings.records {
      RevokeHeldKeepsInv(b, cfg, b', pairId);
    } else {
      assert b'.log == b.log + [];
      SamePairings(b, cfg, b', []);
      OnlyPairingsChange(b, cfg, b', [], {});
    }
  }

  lemma RevokeHeldKeepsInv(b: Broker, cfg: Config, b': Broker, pairId: string)
    requires Inv(b, cfg) && Sha256(pairId) in b.pairings.records
    requires b' == b.(pairings := P.Revoke(b.pairings, pairId).0,
                      revocations := b.revocations + {Revocation(pairId, true)},
                      log := b.log + [RevokeBegun(Sha256(pairId))])
    ensures Inv(b', cfg)
  {
    var k := Sha256(pairId);
    RevokeKeepsPairings(b, cfg, b', pairId, [RevokeBegun(k)]);
    P.RevokeOnlyForward(b.pairings, pairId);
    assert PairingTold(b.log, b.drawn, k, b.pairings.records[k]);
    assert b'.pairings.records[k].status == P.Revoked;
    RevokeTold(b, cfg, b', Revocation(pairId, true));
  }

  lemma RevokeTold(b: Broker, cfg: Config, b': Broker, revocation: Revocation)
    requires Inv(b, cfg) && PairingsOk(b', cfg) && P.OnlyForward(b.pairings, b'.pairings, {})
    requires b' == b.(pairings := b'.pairings, revocations := b.revocations + {revocation},
                      log := b.log + [RevokeBegun(Sha256(revocation.pairId))])
    requires var k := Sha256(revocation.pairId);
      && (exists f :: f in b.log && f.Created? && f.pair == k)
      && k in b'.pairings.records && b'.pairings.records[k].status == P.Revoked
    ensures Inv(b', cfg)
  {
    var k := Sha256(revocation.pairId);
    var f :| f in b.log && f.Created? && f.pair == k;
    assert f in b'.log && Stopped(b', k);
    RevokeNoted(b, cfg, b', revocation, RevokeBegun(k));
  }

  lemma RevokeNoted(b: Broker, cfg: Config, b': Broker, revocation: Revocation, e: Fact)
    requires Inv(b, cfg) && PairingsOk(b', cfg) && P.OnlyForward(b.pairings, b'.pairings, {})
    requires b' == b.(pairings := b'.pairings, revocations := b.revocations + {revocation}, log := b.log + [e])
    requires e == RevokeBegun(Sha256(revocation.pairId)) && Allowed(b.log, e) && RevokesHold(b', e)
    ensures Inv(b', cfg)
  {
    assert e in b'.log && RevocationTold(b', revocation);
    assert forall f :: f in [e] ==> f == e;
    OnlyPairingsChange(b, cfg, b', [e], {});
  }

  lemma AdminRevokeRecordKeepsInv(b: Broker, cfg: Config, revocation: Revocation)
    requires Inv(b, cfg)
    ensures Inv(ApplyAdminRevokeRecord(b, revocation), cfg)
  {
    var pair := Sha256(revocation.pairId);
    if revocation in b.revocations && pair in b.records && b.write.None? {
      RevokeRecordKeepsInv(b, cfg, ApplyAdminRevokeRecord(b, revocation), revocation);
    } else if revocation in b.revocations && pair !in b.records {
      UnrecordedRevoke(b, revocation);
      NoRecordKeepsInv(b, cfg, ApplyAdminRevokeRecord(b, revocation), revocation);
    }
  }

  lemma UnrecordedRevoke(b: Broker, revocation: Revocation)
    requires revocation in b.revocations && Sha256(revocation.pairId) !in b.records
    ensures
      ApplyAdminRevokeRecord(b, revocation)
      == b.(revocations := b.revocations - {revocation},
            log := b.log + if revocation.found then [RevokeCompleted(Sha256(revocation.pairId))] else [])
  {
    assert b.log + [] == b.log;
  }

  lemma RevokeRecordKeepsInv(b: Broker, cfg: Config, b': Broker, revocation: Revocation)
    requires Inv(b, cfg) && Sha256(revocation.pairId) in b.records
    requires b' == b.(revocations := b.revocations - {revocation}, records := R.Revoke(b.records, revocation.pairId),
                      write := Some(Write(R.Revoke(b.records, revocation.pairId),
                        ForRevocation(Sha256(revocation.pairId)))))
    ensures Inv(b', cfg)
  {
    assert b'.log == b.log + [];
    RevokeKeepsRecords(b, cfg, b', revocation);
    RecordRevokeKeepsRest(b, cfg, b', []);
  }

  lemma NoRecordKeepsInv(b: Broker, cfg: Config, b': Broker, revocation: Revocation)
    requires Inv(b, cfg) && revocation in b.revocations && Sha256(revocation.pairId) !in b.records
    requires b' == b.(revocations := b.revocations - {revocation},
                      log := b.log + if revocation.found then [RevokeCompleted(Sha256(revocation.pairId))] else [])
    ensures Inv(b', cfg)
  {
    var pair := Sha256(revocation.pairId);
    var news := if revocation.found then [RevokeCompleted(pair)] else [];
    assert RevocationTold(b, revocation);
    RefusalsStay(b, b', news, {});
    SameRecords(b, b', news);
    if revocation.found {
      assert RevokesHold(b, RevokeBegun(pair));
      assert RefusedForGood(b, pair) && RefusedForGood(b', pair);
    }
    RecordRevokeKeepsRest(b, cfg, b', news);
  }

  lemma RecordRevokeKeepsRest(b: Broker, cfg: Config, b': Broker, news: Log)
    requires Inv(b, cfg) && Grows(b, b', news) && RecordsOk(b')
    requires b' == b.(revocations := b'.revocations, records := b'.records, write := b'.write, log := b'.log)
    requires b'.revocations <= b.revocations
    requires forall k :: k in b'.records ==> k in b.records && (b.records[k].revoked ==> b'.records[k].revoked)
    requires b'.write == b.write || (b'.write.Some? && b'.write.value.snapshot == b'.records)
    requires forall f :: f in news ==> f.RevokeCompleted? && RefusedForGood(b', f.pair) && Allowed(b.log, f)
    ensures Inv(b', cfg)
  {
    SamePairings(b, cfg, b', news);
    SameCodes(b, cfg, b', news);
    RefusalsStay(b, b', news, {});
    OtherTasks(b, b', news, {});
    LogStaysOk(b, b', news);
  }

  lemma RevokeKeepsRecords(b: Broker, cfg: Config, b': Broker, revocation: Revocation)
    requires LogOk(b) && PairingsOk(b, cfg) && RecordsOk(b) && Sha256(revocation.pairId) in b.records
    requires b' == b.(revocations := b'.revocations, records := R.Revoke(b.records, revocation.pairId),
                      write := Some(Write(R.Revoke(b.records, revocation.pairId),
                        ForRevocation(Sha256(revocation.pairId)))))
    ensures RecordsOk(b')
  {
    var pair := Sha256(revocation.pairId);
    forall k | k in b'.records ensures DeviceTold(b'.log, k, b'.records[k]) {
      assert DeviceTold(b.log, k, b.records[k]);
    }
    var device := b.records[pair];
    assert DeviceTold(b.log, pair, device);
    var f :| f in b.log && f.Claimed? && f.pair == pair;
    var i := CausedAt(b.log, f);
    if pair in b.pairings.records { assert PairingTold(b.log, b.drawn, pair, b.pairings.records[pair]); }
    assert Refused(b', pair);
  }

  /** Every fact of an allowed log was allowed by the facts before it. */
  lemma {:induction false} CausedAt(log: Log, f: Fact) returns (i: nat)
    requires LogAllowed(log) && f in log
    ensures i < |log| && log[i] == f && Allowed(log[..i], f)
    ensures forall g :: g in log[..i] ==> g in log
  {
    var n := |log| - 1;
    if log[n] == f { i := n; } else {
      assert f in log[..n];
      i := CausedAt(log[..n], f);
      assert log[..n][..i] == log[..i];
    }
  }

  lemma RestartKeepsInv(b: Broker, cfg: Config)
    requires Inv(b, cfg)
    ensures Inv(Start(b.disk, b.drawn, b.log + [Restarted]), cfg)
  {
    var b' := Start(b.disk, b.drawn, b.log + [Restarted]);
    forall k | RefusedForGood(b, k) ensures RefusedForGood(b', k) {
      var f :| f in b.log && f.Created? && f.pair == k;
      assert f in b'.log;
    }
    forall k | Stopped(b, k) ensures Stopped(b', k) {
      var f :| f in b.log && f.Created? && f.pair == k;
      assert f in b'.log;
    }
    LogStaysOk(b, b', [Restarted]);
    assert b'.pairings.records == map[] && b'.codes == map[];
    DevicesStayTold(b.log, [Restarted], b.disk);
  }

  lemma StepKeepsInv(b: Broker, cfg: Config, event: Event)
    requires Inv(b, cfg)
    ensures Inv(Apply(b, cfg, event), cfg)
  {
    if event.PairAttempt? { AdmissionKeepsInv(b, cfg, Apply(b, cfg, event)); }
    else if event.Mint? || event.Pair? || event.Callback? || event.CallbackEnds? { HandshakeKeepsInv(b, cfg, event); }
    else if event.Claim? || event.WriteEnds? || event.MintEnds? { ClaimingKeepsInv(b, cfg, event); }
    else if event.NonceRequest? || event.LeaseRequest? { RenewalKeepsInv(b, cfg, event); }
    else if event.Restart? { RestartStepKeepsInv(b, cfg); }
    else { RevokingKeepsInv(b, cfg, event); }
  }

  lemma HandshakeKeepsInv(b: Broker, cfg: Config, event: Event)
    requires Inv(b, cfg) && (event.Mint? || event.Pair? || event.Callback? || event.CallbackEnds?)
    ensures Inv(Apply(b, cfg, event), cfg)
  {
    match event {
      case Mint(code, fingerprint, nowMs) => MintKeepsInv(b, cfg, code, fingerprint, nowMs);
      case Pair(request, code, signing, encryption, redeemedMs, createdMs, draws) =>
        AdmissionKeepsInv(b, cfg, Heard(b, request));
        PairKeepsInv(Heard(b, request), cfg, code, signing, encryption, redeemedMs, createdMs, draws);
      case Callback(oauthState, handle, nowMs) => CallbackKeepsInv(b, cfg, oauthState, handle, nowMs);
      case CallbackEnds(handle, exchanged, nowMs) => CallbackEndsKeepsInv(b, cfg, handle, exchanged, nowMs);
    }
  }

  lemma ClaimingKeepsInv(b: Broker, cfg: Config, event: Event)
    requires Inv(b, cfg) && (event.Claim? || event.WriteEnds? || event.MintEnds?)
    ensures Inv(Apply(b, cfg, event), cfg)
  {
    match event {
      case Claim(pairId, proof, nowMs, enrolledMs, expiryMs) =>
        ClaimKeepsInv(b, cfg, pairId, proof, nowMs, enrolledMs, expiryMs);
      case WriteEnds(io) => WriteEndsKeepsInv(b, cfg, io);
      case MintEnds(grant, sealed) => MintEndsKeepsInv(b, cfg, grant, sealed);
    }
  }

  lemma RenewalKeepsInv(b: Broker, cfg: Config, event: Event)
    requires Inv(b, cfg) && (event.NonceRequest? || event.LeaseRequest?)
    ensures Inv(Apply(b, cfg, event), cfg)
  {
    match event {
      case NonceRequest(pairId, nonce, checkedMs, nowMs) =>
        NonceRequestKeepsInv(b, cfg, pairId, nonce, checkedMs, nowMs);
      case LeaseRequest(pairId, nonce, proof, checkedMs, nowMs) =>
        LeaseRequestKeepsInv(b, cfg, pairId, nonce, proof, checkedMs, nowMs);
    }
  }

  lemma RevokingKeepsInv(b: Broker, cfg: Config, event: Event)
    requires Inv(b, cfg) && (event.AdminRevoke? || event.AdminRevokeRecord?)
    ensures Inv(Apply(b, cfg, event), cfg)
  {
    match event {
      case AdminRevoke(pairId) => AdminRevokeKeepsInv(b, cfg, pairId);
      case AdminRevokeRecord(revocation) => AdminRevokeRecordKeepsInv(b, cfg, revocation);
    }
  }

  lemma RestartStepKeepsInv(b: Broker, cfg: Config)
    requires Inv(b, cfg)
    ensures Inv(Apply(b, cfg, Restart), cfg)
  {
    RestartKeepsInv(b, cfg);
  }

  lemma RunOneMore(cfg: Config, events: seq<Event>, event: Event)
    ensures Run(cfg, events + [event]) == Apply(Run(cfg, events), cfg, event)
  {
    assert (events + [event])[..|events|] == events;
  }

  /** The invariant holds after every run, however the handlers interleave. */
  lemma {:induction false} RunKeepsInv(cfg: Config, events: seq<Event>)
    ensures Inv(Run(cfg, events), cfg)
  {
    if events != [] {
      RunKeepsInv(cfg, events[..|events| - 1]);
      StepKeepsInv(Run(cfg, events[..|events| - 1]), cfg, events[|events| - 1]);
    }
  }
}
