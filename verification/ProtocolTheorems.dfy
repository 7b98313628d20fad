/** What holds of every run of the broker, read off its log of facts. */
module ProtocolTheorems {
  import opened Terms
  import opened Protocol
  import opened ProtocolInvariant
  import opened ProtocolSteps
  import opened ProtocolFrames
  import P = Pairings
  import E = Enrollment
  import R = EnrollmentRecords
  import B = BrokerServer
  import L = RateLimit

  // ---------- reading an allowed log ----------

  lemma {:induction false} AllowedAt(log: Log, i: nat)
    requires LogAllowed(log) && i < |log|
    ensures Allowed(log[..i], log[i])
  {
    var n := |log| - 1;
    if i < n {
      AllowedAt(log[..n], i);
      assert log[..n][..i] == log[..i];
    }
  }

  lemma RunLog(cfg: Config, events: seq<Event>)
    ensures LogAllowed(Run(cfg, events).log)
  {
    RunKeepsInv(cfg, events);
  }

  /** A pairing is created, called back, authorized and claimed at most once each, a code is redeemed
      at most once, and a nonce is issued and used at most once. */
  ghost predicate Repeats(e: Fact, f: Fact) {
    || (e.Created? && f.Created? && (e.pair == f.pair || e.code == f.code))
    || (e.Minted? && f.Minted? && e.code == f.code)
    || (e.StateConsumed? && f.StateConsumed? && e.pair == f.pair)
    || (e.Authorized? && f.Authorized? && e.pair == f.pair)
    || (e.Claimed? && f.Claimed? && e.pair == f.pair)
    || (e.NonceIssued? && f.NonceIssued? && e.nonce == f.nonce)
    || (e.NonceUsed? && f.NonceUsed? && e.nonce == f.nonce)
  }

  lemma NoRepeats(log: Log, i: nat, j: nat)
    requires LogAllowed(log) && i < |log| && j < |log| && Repeats(log[i], log[j])
    ensures i == j
  {
    if i < j { LaterIsNew(log, i, j); }
    if j < i { LaterIsNew(log, j, i); }
  }

  lemma LaterIsNew(log: Log, i: nat, j: nat)
    requires LogAllowed(log) && i < j < |log|
    ensures !Repeats(log[i], log[j])
  {
    AllowedAt(log, j);
    assert log[i] in log[..j];
  }

  // ---------- provenance ----------

  /** Where in the log the five steps behind an enrolled device are. */
  datatype History = History(minted: nat, created: nat, consumed: nat, authorized: nat, claimed: nat)

  /** Those steps, in order, are of this pairing: an operator's code approving the fingerprint of its
      signing key, its creation with that code, its own callback, the approval that callback led to,
      and a claim proved with the signing key, the last three before it expired. */
  ghost predicate Backs(log: Log, h: History, pair: Digest, encryption: Pem) {
    && h.minted < h.created < h.consumed < h.authorized < h.claimed < |log|
    && var m, c, s, a, k := log[h.minted], log[h.created], log[h.consumed], log[h.authorized], log[h.claimed];
    && m.Minted? && c.Created? && s.StateConsumed? && a.Authorized? && k.Claimed?
    && c.pair == pair && s.pair == pair && a.pair == pair && k.pair == pair
    && c.code == m.code && c.signing.key.Some? && m.approved == Sha256OfHex(Fingerprint(c.signing.key.value))
    && c.encryption == encryption && k.encryption == encryption && k.signing == c.signing
    && s.state == c.state && a.handle == s.handle
    && s.atMs < c.expiresAtMs && a.atMs < c.expiresAtMs && k.atMs < c.expiresAtMs
    && Verifies(c.signing, PairingProof(pair, c.expiresAtMs), k.proof)
  }

  lemma Before(log: Log, i: nat, f: Fact) returns (j: nat)
    requires i <= |log| && f in log[..i]
    ensures j < i && log[j] == f
  {
    j :| 0 <= j < i && log[..i][j] == f;
  }

  /** Every claim has exactly the history it should have. */
  lemma ClaimBacked(log: Log, k: nat) returns (h: History)
    requires LogAllowed(log) && k < |log| && log[k].Claimed?
    ensures h.claimed == k && Backs(log, h, log[k].pair, log[k].encryption)
  {
    var pair := log[k].pair;
    AllowedAt(log, k);
    var created :| created in log[..k] && created.Created? && created.pair == pair && created.signing == log[k].signing
      && created.encryption == log[k].encryption && log[k].atMs < created.expiresAtMs
      && Verifies(log[k].signing, PairingProof(pair, created.expiresAtMs), log[k].proof);
    var c := Before(log, k, created);
    var authorized :| authorized in log[..k] && authorized.Authorized? && authorized.pair == pair;
    var a := Before(log, k, authorized);
    var s := AuthorizationBacked(log, a, c);
    AllowedAt(log, c);
    var m := Before(log, c, Fact.Minted(created.code, Sha256OfHex(Fingerprint(created.signing.key.value))));
    h := History(m, c, s, a, k);
  }

  lemma AuthorizationBacked(log: Log, a: nat, c: nat) returns (s: nat)
    requires LogAllowed(log) && a < |log| && c < |log| && log[a].Authorized? && log[c].Created?
      && log[c].pair == log[a].pair
    ensures c < s < a && log[s].StateConsumed? && log[s].pair == log[a].pair && log[s].handle == log[a].handle
    ensures log[s].state == log[c].state && log[s].atMs < log[c].expiresAtMs && log[a].atMs < log[c].expiresAtMs
  {
    var pair := log[a].pair;
    AllowedAt(log, a);
    var created :| created in log[..a] && created.Created? && created.pair == pair && log[a].atMs < created.expiresAtMs;
    var c1 := Before(log, a, created);
    NoRepeats(log, c, c1);
    var consumed :| consumed in log[..a] && consumed.StateConsumed? && consumed.pair == pair
      && consumed.handle == log[a].handle;
    s := Before(log, a, consumed);
    AllowedAt(log, s);
    var f :| f in log[..s] && f.Created? && f.pair == pair && f.state == log[s].state && log[s].atMs < f.expiresAtMs;
    var c2 := Before(log, s, f);
    NoRepeats(log, c, c2);
  }

  /** For a lease renewed with a nonce: the nonce was issued to the pairing after its claim, and used
      once, with a proof by its signing key, before the nonce expired and before any restart. */
  ghost predicate RenewalBacked(log: Log, h: History, i: nat, nonce: string) {
    exists n: nat, u: nat :: h.claimed < n < u < i <= |log| && h.created < |log|
      && RenewedAt(log, h.created, n, u, nonce)
  }

  ghost predicate RenewedAt(log: Log, c: nat, n: nat, u: nat, nonce: string)
    requires c < |log| && n < u < |log|
  {
    && log[c].Created? && log[n].NonceIssued? && log[u].NonceUsed? && log[n].nonce == nonce == log[u].nonce
    && log[n].pair == log[u].pair == log[c].pair
    && log[u].atMs < log[n].expiresAtMs && NoRestartIn(log[..u], n)
    && Verifies(log[c].signing, NonceBytes(nonce), log[u].proof)
  }

  /** Every lease ever sealed is sealed to the encryption key of a pairing with a full history. */
  lemma LeaseProvenance(cfg: Config, events: seq<Event>, i: nat)
    requires i < |Run(cfg, events).log| && Run(cfg, events).log[i].SealedFor?
    ensures
      var log := Run(cfg, events).log;
      exists h: History ::
        && h.claimed < i && Backs(log, h, log[i].pair, log[i].encryption)
        && (log[i].grant.ByNonce? ==> RenewalBacked(log, h, i, log[i].grant.nonce))
  {
    var log := Run(cfg, events).log;
    RunLog(cfg, events);
    AllowedAt(log, i);
    if log[i].grant.ByClaim? {
      var signing :| ClaimedAs(log[..i], log[i].pair, signing, log[i].encryption);
      var f :| f in log[..i] && f.Claimed? && f.pair == log[i].pair && f.signing == signing
        && f.encryption == log[i].encryption;
      var k := Before(log, i, f);
      var h := ClaimBacked(log, k);
    } else {
      var h := RenewalHistory(log, i);
    }
  }

  lemma RenewalHistory(log: Log, i: nat) returns (h: History)
    requires LogAllowed(log) && i < |log| && log[i].SealedFor? && log[i].grant.ByNonce?
    ensures h.claimed < i && Backs(log, h, log[i].pair, log[i].encryption)
      && RenewalBacked(log, h, i, log[i].grant.nonce)
  {
    AllowedAt(log, i);
    var f :| f in log[..i] && f.NonceUsed? && f.pair == log[i].pair && f.nonce == log[i].grant.nonce
      && f.encryption == log[i].encryption;
    var u := Before(log, i, f);
    var n: nat;
    n, h := UseBacked(log, u);
  }

  /** A used nonce was issued, to the same pairing, after that pairing's claim, in this process, unexpired. */
  lemma UseBacked(log: Log, u: nat) returns (n: nat, h: History)
    requires LogAllowed(log) && u < |log| && log[u].NonceUsed?
    ensures h.claimed < n < u && Backs(log, h, log[u].pair, log[u].encryption)
      && RenewedAt(log, h.created, n, u, log[u].nonce)
  {
    AllowedAt(log, u);
    var pair, nonce := log[u].pair, log[u].nonce;
    var claimed :| claimed in log[..u] && claimed.Claimed? && claimed.pair == pair && claimed.signing == log[u].signing
                   && claimed.encryption == log[u].encryption;
    var k := Before(log, u, claimed);
    h := ClaimBacked(log, k);
    var expiresAtMs :| IssuedSinceRestart(log[..u], pair, nonce, expiresAtMs) && log[u].atMs < expiresAtMs;
    n :| 0 <= n < u && log[..u][n] == NonceIssued(pair, nonce, expiresAtMs) && NoRestartIn(log[..u], n);
    AllowedAt(log, n);
    var g :| g in log[..n] && g.Claimed? && g.pair == pair;
    var k' := Before(log, n, g);
    NoRepeats(log, k, k');
  }

  // ---------- revocation, single claims, codes and nonces ----------

  /** After a revoke has been answered `revoked: true`, the pairing is never again called back, authorized,
      claimed, given a nonce or renewed, whatever is evicted and however often the broker restarts. */
  lemma RevocationIsPermanent(cfg: Config, events: seq<Event>, i: nat, j: nat)
    requires i < j < |Run(cfg, events).log| && Run(cfg, events).log[i].RevokeCompleted?
    ensures
      var f := Run(cfg, events).log[j];
      (f.StateConsumed? || f.Authorized? || f.Claimed? || f.NonceIssued? || f.NonceUsed? || f.Created?) ==>
        f.pair != Run(cfg, events).log[i].pair
  {
    var log := Run(cfg, events).log;
    RunLog(cfg, events);
    AllowedAt(log, j);
    assert log[i] in log[..j];
    AllowedAt(log, i);
    if log[j].Created? {
      var f :| f in log[..i] && f.Created? && f.pair == log[i].pair;
      assert f in log[..j];
    }
  }

  /** From the moment a revoke begins, before its record is written or even if that fails, the pairing is never
      again created, called back, authorized or claimed. */
  lemma BegunRevokeStops(cfg: Config, events: seq<Event>, i: nat, j: nat)
    requires i < j < |Run(cfg, events).log| && Run(cfg, events).log[i].RevokeBegun?
    ensures
      var f := Run(cfg, events).log[j];
      (f.Created? || f.StateConsumed? || f.Authorized? || f.Claimed?) ==> f.pair != Run(cfg, events).log[i].pair
  {
    var log := Run(cfg, events).log;
    RunLog(cfg, events);
    AllowedAt(log, j);
    assert log[i] in log[..j];
    AllowedAt(log, i);
    if log[j].Created? {
      var f :| f in log[..i] && f.Created? && f.pair == log[i].pair;
      assert f in log[..j];
    }
  }

  /** The same in terms of the events: whatever follows the revoke of a pairing that is held. */
  lemma RevokeBindsAtOnce(cfg: Config, before: seq<Event>, pairId: string, after: seq<Event>, j: nat)
    requires Sha256(pairId) in Run(cfg, before).pairings.records
    requires |Run(cfg, before).log| < j < |Run(cfg, before + [AdminRevoke(pairId)] + after).log|
    ensures
      var f := Run(cfg, before + [AdminRevoke(pairId)] + after).log[j];
      (f.Created? || f.StateConsumed? || f.Authorized? || f.Claimed?) ==> f.pair != Sha256(pairId)
  {
    var revoked := before + [AdminRevoke(pairId)];
    assert revoked[..|before|] == before;
    var i := |Run(cfg, before).log|;
    assert Run(cfg, revoked).log == Run(cfg, before).log + [RevokeBegun(Sha256(pairId))];
    LogOnlyGrows(cfg, revoked, after);
    assert Run(cfg, revoked + after).log[i] == Run(cfg, revoked).log[i];
    BegunRevokeStops(cfg, revoked + after, i, j);
  }

  /** Facts are never taken back. */
  lemma LogOnlyGrows(cfg: Config, before: seq<Event>, after: seq<Event>)
    ensures Run(cfg, before).log <= Run(cfg, before + after).log
  {
    var log := LogAfter(cfg);
    forall events ensures Extends(log, events) { if events != [] { LastStepAddsFacts(cfg, events); } }
    ExtendsAll(log, before, after);
    assert log(before) == Run(cfg, before).log && log(before + after) == Run(cfg, before + after).log;
  }

  ghost function LogAfter(cfg: Config): seq<Event> -> Log { (events: seq<Event>) => Run(cfg, events).log }

  ghost predicate Extends(log: seq<Event> -> Log, events: seq<Event>) {
    events != [] ==> log(events[..|events| - 1]) <= log(events)
  }

  lemma {:induction false} ExtendsAll(log: seq<Event> -> Log, before: seq<Event>, after: seq<Event>)
    requires forall events :: Extends(log, events)
    ensures log(before) <= log(before + after)
  {
    if after == [] {
      assert before + after == before;
    } else {
      var n := |after| - 1;
      ExtendsAll(log, before, after[..n]);
      assert (before + after)[..|before| + n] == before + after[..n];
      assert Extends(log, before + after);
    }
  }

  lemma LastStepAddsFacts(cfg: Config, events: seq<Event>)
    requires events != []
    ensures Run(cfg, events[..|events| - 1]).log <= Run(cfg, events).log
  {
    StepAddsFacts(Run(cfg, events[..|events| - 1]), cfg, events[|events| - 1]);
  }

  /** A begun revoke does not by itself keep a device with a record from renewing: after it a nonce is issued exactly
      when the pairing is no longer held while its record is held unrevoked and unexpired. */
  lemma NonceAfterBegunRevokeIff(cfg: Config, events: seq<Event>, pairId: string, nonce: string, checkedMs: int,
                                 nowMs: int)
    requires RevokeBegun(Sha256(pairId)) in Run(cfg, events).log && Fresh(Run(cfg, events), {nonce})
    ensures
      var b, pair := Run(cfg, events), Sha256(pairId);
      var after := ApplyNonceRequest(b, cfg, pairId, nonce, checkedMs, nowMs);
      NonceIssued(pair, nonce, nowMs + cfg.nonceTtlMs) in after.log
      <==> pair !in b.pairings.records && pair in b.records && !b.records[pair].revoked
           && checkedMs < b.records[pair].expiresAtMs
  {
    var b := Run(cfg, events);
    RunKeepsInv(cfg, events);
    BegunStops(b, cfg, Sha256(pairId), nonce);
    NonceWhenStopped(b, cfg, pairId, nonce, checkedMs, nowMs);
  }

  lemma BegunStops(b: Broker, cfg: Config, pair: Digest, nonce: string)
    requires Inv(b, cfg) && RevokeBegun(pair) in b.log && Fresh(b, {nonce})
    ensures Stopped(b, pair) && NoIssued(b.log, nonce)
  {
    assert RevokesHold(b, RevokeBegun(pair));
    UndrawnPair(b, nonce);
  }

  lemma NonceWhenStopped(b: Broker, cfg: Config, pairId: string, nonce: string, checkedMs: int, nowMs: int)
    requires Stopped(b, Sha256(pairId)) && NoIssued(b.log, nonce) && Fresh(b, {nonce})
    ensures
      var pair := Sha256(pairId);
      NonceIssued(pair, nonce, nowMs + cfg.nonceTtlMs) in ApplyNonceRequest(b, cfg, pairId, nonce, checkedMs, nowMs).log
      <==> pair !in b.pairings.records && pair in b.records && !b.records[pair].revoked
           && checkedMs < b.records[pair].expiresAtMs
  {
    B.DurableNonceIssue(b.nonces, P.StatusOf(b.pairings, pairId), R.Find(b.records, pairId), pairId, checkedMs, nowMs,
                        cfg.nonceTtlMs, nonce);
  }

  /** A revoke survives a restart exactly when its write reached the disk, or an earlier one had. */
  lemma RevokeSurvivesRestartIff(b: Broker, cfg: Config, revocation: Revocation, io: R.WriteIo)
    requires Inv(b, cfg) && revocation in b.revocations && b.write.None? && Sha256(revocation.pairId) in b.records
    ensures
      var pair := Sha256(revocation.pairId);
      var flagged := Apply(b, cfg, AdminRevokeRecord(revocation));
      var restarted := Apply(Apply(flagged, cfg, WriteEnds(io)), cfg, Restart);
      (pair in restarted.records ==> restarted.records[pair].revoked)
        <==> !io.FailsBeforeRename? || (pair in b.disk ==> b.disk[pair].revoked)
  {}

  /** A claim succeeds once, after exactly one callback and exactly one approval of that pairing, both
      before its expiry, and after no revoke, not even one that has just begun. */
  lemma ClaimExactlyOnce(cfg: Config, events: seq<Event>, k: nat)
    requires k < |Run(cfg, events).log| && Run(cfg, events).log[k].Claimed?
    ensures
      var log := Run(cfg, events).log;
      exists h: History ::
        && h.claimed == k && Backs(log, h, log[k].pair, log[k].encryption)
        && forall j :: 0 <= j < |log| ==>
             && (log[j].Claimed? && log[j].pair == log[k].pair ==> j == k)
             && (log[j].StateConsumed? && log[j].pair == log[k].pair ==> j == h.consumed)
             && (log[j].Authorized? && log[j].pair == log[k].pair ==> j == h.authorized)
             && (log[j] == RevokeBegun(log[k].pair) || log[j] == RevokeCompleted(log[k].pair) ==> j > k)
  {
    var log := Run(cfg, events).log;
    RunLog(cfg, events);
    var h := ClaimBacked(log, k);
    forall j | 0 <= j < |log|
      ensures log[j].Claimed? && log[j].pair == log[k].pair ==> j == k
      ensures log[j].StateConsumed? && log[j].pair == log[k].pair ==> j == h.consumed
      ensures log[j].Authorized? && log[j].pair == log[k].pair ==> j == h.authorized
      ensures log[j] == RevokeBegun(log[k].pair) || log[j] == RevokeCompleted(log[k].pair) ==> j > k
    {
      if Repeats(log[j], log[k]) { NoRepeats(log, j, k); }
      if Repeats(log[j], log[h.consumed]) { NoRepeats(log, j, h.consumed); }
      if Repeats(log[j], log[h.authorized]) { NoRepeats(log, j, h.authorized); }
      AllowedAt(log, k);
      if j < k { assert log[j] in log[..k]; }
    }
  }

  /** Pairings map injectively into minted codes, each approving the pairing's own signing key. */
  lemma RedemptionInjective(cfg: Config, events: seq<Event>, i: nat, j: nat)
    requires i < |Run(cfg, events).log| && j < |Run(cfg, events).log|
    requires Run(cfg, events).log[i].Created? && Run(cfg, events).log[j].Created?
    ensures
      var log := Run(cfg, events).log;
      && (log[i].pair == log[j].pair <==> i == j)
      && (log[i].code == log[j].code <==> i == j)
      && log[i].signing.key.Some?
      && Fact.Minted(log[i].code, Sha256OfHex(Fingerprint(log[i].signing.key.value))) in log[..i]
  {
    var log := Run(cfg, events).log;
    RunLog(cfg, events);
    AllowedAt(log, i);
    if Repeats(log[i], log[j]) { NoRepeats(log, i, j); }
  }

  /** A durable nonce is used at most once, by the pairing it was issued to, after its issue, before its
      expiry, in the same process, with a proof by that pairing's claimed signing key. */
  lemma NonceSingleUse(cfg: Config, events: seq<Event>, u: nat, v: nat)
    requires u < |Run(cfg, events).log| && Run(cfg, events).log[u].NonceUsed?
    requires v < |Run(cfg, events).log| && Run(cfg, events).log[v].NonceUsed?
    ensures Run(cfg, events).log[u].nonce == Run(cfg, events).log[v].nonce ==> u == v
    ensures
      var log := Run(cfg, events).log;
      exists h: History, n: nat ::
        h.claimed < n < u && Backs(log, h, log[u].pair, log[u].encryption)
          && RenewedAt(log, h.created, n, u, log[u].nonce)
  {
    var log := Run(cfg, events).log;
    RunLog(cfg, events);
    if Repeats(log[u], log[v]) { NoRepeats(log, u, v); }
    var n, h := UseBacked(log, u);
  }

  /** A redeemed code that is still held stays redeemed, and the store never outgrows its capacity. */
  lemma CodesStayUsed(cfg: Config, events: seq<Event>, event: Event, c: Digest)
    ensures
      var codes, codes' := Run(cfg, events).codes, Run(cfg, events + [event]).codes;
      |codes'| <= cfg.codeCapacity && (c in codes && codes[c].used && c in codes' ==> codes'[c].used)
  {
    assert (events + [event])[..|events|] == events;
    RunKeepsInv(cfg, events);
    RunKeepsInv(cfg, events + [event]);
    if c in Run(cfg, events).codes && Run(cfg, events).codes[c].used { StepKeepsUsed(Run(cfg, events), cfg, event, c); }
  }

  lemma StepKeepsUsed(b: Broker, cfg: Config, event: Event, c: Digest)
    requires LogOk(b) && CodesOk(b, cfg) && c in b.codes && b.codes[c].used
    ensures c in Apply(b, cfg, event).codes ==> Apply(b, cfg, event).codes[c].used
  {
    if event.Mint? { MintKeepsUsed(b, cfg, event.code, event.fingerprint, event.nowMs, c); }
    else if event.Pair? { PairKeepsUsed(b, cfg, event, c); }
    else { OthersKeepCodes(b, cfg, event); }
  }

  lemma MintKeepsUsed(b: Broker, cfg: Config, code: string, fingerprint: E.FingerprintText, nowMs: int, c: Digest)
    requires LogOk(b) && CodesOk(b, cfg) && c in b.codes && b.codes[c].used
    ensures var b' := ApplyMint(b, cfg, code, fingerprint, nowMs); c in b'.codes ==> b'.codes[c].used
  {
    assert CodeTold(b.log, c, b.codes[c]);
    assert FactDrawn(b.drawn, Fact.Minted(c, b.codes[c].expectedFingerprintHash));
    E.UsedStaysUsed(b.codes, cfg.codeCapacity, nowMs, cfg.codeTtlMs, fingerprint, code, None, c);
  }

  lemma PairKeepsUsed(b: Broker, cfg: Config, event: Event, c: Digest)
    requires event.Pair? && c in b.codes && b.codes[c].used
    ensures c in Apply(b, cfg, event).codes ==> Apply(b, cfg, event).codes[c].used
  {
    if event.request in b.admitted && event.signing.key.Some? {
      var presented := Some(E.Spells(Fingerprint(event.signing.key.value)));
      E.UsedStaysUsed(b.codes, cfg.codeCapacity, event.redeemedMs, 0, E.Malformed, event.code, presented, c);
    }
  }

  // ---------- the rate limit within the run ----------

  /** The pairing attempts since the last restart. */
  function PairAttempts(events: seq<Event>): seq<L.Attempt> {
    if events == [] then [] else
    var earlier, last := PairAttempts(events[..|events| - 1]), events[|events| - 1];
    if last.Restart? then [] else if last.PairAttempt? then earlier + [L.Attempt(last.address, last.nowMs)] else earlier
  }

  /** However other steps interleave, the limit decides as over the attempts alone, so that its bounds per window hold
      of every run: a request waits to be heard after its attempt exactly when it did before or was admitted. */
  lemma AttemptsAreLimited(cfg: Config, events: seq<Event>, request: string, address: string, nowMs: int)
    ensures
      var trace := PairAttempts(events + [PairAttempt(request, address, nowMs)]);
      var (attempts, verdicts) := L.Run(map[], trace, cfg.maxPairAttempts, cfg.rateLimitWindowMs);
      && trace == PairAttempts(events) + [L.Attempt(address, nowMs)]
      && Run(cfg, events + [PairAttempt(request, address, nowMs)]).attempts == attempts
      && (request in Run(cfg, events + [PairAttempt(request, address, nowMs)]).admitted
          <==> request in Run(cfg, events).admitted || verdicts[|verdicts| - 1])
  {
    var e := PairAttempt(request, address, nowMs);
    assert (events + [e])[..|events|] == events;
    AttemptsOfRun(cfg, events);
    RunOneMore(cfg, events, e);
    var trace := PairAttempts(events);
    assert (trace + [L.Attempt(address, nowMs)])[..|trace|] == trace;
  }

  lemma {:induction false} AttemptsOfRun(cfg: Config, events: seq<Event>)
    ensures Run(cfg, events).attempts
            == L.Run(map[], PairAttempts(events), cfg.maxPairAttempts, cfg.rateLimitWindowMs).0
  {
    if events != [] {
      var n := |events| - 1;
      AttemptsOfRun(cfg, events[..n]);
      assert events == events[..n] + [events[n]];
      RunOneMore(cfg, events[..n], events[n]);
      EachInItsFrame(Run(cfg, events[..n]), cfg, events[n]);
      AttemptsInFrame(Run(cfg, events[..n]), Run(cfg, events), cfg, events[..n], events[n]);
    }
  }

  lemma AttemptsInFrame(b: Broker, b': Broker, cfg: Config, events: seq<Event>, e: Event)
    requires Framed(b, b', e) && (e.PairAttempt? ==> b' == ApplyPairAttempt(b, cfg, e.request, e.address, e.nowMs))
    requires b.attempts == L.Run(map[], PairAttempts(events), cfg.maxPairAttempts, cfg.rateLimitWindowMs).0
    ensures b'.attempts == L.Run(map[], PairAttempts(events + [e]), cfg.maxPairAttempts, cfg.rateLimitWindowMs).0
  {
    var trace := PairAttempts(events);
    assert (events + [e])[..|events|] == events;
    if e.PairAttempt? { assert (trace + [L.Attempt(e.address, e.nowMs)])[..|trace|] == trace; }
  }

  /** The four indexes of the pairing store agree after every run. */
  lemma IndexesAgree(cfg: Config, events: seq<Event>)
    ensures P.Consistent(Run(cfg, events).pairings, cfg.pairingCapacity)
  {
    RunKeepsInv(cfg, events);
  }
}
