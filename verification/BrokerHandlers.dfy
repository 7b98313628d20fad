/** The handlers over the stores that update themselves in place: between two awaits, the process does
    exactly what a step of the protocol does, so that its state is always that of a run
    (broker/src/server.ts:264-499, broker/src/admin-server.ts:80-141). */
module BrokerHandlers {
  import opened Terms
  import opened Int32
  import opened Protocol
  import opened ProtocolSteps
  import C = EnrollmentCodes
  import P = Pairings
  import E = Enrollment
  import R = EnrollmentRecords
  import B = BrokerServer
  import L = RateLimit

  // ---------- the steps in terms of the stores' operations ----------

  lemma PairByStores(b: Broker, cfg: Config, code: string, signing: Pem, encryption: Pem, redeemedMs: int,
      createdMs: int, draws: P.Draws)
    requires signing.key.Some? && Fresh(b, {draws.pairId, draws.oauthState, draws.pkceVerifier})
      && draws.pairId != draws.oauthState
    ensures
      var (codes, redemption) := E.Consume(b.codes, code, redeemedMs, Some(E.Spells(Fingerprint(signing.key.value))));
      var (pairings, result) := P.Create(b.pairings, cfg.pairingCapacity,
        P.PairRequest(signing, encryption, createdMs, cfg.pairingTtlMs), draws);
      var after := ApplyPair(b, cfg, code, signing, encryption, redeemedMs, createdMs, draws);
      if !redemption.Redeemed? then after == b.(codes := codes)
      else if !result.Created? then after == b.(codes := codes, pairings := pairings)
      else after == b.(codes := codes, pairings := pairings,
        drawn := b.drawn + {draws.pairId, draws.oauthState, draws.pkceVerifier},
                       log := b.log + [Fact.Created(Sha256(draws.pairId), Sha256(code), signing, encryption,
                                                    Sha256(draws.oauthState), result.expiresAtMs)])
  {}

  lemma CallbackByStores(b: Broker, oauthState: string, handle: string, nowMs: int) returns (pair: Digest)
    ensures
      var (pairings, consumed) := P.ConsumeOAuthState(b.pairings, oauthState, nowMs, handle);
      CallbackIn(Evicted(b, nowMs), oauthState, handle, nowMs) ==
        if consumed.None? then b.(pairings := pairings)
        else b.(pairings := pairings, callbacks := b.callbacks + {handle}, drawn := b.drawn + {handle},
                log := b.log + [StateConsumed(pair, Sha256(oauthState), Sha256(handle), nowMs)])
  {
    var states := P.Evict(b.pairings, nowMs).states;
    pair := if Sha256(oauthState) in states then states[Sha256(oauthState)] else Sha256(oauthState);
  }

  lemma ApprovalByStores(b: Broker, handle: string, nowMs: int) returns (pair: Digest)
    ensures
      var (pairings, done) := P.MarkAuthorized(b.pairings, handle, nowMs);
      AuthorizeIn(Evicted(b, nowMs), handle, nowMs) ==
        if !done then b.(pairings := pairings)
        else b.(pairings := pairings, log := b.log + [Authorized(pair, Sha256(handle), nowMs)])
  {
    var handles := P.Evict(b.pairings, nowMs).handles;
    pair := if Sha256(handle) in handles then handles[Sha256(handle)] else Sha256(handle);
  }

  /** What is left of a claim after the pairing store has answered. */
  ghost function AfterClaim(b: Broker, cfg: Config, pairId: string, proof: Signature, nowMs: int,
      claimed: P.ClaimResult, enrolledMs: int, expiryMs: int): Broker
  {
    if !claimed.Claimed? then b else
    var claim := Fact.Claimed(Sha256(pairId), claimed.signing, claimed.encryption, proof, nowMs);
    EnrollIn(b.(log := b.log + [claim]),
             R.RecordInput(pairId, claimed.signing, claimed.encryption, enrolledMs, expiryMs + cfg.recordTtlMs))
  }

  lemma ClaimByStores(b: Broker, cfg: Config, pairId: string, proof: Signature, nowMs: int, enrolledMs: int,
      expiryMs: int)
    requires P.OpenClaim(b.pairings, pairId, proof, nowMs).1.Claimed? ==> b.write.None?
    ensures
      var (pairings, claimed) := P.OpenClaim(b.pairings, pairId, proof, nowMs);
      ApplyClaim(b, cfg, pairId, proof, nowMs, enrolledMs, expiryMs)
        == AfterClaim(b.(pairings := pairings), cfg, pairId, proof, nowMs, claimed, enrolledMs, expiryMs)
  {}

  /** The run of the events ends in this state. It is wrapped so that a handler's proof need not look into the run. */
  ghost predicate InRun(cfg: Config, events: seq<Event>, b: Broker) {
    forall n: nat {:trigger Unwrap(n)} :: Unwrap(n) ==> b == Run(cfg, events)
  }

  predicate Unwrap(n: nat) { true }

  lemma RunHolds(cfg: Config, events: seq<Event>, b: Broker)
    ensures InRun(cfg, events, b) <==> b == Run(cfg, events)
  {
    assert Unwrap(0);
  }

  lemma Follow(cfg: Config, events: seq<Event>, b: Broker, event: Event, b': Broker)
    requires InRun(cfg, events, b) && b' == Apply(b, cfg, event)
    ensures InRun(cfg, events + [event], b')
  {
    RunHolds(cfg, events, b);
    RunOneMore(cfg, events, event);
  }

  lemma ClaimIsNext(cfg: Config, events: seq<Event>, b: Broker, pairId: string, proof: Signature, nowMs: int,
      enrolledMs: int, expiryMs: int)
    requires InRun(cfg, events, b) && (P.OpenClaim(b.pairings, pairId, proof, nowMs).1.Claimed? ==> b.write.None?)
    ensures
      var (pairings, claimed) := P.OpenClaim(b.pairings, pairId, proof, nowMs);
      InRun(cfg, events + [Event.Claim(pairId, proof, nowMs, enrolledMs, expiryMs)],
            AfterClaim(b.(pairings := pairings), cfg, pairId, proof, nowMs, claimed, enrolledMs, expiryMs))
  {
    var (pairings, claimed) := P.OpenClaim(b.pairings, pairId, proof, nowMs);
    ClaimByStores(b, cfg, pairId, proof, nowMs, enrolledMs, expiryMs);
    Follow(cfg, events, b, Event.Claim(pairId, proof, nowMs, enrolledMs, expiryMs),
           AfterClaim(b.(pairings := pairings), cfg, pairId, proof, nowMs, claimed, enrolledMs, expiryMs));
  }

  lemma CallbackIsNext(cfg: Config, events: seq<Event>, b: Broker, oauthState: string, handle: string, nowMs: int,
      next: Broker)
    requires InRun(cfg, events, b) && Fresh(b, {handle})
    requires next == CallbackIn(Evicted(b, nowMs), oauthState, handle, nowMs)
    ensures InRun(cfg, events + [Callback(oauthState, handle, nowMs)], next)
  {
    Follow(cfg, events, b, Callback(oauthState, handle, nowMs), next);
  }

  /** How a pairing request ends: with a key that cannot be read, without a code, or with the pairing store's answer. */
  datatype PairReply = UnusableKey | NotEnrolled(reason: E.Redemption) | Answered(created: P.CreateResult)

  /** The code is asked first, and the pairing store only if it opens. */
  predicate PairAnswer(codes: map<Digest, E.CodeRecord>, records: map<Digest, P.Pairing>, cfg: Config, code: string,
      signing: Pem, encryption: Pem, redeemedMs: int, createdMs: int, draws: P.Draws, reply: PairReply)
    requires signing.key.Some?
  {
    var presented := Some(E.Spells(Fingerprint(signing.key.value)));
    match reply
    case UnusableKey => false
    case NotEnrolled(reason) => reason != E.Redeemed && E.RedeemAnswer(codes, code, redeemedMs, presented, reason)
    case Answered(created) =>
      && E.RedeemAnswer(codes, code, redeemedMs, presented, E.Redeemed)
      && P.CreateAnswer(records, cfg.pairingCapacity, P.PairRequest(signing, encryption, createdMs, cfg.pairingTtlMs),
                        draws, created)
  }

  ghost function PairReplyOf(b: Broker, cfg: Config, code: string, signing: Pem, encryption: Pem, redeemedMs: int,
      createdMs: int, draws: P.Draws): PairReply
  {
    if signing.key.None? then UnusableKey else
    var redemption := E.Consume(b.codes, code, redeemedMs, Some(E.Spells(Fingerprint(signing.key.value)))).1;
    if redemption != E.Redeemed then NotEnrolled(redemption)
    else Answered(P.Create(b.pairings, cfg.pairingCapacity,
                           P.PairRequest(signing, encryption, createdMs, cfg.pairingTtlMs), draws).1)
  }

  lemma PairAnswers(b: Broker, cfg: Config, code: string, signing: Pem, encryption: Pem, redeemedMs: int,
      createdMs: int, draws: P.Draws)
    requires signing.key.Some?
    ensures PairAnswer(b.codes, b.pairings.records, cfg, code, signing, encryption, redeemedMs, createdMs, draws,
                       PairReplyOf(b, cfg, code, signing, encryption, redeemedMs, createdMs, draws))
  {
    E.RedeemAnswers(b.codes, code, redeemedMs, Some(E.Spells(Fingerprint(signing.key.value))));
    P.CreateAnswers(b.pairings, cfg.pairingCapacity,
                    P.PairRequest(signing, encryption, createdMs, cfg.pairingTtlMs), draws);
  }

  // ---------- the record store behind the process ----------

  /** Filling a claimed record and the end of its write are together one `record` of the encrypted store. */
  lemma EnrollIsRecord(b: Broker, input: R.RecordInput, load: R.LoadIo, io: R.WriteIo)
    requires b.write.None?
    ensures
      var after := ApplyWriteEnds(EnrollIn(b, input), io);
      R.Execute(R.Store(b.records, R.Loaded, R.Ok(b.disk)), R.RecordOp(input, load, io)).0
        == R.Store(after.records, R.Loaded, R.Ok(after.disk))
  {
    if R.Acceptable(input) {
      var enrolled := EnrollIn(b, input);
      assert enrolled.records == R.Record(b.records, input) && enrolled.write.value.snapshot == enrolled.records;
    }
  }

  /** Flagging a stored record and the end of its write are together one `revoke` of the encrypted store. */
  lemma RevokeIsRevoke(b: Broker, revocation: Revocation, load: R.LoadIo, io: R.WriteIo)
    requires b.write.None? && revocation in b.revocations
    ensures
      var after := ApplyWriteEnds(ApplyAdminRevokeRecord(b, revocation), io);
      R.Execute(R.Store(b.records, R.Loaded, R.Ok(b.disk)), R.RevokeOp(revocation.pairId, load, io)).0
        == R.Store(after.records, R.Loaded, R.Ok(after.disk))
  {}

  // ---------- the process ----------

  /** The two servers with their stores. The fields from `write` on are the handlers that wait at an await;
      `drawn`, `log` and `events` are the history. */
  class BrokerProcess {
    const cfg: Config
    const codes: E.EnrollmentStore
    const pairings: P.PairingStore
    const closures: B.BrokerServer
    var records: R.Records
    var disk: R.Records
    var write: Option<Write>
    var admitted: set<string>
    var callbacks: set<string>
    var revocations: set<Revocation>
    var grants: set<Grant>
    ghost var drawn: set<string>
    ghost var log: Log
    ghost var events: seq<Event>

    ghost function State(): Broker
      reads this, codes, pairings, closures
    {
      Broker(codes.records, pairings.State(), records, disk, write, closures.issuedNonces, closures.attempts, admitted,
        callbacks, revocations, grants, drawn, log)
    }

    ghost predicate StoresValid()
      reads this, codes, pairings, closures
    {
      && codes.Valid() && pairings.Valid()
      && codes.maxCodes == cfg.codeCapacity && pairings.maxRecords == cfg.pairingCapacity
      && closures.nonceTtlMs == cfg.nonceTtlMs && closures.maxPairAttempts == cfg.maxPairAttempts
      && closures.rateLimitWindowMs == cfg.rateLimitWindowMs
    }

    /** Between two steps the process is in the state that the run of its events reaches: a method that adds an
        event to `events` makes that step of the protocol, no more and no less. */
    ghost predicate Valid()
      reads this, codes, pairings, closures
    {
      StoresValid() && InRun(cfg, events, State())
    }

    /** A process that starts with the records on disk; what was drawn and what happened before it stay known. */
    constructor (cfg: Config, disk: R.Records, ghost events: seq<Event>)
      requires cfg.codeCapacity >= 1 && cfg.pairingCapacity >= 1 && 1 <= cfg.nonceTtlMs <= 120_000
      requires cfg.maxPairAttempts >= 1 && cfg.rateLimitWindowMs >= 1_000
      requires var b := Run(cfg, events); b == Start(disk, b.drawn, b.log)
      ensures Valid() && this.cfg == cfg && this.disk == disk && this.events == events
      ensures fresh(codes) && fresh(pairings) && fresh(closures)
    {
      this.cfg := cfg;
      codes := new E.EnrollmentStore(cfg.codeCapacity);
      pairings := new P.PairingStore(cfg.pairingCapacity);
      closures := new B.BrokerServer(cfg.maxPairAttempts, cfg.rateLimitWindowMs, cfg.nonceTtlMs);
      records, this.disk, write := disk, disk, None;
      admitted, callbacks, revocations, grants := {}, {}, {}, {};
      drawn, log, this.events := Run(cfg, events).drawn, Run(cfg, events).log, events;
      new;
      RunHolds(cfg, events, State());
    }

    /** Names the next event, and the state it leads to. */
    ghost method Begin(event: Event) returns (next: Broker)
      requires Valid()
      modifies this`events
      ensures StoresValid() && State() == old(State()) && events == old(events) + [event]
      ensures next == Apply(State(), cfg, event) && InRun(cfg, events, next)
    {
      next := Apply(State(), cfg, event);
      Follow(cfg, events, State(), event, next);
      events := events + [event];
    }

    /** The step just made is the next of the run. */
    ghost method Note(event: Event, before: Broker)
      requires InRun(cfg, events, before) && State() == Apply(before, cfg, event)
      modifies this`events
      ensures State() == old(State()) && InRun(cfg, events, State()) && events == old(events) + [event]
    {
      Follow(cfg, events, before, event, State());
      events := events + [event];
    }

    method HandlePairAttempt(request: string, clientAddress: string, nowMs: int) returns (allowed: bool)
      requires Valid()
      modifies this, closures
      ensures Valid() && events == old(events) + [PairAttempt(request, clientAddress, nowMs)]
      ensures allowed <==> L.Allow(old(closures.attempts), L.Attempt(clientAddress, nowMs), cfg.maxPairAttempts,
                                   cfg.rateLimitWindowMs).1
    {
      ghost var before := State();
      allowed := closures.AllowPairAttempt(clientAddress, nowMs);
      if allowed { admitted := admitted + {request}; }
      Note(PairAttempt(request, clientAddress, nowMs), before);
    }

    method HandleMint(fingerprint: E.FingerprintText, draw: seq<Byte>, nowMs: int) returns (result: E.Minted)
      requires Valid() && |draw| == C.CODE_BYTES && C.Encoded(draw) !in drawn
      modifies this, codes
      ensures Valid() && events == old(events) + [Mint(C.Encoded(draw), fingerprint, nowMs)]
      ensures E.MintAnswer(old(codes.records), cfg.codeCapacity, nowMs, cfg.codeTtlMs, fingerprint, result)
      ensures result.Minted? ==> forall beyond :: C.Normalise(beyond, result.code) == C.Encoded(draw)
    {
      ghost var before := State();
      result := IssueInStore(fingerprint, draw, nowMs);
      Note(Mint(C.Encoded(draw), fingerprint, nowMs), before);
    }

    method IssueInStore(fingerprint: E.FingerprintText, draw: seq<Byte>, nowMs: int) returns (result: E.Minted)
      requires StoresValid() && |draw| == C.CODE_BYTES && C.Encoded(draw) !in drawn
      modifies this`drawn, this`log, codes
      ensures StoresValid() && State() == Apply(old(State()), cfg, Mint(C.Encoded(draw), fingerprint, nowMs))
      ensures E.MintAnswer(old(codes.records), cfg.codeCapacity, nowMs, cfg.codeTtlMs, fingerprint, result)
      ensures result.Minted? ==> forall beyond :: C.Normalise(beyond, result.code) == C.Encoded(draw)
    {
      result := codes.IssueCode(nowMs, cfg.codeTtlMs, fingerprint, draw);
      drawn := drawn + {C.Encoded(draw)};
      if result.Minted? { log := log + [Fact.Minted(Sha256(C.Encoded(draw)), Sha256OfHex(fingerprint.fingerprint))]; }
    }

    /** The rest of the pair branch, once the request's body has been read. */
    method HandlePair(request: string, beyond: char -> string, code: string, signing: Pem, encryption: Pem,
        redeemedMs: int, createdMs: int, draws: P.Draws) returns (reply: PairReply)
      requires Valid() && request in admitted
      requires {draws.pairId, draws.oauthState, draws.pkceVerifier} !! drawn && draws.pairId != draws.oauthState
      modifies this, codes, pairings
      ensures Valid()
      ensures events == old(events)
        + [Event.Pair(request, C.Normalise(beyond, code), signing, encryption, redeemedMs, createdMs, draws)]
      ensures reply == UnusableKey <==> signing.key.None?
      ensures signing.key.Some? ==>
        PairAnswer(old(codes.records), old(pairings.records), cfg, C.Normalise(beyond, code), signing, encryption,
                   redeemedMs, createdMs, draws, reply)
    {
      ghost var before := State();
      UnseenDraws(draws);
      reply := PairAndAnswer(request, beyond, code, signing, encryption, redeemedMs, createdMs, draws);
      Note(Event.Pair(request, C.Normalise(beyond, code), signing, encryption, redeemedMs, createdMs, draws), before);
      if signing.key.Some? {
        PairAnswers(before, cfg, C.Normalise(beyond, code), signing, encryption, redeemedMs, createdMs, draws);
      }
    }

    method PairAndAnswer(request: string, beyond: char -> string, code: string, signing: Pem, encryption: Pem,
        redeemedMs: int, createdMs: int, draws: P.Draws) returns (reply: PairReply)
      requires StoresValid() && request in admitted && draws.pairId != draws.oauthState
      requires {draws.pairId, draws.oauthState, draws.pkceVerifier} !! drawn
      requires P.Unseen(pairings.State(), Sha256(draws.pairId)) && P.Unseen(pairings.State(), Sha256(draws.oauthState))
      modifies this`admitted, this`drawn, this`log, codes, pairings
      ensures StoresValid()
      ensures State() == ApplyPairRequest(old(State()), cfg, request, C.Normalise(beyond, code), signing, encryption,
        redeemedMs, createdMs, draws)
      ensures reply == PairReplyOf(old(State()), cfg, C.Normalise(beyond, code), signing, encryption, redeemedMs,
        createdMs, draws)
    {
      admitted := admitted - {request};
      if signing.key.None? { return UnusableKey; }
      reply := PairInStores(beyond, code, signing, encryption, redeemedMs, createdMs, draws);
    }

    ghost method UnseenDraws(draws: P.Draws)
      requires Valid() && {draws.pairId, draws.oauthState} !! drawn
      ensures P.Unseen(pairings.State(), Sha256(draws.pairId)) && P.Unseen(pairings.State(), Sha256(draws.oauthState))
    {
      RunHolds(cfg, events, State());
      RunKeepsInv(cfg, events);
      UndrawnUnseen(State(), cfg, draws.pairId);
      UndrawnUnseen(State(), cfg, draws.oauthState);
    }

    /** Redeems the code and creates the pairing. */
    method PairInStores(beyond: char -> string, code: string, signing: Pem, encryption: Pem, redeemedMs: int,
        createdMs: int, draws: P.Draws) returns (reply: PairReply)
      requires StoresValid() && {draws.pairId, draws.oauthState, draws.pkceVerifier} !! drawn
        && draws.pairId != draws.oauthState && signing.key.Some?
      requires P.Unseen(pairings.State(), Sha256(draws.pairId)) && P.Unseen(pairings.State(), Sha256(draws.oauthState))
      modifies this`drawn, this`log, codes, pairings
      ensures StoresValid()
      ensures State() == ApplyPair(old(State()), cfg, C.Normalise(beyond, code), signing, encryption, redeemedMs,
        createdMs, draws)
      ensures reply == PairReplyOf(old(State()), cfg, C.Normalise(beyond, code), signing, encryption, redeemedMs,
        createdMs, draws)
    {
      PairByStores(State(), cfg, C.Normalise(beyond, code), signing, encryption, redeemedMs, createdMs, draws);
      var redemption := RedeemInStore(beyond, code, redeemedMs, Some(E.Spells(Fingerprint(signing.key.value))));
      if !redemption.Redeemed? { return NotEnrolled(redemption); }
      ghost var codeHash := Sha256(C.Normalise(beyond, code));
      var created := CreateInStore(P.PairRequest(signing, encryption, createdMs, cfg.pairingTtlMs), draws, codeHash);
      return Answered(created);
    }

    method RedeemInStore(beyond: char -> string, code: string, nowMs: int, presented: Option<E.FingerprintText>)
        returns (redemption: E.Redemption)
      requires StoresValid()
      modifies codes
      ensures StoresValid() && State() == old(State()).(codes := codes.records)
      ensures (codes.records, redemption) == E.Consume(old(codes.records), C.Normalise(beyond, code), nowMs, presented)
    {
      redemption := codes.ConsumeCode(beyond, code, nowMs, presented);
    }

    method CreateInStore(request: P.PairRequest, draws: P.Draws, ghost code: Digest) returns (created: P.CreateResult)
      requires StoresValid()
      requires P.Unseen(pairings.State(), Sha256(draws.pairId)) && P.Unseen(pairings.State(), Sha256(draws.oauthState))
      modifies this`drawn, this`log, pairings
      ensures StoresValid()
      ensures (pairings.State(), created) == P.Create(old(pairings.State()), cfg.pairingCapacity, request, draws)
      ensures State() ==
              if !created.Created? then old(State()).(pairings := pairings.State())
              else old(State()).(pairings := pairings.State(),
                                 drawn := old(drawn) + {draws.pairId, draws.oauthState, draws.pkceVerifier},
                                 log := old(log) + [Fact.Created(Sha256(draws.pairId), code, request.signing,
                                                                 request.encryption, Sha256(draws.oauthState),
                                                                 created.expiresAtMs)])
    {
      created := pairings.CreatePairing(request, draws);
      if created.Created? {
        drawn := drawn + {draws.pairId, draws.oauthState, draws.pkceVerifier};
        log := log + [Fact.Created(Sha256(draws.pairId), code, request.signing, request.encryption,
                                   Sha256(draws.oauthState), created.expiresAtMs)];
      }
    }

    /** handleOAuthCallback up to the token exchange. */
    method HandleCallback(oauthState: string, nowMs: int, handle: string) returns (state: Option<P.ConsumedState>)
      requires Valid() && handle !in drawn
      modifies this, pairings
      ensures Valid() && events == old(events) + [Callback(oauthState, handle, nowMs)]
      ensures P.ConsumeAnswer(old(pairings.records), oauthState, nowMs, handle, state)
    {
      UnseenHandle(handle);
      ghost var pair, next;
      state, pair, next := BeginCallback(oauthState, nowMs, handle);
      if state.Some? {
        callbacks := callbacks + {handle};
        drawn := drawn + {handle};
        log := log + [StateConsumed(pair, Sha256(oauthState), Sha256(handle), nowMs)];
      }
      assert State() == next;
    }

    ghost method UnseenHandle(handle: string)
      requires Valid() && handle !in drawn
      ensures P.Unseen(pairings.State(), Sha256(handle))
    {
      RunHolds(cfg, events, State());
      RunKeepsInv(cfg, events);
      UndrawnUnseen(State(), cfg, handle);
    }

    /** The callback's step as far as the store makes it, and the state to reach. */
    method BeginCallback(oauthState: string, nowMs: int, handle: string)
        returns (state: Option<P.ConsumedState>, ghost pair: Digest, ghost next: Broker)
      requires Valid() && handle !in drawn && P.Unseen(pairings.State(), Sha256(handle))
      modifies this`events, pairings
      ensures StoresValid() && events == old(events) + [Callback(oauthState, handle, nowMs)]
      ensures InRun(cfg, events, next)
      ensures next == if state.None? then State()
                      else State().(callbacks := callbacks + {handle}, drawn := drawn + {handle},
                                    log := log + [StateConsumed(pair, Sha256(oauthState), Sha256(handle), nowMs)])
      ensures P.ConsumeAnswer(old(pairings.records), oauthState, nowMs, handle, state)
    {
      ghost var before := State();
      state, pair, next := ConsumeInStore(oauthState, nowMs, handle);
      CallbackIsNext(cfg, events, before, oauthState, handle, nowMs, next);
      events := events + [Callback(oauthState, handle, nowMs)];
    }

    /** Consumes the state in the store, and tells what is left for the handler to note. */
    method ConsumeInStore(oauthState: string, nowMs: int, handle: string)
        returns (state: Option<P.ConsumedState>, ghost pair: Digest, ghost next: Broker)
      requires StoresValid() && P.Unseen(pairings.State(), Sha256(handle))
      modifies pairings
      ensures StoresValid() && next == CallbackIn(Evicted(old(State()), nowMs), oauthState, handle, nowMs)
      ensures next == if state.None? then State()
                      else State().(callbacks := callbacks + {handle}, drawn := drawn + {handle},
                                    log := log + [StateConsumed(pair, Sha256(oauthState), Sha256(handle), nowMs)])
      ensures P.ConsumeAnswer(old(pairings.records), oauthState, nowMs, handle, state)
    {
      next := CallbackIn(Evicted(State(), nowMs), oauthState, handle, nowMs);
      pair := CallbackByStores(State(), oauthState, handle, nowMs);
      state := pairings.ConsumeState(oauthState, nowMs, handle);
    }

    /** The rest of handleOAuthCallback when the exchange and the stored token are in order. */
    method FinishCallback(handle: string, nowMs: int)
      requires Valid() && handle in callbacks
      modifies this, pairings
      ensures Valid() && events == old(events) + [CallbackEnds(handle, true, nowMs)]
    {
      ghost var pair, next;
      var done: bool;
      done, pair, next := AuthorizeInStore(handle, nowMs);
      callbacks := callbacks - {handle};
      if done { log := log + [Authorized(pair, Sha256(handle), nowMs)]; }
      assert State() == next;
    }

    /** Authorizes in the store, and tells what is left for the handler to note. */
    method AuthorizeInStore(handle: string, nowMs: int) returns (done: bool, ghost pair: Digest, ghost next: Broker)
      requires Valid() && handle in callbacks
      modifies this`events, pairings
      ensures StoresValid() && events == old(events) + [CallbackEnds(handle, true, nowMs)]
      ensures InRun(cfg, events, next)
      ensures next == State().(callbacks := callbacks - {handle},
                               log := if done then log + [Authorized(pair, Sha256(handle), nowMs)] else log)
    {
      next := Begin(CallbackEnds(handle, true, nowMs));
      pair := ApprovalByStores(State().(callbacks := callbacks - {handle}), handle, nowMs);
      done := pairings.Authorize(handle, nowMs);
    }

    /** The rest of handleOAuthCallback otherwise. */
    method FailCallback(handle: string, nowMs: int)
      requires Valid() && handle in callbacks
      modifies this
      ensures Valid() && events == old(events) + [CallbackEnds(handle, false, nowMs)]
    {
      ghost var before := State();
      callbacks := callbacks - {handle};
      Note(CallbackEnds(handle, false, nowMs), before);
    }

    /** The claim branch up to the store's write. */
    method HandleClaim(pairId: string, proof: Signature, nowMs: int, enrolledMs: int, expiryMs: int)
        returns (claimed: P.ClaimResult)
      requires Valid() && (P.OpenClaim(pairings.State(), pairId, proof, nowMs).1.Claimed? ==> write.None?)
      modifies this, pairings
      ensures Valid() && events == old(events) + [Event.Claim(pairId, proof, nowMs, enrolledMs, expiryMs)]
      ensures P.ClaimAnswer(old(pairings.records), pairId, proof, nowMs, claimed)
    {
      ghost var next;
      claimed, next := BeginClaim(pairId, proof, nowMs, enrolledMs, expiryMs);
      StoreClaimed(pairId, proof, nowMs, claimed, enrolledMs, expiryMs);
      assert State() == next;
    }

    method StoreClaimed(pairId: string, proof: Signature, nowMs: int, claimed: P.ClaimResult, enrolledMs: int,
        expiryMs: int)
      requires StoresValid()
      modifies this`records, this`write, this`log
      ensures StoresValid()
      ensures State() == AfterClaim(old(State()), cfg, pairId, proof, nowMs, claimed, enrolledMs, expiryMs)
    {
      if claimed.Claimed? {
        log := log + [Fact.Claimed(Sha256(pairId), claimed.signing, claimed.encryption, proof, nowMs)];
        var input := R.RecordInput(pairId, claimed.signing, claimed.encryption, enrolledMs, expiryMs + cfg.recordTtlMs);
        if R.Acceptable(input) {
          records := records[Sha256(pairId) := R.DeviceOf(input)];
          write := Some(Write(records, ForClaim(Sha256(pairId), claimed.encryption)));
        }
      }
    }

    /** The claim's step as far as the store makes it, and the state to reach. */
    method BeginClaim(pairId: string, proof: Signature, nowMs: int, enrolledMs: int, expiryMs: int)
        returns (claimed: P.ClaimResult, ghost next: Broker)
      requires Valid() && (P.OpenClaim(pairings.State(), pairId, proof, nowMs).1.Claimed? ==> write.None?)
      modifies this`events, pairings
      ensures StoresValid() && events == old(events) + [Event.Claim(pairId, proof, nowMs, enrolledMs, expiryMs)]
      ensures InRun(cfg, events, next)
      ensures next == AfterClaim(State(), cfg, pairId, proof, nowMs, claimed, enrolledMs, expiryMs)
      ensures P.ClaimAnswer(old(pairings.records), pairId, proof, nowMs, claimed)
    {
      ghost var before := State();
      claimed := ClaimInStore(pairId, proof, nowMs);
      next := AfterClaim(State(), cfg, pairId, proof, nowMs, claimed, enrolledMs, expiryMs);
      ClaimIsNext(cfg, events, before, pairId, proof, nowMs, enrolledMs, expiryMs);
      events := events + [Event.Claim(pairId, proof, nowMs, enrolledMs, expiryMs)];
    }

    method ClaimInStore(pairId: string, proof: Signature, nowMs: int) returns (claimed: P.ClaimResult)
      requires StoresValid()
      modifies pairings
      ensures StoresValid() && State() == old(State()).(pairings := pairings.State())
      ensures (pairings.State(), claimed) == P.OpenClaim(old(pairings.State()), pairId, proof, nowMs)
      ensures P.ClaimAnswer(old(pairings.records), pairId, proof, nowMs, claimed)
    {
      claimed := pairings.Claim(pairId, proof, nowMs);
    }

    /** The write ends and its handler goes on. */
    method FinishWrite(io: R.WriteIo)
      requires Valid() && write.Some?
      modifies this
      ensures Valid() && events == old(events) + [WriteEnds(io)]
    {
      ghost var before := State();
      EndWrite(io);
      Note(WriteEnds(io), before);
    }

    method EndWrite(io: R.WriteIo)
      requires StoresValid() && write.Some?
      modifies this`write, this`disk, this`grants, this`log
      ensures StoresValid() && State() == ApplyWriteEnds(old(State()), io)
    {
      var pending := write.value;
      write := None;
      if !io.FailsBeforeRename? { disk := pending.snapshot; }
      if !io.Written? { return; }
      match pending.owner {
        case ForClaim(pair, encryption) => grants := grants + {ByClaim(pair, encryption)};
        case ForRevocation(pair) => log := log + [RevokeCompleted(pair)];
      }
    }

    method HandleNonce(pairId: string, checkedMs: int, nowMs: int, nonce: string) returns (reply: B.NonceReply)
      requires Valid() && nonce !in drawn
      modifies this, closures
      ensures Valid() && events == old(events) + [NonceRequest(pairId, nonce, checkedMs, nowMs)]
      ensures B.NonceAnswer(P.StatusOf(old(pairings.State()), pairId), R.Find(old(records), pairId), checkedMs, reply)
      ensures reply.NonceIssued? ==> reply == B.NonceIssued(nonce, nowMs + cfg.nonceTtlMs)
    {
      ghost var before := State();
      reply := IssueNonce(pairId, checkedMs, nowMs, nonce);
      Note(NonceRequest(pairId, nonce, checkedMs, nowMs), before);
    }

    method IssueNonce(pairId: string, checkedMs: int, nowMs: int, nonce: string) returns (reply: B.NonceReply)
      requires StoresValid() && nonce !in drawn
      modifies this`drawn, this`log, closures
      ensures StoresValid() && State() == Apply(old(State()), cfg, NonceRequest(pairId, nonce, checkedMs, nowMs))
      ensures B.NonceAnswer(P.StatusOf(old(pairings.State()), pairId), R.Find(old(records), pairId), checkedMs, reply)
      ensures reply.NonceIssued? ==> reply == B.NonceIssued(nonce, nowMs + cfg.nonceTtlMs)
    {
      var phase := if Sha256(pairId) in pairings.records then Some(pairings.records[Sha256(pairId)].status) else None;
      reply := closures.IssueNonceFor(phase, R.Find(records, pairId), pairId, checkedMs, nowMs, nonce);
      drawn := drawn + {nonce};
      if reply.NonceIssued? { log := log + [NonceIssued(Sha256(pairId), nonce, reply.expiresAtMs)]; }
    }

    method HandleLease(pairId: string, nonce: string, proof: Signature, checkedMs: int, nowMs: int)
        returns (reply: B.LeaseReply)
      requires Valid()
      modifies this, closures
      ensures Valid() && events == old(events) + [LeaseRequest(pairId, nonce, proof, checkedMs, nowMs)]
      ensures B.LeaseAnswer(old(closures.issuedNonces), P.StatusOf(old(pairings.State()), pairId),
                            R.Find(old(records), pairId), pairId, nonce, proof, checkedMs, nowMs, reply)
    {
      ghost var before := State();
      reply := SpendNonce(pairId, nonce, proof, checkedMs, nowMs);
      B.LeaseAnswers(before.nonces, P.StatusOf(before.pairings, pairId), R.Find(before.records, pairId), pairId, nonce,
                     proof, checkedMs, nowMs);
      Note(LeaseRequest(pairId, nonce, proof, checkedMs, nowMs), before);
    }

    method SpendNonce(pairId: string, nonce: string, proof: Signature, checkedMs: int, nowMs: int)
        returns (reply: B.LeaseReply)
      requires StoresValid()
      modifies this`grants, this`log, closures
      ensures StoresValid() && State() == Apply(old(State()), cfg, LeaseRequest(pairId, nonce, proof, checkedMs, nowMs))
      ensures reply == B.ConsumeDurableNonce(old(closures.issuedNonces), P.StatusOf(old(pairings.State()), pairId),
                                             R.Find(old(records), pairId), pairId, nonce, proof, checkedMs, nowMs).1
    {
      var phase := if Sha256(pairId) in pairings.records then Some(pairings.records[Sha256(pairId)].status) else None;
      var record := R.Find(records, pairId);
      reply := closures.ConsumeNonceFor(phase, record, pairId, nonce, proof, checkedMs, nowMs);
      if !reply.LeaseAllowed? { return; }
      grants := grants + {ByNonce(Sha256(pairId), nonce, reply.encryption)};
      log := log + [NonceUsed(Sha256(pairId), nonce, record.value.signing, reply.encryption, proof, nowMs)];
    }

    /** mintSealedLease ends, with a sealed lease or without. */
    method FinishMint(grant: Grant, sealed: bool)
      requires Valid() && grant in grants
      modifies this
      ensures Valid() && events == old(events) + [MintEnds(grant, sealed)]
    {
      ghost var before := State();
      EndMint(grant, sealed);
      Note(MintEnds(grant, sealed), before);
    }

    method EndMint(grant: Grant, sealed: bool)
      requires StoresValid() && grant in grants
      modifies this`grants, this`log
      ensures StoresValid() && State() == Apply(old(State()), cfg, MintEnds(grant, sealed))
    {
      grants := grants - {grant};
      if sealed { log := log + [SealedFor(grant.pair, grant.encryption, grant)]; }
    }

    /** The revoke branch up to its await. */
    method HandleRevoke(pairId: string) returns (found: bool)
      requires Valid()
      modifies this, pairings
      ensures Valid() && events == old(events) + [AdminRevoke(pairId)]
      ensures found <==> Sha256(pairId) in old(pairings.records)
    {
      ghost var before := State();
      found := RevokeInStore(pairId);
      Note(AdminRevoke(pairId), before);
    }

    method RevokeInStore(pairId: string) returns (found: bool)
      requires StoresValid()
      modifies this`revocations, this`log, pairings
      ensures StoresValid() && State() == Apply(old(State()), cfg, AdminRevoke(pairId))
      ensures found <==> Sha256(pairId) in old(pairings.records)
    {
      found := pairings.RevokePairing(pairId);
      revocations := revocations + {Revocation(pairId, found)};
      if found { log := log + [RevokeBegun(Sha256(pairId))]; }
    }

    /** The revoke branch from the record store on, up to its write. */
    method RevokeRecord(revocation: Revocation)
      requires Valid() && revocation in revocations && (Sha256(revocation.pairId) in records ==> write.None?)
      modifies this
      ensures Valid() && events == old(events) + [AdminRevokeRecord(revocation)]
    {
      ghost var before := State();
      FlagRecord(revocation);
      Note(AdminRevokeRecord(revocation), before);
    }

    method FlagRecord(revocation: Revocation)
      requires StoresValid() && revocation in revocations && (Sha256(revocation.pairId) in records ==> write.None?)
      modifies this`revocations, this`records, this`write, this`log
      ensures StoresValid() && State() == ApplyAdminRevokeRecord(old(State()), revocation)
    {
      revocations := revocations - {revocation};
      var pair := Sha256(revocation.pairId);
      if pair in records {
        records := records[pair := records[pair].(revoked := true)];
        write := Some(Write(records, ForRevocation(pair)));
      } else if revocation.found {
        log := log + [RevokeCompleted(pair)];
      }
    }
  }
}
