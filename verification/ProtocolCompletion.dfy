/** The other half of the protocol's promise: from any state a run can reach, and whatever other devices and the
    operator do in between, an honest device gets its lease, and renews it after a restart. */
module ProtocolCompletion {
  import opened Terms
  import opened Protocol
  import opened ProtocolInvariant
  import opened ProtocolSteps
  import opened ProtocolFrames
  import opened ProtocolVisit
  import P = Pairings
  import E = Enrollment
  import R = EnrollmentRecords

  // ---------- the events of others ----------

  /** An event that is not the visit's: another code, pairing, state and handle, other draws, no eviction of what
      the visit still needs, and no restart. */
  predicate Bystander(cfg: Config, v: Visit, e: Event) {
    match e
    case Mint(code, _, nowMs) => code !in v.Draws() && nowMs < v.mintMs + cfg.codeTtlMs
    case PairAttempt(_, _, _) => true
    case Pair(request, code, _, _, _, createdMs, draws) =>
      && request != v.request && code != v.code && {draws.pairId, draws.oauthState, draws.pkceVerifier} !! v.Draws()
      && createdMs < v.ExpiresAt(cfg)
    case Callback(oauthState, handle, nowMs) =>
      oauthState != v.draws.oauthState && handle !in v.Draws() && nowMs < v.ExpiresAt(cfg)
    case CallbackEnds(handle, _, nowMs) => handle != v.handle && nowMs < v.ExpiresAt(cfg)
    case Claim(pairId, _, _, _, _) => pairId != v.draws.pairId
    case WriteEnds(_) => true
    case NonceRequest(_, nonce, _, _) => nonce !in v.Draws()
    case LeaseRequest(_, _, _, _, _) => true
    case MintEnds(grant, _) => grant != ByClaim(v.Pair(), v.encryption)
    case AdminRevoke(pairId) => pairId != v.draws.pairId
    case AdminRevokeRecord(revocation) => revocation.pairId != v.draws.pairId
    case Restart => false
  }

  function NewDraws(e: Event): set<string> {
    match e
    case Mint(code, _, _) => {code}
    case Pair(_, _, _, _, _, _, draws) => {draws.pairId, draws.oauthState, draws.pkceVerifier}
    case Callback(_, handle, _) => {handle}
    case NonceRequest(_, nonce, _, _) => {nonce}
    case _ => {}
  }

  lemma StaysFresh(b: Broker, cfg: Config, v: Visit, e: Event, draws: set<string>)
    requires Bystander(cfg, v, e) && draws <= v.Draws() && Fresh(b, draws)
    ensures Fresh(Apply(b, cfg, e), draws)
  {
    OnlyNewDraws(b, cfg, e);
    assert NewDraws(e) !! draws;
  }

  lemma OnlyNewDraws(b: Broker, cfg: Config, e: Event)
    ensures Apply(b, cfg, e).drawn <= b.drawn + NewDraws(e)
  {
    if e.Pair? { PairDrawsOnly(b, cfg, e); }
    else if e.Callback? || e.CallbackEnds? { CallbackDrawsOnly(b, cfg, e); }
    else if e.NonceRequest? || e.LeaseRequest? { RenewalDrawsOnly(b, cfg, e); }
    else if e.Mint? { MintDrawsOnly(b, cfg, e); }
    else { EachInItsFrame(b, cfg, e); DrawsInFrame(b, Apply(b, cfg, e), e); }
  }

  lemma RenewalDrawsOnly(b: Broker, cfg: Config, e: Event)
    requires e.NonceRequest? || e.LeaseRequest?
    ensures Apply(b, cfg, e).drawn <= b.drawn + NewDraws(e)
  {}

  lemma MintDrawsOnly(b: Broker, cfg: Config, e: Event)
    requires e.Mint?
    ensures Apply(b, cfg, e).drawn <= b.drawn + NewDraws(e)
  {}

  lemma DrawsInFrame(b: Broker, b': Broker, e: Event)
    requires Framed(b, b', e)
    requires !e.Mint? && !e.Pair? && !e.Callback? && !e.CallbackEnds? && !e.NonceRequest? && !e.LeaseRequest?
    ensures b'.drawn == b.drawn
  {}

  lemma PairDrawsOnly(b: Broker, cfg: Config, e: Event)
    requires e.Pair?
    ensures Apply(b, cfg, e).drawn <= b.drawn + NewDraws(e)
  {}

  lemma CallbackDrawsOnly(b: Broker, cfg: Config, e: Event)
    requires e.Callback? || e.CallbackEnds?
    ensures Apply(b, cfg, e).drawn <= b.drawn + NewDraws(e)
  {}

  lemma CodeStaysHeld(b: Broker, cfg: Config, v: Visit, e: Event)
    requires Bystander(cfg, v, e) && CodeHeld(b, cfg, v)
    ensures CodeHeld(Apply(b, cfg, e), cfg, v)
  {
    if e.Mint? {
      E.IssueKeepsLive(b.codes, cfg.codeCapacity, e.nowMs, cfg.codeTtlMs, e.fingerprint, e.code, Sha256(v.code));
    } else if e.Pair? {
      PairKeepsCode(b, cfg, v, e);
    } else {
      OthersKeepCodes(b, cfg, e);
    }
  }

  lemma PairKeepsCode(b: Broker, cfg: Config, v: Visit, e: Event)
    requires e.Pair? && Bystander(cfg, v, e) && CodeHeld(b, cfg, v)
    ensures CodeHeld(Apply(b, cfg, e), cfg, v)
  {
    if e.signing.key.Some? {
      var presented := Some(E.Spells(Fingerprint(e.signing.key.value)));
      E.ConsumeKeepsOthers(b.codes, e.code, e.redeemedMs, presented, Sha256(v.code));
      PairCodes(b, cfg, e);
    }
  }

  lemma PairCodes(b: Broker, cfg: Config, e: Event)
    requires e.Pair? && e.signing.key.Some?
    ensures
      var codes := Apply(b, cfg, e).codes;
      codes == b.codes || codes == E.Consume(b.codes, e.code, e.redeemedMs,
        Some(E.Spells(Fingerprint(e.signing.key.value)))).0
  {
    PairOutcome(Heard(b, e.request), cfg, e.code, e.signing, e.encryption, e.redeemedMs, e.createdMs, e.draws);
  }

  lemma AdmittedStays(b: Broker, cfg: Config, v: Visit, e: Event)
    requires Bystander(cfg, v, e) && v.request in b.admitted
    ensures v.request in Apply(b, cfg, e).admitted
  {
    EachInItsFrame(b, cfg, e);
    AdmittedInFrame(b, Apply(b, cfg, e), e, v.request);
  }

  lemma AdmittedInFrame(b: Broker, b': Broker, e: Event, request: string)
    requires Framed(b, b', e) && request in b.admitted && !e.Restart? && (e.Pair? ==> e.request != request)
    ensures request in b'.admitted
  {}

  // --- the pairing

  /** A pairing moves only in a step about it: by its state, its handle or its id. */
  lemma PairingStays(b: Broker, cfg: Config, v: Visit, e: Event, status: P.Status)
    requires Bystander(cfg, v, e) && PairingAt(b, cfg, v, status)
    ensures PairingAt(Apply(b, cfg, e), cfg, v, status)
  {
    if e.Pair? { PairKeepsPairing(b, cfg, v, e, status); }
    else if e.Callback? { CallbackKeepsPairing(b, cfg, v, e, status); }
    else if e.CallbackEnds? { ApprovalKeepsPairing(b, cfg, v, e, status); }
    else if e.Claim? { ClaimKeepsPairing(b, cfg, v, e, status); }
    else {
      EachInItsFrame(b, cfg, e);
      PairingInFrame(b, Apply(b, cfg, e), cfg, v, e);
      SameRecordStays(b, Apply(b, cfg, e), cfg, v, status);
    }
  }

  lemma PairingInFrame(b: Broker, b': Broker, cfg: Config, v: Visit, e: Event)
    requires Framed(b, b', e) && Bystander(cfg, v, e) && v.Pair() in b.pairings.records
    requires !e.Pair? && !e.Callback? && !e.CallbackEnds? && !e.Claim?
    ensures v.Pair() in b'.pairings.records && b'.pairings.records[v.Pair()] == b.pairings.records[v.Pair()]
  {
    if e.AdminRevoke? { P.RevokeKeepsOthers(b.pairings, e.pairId); }
  }

  lemma SurvivesOthers(b: Broker, cfg: Config, v: Visit, status: P.Status, nowMs: int)
    requires PairingAt(b, cfg, v, status) && nowMs < v.ExpiresAt(cfg)
    ensures PairingAt(Evicted(b, nowMs), cfg, v, status)
  {
    P.EvictedRecords(b.pairings, nowMs);
  }

  lemma PairKeepsPairing(b: Broker, cfg: Config, v: Visit, e: Event, status: P.Status)
    requires e.Pair? && Bystander(cfg, v, e) && PairingAt(b, cfg, v, status)
    ensures PairingAt(Apply(b, cfg, e), cfg, v, status)
  {
    var request := P.PairRequest(e.signing, e.encryption, e.createdMs, cfg.pairingTtlMs);
    PairPairings(b, cfg, e);
    CreationKeepsRecord(b.pairings, cfg.pairingCapacity, request, e.draws, v.Pair());
    SameRecordStays(b, Apply(b, cfg, e), cfg, v, status);
  }

  lemma CreationKeepsRecord(p: P.Pairings, capacity: nat, request: P.PairRequest, draws: P.Draws, k: Digest)
    requires k in p.records && k != Sha256(draws.pairId) && request.nowMs < p.records[k].expiresAtMs
    ensures
      var q := P.CreateIn(P.Evict(p, request.nowMs), capacity, request, draws).0;
      k in q.records && q.records[k] == p.records[k]
  {
    P.EvictedRecords(p, request.nowMs);
  }

  lemma SameRecordStays(b: Broker, b': Broker, cfg: Config, v: Visit, status: P.Status)
    requires PairingAt(b, cfg, v, status)
    requires v.Pair() in b'.pairings.records && b'.pairings.records[v.Pair()] == b.pairings.records[v.Pair()]
    ensures PairingAt(b', cfg, v, status)
  {}

  lemma CallbackKeepsPairing(b: Broker, cfg: Config, v: Visit, e: Event, status: P.Status)
    requires e.Callback? && Bystander(cfg, v, e) && PairingAt(b, cfg, v, status)
    ensures PairingAt(Apply(b, cfg, e), cfg, v, status)
  {
    SurvivesOthers(b, cfg, v, status, e.nowMs);
    CallbackInKeepsPairing(Evicted(b, e.nowMs), cfg, v, e.oauthState, e.handle, e.nowMs, status);
  }

  lemma CallbackInKeepsPairing(b: Broker, cfg: Config, v: Visit, oauthState: string, handle: string, nowMs: int,
      status: P.Status)
    requires PairingAt(b, cfg, v, status) && oauthState != v.draws.oauthState
    ensures PairingAt(CallbackIn(b, oauthState, handle, nowMs), cfg, v, status)
  {}

  lemma ApprovalKeepsPairing(b: Broker, cfg: Config, v: Visit, e: Event, status: P.Status)
    requires e.CallbackEnds? && Bystander(cfg, v, e) && PairingAt(b, cfg, v, status)
    ensures PairingAt(Apply(b, cfg, e), cfg, v, status)
  {
    var waiting := b.(callbacks := b.callbacks - {e.handle});
    SurvivesOthers(waiting, cfg, v, status, e.nowMs);
    AuthorizeInKeepsPairing(Evicted(waiting, e.nowMs), cfg, v, e.handle, e.nowMs, status);
  }

  lemma AuthorizeInKeepsPairing(b: Broker, cfg: Config, v: Visit, handle: string, nowMs: int, status: P.Status)
    requires PairingAt(b, cfg, v, status) && handle != v.handle
    ensures PairingAt(AuthorizeIn(b, handle, nowMs), cfg, v, status)
  {}

  lemma ClaimKeepsPairing(b: Broker, cfg: Config, v: Visit, e: Event, status: P.Status)
    requires e.Claim? && Bystander(cfg, v, e) && PairingAt(b, cfg, v, status)
    ensures PairingAt(Apply(b, cfg, e), cfg, v, status)
  {
    var pairings := P.OpenClaim(b.pairings, e.pairId, e.proof, e.nowMs).0;
    assert pairings.records.Keys - {Sha256(e.pairId)} == b.pairings.records.Keys - {Sha256(e.pairId)};
    assert v.Pair() in pairings.records && pairings.records[v.Pair()] == b.pairings.records[v.Pair()];
    assert Apply(b, cfg, e).pairings == pairings || Apply(b, cfg, e).pairings == b.pairings;
  }

  // --- the record, its write and the grant

  lemma CallbackStays(b: Broker, cfg: Config, v: Visit, e: Event)
    requires Bystander(cfg, v, e) && v.handle in b.callbacks
    ensures v.handle in Apply(b, cfg, e).callbacks
  {
    if e.Callback? || e.CallbackEnds? { CallbackStaysIn(b, cfg, e); } else { EachInItsFrame(b, cfg, e); }
  }

  lemma RecordStays(b: Broker, cfg: Config, v: Visit, e: Event)
    requires Bystander(cfg, v, e) && Stored(b.records, cfg, v)
    ensures Stored(Apply(b, cfg, e).records, cfg, v)
    ensures Apply(b, cfg, e).write != b.write ==>
              e.WriteEnds? || (b.write.None? && Apply(b, cfg, e).write.value.snapshot == Apply(b, cfg, e).records)
    ensures !e.WriteEnds? ==> Apply(b, cfg, e).disk == b.disk
  {
    EachInItsFrame(b, cfg, e);
    RecordInFrame(b, Apply(b, cfg, e), cfg, v, e);
  }

  lemma RecordInFrame(b: Broker, b': Broker, cfg: Config, v: Visit, e: Event)
    requires Framed(b, b', e) && Bystander(cfg, v, e) && Stored(b.records, cfg, v)
    ensures Stored(b'.records, cfg, v) && (!e.WriteEnds? ==> b'.disk == b.disk)
    ensures b'.write != b.write ==> e.WriteEnds? || (b.write.None? && b'.write.value.snapshot == b'.records)
  {}

  lemma GrantStays(b: Broker, cfg: Config, v: Visit, e: Event, grant: Grant)
    requires Bystander(cfg, v, e) && grant == ByClaim(v.Pair(), v.encryption) && grant in b.grants
    ensures grant in Apply(b, cfg, e).grants
  {
    EachInItsFrame(b, cfg, e);
  }

  // ---------- a visit among others ----------

  /** The visit's own device polls for its claim before consent is given. */
  predicate OwnPoll(cfg: Config, v: Visit, e: Event, n: nat) {
    3 <= n <= 4 && e.Claim? && e.pairId == v.draws.pairId && e.nowMs < v.ExpiresAt(cfg)
  }

  /** What may come between the visit's events. Between its claim and its write no other write ends: writes do not
      overlap. */
  predicate MayIntervene(cfg: Config, v: Visit, e: Event, n: nat) {
    (Bystander(cfg, v, e) && (n == 6 ==> !e.WriteEnds?)) || OwnPoll(cfg, v, e, n)
  }

  lemma OthersLeaveVisit(b: Broker, cfg: Config, v: Visit, e: Event, n: nat)
    requires Reached(b, cfg, v, n) && MayIntervene(cfg, v, e, n)
    ensures Reached(Apply(b, cfg, e), cfg, v, n)
  {
    if OwnPoll(cfg, v, e, n) {
      PollingIsToldToWait(b, cfg, v, n, e.proof, e.nowMs, e.enrolledMs, e.expiryMs);
    } else if n == 0 {
      StaysFresh(b, cfg, v, e, v.Draws());
    } else if n <= 2 {
      StaysFresh(b, cfg, v, e, v.PairDraws()); StaysFresh(b, cfg, v, e, {v.handle});
      CodeStaysHeld(b, cfg, v, e);
      if n == 2 { AdmittedStays(b, cfg, v, e); }
    } else if n == 3 {
      StaysFresh(b, cfg, v, e, {v.handle});
      PairingStays(b, cfg, v, e, P.Pending);
    } else if n == 4 {
      CallbackStays(b, cfg, v, e);
      PairingStays(b, cfg, v, e, P.CallbackStateConsumed);
    } else if n == 5 {
      PairingStays(b, cfg, v, e, P.Authorized);
    } else {
      LateStages(b, cfg, v, e, n);
    }
  }

  lemma LateStages(b: Broker, cfg: Config, v: Visit, e: Event, n: nat)
    requires n >= 6 && Reached(b, cfg, v, n) && MayIntervene(cfg, v, e, n)
    ensures Reached(Apply(b, cfg, e), cfg, v, n)
  {
    RecordStays(b, cfg, v, e);
    if n >= 7 { StoredStays(b, cfg, v, e); }
    if n == 7 { GrantStays(b, cfg, v, e, ByClaim(v.Pair(), v.encryption)); }
    if n >= 8 { StepAddsFacts(b, cfg, e); }
  }

  lemma StoredStays(b: Broker, cfg: Config, v: Visit, e: Event)
    requires Bystander(cfg, v, e) && StoredThroughout(b, cfg, v)
    ensures StoredThroughout(Apply(b, cfg, e), cfg, v)
  {
    RecordStays(b, cfg, v, e);
  }

  ghost function After(b: Broker, cfg: Config, events: seq<Event>): Broker
    decreases events
  {
    if events == [] then b else After(Apply(b, cfg, events[0]), cfg, events[1..])
  }

  lemma {:induction false} AllOthersLeaveVisit(b: Broker, cfg: Config, v: Visit, events: seq<Event>, n: nat)
    requires Inv(b, cfg) && Reached(b, cfg, v, n)
      && forall i :: 0 <= i < |events| ==> MayIntervene(cfg, v, events[i], n)
    ensures Inv(After(b, cfg, events), cfg) && Reached(After(b, cfg, events), cfg, v, n)
    decreases events
  {
    if events != [] {
      OthersLeaveVisit(b, cfg, v, events[0], n);
      StepKeepsInv(b, cfg, events[0]);
      AllOthersLeaveVisit(Apply(b, cfg, events[0]), cfg, v, events[1..], n);
    }
  }

  /** The state after the visit's first n own events, with the events of others before each and after the last. */
  ghost function Visited(b: Broker, cfg: Config, v: Visit, others: seq<seq<Event>>, n: nat): Broker
    requires v.signing.key.Some? && n <= 8 && n < |others|
  {
    if n == 0 then After(b, cfg, others[0])
    else After(Apply(Visited(b, cfg, v, others, n - 1), cfg, OwnEvent(v, cfg, n - 1)), cfg, others[n])
  }

  /** Whatever others do at every point of the visit, each of its own events finds what it needs. */
  ghost predicate Unhindered(b: Broker, cfg: Config, v: Visit, others: seq<seq<Event>>)
    requires v.signing.key.Some?
  {
    && |others| == 9
    && (forall n, i :: 0 <= n < 9 && 0 <= i < |others[n]| ==> MayIntervene(cfg, v, others[n][i], n))
    && (forall n {:trigger Visited(b, cfg, v, others, n)} ::
      0 <= n < 8 ==> Ready(Visited(b, cfg, v, others, n), cfg, v, n))
  }

  lemma {:induction false} VisitAdvances(b: Broker, cfg: Config, v: Visit, others: seq<seq<Event>>, n: nat)
    requires Inv(b, cfg) && Honest(cfg, v) && LifetimesInRange(cfg) && Fresh(b, v.Draws()) && n <= 8
    requires Unhindered(b, cfg, v, others)
    ensures Inv(Visited(b, cfg, v, others, n), cfg) && Reached(Visited(b, cfg, v, others, n), cfg, v, n)
  {
    if n == 0 {
      AllOthersLeaveVisit(b, cfg, v, others[0], 0);
    } else {
      VisitAdvances(b, cfg, v, others, n - 1);
      var before := Visited(b, cfg, v, others, n - 1);
      assert Ready(before, cfg, v, n - 1);
      OneMoreEvent(before, cfg, v, n - 1, others[n]);
    }
  }

  lemma OneMoreEvent(b: Broker, cfg: Config, v: Visit, n: nat, others: seq<Event>)
    requires Inv(b, cfg) && Honest(cfg, v) && LifetimesInRange(cfg) && n < 8 && Reached(b, cfg, v, n)
      && Ready(b, cfg, v, n)
    requires forall i :: 0 <= i < |others| ==> MayIntervene(cfg, v, others[i], n + 1)
    ensures
      var after := After(Apply(b, cfg, OwnEvent(v, cfg, n)), cfg, others);
      Inv(after, cfg) && Reached(after, cfg, v, n + 1)
  {
    OwnEventAdvances(b, cfg, v, n);
    StepKeepsInv(b, cfg, OwnEvent(v, cfg, n));
    AllOthersLeaveVisit(Apply(b, cfg, OwnEvent(v, cfg, n)), cfg, v, others, n + 1);
  }

  /** From any reachable state, with any events of others in between that do not take its code, its pairing or its
      draws, eight events in time take an honest device from a fresh code to a sealed lease and a record on disk. */
  lemma HonestDeviceIsLeased(b: Broker, cfg: Config, v: Visit, others: seq<seq<Event>>)
    requires Inv(b, cfg) && Honest(cfg, v) && LifetimesInRange(cfg) && Fresh(b, v.Draws())
      && Unhindered(b, cfg, v, others)
    ensures
      var b' := Visited(b, cfg, v, others, 8);
      && SealedFor(v.Pair(), v.encryption, ByClaim(v.Pair(), v.encryption)) in b'.log
      && v.Pair() in b'.disk && b'.disk[v.Pair()] == v.Device(cfg)
  {
    VisitAdvances(b, cfg, v, others, 8);
  }

  /** The hypotheses can be met: a broker just started, one device and nobody else. */
  lemma HonestVisitExists(cfg: Config, key: string)
    requires RoomForOne(cfg)
    ensures exists v: Visit, others: seq<seq<Event>> ::
      Honest(cfg, v) && Inv(Run(cfg, []), cfg) && Fresh(Run(cfg, []), v.Draws())
        && Unhindered(Run(cfg, []), cfg, v, others)
  {
    var v := HonestVisit(cfg, key);
    RunKeepsInv(cfg, []);
    var others: seq<seq<Event>> := [[], [], [], [], [], [], [], [], []];
    AloneIsUnhindered(cfg, v, others);
  }

  predicate RoomForOne(cfg: Config) {
    LifetimesInRange(cfg) && cfg.codeCapacity > 0 && cfg.pairingCapacity > 0 && cfg.recordTtlMs > 0
  }

  lemma HonestVisit(cfg: Config, key: string) returns (v: Visit)
    requires RoomForOne(cfg)
    ensures Honest(cfg, v) && v.enrolledMs == 0 && v.expiryMs == 0 && "n" !in v.Draws()
  {
    var signing := Pem("PUBLIC KEY", Some(PublicKey(Ed25519, key)));
    var encryption := Pem("PUBLIC KEY", Some(PublicKey(X25519, key)));
    v := Visit("c", P.Draws("p", "s", "v"), "h", signing, encryption, "r", "a", 0, 0, 0, 0, 0, 0, 0, 0, 0);
    assert R.NamesPublicKey("PUBLIC KEY") by { assert "PUBLIC KEY"[..10] == "PUBLIC KEY"; }
    assert "n"[0] == 'n' && "c"[0] == 'c' && "p"[0] == 'p' && "s"[0] == 's' && "v"[0] == 'v' && "h"[0] == 'h';
  }

  /** With nobody else about the stores have room and no write is under way. */
  lemma AloneIsUnhindered(cfg: Config, v: Visit, others: seq<seq<Event>>)
    requires Honest(cfg, v) && RoomForOne(cfg)
    requires |others| == 9 && forall n :: 0 <= n < 9 ==> others[n] == []
    ensures Unhindered(Run(cfg, []), cfg, v, others)
  {
    var b := Run(cfg, []);
    forall n | 0 <= n < 8 ensures Ready(Visited(b, cfg, v, others, n), cfg, v, n) {
      if n == 0 { NoCodes(cfg, v.mintMs); }
      if n == 1 || n == 2 { FirstSteps(cfg, v, others); }
      if n == 2 { NoPairings(b.pairings, v.createdMs); }
      if n == 5 { NoWrites(cfg, v, others, 5); }
    }
  }

  lemma NoCodes(cfg: Config, nowMs: int)
    ensures E.Evict(map[], nowMs) == map[]
  {}

  lemma FirstSteps(cfg: Config, v: Visit, others: seq<seq<Event>>)
    requires v.signing.key.Some? && |others| == 9 && forall n :: 0 <= n < 9 ==> others[n] == []
    ensures Visited(Run(cfg, []), cfg, v, others, 1).attempts == map[]
    ensures Visited(Run(cfg, []), cfg, v, others, 2).pairings == Run(cfg, []).pairings
  {
    var b := Run(cfg, []);
    assert Visited(b, cfg, v, others, 1) == Apply(Visited(b, cfg, v, others, 0), cfg, OwnEvent(v, cfg, 0));
    assert Visited(b, cfg, v, others, 2) == Apply(Visited(b, cfg, v, others, 1), cfg, OwnEvent(v, cfg, 1));
  }

  lemma NoPairings(p: P.Pairings, nowMs: int)
    requires p == NO_PAIRINGS
    ensures |P.Evict(p, nowMs).records| == 0
  {
    P.EvictedRecords(p, nowMs);
    assert P.Evict(p, nowMs).records == map[];
  }

  lemma {:induction false} NoWrites(cfg: Config, v: Visit, others: seq<seq<Event>>, n: nat)
    requires v.signing.key.Some? && n <= 5 && |others| == 9 && forall k :: 0 <= k < 9 ==> others[k] == []
    ensures Visited(Run(cfg, []), cfg, v, others, n).write.None?
  {
    if n > 0 {
      NoWrites(cfg, v, others, n - 1);
      var before := Visited(Run(cfg, []), cfg, v, others, n - 1);
      var e := OwnEvent(v, cfg, n - 1);
      if n > 2 { EachInItsFrame(before, cfg, e); }
    }
  }

  /** The visit's own first n events. */
  function OwnEvents(v: Visit, cfg: Config, n: nat): seq<Event>
    requires v.signing.key.Some? && n <= 8
  {
    if n == 0 then [] else OwnEvents(v, cfg, n - 1) + [OwnEvent(v, cfg, n - 1)]
  }

  /** With nobody else about, the visit is the run of its own events. */
  lemma VisitAlone(cfg: Config, v: Visit, n: nat) returns (b: Broker)
    requires Honest(cfg, v) && RoomForOne(cfg) && n <= 8
    ensures b == Run(cfg, OwnEvents(v, cfg, n)) && Inv(b, cfg) && Reached(b, cfg, v, n)
    ensures n == 2 ==> b.pairings == NO_PAIRINGS
  {
    var others: seq<seq<Event>> := [[], [], [], [], [], [], [], [], []];
    AloneIsUnhindered(cfg, v, others);
    RunKeepsInv(cfg, []);
    VisitAdvances(Run(cfg, []), cfg, v, others, n);
    AloneIsRun(cfg, v, others, n);
    if n == 2 { FirstSteps(cfg, v, others); }
    b := Run(cfg, OwnEvents(v, cfg, n));
  }

  lemma VisitedAlone(b: Broker, cfg: Config, v: Visit, others: seq<seq<Event>>, n: nat)
    requires v.signing.key.Some? && 0 < n <= 8 && |others| == 9 && others[n] == []
    ensures Visited(b, cfg, v, others, n) == Apply(Visited(b, cfg, v, others, n - 1), cfg, OwnEvent(v, cfg, n - 1))
  {
    NothingAfter(Apply(Visited(b, cfg, v, others, n - 1), cfg, OwnEvent(v, cfg, n - 1)), cfg);
  }

  lemma NothingAfter(b: Broker, cfg: Config)
    ensures After(b, cfg, []) == b
  {}

  lemma {:induction false} AloneIsRun(cfg: Config, v: Visit, others: seq<seq<Event>>, n: nat)
    requires v.signing.key.Some? && n <= 8 && |others| == 9 && forall k :: 0 <= k < 9 ==> others[k] == []
    ensures Run(cfg, OwnEvents(v, cfg, n)) == Visited(Run(cfg, []), cfg, v, others, n)
  {
    if n > 0 {
      AloneIsRun(cfg, v, others, n - 1);
      VisitedAlone(Run(cfg, []), cfg, v, others, n);
      RunOneMore(cfg, OwnEvents(v, cfg, n - 1), OwnEvent(v, cfg, n - 1));
    }
  }

  // ---------- renewal ----------

  /** A device whose record is on disk, unrevoked and unexpired, renews its lease after a restart. */
  lemma RenewalAfterRestart(b: Broker, cfg: Config, pairId: string, nonce: string, issueMs: int, useMs: int)
    requires Sha256(pairId) in b.disk && !b.disk[Sha256(pairId)].revoked && b.disk[Sha256(pairId)].signing.key.Some?
    requires issueMs < b.disk[Sha256(pairId)].expiresAtMs && useMs < b.disk[Sha256(pairId)].expiresAtMs
    requires nonce !in b.drawn && useMs < issueMs + cfg.nonceTtlMs
    ensures
      var device := b.disk[Sha256(pairId)];
      var proof := SignedBy(device.signing.key.value, NonceBytes(nonce));
      var grant := ByNonce(Sha256(pairId), nonce, device.encryption);
      var restarted := Apply(b, cfg, Restart);
      var nonced := Apply(restarted, cfg, NonceRequest(pairId, nonce, issueMs, issueMs));
      var granted := Apply(nonced, cfg, LeaseRequest(pairId, nonce, proof, useMs, useMs));
      SealedFor(Sha256(pairId), device.encryption, grant) in Apply(granted, cfg, MintEnds(grant, true)).log
  {
    var device := b.disk[Sha256(pairId)];
    var proof := SignedBy(device.signing.key.value, NonceBytes(nonce));
    var grant := ByNonce(Sha256(pairId), nonce, device.encryption);
    var restarted := Apply(b, cfg, Restart);
    NonceGiven(restarted, cfg, pairId, nonce, issueMs);
    var nonced := Apply(restarted, cfg, NonceRequest(pairId, nonce, issueMs, issueMs));
    LeaseGranted(nonced, cfg, pairId, nonce, useMs, issueMs + cfg.nonceTtlMs);
    var granted := Apply(nonced, cfg, LeaseRequest(pairId, nonce, proof, useMs, useMs));
    var f := SealedFor(Sha256(pairId), device.encryption, grant);
    assert Apply(granted, cfg, MintEnds(grant, true)).log[|granted.log|] == f;
  }

  lemma NonceGiven(b: Broker, cfg: Config, pairId: string, nonce: string, nowMs: int)
    requires Sha256(pairId) in b.records && !b.records[Sha256(pairId)].revoked
    requires nowMs < b.records[Sha256(pairId)].expiresAtMs
    requires Sha256(pairId) !in b.pairings.records && nonce !in b.drawn
    ensures
      var b' := Apply(b, cfg, NonceRequest(pairId, nonce, nowMs, nowMs));
      && b' == b.(nonces := b'.nonces, drawn := b'.drawn, log := b'.log)
      && Sha256(nonce) in b'.nonces && b'.nonces[Sha256(nonce)] == P.NonceEntry(Sha256(pairId), nowMs + cfg.nonceTtlMs)
  {}

  lemma LeaseGranted(b: Broker, cfg: Config, pairId: string, nonce: string, nowMs: int, expiresAtMs: int)
    requires Sha256(pairId) in b.records && !b.records[Sha256(pairId)].revoked
    requires nowMs < b.records[Sha256(pairId)].expiresAtMs && nowMs < expiresAtMs
    requires Sha256(pairId) !in b.pairings.records && b.records[Sha256(pairId)].signing.key.Some?
    requires Sha256(nonce) in b.nonces && b.nonces[Sha256(nonce)] == P.NonceEntry(Sha256(pairId), expiresAtMs)
    ensures
      var device := b.records[Sha256(pairId)];
      var proof := SignedBy(device.signing.key.value, NonceBytes(nonce));
      ByNonce(Sha256(pairId), nonce, device.encryption)
        in Apply(b, cfg, LeaseRequest(pairId, nonce, proof, nowMs, nowMs)).grants
  {}
}
