/** What one operation of the pairing store hands out, the others accept, whatever happens in between: the state and
    its verifier, the callback handle, the pairing id with the message to sign, and the nonces
    (broker/src/pairing-store.ts:109-276). */
module PairingRuns {
  import opened Terms
  import opened Pairings

  datatype Operation =
    | CreateOp(request: PairRequest, draws: Draws)
    | ConsumeOp(oauthState: string, nowMs: int, handle: string)
    | AuthorizeOp(handle: string, nowMs: int)
    | ClaimOp(pairId: string, proof: Signature, nowMs: int)
    | IssueOp(pairId: string, nowMs: int, ttlMs: int, nonce: string)
    | UseOp(pairId: string, nonce: string, proof: Signature, nowMs: int)
    | RevokeOp(pairId: string)

  ghost function Execute(p: Pairings, capacity: nat, op: Operation): Pairings {
    match op
    case CreateOp(request, draws) => Create(p, capacity, request, draws).0
    case ConsumeOp(oauthState, nowMs, handle) => ConsumeOAuthState(p, oauthState, nowMs, handle).0
    case AuthorizeOp(handle, nowMs) => MarkAuthorized(p, handle, nowMs).0
    case ClaimOp(pairId, proof, nowMs) => OpenClaim(p, pairId, proof, nowMs).0
    case IssueOp(pairId, nowMs, ttlMs, nonce) => IssueNonce(p, pairId, nowMs, ttlMs, nonce).0
    case UseOp(pairId, nonce, proof, nowMs) => ConsumeNonce(p, pairId, nonce, proof, nowMs).0
    case RevokeOp(pairId) => Revoke(p, pairId).0
  }

  ghost function Run(p: Pairings, capacity: nat, ops: seq<Operation>): Pairings
    decreases ops
  {
    if ops == [] then p else Run(Execute(p, capacity, ops[0]), capacity, ops[1..])
  }

  /** What an operation draws is new to the store. */
  ghost predicate DrawsUnseen(p: Pairings, op: Operation) {
    match op
    case CreateOp(_, draws) => Unseen(p, Sha256(draws.pairId)) && Unseen(p, Sha256(draws.oauthState))
    case ConsumeOp(_, _, handle) => Unseen(p, Sha256(handle))
    case _ => true
  }

  /** Every draw is new, and nobody draws the id `key` stands for or the nonce `h` stands for again. */
  ghost predicate Possible(p: Pairings, capacity: nat, ops: seq<Operation>, key: Digest, h: Digest)
    decreases ops
  {
    ops != [] ==>
      && DrawsUnseen(p, ops[0])
      && (ops[0].CreateOp? ==> Sha256(ops[0].draws.pairId) != key)
      && (ops[0].IssueOp? ==> Sha256(ops[0].nonce) != h)
      && Possible(Execute(p, capacity, ops[0]), capacity, ops[1..], key, h)
  }

  lemma StepKeepsConsistent(p: Pairings, capacity: nat, op: Operation)
    requires Consistent(p, capacity) && DrawsUnseen(p, op)
    ensures Consistent(Execute(p, capacity, op), capacity)
  {
    match op
    case CreateOp(request, draws) => CreateKeepsConsistent(p, capacity, request, draws);
    case ConsumeOp(oauthState, nowMs, handle) => ConsumeKeepsConsistent(p, capacity, oauthState, nowMs, handle);
    case AuthorizeOp(handle, nowMs) => AuthorizeKeepsConsistent(p, capacity, handle, nowMs);
    case ClaimOp(pairId, proof, nowMs) => ClaimKeepsConsistent(p, capacity, pairId, proof, nowMs);
    case IssueOp(pairId, nowMs, ttlMs, nonce) => IssueKeepsConsistent(p, capacity, pairId, nowMs, ttlMs, nonce);
    case UseOp(pairId, nonce, proof, nowMs) => UseKeepsConsistent(p, capacity, pairId, nonce, proof, nowMs);
    case RevokeOp(pairId) => RevokeKeepsConsistent(p, capacity, pairId);
  }

  // ---------- what becomes of one pairing, and of one nonce ----------

  /** A pairing that is still there has not moved back, and in the same status it is as it was. */
  ghost predicate Steady(p: Pairings, q: Pairings, key: Digest) {
    key in q.records ==>
      && key in p.records && Rank(p.records[key].status) <= Rank(q.records[key].status)
      && q.records[key] == p.records[key].(status := q.records[key].status, handleHash := q.records[key].handleHash)
      && (q.records[key].status == p.records[key].status ==> q.records[key] == p.records[key])
  }

  ghost predicate NonceSteady(p: Pairings, q: Pairings, h: Digest) {
    h in q.nonces ==> h in p.nonces && q.nonces[h] == p.nonces[h]
  }

  lemma StepIsSteady(p: Pairings, capacity: nat, op: Operation, key: Digest)
    requires Consistent(p, capacity) && (op.CreateOp? ==> Sha256(op.draws.pairId) != key)
    ensures Steady(p, Execute(p, capacity, op), key)
  {
    match op
    case CreateOp(request, draws) => CreateKeepsOthers(p, capacity, request, draws);
    case ConsumeOp(oauthState, nowMs, handle) => ConsumeIsSteady(p, oauthState, nowMs, handle, key);
    case AuthorizeOp(handle, nowMs) => AuthorizeIsSteady(p, handle, nowMs, key);
    case ClaimOp(pairId, proof, nowMs) => ClaimIsSteady(p, pairId, proof, nowMs, key);
    case IssueOp(pairId, nowMs, ttlMs, nonce) => IssueKeepsRecords(p, pairId, nowMs, ttlMs, nonce);
    case UseOp(pairId, nonce, proof, nowMs) => UseKeepsRecords(p, pairId, nonce, proof, nowMs);
    case RevokeOp(pairId) =>
      if key in p.records { assert RecordIndexed(p, key); }
      RevokeIsSteady(p, pairId, key);
  }

  lemma ConsumeIsSteady(p: Pairings, oauthState: string, nowMs: int, handle: string, key: Digest)
    ensures Steady(p, ConsumeOAuthState(p, oauthState, nowMs, handle).0, key)
  {
    EvictedRecords(p, nowMs);
    ConsumeInIsSteady(Evict(p, nowMs), oauthState, handle, key);
  }

  lemma ConsumeInIsSteady(q: Pairings, oauthState: string, handle: string, key: Digest)
    ensures Steady(q, ConsumeIn(q, oauthState, handle).0, key)
  {}

  lemma AuthorizeIsSteady(p: Pairings, handle: string, nowMs: int, key: Digest)
    ensures Steady(p, MarkAuthorized(p, handle, nowMs).0, key)
  {
    EvictedRecords(p, nowMs);
    AuthorizeInIsSteady(Evict(p, nowMs), handle, key);
  }

  lemma AuthorizeInIsSteady(q: Pairings, handle: string, key: Digest)
    ensures Steady(q, AuthorizeIn(q, handle).0, key)
  {}

  lemma ClaimIsSteady(p: Pairings, pairId: string, proof: Signature, nowMs: int, key: Digest)
    ensures Steady(p, OpenClaim(p, pairId, proof, nowMs).0, key)
  {}

  lemma IssueKeepsRecords(p: Pairings, pairId: string, nowMs: int, ttlMs: int, nonce: string)
    ensures IssueNonce(p, pairId, nowMs, ttlMs, nonce).0.records == p.records
  {}

  lemma UseKeepsRecords(p: Pairings, pairId: string, nonce: string, proof: Signature, nowMs: int)
    ensures ConsumeNonce(p, pairId, nonce, proof, nowMs).0.records == p.records
  {}

  lemma RevokeIsSteady(p: Pairings, pairId: string, key: Digest)
    requires key in p.records && p.records[key].status == Revoked ==> p.records[key].handleHash == None
    ensures Steady(p, Revoke(p, pairId).0, key)
  {}

  lemma StepKeepsNonce(p: Pairings, capacity: nat, op: Operation, h: Digest)
    requires op.IssueOp? ==> Sha256(op.nonce) != h
    ensures NonceSteady(p, Execute(p, capacity, op), h)
  {
    match op
    case CreateOp(request, draws) => CreationKeepsNonce(p, capacity, request, draws, h);
    case ConsumeOp(oauthState, nowMs, handle) => CallbackKeepsNonce(p, oauthState, nowMs, handle, h);
    case AuthorizeOp(handle, nowMs) => ApprovalKeepsNonce(p, handle, nowMs, h);
    case ClaimOp(pairId, proof, nowMs) => ClaimKeepsNonce(p, pairId, proof, nowMs, h);
    case IssueOp(pairId, nowMs, ttlMs, nonce) => IssueKeepsNonce(p, pairId, nowMs, ttlMs, nonce, h);
    case UseOp(pairId, nonce, proof, nowMs) => UseKeepsNonce(p, pairId, nonce, proof, nowMs, h);
    case RevokeOp(pairId) => RevokeKeepsNonce(p, pairId, h);
  }

  lemma CreationKeepsNonce(p: Pairings, capacity: nat, request: PairRequest, draws: Draws, h: Digest)
    ensures NonceSteady(p, Create(p, capacity, request, draws).0, h)
  {
    EvictionKeepsNonce(p, request.nowMs, h);
    InsertionKeepsNonces(Evict(p, request.nowMs), capacity, request, draws);
  }

  lemma EvictionKeepsNonce(p: Pairings, nowMs: int, h: Digest)
    ensures NonceSteady(p, Evict(p, nowMs), h)
  {}

  lemma InsertionKeepsNonces(q: Pairings, capacity: nat, request: PairRequest, draws: Draws)
    ensures CreateIn(q, capacity, request, draws).0.nonces == q.nonces
  {}

  lemma CallbackKeepsNonce(p: Pairings, oauthState: string, nowMs: int, handle: string, h: Digest)
    ensures NonceSteady(p, ConsumeOAuthState(p, oauthState, nowMs, handle).0, h)
  {}

  lemma ApprovalKeepsNonce(p: Pairings, handle: string, nowMs: int, h: Digest)
    ensures NonceSteady(p, MarkAuthorized(p, handle, nowMs).0, h)
  {}

  lemma ClaimKeepsNonce(p: Pairings, pairId: string, proof: Signature, nowMs: int, h: Digest)
    ensures NonceSteady(p, OpenClaim(p, pairId, proof, nowMs).0, h)
  {}

  lemma IssueKeepsNonce(p: Pairings, pairId: string, nowMs: int, ttlMs: int, nonce: string, h: Digest)
    requires Sha256(nonce) != h
    ensures NonceSteady(p, IssueNonce(p, pairId, nowMs, ttlMs, nonce).0, h)
  {}

  lemma UseKeepsNonce(p: Pairings, pairId: string, nonce: string, proof: Signature, nowMs: int, h: Digest)
    ensures NonceSteady(p, ConsumeNonce(p, pairId, nonce, proof, nowMs).0, h)
  {}

  lemma RevokeKeepsNonce(p: Pairings, pairId: string, h: Digest)
    ensures NonceSteady(p, Revoke(p, pairId).0, h)
  {}

  lemma SteadyTwice(p: Pairings, m: Pairings, q: Pairings, key: Digest)
    requires Steady(p, m, key) && Steady(m, q, key)
    ensures Steady(p, q, key)
  {}

  lemma {:induction false} RunIsSteady(p: Pairings, capacity: nat, ops: seq<Operation>, key: Digest, h: Digest)
    requires Consistent(p, capacity) && Possible(p, capacity, ops, key, h)
    ensures
      var q := Run(p, capacity, ops);
      Consistent(q, capacity) && Steady(p, q, key) && NonceSteady(p, q, h)
    decreases ops
  {
    if ops != [] {
      var next := Execute(p, capacity, ops[0]);
      StepKeepsConsistent(p, capacity, ops[0]);
      StepIsSteady(p, capacity, ops[0], key);
      StepKeepsNonce(p, capacity, ops[0], h);
      RunIsSteady(next, capacity, ops[1..], key, h);
      SteadyTwice(p, next, Run(next, capacity, ops[1..]), key);
    }
  }

  // ---------- the round trips ----------

  /** The pairing is held in this status at a time before it expires. */
  ghost predicate HeldAs(q: Pairings, key: Digest, status: Status, nowMs: int) {
    Live(q.records, key, nowMs) && q.records[key].status == status
  }

  lemma Created(p: Pairings, capacity: nat, request: PairRequest, draws: Draws)
    requires Create(p, capacity, request, draws).1.Created?
    ensures
      var (q, created) := Create(p, capacity, request, draws);
      && Sha256(created.pairId) in q.records
      && var r := q.records[Sha256(created.pairId)];
      && r.signing == request.signing && r.encryption == request.encryption && request.signing.Holds(Ed25519)
      && r.expiresAtMs == created.expiresAtMs && r.proofMessage == created.proofMessage
      && r.stateHash == Sha256(created.oauthState) && r.pkceVerifier == draws.pkceVerifier
      && r.status == Pending
      && created.pairId == draws.pairId
  {}

  /** The state handed out at a creation is answered, while its pairing waits, with that creation's verifier and with
      the new handle, and moves the pairing on. */
  lemma StateRoundTrip(p: Pairings, capacity: nat, request: PairRequest, draws: Draws, ops: seq<Operation>, h: Digest,
                       nowMs: int, handle: string)
    requires Consistent(p, capacity) && DrawsUnseen(p, CreateOp(request, draws))
    requires Create(p, capacity, request, draws).1.Created?
    requires Possible(Create(p, capacity, request, draws).0, capacity, ops, Sha256(draws.pairId), h)
    requires
      var (start, created) := Create(p, capacity, request, draws);
      HeldAs(Run(start, capacity, ops), Sha256(created.pairId), Pending, nowMs)
    ensures
      var (start, created) := Create(p, capacity, request, draws);
      var (q, answer) := ConsumeOAuthState(Run(start, capacity, ops), created.oauthState, nowMs, handle);
      && answer == Some(ConsumedState(handle, draws.pkceVerifier, created.expiresAtMs))
      && HeldAs(q, Sha256(created.pairId), CallbackStateConsumed, nowMs)
  {
    var (start, created) := Create(p, capacity, request, draws);
    var key := Sha256(created.pairId);
    CreateKeepsConsistent(p, capacity, request, draws);
    Created(p, capacity, request, draws);
    RunIsSteady(start, capacity, ops, key, h);
    var q := Run(start, capacity, ops);
    assert WaitsFor(q.records, key, created.oauthState, nowMs);
    ConsumeAnswers(q, capacity, created.oauthState, nowMs, handle);
    ConsumeMoves(q, capacity, created.oauthState, nowMs, handle, key);
  }

  lemma ConsumeMoves(q: Pairings, capacity: nat, oauthState: string, nowMs: int, handle: string, key: Digest)
    requires Consistent(q, capacity) && WaitsFor(q.records, key, oauthState, nowMs)
    ensures
      var q' := ConsumeOAuthState(q, oauthState, nowMs, handle).0;
      HeldAs(q', key, CallbackStateConsumed, nowMs) && q'.records[key].handleHash == Some(Sha256(handle))
  {
    EvictedRecords(q, nowMs);
    EvictKeepsConsistent(q, capacity, nowMs);
    assert RecordIndexed(Evict(q, nowMs), key);
    ConsumeInMoves(Evict(q, nowMs), oauthState, handle, key);
  }

  lemma ConsumeInMoves(q: Pairings, oauthState: string, handle: string, key: Digest)
    requires key in q.records && q.records[key].status == Pending && q.records[key].stateHash == Sha256(oauthState)
    requires Sha256(oauthState) in q.states && q.states[Sha256(oauthState)] == key
    ensures
      ConsumeIn(q, oauthState, handle).0.records[key]
      == q.records[key].(handleHash := Some(Sha256(handle)), status := CallbackStateConsumed)
  {}

  /** The handle handed out at a callback authorizes its pairing while that waits for it. */
  lemma HandleRoundTrip(p: Pairings, capacity: nat, key: Digest, oauthState: string, nowMs: int, handle: string,
                        ops: seq<Operation>, h: Digest, laterMs: int)
    requires Consistent(p, capacity) && Unseen(p, Sha256(handle)) && WaitsFor(p.records, key, oauthState, nowMs)
    requires Possible(ConsumeOAuthState(p, oauthState, nowMs, handle).0, capacity, ops, key, h)
    requires HeldAs(Run(ConsumeOAuthState(p, oauthState, nowMs, handle).0, capacity, ops), key, CallbackStateConsumed,
                    laterMs)
    ensures
      var (start, answer) := ConsumeOAuthState(p, oauthState, nowMs, handle);
      && answer.Some?
      && var (q, done) := MarkAuthorized(Run(start, capacity, ops), answer.value.callbackHandle, laterMs);
      done && HeldAs(q, key, Authorized, laterMs)
  {
    var (start, answer) := ConsumeOAuthState(p, oauthState, nowMs, handle);
    ConsumeAnswers(p, capacity, oauthState, nowMs, handle);
    ConsumeMoves(p, capacity, oauthState, nowMs, handle, key);
    ConsumeKeepsConsistent(p, capacity, oauthState, nowMs, handle);
    RunIsSteady(start, capacity, ops, key, h);
    var q := Run(start, capacity, ops);
    assert AwaitsApproval(q.records, key, answer.value.callbackHandle, laterMs);
    AuthorizeAnswers(q, capacity, answer.value.callbackHandle, laterMs);
    AuthorizeMoves(q, capacity, answer.value.callbackHandle, laterMs, key);
  }

  lemma AuthorizeMoves(q: Pairings, capacity: nat, handle: string, nowMs: int, key: Digest)
    requires Consistent(q, capacity) && AwaitsApproval(q.records, key, handle, nowMs)
    ensures HeldAs(MarkAuthorized(q, handle, nowMs).0, key, Authorized, nowMs)
  {
    EvictedRecords(q, nowMs);
    EvictKeepsConsistent(q, capacity, nowMs);
    assert RecordIndexed(Evict(q, nowMs), key);
  }

  /** The id handed out at a creation claims the pairing once it is authorized, with a proof by the device's key over
      the very message handed out and with no other proof, and gives the keys the pairing was created with. */
  lemma ClaimRoundTrip(p: Pairings, capacity: nat, request: PairRequest, draws: Draws, ops: seq<Operation>, h: Digest,
                       nowMs: int, proof: Signature)
    requires Consistent(p, capacity) && DrawsUnseen(p, CreateOp(request, draws))
    requires Create(p, capacity, request, draws).1.Created?
    requires Possible(Create(p, capacity, request, draws).0, capacity, ops, Sha256(draws.pairId), h)
    requires
      var (start, created) := Create(p, capacity, request, draws);
      HeldAs(Run(start, capacity, ops), Sha256(created.pairId), Authorized, nowMs)
    ensures
      var (start, created) := Create(p, capacity, request, draws);
      var (q, claimed) := OpenClaim(Run(start, capacity, ops), created.pairId, proof, nowMs);
      && request.signing.key.Some?
      && if proof == SignedBy(request.signing.key.value, created.proofMessage)
         then claimed == Claimed(request.signing, request.encryption)
              && HeldAs(q, Sha256(created.pairId), Enrolled, nowMs)
         else claimed == ClaimRefused(InvalidProof) && q == Run(start, capacity, ops)
  {
    var (start, created) := Create(p, capacity, request, draws);
    CreateKeepsConsistent(p, capacity, request, draws);
    Created(p, capacity, request, draws);
    RunIsSteady(start, capacity, ops, Sha256(created.pairId), h);
    ClaimAnswers(Run(start, capacity, ops), created.pairId, proof, nowMs);
  }

  /** A nonce issued to an enrolled pairing opens for that pairing alone, with a proof by its key, as long as it has
      been neither used up nor let expire. */
  lemma NonceRoundTrip(p: Pairings, capacity: nat, pairId: string, issuedMs: int, ttlMs: int, nonce: string,
                       ops: seq<Operation>, nowMs: int, otherId: string, proof: Signature)
    requires Consistent(p, capacity) && IssueNonce(p, pairId, issuedMs, ttlMs, nonce).1.Issued?
    requires Possible(IssueNonce(p, pairId, issuedMs, ttlMs, nonce).0, capacity, ops, Sha256(pairId), Sha256(nonce))
    requires
      var q := Run(IssueNonce(p, pairId, issuedMs, ttlMs, nonce).0, capacity, ops);
      HeldAs(q, Sha256(otherId), Enrolled, nowMs) && Sha256(nonce) in q.nonces
    ensures
      var (start, issued) := IssueNonce(p, pairId, issuedMs, ttlMs, nonce);
      var q := Run(start, capacity, ops);
      var r := q.records[Sha256(otherId)];
      var opens := otherId == pairId && nowMs < issued.expiresAtMs;
      ConsumeNonce(q, otherId, issued.nonce, proof, nowMs).1 ==
        if !opens then UseRefused(InvalidNonce)
        else if !Verifies(r.signing, NonceBytes(issued.nonce), proof) then UseRefused(InvalidProof)
        else Used(r.encryption)
  {
    var (start, issued) := IssueNonce(p, pairId, issuedMs, ttlMs, nonce);
    IssueKeepsConsistent(p, capacity, pairId, issuedMs, ttlMs, nonce);
    IssueStores(p, pairId, issuedMs, ttlMs, nonce);
    RunIsSteady(start, capacity, ops, Sha256(pairId), Sha256(nonce));
    UseAnswers(Run(start, capacity, ops), otherId, issued.nonce, proof, nowMs);
  }

  lemma IssueStores(p: Pairings, pairId: string, nowMs: int, ttlMs: int, nonce: string)
    requires IssueNonce(p, pairId, nowMs, ttlMs, nonce).1.Issued?
    ensures
      var (q, issued) := IssueNonce(p, pairId, nowMs, ttlMs, nonce);
      && issued.nonce == nonce && Sha256(nonce) in q.nonces
      && q.nonces[Sha256(nonce)] == NonceEntry(Sha256(pairId), issued.expiresAtMs)
  {}
}
