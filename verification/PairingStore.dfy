/** The ephemeral pairing handshake (broker/src/pairing-store.ts): four cross-linked maps,
    first as functions on values, then as the class that updates them in place. */
module Pairings {
  import opened Terms

  const MAX_PAIRING_TTL_MS := 600_000
  const MAX_NONCE_TTL_MS := 120_000

  datatype Status = Pending | CallbackStateConsumed | Authorized | Enrolled | Revoked

  datatype Pairing = Pairing(
    signing: Pem, encryption: Pem, expiresAtMs: int, proofMessage: Message,
    stateHash: Digest, pkceVerifier: string, handleHash: Option<Digest>, status: Status)

  datatype NonceEntry = NonceEntry(pairKey: Digest, expiresAtMs: int)

  datatype Pairings = Pairings(
    records: map<Digest, Pairing>, states: map<Digest, Digest>,
    handles: map<Digest, Digest>, nonces: map<Digest, NonceEntry>)

  datatype PairRequest = PairRequest(signing: Pem, encryption: Pem, nowMs: int, ttlMs: int)

  datatype Draws = Draws(pairId: string, oauthState: string, pkceVerifier: string)

  datatype CreateResult =
    | Created(pairId: string, oauthState: string, proofMessage: Message, expiresAtMs: int)
    | InvalidExpiry | CapacityReached | BadSigningKey | BadEncryptionKey

  datatype ConsumedState = ConsumedState(callbackHandle: string, pkceVerifier: string, expiresAtMs: int)

  datatype Rejection = Unknown | RevokedPairing | Expired | NotAuthorizedYet | InvalidNonce | InvalidProof | InvalidTtl

  datatype ClaimResult = Claimed(signing: Pem, encryption: Pem) | ClaimRefused(reason: Rejection)
  datatype IssueResult = Issued(nonce: string, expiresAtMs: int) | IssueRefused(reason: Rejection)
  datatype UseResult = Used(encryption: Pem) | UseRefused(reason: Rejection)

  // ---------- the operations on values ----------

  ghost function ExpiredAmong(p: Pairings, keys: set<Digest>, nowMs: int): set<Digest> {
    set k | k in keys && k in p.records && nowMs >= p.records[k].expiresAtMs
  }

  ghost function WithoutNoncesOf(nonces: map<Digest, NonceEntry>, keys: set<Digest>): map<Digest, NonceEntry> {
    map h | h in nonces && nonces[h].pairKey !in keys :: nonces[h]
  }

  ghost function HandleHashes(p: Pairings, keys: set<Digest>): set<Digest> {
    set k | k in keys && k in p.records && p.records[k].handleHash.Some? :: p.records[k].handleHash.value
  }

  ghost function StateHashes(p: Pairings, keys: set<Digest>): set<Digest> {
    set k | k in keys && k in p.records :: p.records[k].stateHash
  }

  /** Drops the expired records among `keys`, with everything that points at them. */
  ghost function EvictAmong(p: Pairings, keys: set<Digest>, nowMs: int): Pairings {
    var gone := ExpiredAmong(p, keys, nowMs);
    Pairings(p.records - gone, p.states - StateHashes(p, gone),
             p.handles - HandleHashes(p, gone), WithoutNoncesOf(p.nonces, gone))
  }

  ghost function Evict(p: Pairings, nowMs: int): Pairings { EvictAmong(p, p.records.Keys, nowMs) }

  ghost function EvictNonces(p: Pairings, nowMs: int): Pairings {
    p.(nonces := map h | h in p.nonces && nowMs < p.nonces[h].expiresAtMs :: p.nonces[h])
  }

  function NewPairing(request: PairRequest, draws: Draws): Pairing {
    var expiresAtMs := request.nowMs + request.ttlMs;
    Pairing(request.signing, request.encryption, expiresAtMs,
            PairingProof(Sha256(draws.pairId), expiresAtMs),
            Sha256(draws.oauthState), draws.pkceVerifier, None, Pending)
  }

  ghost function Insert(q: Pairings, key: Digest, pairing: Pairing): Pairings {
    q.(records := q.records[key := pairing], states := q.states[pairing.stateHash := key])
  }

  ghost function Create(p: Pairings, capacity: nat, request: PairRequest, draws: Draws): (Pairings, CreateResult) {
    if !(0 < request.ttlMs <= MAX_PAIRING_TTL_MS) then (p, InvalidExpiry) else
    CreateIn(Evict(p, request.nowMs), capacity, request, draws)
  }

  ghost function CreateIn(q: Pairings, capacity: nat, request: PairRequest, draws: Draws): (Pairings, CreateResult) {
    if |q.records| >= capacity then (q, CapacityReached)
    else if !request.signing.Holds(Ed25519) then (q, BadSigningKey)
    else if !request.encryption.Holds(X25519) then (q, BadEncryptionKey)
    else
      var pairing := NewPairing(request, draws);
      var key := Sha256(draws.pairId);
      (Insert(q, key, pairing), Created(draws.pairId, draws.oauthState, pairing.proofMessage, pairing.expiresAtMs))
  }

  ghost function ConsumeOAuthState(p: Pairings, oauthState: string, nowMs: int, handle: string)
    : (Pairings, Option<ConsumedState>)
  {
    ConsumeIn(Evict(p, nowMs), oauthState, handle)
  }

  ghost function ConsumeIn(q: Pairings, oauthState: string, handle: string): (Pairings, Option<ConsumedState>) {
    var h := Sha256(oauthState);
    if h !in q.states || q.states[h] !in q.records then (q, None) else
    var key := q.states[h];
    var r := q.records[key];
    if r.stateHash != h || r.status != Pending then (q, None) else
    var moved := r.(handleHash := Some(Sha256(handle)), status := CallbackStateConsumed);
    (q.(records := q.records[key := moved], states := q.states - {h}, handles := q.handles[Sha256(handle) := key]),
     Some(ConsumedState(handle, r.pkceVerifier, r.expiresAtMs)))
  }

  ghost function MarkAuthorized(p: Pairings, handle: string, nowMs: int): (Pairings, bool) {
    AuthorizeIn(Evict(p, nowMs), handle)
  }

  ghost function AuthorizeIn(q: Pairings, handle: string): (Pairings, bool) {
    var h := Sha256(handle);
    if h !in q.handles || q.handles[h] !in q.records then (q, false) else
    var key := q.handles[h];
    var r := q.records[key];
    if r.status != CallbackStateConsumed || r.handleHash != Some(h) then (q, false) else
    (q.(records := q.records[key := r.(handleHash := None, status := Authorized)], handles := q.handles - {h}), true)
  }

  /** The expired branch forgets the record and its state, and leaves its callback handle behind. */
  ghost function OpenClaim(p: Pairings, pairId: string, proof: Signature, nowMs: int): (Pairings, ClaimResult) {
    var key := Sha256(pairId);
    if key !in p.records then (p, ClaimRefused(Unknown)) else
    var r := p.records[key];
    if r.status == Revoked then (p, ClaimRefused(RevokedPairing))
    else if nowMs >= r.expiresAtMs then
      (p.(records := p.records - {key}, states := p.states - {r.stateHash}, nonces := WithoutNoncesOf(p.nonces, {key})),
       ClaimRefused(Expired))
    else if r.status != Authorized then (p, ClaimRefused(NotAuthorizedYet))
    else if !Verifies(r.signing, r.proofMessage, proof) then (p, ClaimRefused(InvalidProof))
    else (p.(records := p.records[key := r.(status := Enrolled)]), Claimed(r.signing, r.encryption))
  }

  ghost function IssueNonce(p: Pairings, pairId: string, nowMs: int, ttlMs: int, nonce: string)
      : (Pairings, IssueResult) {
    if !(1 <= ttlMs <= MAX_NONCE_TTL_MS) then (p, IssueRefused(InvalidTtl)) else
    var q := EvictNonces(p, nowMs);
    var key := Sha256(pairId);
    if key !in q.records then (q, IssueRefused(Unknown))
    else if q.records[key].status == Revoked then (q, IssueRefused(RevokedPairing))
    else if q.records[key].status != Enrolled then (q, IssueRefused(NotAuthorizedYet))
    else (q.(nonces := q.nonces[Sha256(nonce) := NonceEntry(key, nowMs + ttlMs)]), Issued(nonce, nowMs + ttlMs))
  }

  ghost function ConsumeNonce(p: Pairings, pairId: string, nonce: string, proof: Signature, nowMs: int)
      : (Pairings, UseResult) {
    var q := EvictNonces(p, nowMs);
    var key := Sha256(pairId);
    var h := Sha256(nonce);
    if key !in q.records then (q, UseRefused(Unknown)) else
    var r := q.records[key];
    if r.status == Revoked then (q, UseRefused(RevokedPairing))
    else if nowMs >= r.expiresAtMs then (q, UseRefused(Expired))
    else if r.status != Enrolled then (q, UseRefused(NotAuthorizedYet))
    else if h !in q.nonces || q.nonces[h].pairKey != key then (q, UseRefused(InvalidNonce))
    else
      var burned := q.(nonces := q.nonces - {h});
      if nowMs >= q.nonces[h].expiresAtMs then (burned, UseRefused(InvalidNonce))
      else if !Verifies(r.signing, NonceBytes(nonce), proof) then (burned, UseRefused(InvalidProof))
      else (burned, Used(r.encryption))
  }

  ghost function Revoke(p: Pairings, pairId: string): (Pairings, bool) {
    var key := Sha256(pairId);
    if key !in p.records then (p, false) else
    var r := p.records[key];
    (Pairings(p.records[key := r.(status := Revoked, handleHash := None)], p.states - {r.stateHash},
              if r.handleHash.Some? then p.handles - {r.handleHash.value} else p.handles,
              WithoutNoncesOf(p.nonces, {key})), true)
  }

  ghost function StatusOf(p: Pairings, pairId: string): Option<Status> {
    if Sha256(pairId) in p.records then Some(p.records[Sha256(pairId)].status) else None
  }

  // ---------- what every operation keeps ----------

  /** The four maps agree: each index entry names the one record that owns it, in the one status
      that needs it. A callback handle may outlive its record, never point at another one. */
  ghost predicate Consistent(p: Pairings, capacity: nat) {
    && |p.records| <= capacity
    && (forall k {:trigger RecordIndexed(p, k)} :: k in p.records ==> RecordIndexed(p, k))
    && (forall h {:trigger StatePointsBack(p, h)} :: h in p.states ==> StatePointsBack(p, h))
    && (forall h {:trigger HandlePointsBack(p, h)} :: h in p.handles ==> HandlePointsBack(p, h))
    && (forall h {:trigger NoncePointsBack(p, h)} :: h in p.nonces ==> NoncePointsBack(p, h))
    && (forall k, l {:trigger OwnStates(p, k, l)} :: k in p.records && l in p.records ==> OwnStates(p, k, l))
  }

  /** Pending exactly while the state index leads to it; between callback and approval exactly
      while it has a handle, which leads to it. */
  ghost predicate RecordIndexed(p: Pairings, k: Digest)
    requires k in p.records
  {
    var r := p.records[k];
    && (r.status == Pending <==> r.stateHash in p.states && p.states[r.stateHash] == k)
    && (r.status == CallbackStateConsumed <==> r.handleHash.Some?)
    && (r.handleHash.Some? ==> r.handleHash.value in p.handles && p.handles[r.handleHash.value] == k)
  }

  ghost predicate StatePointsBack(p: Pairings, h: Digest)
    requires h in p.states
  {
    p.states[h] in p.records && p.records[p.states[h]].stateHash == h
  }

  ghost predicate HandlePointsBack(p: Pairings, h: Digest)
    requires h in p.handles
  {
    p.handles[h] in p.records ==> p.records[p.handles[h]].handleHash == Some(h)
  }

  ghost predicate NoncePointsBack(p: Pairings, h: Digest)
    requires h in p.nonces
  {
    p.nonces[h].pairKey in p.records && p.records[p.nonces[h].pairKey].status == Enrolled
  }

  ghost predicate OwnStates(p: Pairings, k: Digest, l: Digest)
    requires k in p.records && l in p.records
  {
    k != l ==> p.records[k].stateHash != p.records[l].stateHash
  }

  /** A draw that the store has never seen. */
  ghost predicate Unseen(p: Pairings, d: Digest) {
    && d !in p.records && d !in p.states && d !in p.handles && d !in p.nonces
    && (forall h :: h in p.handles ==> p.handles[h] != d)
    && (forall k :: k in p.records ==> p.records[k].stateHash != d && p.records[k].handleHash != Some(d))
  }

  lemma SubsetSize<T>(a: set<T>, b: set<T>)
    requires a <= b
    ensures |a| <= |b|
  {
    assert b == a + (b - a);
  }

  lemma EvictedRecords(p: Pairings, nowMs: int)
    ensures forall k :: k in Evict(p, nowMs).records <==> k in p.records && nowMs < p.records[k].expiresAtMs
    ensures forall k :: k in Evict(p, nowMs).records ==> Evict(p, nowMs).records[k] == p.records[k]
  {}

  /** Forgetting a set of records with their states and nonces, and any of their handles. */
  lemma ForgetKeepsConsistent(p: Pairings, capacity: nat, gone: set<Digest>, handles: set<Digest>, q: Pairings)
    requires Consistent(p, capacity) && gone <= p.records.Keys && handles <= HandleHashes(p, gone)
    requires q == Pairings(p.records - gone, p.states - StateHashes(p, gone), p.handles - handles,
      WithoutNoncesOf(p.nonces, gone))
    ensures Consistent(q, capacity)
  {
    SubsetSize(q.records.Keys, p.records.Keys);
    forall l | l in gone && p.records[l].handleHash.Some?
      ensures p.records[l].handleHash.value in p.handles && p.handles[p.records[l].handleHash.value] == l
    {
      assert RecordIndexed(p, l);
    }
    forall k | k in q.records ensures RecordIndexed(q, k) {
      assert RecordIndexed(p, k);
      var r := p.records[k];
      if r.stateHash in StateHashes(p, gone) {
        var l :| l in gone && p.records[l].stateHash == r.stateHash;
        assert OwnStates(p, k, l);
      }
    }
    forall h | h in q.states ensures StatePointsBack(q, h) { assert StatePointsBack(p, h); }
    forall h | h in q.handles ensures HandlePointsBack(q, h) { assert HandlePointsBack(p, h); }
    forall h | h in q.nonces ensures NoncePointsBack(q, h) { assert NoncePointsBack(p, h); }
    forall k, l | k in q.records && l in q.records ensures OwnStates(q, k, l) { assert OwnStates(p, k, l); }
  }

  lemma EvictKeepsConsistent(p: Pairings, capacity: nat, nowMs: int)
    requires Consistent(p, capacity)
    ensures Consistent(Evict(p, nowMs), capacity)
  {
    var gone := ExpiredAmong(p, p.records.Keys, nowMs);
    ForgetKeepsConsistent(p, capacity, gone, HandleHashes(p, gone), Evict(p, nowMs));
  }

  lemma EvictKeepsUnseen(p: Pairings, nowMs: int, d: Digest)
    requires Unseen(p, d)
    ensures Unseen(Evict(p, nowMs), d)
  {
    EvictedRecords(p, nowMs);
  }

  lemma CreateKeepsConsistent(p: Pairings, capacity: nat, request: PairRequest, draws: Draws)
    requires Consistent(p, capacity)
    requires Unseen(p, Sha256(draws.pairId)) && Unseen(p, Sha256(draws.oauthState))
    ensures Consistent(Create(p, capacity, request, draws).0, capacity)
  {
    EvictKeepsConsistent(p, capacity, request.nowMs);
    EvictKeepsUnseen(p, request.nowMs, Sha256(draws.pairId));
    EvictKeepsUnseen(p, request.nowMs, Sha256(draws.oauthState));
    CreateInKeepsConsistent(Evict(p, request.nowMs), capacity, request, draws);
  }

  lemma CreateInKeepsConsistent(q: Pairings, capacity: nat, request: PairRequest, draws: Draws)
    requires Consistent(q, capacity)
    requires Unseen(q, Sha256(draws.pairId)) && Unseen(q, Sha256(draws.oauthState))
    ensures Consistent(CreateIn(q, capacity, request, draws).0, capacity)
  {
    if CreateIn(q, capacity, request, draws).1.Created? {
      InsertKeepsConsistent(q, capacity, Sha256(draws.pairId), NewPairing(request, draws));
    }
  }

  lemma InsertKeepsConsistent(q: Pairings, capacity: nat, key: Digest, pairing: Pairing)
    requires Consistent(q, capacity) && |q.records| < capacity
    requires Unseen(q, key) && Unseen(q, pairing.stateHash) && pairing.status == Pending && pairing.handleHash == None
    ensures Consistent(Insert(q, key, pairing), capacity)
  {
    var q' := Insert(q, key, pairing);
    assert q'.records.Keys == q.records.Keys + {key};
    forall k | k in q'.records ensures RecordIndexed(q', k) {
      if k != key { OthersKeepIndexed(q, key, pairing, k); }
    }
    InsertKeepsPointers(q, capacity, key, pairing);
    forall k, l | k in q'.records && l in q'.records ensures OwnStates(q', k, l) {
      if k != key && l != key { assert OwnStates(q, k, l); }
    }
  }

  lemma InsertKeepsPointers(q: Pairings, capacity: nat, key: Digest, pairing: Pairing)
    requires Consistent(q, capacity) && Unseen(q, key) && Unseen(q, pairing.stateHash)
    ensures
      var q' := Insert(q, key, pairing);
      && (forall h :: h in q'.states ==> StatePointsBack(q', h))
      && (forall h :: h in q'.handles ==> HandlePointsBack(q', h))
      && (forall h :: h in q'.nonces ==> NoncePointsBack(q', h))
  {
    var q' := Insert(q, key, pairing);
    forall h | h in q'.states ensures StatePointsBack(q', h) {
      if h != pairing.stateHash { assert StatePointsBack(q, h); }
    }
    forall h | h in q'.handles ensures HandlePointsBack(q', h) { assert HandlePointsBack(q, h); }
    forall h | h in q'.nonces ensures NoncePointsBack(q', h) { assert NoncePointsBack(q, h); }
  }

  lemma OthersKeepIndexed(q: Pairings, key: Digest, pairing: Pairing, k: Digest)
    requires k in q.records && k != key && RecordIndexed(q, k) && Unseen(q, pairing.stateHash)
    ensures RecordIndexed(Insert(q, key, pairing), k)
  {}

  /** Moving one record to another status: the indexes may only gain or lose what that record owns. */
  lemma MoveKeepsConsistent(q: Pairings, capacity: nat, key: Digest, q': Pairings)
    requires Consistent(q, capacity) && key in q.records && key in q'.records
    requires q'.records == q.records[key := q'.records[key]] && q'.records[key].stateHash == q.records[key].stateHash
    requires RecordIndexed(q', key)
    requires q'.states == q.states || q'.states == q.states - {q.records[key].stateHash}
    requires
      || (q'.handles == q.handles && q'.records[key].handleHash == q.records[key].handleHash)
      || (q.records[key].handleHash.Some? && q'.records[key].handleHash == None
          && q'.handles == q.handles - {q.records[key].handleHash.value})
      || (q.records[key].handleHash.None? && q'.records[key].handleHash.Some?
          && Unseen(q, q'.records[key].handleHash.value)
          && q'.handles == q.handles[q'.records[key].handleHash.value := key])
    requires
      || q'.nonces == WithoutNoncesOf(q.nonces, {key})
      || (q'.nonces == q.nonces && q.records[key].status != Enrolled)
    ensures Consistent(q', capacity)
  {
    assert q'.records.Keys == q.records.Keys;
    assert RecordIndexed(q, key);
    forall k | k in q.records && k != key ensures RecordIndexed(q', k) {
      assert RecordIndexed(q, k) && OwnStates(q, k, key);
    }
    forall h | h in q'.states ensures StatePointsBack(q', h) { assert StatePointsBack(q, h); }
    forall h | h in q'.handles ensures HandlePointsBack(q', h) {
      if h in q.handles { assert HandlePointsBack(q, h); }
    }
    forall h | h in q'.nonces ensures NoncePointsBack(q', h) { assert NoncePointsBack(q, h); }
    forall k, l | k in q'.records && l in q'.records ensures OwnStates(q', k, l) { assert OwnStates(q, k, l); }
  }

  lemma ConsumeKeepsConsistent(p: Pairings, capacity: nat, oauthState: string, nowMs: int, handle: string)
    requires Consistent(p, capacity) && Unseen(p, Sha256(handle))
    ensures Consistent(ConsumeOAuthState(p, oauthState, nowMs, handle).0, capacity)
  {
    EvictKeepsConsistent(p, capacity, nowMs);
    EvictKeepsUnseen(p, nowMs, Sha256(handle));
    ConsumeInKeepsConsistent(Evict(p, nowMs), capacity, oauthState, handle);
  }

  lemma ConsumeInKeepsConsistent(q: Pairings, capacity: nat, oauthState: string, handle: string)
    requires Consistent(q, capacity) && Unseen(q, Sha256(handle))
    ensures Consistent(ConsumeIn(q, oauthState, handle).0, capacity)
  {
    if ConsumeIn(q, oauthState, handle).1.Some? {
      assert RecordIndexed(q, q.states[Sha256(oauthState)]);
      MoveKeepsConsistent(q, capacity, q.states[Sha256(oauthState)], ConsumeIn(q, oauthState, handle).0);
    }
  }

  lemma AuthorizeKeepsConsistent(p: Pairings, capacity: nat, handle: string, nowMs: int)
    requires Consistent(p, capacity)
    ensures Consistent(MarkAuthorized(p, handle, nowMs).0, capacity)
  {
    EvictKeepsConsistent(p, capacity, nowMs);
    AuthorizeInKeepsConsistent(Evict(p, nowMs), capacity, handle);
  }

  lemma AuthorizeInKeepsConsistent(q: Pairings, capacity: nat, handle: string)
    requires Consistent(q, capacity)
    ensures Consistent(AuthorizeIn(q, handle).0, capacity)
  {
    if AuthorizeIn(q, handle).1 {
      assert RecordIndexed(q, q.handles[Sha256(handle)]);
      MoveKeepsConsistent(q, capacity, q.handles[Sha256(handle)], AuthorizeIn(q, handle).0);
    }
  }

  lemma ClaimKeepsConsistent(p: Pairings, capacity: nat, pairId: string, proof: Signature, nowMs: int)
    requires Consistent(p, capacity)
    ensures Consistent(OpenClaim(p, pairId, proof, nowMs).0, capacity)
  {
    var key := Sha256(pairId);
    var (q, result) := OpenClaim(p, pairId, proof, nowMs);
    if result == ClaimRefused(Expired) {
      assert StateHashes(p, {key}) == {p.records[key].stateHash};
      ForgetKeepsConsistent(p, capacity, {key}, {}, q);
    } else if result.Claimed? {
      assert RecordIndexed(p, key);
      MoveKeepsConsistent(p, capacity, key, q);
    }
  }

  lemma IssueKeepsConsistent(p: Pairings, capacity: nat, pairId: string, nowMs: int, ttlMs: int, nonce: string)
    requires Consistent(p, capacity)
    ensures Consistent(IssueNonce(p, pairId, nowMs, ttlMs, nonce).0, capacity)
  {
    var q := IssueNonce(p, pairId, nowMs, ttlMs, nonce).0;
    forall h | h in q.nonces ensures NoncePointsBack(q, h) {
      if h in p.nonces { assert NoncePointsBack(p, h); }
    }
    SameRecordsConsistent(p, q, capacity);
  }

  lemma UseKeepsConsistent(p: Pairings, capacity: nat, pairId: string, nonce: string, proof: Signature, nowMs: int)
    requires Consistent(p, capacity)
    ensures Consistent(ConsumeNonce(p, pairId, nonce, proof, nowMs).0, capacity)
  {
    var q := ConsumeNonce(p, pairId, nonce, proof, nowMs).0;
    forall h | h in q.nonces ensures NoncePointsBack(q, h) { assert NoncePointsBack(p, h); }
    SameRecordsConsistent(p, q, capacity);
  }

  lemma SameRecordsConsistent(p: Pairings, q: Pairings, capacity: nat)
    requires Consistent(p, capacity) && q == p.(nonces := q.nonces)
    requires forall h {:trigger NoncePointsBack(q, h)} :: h in q.nonces ==> NoncePointsBack(q, h)
    ensures Consistent(q, capacity)
  {
    forall k | k in q.records ensures RecordIndexed(q, k) { assert RecordIndexed(p, k); }
    forall h | h in q.states ensures StatePointsBack(q, h) { assert StatePointsBack(p, h); }
    forall h | h in q.handles ensures HandlePointsBack(q, h) { assert HandlePointsBack(p, h); }
    forall k, l | k in q.records && l in q.records ensures OwnStates(q, k, l) { assert OwnStates(p, k, l); }
  }

  lemma RevokeKeepsConsistent(p: Pairings, capacity: nat, pairId: string)
    requires Consistent(p, capacity)
    ensures Consistent(Revoke(p, pairId).0, capacity)
  {
    var (q, found) := Revoke(p, pairId);
    if found {
      assert RecordIndexed(p, Sha256(pairId));
      MoveKeepsConsistent(p, capacity, Sha256(pairId), q);
    }
  }

  /** The order in which a pairing lives through its statuses. */
  function Rank(status: Status): nat {
    match status
    case Pending => 0
    case CallbackStateConsumed => 1
    case Authorized => 2
    case Enrolled => 3
    case Revoked => 4
  }

  /** Apart from `born`, every record of `q` was one of `p`, is the same pairing, and has not moved back. */
  ghost predicate OnlyForward(p: Pairings, q: Pairings, born: set<Digest>) {
    forall k :: k in q.records && k !in born ==>
      && k in p.records && Rank(p.records[k].status) <= Rank(q.records[k].status)
      && q.records[k] == p.records[k].(status := q.records[k].status, handleHash := q.records[k].handleHash)
  }

  /** Every pairing but the one at `key` that is still there is as it was. */
  ghost predicate OthersSame(p: Pairings, q: Pairings, key: Digest) {
    forall k :: k in q.records && k != key ==> k in p.records && q.records[k] == p.records[k]
  }

  lemma CreateKeepsOthers(p: Pairings, capacity: nat, request: PairRequest, draws: Draws)
    ensures OthersSame(p, Create(p, capacity, request, draws).0, Sha256(draws.pairId))
  {
    if 0 < request.ttlMs <= MAX_PAIRING_TTL_MS {
      var evicted := Evict(p, request.nowMs);
      CreateInKeepsOthers(evicted, capacity, request, draws);
      SameFromEvicted(p, request.nowMs, CreateIn(evicted, capacity, request, draws).0, Sha256(draws.pairId));
    }
  }

  lemma CreateInKeepsOthers(q: Pairings, capacity: nat, request: PairRequest, draws: Draws)
    ensures OthersSame(q, CreateIn(q, capacity, request, draws).0, Sha256(draws.pairId))
  {}

  lemma RevokeKeepsOthers(p: Pairings, pairId: string)
    ensures OthersSame(p, Revoke(p, pairId).0, Sha256(pairId)) && OthersSame(Revoke(p, pairId).0, p, Sha256(pairId))
  {}

  lemma SameFromEvicted(p: Pairings, nowMs: int, q: Pairings, key: Digest)
    requires OthersSame(Evict(p, nowMs), q, key)
    ensures OthersSame(p, q, key)
  {
    EvictedRecords(p, nowMs);
  }

  lemma CreateInOnlyForward(q: Pairings, capacity: nat, request: PairRequest, draws: Draws)
    ensures OnlyForward(q, CreateIn(q, capacity, request, draws).0, {Sha256(draws.pairId)})
  {}

  lemma ConsumeOnlyForward(p: Pairings, oauthState: string, nowMs: int, handle: string)
    ensures OnlyForward(p, ConsumeOAuthState(p, oauthState, nowMs, handle).0, {})
  {
    EvictedRecords(p, nowMs);
    ConsumeInOnlyForward(Evict(p, nowMs), oauthState, handle);
  }

  lemma ConsumeInOnlyForward(q: Pairings, oauthState: string, handle: string)
    ensures OnlyForward(q, ConsumeIn(q, oauthState, handle).0, {})
  {}

  lemma AuthorizeOnlyForward(p: Pairings, handle: string, nowMs: int)
    ensures OnlyForward(p, MarkAuthorized(p, handle, nowMs).0, {})
  {
    EvictedRecords(p, nowMs);
    AuthorizeInOnlyForward(Evict(p, nowMs), handle);
  }

  lemma AuthorizeInOnlyForward(q: Pairings, handle: string)
    ensures OnlyForward(q, AuthorizeIn(q, handle).0, {})
  {}

  /** No claim moves a status back or out of Revoked, whatever time it is made at. */
  lemma ClaimOnlyForward(p: Pairings, pairId: string, proof: Signature, nowMs: int)
    ensures OnlyForward(p, OpenClaim(p, pairId, proof, nowMs).0, {})
  {}

  lemma RevokeOnlyForward(p: Pairings, pairId: string)
    ensures OnlyForward(p, Revoke(p, pairId).0, {})
  {}

  // ---------- what each operation answers, in terms of the records it finds ----------

  predicate Live(records: map<Digest, Pairing>, k: Digest, nowMs: int) {
    k in records && nowMs < records[k].expiresAtMs
  }

  function LiveKeys(records: map<Digest, Pairing>, nowMs: int): set<Digest> {
    set k | k in records && nowMs < records[k].expiresAtMs
  }

  predicate CreateAnswer(records: map<Digest, Pairing>, capacity: nat, request: PairRequest, draws: Draws,
      result: CreateResult)
  {
    var inRange := 0 < request.ttlMs <= MAX_PAIRING_TTL_MS;
    var room := |LiveKeys(records, request.nowMs)| < capacity;
    var expiresAtMs := request.nowMs + request.ttlMs;
    && (result == InvalidExpiry <==> !inRange)
    && (result == CapacityReached <==> inRange && !room)
    && (result == BadSigningKey <==> inRange && room && !request.signing.Holds(Ed25519))
    && (result == BadEncryptionKey
        <==> inRange && room && request.signing.Holds(Ed25519) && !request.encryption.Holds(X25519))
    && (result.Created? ==> result == Created(draws.pairId, draws.oauthState,
                                              PairingProof(Sha256(draws.pairId), expiresAtMs), expiresAtMs))
  }

  /** A pairing that waits for its callback with this state. */
  predicate WaitsFor(records: map<Digest, Pairing>, k: Digest, oauthState: string, nowMs: int) {
    Live(records, k, nowMs) && records[k].status == Pending && records[k].stateHash == Sha256(oauthState)
  }

  /** A state is answered exactly when a pairing waits for it, with the new handle and the pairing's own verifier. */
  ghost predicate ConsumeAnswer(records: map<Digest, Pairing>, oauthState: string, nowMs: int, handle: string,
      result: Option<ConsumedState>)
  {
    && (result.Some? ==> exists k :: WaitsFor(records, k, oauthState, nowMs))
    && forall k :: WaitsFor(records, k, oauthState, nowMs) ==>
         result == Some(ConsumedState(handle, records[k].pkceVerifier, records[k].expiresAtMs))
  }

  /** A pairing that waits for its approval with this handle. */
  predicate AwaitsApproval(records: map<Digest, Pairing>, k: Digest, handle: string, nowMs: int) {
    && Live(records, k, nowMs) && records[k].status == CallbackStateConsumed
    && records[k].handleHash == Some(Sha256(handle))
  }

  ghost predicate AuthorizeAnswer(records: map<Digest, Pairing>, handle: string, nowMs: int, done: bool) {
    done <==> exists k :: AwaitsApproval(records, k, handle, nowMs)
  }

  predicate ClaimAnswer(records: map<Digest, Pairing>, pairId: string, proof: Signature, nowMs: int,
      result: ClaimResult)
  {
    var k := Sha256(pairId);
    if k !in records then result == ClaimRefused(Unknown)
    else
      var r := records[k];
      var unrevoked, inTime := r.status != Revoked, nowMs < r.expiresAtMs;
      && (result == ClaimRefused(RevokedPairing) <==> !unrevoked)
      && (result == ClaimRefused(Expired) <==> unrevoked && !inTime)
      && (result == ClaimRefused(NotAuthorizedYet) <==> unrevoked && inTime && r.status != Authorized)
      && (result == ClaimRefused(InvalidProof)
          <==> r.status == Authorized && inTime && !Verifies(r.signing, r.proofMessage, proof))
      && (result == Claimed(r.signing, r.encryption)
          <==> r.status == Authorized && inTime && Verifies(r.signing, r.proofMessage, proof))
  }

  predicate IssueAnswer(records: map<Digest, Pairing>, pairId: string, nowMs: int, ttlMs: int, nonce: string,
      result: IssueResult)
  {
    var k, inRange := Sha256(pairId), 1 <= ttlMs <= MAX_NONCE_TTL_MS;
    && (result == IssueRefused(InvalidTtl) <==> !inRange)
    && (result == IssueRefused(Unknown) <==> inRange && k !in records)
    && (result == IssueRefused(RevokedPairing) <==> inRange && k in records && records[k].status == Revoked)
    && (result == IssueRefused(NotAuthorizedYet)
        <==> inRange && k in records && records[k].status != Revoked && records[k].status != Enrolled)
    && (result == Issued(nonce, nowMs + ttlMs) <==> inRange && k in records && records[k].status == Enrolled)
  }

  /** A nonce stored for this pairing and not expired. */
  predicate Usable(nonces: map<Digest, NonceEntry>, k: Digest, nonce: string, nowMs: int) {
    && Sha256(nonce) in nonces && nonces[Sha256(nonce)].pairKey == k && nowMs < nonces[Sha256(nonce)].expiresAtMs
  }

  predicate UseAnswer(records: map<Digest, Pairing>, nonces: map<Digest, NonceEntry>, pairId: string, nonce: string,
      proof: Signature, nowMs: int, result: UseResult)
  {
    var k := Sha256(pairId);
    if k !in records then result == UseRefused(Unknown)
    else
      var r := records[k];
      var unrevoked, inTime := r.status != Revoked, nowMs < r.expiresAtMs;
      var proved := Verifies(r.signing, NonceBytes(nonce), proof);
      var usable := Usable(nonces, k, nonce, nowMs);
      && (result == UseRefused(RevokedPairing) <==> !unrevoked)
      && (result == UseRefused(Expired) <==> unrevoked && !inTime)
      && (result == UseRefused(NotAuthorizedYet) <==> unrevoked && inTime && r.status != Enrolled)
      && (result == UseRefused(InvalidNonce) <==> r.status == Enrolled && inTime && !usable)
      && (result == UseRefused(InvalidProof) <==> r.status == Enrolled && inTime && usable && !proved)
      && (result == Used(r.encryption) <==> r.status == Enrolled && inTime && usable && proved)
  }

  lemma LiveAreEvicted(p: Pairings, nowMs: int)
    ensures |Evict(p, nowMs).records| == |LiveKeys(p.records, nowMs)|
  {
    EvictedRecords(p, nowMs);
    assert Evict(p, nowMs).records.Keys == LiveKeys(p.records, nowMs);
  }

  lemma CreateAnswers(p: Pairings, capacity: nat, request: PairRequest, draws: Draws)
    ensures CreateAnswer(p.records, capacity, request, draws, Create(p, capacity, request, draws).1)
  {
    LiveAreEvicted(p, request.nowMs);
    CreateInAnswers(Evict(p, request.nowMs), capacity, request, draws);
  }

  lemma CreateInAnswers(q: Pairings, capacity: nat, request: PairRequest, draws: Draws)
    ensures
      var result, expiresAtMs := CreateIn(q, capacity, request, draws).1, request.nowMs + request.ttlMs;
      result ==
        if |q.records| >= capacity then CapacityReached
        else if !request.signing.Holds(Ed25519) then BadSigningKey
        else if !request.encryption.Holds(X25519) then BadEncryptionKey
        else Created(draws.pairId, draws.oauthState, PairingProof(Sha256(draws.pairId), expiresAtMs), expiresAtMs)
  {}

  lemma ConsumeAnswers(p: Pairings, capacity: nat, oauthState: string, nowMs: int, handle: string)
    requires Consistent(p, capacity)
    ensures ConsumeAnswer(p.records, oauthState, nowMs, handle, ConsumeOAuthState(p, oauthState, nowMs, handle).1)
  {
    var q := Evict(p, nowMs);
    EvictedRecords(p, nowMs);
    EvictKeepsConsistent(p, capacity, nowMs);
    forall k | WaitsFor(p.records, k, oauthState, nowMs)
      ensures Sha256(oauthState) in q.states && q.states[Sha256(oauthState)] == k
    {
      assert RecordIndexed(q, k);
    }
    ConsumeInAnswers(q, oauthState, handle);
    if ConsumeIn(q, oauthState, handle).1.Some? {
      assert WaitsFor(p.records, q.states[Sha256(oauthState)], oauthState, nowMs);
    }
  }

  lemma ConsumeInAnswers(q: Pairings, oauthState: string, handle: string)
    ensures
      var h, answer := Sha256(oauthState), ConsumeIn(q, oauthState, handle).1;
      && (answer.Some? <==>
            h in q.states && q.states[h] in q.records && q.records[q.states[h]].stateHash == h
            && q.records[q.states[h]].status == Pending)
      && (answer.Some? ==>
            answer.value == ConsumedState(handle, q.records[q.states[h]].pkceVerifier,
                                          q.records[q.states[h]].expiresAtMs))
  {}

  lemma AuthorizeAnswers(p: Pairings, capacity: nat, handle: string, nowMs: int)
    requires Consistent(p, capacity)
    ensures AuthorizeAnswer(p.records, handle, nowMs, MarkAuthorized(p, handle, nowMs).1)
  {
    var q := Evict(p, nowMs);
    EvictedRecords(p, nowMs);
    EvictKeepsConsistent(p, capacity, nowMs);
    forall k | AwaitsApproval(p.records, k, handle, nowMs)
      ensures Sha256(handle) in q.handles && q.handles[Sha256(handle)] == k
    {
      assert RecordIndexed(q, k);
    }
    if AuthorizeIn(q, handle).1 { assert AwaitsApproval(p.records, q.handles[Sha256(handle)], handle, nowMs); }
  }

  lemma ClaimAnswers(p: Pairings, pairId: string, proof: Signature, nowMs: int)
    ensures ClaimAnswer(p.records, pairId, proof, nowMs, OpenClaim(p, pairId, proof, nowMs).1)
  {}

  lemma IssueAnswers(p: Pairings, pairId: string, nowMs: int, ttlMs: int, nonce: string)
    ensures IssueAnswer(p.records, pairId, nowMs, ttlMs, nonce, IssueNonce(p, pairId, nowMs, ttlMs, nonce).1)
  {}

  lemma UseAnswers(p: Pairings, pairId: string, nonce: string, proof: Signature, nowMs: int)
    ensures UseAnswer(p.records, p.nonces, pairId, nonce, proof, nowMs, ConsumeNonce(p, pairId, nonce, proof, nowMs).1)
  {}

  /** Exactly the records in time stay, with exactly the index entries and nonces that belong to them. A handle whose
      record is gone already stays too. */
  lemma EvictedIndexes(p: Pairings, capacity: nat, nowMs: int)
    requires Consistent(p, capacity)
    ensures
      var q := Evict(p, nowMs);
      && (forall h :: h in q.states <==> h in p.states && Live(p.records, p.states[h], nowMs))
      && (forall h :: h in q.handles
            <==> h in p.handles && (p.handles[h] in p.records ==> Live(p.records, p.handles[h], nowMs)))
      && (forall h :: h in q.nonces <==> h in p.nonces && Live(p.records, p.nonces[h].pairKey, nowMs))
      && (forall h :: h in q.states ==> q.states[h] == p.states[h])
      && (forall h :: h in q.handles ==> q.handles[h] == p.handles[h])
      && (forall h :: h in q.nonces ==> q.nonces[h] == p.nonces[h])
  {
    forall h | h in p.states ensures h in Evict(p, nowMs).states <==> Live(p.records, p.states[h], nowMs) {
      EvictedState(p, capacity, nowMs, h);
    }
    forall h | h in p.handles
      ensures h in Evict(p, nowMs).handles <==> (p.handles[h] in p.records ==> Live(p.records, p.handles[h], nowMs))
    {
      EvictedHandle(p, capacity, nowMs, h);
    }
    forall h | h in p.nonces ensures p.nonces[h].pairKey in p.records { assert NoncePointsBack(p, h); }
  }

  lemma EvictedState(p: Pairings, capacity: nat, nowMs: int, h: Digest)
    requires Consistent(p, capacity) && h in p.states
    ensures h in Evict(p, nowMs).states <==> Live(p.records, p.states[h], nowMs)
  {
    var gone := ExpiredAmong(p, p.records.Keys, nowMs);
    assert StatePointsBack(p, h);
    forall k | k in gone && p.records[k].stateHash == h ensures k == p.states[h] {
      assert OwnStates(p, k, p.states[h]);
    }
    assert h in StateHashes(p, gone) <==> p.states[h] in gone;
  }

  lemma EvictedHandle(p: Pairings, capacity: nat, nowMs: int, h: Digest)
    requires Consistent(p, capacity) && h in p.handles
    ensures h in Evict(p, nowMs).handles <==> (p.handles[h] in p.records ==> Live(p.records, p.handles[h], nowMs))
  {
    var gone := ExpiredAmong(p, p.records.Keys, nowMs);
    assert HandlePointsBack(p, h);
    forall k | k in gone && p.records[k].handleHash == Some(h) ensures k == p.handles[h] {
      assert RecordIndexed(p, k);
    }
    assert h in HandleHashes(p, gone) <==> p.handles[h] in gone;
  }

  /** What a call leaves of the nonces: the unexpired ones, with the new one or without the one just tried. */
  lemma NoncesLeft(p: Pairings, pairId: string, nonce: string, ttlMs: int, proof: Signature, nowMs: int)
    requires 1 <= ttlMs <= MAX_NONCE_TTL_MS
    ensures
      var (issued, reply) := IssueNonce(p, pairId, nowMs, ttlMs, nonce);
      var (used, answer) := ConsumeNonce(p, pairId, nonce, proof, nowMs);
      && (forall h :: h != Sha256(nonce) ==> (h in issued.nonces <==> h in p.nonces && nowMs < p.nonces[h].expiresAtMs))
      && (forall h :: h != Sha256(nonce) ==> (h in used.nonces <==> h in p.nonces && nowMs < p.nonces[h].expiresAtMs))
      && (forall h :: h in issued.nonces && h != Sha256(nonce) ==> issued.nonces[h] == p.nonces[h])
      && (forall h :: h in used.nonces ==> used.nonces[h] == p.nonces[h])
      && (reply.Issued? ==>
            Sha256(nonce) in issued.nonces
            && issued.nonces[Sha256(nonce)] == NonceEntry(Sha256(pairId), reply.expiresAtMs))
      && (Sha256(nonce) in used.nonces <==>
            Sha256(nonce) in p.nonces && nowMs < p.nonces[Sha256(nonce)].expiresAtMs
            && !answer.Used? && answer != UseRefused(InvalidProof))
  {}

  // ---------- the store itself ----------

  /** One step of an eviction: removing a single expired record and what points at it. */
  lemma EvictOneMore(p: Pairings, done: set<Digest>, key: Digest, nowMs: int)
    requires key in p.records && key !in done
    ensures
      var e := EvictAmong(p, done, nowMs);
      var r := p.records[key];
      key in e.records && e.records[key] == r &&
      EvictAmong(p, done + {key}, nowMs) ==
        if nowMs >= r.expiresAtMs then
          Pairings(e.records - {key}, e.states - {r.stateHash},
                   if r.handleHash.Some? then e.handles - {r.handleHash.value} else e.handles,
                   WithoutNoncesOf(e.nonces, {key}))
        else e
  {
    var r := p.records[key];
    var gone := ExpiredAmong(p, done, nowMs);
    var more := ExpiredAmong(p, done + {key}, nowMs);
    if nowMs >= r.expiresAtMs {
      assert more == gone + {key};
      assert StateHashes(p, more) == StateHashes(p, gone) + {r.stateHash};
      assert HandleHashes(p, more) == HandleHashes(p, gone) + if r.handleHash.Some? then {r.handleHash.value} else {};
    } else {
      assert more == gone;
    }
  }

  class PairingStore {
    const maxRecords: nat
    var records: map<Digest, Pairing>
    var states: map<Digest, Digest>
    var callbackHandles: map<Digest, Digest>
    var nonces: map<Digest, NonceEntry>

    ghost function State(): Pairings
      reads this
    {
      Pairings(records, states, callbackHandles, nonces)
    }

    ghost predicate Valid()
      reads this
    {
      Consistent(State(), maxRecords)
    }

    constructor (maxRecords: nat)
      requires maxRecords >= 1
      ensures Valid() && State() == Pairings(map[], map[], map[], map[]) && this.maxRecords == maxRecords
    {
      this.maxRecords := maxRecords;
      records, states, callbackHandles, nonces := map[], map[], map[], map[];
    }

    method DropNoncesFor(key: Digest)
      modifies this`nonces
      ensures nonces == WithoutNoncesOf(old(nonces), {key})
    {
      var hashes := nonces.Keys;
      while hashes != {}
        invariant hashes <= nonces.Keys
        invariant nonces == map h | h in old(nonces) && (old(nonces)[h].pairKey != key || h in hashes) :: old(nonces)[h]
      {
        var hash :| hash in hashes;
        hashes := hashes - {hash};
        if nonces[hash].pairKey == key { nonces := nonces - {hash}; }
      }
    }

    method EvictExpired(nowMs: int)
      modifies this`records, this`states, this`callbackHandles, this`nonces
      ensures State() == Evict(old(State()), nowMs)
    {
      ghost var before := State();
      var keys := records.Keys;
      ghost var done: set<Digest> := {};
      assert State() == EvictAmong(before, done, nowMs);
      while keys != {}
        invariant done !! keys && done + keys == before.records.Keys
        invariant State() == EvictAmong(before, done, nowMs)
        decreases keys
      {
        var key :| key in keys;
        EvictOneMore(before, done, key, nowMs);
        keys := keys - {key};
        done := done + {key};
        var record := records[key];
        if nowMs >= record.expiresAtMs {
          records := records - {key};
          states := states - {record.stateHash};
          if record.handleHash.Some? { callbackHandles := callbackHandles - {record.handleHash.value}; }
          DropNoncesFor(key);
        }
      }
      assert done == before.records.Keys;
    }

    method EvictExpiredNonces(nowMs: int)
      modifies this`nonces
      ensures State() == EvictNonces(old(State()), nowMs)
    {
      var hashes := nonces.Keys;
      while hashes != {}
        invariant hashes <= nonces.Keys
        invariant nonces
          == map h | h in old(nonces) && (nowMs < old(nonces)[h].expiresAtMs || h in hashes) :: old(nonces)[h]
      {
        var hash :| hash in hashes;
        hashes := hashes - {hash};
        if nowMs >= nonces[hash].expiresAtMs { nonces := nonces - {hash}; }
      }
    }

    /** `draws` are the random pair id, state and verifier; that they are new is the only demand on them. */
    method CreatePairing(request: PairRequest, draws: Draws) returns (result: CreateResult)
      requires Valid() && Unseen(State(), Sha256(draws.pairId)) && Unseen(State(), Sha256(draws.oauthState))
      modifies this`records, this`states, this`callbackHandles, this`nonces
      ensures Valid()
      ensures (State(), result) == Create(old(State()), maxRecords, request, draws)
      ensures CreateAnswer(old(records), maxRecords, request, draws, result)
    {
      CreateAnswers(State(), maxRecords, request, draws);
      ghost var before := State();
      CreateKeepsConsistent(before, maxRecords, request, draws);
      if request.ttlMs <= 0 || request.ttlMs > MAX_PAIRING_TTL_MS { return InvalidExpiry; }
      EvictExpired(request.nowMs);
      if |records| >= maxRecords { return CapacityReached; }
      if !request.signing.Holds(Ed25519) { return BadSigningKey; }
      if !request.encryption.Holds(X25519) { return BadEncryptionKey; }
      var pairing := NewPairing(request, draws);
      var key := Sha256(draws.pairId);
      records := records[key := pairing];
      states := states[pairing.stateHash := key];
      return Created(draws.pairId, draws.oauthState, pairing.proofMessage, pairing.expiresAtMs);
    }

    method ConsumeState(oauthState: string, nowMs: int, handle: string) returns (result: Option<ConsumedState>)
      requires Valid() && Unseen(State(), Sha256(handle))
      modifies this`records, this`states, this`callbackHandles, this`nonces
      ensures Valid()
      ensures (State(), result) == ConsumeOAuthState(old(State()), oauthState, nowMs, handle)
      ensures ConsumeAnswer(old(records), oauthState, nowMs, handle, result)
    {
      ConsumeAnswers(State(), maxRecords, oauthState, nowMs, handle);
      ConsumeKeepsConsistent(State(), maxRecords, oauthState, nowMs, handle);
      EvictExpired(nowMs);
      var hashedState := Sha256(oauthState);
      if hashedState !in states { return None; }
      var key := states[hashedState];
      if key !in records { return None; }
      var record := records[key];
      if record.stateHash != hashedState || record.status != Pending { return None; }
      states := states - {hashedState};
      record := record.(handleHash := Some(Sha256(handle)));
      callbackHandles := callbackHandles[record.handleHash.value := key];
      record := record.(status := CallbackStateConsumed);
      records := records[key := record];
      return Some(ConsumedState(handle, record.pkceVerifier, record.expiresAtMs));
    }

    method Authorize(handle: string, nowMs: int) returns (done: bool)
      requires Valid()
      modifies this`records, this`states, this`callbackHandles, this`nonces
      ensures Valid()
      ensures (State(), done) == MarkAuthorized(old(State()), handle, nowMs)
      ensures AuthorizeAnswer(old(records), handle, nowMs, done)
    {
      AuthorizeAnswers(State(), maxRecords, handle, nowMs);
      AuthorizeKeepsConsistent(State(), maxRecords, handle, nowMs);
      EvictExpired(nowMs);
      var hash := Sha256(handle);
      if hash !in callbackHandles { return false; }
      var key := callbackHandles[hash];
      if key !in records { return false; }
      var record := records[key];
      if record.status != CallbackStateConsumed || record.handleHash != Some(hash) { return false; }
      callbackHandles := callbackHandles - {hash};
      records := records[key := record.(handleHash := None, status := Authorized)];
      return true;
    }

    method Claim(pairId: string, proof: Signature, nowMs: int) returns (result: ClaimResult)
      requires Valid()
      modifies this`records, this`states, this`nonces
      ensures Valid()
      ensures (State(), result) == OpenClaim(old(State()), pairId, proof, nowMs)
      ensures ClaimAnswer(old(records), pairId, proof, nowMs, result)
    {
      ClaimAnswers(State(), pairId, proof, nowMs);
      ClaimKeepsConsistent(State(), maxRecords, pairId, proof, nowMs);
      var key := Sha256(pairId);
      if key !in records { return ClaimRefused(Unknown); }
      var record := records[key];
      if record.status == Revoked { return ClaimRefused(RevokedPairing); }
      if nowMs >= record.expiresAtMs {
        records := records - {key};
        states := states - {record.stateHash};
        DropNoncesFor(key);
        return ClaimRefused(Expired);
      }
      if record.status != Authorized { return ClaimRefused(NotAuthorizedYet); }
      if !Verifies(record.signing, record.proofMessage, proof) { return ClaimRefused(InvalidProof); }
      records := records[key := record.(status := Enrolled)];
      return Claimed(record.signing, record.encryption);
    }

    method Issue(pairId: string, nowMs: int, ttlMs: int, nonce: string) returns (result: IssueResult)
      requires Valid()
      modifies this`nonces
      ensures Valid()
      ensures (State(), result) == IssueNonce(old(State()), pairId, nowMs, ttlMs, nonce)
      ensures IssueAnswer(old(records), pairId, nowMs, ttlMs, nonce, result)
    {
      IssueAnswers(State(), pairId, nowMs, ttlMs, nonce);
      IssueKeepsConsistent(State(), maxRecords, pairId, nowMs, ttlMs, nonce);
      if ttlMs < 1 || ttlMs > MAX_NONCE_TTL_MS { return IssueRefused(InvalidTtl); }
      EvictExpiredNonces(nowMs);
      var key := Sha256(pairId);
      if key !in records { return IssueRefused(Unknown); }
      if records[key].status == Revoked { return IssueRefused(RevokedPairing); }
      if records[key].status != Enrolled { return IssueRefused(NotAuthorizedYet); }
      nonces := nonces[Sha256(nonce) := NonceEntry(key, nowMs + ttlMs)];
      return Issued(nonce, nowMs + ttlMs);
    }

    method Consume(pairId: string, nonce: string, proof: Signature, nowMs: int) returns (result: UseResult)
      requires Valid()
      modifies this`nonces
      ensures Valid()
      ensures (State(), result) == ConsumeNonce(old(State()), pairId, nonce, proof, nowMs)
      ensures UseAnswer(old(records), old(nonces), pairId, nonce, proof, nowMs, result)
    {
      UseAnswers(State(), pairId, nonce, proof, nowMs);
      UseKeepsConsistent(State(), maxRecords, pairId, nonce, proof, nowMs);
      EvictExpiredNonces(nowMs);
      var key := Sha256(pairId);
      if key !in records { return UseRefused(Unknown); }
      var record := records[key];
      if record.status == Revoked { return UseRefused(RevokedPairing); }
      if nowMs >= record.expiresAtMs { return UseRefused(Expired); }
      if record.status != Enrolled { return UseRefused(NotAuthorizedYet); }
      var hash := Sha256(nonce);
      if hash !in nonces || nonces[hash].pairKey != key { return UseRefused(InvalidNonce); }
      var pending := nonces[hash];
      nonces := nonces - {hash};
      if nowMs >= pending.expiresAtMs { return UseRefused(InvalidNonce); }
      if !Verifies(record.signing, NonceBytes(nonce), proof) { return UseRefused(InvalidProof); }
      return Used(record.encryption);
    }

    method RevokePairing(pairId: string) returns (found: bool)
      requires Valid()
      modifies this`records, this`states, this`callbackHandles, this`nonces
      ensures Valid()
      ensures (State(), found) == Revoke(old(State()), pairId)
      ensures found <==> Sha256(pairId) in old(records)
    {
      RevokeKeepsConsistent(State(), maxRecords, pairId);
      var key := Sha256(pairId);
      if key !in records { return false; }
      var record := records[key];
      states := states - {record.stateHash};
      if record.handleHash.Some? { callbackHandles := callbackHandles - {record.handleHash.value}; }
      records := records[key := record.(status := Revoked, handleHash := None)];
      DropNoncesFor(key);
      return true;
    }
  }
}
