/** Operator-minted, single-use codes (broker/src/enrollment-store.ts:86-186): the operations on
    values, what they keep, and the store that updates its map in place. */
module Enrollment {
  import opened Terms
  import opened Int32
  import opened EnrollmentCodes

  const MIN_TTL_MS := 60_000
  const MAX_TTL_MS := 3_600_000

  /** A fingerprint argument after trimming and lower-casing: 64 hex digits of a digest, or not. */
  datatype FingerprintText = Spells(fingerprint: Digest) | Malformed

  datatype CodeRecord = CodeRecord(codeHash: Digest, expiresAtMs: int, used: bool, expectedFingerprintHash: Digest)

  datatype Minted = Minted(code: string, expiresAtMs: int) | InvalidTime | InvalidTtl | InvalidFingerprint
    | CapacityReached

  datatype Redemption = Redeemed | UnknownCode | ExpiredCode | UsedCode | FingerprintMismatch

  ghost function EvictAmong(codes: map<Digest, CodeRecord>, keys: set<Digest>, nowMs: int): map<Digest, CodeRecord> {
    map k | k in codes && !(k in keys && nowMs >= codes[k].expiresAtMs) :: codes[k]
  }

  ghost function Evict(codes: map<Digest, CodeRecord>, nowMs: int): map<Digest, CodeRecord> {
    EvictAmong(codes, codes.Keys, nowMs)
  }

  /** `canonical` is the code encoded from the random draw. */
  ghost function Issue(codes: map<Digest, CodeRecord>, capacity: nat, nowMs: int, ttlMs: int,
                       fingerprint: FingerprintText, canonical: string)
    : (map<Digest, CodeRecord>, Minted)
  {
    if nowMs < 0 then (codes, InvalidTime)
    else if !(MIN_TTL_MS <= ttlMs <= MAX_TTL_MS) then (codes, InvalidTtl)
    else if fingerprint.Malformed? then (codes, InvalidFingerprint)
    else
      var kept := Evict(codes, nowMs);
      if |kept| >= capacity then (kept, CapacityReached)
      else
        var hash := Sha256(canonical);
        (kept[hash := CodeRecord(hash, nowMs + ttlMs, false, Sha256OfHex(fingerprint.fingerprint))],
         Minted(Grouped(canonical), nowMs + ttlMs))
  }

  /** `canonical` is what the presented text normalises to, "" when that is malformed. */
  ghost function Consume(codes: map<Digest, CodeRecord>, canonical: string, nowMs: int,
      fingerprint: Option<FingerprintText>)
    : (map<Digest, CodeRecord>, Redemption)
  {
    var hash := Sha256(canonical);
    if canonical == "" || hash !in codes then (codes, UnknownCode)
    else if !Approved(codes[hash], fingerprint) then (codes, FingerprintMismatch)
    else if nowMs >= codes[hash].expiresAtMs then (codes - {hash}, ExpiredCode)
    else if codes[hash].used then (codes, UsedCode)
    else (codes[hash := codes[hash].(used := true)], Redeemed)
  }

  predicate Approved(record: CodeRecord, fingerprint: Option<FingerprintText>) {
    fingerprint.Some? && fingerprint.value.Spells?
      && Sha256OfHex(fingerprint.value.fingerprint) == record.expectedFingerprintHash
  }

  /** Every record sits under its own hash, and the store is within capacity. */
  ghost predicate Sound(codes: map<Digest, CodeRecord>, capacity: nat) {
    |codes| <= capacity && forall k :: k in codes ==> codes[k].codeHash == k
  }

  /** A presented fingerprint other than the approved one neither opens nor burns a code. */
  lemma MismatchChangesNothing(codes: map<Digest, CodeRecord>, canonical: string, nowMs: int,
      fingerprint: Option<FingerprintText>)
    requires Sha256(canonical) in codes && !Approved(codes[Sha256(canonical)], fingerprint)
    ensures Consume(codes, canonical, nowMs, fingerprint).0 == codes
    ensures !Consume(codes, canonical, nowMs, fingerprint).1.Redeemed?
  {}

  /** A code is redeemed exactly when it is held unused and unexpired for the approved device. */
  lemma RedeemedIff(codes: map<Digest, CodeRecord>, canonical: string, nowMs: int, fingerprint: Option<FingerprintText>)
    ensures Consume(codes, canonical, nowMs, fingerprint).1.Redeemed? <==>
            && canonical != "" && Sha256(canonical) in codes
            && var record := codes[Sha256(canonical)];
               !record.used && nowMs < record.expiresAtMs && Approved(record, fingerprint)
  {}

  datatype Operation =
    | IssueOp(nowMs: int, ttlMs: int, fingerprint: FingerprintText, canonical: string)
    | ConsumeOp(canonical: string, nowMs: int, presented: Option<FingerprintText>)

  ghost function Execute(codes: map<Digest, CodeRecord>, capacity: nat, op: Operation): map<Digest, CodeRecord> {
    match op
    case IssueOp(nowMs, ttlMs, fingerprint, canonical) => Issue(codes, capacity, nowMs, ttlMs, fingerprint, canonical).0
    case ConsumeOp(canonical, nowMs, presented) => Consume(codes, canonical, nowMs, presented).0
  }

  ghost function Run(codes: map<Digest, CodeRecord>, capacity: nat, ops: seq<Operation>): map<Digest, CodeRecord>
    decreases ops
  {
    if ops == [] then codes else Run(Execute(codes, capacity, ops[0]), capacity, ops[1..])
  }

  predicate Spent(codes: map<Digest, CodeRecord>, canonical: string) {
    Sha256(canonical) in codes ==> codes[Sha256(canonical)].used
  }

  /** Once redeemed, a code is never redeemed again, whatever is minted or redeemed in between by anyone at any
      time, unless the very same code is drawn again. */
  lemma RedeemedOnce(codes: map<Digest, CodeRecord>, capacity: nat, canonical: string, nowMs: int,
                     fingerprint: Option<FingerprintText>, ops: seq<Operation>, laterMs: int,
                     other: Option<FingerprintText>)
    requires Consume(codes, canonical, nowMs, fingerprint).1.Redeemed?
    requires forall i :: 0 <= i < |ops| ==> ops[i].IssueOp? ==> ops[i].canonical != canonical
    ensures var later := Run(Consume(codes, canonical, nowMs, fingerprint).0, capacity, ops);
      !Consume(later, canonical, laterMs, other).1.Redeemed?
  {
    SpentStaysSpent(Consume(codes, canonical, nowMs, fingerprint).0, capacity, canonical, ops);
  }

  lemma {:induction false} SpentStaysSpent(codes: map<Digest, CodeRecord>, capacity: nat, canonical: string,
      ops: seq<Operation>)
    requires Spent(codes, canonical)
    requires forall i :: 0 <= i < |ops| ==> ops[i].IssueOp? ==> ops[i].canonical != canonical
    ensures Spent(Run(codes, capacity, ops), canonical)
    decreases ops
  {
    if ops != [] {
      assert ops[0].IssueOp? ==> ops[0].canonical != canonical;
      SpentStaysSpent(Execute(codes, capacity, ops[0]), capacity, canonical, ops[1..]);
    }
  }

  lemma EvictKeepsSound(codes: map<Digest, CodeRecord>, capacity: nat, nowMs: int)
    requires Sound(codes, capacity)
    ensures Sound(Evict(codes, nowMs), capacity)
  {
    var kept := Evict(codes, nowMs);
    assert codes.Keys == kept.Keys + (codes.Keys - kept.Keys);
  }

  lemma IssueKeepsSound(codes: map<Digest, CodeRecord>, capacity: nat, nowMs: int, ttlMs: int,
                        fingerprint: FingerprintText, canonical: string)
    requires Sound(codes, capacity)
    ensures Sound(Issue(codes, capacity, nowMs, ttlMs, fingerprint, canonical).0, capacity)
  {
    EvictKeepsSound(codes, capacity, nowMs);
    var kept := Evict(codes, nowMs);
    var (issued, result) := Issue(codes, capacity, nowMs, ttlMs, fingerprint, canonical);
    if result.Minted? { OneMoreKey(kept, Sha256(canonical), issued[Sha256(canonical)]); }
  }

  lemma OneMoreKey(codes: map<Digest, CodeRecord>, k: Digest, record: CodeRecord)
    ensures |codes[k := record]| <= |codes| + 1 && (k in codes ==> |codes[k := record]| == |codes|)
  {
    assert codes[k := record].Keys == codes.Keys + {k};
    if k in codes { assert codes.Keys + {k} == codes.Keys; }
  }

  /** A code that has not expired outlives every other minting. */
  lemma IssueKeepsLive(codes: map<Digest, CodeRecord>, capacity: nat, nowMs: int, ttlMs: int,
                       fingerprint: FingerprintText, canonical: string, k: Digest)
    requires k in codes && nowMs < codes[k].expiresAtMs && k != Sha256(canonical)
    ensures
      var issued := Issue(codes, capacity, nowMs, ttlMs, fingerprint, canonical).0;
      k in issued && issued[k] == codes[k]
  {}

  /** Minting leaves every code it does not evict as it was, and adds at most its own, unused. */
  lemma IssueChanges(codes: map<Digest, CodeRecord>, capacity: nat, nowMs: int, ttlMs: int,
                     fingerprint: FingerprintText, canonical: string)
    ensures
      var (issued, result) := Issue(codes, capacity, nowMs, ttlMs, fingerprint, canonical);
      && (forall c :: c in issued && c != Sha256(canonical) ==> c in codes && issued[c] == codes[c])
      && (result.Minted? ==>
            fingerprint.Spells? && Sha256(canonical) in issued
            && issued[Sha256(canonical)] == CodeRecord(Sha256(canonical), nowMs + ttlMs, false,
                                                      Sha256OfHex(fingerprint.fingerprint)))
      && (!result.Minted? && Sha256(canonical) in issued
        ==> Sha256(canonical) in codes && issued[Sha256(canonical)] == codes[Sha256(canonical)])
  {}

  lemma ConsumeKeepsSound(codes: map<Digest, CodeRecord>, capacity: nat, canonical: string, nowMs: int,
                          fingerprint: Option<FingerprintText>)
    requires Sound(codes, capacity)
    ensures Sound(Consume(codes, canonical, nowMs, fingerprint).0, capacity)
  {
    var (left, result) := Consume(codes, canonical, nowMs, fingerprint);
    if result.Redeemed? { OneMoreKey(codes, Sha256(canonical), left[Sha256(canonical)]); }
    if result.ExpiredCode? { assert codes.Keys == left.Keys + {Sha256(canonical)}; }
  }

  /** Presenting one code does nothing to any other. */
  lemma ConsumeKeepsOthers(codes: map<Digest, CodeRecord>, canonical: string, nowMs: int,
                           fingerprint: Option<FingerprintText>, k: Digest)
    requires k != Sha256(canonical)
    ensures
      var left := Consume(codes, canonical, nowMs, fingerprint).0;
      (k in left <==> k in codes) && (k in codes ==> left[k] == codes[k])
  {}

  /** A used code never becomes unused: not by redeeming any code, nor by minting another one. */
  lemma UsedStaysUsed(codes: map<Digest, CodeRecord>, capacity: nat, nowMs: int, ttlMs: int, minted: FingerprintText,
                      canonical: string, presented: Option<FingerprintText>, c: Digest)
    requires c in codes && codes[c].used
    ensures
      var issued := Issue(codes, capacity, nowMs, ttlMs, minted, canonical).0;
      c in issued && c != Sha256(canonical) ==> issued[c].used
    ensures
      var left := Consume(codes, canonical, nowMs, presented).0;
      c in left ==> left[c].used
  {}

  // ---------- what each operation answers, in terms of the codes it finds ----------

  function LiveCodes(codes: map<Digest, CodeRecord>, nowMs: int): set<Digest> {
    set k | k in codes && nowMs < codes[k].expiresAtMs
  }

  predicate MintAnswer(codes: map<Digest, CodeRecord>, capacity: nat, nowMs: int, ttlMs: int,
      fingerprint: FingerprintText, result: Minted)
  {
    var inRange, room := MIN_TTL_MS <= ttlMs <= MAX_TTL_MS, |LiveCodes(codes, nowMs)| < capacity;
    && (result == InvalidTime <==> nowMs < 0)
    && (result == InvalidTtl <==> nowMs >= 0 && !inRange)
    && (result == InvalidFingerprint <==> nowMs >= 0 && inRange && fingerprint.Malformed?)
    && (result == CapacityReached <==> nowMs >= 0 && inRange && fingerprint.Spells? && !room)
    && (result.Minted? ==> result.expiresAtMs == nowMs + ttlMs)
  }

  predicate RedeemAnswer(codes: map<Digest, CodeRecord>, canonical: string, nowMs: int,
      fingerprint: Option<FingerprintText>, result: Redemption)
  {
    if canonical == "" || Sha256(canonical) !in codes then result == UnknownCode
    else
      var record := codes[Sha256(canonical)];
      var approved := fingerprint.Some? && fingerprint.value.Spells?
                      && record.expectedFingerprintHash == Sha256OfHex(fingerprint.value.fingerprint);
      && (result == FingerprintMismatch <==> !approved)
      && (result == ExpiredCode <==> approved && nowMs >= record.expiresAtMs)
      && (result == UsedCode <==> approved && nowMs < record.expiresAtMs && record.used)
      && (result == Redeemed <==> approved && nowMs < record.expiresAtMs && !record.used)
  }

  lemma MintAnswers(codes: map<Digest, CodeRecord>, capacity: nat, nowMs: int, ttlMs: int,
                    fingerprint: FingerprintText, canonical: string)
    ensures MintAnswer(codes, capacity, nowMs, ttlMs, fingerprint,
                       Issue(codes, capacity, nowMs, ttlMs, fingerprint, canonical).1)
  {
    assert Evict(codes, nowMs).Keys == LiveCodes(codes, nowMs);
  }

  lemma RedeemAnswers(codes: map<Digest, CodeRecord>, canonical: string, nowMs: int,
                      fingerprint: Option<FingerprintText>)
    ensures RedeemAnswer(codes, canonical, nowMs, fingerprint, Consume(codes, canonical, nowMs, fingerprint).1)
  {}

  /** A redeemed code stays, used; an expired one goes; any other answer changes nothing. */
  lemma RedeemingLeaves(codes: map<Digest, CodeRecord>, canonical: string, nowMs: int,
                        fingerprint: Option<FingerprintText>)
    ensures
      var (left, result) := Consume(codes, canonical, nowMs, fingerprint);
      var c := Sha256(canonical);
      && (result == Redeemed ==> c in codes && c in left && left[c].used && left[c] == codes[c].(used := true))
      && (result == ExpiredCode ==> c in codes && c !in left)
      && (result != Redeemed && result != ExpiredCode ==> left == codes)
  {}

  // ---------- from the mint to the redemption ----------

  /** What a minted code may still be: gone, used, or as it was minted. */
  predicate AsMinted(codes: map<Digest, CodeRecord>, c: Digest, expiresAtMs: int, approved: Digest) {
    c in codes ==> codes[c].used || codes[c] == CodeRecord(c, expiresAtMs, false, approved)
  }

  lemma {:induction false} StaysAsMinted(codes: map<Digest, CodeRecord>, capacity: nat, canonical: string,
                                         expiresAtMs: int, approved: Digest, ops: seq<Operation>)
    requires AsMinted(codes, Sha256(canonical), expiresAtMs, approved)
    requires forall i :: 0 <= i < |ops| ==> ops[i].IssueOp? ==> ops[i].canonical != canonical
    ensures AsMinted(Run(codes, capacity, ops), Sha256(canonical), expiresAtMs, approved)
    decreases ops
  {
    if ops != [] {
      assert ops[0].IssueOp? ==> ops[0].canonical != canonical;
      StaysAsMinted(Execute(codes, capacity, ops[0]), capacity, canonical, expiresAtMs, approved, ops[1..]);
    }
  }

  /** The code the operator is shown reads back as the one that was drawn and stored. */
  lemma ShownCodeIsStored(beyond: char -> string, codes: map<Digest, CodeRecord>, capacity: nat, nowMs: int, ttlMs: int,
                          fingerprint: FingerprintText, draw: seq<Byte>)
    requires |draw| == CODE_BYTES
    ensures
      var (issued, result) := Issue(codes, capacity, nowMs, ttlMs, fingerprint, Encoded(draw));
      result.Minted? ==>
        && Normalise(beyond, result.code) == Encoded(draw) && IsCode(Encoded(draw))
        && Sha256(Encoded(draw)) in issued && fingerprint.Spells?
        && issued[Sha256(Encoded(draw))]
           == CodeRecord(Sha256(Encoded(draw)), result.expiresAtMs, false, Sha256OfHex(fingerprint.fingerprint))
  {
    ShownCodeRoundTrip(beyond, draw, draw);
    EncodedIsCode(draw);
    MintedAs(codes, capacity, nowMs, ttlMs, fingerprint, Encoded(draw));
  }

  lemma EncodedIsCode(draw: seq<Byte>)
    requires |draw| == CODE_BYTES
    ensures IsCode(Encoded(draw))
  {
    CodeOfDraw(draw);
  }

  lemma MintedAs(codes: map<Digest, CodeRecord>, capacity: nat, nowMs: int, ttlMs: int, fingerprint: FingerprintText,
                 canonical: string)
    ensures
      var (issued, result) := Issue(codes, capacity, nowMs, ttlMs, fingerprint, canonical);
      var c := Sha256(canonical);
      result.Minted? ==>
        && result.code == Grouped(canonical) && fingerprint.Spells? && c in issued
        && issued[c] == CodeRecord(c, result.expiresAtMs, false, Sha256OfHex(fingerprint.fingerprint))
  {}

  /** Any retyping of the code shown at its mint redeems it, for the device it was minted for and no other, as long as
      it is held unused and has not expired, whatever else is minted and redeemed in between. */
  lemma MintedCodeRedeems(codes: map<Digest, CodeRecord>, capacity: nat, nowMs: int, ttlMs: int,
                          fingerprint: FingerprintText, draw: seq<Byte>, ops: seq<Operation>, beyond: char -> string,
                          text: string, laterMs: int, presented: Option<FingerprintText>)
    requires |draw| == CODE_BYTES && Issue(codes, capacity, nowMs, ttlMs, fingerprint, Encoded(draw)).1.Minted?
    requires forall i :: 0 <= i < |ops| ==> ops[i].IssueOp? ==> ops[i].canonical != Encoded(draw)
    requires
      var shown := Issue(codes, capacity, nowMs, ttlMs, fingerprint, Encoded(draw)).1.code;
      Retypes(beyond, text, Normalise(beyond, shown))
    ensures
      var (issued, minted) := Issue(codes, capacity, nowMs, ttlMs, fingerprint, Encoded(draw));
      var later, c := Run(issued, capacity, ops), Sha256(Encoded(draw));
      Consume(later, Normalise(beyond, text), laterMs, presented).1.Redeemed?
      <==> c in later && !later[c].used && laterMs < minted.expiresAtMs && presented == Some(fingerprint)
  {
    var (issued, minted) := Issue(codes, capacity, nowMs, ttlMs, fingerprint, Encoded(draw));
    var later := Run(issued, capacity, ops);
    ShownCodeIsStored(beyond, codes, capacity, nowMs, ttlMs, fingerprint, draw);
    NormaliseReadsRetypings(beyond, text, Encoded(draw));
    StaysAsMinted(issued, capacity, Encoded(draw), minted.expiresAtMs, Sha256OfHex(fingerprint.fingerprint), ops);
    RedeemAnswers(later, Normalise(beyond, text), laterMs, presented);
  }

  class EnrollmentStore {
    const maxCodes: nat
    var records: map<Digest, CodeRecord>

    ghost predicate Valid()
      reads this
    {
      Sound(records, maxCodes)
    }

    constructor (maxCodes: nat)
      requires maxCodes >= 1
      ensures Valid() && records == map[] && this.maxCodes == maxCodes
    {
      this.maxCodes := maxCodes;
      records := map[];
    }

    method EvictExpired(nowMs: int)
      modifies this`records
      ensures records == Evict(old(records), nowMs)
    {
      var keys := records.Keys;
      while keys != {}
        invariant keys <= records.Keys
        invariant records == EvictAmong(old(records), old(records).Keys - keys, nowMs)
      {
        var key :| key in keys;
        keys := keys - {key};
        if nowMs >= records[key].expiresAtMs { records := records - {key}; }
      }
    }

    /** `draw` is the 20 random bytes. */
    method IssueCode(nowMs: int, ttlMs: int, fingerprint: FingerprintText, draw: seq<Byte>) returns (result: Minted)
      requires Valid() && |draw| == CODE_BYTES
      modifies this`records
      ensures Valid()
      ensures (records, result) == Issue(old(records), maxCodes, nowMs, ttlMs, fingerprint, Encoded(draw))
      ensures MintAnswer(old(records), maxCodes, nowMs, ttlMs, fingerprint, result)
      ensures result.Minted? ==>
        && (forall beyond :: Normalise(beyond, result.code) == Encoded(draw))
        && Sha256(Encoded(draw)) in records && records[Sha256(Encoded(draw))].expiresAtMs == result.expiresAtMs
    {
      MintAnswers(records, maxCodes, nowMs, ttlMs, fingerprint, Encoded(draw));
      forall beyond ensures Normalise(beyond, Grouped(Encoded(draw))) == Encoded(draw) {
        ShownCodeRoundTrip(beyond, draw, draw);
      }
      IssueKeepsSound(records, maxCodes, nowMs, ttlMs, fingerprint, Encoded(draw));
      if nowMs < 0 { return InvalidTime; }
      if ttlMs < MIN_TTL_MS || ttlMs > MAX_TTL_MS { return InvalidTtl; }
      if fingerprint.Malformed? { return InvalidFingerprint; }
      var expectedFingerprintHash := Sha256OfHex(fingerprint.fingerprint);
      EvictExpired(nowMs);
      if |records| >= maxCodes { return CapacityReached; }
      var canonical := EncodeBase32(draw);
      var code := Group(canonical);
      var codeHash := Sha256(canonical);
      records := records[codeHash := CodeRecord(codeHash, nowMs + ttlMs, false, expectedFingerprintHash)];
      return Minted(code, nowMs + ttlMs);
    }

    method ConsumeCode(beyond: char -> string, code: string, nowMs: int, fingerprint: Option<FingerprintText>)
      returns (result: Redemption)
      requires Valid()
      modifies this`records
      ensures Valid()
      ensures (records, result) == Consume(old(records), Normalise(beyond, code), nowMs, fingerprint)
      ensures RedeemAnswer(old(records), Normalise(beyond, code), nowMs, fingerprint, result)
    {
      RedeemAnswers(records, Normalise(beyond, code), nowMs, fingerprint);
      var canonical := Normalise(beyond, code);
      ConsumeKeepsSound(records, maxCodes, canonical, nowMs, fingerprint);
      if canonical == "" { return UnknownCode; }
      if Sha256(canonical) !in records { return UnknownCode; }
      var record := records[Sha256(canonical)];
      if !Approved(record, fingerprint) { return FingerprintMismatch; }
      if nowMs >= record.expiresAtMs {
        records := records - {record.codeHash};
        return ExpiredCode;
      }
      if record.used { return UsedCode; }
      records := records[Sha256(canonical) := record.(used := true)];
      return Redeemed;
    }
  }
}
