/** The client's lease manager (src/auth/lease-manager.ts): enrollments, renewals and `clear` interleaved.

    Each step is the code between two awaits. Replies come in any order and may fail in any way; a renewal's
    `finally` callback is a step of its own, after the renewal has settled. */
module LeaseManagers {
  import opened Terms

  datatype LeaseView = LeaseView(expiresAtMs: int, scope: string, allowedRootName: string)

  /** What an unsealed lease carries. */
  datatype Payload = Payload(accessToken: string, expiresAtMs: int, scope: string, allowedRootName: string)

  datatype Pair = Pair(pairId: string, expiresAtMs: int)

  /** A broker error that ends the pairing, or any other failure (other codes, transport, a lease not unsealed). */
  datatype Failure = RevokedOrExpired | OtherFailure

  /** `performRenewal` for the pairing it captured; `Settled` until its `finally` callback has run. */
  datatype Stage = AwaitingNonce | AwaitingLease | Settled | Finished
  datatype Exchange = Exchange(pairId: Option<string>, stage: Stage, session: nat) {
    predicate InFlight() { stage.AwaitingNonce? || stage.AwaitingLease? }
  }

  datatype Enrollment = Pairing | Claiming | ClaimExpired | Over

  /** The fields, and the promises still pending. `clears` counts calls of `clear`: a session lasts until the next. */
  datatype Manager = Manager(
    rootFolderName: string,
    pairId: Option<string>,
    consentPending: bool,
    pairExpiresAtMs: Option<int>,
    accessToken: Option<string>,
    accessTokenExpiresAtMs: int,
    lease: Option<LeaseView>,
    renewal: Option<nat>,
    exchanges: seq<Exchange>,
    enrollments: seq<Enrollment>,
    clears: nat)

  function Initial(rootFolderName: string, initialPairId: Option<string>): Manager {
    Manager(rootFolderName, initialPairId, false, None, None, 0, None, None, [], [], 0)
  }

  /** A JavaScript string that is neither missing nor empty. */
  predicate Truthy(text: Option<string>) { text.Some? && text.value != "" }

  function Cleared(m: Manager): Manager {
    m.(pairId := None, consentPending := false, pairExpiresAtMs := None, accessToken := None,
       accessTokenExpiresAtMs := 0, lease := None, renewal := None, clears := m.clears + 1)
  }

  predicate Applicable(m: Manager, payload: Payload) { payload.allowedRootName == m.rootFolderName }

  /** `applyLease` for a payload of the configured root. */
  function WithLease(m: Manager, payload: Payload): Manager {
    m.(accessToken := Some(payload.accessToken), accessTokenExpiresAtMs := payload.expiresAtMs,
       lease := Some(LeaseView(payload.expiresAtMs, payload.scope, payload.allowedRootName)),
       consentPending := false, pairExpiresAtMs := None)
  }

  function SetEnrollment(m: Manager, e: nat, to: Enrollment): Manager
    requires e < |m.enrollments|
  {
    m.(enrollments := m.enrollments[e := to])
  }

  function SetStage(m: Manager, x: nat, to: Stage): Manager
    requires x < |m.exchanges|
  {
    m.(exchanges := m.exchanges[x := m.exchanges[x].(stage := to)])
  }

  datatype Event =
    | StartEnroll
    | PairReply(e: nat, pair: Pair)
    | PairFails(e: nat)
    | ClaimExpires(e: nat)
    | ClaimReply(e: nat, payload: Payload)
    | EnrollAborts(e: nat)
    | Refresh
    | NonceReply(x: nat)
    | LeaseReply(x: nat, payload: Payload)
    | RenewalFails(x: nat, failure: Failure)
    | Finally(x: nat)
    | Clear

  predicate Enabled(m: Manager, ev: Event) {
    match ev
    case StartEnroll => true
    case PairReply(e, _) => e < |m.enrollments| && m.enrollments[e].Pairing?
    case PairFails(e) => e < |m.enrollments| && m.enrollments[e].Pairing?
    case ClaimExpires(e) => e < |m.enrollments| && m.enrollments[e].Claiming?
    case ClaimReply(e, _) => e < |m.enrollments| && m.enrollments[e].Claiming?
    case EnrollAborts(e) => e < |m.enrollments| && (m.enrollments[e].Claiming? || m.enrollments[e].ClaimExpired?)
    case Refresh => true
    case NonceReply(x) => x < |m.exchanges| && m.exchanges[x].stage.AwaitingNonce?
    case LeaseReply(x, _) => x < |m.exchanges| && m.exchanges[x].stage.AwaitingLease?
    case RenewalFails(x, _) => x < |m.exchanges| && m.exchanges[x].InFlight()
    case Finally(x) => x < |m.exchanges| && m.exchanges[x].stage.Settled?
    case Clear => true
  }

  function Apply(m: Manager, ev: Event): Manager
    requires Enabled(m, ev)
  {
    match ev
    case StartEnroll => m.(enrollments := m.enrollments + [Pairing])
    case PairReply(e, pair) =>
      SetEnrollment(m, e, Claiming).(pairId := Some(pair.pairId), consentPending := true,
        pairExpiresAtMs := Some(pair.expiresAtMs))
    case PairFails(e) => SetEnrollment(m, e, Over)
    case ClaimExpires(e) =>
      SetEnrollment(m, e, ClaimExpired).(pairId := None, consentPending := false, pairExpiresAtMs := None)
    case ClaimReply(e, payload) =>
      var over := SetEnrollment(m, e, Over);
      if Applicable(m, payload) then WithLease(over, payload) else Cleared(over)
    case EnrollAborts(e) => Cleared(SetEnrollment(m, e, Over))
    case Refresh =>
      if m.renewal.Some? then m
      else m.(renewal := Some(|m.exchanges|),
              exchanges := m.exchanges
                + [Exchange(m.pairId, if Truthy(m.pairId) then AwaitingNonce else Settled, m.clears)])
    case NonceReply(x) => SetStage(m, x, AwaitingLease)
    case LeaseReply(x, payload) =>
      var settled := SetStage(m, x, Settled);
      if Applicable(m, payload) then WithLease(settled, payload) else settled
    case RenewalFails(x, failure) =>
      var settled := SetStage(m, x, Settled);
      if failure.RevokedOrExpired? then Cleared(settled) else settled
    case Finally(x) => SetStage(m, x, Finished).(renewal := None)
    case Clear => Cleared(m)
  }

  predicate Possible(m: Manager, events: seq<Event>)
    decreases events
  {
    events == [] || (Enabled(m, events[0]) && Possible(Apply(m, events[0]), events[1..]))
  }

  function Run(m: Manager, events: seq<Event>): Manager
    requires Possible(m, events)
    decreases events
  {
    if events == [] then m else Run(Apply(m, events[0]), events[1..])
  }

  // ---------- what every interleaving keeps ----------

  /** A token is held exactly with a lease, the lease is for the configured root and shares the token's
      expiry, and consent is pending exactly while a pairing's expiry is known, which needs a pairing. */
  predicate Coherent(m: Manager) {
    && (m.accessToken.Some? <==> m.lease.Some?)
    && (m.lease.Some? ==>
      m.lease.value.allowedRootName == m.rootFolderName && m.accessTokenExpiresAtMs == m.lease.value.expiresAtMs)
    && (m.lease.None? ==> m.accessTokenExpiresAtMs == 0)
    && (m.consentPending <==> m.pairExpiresAtMs.Some?)
    && (m.consentPending ==> m.pairId.Some?)
  }

  predicate SlotLive(m: Manager) {
    m.renewal.Some? ==>
      m.renewal.value < |m.exchanges| && m.exchanges[m.renewal.value].session == m.clears
      && !m.exchanges[m.renewal.value].stage.Finished?
  }

  predicate SessionsPast(m: Manager) { forall x :: 0 <= x < |m.exchanges| ==> m.exchanges[x].session <= m.clears }

  predicate Inv(m: Manager) { Coherent(m) && SlotLive(m) && SessionsPast(m) }

  lemma StepKeepsInv(m: Manager, ev: Event)
    requires Inv(m) && Enabled(m, ev)
    ensures Inv(Apply(m, ev))
  {}

  lemma {:induction false} RunKeepsInv(m: Manager, events: seq<Event>)
    requires Inv(m) && Possible(m, events)
    ensures Inv(Run(m, events))
    decreases events
  {
    if events != [] {
      StepKeepsInv(m, events[0]);
      RunKeepsInv(Apply(m, events[0]), events[1..]);
    }
  }

  lemma EveryInterleavingIsCoherent(rootFolderName: string, initialPairId: Option<string>, events: seq<Event>)
    requires Possible(Initial(rootFolderName, initialPairId), events)
    ensures Coherent(Run(Initial(rootFolderName, initialPairId), events))
  {
    RunKeepsInv(Initial(rootFolderName, initialPairId), events);
  }

  // ---------- where the held values come from ----------

  /** What was last taken over since the last `clear`: the payload of a lease, and a pairing with its expiry. */
  datatype Source = Source(payload: Option<Payload>, pairId: Option<string>, pairExpiresAtMs: Option<int>)

  /** A lease of the configured root takes the payload over and ends the wait; one of another root that answers a
      claim, an abort, a revocation and `clear` drop everything; an expired claim drops the pairing. */
  function Next(root: string, s: Source, ev: Event): Source {
    match ev
    case PairReply(_, pair) => s.(pairId := Some(pair.pairId), pairExpiresAtMs := Some(pair.expiresAtMs))
    case ClaimExpires(_) => s.(pairId := None, pairExpiresAtMs := None)
    case ClaimReply(_, payload) =>
      if payload.allowedRootName == root then Source(Some(payload), s.pairId, None) else Source(None, None, None)
    case LeaseReply(_, payload) =>
      if payload.allowedRootName == root then Source(Some(payload), s.pairId, None) else s
    case RenewalFails(_, failure) => if failure.RevokedOrExpired? then Source(None, None, None) else s
    case EnrollAborts(_) => Source(None, None, None)
    case Clear => Source(None, None, None)
    case _ => s
  }

  function Sources(root: string, s: Source, events: seq<Event>): Source
    decreases events
  {
    if events == [] then s else Sources(root, Next(root, s, events[0]), events[1..])
  }

  /** Every held value is that of its source. */
  predicate From(m: Manager, s: Source) {
    && m.pairId == s.pairId && m.pairExpiresAtMs == s.pairExpiresAtMs
    && (m.consentPending <==> s.pairExpiresAtMs.Some?)
    && match s.payload
       case None => m.accessToken == None && m.accessTokenExpiresAtMs == 0 && m.lease == None
       case Some(payload) =>
         && m.accessToken == Some(payload.accessToken) && m.accessTokenExpiresAtMs == payload.expiresAtMs
         && m.lease == Some(LeaseView(payload.expiresAtMs, payload.scope, payload.allowedRootName))
  }

  lemma StepKeepsSources(m: Manager, s: Source, ev: Event)
    requires From(m, s) && Enabled(m, ev)
    ensures From(Apply(m, ev), Next(m.rootFolderName, s, ev)) && Apply(m, ev).rootFolderName == m.rootFolderName
  {}

  lemma {:induction false} RunKeepsSources(m: Manager, s: Source, events: seq<Event>)
    requires From(m, s) && Possible(m, events)
    ensures From(Run(m, events), Sources(m.rootFolderName, s, events))
    decreases events
  {
    if events != [] {
      StepKeepsSources(m, s, events[0]);
      RunKeepsSources(Apply(m, events[0]), Next(m.rootFolderName, s, events[0]), events[1..]);
    }
  }

  /** After every interleaving the held token, its expiry and the lease view are those of the lease last taken over
      since the last `clear`, and the pairing and its expiry those of the pairing last begun. */
  lemma HeldValuesComeFrom(rootFolderName: string, initialPairId: Option<string>, events: seq<Event>)
    requires Possible(Initial(rootFolderName, initialPairId), events)
    ensures From(Run(Initial(rootFolderName, initialPairId), events),
                 Sources(rootFolderName, Source(None, initialPairId, None), events))
  {
    RunKeepsSources(Initial(rootFolderName, initialPairId), Source(None, initialPairId, None), events);
  }

  /** A renewal asks for the pairing that was held when it began, whatever is held when it goes on. */
  lemma RenewalKeepsItsPairing(m: Manager, ev: Event, x: nat)
    requires Enabled(m, ev) && x < |Apply(m, ev).exchanges|
    ensures
      var exchange := Apply(m, ev).exchanges[x];
      if x < |m.exchanges|
      then exchange.pairId == m.exchanges[x].pairId && exchange.session == m.exchanges[x].session
      else ev.Refresh? && x == |m.exchanges| && exchange.pairId == m.pairId && exchange.session == m.clears
           && (exchange.InFlight() <==> Truthy(m.pairId))
  {}

  // ---------- a lease without a pairing ----------

  predicate LeaseHasPairing(m: Manager) { m.lease.Some? ==> m.pairId.Some? }

  /** The two steps that part a lease from its pairing: a lease arriving after the pairing was forgotten,
      and a claim expiring while a lease of an earlier pairing is held. */
  predicate Parts(m: Manager, ev: Event) {
    || (ev.LeaseReply? && Applicable(m, ev.payload) && m.pairId.None?)
    || (ev.ClaimReply? && Applicable(m, ev.payload) && m.pairId.None?)
    || (ev.ClaimExpires? && m.lease.Some?)
  }

  lemma LeaseKeepsPairingIff(m: Manager, ev: Event)
    requires LeaseHasPairing(m) && Enabled(m, ev)
    ensures LeaseHasPairing(Apply(m, ev)) <==> !Parts(m, ev)
  {}

  predicate AlwaysHasPairing(m: Manager, events: seq<Event>)
    requires Possible(m, events)
    decreases events
  {
    LeaseHasPairing(m) && (events != [] ==> AlwaysHasPairing(Apply(m, events[0]), events[1..]))
  }

  predicate NeverParts(m: Manager, events: seq<Event>)
    requires Possible(m, events)
    decreases events
  {
    events != [] ==> !Parts(m, events[0]) && NeverParts(Apply(m, events[0]), events[1..])
  }

  /** Over a whole run a held lease always has its pairing exactly when no such step occurs. */
  lemma {:induction false} AlwaysHasPairingIff(m: Manager, events: seq<Event>)
    requires LeaseHasPairing(m) && Possible(m, events)
    ensures AlwaysHasPairing(m, events) <==> NeverParts(m, events)
    decreases events
  {
    if events != [] {
      LeaseKeepsPairingIff(m, events[0]);
      if !Parts(m, events[0]) {
        AlwaysHasPairingIff(Apply(m, events[0]), events[1..]);
      } else {
        assert !AlwaysHasPairing(Apply(m, events[0]), events[1..]);
      }
    }
  }

  /** The events lead from one state to the other. */
  predicate Leads(from: Manager, events: seq<Event>, to: Manager) { Possible(from, events) && Run(from, events) == to }

  lemma OneBack(from: Manager, events: seq<Event>, k: nat, to: Manager)
    requires k < |events| && Enabled(from, events[k]) && Leads(Apply(from, events[k]), events[k + 1..], to)
    ensures Leads(from, events[k..], to)
  {
    assert events[k..][1..] == events[k + 1..];
  }

  /** A renewal answered after `clear` leaves a lease without a pairing. */
  lemma LateLease(payload: Payload)
    ensures var m := Initial(payload.allowedRootName, Some("p"));
      var events := [Refresh, NonceReply(0), Clear, LeaseReply(0, payload)];
      Possible(m, events) && Run(m, events).lease.Some? && Run(m, events).pairId.None?
  {
    var m := Initial(payload.allowedRootName, Some("p"));
    var events := [Refresh, NonceReply(0), Clear, LeaseReply(0, payload)];
    var a := Apply(m, Refresh);
    var b := Apply(a, NonceReply(0));
    var c := Apply(b, Clear);
    var d := Apply(c, LeaseReply(0, payload));
    OneBack(c, events, 3, d); OneBack(b, events, 2, d); OneBack(a, events, 1, d); OneBack(m, events, 0, d);
    assert events[0..] == events;
  }

  /** A claim that expires while an earlier lease is held leaves that lease without a pairing. */
  lemma ExpiredClaimKeepsLease(payload: Payload, pair: Pair)
    ensures var m := Initial(payload.allowedRootName, Some("p"));
      var events := [Refresh, NonceReply(0), LeaseReply(0, payload), StartEnroll, PairReply(0, pair), ClaimExpires(0)];
      Possible(m, events) && Run(m, events).lease.Some? && Run(m, events).pairId.None?
  {
    var m := Initial(payload.allowedRootName, Some("p"));
    var events := [Refresh, NonceReply(0), LeaseReply(0, payload), StartEnroll, PairReply(0, pair), ClaimExpires(0)];
    var b := Apply(Apply(m, Refresh), NonceReply(0));
    var c := Apply(b, LeaseReply(0, payload));
    var last := ThenClaimExpires(c, events, pair);
    OneBack(b, events, 2, last); OneBack(Apply(m, Refresh), events, 1, last); OneBack(m, events, 0, last);
    assert events[0..] == events;
  }

  lemma ThenClaimExpires(m: Manager, events: seq<Event>, pair: Pair) returns (last: Manager)
    requires |events| == 6 && events[3] == StartEnroll && events[4] == PairReply(0, pair)
      && events[5] == ClaimExpires(0)
    requires m.enrollments == [] && m.lease.Some?
    ensures Leads(m, events[3..], last) && last.lease.Some? && last.pairId.None?
  {
    var started := Apply(m, StartEnroll);
    var claiming := Apply(started, PairReply(0, pair));
    last := Apply(claiming, ClaimExpires(0));
    OneBack(claiming, events, 5, last); OneBack(started, events, 4, last); OneBack(m, events, 3, last);
  }

  // ---------- sharing one exchange ----------

  /** No two exchanges of the present session are in flight. */
  predicate Shared(m: Manager) {
    forall x, y :: 0 <= x < y < |m.exchanges| && m.exchanges[x].InFlight() && m.exchanges[y].InFlight()
      ==> m.exchanges[x].session != m.clears || m.exchanges[y].session != m.clears
  }

  /** Every exchange whose `finally` is still to come is the one in the slot. */
  predicate NoneStale(m: Manager) {
    forall x :: 0 <= x < |m.exchanges| && !m.exchanges[x].stage.Finished? ==> m.renewal == Some(x)
  }

  /** The events happen from here and none of them calls `clear`. */
  predicate WithinSession(m: Manager, events: seq<Event>) { Possible(m, events) && Run(m, events).clears == m.clears }

  lemma {:induction false} ClearsOnlyGrow(m: Manager, events: seq<Event>)
    requires Possible(m, events)
    ensures m.clears <= Run(m, events).clears
    decreases events
  {
    if events != [] { ClearsOnlyGrow(Apply(m, events[0]), events[1..]); }
  }

  lemma {:induction false} StaysShared(m: Manager, events: seq<Event>)
    requires Inv(m) && NoneStale(m) && WithinSession(m, events)
    ensures Shared(Run(m, events)) && NoneStale(Run(m, events))
    decreases events
  {
    if events != [] {
      var next := Apply(m, events[0]);
      StepKeepsInv(m, events[0]);
      ClearsOnlyGrow(next, events[1..]);
      StepStaysUnstale(m, events[0]);
      StaysShared(next, events[1..]);
    }
  }

  lemma StepStaysUnstale(m: Manager, ev: Event)
    requires Inv(m) && NoneStale(m) && Enabled(m, ev) && Apply(m, ev).clears == m.clears
    ensures NoneStale(Apply(m, ev))
  {}

  lemma RunOne(m: Manager, ev: Event, rest: seq<Event>)
    requires Enabled(m, ev) && Possible(Apply(m, ev), rest)
    ensures Possible(m, [ev] + rest) && Run(m, [ev] + rest) == Run(Apply(m, ev), rest)
  {
    assert ([ev] + rest)[1..] == rest;
  }

  lemma Prepend(m: Manager, ev: Event, rest: seq<Event>) returns (events: seq<Event>)
    requires Enabled(m, ev) && Apply(m, ev).clears == m.clears
    requires WithinSession(Apply(m, ev), rest) && !Shared(Run(Apply(m, ev), rest))
    ensures WithinSession(m, events) && !Shared(Run(m, events))
  {
    events := [ev] + rest;
    RunOne(m, ev, rest);
  }

  predicate Unfinished(m: Manager, x: nat) { x < |m.exchanges| && !m.exchanges[x].stage.Finished? }

  predicate Current(m: Manager, x: nat) {
    x < |m.exchanges| && m.exchanges[x].InFlight() && m.exchanges[x].session == m.clears
  }

  /** With the slot empty while an exchange of this session is in flight, the next caller starts another. */
  lemma SecondExchange(m: Manager, y: nat) returns (events: seq<Event>)
    requires Truthy(m.pairId) && m.renewal.None? && Current(m, y)
    ensures WithinSession(m, events) && !Shared(Run(m, events))
  {
    var next := Apply(m, Refresh);
    events := [Refresh];
    RunOne(m, Refresh, []);
    assert Current(next, y) && Current(next, |m.exchanges|);
  }

  /** The `finally` callback of one exchange empties the slot that another one holds. */
  lemma StaleFinally(m: Manager, x: nat, y: nat) returns (events: seq<Event>)
    requires Truthy(m.pairId) && Unfinished(m, x) && Current(m, y) && x != y
    ensures WithinSession(m, events) && !Shared(Run(m, events))
    decreases if m.exchanges[x].InFlight() then 1 else 0
  {
    if m.exchanges[x].InFlight() {
      var ev := RenewalFails(x, OtherFailure);
      var rest := StaleFinally(Apply(m, ev), x, y);
      events := Prepend(m, ev, rest);
    } else {
      var rest := SecondExchange(Apply(m, Finally(x)), y);
      events := Prepend(m, Finally(x), rest);
    }
  }

  lemma StaleUnshares(m: Manager, x: nat) returns (events: seq<Event>)
    requires Truthy(m.pairId) && SlotLive(m) && Unfinished(m, x) && m.renewal != Some(x)
    ensures WithinSession(m, events) && !Shared(Run(m, events))
    decreases if m.renewal.Some? && m.exchanges[m.renewal.value].stage.Settled? then 1 else 0
  {
    if m.renewal.None? {
      var rest := StaleFinally(Apply(m, Refresh), x, |m.exchanges|);
      events := Prepend(m, Refresh, rest);
    } else if m.exchanges[m.renewal.value].stage.Settled? {
      var ev := Finally(m.renewal.value);
      var rest := StaleUnshares(Apply(m, ev), x);
      events := Prepend(m, ev, rest);
    } else {
      events := StaleFinally(m, x, m.renewal.value);
    }
  }

  lemma Unsharing(m: Manager, x: nat) returns (events: seq<Event>)
    requires Inv(m) && Unfinished(m, x) && m.renewal != Some(x)
    ensures WithinSession(m, events) && !Shared(Run(m, events))
  {
    var pairing := PairReply(|m.enrollments|, Pair("p", 0));
    var started := Apply(m, StartEnroll);
    var rest := StaleUnshares(Apply(started, pairing), x);
    rest := Prepend(started, pairing, rest);
    events := Prepend(m, StartEnroll, rest);
  }

  ghost predicate AlwaysShared(m: Manager) { forall events :: WithinSession(m, events) ==> Shared(Run(m, events)) }

  /** Until the next `clear` all overlapping callers share one exchange exactly when no exchange begun
      before, outside the slot, is still to run its `finally` callback. */
  lemma AlwaysSharedIff(m: Manager)
    requires Inv(m)
    ensures AlwaysShared(m) <==> NoneStale(m)
  {
    if NoneStale(m) {
      forall events | WithinSession(m, events) ensures Shared(Run(m, events)) { StaysShared(m, events); }
    } else {
      var x :| 0 <= x < |m.exchanges| && !m.exchanges[x].stage.Finished? && m.renewal != Some(x);
      var events := Unsharing(m, x);
    }
  }

  /** A stale exchange does arise: a renewal in flight when `clear` is called outlives it, and the run goes on
      to two exchanges of the new session in flight together. */
  lemma StaleExchangeHappens(rootFolderName: string)
    ensures var m := Initial(rootFolderName, Some("p"));
      var events := [Refresh, Clear, StartEnroll, PairReply(0, Pair("q", 5)), Refresh,
                     RenewalFails(0, OtherFailure), Finally(0), Refresh];
      Possible(m, events) && !NoneStale(Run(m, events[..2])) && !Shared(Run(m, events))
  {
    var m := Initial(rootFolderName, Some("p"));
    var events := [Refresh, Clear, StartEnroll, PairReply(0, Pair("q", 5)), Refresh,
                   RenewalFails(0, OtherFailure), Finally(0), Refresh];
    var paired := Apply(Apply(Apply(Apply(m, Refresh), Clear), StartEnroll), PairReply(0, Pair("q", 5)));
    var last := FromPaired(paired, events);
    ToPaired(m, events, last);
    assert events[0..] == events;
    StaleAfterClear(m, events[..2]);
  }

  lemma StaleAfterClear(m: Manager, events: seq<Event>)
    requires m.renewal.None? && m.exchanges == [] && events == [Refresh, Clear]
    ensures Possible(m, events) && !NoneStale(Run(m, events))
  {
    var cleared := Apply(Apply(m, Refresh), Clear);
    OneBack(Apply(m, Refresh), events, 1, cleared);
    OneBack(m, events, 0, cleared);
    assert events[0..] == events && cleared.renewal.None? && !cleared.exchanges[0].stage.Finished?;
  }

  lemma FromPaired(m: Manager, events: seq<Event>) returns (last: Manager)
    requires |events| == 8 && events[4..] == [Refresh, RenewalFails(0, OtherFailure), Finally(0), Refresh]
    requires |m.exchanges| == 1 && m.exchanges[0].InFlight() && m.exchanges[0].session < m.clears
    requires Truthy(m.pairId) && m.renewal.None?
    ensures Leads(m, events[4..], last) && !Shared(last)
  {
    var rest := events[4..];
    var a := Apply(m, rest[0]);
    var b := Apply(a, rest[1]);
    var c := Apply(b, rest[2]);
    last := Apply(c, rest[3]);
    OneBack(c, rest, 3, last); OneBack(b, rest, 2, last); OneBack(a, rest, 1, last); OneBack(m, rest, 0, last);
    assert rest[0..] == rest && Current(last, 1) && Current(last, 2);
  }

  lemma ToPaired(m: Manager, events: seq<Event>, last: Manager)
    requires |events| == 8 && m.renewal.None? && m.exchanges == [] && m.enrollments == []
    requires events[..4] == [Refresh, Clear, StartEnroll, PairReply(0, Pair("q", 5))]
    requires Leads(Apply(Apply(Apply(Apply(m, Refresh), Clear), StartEnroll), PairReply(0, Pair("q", 5))),
                   events[4..], last)
    ensures Leads(m, events[0..], last)
  {
    assert events[0] == events[..4][0] && events[1] == events[..4][1] && events[2] == events[..4][2]
      && events[3] == events[..4][3];
    var a := Apply(m, Refresh);
    var b := Apply(a, Clear);
    var c := Apply(b, StartEnroll);
    OneBack(c, events, 3, last); OneBack(b, events, 2, last); OneBack(a, events, 1, last); OneBack(m, events, 0, last);
  }

  /** Without any `clear` all callers share: every overlapping call joins the exchange in flight. */
  lemma SharedUntilFirstClear(rootFolderName: string, initialPairId: Option<string>, events: seq<Event>)
    requires WithinSession(Initial(rootFolderName, initialPairId), events)
    ensures Shared(Run(Initial(rootFolderName, initialPairId), events))
  {
    StaysShared(Initial(rootFolderName, initialPairId), events);
  }

  /** A caller that finds an exchange of its session in flight joins it, if none is stale. */
  lemma OverlappingCallsJoin(m: Manager, x: nat)
    requires NoneStale(m) && Current(m, x)
    ensures Apply(m, Refresh) == m && m.renewal == Some(x)
  {}

  // ---------- what is reported ----------

  datatype Status = NotEnrolled | AwaitingConsent | Enrolled

  function StatusOf(m: Manager): Status {
    if m.lease.Some? then Enrolled else if m.consentPending then AwaitingConsent
    else if Truthy(m.pairId) then Enrolled else NotEnrolled
  }

  function ExpiryOf(m: Manager): Option<int> {
    if m.lease.Some? then Some(m.lease.value.expiresAtMs) else if m.consentPending then m.pairExpiresAtMs else None
  }

  /** Consent is reported as awaited exactly while it is pending and no lease is held; what is awaited has an
      expiry and a pairing, and a device that is not enrolled reports no expiry. */
  lemma ReportIsCoherent(m: Manager)
    requires Coherent(m)
    ensures StatusOf(m).AwaitingConsent? <==> m.consentPending && m.lease.None?
    ensures StatusOf(m).AwaitingConsent? ==> ExpiryOf(m) == m.pairExpiresAtMs && ExpiryOf(m).Some? && m.pairId.Some?
    ensures StatusOf(m).NotEnrolled? ==> ExpiryOf(m).None? && m.accessToken.None?
    ensures StatusOf(m).Enrolled? <==> m.lease.Some? || (!m.consentPending && Truthy(m.pairId))
    ensures m.lease.Some? ==> ExpiryOf(m) == Some(m.accessTokenExpiresAtMs)
  {}

  // ---------- consent while the newest enrollment waits for it ----------

  predicate NewestClaims(m: Manager) { m.enrollments != [] && m.enrollments[|m.enrollments| - 1].Claiming? }

  /** While the newest enrollment polls for its claim, consent is pending: without a lease it is reported as awaited. */
  predicate WaitIsPending(m: Manager) { NewestClaims(m) ==> m.consentPending }

  /** The steps that end the wait of the newest enrollment although it still polls: a `clear`, whoever calls it,
      a renewed lease, and the end of an earlier enrollment. */
  predicate CutsShort(m: Manager, ev: Event) {
    NewestClaims(m) &&
    match ev
    case Clear => true
    case RenewalFails(_, failure) => failure.RevokedOrExpired?
    case LeaseReply(_, payload) => Applicable(m, payload)
    case ClaimReply(e, _) => e != |m.enrollments| - 1
    case ClaimExpires(e) => e != |m.enrollments| - 1
    case EnrollAborts(e) => e != |m.enrollments| - 1
    case _ => false
  }

  lemma WaitStaysPendingIff(m: Manager, ev: Event)
    requires WaitIsPending(m) && Enabled(m, ev)
    ensures WaitIsPending(Apply(m, ev)) <==> !CutsShort(m, ev)
  {}

  predicate WaitAlwaysPending(m: Manager, events: seq<Event>)
    requires Possible(m, events)
    decreases events
  {
    WaitIsPending(m) && (events != [] ==> WaitAlwaysPending(Apply(m, events[0]), events[1..]))
  }

  predicate NeverCutShort(m: Manager, events: seq<Event>)
    requires Possible(m, events)
    decreases events
  {
    events != [] ==> !CutsShort(m, events[0]) && NeverCutShort(Apply(m, events[0]), events[1..])
  }

  /** Over a whole run consent is pending whenever the newest enrollment polls exactly when no step cuts that short. */
  lemma {:induction false} WaitAlwaysPendingIff(m: Manager, events: seq<Event>)
    requires WaitIsPending(m) && Possible(m, events)
    ensures WaitAlwaysPending(m, events) <==> NeverCutShort(m, events)
    decreases events
  {
    if events != [] {
      WaitStaysPendingIff(m, events[0]);
      if !CutsShort(m, events[0]) {
        WaitAlwaysPendingIff(Apply(m, events[0]), events[1..]);
      } else {
        assert !WaitAlwaysPending(Apply(m, events[0]), events[1..]);
      }
    }
  }

  /** A renewal of the old pairing answered while a new one still waits for consent reports the device as enrolled. */
  lemma WaitCutShort(payload: Payload, pair: Pair)
    ensures var m := Initial(payload.allowedRootName, Some("p"));
      var events := [Refresh, NonceReply(0), StartEnroll, PairReply(0, pair), LeaseReply(0, payload)];
      && Possible(m, events) && NewestClaims(Run(m, events)) && !Run(m, events).consentPending
      && StatusOf(Run(m, events)).Enrolled?
  {
    var m := Initial(payload.allowedRootName, Some("p"));
    var events := [Refresh, NonceReply(0), StartEnroll, PairReply(0, pair), LeaseReply(0, payload)];
    var a := Apply(m, Refresh);
    var b := Apply(a, NonceReply(0));
    var c := Apply(b, StartEnroll);
    var d := Apply(c, PairReply(0, pair));
    var last := Apply(d, LeaseReply(0, payload));
    OneBack(d, events, 4, last); OneBack(c, events, 3, last); OneBack(b, events, 2, last);
    OneBack(a, events, 1, last); OneBack(m, events, 0, last);
    assert events[0..] == events;
  }

  // ---------- the class ----------

  class LeaseManager {
    const rootFolderName: string
    const renewalLeadMs: int
    var pairId: Option<string>
    var consentPending: bool
    var pairExpiresAtMs: Option<int>
    var accessToken: Option<string>
    var accessTokenExpiresAtMs: int
    var lease: Option<LeaseView>
    var renewal: Option<nat>
    /** Promises not yet settled, and how often `clear` was called. */
    var exchanges: seq<Exchange>
    var enrollments: seq<Enrollment>
    var clears: nat

    ghost function State(): Manager
      reads this
    {
      Manager(rootFolderName, pairId, consentPending, pairExpiresAtMs, accessToken, accessTokenExpiresAtMs, lease,
        renewal, exchanges, enrollments, clears)
    }

    constructor (root: string, lead: int, initialPairId: Option<string>)
      ensures State() == Initial(root, initialPairId) && renewalLeadMs == lead
    {
      rootFolderName, renewalLeadMs, pairId := root, lead, initialPairId;
      consentPending, pairExpiresAtMs, accessToken, accessTokenExpiresAtMs := false, None, None, 0;
      lease, renewal, exchanges, enrollments, clears := None, None, [], [], 0;
    }

    method ClearAll()
      modifies this
      ensures State() == Apply(old(State()), Clear)
    {
      pairId, consentPending, pairExpiresAtMs := None, false, None;
      accessToken, accessTokenExpiresAtMs, lease, renewal := None, 0, None, None;
      clears := clears + 1;
    }

    method ApplyLease(payload: Payload) returns (ok: bool)
      modifies this
      ensures ok <==> payload.allowedRootName == rootFolderName
      ensures State() == if ok then WithLease(old(State()), payload) else old(State())
      ensures ok ==>
        && accessToken == Some(payload.accessToken) && accessTokenExpiresAtMs == payload.expiresAtMs
        && lease == Some(LeaseView(payload.expiresAtMs, payload.scope, payload.allowedRootName))
        && !consentPending && pairExpiresAtMs == None && pairId == old(pairId)
    {
      if payload.allowedRootName != rootFolderName { return false; }
      accessToken := Some(payload.accessToken);
      accessTokenExpiresAtMs := payload.expiresAtMs;
      lease := Some(LeaseView(payload.expiresAtMs, payload.scope, payload.allowedRootName));
      consentPending, pairExpiresAtMs := false, None;
      return true;
    }

    method BeginEnroll() returns (e: nat)
      modifies this
      ensures State() == Apply(old(State()), StartEnroll) && e == |old(enrollments)|
    {
      e := |enrollments|;
      enrollments := enrollments + [Pairing];
    }

    method Paired(e: nat, pair: Pair)
      requires Enabled(State(), PairReply(e, pair))
      modifies this
      ensures State() == Apply(old(State()), PairReply(e, pair))
    {
      pairId, consentPending, pairExpiresAtMs := Some(pair.pairId), true, Some(pair.expiresAtMs);
      enrollments := enrollments[e := Claiming];
    }

    method GiveUpClaiming(e: nat)
      requires Enabled(State(), ClaimExpires(e))
      modifies this
      ensures State() == Apply(old(State()), ClaimExpires(e))
    {
      pairId, consentPending, pairExpiresAtMs := None, false, None;
      enrollments := enrollments[e := ClaimExpired];
    }

    /** The end of the `try` block in `enroll`, or its `catch`. */
    method Claimed(e: nat, payload: Payload) returns (ok: bool)
      requires Enabled(State(), ClaimReply(e, payload))
      modifies this
      ensures State() == Apply(old(State()), ClaimReply(e, payload))
      ensures ok <==> payload.allowedRootName == rootFolderName
    {
      enrollments := enrollments[e := Over];
      ok := ApplyLease(payload);
      if !ok { ClearAll(); }
    }

    method AbortEnroll(e: nat)
      requires Enabled(State(), EnrollAborts(e))
      modifies this
      ensures State() == Apply(old(State()), EnrollAborts(e))
    {
      enrollments := enrollments[e := Over];
      ClearAll();
    }

    method RefreshLease() returns (promise: nat)
      modifies this
      ensures State() == Apply(old(State()), Refresh) && renewal == Some(promise)
    {
      if renewal.Some? { return renewal.value; }
      promise := |exchanges|;
      exchanges := exchanges + [Exchange(pairId, if Truthy(pairId) then AwaitingNonce else Settled, clears)];
      renewal := Some(promise);
    }

    method NonceArrived(x: nat)
      requires Enabled(State(), NonceReply(x))
      modifies this
      ensures State() == Apply(old(State()), NonceReply(x))
    {
      exchanges := exchanges[x := exchanges[x].(stage := AwaitingLease)];
    }

    method LeaseArrived(x: nat, payload: Payload) returns (ok: bool)
      requires Enabled(State(), LeaseReply(x, payload))
      modifies this
      ensures State() == Apply(old(State()), LeaseReply(x, payload))
      ensures ok <==> payload.allowedRootName == rootFolderName
    {
      exchanges := exchanges[x := exchanges[x].(stage := Settled)];
      ok := ApplyLease(payload);
    }

    method RenewalFailed(x: nat, failure: Failure)
      requires Enabled(State(), RenewalFails(x, failure))
      modifies this
      ensures State() == Apply(old(State()), RenewalFails(x, failure))
    {
      exchanges := exchanges[x := exchanges[x].(stage := Settled)];
      if failure.RevokedOrExpired? { ClearAll(); }
    }

    method RenewalFinally(x: nat)
      requires Enabled(State(), Finally(x))
      modifies this
      ensures State() == Apply(old(State()), Finally(x))
    {
      exchanges := exchanges[x := exchanges[x].(stage := Finished)];
      renewal := None;
    }

    /** `getValidAccessToken` up to its await. A token handed out here belongs to a held lease on the
        configured root that outlasts the lead time; `refresh` tells that a renewal has to be awaited first. */
    method HeldToken(now: int) returns (token: Option<string>, refresh: bool)
      ensures refresh <==> Truthy(pairId) && token.None?
      ensures token.Some? ==> Truthy(pairId) && token == accessToken
      ensures Coherent(State()) && token.Some? ==>
        lease.Some? && lease.value.allowedRootName == rootFolderName && now + renewalLeadMs < lease.value.expiresAtMs
      ensures Coherent(State()) && token.None? && Truthy(pairId) && Truthy(accessToken) ==>
        lease.value.expiresAtMs <= now + renewalLeadMs
    {
      if !Truthy(pairId) { return None, false; }
      if Truthy(accessToken) && lease.Some? && now < accessTokenExpiresAtMs - renewalLeadMs {
        return accessToken, false;
      }
      return None, true;
    }
  }
}
