/** The pairing rate limit (broker/src/server.ts:148-162): per-address windows that start at an
    admitted attempt, and what that bounds over whole runs. */
module RateLimit {
  import opened Terms

  datatype Window = Window(startedAtMs: int, count: nat)

  type Attempts = map<string, Window>

  datatype Attempt = Attempt(address: string, nowMs: int)

  function EvictAmong(attempts: Attempts, addresses: set<string>, nowMs: int, windowMs: int): Attempts {
    map a | a in attempts && !(a in addresses && nowMs - attempts[a].startedAtMs >= windowMs) :: attempts[a]
  }

  function Allow(attempts: Attempts, attempt: Attempt, max: nat, windowMs: int): (Attempts, bool) {
    var kept := EvictAmong(attempts, attempts.Keys, attempt.nowMs, windowMs);
    if attempt.address !in kept then (kept[attempt.address := Window(attempt.nowMs, 1)], true)
    else
      var window := kept[attempt.address];
      if window.count >= max then (kept, false)
      else (kept[attempt.address := window.(count := window.count + 1)], true)
  }

  function Run(attempts: Attempts, trace: seq<Attempt>, max: nat, windowMs: int): (r: (Attempts, seq<bool>))
    ensures |r.1| == |trace|
  {
    if trace == [] then (attempts, []) else
    var (earlier, verdicts) := Run(attempts, trace[..|trace| - 1], max, windowMs);
    var (later, verdict) := Allow(earlier, trace[|trace| - 1], max, windowMs);
    (later, verdicts + [verdict])
  }

  /** The admitted attempts of one address in a half-open interval of time. */
  function Admitted(trace: seq<Attempt>, verdicts: seq<bool>, address: string, from: int, until: int): nat
    requires |trace| == |verdicts|
  {
    if trace == [] then 0 else
    var n := |trace| - 1;
    Admitted(trace[..n], verdicts[..n], address, from, until)
      + if verdicts[n] && trace[n].address == address && from <= trace[n].nowMs < until then 1 else 0
  }

  ghost predicate ClockNeverRunsBack(trace: seq<Attempt>) {
    forall i, j :: 0 <= i <= j < |trace| ==> trace[i].nowMs <= trace[j].nowMs
  }

  /** `admitted` attempts of an address fall into [from, from + windowMs) when `nowMs` was the last time
      seen: a window begun before the interval puts at most max - 1 into it, for its own first attempt
      lies outside, and only one window can begin inside. */
  ghost predicate Bounded(attempts: Attempts, address: string, from: int, nowMs: int, admitted: nat, max: nat,
      windowMs: int) {
    && (nowMs < from ==> admitted == 0)
    && ( || (nowMs >= from + windowMs && admitted <= 2 * max - 1)
         || (address !in attempts && admitted <= max - 1)
         || (address in attempts && var window := attempts[address];
             && 1 <= window.count <= max && window.startedAtMs <= nowMs
             && admitted <= if window.startedAtMs < from then window.count - 1 else max - 1 + window.count))
  }

  lemma AllowKeepsBounded(attempts: Attempts, attempt: Attempt, address: string, from: int, nowMs: int,
                          admitted: nat, max: nat, windowMs: int)
    requires max >= 1 && windowMs >= 1 && nowMs <= attempt.nowMs
    requires Bounded(attempts, address, from, nowMs, admitted, max, windowMs)
    ensures
      var (later, verdict) := Allow(attempts, attempt, max, windowMs);
      var one := if verdict && attempt.address == address && from <= attempt.nowMs < from + windowMs then 1 else 0;
      Bounded(later, address, from, attempt.nowMs, admitted + one, max, windowMs)
  {}

  lemma RunAppend(trace: seq<Attempt>, attempt: Attempt, address: string, from: int, until: int, max: nat,
      windowMs: int)
    ensures
      var (attempts, verdicts) := Run(map[], trace, max, windowMs);
      var (later, verdict) := Allow(attempts, attempt, max, windowMs);
      && Run(map[], trace + [attempt], max, windowMs) == (later, verdicts + [verdict])
      && Admitted(trace + [attempt], verdicts + [verdict], address, from, until)
         == Admitted(trace, verdicts, address, from, until)
            + if verdict && attempt.address == address && from <= attempt.nowMs < until then 1 else 0
  {
    var (attempts, verdicts) := Run(map[], trace, max, windowMs);
    var verdict := Allow(attempts, attempt, max, windowMs).1;
    assert (trace + [attempt])[..|trace|] == trace;
    assert (verdicts + [verdict])[..|trace|] == verdicts;
  }

  lemma {:induction false} RunKeepsBounded(trace: seq<Attempt>, address: string, from: int, max: nat, windowMs: int)
    requires max >= 1 && windowMs >= 1 && trace != [] && ClockNeverRunsBack(trace)
    ensures
      var (attempts, verdicts) := Run(map[], trace, max, windowMs);
      Bounded(attempts, address, from, trace[|trace| - 1].nowMs,
              Admitted(trace, verdicts, address, from, from + windowMs), max, windowMs)
  {
    var n := |trace| - 1;
    var earlier := trace[..n];
    assert trace == earlier + [trace[n]];
    RunAppend(earlier, trace[n], address, from, from + windowMs, max, windowMs);
    var (attempts, verdicts) := Run(map[], earlier, max, windowMs);
    var before := Admitted(earlier, verdicts, address, from, from + windowMs);
    if n == 0 {
      AllowKeepsBounded(map[], trace[0], address, from,
        if trace[0].nowMs < from then trace[0].nowMs else from, 0, max, windowMs);
    } else {
      RunKeepsBounded(earlier, address, from, max, windowMs);
      AllowKeepsBounded(attempts, trace[n], address, from, trace[n - 1].nowMs, before, max, windowMs);
    }
  }

  /** Over any run with a clock that never runs back, any interval as long as the window holds at most
      2 * max - 1 admitted attempts of an address. */
  lemma AdmittedPerWindow(trace: seq<Attempt>, address: string, from: int, max: nat, windowMs: int)
    requires max >= 1 && windowMs >= 1 && ClockNeverRunsBack(trace)
    ensures Admitted(trace, Run(map[], trace, max, windowMs).1, address, from, from + windowMs) <= 2 * max - 1
  {
    if trace != [] { RunKeepsBounded(trace, address, from, max, windowMs); }
  }

  // ---------- the bound is met, and refusals are earned ----------

  function Repeat(attempt: Attempt, n: nat): seq<Attempt> {
    if n == 0 then [] else Repeat(attempt, n - 1) + [attempt]
  }

  /** After `trace` the address is in `window`, with `count` admitted attempts in the interval. */
  ghost predicate Reached(trace: seq<Attempt>, address: string, window: Window, from: int, until: int, count: nat,
      max: nat, windowMs: int) {
    var (attempts, verdicts) := Run(map[], trace, max, windowMs);
    && address in attempts && attempts[address] == window
    && Admitted(trace, verdicts, address, from, until) == count
  }

  lemma OneMore(trace: seq<Attempt>, attempt: Attempt, window: Window, from: int, until: int, count: nat, max: nat,
      windowMs: int)
    requires Reached(trace, attempt.address, window, from, until, count, max, windowMs)
    requires attempt.nowMs - window.startedAtMs >= windowMs || window.count < max
    ensures
      var next := if attempt.nowMs - window.startedAtMs >= windowMs then Window(attempt.nowMs, 1)
        else window.(count := window.count + 1);
      Reached(trace + [attempt], attempt.address, next, from, until,
              count + (if from <= attempt.nowMs < until then 1 else 0), max, windowMs)
  {
    RunAppend(trace, attempt, attempt.address, from, until, max, windowMs);
  }

  lemma {:induction false} ManyMore(trace: seq<Attempt>, attempt: Attempt, n: nat, window: Window, from: int,
      until: int, count: nat, max: nat, windowMs: int)
    requires Reached(trace, attempt.address, window, from, until, count, max, windowMs)
    requires attempt.nowMs - window.startedAtMs < windowMs && window.count + n <= max && from <= attempt.nowMs < until
    ensures Reached(trace + Repeat(attempt, n), attempt.address, window.(count := window.count + n),
      from, until, count + n, max, windowMs)
  {
    if n == 0 {
      assert trace + Repeat(attempt, n) == trace;
    } else {
      var earlier := trace + Repeat(attempt, n - 1);
      assert trace + Repeat(attempt, n) == earlier + [attempt];
      ManyMore(trace, attempt, n - 1, window, from, until, count, max, windowMs);
      OneMore(earlier, attempt, window.(count := window.count + n - 1), from, until, count + n - 1, max, windowMs);
    }
  }

  ghost function Burst(address: string, max: nat, windowMs: int): seq<Attempt>
    requires max >= 1
  {
    [Attempt(address, 0)] + Repeat(Attempt(address, windowMs - 1), max - 1)
      + [Attempt(address, windowMs)] + Repeat(Attempt(address, windowMs), max - 1)
  }

  /** The bound cannot be lowered: one attempt, the rest of its window just before it closes, then a
      whole fresh window. */
  lemma BoundIsMet(address: string, max: nat, windowMs: int)
    requires max >= 1 && windowMs >= 2
    ensures ClockNeverRunsBack(Burst(address, max, windowMs))
    ensures Reached(Burst(address, max, windowMs), address, Window(windowMs, max),
                    windowMs - 1, windowMs - 1 + windowMs, 2 * max - 1, max, windowMs)
  {
    var last := Attempt(address, windowMs);
    var from, until := windowMs - 1, windowMs - 1 + windowMs;
    BurstClock(address, max, windowMs);
    FirstWindow(Attempt(address, 0), Attempt(address, windowMs - 1), from, until, max, windowMs);
    var two := [Attempt(address, 0)] + Repeat(Attempt(address, windowMs - 1), max - 1);
    OneMore(two, last, Window(0, max), from, until, max - 1, max, windowMs);
    ManyMore(two + [last], last, max - 1, Window(windowMs, 1), from, until, max, max, windowMs);
  }

  /** A window opened before an interval and filled inside it puts one attempt less than it counts there. */
  lemma FirstWindow(first: Attempt, middle: Attempt, from: int, until: int, max: nat, windowMs: int)
    requires max >= 1 && first.address == middle.address && first.nowMs < from <= middle.nowMs < until
    requires middle.nowMs - first.nowMs < windowMs
    ensures Reached([first] + Repeat(middle, max - 1), first.address, Window(first.nowMs, max),
      from, until, max - 1, max, windowMs)
  {
    FirstAttempt(first, from, until, max, windowMs);
    ManyMore([first], middle, max - 1, Window(first.nowMs, 1), from, until, 0, max, windowMs);
  }

  lemma FirstAttempt(first: Attempt, from: int, until: int, max: nat, windowMs: int)
    requires first.nowMs < from
    ensures Reached([first], first.address, Window(first.nowMs, 1), from, until, 0, max, windowMs)
  {
    RunAppend([], first, first.address, from, until, max, windowMs);
    assert [] + [first] == [first];
  }

  lemma BurstClock(address: string, max: nat, windowMs: int)
    requires max >= 1 && windowMs >= 1
    ensures ClockNeverRunsBack(Burst(address, max, windowMs))
  {
    var trace := Burst(address, max, windowMs);
    RepeatIs(Attempt(address, windowMs - 1), max - 1);
    RepeatIs(Attempt(address, windowMs), max - 1);
    assert forall i :: 0 <= i < |trace| ==>
      trace[i].nowMs == if i == 0 then 0 else if i < max then windowMs - 1 else windowMs;
  }

  lemma {:induction false} RepeatIs(attempt: Attempt, n: nat)
    ensures |Repeat(attempt, n)| == n && forall i :: 0 <= i < n ==> Repeat(attempt, n)[i] == attempt
  {
    if n > 0 { RepeatIs(attempt, n - 1); }
  }

  /** A window counts no more than the attempts admitted since it began. */
  lemma {:induction false} WindowCounts(trace: seq<Attempt>, address: string, until: int, max: nat, windowMs: int)
    requires forall i :: 0 <= i < |trace| ==> trace[i].nowMs < until
    requires ClockNeverRunsBack(trace)
    ensures
      var (attempts, verdicts) := Run(map[], trace, max, windowMs);
      address in attempts ==>
        && attempts[address].count <= Admitted(trace, verdicts, address, attempts[address].startedAtMs, until)
        && attempts[address].startedAtMs <= trace[|trace| - 1].nowMs
  {
    if trace != [] {
      var n := |trace| - 1;
      var earlier := trace[..n];
      assert trace == earlier + [trace[n]];
      WindowCounts(earlier, address, until, max, windowMs);
      var after := Run(map[], trace, max, windowMs).0;
      if address in after {
        RunAppend(earlier, trace[n], address, after[address].startedAtMs, until, max, windowMs);
        var (attempts, verdicts) := Run(map[], earlier, max, windowMs);
        CountAfter(attempts, trace[n], address, after[address].startedAtMs, until, max, windowMs,
                   Admitted(earlier, verdicts, address, after[address].startedAtMs, until),
                   if n == 0 then trace[n].nowMs else trace[n - 1].nowMs);
      }
    }
  }

  /** One more attempt raises a window's count and the admitted attempts together. */
  lemma CountAfter(attempts: Attempts, attempt: Attempt, address: string, from: int, until: int, max: nat,
      windowMs: int,
                   admitted: nat, lastMs: int)
    requires attempt.nowMs < until && lastMs <= attempt.nowMs
    requires address in attempts && attempts[address].startedAtMs == from
      ==> attempts[address].count <= admitted && from <= lastMs
    requires address in attempts ==> attempts[address].startedAtMs <= lastMs
    requires var later := Allow(attempts, attempt, max, windowMs).0;
      address in later && later[address].startedAtMs == from
    ensures
      var (later, verdict) := Allow(attempts, attempt, max, windowMs);
      var one := if verdict && attempt.address == address && from <= attempt.nowMs < until then 1 else 0;
      later[address].count <= admitted + one && from <= attempt.nowMs
  {}

  lemma {:induction false} EarlierStartAdmitsMore(trace: seq<Attempt>, verdicts: seq<bool>, address: string, from: int,
      later: int, until: int)
    requires |trace| == |verdicts| && from <= later
    ensures Admitted(trace, verdicts, address, later, until) <= Admitted(trace, verdicts, address, from, until)
  {
    if trace != [] {
      EarlierStartAdmitsMore(trace[..|trace| - 1], verdicts[..|trace| - 1], address, from, later, until);
    }
  }

  /** An attempt is refused only after `max` attempts of that address were admitted less than a window ago. */
  lemma RefusalEarned(trace: seq<Attempt>, attempt: Attempt, max: nat, windowMs: int)
    requires ClockNeverRunsBack(trace + [attempt])
    requires !Run(map[], trace + [attempt], max, windowMs).1[|trace|]
    ensures Admitted(trace, Run(map[], trace, max, windowMs).1, attempt.address,
      attempt.nowMs - windowMs + 1, attempt.nowMs + 1) >= max
  {
    var all := trace + [attempt];
    assert forall i :: 0 <= i < |trace| ==> trace[i] == all[i];
    RunAppend(trace, attempt, attempt.address, 0, 0, max, windowMs);
    WindowCounts(trace, attempt.address, attempt.nowMs + 1, max, windowMs);
    var (attempts, verdicts) := Run(map[], trace, max, windowMs);
    EarlierStartAdmitsMore(trace, verdicts, attempt.address, attempt.nowMs - windowMs + 1,
                           attempts[attempt.address].startedAtMs, attempt.nowMs + 1);
  }

  // ---------- one address among others ----------

  /** The window of one address as if it were alone. */
  function Counted(window: Option<Window>, nowMs: int, max: nat, windowMs: int): (Option<Window>, bool) {
    if window.None? || nowMs - window.value.startedAtMs >= windowMs then (Some(Window(nowMs, 1)), true)
    else if window.value.count >= max then (window, false)
    else (Some(window.value.(count := window.value.count + 1)), true)
  }

  function Alone(trace: seq<Attempt>, address: string, max: nat, windowMs: int): Option<Window> {
    if trace == [] then None else
    var n := |trace| - 1;
    var before := Alone(trace[..n], address, max, windowMs);
    if trace[n].address == address then Counted(before, trace[n].nowMs, max, windowMs).0 else before
  }

  /** The shared map holds this window, or has dropped it because its time is over. */
  predicate HoldsWindow(attempts: Attempts, address: string, window: Option<Window>, nowMs: int, windowMs: int) {
    if address in attempts then window == Some(attempts[address])
    else window.None? || nowMs - window.value.startedAtMs >= windowMs
  }

  lemma AllowHoldsWindow(attempts: Attempts, attempt: Attempt, address: string, window: Option<Window>, lastMs: int,
                         max: nat, windowMs: int)
    requires HoldsWindow(attempts, address, window, lastMs, windowMs) && lastMs <= attempt.nowMs
    ensures
      var (later, verdict) := Allow(attempts, attempt, max, windowMs);
      var (next, alone) := Counted(window, attempt.nowMs, max, windowMs);
      if attempt.address == address
      then verdict == alone && HoldsWindow(later, address, next, attempt.nowMs, windowMs)
      else HoldsWindow(later, address, window, attempt.nowMs, windowMs)
  {}

  lemma {:induction false} RunHoldsWindow(trace: seq<Attempt>, address: string, nowMs: int, max: nat, windowMs: int)
    requires ClockNeverRunsBack(trace) && (trace != [] ==> trace[|trace| - 1].nowMs <= nowMs)
    ensures HoldsWindow(Run(map[], trace, max, windowMs).0, address, Alone(trace, address, max, windowMs), nowMs,
                        windowMs)
  {
    if trace != [] {
      var n := |trace| - 1;
      RunHoldsWindow(trace[..n], address, trace[n].nowMs, max, windowMs);
      AllowHoldsWindow(Run(map[], trace[..n], max, windowMs).0, trace[n], address,
                       Alone(trace[..n], address, max, windowMs), trace[n].nowMs, max, windowMs);
    }
  }

  /** On a clock that never runs back the attempts of other addresses decide nothing: an attempt is admitted exactly
      when it would be with its own address alone. */
  lemma OthersDoNotCount(trace: seq<Attempt>, attempt: Attempt, max: nat, windowMs: int)
    requires ClockNeverRunsBack(trace + [attempt])
    ensures Allow(Run(map[], trace, max, windowMs).0, attempt, max, windowMs).1
            == Counted(Alone(trace, attempt.address, max, windowMs), attempt.nowMs, max, windowMs).1
  {
    var all := trace + [attempt];
    forall i, j | 0 <= i <= j < |trace| ensures trace[i].nowMs <= trace[j].nowMs {
      assert all[i] == trace[i] && all[j] == trace[j];
    }
    if trace != [] { assert all[|trace| - 1] == trace[|trace| - 1] && all[|trace|] == attempt; }
    RunHoldsWindow(trace, attempt.address, attempt.nowMs, max, windowMs);
    AllowHoldsWindow(Run(map[], trace, max, windowMs).0, attempt, attempt.address,
                     Alone(trace, attempt.address, max, windowMs), attempt.nowMs, max, windowMs);
  }
}
