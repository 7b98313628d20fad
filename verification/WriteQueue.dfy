/** The settings write queue (src/settings-write-queue.ts): a chain of promises in which queued stale
    snapshots are dropped.

    Each call chains one job onto the promise of the job before it. A job's turn can come only once that
    promise has settled, either way; which jobs are enqueued, get their turn or settle at which moment is
    otherwise arbitrary. Revision r is job r - 1 of `jobs`. */
module WriteQueue {

  datatype Job = Waiting | Running | Skipped | Wrote | Failed {
    predicate Settled() { Skipped? || Wrote? || Failed? }
  }

  /** `executed` lists the revisions whose write was started, in order; `stored` is the last one that succeeded. */
  datatype Queue = Queue(latestRevision: nat, jobs: seq<Job>, executed: seq<nat>, stored: nat)

  const EMPTY := Queue(0, [], [], 0)

  /** `Turn(r)`: the predecessor of revision r has settled and r's continuation runs. */
  datatype Event = Enqueue | Turn(revision: nat) | Settle(revision: nat, ok: bool)

  predicate Enabled(q: Queue, e: Event) {
    match e
    case Enqueue => true
    case Turn(r) => 1 <= r <= |q.jobs| && q.jobs[r - 1].Waiting? && (r == 1 || q.jobs[r - 2].Settled())
    case Settle(r, _) => 1 <= r <= |q.jobs| && q.jobs[r - 1].Running?
  }

  function Apply(q: Queue, e: Event): Queue
    requires Enabled(q, e)
  {
    match e
    case Enqueue => q.(latestRevision := q.latestRevision + 1, jobs := q.jobs + [Waiting])
    case Turn(r) =>
      if r != q.latestRevision then q.(jobs := q.jobs[r - 1 := Skipped])
      else q.(jobs := q.jobs[r - 1 := Running], executed := q.executed + [r])
    case Settle(r, ok) =>
      if ok then q.(jobs := q.jobs[r - 1 := Wrote], stored := r) else q.(jobs := q.jobs[r - 1 := Failed])
  }

  /** The events can happen in this order. */
  predicate Possible(events: seq<Event>)
    decreases |events|, 0
  {
    events == [] ||
    var before := events[..|events| - 1];
    Possible(before) && Enabled(Run(before), events[|events| - 1])
  }

  function Run(events: seq<Event>): Queue
    requires Possible(events)
    decreases |events|, 1
  {
    if events == [] then EMPTY else Apply(Run(events[..|events| - 1]), events[|events| - 1])
  }

  predicate Idle(q: Queue) { forall i :: 0 <= i < |q.jobs| ==> q.jobs[i].Settled() }

  predicate Increasing(s: seq<nat>) { forall i, j :: 0 <= i < j < |s| ==> s[i] < s[j] }

  /** Jobs settle in order: nothing has started behind a job that has not settled. */
  predicate InOrder(q: Queue) {
    forall i, j :: 0 <= i < j < |q.jobs| && !q.jobs[i].Settled() ==> q.jobs[j].Waiting?
  }

  predicate Started(j: Job) { j.Running? || j.Wrote? || j.Failed? }

  predicate ExecutedAreStarted(q: Queue) {
    && (forall i :: 0 <= i < |q.executed| ==> 1 <= q.executed[i] <= |q.jobs| && Started(q.jobs[q.executed[i] - 1]))
    && (forall i :: 0 <= i < |q.jobs| && Started(q.jobs[i]) ==> i + 1 in q.executed)
  }

  /** The newest revision is never dropped, and it is the last one started as soon as it starts. */
  predicate NewestCounts(q: Queue) {
    q.jobs != [] ==>
      var newest := q.jobs[|q.jobs| - 1];
      && !newest.Skipped?
      && (Started(newest) ==> q.executed != [] && q.executed[|q.executed| - 1] == |q.jobs|)
      && (newest.Wrote? ==> q.stored == |q.jobs|)
  }

  predicate Inv(q: Queue) {
    && q.latestRevision == |q.jobs|
    && InOrder(q) && Increasing(q.executed) && ExecutedAreStarted(q) && NewestCounts(q)
  }

  lemma StepKeepsInv(q: Queue, e: Event)
    requires Inv(q) && Enabled(q, e)
    ensures Inv(Apply(q, e))
  {
    match e
    case Enqueue => EnqueueKeepsInv(q);
    case Turn(r) => if r == q.latestRevision { StartKeepsInv(q, r); } else { SkipKeepsInv(q, r); }
    case Settle(r, ok) => SettleKeepsInv(q, r, ok);
  }

  lemma EnqueueKeepsInv(q: Queue)
    requires Inv(q)
    ensures Inv(Apply(q, Enqueue))
  {
    var p := Apply(q, Enqueue);
    assert forall i :: 0 <= i < |q.jobs| ==> p.jobs[i] == q.jobs[i];
  }

  lemma StartKeepsInv(q: Queue, r: nat)
    requires Inv(q) && Enabled(q, Turn(r)) && r == q.latestRevision
    ensures Inv(Apply(q, Turn(r)))
  {
    StartKeepsIncreasing(q, r);
    StartKeepsExecuted(q, r);
  }

  lemma StartKeepsIncreasing(q: Queue, r: nat)
    requires Inv(q) && Enabled(q, Turn(r)) && r == q.latestRevision
    ensures Increasing(q.executed + [r])
  {
    forall i | 0 <= i < |q.executed| ensures q.executed[i] < r { assert q.executed[i] != r; }
  }

  lemma StartKeepsExecuted(q: Queue, r: nat)
    requires Inv(q) && Enabled(q, Turn(r)) && r == q.latestRevision
    ensures ExecutedAreStarted(Apply(q, Turn(r)))
  {
    var p := Apply(q, Turn(r));
    assert p.executed[|q.executed|] == r;
    forall i | 0 <= i < |p.jobs| && Started(p.jobs[i]) ensures i + 1 in p.executed {
      if i != r - 1 { assert i + 1 in q.executed; }
    }
  }

  lemma SkipKeepsInv(q: Queue, r: nat)
    requires Inv(q) && Enabled(q, Turn(r)) && r != q.latestRevision
    ensures Inv(Apply(q, Turn(r)))
  {
    forall i | 0 <= i < |q.executed| ensures q.executed[i] != r {}
  }

  lemma SettleKeepsInv(q: Queue, r: nat, ok: bool)
    requires Inv(q) && Enabled(q, Settle(r, ok))
    ensures Inv(Apply(q, Settle(r, ok)))
  {
    SettleKeepsOrder(q, r, ok);
    SettleKeepsExecuted(q, r, ok);
  }

  lemma SettleKeepsOrder(q: Queue, r: nat, ok: bool)
    requires Inv(q) && Enabled(q, Settle(r, ok))
    ensures InOrder(Apply(q, Settle(r, ok)))
  {}

  lemma SettleKeepsExecuted(q: Queue, r: nat, ok: bool)
    requires Inv(q) && Enabled(q, Settle(r, ok))
    ensures ExecutedAreStarted(Apply(q, Settle(r, ok)))
  {
    var p := Apply(q, Settle(r, ok));
    forall i | 0 <= i < |p.jobs| && Started(p.jobs[i]) ensures i + 1 in p.executed { assert Started(q.jobs[i]); }
  }

  lemma {:induction false} RunKeepsInv(events: seq<Event>)
    requires Possible(events)
    ensures Inv(Run(events))
  {
    if events != [] {
      RunKeepsInv(events[..|events| - 1]);
      StepKeepsInv(Run(events[..|events| - 1]), events[|events| - 1]);
    }
  }

  /** Writes never overlap, and they start in the order of their revisions. */
  lemma WritesAreSerial(events: seq<Event>)
    requires Possible(events)
    ensures Increasing(Run(events).executed)
    ensures var jobs := Run(events).jobs;
      forall i, j :: 0 <= i < j < |jobs| ==> !(jobs[i].Running? && jobs[j].Running?)
  {
    RunKeepsInv(events);
  }

  /** Whenever nothing is queued or running, the last write started is that of the newest snapshot, and if
      it succeeded that snapshot is what is stored. */
  lemma IdleMeansNewestWritten(events: seq<Event>)
    requires Possible(events) && Idle(Run(events)) && Run(events).jobs != []
    ensures var q := Run(events);
      && q.executed != [] && q.executed[|q.executed| - 1] == q.latestRevision == |q.jobs|
      && (q.jobs[|q.jobs| - 1].Wrote? ==> q.stored == q.latestRevision)
      && (q.jobs[|q.jobs| - 1].Wrote? || q.jobs[|q.jobs| - 1].Failed?)
  {
    RunKeepsInv(events);
  }

  /** A revision that was dropped had its turn at a moment when a newer one was already enqueued. */
  lemma {:induction false} DroppedOnlyForNewer(events: seq<Event>, r: nat) returns (k: nat)
    requires Possible(events) && 1 <= r <= |Run(events).jobs| && Run(events).jobs[r - 1].Skipped?
    ensures k < |events| && events[k] == Turn(r) && Possible(events[..k]) && r < |Run(events[..k]).jobs|
  {
    var n := |events| - 1;
    var before := events[..n];
    RunKeepsInv(before);
    if r <= |Run(before).jobs| && Run(before).jobs[r - 1].Skipped? {
      k := DroppedOnlyForNewer(before, r);
      assert before[..k] == events[..k];
    } else {
      k := n;
    }
  }

  /** A newest revision whose turn comes is written, not dropped. */
  lemma NewestIsWritten(events: seq<Event>, r: nat)
    requires Possible(events) && Enabled(Run(events), Turn(r)) && r == |Run(events).jobs|
    ensures Apply(Run(events), Turn(r)).jobs[r - 1].Running?
  {
    RunKeepsInv(events);
  }

  /** A revision is written exactly when it is the newest at its turn, and dropped otherwise. */
  lemma WrittenIffNewest(events: seq<Event>, r: nat)
    requires Possible(events) && Enabled(Run(events), Turn(r))
    ensures
      var q, after := Run(events), Apply(Run(events), Turn(r));
      && (r == |q.jobs| ==> after.jobs == q.jobs[r - 1 := Running] && after.executed == q.executed + [r])
      && (r < |q.jobs| ==> after.jobs == q.jobs[r - 1 := Skipped] && after.executed == q.executed)
  {
    RunKeepsInv(events);
  }

  /** The stored snapshot is that of the last write that succeeded, if any did. */
  predicate StoredIsLastWritten(q: Queue) {
    && q.stored <= |q.jobs| && (q.stored > 0 ==> q.jobs[q.stored - 1].Wrote?)
    && forall i :: q.stored <= i < |q.jobs| ==> !q.jobs[i].Wrote?
  }

  lemma {:induction false} LastWrittenIsStored(events: seq<Event>)
    requires Possible(events)
    ensures StoredIsLastWritten(Run(events))
  {
    if events != [] {
      var before := events[..|events| - 1];
      RunKeepsInv(before);
      LastWrittenIsStored(before);
      StepKeepsStored(Run(before), events[|events| - 1]);
    }
  }

  lemma StepKeepsStored(q: Queue, e: Event)
    requires Inv(q) && StoredIsLastWritten(q) && Enabled(q, e)
    ensures StoredIsLastWritten(Apply(q, e))
  {}

  /** The queue never sticks: while a job is unsettled, the first such job can run or settle. */
  lemma {:induction false} NeverStuck(q: Queue, r: nat) returns (e: Event)
    requires Inv(q) && 1 <= r <= |q.jobs| && !q.jobs[r - 1].Settled()
    ensures !e.Enqueue? && Enabled(q, e) && 1 <= e.revision <= r
  {
    if r > 1 && !q.jobs[r - 2].Settled() {
      e := NeverStuck(q, r - 1);
    } else {
      e := if q.jobs[r - 1].Running? then Settle(r, true) else Turn(r);
    }
  }

  // ---------- failures ----------

  function Forget(j: Job): Job { if j.Failed? then Wrote else j }

  /** The state without the knowledge of which writes succeeded. */
  predicate SameButOutcomes(p: Queue, q: Queue) {
    && p.latestRevision == q.latestRevision && p.executed == q.executed && |p.jobs| == |q.jobs|
    && forall i :: 0 <= i < |p.jobs| ==> Forget(p.jobs[i]) == Forget(q.jobs[i])
  }

  predicate SameButOutcome(d: Event, e: Event) {
    d == e || (d.Settle? && e.Settle? && d.revision == e.revision)
  }

  /** Whether a write fails changes nothing for the other jobs: the same events stay possible, the same
      revisions are started and dropped. */
  lemma {:induction false} FailuresStayAlone(xs: seq<Event>, ys: seq<Event>)
    requires |xs| == |ys| && Possible(xs) && forall i :: 0 <= i < |xs| ==> SameButOutcome(xs[i], ys[i])
    ensures Possible(ys) && SameButOutcomes(Run(xs), Run(ys))
  {
    if xs != [] {
      var n := |xs| - 1;
      FailuresStayAlone(xs[..n], ys[..n]);
      assert SameButOutcome(xs[n], ys[n]);
      StepStaysAlone(Run(xs[..n]), Run(ys[..n]), xs[n], ys[n]);
    }
  }

  lemma StepStaysAlone(p: Queue, q: Queue, d: Event, e: Event)
    requires SameButOutcomes(p, q) && SameButOutcome(d, e) && Enabled(p, d)
    ensures Enabled(q, e) && SameButOutcomes(Apply(p, d), Apply(q, e))
  {
    assert forall i :: 0 <= i < |p.jobs| ==> Forget(p.jobs[i]) == Forget(q.jobs[i]);
  }

  // ---------- the class ----------

  /** `jobs` holds the promises by revision, so `tail` is the promise of the last one. */
  class LatestWriteQueue {
    var latestRevision: nat
    var jobs: seq<Job>
    var executed: seq<nat>
    var stored: nat

    ghost function State(): Queue
      reads this
    {
      Queue(latestRevision, jobs, executed, stored)
    }

    constructor ()
      ensures State() == EMPTY
    {
      latestRevision, jobs, executed, stored := 0, [], [], 0;
    }

    method Chain() returns (revision: nat)
      modifies this
      ensures State() == Apply(old(State()), Enqueue) && revision == latestRevision
    {
      latestRevision := latestRevision + 1;
      revision := latestRevision;
      jobs := jobs + [Waiting];
    }

    /** The continuation of revision `revision`, up to its `await`. */
    method Continue(revision: nat) returns (started: bool)
      requires Enabled(State(), Turn(revision))
      modifies this
      ensures State() == Apply(old(State()), Turn(revision)) && (started <==> revision == old(latestRevision))
    {
      if revision != latestRevision {
        jobs := jobs[revision - 1 := Skipped];
        return false;
      }
      jobs := jobs[revision - 1 := Running];
      executed := executed + [revision];
      return true;
    }

    method Finish(revision: nat, ok: bool)
      requires Enabled(State(), Settle(revision, ok))
      modifies this
      ensures State() == Apply(old(State()), Settle(revision, ok))
    {
      jobs := jobs[revision - 1 := if ok then Wrote else Failed];
      if ok { stored := revision; }
    }
  }
}
