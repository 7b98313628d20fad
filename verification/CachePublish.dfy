/** Concurrent publishing of downloaded files (src/core/atomic-cache-write.ts): every publisher is cut
    at its awaits, and any number of them interleave over one file map with an unreliable adapter. */
module CachePublish {

  type Bytes = seq<int>

  // ---------- temporary names ----------

  function Digit36(d: int): char
    requires 0 <= d < 36
  {
    (if d < 10 then 48 + d else 87 + d) as char
  }

  /** `toString(36)` */
  function Base36(n: nat): string {
    if n < 36 then [Digit36(n)] else Base36(n / 36) + [Digit36(n % 36)]
  }

  function LastSlash(path: string): int
    ensures -1 <= LastSlash(path) < |path|
    ensures LastSlash(path) >= 0 ==> path[LastSlash(path)] == '/'
  {
    if path == "" then -1 else if path[|path| - 1] == '/' then |path| - 1 else LastSlash(path[..|path| - 1])
  }

  predicate HasFileName(path: string) { 0 < LastSlash(path) < |path| - 1 }

  function TemporaryPath(finalPath: string, clock: nat, serial: nat): string
    requires HasFileName(finalPath)
  {
    var s := LastSlash(finalPath);
    finalPath[..s] + "/." + finalPath[s + 1..] + ".download-" + Base36(clock) + "-" + Base36(serial) + ".tmp"
  }

  ghost predicate IsTemporary(path: string) {
    exists finalPath, clock: nat, serial: nat ::
      HasFileName(finalPath) && path == TemporaryPath(finalPath, clock, serial)
  }

  lemma {:induction false} Base36NoDash(n: nat)
    ensures forall i :: 0 <= i < |Base36(n)| ==> Base36(n)[i] != '-' && Base36(n)[i] != '/'
  {
    if n >= 36 { Base36NoDash(n / 36); }
  }

  function Value36(c: char): nat
    requires '0' <= c <= '9' || 'a' <= c <= 'z'
  {
    if c <= '9' then c as int - '0' as int else c as int - 'a' as int + 10
  }

  function Number36(s: string): nat
    requires forall i :: 0 <= i < |s| ==> '0' <= s[i] <= '9' || 'a' <= s[i] <= 'z'
  {
    if s == "" then 0 else 36 * Number36(s[..|s| - 1]) + Value36(s[|s| - 1])
  }

  /** The digits are 0 to 9 and a to z, and stand for the number. */
  lemma {:induction false} Base36Reads(n: nat)
    ensures forall i :: 0 <= i < |Base36(n)| ==> '0' <= Base36(n)[i] <= '9' || 'a' <= Base36(n)[i] <= 'z'
    ensures Number36(Base36(n)) == n
  {
    var s := Base36(n);
    if n >= 36 {
      Base36Reads(n / 36);
      assert s[..|s| - 1] == Base36(n / 36);
    } else {
      assert s[..|s| - 1] == "";
    }
  }

  lemma {:induction false} Base36Injective(m: nat, n: nat)
    requires Base36(m) == Base36(n)
    ensures m == n
  {
    var a, b := Base36(m), Base36(n);
    assert a[|a| - 1] == Digit36(m % 36) && b[|b| - 1] == Digit36(n % 36);
    Base36Length(m);
    Base36Length(n);
    if m >= 36 {
      assert a[..|a| - 1] == Base36(m / 36) && b[..|b| - 1] == Base36(n / 36);
      Base36Injective(m / 36, n / 36);
    }
  }

  lemma Base36Length(n: nat)
    ensures |Base36(n)| >= 1 && (|Base36(n)| == 1 <==> n < 36)
  {}

  lemma AfterLastDash(x: string, y: string, a: string, b: string)
    requires x + "-" + a + ".tmp" == y + "-" + b + ".tmp"
    requires (forall i :: 0 <= i < |a| ==> a[i] != '-') && (forall i :: 0 <= i < |b| ==> b[i] != '-')
    ensures a == b
  {
    var s, t := x + "-" + a + ".tmp", y + "-" + b + ".tmp";
    assert s[|x|] == '-' && t[|y|] == '-';
    assert forall i :: 0 <= i < |a| ==> s[|x| + 1 + i] == a[i];
    assert forall i :: 0 <= i < |b| ==> t[|y| + 1 + i] == b[i];
    assert forall i :: |x| < i < |s| - 4 ==> s[i] == a[i - |x| - 1] != '-';
    assert forall i :: |y| < i < |t| - 4 ==> t[i] == b[i - |y| - 1] != '-';
    assert |x| == |y|;
    assert a == s[|x| + 1..|x| + 1 + |a|] && b == t[|y| + 1..|y| + 1 + |b|];
  }

  /** Whatever the destination and the clock, two temporary paths are equal only for one serial number. */
  lemma TemporaryPathsDiffer(f: string, g: string, c: nat, d: nat, m: nat, n: nat)
    requires HasFileName(f) && HasFileName(g) && TemporaryPath(f, c, m) == TemporaryPath(g, d, n)
    ensures m == n
  {
    Base36NoDash(m);
    Base36NoDash(n);
    var s, t := LastSlash(f), LastSlash(g);
    AfterLastDash(f[..s] + "/." + f[s + 1..] + ".download-" + Base36(c),
      g[..t] + "/." + g[t + 1..] + ".download-" + Base36(d),
                  Base36(m), Base36(n));
    Base36Injective(m, n);
  }

  lemma {:induction false} LastSlashAt(path: string, s: nat)
    requires s < |path| && path[s] == '/' && forall i :: s < i < |path| ==> path[i] != '/'
    ensures LastSlash(path) == s
  {
    if s < |path| - 1 { LastSlashAt(path[..|path| - 1], s); }
  }

  lemma {:induction false} NothingAfterLastSlash(path: string)
    ensures forall i :: LastSlash(path) < i < |path| ==> path[i] != '/'
  {
    if path != "" && path[|path| - 1] != '/' { NothingAfterLastSlash(path[..|path| - 1]); }
  }

  /** A temporary file is a hidden one in the directory of its destination, whose name it contains. */
  lemma TemporaryIsBeside(finalPath: string, clock: nat, serial: nat)
    requires HasFileName(finalPath)
    ensures
      var s, path := LastSlash(finalPath), TemporaryPath(finalPath, clock, serial);
      && LastSlash(path) == s && path[..s + 1] == finalPath[..s + 1]
      && finalPath[s + 1..] == path[s + 2..][..|finalPath| - s - 1]
      && path[s + 1] == '.' && path != finalPath
  {
    var suffix := Suffix(finalPath, clock, serial);
    NothingAfterLastSlash(finalPath);
    HiddenBeside(finalPath, LastSlash(finalPath), suffix, TemporaryPath(finalPath, clock, serial));
  }

  lemma Suffix(finalPath: string, clock: nat, serial: nat) returns (suffix: string)
    requires HasFileName(finalPath)
    ensures suffix != "" && forall i :: 0 <= i < |suffix| ==> suffix[i] != '/'
    ensures
      var s := LastSlash(finalPath);
      TemporaryPath(finalPath, clock, serial) == finalPath[..s] + "/." + finalPath[s + 1..] + suffix
  {
    var s := LastSlash(finalPath);
    suffix := ".download-" + Base36(clock) + "-" + Base36(serial) + ".tmp";
    SuffixHasNoSlash(clock, serial);
    var front := finalPath[..s] + "/." + finalPath[s + 1..];
    assert TemporaryPath(finalPath, clock, serial)
        == front + ".download-" + Base36(clock) + "-" + Base36(serial) + ".tmp";
    Regroup(front, ".download-", Base36(clock), Base36(serial));
    assert suffix[0] == '.';
  }

  lemma Regroup(front: string, mark: string, clock: string, serial: string)
    ensures front + mark + clock + "-" + serial + ".tmp" == front + (mark + clock + "-" + serial + ".tmp")
  {}

  lemma SuffixHasNoSlash(clock: nat, serial: nat)
    ensures
      var suffix := ".download-" + Base36(clock) + "-" + Base36(serial) + ".tmp";
      forall i :: 0 <= i < |suffix| ==> suffix[i] != '/'
  {
    Base36NoDash(clock);
    Base36NoDash(serial);
  }

  lemma HiddenBeside(finalPath: string, s: nat, suffix: string, path: string)
    requires 0 < s < |finalPath| - 1 && finalPath[s] == '/' && suffix != ""
    requires forall i :: s < i < |finalPath| ==> finalPath[i] != '/'
    requires forall i :: 0 <= i < |suffix| ==> suffix[i] != '/'
    requires path == finalPath[..s] + "/." + finalPath[s + 1..] + suffix
    ensures LastSlash(path) == s && path[..s + 1] == finalPath[..s + 1] && path[s + 1] == '.' && path != finalPath
    ensures path[s + 2..][..|finalPath| - s - 1] == finalPath[s + 1..]
  {
    assert path[s] == '/' && path[s + 1] == '.' && |path| == |finalPath| + 1 + |suffix|;
    forall i | s < i < |path| ensures path[i] != '/' {
      if s + 1 < i < |finalPath| + 1 { assert path[i] == finalPath[i - 1]; }
      else if i >= |finalPath| + 1 { assert path[i] == suffix[i - |finalPath| - 1]; }
    }
    LastSlashAt(path, s);
  }

  // ---------- publishers ----------

  datatype Phase =
    | Checking | Probing | Writing | Verifying | Rechecking | Copying | VerifyingFinal | Removing | Cleaning
    | Succeeded | Failed

  /** `owned`: the temporary path was found free and is this publisher's; `created`: its copy made the
      destination; `stuck`: the last removal of its temporary file failed. */
  datatype Publisher = Publisher(finalPath: string, bytes: Bytes, phase: Phase, temporary: string, clock: nat,
                                 serial: nat, owned: bool, created: bool, stuck: bool)

  datatype World = World(files: map<string, Bytes>, sequence: nat, publishers: map<nat, Publisher>)

  /** What the adapter does when an await completes. It may fail; a write stores a prefix of its bytes or
      nothing, whether or not it reports failure; a copy that reports success stores at least a prefix. */
  datatype Io = Io(fails: bool, storesNothing: bool, stored: nat, clock: nat)

  datatype Event =
    | Begin(id: nat, finalPath: string, bytes: Bytes)
    | Advance(id: nat, io: Io)
    | Outsider(path: string, bytes: Bytes)

  function Prefix(bytes: Bytes, n: nat): Bytes { if n < |bytes| then bytes[..n] else bytes }

  function Move(w: World, id: nat, p: Publisher): World { w.(publishers := w.publishers[id := p]) }

  /** Takes the next serial number and names a temporary path with it. */
  function Probe(w: World, id: nat, p: Publisher, io: Io): World
    requires HasFileName(p.finalPath)
  {
    var n := w.sequence + 1;
    Move(w.(sequence := n), id,
         p.(phase := Probing, temporary := TemporaryPath(p.finalPath, io.clock, n), clock := io.clock, serial := n))
  }

  function AdvanceProbe(w: World, id: nat, p: Publisher, io: Io): World
    requires p.phase == Checking || (p.phase == Probing && HasFileName(p.finalPath))
  {
    if io.fails then Move(w, id, p.(phase := Failed))
    else if p.phase == Checking then
      if p.finalPath in w.files || !HasFileName(p.finalPath) then Move(w, id, p.(phase := Failed))
        else Probe(w, id, p, io)
    else if p.temporary in w.files then Probe(w, id, p, io)
    else Move(w, id, p.(phase := Writing, owned := true))
  }

  /** From the write on, whatever goes wrong leads to the cleaning of the temporary file. */
  function AdvanceWrite(w: World, id: nat, p: Publisher, io: Io): World {
    var cleaning := p.(phase := Cleaning);
    match p.phase
    case Writing =>
      var files := if io.storesNothing then w.files else w.files[p.temporary := Prefix(p.bytes, io.stored)];
      Move(w.(files := files), id, if io.fails then cleaning else p.(phase := Verifying))
    case Verifying =>
      if io.fails || p.temporary !in w.files || |w.files[p.temporary]| != |p.bytes| then Move(w, id, cleaning)
      else Move(w, id, p.(phase := Rechecking))
    case Rechecking => Move(w, id, if io.fails || p.finalPath in w.files then cleaning else p.(phase := Copying))
    case Copying =>
      if p.finalPath in w.files || p.temporary !in w.files || (io.fails && io.storesNothing) then Move(w, id, cleaning)
      else
        Move(w.(files := w.files[p.finalPath := Prefix(w.files[p.temporary], io.stored)]), id,
             p.(created := true, phase := if io.fails then Cleaning else VerifyingFinal))
    case VerifyingFinal =>
      if io.fails || p.finalPath !in w.files || |w.files[p.finalPath]| != |p.bytes| then Move(w, id, cleaning)
      else Move(w, id, p.(phase := Removing))
    case Removing =>
      if io.fails then Move(w, id, cleaning) else Move(w.(files := w.files - {p.temporary}), id, p.(phase := Succeeded))
    case Cleaning =>
      if io.fails then Move(w, id, p.(phase := Failed, stuck := true))
      else Move(w.(files := w.files - {p.temporary}), id, p.(phase := Failed))
    case _ => w
  }

  function Advanced(w: World, id: nat, io: Io): World
    requires id in w.publishers
  {
    var p := w.publishers[id];
    if p.phase == Checking || (p.phase == Probing && HasFileName(p.finalPath)) then AdvanceProbe(w, id, p, io)
    else AdvanceWrite(w, id, p, io)
  }

  /** Outsiders only create files that are not there, and neither they nor publishers use a destination
      shaped like a temporary name. */
  ghost function Apply(w: World, event: Event): World {
    match event
    case Begin(id, finalPath, bytes) =>
      if id in w.publishers || IsTemporary(finalPath) then w
      else Move(w, id, Publisher(finalPath, bytes, Checking, "", 0, 0, false, false, false))
    case Advance(id, io) => if id in w.publishers then Advanced(w, id, io) else w
    case Outsider(path, bytes) =>
      if path in w.files || IsTemporary(path) then w else w.(files := w.files[path := bytes])
  }

  ghost function Run(files: map<string, Bytes>, events: seq<Event>): World {
    if events == [] then World(files, 0, map[]) else Apply(Run(files, events[..|events| - 1]), events[|events| - 1])
  }

  // ---------- what every step keeps ----------

  predicate Ended(p: Publisher) { p.phase == Succeeded || p.phase == Failed }

  ghost predicate Named(sequence: nat, p: Publisher) {
    && !IsTemporary(p.finalPath) && p.serial <= sequence
    && (p.serial > 0 ==> HasFileName(p.finalPath) && p.temporary == TemporaryPath(p.finalPath, p.clock, p.serial))
    && (p.owned || p.phase == Probing ==> p.serial > 0)
    && (p.phase != Checking && p.phase != Probing && p.phase != Failed ==> p.owned)
    && (p.phase == Checking || p.phase == Probing ==> !p.owned)
  }

  ghost predicate TemporaryOk(files: map<string, Bytes>, p: Publisher) {
    && (p.owned && p.temporary in files ==> files[p.temporary] <= p.bytes)
    && (p.phase == Writing ==> p.temporary !in files)
    && (p.phase == Rechecking || p.phase == Copying ==> p.temporary in files && files[p.temporary] == p.bytes)
    && (p.owned && Ended(p) && !p.stuck ==> p.temporary !in files)
    && (p.stuck ==> p.phase == Failed)
  }

  ghost predicate FinalOk(files: map<string, Bytes>, p: Publisher) {
    && (p.created ==> p.finalPath in files && files[p.finalPath] <= p.bytes && p.owned)
    && (p.phase == Writing || p.phase == Verifying || p.phase == Rechecking || p.phase == Copying ==> !p.created)
    && (p.phase == VerifyingFinal || p.phase == Removing || p.phase == Succeeded ==> p.created)
    && (p.phase == Removing || p.phase == Succeeded ==> files[p.finalPath] == p.bytes)
  }

  ghost predicate PublisherOk(w: World, p: Publisher) {
    Named(w.sequence, p) && TemporaryOk(w.files, p) && FinalOk(w.files, p)
  }

  ghost predicate Apart(p: Publisher, q: Publisher) {
    && (p.serial > 0 && q.serial > 0 ==> p.serial != q.serial)
    && (p.created && q.created ==> p.finalPath != q.finalPath)
  }

  ghost predicate Inv(w: World) {
    && (forall i {:trigger PublisherOk(w, w.publishers[i])} :: i in w.publishers ==> PublisherOk(w, w.publishers[i]))
    && (forall i, j {:trigger Apart(w.publishers[i], w.publishers[j])} ::
          i in w.publishers && j in w.publishers && i != j ==> Apart(w.publishers[i], w.publishers[j]))
  }

  /** A step of publisher `p` touches only its own temporary file and, if it was not there, its destination. */
  ghost predicate Touches(p: Publisher, files: map<string, Bytes>, files': map<string, Bytes>) {
    forall f :: (p.owned && f == p.temporary) || (f == p.finalPath && f !in files)
                || ((f in files <==> f in files') && (f in files ==> files[f] == files'[f]))
  }

  ghost predicate GoodStep(w: World, id: nat, p: Publisher, w': World)
    requires id in w.publishers
  {
    && id in w'.publishers
    && var p' := w'.publishers[id];
    && w'.sequence >= w.sequence && w'.publishers == w.publishers[id := p']
    && PublisherOk(w', p') && Touches(p, w.files, w'.files)
    && (p'.serial == p.serial || p'.serial > w.sequence)
    && p'.finalPath == p.finalPath && p'.bytes == p.bytes
    && (p'.created ==> p.created || p.finalPath !in w.files)
  }

  lemma ProbeOk(w: World, id: nat, p: Publisher, io: Io)
    requires id in w.publishers && PublisherOk(w, p)
      && (p.phase == Checking || (p.phase == Probing && HasFileName(p.finalPath)))
    ensures GoodStep(w, id, p, AdvanceProbe(w, id, p, io))
  {}

  lemma CheckOk(w: World, id: nat, p: Publisher, io: Io)
    requires id in w.publishers && PublisherOk(w, p) && (p.phase == Verifying || p.phase == Rechecking)
    ensures GoodStep(w, id, p, AdvanceWrite(w, id, p, io))
  {}

  lemma FinalCheckOk(w: World, id: nat, p: Publisher, io: Io)
    requires id in w.publishers && PublisherOk(w, p) && p.phase == VerifyingFinal
    ensures GoodStep(w, id, p, AdvanceWrite(w, id, p, io))
  {}

  lemma WriteOk(w: World, id: nat, p: Publisher, io: Io)
    requires id in w.publishers && PublisherOk(w, p) && p.phase == Writing
    ensures GoodStep(w, id, p, AdvanceWrite(w, id, p, io))
  {
    assert IsTemporary(p.temporary);
  }

  lemma CopyOk(w: World, id: nat, p: Publisher, io: Io)
    requires id in w.publishers && PublisherOk(w, p) && p.phase == Copying
    ensures GoodStep(w, id, p, AdvanceWrite(w, id, p, io))
  {
    assert IsTemporary(p.temporary);
  }

  lemma RemoveOk(w: World, id: nat, p: Publisher, io: Io)
    requires id in w.publishers && PublisherOk(w, p) && p.phase == Removing
    ensures GoodStep(w, id, p, AdvanceWrite(w, id, p, io))
  {
    assert IsTemporary(p.temporary);
  }

  lemma CleanOk(w: World, id: nat, p: Publisher, io: Io)
    requires id in w.publishers && PublisherOk(w, p) && p.phase == Cleaning
    ensures GoodStep(w, id, p, AdvanceWrite(w, id, p, io))
  {
    assert IsTemporary(p.temporary);
  }

  lemma AdvanceOk(w: World, id: nat, io: Io)
    requires id in w.publishers && PublisherOk(w, w.publishers[id])
    ensures GoodStep(w, id, w.publishers[id], Advanced(w, id, io))
  {
    var p := w.publishers[id];
    match p.phase {
      case Checking => ProbeOk(w, id, p, io);
      case Probing => ProbeOk(w, id, p, io);
      case Writing => WriteOk(w, id, p, io);
      case Copying => CopyOk(w, id, p, io);
      case VerifyingFinal => FinalCheckOk(w, id, p, io);
      case Removing => RemoveOk(w, id, p, io);
      case Cleaning => CleanOk(w, id, p, io);
      case Succeeded => assert w.publishers[id := p] == w.publishers;
      case Failed => assert w.publishers[id := p] == w.publishers;
      case _ => CheckOk(w, id, p, io);
    }
  }

  /** Another publisher's step leaves this one as it should be. */
  lemma OtherStaysOk(w: World, w': World, p: Publisher, q: Publisher)
    requires PublisherOk(w, p) && PublisherOk(w, q) && Apart(p, q)
    requires w'.sequence >= w.sequence && Touches(p, w.files, w'.files)
    ensures PublisherOk(w', q)
  {
    if p.serial > 0 { assert IsTemporary(p.temporary); }
    if q.serial > 0 { assert IsTemporary(q.temporary); }
    if p.serial > 0 && q.serial > 0 && p.temporary == q.temporary {
      TemporaryPathsDiffer(p.finalPath, q.finalPath, p.clock, q.clock, p.serial, q.serial);
    }
  }

  lemma StepKeepsInv(w: World, event: Event)
    requires Inv(w)
    ensures Inv(Apply(w, event))
  {
    match event {
      case Begin(id, finalPath, bytes) => BeginKeepsInv(w, id, finalPath, bytes);
      case Outsider(path, bytes) => OutsiderKeepsInv(w, path, bytes);
      case Advance(id, io) => if id in w.publishers { AdvanceKeepsInv(w, id, io); }
    }
  }

  lemma BeginKeepsInv(w: World, id: nat, finalPath: string, bytes: Bytes)
    requires Inv(w)
    ensures Inv(Apply(w, Begin(id, finalPath, bytes)))
  {
    var w' := Apply(w, Begin(id, finalPath, bytes));
    forall i | i in w'.publishers ensures PublisherOk(w', w'.publishers[i]) {
      if i in w.publishers { assert PublisherOk(w, w.publishers[i]); }
    }
    forall i, j | i in w'.publishers && j in w'.publishers && i != j ensures Apart(w'.publishers[i], w'.publishers[j]) {
      if i in w.publishers && j in w.publishers { assert Apart(w.publishers[i], w.publishers[j]); }
    }
  }

  lemma OutsiderKeepsInv(w: World, path: string, bytes: Bytes)
    requires Inv(w)
    ensures Inv(Apply(w, Outsider(path, bytes)))
  {
    var w' := Apply(w, Outsider(path, bytes));
    forall i | i in w'.publishers ensures PublisherOk(w', w'.publishers[i]) {
      var p := w.publishers[i];
      assert PublisherOk(w, p);
      if p.serial > 0 { assert IsTemporary(p.temporary); }
    }
    forall i, j | i in w'.publishers && j in w'.publishers && i != j ensures Apart(w'.publishers[i], w'.publishers[j]) {
      assert Apart(w.publishers[i], w.publishers[j]);
    }
  }

  lemma AdvanceKeepsInv(w: World, id: nat, io: Io)
    requires Inv(w) && id in w.publishers
    ensures Inv(Advanced(w, id, io))
  {
    assert PublisherOk(w, w.publishers[id]);
    AdvanceOk(w, id, io);
    GoodStepKeepsInv(w, id, Advanced(w, id, io));
  }

  lemma GoodStepKeepsInv(w: World, id: nat, w': World)
    requires Inv(w) && id in w.publishers && GoodStep(w, id, w.publishers[id], w')
    ensures Inv(w')
  {
    GoodStepKeepsOk(w, id, w');
    GoodStepKeepsApart(w, id, w');
  }

  lemma GoodStepKeepsOk(w: World, id: nat, w': World)
    requires Inv(w) && id in w.publishers && GoodStep(w, id, w.publishers[id], w')
    ensures forall i :: i in w'.publishers ==> PublisherOk(w', w'.publishers[i])
  {
    var p := w.publishers[id];
    assert PublisherOk(w, p);
    forall i | i in w'.publishers ensures PublisherOk(w', w'.publishers[i]) {
      if i != id {
        assert PublisherOk(w, w.publishers[i]) && Apart(p, w.publishers[i]);
        OtherStaysOk(w, w', p, w.publishers[i]);
      }
    }
  }

  lemma GoodStepKeepsApart(w: World, id: nat, w': World)
    requires Inv(w) && id in w.publishers && GoodStep(w, id, w.publishers[id], w')
    ensures forall i, j ::
      i in w'.publishers && j in w'.publishers && i != j ==> Apart(w'.publishers[i], w'.publishers[j])
  {
    forall i, j | i in w'.publishers && j in w'.publishers && i != j ensures Apart(w'.publishers[i], w'.publishers[j]) {
      assert PublisherOk(w, w.publishers[i]) && PublisherOk(w, w.publishers[j])
        && Apart(w.publishers[i], w.publishers[j]);
    }
  }

  lemma {:induction false} RunKeepsInv(files: map<string, Bytes>, events: seq<Event>)
    ensures Inv(Run(files, events))
  {
    if events != [] {
      RunKeepsInv(files, events[..|events| - 1]);
      StepKeepsInv(Run(files, events[..|events| - 1]), events[|events| - 1]);
    }
  }

  // ---------- what holds of every run ----------

  /** A file under an ordinary name, once there, keeps its bytes for the rest of the run. */
  lemma {:induction false} NothingIsClobbered(files: map<string, Bytes>, before: seq<Event>, after: seq<Event>,
      path: string)
    requires path in Run(files, before).files && !IsTemporary(path)
    ensures path in Run(files, before + after).files
      && Run(files, before + after).files[path] == Run(files, before).files[path]
  {
    if after == [] {
      assert before + after == before;
    } else {
      var events := before + after;
      assert events[..|events| - 1] == before + after[..|after| - 1];
      NothingIsClobbered(files, before, after[..|after| - 1], path);
      var w := Run(files, events[..|events| - 1]);
      RunKeepsInv(files, events[..|events| - 1]);
      StepKeepsFile(w, events[|events| - 1], path);
    }
  }

  lemma StepKeepsFile(w: World, event: Event, path: string)
    requires Inv(w) && path in w.files && !IsTemporary(path)
    ensures path in Apply(w, event).files && Apply(w, event).files[path] == w.files[path]
  {
    if event.Advance? && event.id in w.publishers {
      var p := w.publishers[event.id];
      assert PublisherOk(w, p);
      if p.serial > 0 { assert IsTemporary(p.temporary); }
      AdvanceOk(w, event.id, event.io);
    }
  }

  /** At every moment of every run: a publisher that succeeded has its exact bytes at its destination; one
      whose copy was cut short has a prefix of its own bytes there and nobody else's; no two publishers
      made the same destination; their temporary paths differ; and one that has ended after owning a
      temporary path has left no file there unless the removal itself failed. */
  lemma PublishingIsExclusive(files: map<string, Bytes>, events: seq<Event>, i: nat, j: nat)
    requires i in Run(files, events).publishers && j in Run(files, events).publishers
    ensures
      var w := Run(files, events);
      var p, q := w.publishers[i], w.publishers[j];
      && (p.phase == Succeeded ==> p.finalPath in w.files && w.files[p.finalPath] == p.bytes && p.temporary !in w.files)
      && (p.created ==> p.finalPath in w.files && w.files[p.finalPath] <= p.bytes)
      && (p.created && q.created && p.finalPath == q.finalPath ==> i == j)
      && (p.serial > 0 && q.serial > 0 && p.temporary == q.temporary ==> i == j)
      && (p.owned && Ended(p) && !p.stuck ==> p.temporary !in w.files)
  {
    var w := Run(files, events);
    var p, q := w.publishers[i], w.publishers[j];
    RunKeepsInv(files, events);
    assert PublisherOk(w, p) && PublisherOk(w, q);
    if i != j { assert Apart(p, q); }
    if p.serial > 0 && q.serial > 0 && p.temporary == q.temporary {
      TemporaryPathsDiffer(p.finalPath, q.finalPath, p.clock, q.clock, p.serial, q.serial);
    }
  }

  /** A publisher that finds its destination taken begins nothing: at its first check it ends at once, with no path
      probed, and at its second it goes on to clean up and never asks for the copy. */
  lemma TakenDestinationIsRefused(w: World, id: nat, io: Io)
    requires id in w.publishers && w.publishers[id].finalPath in w.files
    ensures
      var p, w' := w.publishers[id], Advanced(w, id, io);
      var q := w'.publishers[id];
      && (p.phase == Checking ==> w' == w.(publishers := w.publishers[id := p.(phase := Failed)]))
      && (p.phase == Rechecking ==> q.phase == Cleaning && w'.files == w.files)
      && (q.phase == Copying ==> p.phase == Copying)
  {}

  ghost function Steps(w: World, id: nat, io: Io, n: nat): World { Repeated(Step(id, io), w, n) }

  ghost function Step(id: nat, io: Io): World -> World {
    (w: World) => if id in w.publishers then Advanced(w, id, io) else w
  }

  ghost function Repeated(step: World -> World, w: World, n: nat): World
    decreases n, w
  {
    if n == 0 then w else Repeated(step, step(w), n - 1)
  }

  lemma {:induction false} RepeatedPlus(step: World -> World, w: World, m: nat, n: nat)
    ensures Repeated(step, w, m + n) == Repeated(step, Repeated(step, w, m), n)
    decreases m
  {
    if m > 0 { RepeatedPlus(step, step(w), m - 1, n); }
  }

  predicate FailsNever(io: Io, bytes: Bytes) { !io.fails && !io.storesNothing && io.stored >= |bytes| }

  /** Where nothing fails, the destination is free and so is the first temporary path, eight steps publish
      the bytes, leave every other file as it was and leave no temporary file. */
  lemma UndisturbedPublishSucceeds(w: World, id: nat, io: Io)
    requires id in w.publishers && w.publishers[id].phase == Checking && FailsNever(io, w.publishers[id].bytes)
    requires
      var p := w.publishers[id];
      && HasFileName(p.finalPath) && p.finalPath !in w.files && !IsTemporary(p.finalPath)
      && TemporaryPath(p.finalPath, io.clock, w.sequence + 1) !in w.files
    ensures
      var p, w' := w.publishers[id], Steps(w, id, io, 8);
      id in w'.publishers && w'.publishers[id].phase == Succeeded && w'.files == w.files[p.finalPath := p.bytes]
  {
    var p := w.publishers[id];
    var temporary := TemporaryPath(p.finalPath, io.clock, w.sequence + 1);
    assert IsTemporary(temporary);
    CheckingToWriting(w, id, io);
    WritingToSucceeded(Steps(w, id, io, 2), id, io);
    StepsPlus(w, id, io, 2, 6);
  }

  /** The files that a publisher with this destination and clock could still take for its temporary path. */
  ghost function Taken(files: set<string>, finalPath: string, clock: nat, sequence: nat): set<string>
    requires HasFileName(finalPath)
  {
    set f | f in files && exists s: nat :: s >= sequence && f == TemporaryPath(finalPath, clock, s)
  }

  lemma FewerTaken(files: set<string>, finalPath: string, clock: nat, sequence: nat)
    requires HasFileName(finalPath) && TemporaryPath(finalPath, clock, sequence) in files
    ensures |Taken(files, finalPath, clock, sequence + 1)| < |Taken(files, finalPath, clock, sequence)|
  {
    var here := TemporaryPath(finalPath, clock, sequence);
    var now, later := Taken(files, finalPath, clock, sequence), Taken(files, finalPath, clock, sequence + 1);
    if here in later {
      var s: nat :| s >= sequence + 1 && here == TemporaryPath(finalPath, clock, s);
      TemporaryPathsDiffer(finalPath, finalPath, clock, clock, sequence, s);
    }
    assert later + {here} <= now;
    SubsetSize(later + {here}, now);
  }

  lemma SubsetSize(a: set<string>, b: set<string>)
    requires a <= b
    ensures |a| <= |b|
  {
    assert b == a + (b - a);
  }

  /** The loop over serial numbers ends: it takes the first path that is free, of finitely many that are not. */
  lemma {:induction false} ProbingFindsFreePath(w: World, id: nat, io: Io) returns (n: nat)
    requires id in w.publishers && w.publishers[id].phase == Probing && !io.fails
    requires
      var p := w.publishers[id];
      HasFileName(p.finalPath) && p.temporary == TemporaryPath(p.finalPath, io.clock, w.sequence)
    ensures
      var p, w' := w.publishers[id], Steps(w, id, io, n);
      && w'.files == w.files && id in w'.publishers
      && var q := w'.publishers[id];
      && q.phase == Writing && q.finalPath == p.finalPath && q.bytes == p.bytes
      && IsTemporary(q.temporary) && q.temporary !in w.files
    decreases |Taken(w.files.Keys, w.publishers[id].finalPath, io.clock, w.sequence)|
  {
    var p, next := w.publishers[id], Advanced(w, id, io);
    assert IsTemporary(p.temporary);
    if p.temporary in w.files {
      FewerTaken(w.files.Keys, p.finalPath, io.clock, w.sequence);
      n := ProbingFindsFreePath(next, id, io);
    } else {
      n := 0;
    }
    OneStep(w, id, io, n);
    n := n + 1;
  }

  /** Where nothing fails and the destination is free, publishing succeeds, however many temporary paths are taken:
      after some number of steps the bytes are at the destination and every other file is as it was. */
  lemma PublishSucceedsPastTakenPaths(w: World, id: nat, io: Io) returns (n: nat)
    requires id in w.publishers && w.publishers[id].phase == Checking && FailsNever(io, w.publishers[id].bytes)
    requires
      var p := w.publishers[id];
      HasFileName(p.finalPath) && p.finalPath !in w.files && !IsTemporary(p.finalPath)
    ensures
      var p, w' := w.publishers[id], Steps(w, id, io, n);
      id in w'.publishers && w'.publishers[id].phase == Succeeded && w'.files == w.files[p.finalPath := p.bytes]
  {
    var next := Advanced(w, id, io);
    var k := ProbingFindsFreePath(next, id, io);
    OneStep(w, id, io, k);
    var writing := Steps(w, id, io, k + 1);
    WritingToSucceeded(writing, id, io);
    StepsPlus(w, id, io, k + 1, 6);
    n := k + 1 + 6;
  }

  lemma WritingToSucceeded(w: World, id: nat, io: Io)
    requires id in w.publishers && w.publishers[id].phase == Writing && FailsNever(io, w.publishers[id].bytes)
    requires
      var p := w.publishers[id];
      p.finalPath !in w.files && p.temporary !in w.files && p.finalPath != p.temporary
    ensures
      var p, w' := w.publishers[id], Steps(w, id, io, 6);
      id in w'.publishers && w'.publishers[id].phase == Succeeded && w'.files == w.files[p.finalPath := p.bytes]
  {
    var p := w.publishers[id];
    WritingToCopying(w, id, io);
    CopyingToSucceeded(Steps(w, id, io, 3), id, io);
    StepsPlus(w, id, io, 3, 3);
    assert w.files[p.temporary := p.bytes][p.finalPath := p.bytes] - {p.temporary} == w.files[p.finalPath := p.bytes];
  }

  lemma CheckingToWriting(w: World, id: nat, io: Io)
    requires id in w.publishers && w.publishers[id].phase == Checking && !io.fails
    requires
      var p := w.publishers[id];
      && HasFileName(p.finalPath) && p.finalPath !in w.files
      && TemporaryPath(p.finalPath, io.clock, w.sequence + 1) !in w.files
    ensures
      var p, w' := w.publishers[id], Steps(w, id, io, 2);
      && w'.files == w.files && id in w'.publishers
      && var q := w'.publishers[id];
      && q.phase == Writing && q.finalPath == p.finalPath && q.bytes == p.bytes
      && q.temporary == TemporaryPath(p.finalPath, io.clock, w.sequence + 1)
  {
    var a := Advanced(w, id, io);
    var b := Advanced(a, id, io);
    OneStep(w, id, io, 1); OneStep(a, id, io, 0);
  }

  lemma StepsPlus(w: World, id: nat, io: Io, m: nat, n: nat)
    ensures Steps(w, id, io, m + n) == Steps(Steps(w, id, io, m), id, io, n)
  {
    RepeatedPlus(Step(id, io), w, m, n);
  }

  lemma OneStep(w: World, id: nat, io: Io, n: nat)
    requires id in w.publishers
    ensures Steps(w, id, io, n + 1) == Steps(Advanced(w, id, io), id, io, n)
  {}

  lemma WritingToCopying(w: World, id: nat, io: Io)
    requires id in w.publishers && w.publishers[id].phase == Writing && FailsNever(io, w.publishers[id].bytes)
    requires w.publishers[id].finalPath !in w.files && w.publishers[id].finalPath != w.publishers[id].temporary
    ensures
      var p, w' := w.publishers[id], Steps(w, id, io, 3);
      && w'.files == w.files[p.temporary := p.bytes]
      && id in w'.publishers && w'.publishers[id] == p.(phase := Copying)
  {
    var a := Advanced(w, id, io);
    var b := Advanced(a, id, io);
    OneStep(w, id, io, 2); OneStep(a, id, io, 1); OneStep(b, id, io, 0);
  }

  lemma CopyingToSucceeded(w: World, id: nat, io: Io)
    requires id in w.publishers && w.publishers[id].phase == Copying && FailsNever(io, w.publishers[id].bytes)
    requires
      var p := w.publishers[id];
      p.finalPath !in w.files && p.finalPath != p.temporary && p.temporary in w.files && w.files[p.temporary] == p.bytes
    ensures
      var p, w' := w.publishers[id], Steps(w, id, io, 3);
      && w'.files == w.files[p.finalPath := p.bytes] - {p.temporary}
      && id in w'.publishers && w'.publishers[id].phase == Succeeded
  {
    var a := Advanced(w, id, io);
    var b := Advanced(a, id, io);
    OneStep(w, id, io, 2); OneStep(a, id, io, 1); OneStep(b, id, io, 0);
  }

  // ---------- the code between two awaits ----------

  /** The adapter's files, the module's counter and the publishers' locals, updated in place. */
  class Publishing {
    var files: map<string, Bytes>
    var temporarySequence: nat
    var publishers: map<nat, Publisher>

    ghost function State(): World
      reads this
    {
      World(files, temporarySequence, publishers)
    }

    constructor (files: map<string, Bytes>)
      ensures State() == World(files, 0, map[])
    {
      this.files := files;
      temporarySequence := 0;
      publishers := map[];
    }

    method NextTemporaryPath(id: nat, clock: nat)
      requires id in publishers && HasFileName(publishers[id].finalPath)
      modifies this`temporarySequence, this`publishers
      ensures State() == Probe(old(State()), id, old(publishers)[id], Io(false, false, 0, clock))
    {
      temporarySequence := temporarySequence + 1;
      var p := publishers[id];
      var temporaryPath := TemporaryPath(p.finalPath, clock, temporarySequence);
      publishers := publishers[id := p.(phase := Probing, temporary := temporaryPath, clock := clock,
        serial := temporarySequence)];
    }

    /** Up to the free temporary path: a failure here leaves nothing to clean. */
    method ResumeProbe(id: nat, io: Io)
      requires id in publishers
      requires publishers[id].phase == Checking
        || (publishers[id].phase == Probing && HasFileName(publishers[id].finalPath))
      modifies this`temporarySequence, this`publishers
      ensures State() == AdvanceProbe(old(State()), id, old(publishers)[id], io)
    {
      var p := publishers[id];
      if io.fails || (p.phase == Checking && (p.finalPath in files || !HasFileName(p.finalPath))) {
        publishers := publishers[id := p.(phase := Failed)];
      } else if p.phase == Checking || p.temporary in files {
        NextTemporaryPath(id, io.clock);
      } else {
        publishers := publishers[id := p.(phase := Writing, owned := true)];
      }
    }

    /** The body of the try block and its cleanup. */
    method ResumeWrite(id: nat, io: Io)
      requires id in publishers
      modifies this`files, this`publishers
      ensures State() == AdvanceWrite(old(State()), id, old(publishers)[id], io)
    {
      var p := publishers[id];
      var next := Cleaning;
      match p.phase {
        case Writing =>
          if !io.storesNothing { files := files[p.temporary := Prefix(p.bytes, io.stored)]; }
          if !io.fails { next := Verifying; }
        case Verifying =>
          if !io.fails && p.temporary in files && |files[p.temporary]| == |p.bytes| { next := Rechecking; }
        case Rechecking =>
          if !io.fails && p.finalPath !in files { next := Copying; }
        case Copying =>
          if p.finalPath !in files && p.temporary in files && !(io.fails && io.storesNothing) {
            files := files[p.finalPath := Prefix(files[p.temporary], io.stored)];
            p := p.(created := true);
            if !io.fails { next := VerifyingFinal; }
          }
        case VerifyingFinal =>
          if !io.fails && p.finalPath in files && |files[p.finalPath]| == |p.bytes| { next := Removing; }
        case Removing =>
          if !io.fails {
            files := files - {p.temporary};
            next := Succeeded;
          }
        case Cleaning =>
          if io.fails { p := p.(stuck := true); } else { files := files - {p.temporary}; }
          next := Failed;
        case _ => return;
      }
      publishers := publishers[id := p.(phase := next)];
    }
  }
}
