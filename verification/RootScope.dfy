/** The browsable root (src/drive/root-scope.ts): a parent map that listings rewrite, and the walk up it.

    An id is in scope when the root is on its chain of parents. The walk answers exactly that, also on maps
    with cycles, and the effect of a listing on everything registered so far is characterised both ways. */
module RootScope {
  import opened Terms

  const DRIVE_FOLDER_MIME := "application/vnd.google-apps.folder"

  datatype Folder = Folder(id: string, name: string, mimeType: string)

  datatype Error = NotFound | Ambiguous | InvalidId | OutsideRoot

  datatype Result<T> = Ok(value: T) | Err(error: Error)

  type Parents = map<string, string>

  predicate IsIdChar(c: char) { 'A' <= c <= 'Z' || 'a' <= c <= 'z' || '0' <= c <= '9' || c == '_' || c == '-' }

  predicate ValidId(id: string) { 1 <= |id| <= 256 && forall i :: 0 <= i < |id| ==> IsIdChar(id[i]) }

  // ---------- reachability ----------

  /** The n-th parent of `id`, if the chain is that long. */
  function Ancestor(parents: Parents, id: string, n: nat): Option<string> {
    if n == 0 then Some(id) else
      var a := Ancestor(parents, id, n - 1);
      if a.Some? && a.value in parents then Some(parents[a.value]) else None
  }

  ghost predicate Reaches(parents: Parents, root: string, id: string) {
    exists n: nat :: Ancestor(parents, id, n) == Some(root)
  }

  ghost predicate InScope(parents: Parents, root: Option<string>, id: string) {
    root.Some? && ValidId(id) && Reaches(parents, root.value, id)
  }

  /** The root is met for the first time after exactly n steps. */
  predicate ReachesIn(parents: Parents, root: string, id: string, n: nat)
    decreases n
  {
    if id == root then n == 0 else n > 0 && id in parents && ReachesIn(parents, root, parents[id], n - 1)
  }

  /** `c` is `id` or an ancestor of it on the first n steps below the root. */
  predicate Passes(parents: Parents, root: string, id: string, c: string, n: nat)
    decreases n
  {
    id != root && (id == c || (n > 0 && id in parents && Passes(parents, root, parents[id], c, n - 1)))
  }

  lemma {:induction false} AncestorOfParent(parents: Parents, id: string, n: nat)
    requires id in parents
    ensures Ancestor(parents, id, n + 1) == Ancestor(parents, parents[id], n)
  {
    if n == 0 { assert Ancestor(parents, id, 0) == Some(id); } else { AncestorOfParent(parents, id, n - 1); }
  }

  lemma {:induction false} DeadEnd(parents: Parents, id: string, n: nat)
    requires id !in parents && n > 0
    ensures Ancestor(parents, id, n) == None
  {
    if n == 1 { assert Ancestor(parents, id, 0) == Some(id); } else { DeadEnd(parents, id, n - 1); }
  }

  lemma {:induction false} ReachesInIsAncestor(parents: Parents, root: string, id: string, n: nat)
    requires ReachesIn(parents, root, id, n)
    ensures Ancestor(parents, id, n) == Some(root)
    decreases n
  {
    if id != root {
      ReachesInIsAncestor(parents, root, parents[id], n - 1);
      AncestorOfParent(parents, id, n - 1);
    }
  }

  lemma {:induction false} AncestorReachesIn(parents: Parents, root: string, id: string, n: nat) returns (k: nat)
    requires Ancestor(parents, id, n) == Some(root)
    ensures ReachesIn(parents, root, id, k)
    decreases n
  {
    if id == root {
      k := 0;
    } else {
      if id !in parents { DeadEnd(parents, id, n); }
      AncestorOfParent(parents, id, n - 1);
      k := AncestorReachesIn(parents, root, parents[id], n - 1);
      k := k + 1;
    }
  }

  /** Once two ancestors agree the chain repeats, so nothing new is met after the first of them. */
  lemma {:induction false} CycleMeetsNothingNew(parents: Parents, id: string, j: nat, i: nat, n: nat) returns (m: nat)
    requires j < i && Ancestor(parents, id, i) == Ancestor(parents, id, j)
    ensures m < i && Ancestor(parents, id, n) == Ancestor(parents, id, m)
    decreases n
  {
    if n < i {
      m := n;
    } else {
      CycleRepeats(parents, id, j, i, n - i);
      m := CycleMeetsNothingNew(parents, id, j, i, n - i + j);
    }
  }

  lemma {:induction false} CycleRepeats(parents: Parents, id: string, j: nat, i: nat, k: nat)
    requires Ancestor(parents, id, i) == Ancestor(parents, id, j)
    ensures Ancestor(parents, id, i + k) == Ancestor(parents, id, j + k)
  {
    if k > 0 { CycleRepeats(parents, id, j, i, k - 1); }
  }

  // ---------- the scope and its steps ----------

  /** The name looked for, the resolved root and the parents listed so far. */
  datatype Scope = Scope(name: string, root: Option<string>, parents: Parents)

  function Matches(name: string, listing: seq<Folder>): seq<Folder> {
    if listing == [] then [] else
      (if listing[0].name == name && listing[0].mimeType == DRIVE_FOLDER_MIME then [listing[0]] else [])
        + Matches(name, listing[1..])
  }

  function RootOf(name: string, listing: seq<Folder>): Result<string> {
    var candidates := Matches(name, listing);
    if |candidates| == 0 then Err(NotFound)
    else if |candidates| > 1 then Err(Ambiguous)
    else if !ValidId(candidates[0].id) then Err(InvalidId)
    else Ok(candidates[0].id)
  }

  /** The children before the first id that is refused. */
  function Accepted(children: seq<string>): seq<string> {
    if children == [] || !ValidId(children[0]) then [] else [children[0]] + Accepted(children[1..])
  }

  function Registered(parents: Parents, parent: string, children: seq<string>): Parents
    decreases children
  {
    if children == [] then parents else Registered(parents[children[0] := parent], parent, children[1..])
  }

  /** A lookup's answer arrives, or a listing of `parent` does. */
  datatype Event = Resolved(listing: seq<Folder>) | Listed(parent: string, children: seq<string>)

  ghost function Apply(s: Scope, e: Event): Scope {
    match e
    case Resolved(listing) => if RootOf(s.name, listing).Ok? then s.(root := Some(RootOf(s.name, listing).value)) else s
    case Listed(parent, children) =>
      if InScope(s.parents, s.root, parent) then s.(parents := Registered(s.parents, parent, Accepted(children))) else s
  }

  ghost function Run(s: Scope, events: seq<Event>): Scope
    decreases events
  {
    if events == [] then s else Run(Apply(s, events[0]), events[1..])
  }

  predicate IsRoot(name: string, f: Folder) { f.name == name && f.mimeType == DRIVE_FOLDER_MIME }

  predicate OnlyMatch(name: string, listing: seq<Folder>, i: int) {
    0 <= i < |listing| && IsRoot(name, listing[i])
    && forall j :: 0 <= j < |listing| && j != i ==> !IsRoot(name, listing[j])
  }

  ghost predicate SeveralMatch(name: string, listing: seq<Folder>) {
    exists i, j :: 0 <= i < j < |listing| && IsRoot(name, listing[i]) && IsRoot(name, listing[j])
  }

  /** The root is found exactly when one entry of the listing matches, and no other does, and its id is valid; what
      goes wrong otherwise is told apart. */
  lemma RootOfIff(name: string, listing: seq<Folder>)
    ensures RootOf(name, listing).Ok? <==> exists i :: OnlyMatch(name, listing, i) && ValidId(listing[i].id)
    ensures forall i ::
      OnlyMatch(name, listing, i) && ValidId(listing[i].id) ==> RootOf(name, listing) == Ok(listing[i].id)
    ensures RootOf(name, listing) == Err(NotFound) <==> forall j :: 0 <= j < |listing| ==> !IsRoot(name, listing[j])
    ensures RootOf(name, listing) == Err(InvalidId)
       <==> exists i :: OnlyMatch(name, listing, i) && !ValidId(listing[i].id)
    ensures RootOf(name, listing) == Err(Ambiguous) <==> SeveralMatch(name, listing)
  {
    SeveralMatchIff(name, listing);
    NoMatchesIff(name, listing);
    forall i | OnlyMatch(name, listing, i) ensures Matches(name, listing) == [listing[i]] {
      OneMatch(name, listing, i);
    }
    if |Matches(name, listing)| == 1 { var i := SingleMatch(name, listing); }
  }

  lemma {:induction false} OneMatch(name: string, listing: seq<Folder>, i: int)
    requires OnlyMatch(name, listing, i)
    ensures Matches(name, listing) == [listing[i]]
  {
    if i == 0 {
      NoMatchesIff(name, listing[1..]);
    } else {
      assert !IsRoot(name, listing[0]);
      OneMatch(name, listing[1..], i - 1);
    }
  }

  lemma {:induction false} SingleMatch(name: string, listing: seq<Folder>) returns (i: int)
    requires |Matches(name, listing)| == 1
    ensures OnlyMatch(name, listing, i)
  {
    if IsRoot(name, listing[0]) {
      NoMatchesIff(name, listing[1..]);
      i := 0;
      assert forall j :: 0 < j < |listing| ==> listing[j] == listing[1..][j - 1];
    } else {
      i := SingleMatch(name, listing[1..]);
      assert forall j :: 0 < j < |listing| ==> listing[j] == listing[1..][j - 1];
      i := i + 1;
    }
  }

  lemma {:induction false} NoMatchesIff(name: string, listing: seq<Folder>)
    ensures Matches(name, listing) == [] <==> forall j :: 0 <= j < |listing| ==> !IsRoot(name, listing[j])
  {
    if listing != [] {
      NoMatchesIff(name, listing[1..]);
      assert forall j :: 0 < j < |listing| ==> listing[j] == listing[1..][j - 1];
    }
  }

  lemma SeveralMatchIff(name: string, listing: seq<Folder>)
    ensures SeveralMatch(name, listing) <==> |Matches(name, listing)| > 1
  {
    NoMatchesIff(name, listing);
    if SeveralMatch(name, listing) && |Matches(name, listing)| == 1 { var i := SingleMatch(name, listing); }
    if !SeveralMatch(name, listing) && Matches(name, listing) != [] {
      var i :| 0 <= i < |listing| && IsRoot(name, listing[i]);
      OneMatch(name, listing, i);
    }
  }

  // ---------- what a registration does to the ids registered before ----------

  ghost predicate InTree(parents: Parents, root: string, id: string) {
    exists n: nat :: ReachesIn(parents, root, id, n)
  }

  lemma InTreeIsReaches(parents: Parents, root: string, id: string)
    ensures InTree(parents, root, id) <==> Reaches(parents, root, id)
  {
    if InTree(parents, root, id) {
      var n :| ReachesIn(parents, root, id, n);
      ReachesInIsAncestor(parents, root, id, n);
    }
    if Reaches(parents, root, id) {
      var n: nat :| Ancestor(parents, id, n) == Some(root);
      var k := AncestorReachesIn(parents, root, id, n);
    }
  }

  /** `c` lies on the way from `id` to the root: it is `id` or one of the folders above it, short of the root. */
  ghost predicate OnWay(parents: Parents, root: string, id: string, c: string) {
    exists n: nat :: Passes(parents, root, id, c, n)
  }

  /** Every registered id is in the tree under the root. */
  ghost predicate AllInTree(parents: Parents, root: string) { forall id :: id in parents ==> InTree(parents, root, id) }

  lemma {:induction false} WayKeptIn(parents: Parents, root: string, id: string, c: string, p: string, n: nat)
    requires ReachesIn(parents, root, id, n) && !OnWay(parents, root, id, c)
    ensures ReachesIn(parents[c := p], root, id, n)
    decreases n
  {
    if id != root {
      assert !Passes(parents, root, id, c, 0);
      NextOnWay(parents, root, id, c);
      WayKeptIn(parents, root, parents[id], c, p, n - 1);
    }
  }

  lemma NextOnWay(parents: Parents, root: string, id: string, c: string)
    requires id != root && id in parents && !OnWay(parents, root, id, c)
    ensures !OnWay(parents, root, parents[id], c)
  {
    forall n: nat ensures !Passes(parents, root, parents[id], c, n) { assert !Passes(parents, root, id, c, n + 1); }
  }

  /** Moving `c` changes no way that does not pass it. */
  lemma {:induction false} SameWay(parents: Parents, root: string, id: string, c: string, p: string, x: string, n: nat)
    requires !OnWay(parents, root, id, c)
    ensures Passes(parents[c := p], root, id, x, n) == Passes(parents, root, id, x, n)
    decreases n
  {
    assert !Passes(parents, root, id, c, 0);
    if id != root && n > 0 && id in parents {
      NextOnWay(parents, root, id, c);
      SameWay(parents, root, parents[id], c, p, x, n - 1);
    }
  }

  /** Putting `c` under a folder that is in the tree and not below `c` keeps everything in the tree. */
  lemma {:induction false} StaysInTree(parents: Parents, root: string, id: string, c: string, p: string, n: nat)
    requires ReachesIn(parents, root, id, n) && InTree(parents, root, p) && !OnWay(parents, root, p, c)
    ensures InTree(parents[c := p], root, id)
    decreases n
  {
    var after := parents[c := p];
    if id == root {
      assert ReachesIn(after, root, id, 0);
    } else if id == c {
      var k: nat :| ReachesIn(parents, root, p, k);
      WayKeptIn(parents, root, p, c, p, k);
      assert ReachesIn(after, root, c, k + 1);
    } else {
      StaysInTree(parents, root, parents[id], c, p, n - 1);
      var k: nat :| ReachesIn(after, root, parents[id], k);
      assert ReachesIn(after, root, id, k + 1);
    }
  }

  /** Putting `c` under itself or a folder below it closes a cycle that nothing on it leaves. */
  lemma {:induction false} CycleIsOut(parents: Parents, root: string, id: string, c: string, p: string, d: nat, n: nat)
    requires Passes(parents, root, id, c, d) && OnWay(parents, root, p, c)
    ensures !ReachesIn(parents[c := p], root, id, n)
    decreases n
  {
    if n > 0 {
      if id == c {
        var k: nat :| Passes(parents, root, p, c, k);
        CycleIsOut(parents, root, p, c, p, k, n - 1);
      } else {
        CycleIsOut(parents, root, parents[id], c, p, d - 1, n - 1);
      }
    }
  }

  /** A folder outside the tree is not brought back by putting more folders under it. */
  lemma {:induction false} StaysOut(parents: Parents, root: string, id: string, c: string, p: string, n: nat)
    requires !InTree(parents, root, p) && ReachesIn(parents[c := p], root, id, n)
    ensures ReachesIn(parents, root, id, n)
    decreases n
  {
    if id != root {
      if id == c {
        StaysOut(parents, root, p, c, p, n - 1);
      } else {
        StaysOut(parents, root, parents[id], c, p, n - 1);
      }
    }
  }

  lemma {:induction false} RegisteredAt(parents: Parents, parent: string, children: seq<string>, id: string)
    ensures id in children ==>
      id in Registered(parents, parent, children) && Registered(parents, parent, children)[id] == parent
    ensures id !in children && id in parents ==> id in Registered(parents, parent, children)
    ensures id !in children && id in Registered(parents, parent, children)
      ==> id in parents && Registered(parents, parent, children)[id] == parents[id]
    decreases children
  {
    if children != [] {
      assert id in children <==> id == children[0] || id in children[1..];
      RegisteredAt(parents[children[0] := parent], parent, children[1..], id);
    }
  }

  lemma {:induction false} ParentStaysOut(parents: Parents, root: string, parent: string, children: seq<string>)
    requires !InTree(parents, root, parent)
    ensures !InTree(Registered(parents, parent, children), root, parent)
    decreases children
  {
    if children != [] {
      forall n: nat {:trigger ReachesIn(parents[children[0] := parent], root, parent, n)}
        ensures !ReachesIn(parents[children[0] := parent], root, parent, n)
      {
        if ReachesIn(parents[children[0] := parent], root, parent, n) {
          StaysOut(parents, root, parent, children[0], parent, n);
        }
      }
      ParentStaysOut(parents[children[0] := parent], root, parent, children[1..]);
    }
  }

  /** A listing puts no folder under itself or under a folder below it. */
  ghost predicate Orderly(parents: Parents, root: string, parent: string, children: seq<string>) {
    forall c :: c in children ==> !OnWay(parents, root, parent, c)
  }

  /** Everything registered stays in the tree exactly when the listing is orderly. */
  lemma {:induction false} ListingKeepsTreeIff(parents: Parents, root: string, parent: string, children: seq<string>)
    requires AllInTree(parents, root) && InTree(parents, root, parent)
    ensures AllInTree(Registered(parents, parent, children), root) <==> Orderly(parents, root, parent, children)
    decreases children
  {
    if children != [] {
      var c, rest := children[0], children[1..];
      assert forall x :: x in children <==> x == c || x in rest;
      if OnWay(parents, root, parent, c) {
        MisplacedLeaves(parents, root, parent, children);
      } else {
        OneMoreChild(parents, root, parent, c, rest);
        ListingKeepsTreeIff(parents[c := parent], root, parent, rest);
      }
    }
  }

  lemma OneMoreChild(parents: Parents, root: string, parent: string, c: string, rest: seq<string>)
    requires AllInTree(parents, root) && InTree(parents, root, parent) && !OnWay(parents, root, parent, c)
    ensures AllInTree(parents[c := parent], root) && InTree(parents[c := parent], root, parent)
    ensures Orderly(parents[c := parent], root, parent, rest) <==> Orderly(parents, root, parent, rest)
  {
    var after := parents[c := parent];
    forall id | id == parent || id == c || id in parents ensures InTree(after, root, id) {
      if id == c && id !in parents {
        var k: nat :| ReachesIn(parents, root, parent, k);
        StaysInTree(parents, root, parent, c, parent, k);
        var d: nat :| ReachesIn(after, root, parent, d);
        assert ReachesIn(after, root, c, if c == root then 0 else d + 1);
      } else {
        var n: nat :| ReachesIn(parents, root, id, n);
        StaysInTree(parents, root, id, c, parent, n);
      }
    }
    forall x ensures OnWay(after, root, parent, x) <==> OnWay(parents, root, parent, x) {
      forall n: nat {:trigger Passes(after, root, parent, x, n)} {:trigger Passes(parents, root, parent, x, n)}
        ensures Passes(after, root, parent, x, n) == Passes(parents, root, parent, x, n)
      {
        SameWay(parents, root, parent, c, parent, x, n);
      }
    }
  }

  /** One misplaced folder takes its new parent out of the tree, and itself with it. */
  lemma MisplacedLeaves(parents: Parents, root: string, parent: string, children: seq<string>)
    requires children != [] && OnWay(parents, root, parent, children[0])
    ensures !AllInTree(Registered(parents, parent, children), root)
  {
    var c := children[0];
    var after := parents[c := parent];
    var d: nat :| Passes(parents, root, parent, c, d);
    forall n: nat {:trigger ReachesIn(after, root, parent, n)} ensures !ReachesIn(after, root, parent, n) {
      CycleIsOut(parents, root, parent, c, parent, d, n);
    }
    var final := Registered(after, parent, children[1..]);
    ParentStaysOut(after, root, parent, children[1..]);
    RegisteredAt(parents, parent, children, c);
    WayEndsBelow(parents, root, parent, c, d);
    forall n: nat {:trigger ReachesIn(final, root, c, n)} ensures !ReachesIn(final, root, c, n) {
      assert n > 0 ==> !ReachesIn(final, root, parent, n - 1);
    }
  }

  lemma {:induction false} WayEndsBelow(parents: Parents, root: string, id: string, c: string, n: nat)
    requires Passes(parents, root, id, c, n)
    ensures c != root
    decreases n
  {
    if id != c { WayEndsBelow(parents, root, parents[id], c, n - 1); }
  }

  // ---------- whole runs ----------

  ghost predicate AllInScope(s: Scope) { forall id :: id in s.parents ==> InScope(s.parents, s.root, id) }

  lemma AllInScopeIsTree(s: Scope)
    requires s.root.Some? && forall id :: id in s.parents ==> ValidId(id)
    ensures AllInScope(s) <==> AllInTree(s.parents, s.root.value)
  {
    forall id | id in s.parents ensures InScope(s.parents, s.root, id) <==> InTree(s.parents, s.root.value, id) {
      InTreeIsReaches(s.parents, s.root.value, id);
    }
  }

  lemma {:induction false} AcceptedAreValid(children: seq<string>)
    ensures forall c :: c in Accepted(children) ==> ValidId(c)
    ensures Accepted(children) <= children
    ensures Accepted(children) == children || !ValidId(children[|Accepted(children)|])
  {
    if children != [] && ValidId(children[0]) {
      AcceptedAreValid(children[1..]);
      assert children == [children[0]] + children[1..];
    }
  }

  /** A listing of an in-scope folder keeps everything in scope exactly when it is orderly. */
  lemma ListingKeepsScopeIff(s: Scope, parent: string, children: seq<string>)
    requires AllInScope(s) && InScope(s.parents, s.root, parent)
    ensures AllInScope(Apply(s, Listed(parent, children)))
       <==> Orderly(s.parents, s.root.value, parent, Accepted(children))
  {
    var root := s.root.value;
    AllInScopeIsTree(s);
    InTreeIsReaches(s.parents, root, parent);
    ListingKeepsTreeIff(s.parents, root, parent, Accepted(children));
    var after := Apply(s, Listed(parent, children));
    AcceptedAreValid(children);
    forall id | id in after.parents ensures ValidId(id) { RegisteredAt(s.parents, parent, Accepted(children), id); }
    AllInScopeIsTree(after);
  }

  // ---------- a lookup that replaces the root ----------

  lemma {:induction false} AncestorPlus(parents: Parents, id: string, other: string, m: nat, n: nat)
    requires Ancestor(parents, id, m) == Some(other)
    ensures Ancestor(parents, id, m + n) == Ancestor(parents, other, n)
  {
    if n > 0 { AncestorPlus(parents, id, other, m, n - 1); }
  }

  lemma {:induction false} PassesReaches(parents: Parents, root: string, id: string, c: string, n: nat) returns (k: nat)
    requires Passes(parents, root, id, c, n)
    ensures Ancestor(parents, id, k) == Some(c)
    decreases n
  {
    if id == c {
      k := 0;
    } else {
      k := PassesReaches(parents, root, parents[id], c, n - 1);
      AncestorOfParent(parents, id, k);
      k := k + 1;
    }
  }

  /** A folder that leads to both the old root and the new one meets the new one first, or after the old one. */
  lemma {:induction false} MeetsBoth(parents: Parents, was: string, top: string, id: string, k: nat, n: nat)
    requires ReachesIn(parents, was, id, k) && ReachesIn(parents, top, id, n)
    ensures OnWay(parents, was, id, top) || InTree(parents, top, was)
    decreases k
  {
    if id == was {
      assert InTree(parents, top, was);
    } else if id == top {
      assert Passes(parents, was, id, top, 0);
    } else {
      MeetsBoth(parents, was, top, parents[id], k - 1, n - 1);
      if OnWay(parents, was, parents[id], top) {
        var d: nat :| Passes(parents, was, parents[id], top, d);
        assert Passes(parents, was, id, top, d + 1);
      }
    }
  }

  /** A folder in the tree of `was` comes into that of `top` exactly when `top` is above `was` or on its own way. */
  lemma RerootedIff(parents: Parents, was: string, top: string, id: string)
    requires InTree(parents, was, id)
    ensures Reaches(parents, top, id) <==> Reaches(parents, top, was) || OnWay(parents, was, id, top)
  {
    InTreeIsReaches(parents, top, id);
    InTreeIsReaches(parents, top, was);
    var k: nat :| ReachesIn(parents, was, id, k);
    ReachesInIsAncestor(parents, was, id, k);
    if Reaches(parents, top, id) {
      var n: nat :| ReachesIn(parents, top, id, n);
      MeetsBoth(parents, was, top, id, k, n);
    } else if Reaches(parents, top, was) {
      var n: nat :| Ancestor(parents, was, n) == Some(top);
      AncestorPlus(parents, id, was, k, n);
    } else if OnWay(parents, was, id, top) {
      var n: nat :| Passes(parents, was, id, top, n);
      n := PassesReaches(parents, was, id, top, n);
    }
  }

  /** The new root is the old one or above it, or lies between the old one and everything registered. */
  ghost predicate Replaces(parents: Parents, was: string, top: string) {
    Reaches(parents, top, was) || forall id :: id in parents ==> OnWay(parents, was, id, top)
  }

  /** A lookup answered while a root is known keeps everything in scope exactly when its root replaces that one. */
  lemma LookupKeepsScopeIff(s: Scope, listing: seq<Folder>)
    requires AllInScope(s) && s.root.Some?
    ensures AllInScope(Apply(s, Resolved(listing)))
       <==> (RootOf(s.name, listing).Ok? ==> Replaces(s.parents, s.root.value, RootOf(s.name, listing).value))
  {
    if RootOf(s.name, listing).Ok? {
      var was, top := s.root.value, RootOf(s.name, listing).value;
      var after := Apply(s, Resolved(listing));
      forall id | id in s.parents
        ensures InScope(after.parents, after.root, id)
          <==> Reaches(s.parents, top, was) || OnWay(s.parents, was, id, top)
      {
        assert InScope(s.parents, s.root, id);
        InTreeIsReaches(s.parents, was, id);
        RerootedIff(s.parents, was, top, id);
      }
    }
  }

  // ---------- whole runs ----------

  /** What a caller can look at before the step: a listing places no folder under itself or below itself, and
      a lookup that finds a root known already finds one that replaces it. */
  ghost predicate WellBehaved(s: Scope, e: Event) {
    match e
    case Resolved(listing) =>
      s.root.Some? && RootOf(s.name, listing).Ok? ==> Replaces(s.parents, s.root.value, RootOf(s.name, listing).value)
    case Listed(parent, children) =>
      InScope(s.parents, s.root, parent) ==> Orderly(s.parents, s.root.value, parent, Accepted(children))
  }

  lemma StepKeepsScopeIff(s: Scope, e: Event)
    requires AllInScope(s)
    ensures AllInScope(Apply(s, e)) <==> WellBehaved(s, e)
    ensures s.parents.Keys <= Apply(s, e).parents.Keys
  {
    match e
    case Resolved(listing) =>
      if s.root.Some? {
        LookupKeepsScopeIff(s, listing);
      } else {
        forall id ensures id !in s.parents { assert id in s.parents ==> InScope(s.parents, s.root, id); }
      }
    case Listed(parent, children) =>
      if InScope(s.parents, s.root, parent) {
        ListingKeepsScopeIff(s, parent, children);
        KeysStay(s.parents, parent, Accepted(children));
      }
  }

  lemma KeysStay(parents: Parents, parent: string, children: seq<string>)
    ensures parents.Keys <= Registered(parents, parent, children).Keys
  {
    forall id | id in parents ensures id in Registered(parents, parent, children) {
      RegisteredAt(parents, parent, children, id);
    }
  }

  /** At every moment of the run everything registered so far is in scope. */
  ghost predicate AlwaysInScope(s: Scope, events: seq<Event>)
    decreases events
  {
    AllInScope(s) && (events != [] ==> AlwaysInScope(Apply(s, events[0]), events[1..]))
  }

  ghost predicate AllWellBehaved(s: Scope, events: seq<Event>)
    decreases events
  {
    events != [] ==> WellBehaved(s, events[0]) && AllWellBehaved(Apply(s, events[0]), events[1..])
  }

  /** Over a whole run everything registered stays in scope exactly when every event is well behaved. */
  lemma {:induction false} AlwaysInScopeIff(s: Scope, events: seq<Event>)
    requires AllInScope(s)
    ensures AlwaysInScope(s, events) <==> AllWellBehaved(s, events)
    decreases events
  {
    if events != [] {
      var next := Apply(s, events[0]);
      StepKeepsScopeIff(s, events[0]);
      if AllInScope(next) { AlwaysInScopeIff(next, events[1..]); } else { assert !AlwaysInScope(next, events[1..]); }
    }
  }

  /** From the moment an id is registered it stays registered and in scope while events are well behaved. */
  lemma {:induction false} RegisteredStaysInScope(s: Scope, events: seq<Event>, id: string)
    requires AllInScope(s) && id in s.parents && AllWellBehaved(s, events)
    ensures id in Run(s, events).parents && InScope(Run(s, events).parents, Run(s, events).root, id)
    decreases events
  {
    if events == [] {
      assert InScope(s.parents, s.root, id);
    } else {
      StepKeepsScopeIff(s, events[0]);
      RegisteredStaysInScope(Apply(s, events[0]), events[1..], id);
    }
  }

  /** A root found, and one child listed. */
  ghost function RootAndChild(name: string): Scope {
    Apply(Apply(Scope(name, None, map[]), Resolved([Folder("a", name, DRIVE_FOLDER_MIME)])), Listed("a", ["c"]))
  }

  lemma RootAndChildInScope(name: string)
    ensures RootAndChild(name) == Scope(name, Some("a"), map["c" := "a"]) && AllInScope(RootAndChild(name))
  {
    var listing := [Folder("a", name, DRIVE_FOLDER_MIME)];
    OneMatch(name, listing, 0);
    assert Apply(Scope(name, None, map[]), Resolved(listing)) == Scope(name, Some("a"), map[]);
    assert Ancestor(map[], "a", 0) == Some("a");
    assert Accepted(["c"]) == ["c"];
    var parents := map["c" := "a"];
    assert Ancestor(parents, "c", 0) == Some("c") && Ancestor(parents, "c", 1) == Some("a");
  }

  /** Two lookups that overlap and answer with different folders: the later answer replaces the root, and what
      was registered in between is out of scope. */
  lemma SecondLookupReplacesRoot(name: string)
    ensures
      var between := RootAndChild(name);
      AllInScope(between) && "c" in between.parents
      && !AllInScope(Apply(between, Resolved([Folder("b", name, DRIVE_FOLDER_MIME)])))
  {
    RootAndChildInScope(name);
    OneMatch(name, [Folder("b", name, DRIVE_FOLDER_MIME)], 0);
    NeverAtB(RootAndChild(name).parents);
  }

  /** A folder listed under itself is out of scope from then on. */
  lemma SelfListingLosesScope(name: string)
    ensures
      var before := RootAndChild(name);
      AllInScope(before) && !AllInScope(Apply(before, Listed("c", ["c"])))
  {
    RootAndChildInScope(name);
    var before := RootAndChild(name);
    assert Ancestor(before.parents, "c", 0) == Some("c") && Ancestor(before.parents, "c", 1) == Some("a");
    assert Accepted(["c"]) == ["c"];
    var after := Apply(before, Listed("c", ["c"]));
    assert after.parents == map["c" := "c"];
    forall n: nat ensures Ancestor(after.parents, "c", n) != Some("a") { OnlyC(after.parents, n); }
  }

  lemma {:induction false} OnlyC(parents: Parents, n: nat)
    requires parents == map["c" := "c"]
    ensures Ancestor(parents, "c", n) == Some("c")
  {
    if n > 0 { OnlyC(parents, n - 1); }
  }

  lemma {:induction false} OnlyCAndA(parents: Parents, n: nat)
    requires parents == map["c" := "a"]
    ensures Ancestor(parents, "c", n) == if n == 0 then Some("c") else if n == 1 then Some("a") else None
  {
    if n > 0 { OnlyCAndA(parents, n - 1); }
  }

  lemma NeverAtB(parents: Parents)
    requires parents == map["c" := "a"]
    ensures !Reaches(parents, "b", "c")
  {
    forall n: nat ensures Ancestor(parents, "c", n) != Some("b") { OnlyCAndA(parents, n); }
  }

  // ---------- what a listing registers ----------

  /** `id` is among the children, and neither it nor any child before it is refused. */
  ghost predicate AcceptedIn(children: seq<string>, id: string) {
    exists j :: 0 <= j < |children| && children[j] == id && forall i :: 0 <= i <= j ==> ValidId(children[i])
  }

  lemma {:induction false} AcceptedIff(children: seq<string>, id: string)
    ensures id in Accepted(children) <==> AcceptedIn(children, id)
  {
    if children != [] && ValidId(children[0]) {
      AcceptedIff(children[1..], id);
      if AcceptedIn(children[1..], id) {
        var rest := children[1..];
        var j :| 0 <= j < |rest| && rest[j] == id && forall i :: 0 <= i <= j ==> ValidId(rest[i]);
        assert children[j + 1] == id;
        forall i | 0 <= i <= j + 1 ensures ValidId(children[i]) { if i > 0 { assert children[i] == rest[i - 1]; } }
      }
      if AcceptedIn(children, id) && id != children[0] {
        var j :| 0 <= j < |children| && children[j] == id && forall i :: 0 <= i <= j ==> ValidId(children[i]);
        assert children[1..][j - 1] == id;
        forall i | 0 <= i <= j - 1 ensures ValidId(children[1..][i]) { assert children[1..][i] == children[i + 1]; }
      }
    }
  }

  /** Under a folder in scope exactly the accepted children get it as their parent; every other entry stays. */
  ghost predicate RegistersAccepted(before: Parents, after: Parents, root: Option<string>, parentId: string,
      children: seq<string>)
  {
    if !InScope(before, root, parentId) then after == before
    else
      forall id ::
        && (AcceptedIn(children, id) ==> id in after && after[id] == parentId)
        && (!AcceptedIn(children, id) ==> (id in after <==> id in before) && (id in before ==> after[id] == before[id]))
  }

  lemma ListingRegisters(s: Scope, parent: string, children: seq<string>)
    ensures RegistersAccepted(s.parents, Apply(s, Listed(parent, children)).parents, s.root, parent, children)
  {
    forall id ensures id in Accepted(children) <==> AcceptedIn(children, id) { AcceptedIff(children, id); }
    forall id ensures
      var after := Registered(s.parents, parent, Accepted(children));
      && (id in Accepted(children) ==> id in after && after[id] == parent)
      && (id !in Accepted(children) ==>
            (id in after <==> id in s.parents) && (id in s.parents ==> after[id] == s.parents[id]))
    {
      RegisteredAt(s.parents, parent, Accepted(children), id);
    }
  }

  // ---------- the class ----------

  class DriveRootScope {
    const name: string
    var root: Option<string>
    var parentOf: Parents

    ghost function State(): Scope
      reads this
    {
      Scope(name, root, parentOf)
    }

    constructor (rootFolderName: string)
      ensures State() == Scope(rootFolderName, None, map[])
    {
      name := rootFolderName;
      root := None;
      parentOf := map[];
    }

    /** The walk up the parents, stopped by a repeated id. */
    method IsWithinRoot(fileId: string) returns (within: bool)
      ensures within <==> InScope(parentOf, root, fileId)
      ensures within ==> root.Some? && ValidId(fileId)
    {
      if root.None? || !ValidId(fileId) { return false; }
      if fileId == root.value {
        assert Ancestor(parentOf, fileId, 0) == root;
        return true;
      }
      var seen := {fileId};
      var current := if fileId in parentOf then Some(parentOf[fileId]) else None;
      ghost var i: nat := 1;
      FirstParent(parentOf, fileId);
      while current.Some?
        invariant current == Ancestor(parentOf, fileId, i) && SeenAre(parentOf, fileId, seen, i)
        invariant root.value !in seen
        decreases parentOf.Keys - seen, current.Some?
      {
        if current == root { return true; }
        var folder := current.value;
        if folder in seen {
          NeverReaches(parentOf, root.value, fileId, i, seen);
          return false;
        }
        SeenOneMore(parentOf, fileId, seen, i);
        assert folder !in parentOf ==> parentOf.Keys - (seen + {folder}) == parentOf.Keys - seen;
        assert folder in parentOf ==> folder in parentOf.Keys - seen;
        seen := seen + {folder};
        current := if folder in parentOf then Some(parentOf[folder]) else None;
        i := i + 1;
      }
      ChainEnds(parentOf, root.value, fileId, i, seen);
      return false;
    }

    method AssertWithinRoot(fileId: string) returns (result: Result<string>)
      ensures result == if InScope(parentOf, root, fileId) then Ok(fileId) else Err(OutsideRoot)
    {
      var within := IsWithinRoot(fileId);
      return if within then Ok(fileId) else Err(OutsideRoot);
    }

    /** A refused id stops the listing with the children before it registered. */
    method RegisterChildren(parentId: string, children: seq<string>) returns (error: Option<Error>)
      modifies this`parentOf
      ensures State() == Apply(old(State()), Listed(parentId, children))
      ensures error.None? <==> InScope(old(parentOf), root, parentId) && forall c :: c in children ==> ValidId(c)
      ensures error.Some? ==> error == Some(OutsideRoot)
      ensures RegistersAccepted(old(parentOf), parentOf, root, parentId, children)
    {
      ListingRegisters(State(), parentId, children);
      var within := AssertWithinRoot(parentId);
      if within.Err? { return Some(OutsideRoot); }
      for k := 0 to |children|
        invariant forall j :: 0 <= j < k ==> ValidId(children[j])
        invariant Registered(parentOf, parentId, Accepted(children[k..]))
          == Registered(old(parentOf), parentId, Accepted(children))
      {
        var child := children[k];
        if !ValidId(child) { return Some(OutsideRoot); }
        assert children[k..][0] == child && children[k..][1..] == children[k + 1..];
        parentOf := parentOf[child := parentId];
      }
      return None;
    }

    /** A root once found is returned without a lookup; without one, a lookup has to be awaited. */
    method BeginResolve() returns (id: Option<string>)
      ensures id == root
    {
      return root;
    }

    /** The continuation of a lookup, when its listing arrives: a second lookup can be waiting too. */
    method FinishResolve(listing: seq<Folder>) returns (result: Result<string>)
      modifies this`root
      ensures result == RootOf(name, listing) && State() == Apply(old(State()), Resolved(listing))
    {
      var candidates := Matches(name, listing);
      if |candidates| == 0 { return Err(NotFound); }
      if |candidates| > 1 { return Err(Ambiguous); }
      var id := candidates[0].id;
      if !ValidId(id) { return Err(InvalidId); }
      root := Some(id);
      return Ok(id);
    }
  }

  lemma FirstParent(parents: Parents, id: string)
    ensures Ancestor(parents, id, 0) == Some(id)
    ensures Ancestor(parents, id, 1) == if id in parents then Some(parents[id]) else None
    ensures SeenAre(parents, id, {id}, 1)
  {
    forall x ensures x in {id} <==> SeenBefore(parents, id, x, 1) {
      assert Ancestor(parents, id, 0) == Some(id);
    }
  }

  ghost predicate SeenAre(parents: Parents, id: string, seen: set<string>, i: nat) {
    forall x :: x in seen <==> SeenBefore(parents, id, x, i)
  }

  ghost predicate SeenBefore(parents: Parents, id: string, x: string, i: nat) {
    exists j: nat :: j < i && Ancestor(parents, id, j) == Some(x)
  }

  lemma SeenOneMore(parents: Parents, id: string, seen: set<string>, i: nat)
    requires Ancestor(parents, id, i).Some? && SeenAre(parents, id, seen, i)
    ensures SeenAre(parents, id, seen + {Ancestor(parents, id, i).value}, i + 1)
  {
    forall x ensures SeenBefore(parents, id, x, i + 1)
      <==> SeenBefore(parents, id, x, i) || x == Ancestor(parents, id, i).value {
      if SeenBefore(parents, id, x, i + 1) {
        var j: nat :| j < i + 1 && Ancestor(parents, id, j) == Some(x);
        assert j < i || j == i;
      }
    }
  }

  lemma NeverReaches(parents: Parents, root: string, id: string, i: nat, seen: set<string>)
    requires Ancestor(parents, id, i).Some? && SeenAre(parents, id, seen, i)
    requires Ancestor(parents, id, i).value in seen && root !in seen
    ensures !Reaches(parents, root, id)
  {
    var j: nat :| j < i && Ancestor(parents, id, j) == Ancestor(parents, id, i);
    if Reaches(parents, root, id) {
      var n: nat :| Ancestor(parents, id, n) == Some(root);
      assert !SeenBefore(parents, id, root, i);
      var m := CycleMeetsNothingNew(parents, id, j, i, n);
    }
  }

  lemma ChainEnds(parents: Parents, root: string, id: string, i: nat, seen: set<string>)
    requires Ancestor(parents, id, i) == None && SeenAre(parents, id, seen, i) && root !in seen
    ensures !Reaches(parents, root, id)
  {
    if Reaches(parents, root, id) {
      var n: nat :| Ancestor(parents, id, n) == Some(root);
      if n >= i { StaysNone(parents, id, i, n - i); }
    }
  }

  lemma {:induction false} StaysNone(parents: Parents, id: string, i: nat, k: nat)
    requires Ancestor(parents, id, i) == None
    ensures Ancestor(parents, id, i + k) == None
  {
    if k > 0 { StaysNone(parents, id, i, k - 1); }
  }
}
