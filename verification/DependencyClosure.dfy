/**
 Copying the installed dependencies of the workspace packages to a guest (fleetGuestInstall.ts): a worklist over
 the links of the virtual store, which may form cycles.
 */
module DependencyClosure {
  import opened Options

  type Id = string

  /** What a link resolves to: a package of the virtual store, something else in or outside the workspace, or
      nothing at all. */
  datatype Target = Package(id: Id) | Workspace | Elsewhere | Dangling

  datatype Entry = Entry(name: string, kind: Kind)
  datatype Kind = Link(target: Target) | Directory(entries: seq<Entry>) | File

  /** The virtual store: the node_modules listing of each package directory, if it has one. */
  type Store = map<Id, Option<seq<Entry>>>

  predicate IsScope(e: Entry) { e.kind.Directory? && "@" <= e.name }

  /** The link targets found in a listing, scope directories included. */
  function Found(entries: seq<Entry>): seq<Target> {
    if entries == [] then [] else FoundAt(entries[0]) + Found(entries[1..])
  }

  function FoundAt(e: Entry): seq<Target> {
    if IsScope(e) then Found(e.kind.entries) else if e.kind.Link? then [e.kind.target] else []
  }

  lemma {:induction false} FoundInParts(a: seq<Entry>, b: seq<Entry>)
    ensures Found(a + b) == Found(a) + Found(b)
    decreases |a|
  {
    if a == [] {
      assert a + b == b;
    } else {
      assert (a + b)[1..] == a[1..] + b;
      FoundInParts(a[1..], b);
    }
  }

  /** The packages among some targets, in order: what enqueueVirtualPackage pushes for them. */
  function Packages(targets: seq<Target>): seq<Id> {
    if targets == [] then []
    else (if targets[0].Package? then [targets[0].id] else []) + Packages(targets[1..])
  }

  lemma {:induction false} PackagesInParts(a: seq<Target>, b: seq<Target>)
    ensures Packages(a + b) == Packages(a) + Packages(b)
    decreases |a|
  {
    if a == [] {
      assert a + b == b;
    } else {
      assert (a + b)[1..] == a[1..] + b;
      PackagesInParts(a[1..], b);
    }
  }

  lemma {:induction false} PackagesAre(targets: seq<Target>, id: Id)
    ensures id in Packages(targets) <==> Package(id) in targets
    decreases |targets|
  {
    if targets != [] {
      PackagesAre(targets[1..], id);
      assert Package(id) in targets <==> Package(id) == targets[0] || Package(id) in targets[1..];
    }
  }

  lemma FoundOne(e: Entry)
    ensures Found([e]) == FoundAt(e)
  {
    assert FoundAt(e) + [] == FoundAt(e) && [e][1..] == [];
  }

  lemma FoundSoFar(entries: seq<Entry>, i: nat)
    requires i < |entries|
    ensures Found(entries[..i + 1]) == Found(entries[..i]) + FoundAt(entries[i])
  {
    assert entries[..i + 1] == entries[..i] + [entries[i]];
    FoundInParts(entries[..i], [entries[i]]);
    FoundOne(entries[i]);
  }

  lemma FoundSplits(entries: seq<Entry>, n: nat)
    requires n <= |entries|
    ensures Found(entries) == Found(entries[..n]) + Found(entries[n..])
  {
    assert entries == entries[..n] + entries[n..];
    FoundInParts(entries[..n], entries[n..]);
  }

  /** Scanning one more entry adds what is found at that entry. */
  lemma FoundNext(entries: seq<Entry>, i: nat)
    requires i < |entries|
    ensures Packages(Found(entries[..i + 1])) == Packages(Found(entries[..i])) + Packages(FoundAt(entries[i]))
    ensures forall t :: t in Found(entries[..i + 1]) <==> t in Found(entries[..i]) || t in FoundAt(entries[i])
    ensures forall t | t in FoundAt(entries[i]) :: t in Found(entries)
  {
    FoundSoFar(entries, i);
    FoundSplits(entries, i + 1);
    PackagesInParts(Found(entries[..i]), FoundAt(entries[i]));
  }

  // ---------------------------------------------------------------- what has to be copied

  function Links(store: Store, id: Id): seq<Target> {
    if id in store && store[id].Some? then Found(store[id].value) else []
  }

  predicate Edge(store: Store, from: Id, to: Id) { Package(to) in Links(store, from) }

  predicate IsRoot(packages: seq<seq<Target>>, id: Id) {
    exists i | 0 <= i < |packages| :: Package(id) in packages[i]
  }

  predicate IsPath(store: Store, packages: seq<seq<Target>>, path: seq<Id>) {
    path != [] && IsRoot(packages, path[0]) && forall i | 0 < i < |path| :: Edge(store, path[i - 1], path[i])
  }

  ghost predicate Reachable(store: Store, packages: seq<seq<Target>>, id: Id) {
    exists path :: IsPath(store, packages, path) && path[|path| - 1] == id
  }

  lemma RootReachable(store: Store, packages: seq<seq<Target>>, id: Id)
    requires IsRoot(packages, id)
    ensures Reachable(store, packages, id)
  {
    assert IsPath(store, packages, [id]) && [id][0] == id;
  }

  lemma EdgeReachable(store: Store, packages: seq<seq<Target>>, from: Id, to: Id)
    requires Reachable(store, packages, from) && Edge(store, from, to)
    ensures Reachable(store, packages, to)
  {
    var path :| IsPath(store, packages, path) && path[|path| - 1] == from;
    assert IsPath(store, packages, path + [to]) && (path + [to])[|path|] == to;
  }

  ghost predicate Closed(store: Store, packages: seq<seq<Target>>, s: set<Id>) {
    (forall id | IsRoot(packages, id) :: id in s) && forall a, b | a in s && Edge(store, a, b) :: b in s
  }

  lemma {:induction false} PathStaysIn(store: Store, packages: seq<seq<Target>>, s: set<Id>, path: seq<Id>)
    requires Closed(store, packages, s) && IsPath(store, packages, path)
    ensures path[|path| - 1] in s
    decreases |path|
  {
    if |path| > 1 { PathStaysIn(store, packages, s, path[..|path| - 1]); }
  }

  lemma ReachableStaysIn(store: Store, packages: seq<seq<Target>>, s: set<Id>, id: Id)
    requires Closed(store, packages, s) && Reachable(store, packages, id)
    ensures id in s
  {
    var path :| IsPath(store, packages, path) && path[|path| - 1] == id;
    PathStaysIn(store, packages, s, path);
  }

  /** Nothing stands in the way of copying a package and scanning its links. */
  predicate Intact(store: Store, id: Id) { id in store && Dangling !in Links(store, id) }

  /** A dependency of a workspace package must be installed, inside the workspace. */
  predicate Installed(t: Target) { t.Package? || t.Workspace? }

  /** When the copy can succeed at all. */
  ghost predicate Copyable(store: Store, packages: seq<seq<Target>>) {
    && (forall i, t | 0 <= i < |packages| && t in packages[i] :: Installed(t))
    && (forall id | Reachable(store, packages, id) :: Intact(store, id))
  }

  // ---------------------------------------------------------------- the worklist

  /** What holds between two rounds of the worklist loop. */
  ghost predicate Working(store: Store, packages: seq<seq<Target>>, copied: set<Id>, pending: seq<Id>, written: seq<Id>)
  {
    && (forall id | id in copied || id in pending :: Reachable(store, packages, id))
    && (forall id | IsRoot(packages, id) :: id in copied || id in pending)
    && (forall a, b | a in copied && Edge(store, a, b) :: b in copied || b in pending)
    && (forall id | id in copied :: Intact(store, id))
    && (forall id :: id in written <==> id in copied)
    && NoneTwice(written)
  }

  predicate NoneTwice(written: seq<Id>) { forall i, j | 0 <= i < j < |written| :: written[i] != written[j] }

  /** What can be said of the copies made so far, also after a failure. */
  ghost predicate Sound(store: Store, packages: seq<seq<Target>>, written: seq<Id>) {
    (forall id | id in written :: Reachable(store, packages, id)) && NoneTwice(written)
  }

  /** The next package is wanted, and trying to copy it keeps the copies sound. */
  lemma InView(store: Store, packages: seq<seq<Target>>, copied: set<Id>, pending: seq<Id>, written: seq<Id>, id: Id)
    requires Working(store, packages, copied, pending + [id], written) && id !in copied
    ensures Sound(store, packages, written + [id]) && Sound(store, packages, written)
    ensures !Intact(store, id) ==> !Copyable(store, packages)
  {
    assert id in pending + [id];
  }

  lemma StartWorks(store: Store, packages: seq<seq<Target>>, pending: seq<Id>)
    requires forall id :: id in pending <==> IsRoot(packages, id)
    ensures Working(store, packages, {}, pending, [])
  {
    forall id | id in pending ensures Reachable(store, packages, id) { RootReachable(store, packages, id); }
  }

  lemma SkipKeeps(store: Store, packages: seq<seq<Target>>, copied: set<Id>, pending: seq<Id>, written: seq<Id>, id: Id)
    requires Working(store, packages, copied, pending + [id], written) && id in copied
    ensures Working(store, packages, copied, pending, written)
  {}

  lemma LinksReachable(store: Store, packages: seq<seq<Target>>, id: Id)
    requires Reachable(store, packages, id)
    ensures forall b :: b in Packages(Links(store, id)) <==> Edge(store, id, b)
    ensures forall b | b in Packages(Links(store, id)) :: Reachable(store, packages, b)
  {
    forall b ensures b in Packages(Links(store, id)) <==> Edge(store, id, b) { PackagesAre(Links(store, id), b); }
    forall b | Edge(store, id, b) ensures Reachable(store, packages, b) { EdgeReachable(store, packages, id, b); }
  }

  lemma CopyKeeps(store: Store, packages: seq<seq<Target>>, copied: set<Id>, pending: seq<Id>, written: seq<Id>, id: Id)
    requires Working(store, packages, copied, pending + [id], written) && id !in copied && Intact(store, id)
    ensures Working(store, packages, copied + {id}, pending + Packages(Links(store, id)), written + [id])
  {
    assert id in pending + [id];
    LinksReachable(store, packages, id);
    var more := Packages(Links(store, id));
    assert forall k :: k in pending + [id] ==> k in copied + {id} || k in pending + more;
  }

  /** An empty worklist means everything reachable has been copied. */
  lemma {:induction false} EmptyMeansDone(store: Store, packages: seq<seq<Target>>, copied: set<Id>, written: seq<Id>)
    requires Working(store, packages, copied, [], written)
    ensures forall id :: id in written <==> Reachable(store, packages, id)
    ensures forall id | Reachable(store, packages, id) :: Intact(store, id)
  {
    assert Closed(store, packages, copied);
    forall id | Reachable(store, packages, id) ensures id in copied { ReachableStaysIn(store, packages, copied, id); }
  }

  class RuntimeCopy {
    const store: Store
    const packages: seq<seq<Target>>
    var pending: seq<Id>
    var copied: set<Id>
    /** The packages written to the destination, in order. */
    var written: seq<Id>

    constructor (store: Store, packages: seq<seq<Target>>)
      ensures this.store == store && this.packages == packages && pending == [] && copied == {} && written == []
    {
      this.store, this.packages := store, packages;
      pending, copied, written := [], {}, [];
    }

    method EnqueueVirtualPackage(t: Target)
      modifies `pending
      ensures pending == old(pending) + Packages([t])
    {
      if t.Package? { pending := pending + [t.id]; }
    }

    method ScanDependencyLinks(entries: seq<Entry>) returns (ok: bool)
      modifies `pending
      ensures ok <==> Dangling !in Found(entries)
      ensures ok ==> pending == old(pending) + Packages(Found(entries))
      decreases entries
    {
      for i := 0 to |entries|
        invariant Dangling !in Found(entries[..i])
        invariant pending == old(pending) + Packages(Found(entries[..i]))
      {
        var entry := entries[i];
        FoundNext(entries, i);
        if IsScope(entry) {
          var fine := ScanDependencyLinks(entry.kind.entries);
          if !fine { return false; }
        } else if entry.kind.Link? {
          if entry.kind.target.Dangling? { return false; }
          EnqueueVirtualPackage(entry.kind.target);
        }
      }
      assert entries[..|entries|] == entries;
      return true;
    }

    /** The first loop: the dependency links of the workspace packages. */
    method EnqueueRoots() returns (ok: bool)
      requires pending == []
      modifies `pending
      ensures ok <==> forall i, t | 0 <= i < |packages| && t in packages[i] :: Installed(t)
      ensures ok ==> forall id :: id in pending <==> IsRoot(packages, id)
    {
      for i := 0 to |packages|
        invariant forall k, t | 0 <= k < i && t in packages[k] :: Installed(t)
        invariant forall id :: id in pending <==> IsRoot(packages[..i], id)
      {
        ghost var before := pending;
        for j := 0 to |packages[i]|
          invariant forall t | t in packages[i][..j] :: Installed(t)
          invariant pending == before + Packages(packages[i][..j])
        {
          var target := packages[i][j];
          assert packages[i][..j + 1] == packages[i][..j] + [target];
          PackagesInParts(packages[i][..j], [target]);
          if !Installed(target) { return false; }
          EnqueueVirtualPackage(target);
        }
        assert packages[i][..|packages[i]|] == packages[i];
        RootsNext(packages, i, before, pending);
      }
      assert packages[..|packages|] == packages;
      return true;
    }

    /** Copies one package of the virtual store and enqueues what it links to. */
    method CopyPackage(id: Id) returns (ok: bool)
      modifies this
      ensures ok <==> Intact(store, id)
      ensures ok ==> pending == old(pending) + Packages(Links(store, id))
      ensures copied == old(copied) + {id}
      ensures written == old(written) + if id in store then [id] else []
    {
      copied := copied + {id};
      if id !in store { return false; }
      written := written + [id];
      if store[id].Some? {
        ok := ScanDependencyLinks(store[id].value);
      } else {
        ok := true;
      }
    }

    /** One round of the worklist loop. */
    method NextPending() returns (ok: bool)
      requires pending != [] && Working(store, packages, copied, pending, written)
      modifies this
      ensures ok ==> Working(store, packages, copied, pending, written)
      ensures ok ==> old(copied) <= copied && (copied == old(copied) ==> |pending| < |old(pending)|)
      ensures ok ==>
        copied == old(copied) || exists id | id in store && id !in old(copied) :: copied == old(copied) + {id}
      ensures !ok ==> !Copyable(store, packages) && Sound(store, packages, written)
    {
      var id := pending[|pending| - 1];
      assert pending == pending[..|pending| - 1] + [id];
      pending := pending[..|pending| - 1];
      ghost var before, rest, already := copied, pending, written;
      if id in copied {
        SkipKeeps(store, packages, copied, rest, written, id);
        return true;
      }
      InView(store, packages, copied, rest, written, id);
      ok := CopyPackage(id);
      if ok { CopyKeeps(store, packages, before, rest, already, id); }
    }

    /** Ends whatever cycles the links form, and copies exactly the packages reachable from the workspace
        packages, each once; it fails just when one of them cannot be copied or scanned. */
    method CopyWorkspaceRuntime() returns (ok: bool)
      requires pending == [] && copied == {} && written == []
      modifies this
      ensures ok <==> Copyable(store, packages)
      ensures ok ==> forall id :: id in written <==> Reachable(store, packages, id)
      ensures Sound(store, packages, written)
    {
      ok := EnqueueRoots();
      if !ok { return; }
      StartWorks(store, packages, pending);
      while pending != []
        invariant Working(store, packages, copied, pending, written)
        decreases store.Keys - copied, |pending|
      {
        ok := NextPending();
        if !ok { return; }
      }
      EmptyMeansDone(store, packages, copied, written);
    }
  }

  lemma RootsNext(packages: seq<seq<Target>>, i: nat, before: seq<Id>, after: seq<Id>)
    requires i < |packages| && after == before + Packages(packages[i])
    requires forall id :: id in before <==> IsRoot(packages[..i], id)
    ensures forall id :: id in after <==> IsRoot(packages[..i + 1], id)
  {
    forall id ensures id in after <==> IsRoot(packages[..i + 1], id) {
      PackagesAre(packages[i], id);
      assert packages[..i + 1][i] == packages[i];
      assert forall k | 0 <= k < i :: packages[..i + 1][k] == packages[..i][k];
    }
  }
}
