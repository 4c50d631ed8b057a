/**
 Bringing guest results back: the three-way import of one file, and the restartable completion of a run.

 The local workspace, the conflict tree and the guest-record tree of the run are separate directories.
 */
module WorkspaceImport {
  import opened Options
  import opened Base64
  import opened WorkspaceTransfer

  datatype Kind = Imported | Conflict | Candidate

  datatype Trees = Trees(root: Tree, conflicts: Tree, records: Tree)

  predicate IsManagedResearchRecord(path: string) {
    "claims/" <= path || "memories/" <= path || "runbooks/" <= path || "reports/" <= path
  }

  /** Neither the local file nor an earlier import of it may be overwritten. */
  predicate IsConflict(root: Tree, baseline: Tree, f: File) {
    Lookup(root, f.path) != Lookup(baseline, f.path) && Lookup(root, f.path) != Some(f.content)
  }

  function KindOf(root: Tree, baseline: Tree, f: File): Kind {
    if IsManagedResearchRecord(f.path) then Candidate else if IsConflict(root, baseline, f) then Conflict else Imported
  }

  function Import(t: Trees, baseline: Tree, f: File): Trees {
    match KindOf(t.root, baseline, f)
    case Candidate => t.(records := t.records[f.path := f.content])
    case Conflict => t.(conflicts := t.conflicts[f.path := f.content])
    case Imported => t.(root := t.root[f.path := f.content])
  }

  /** Unchanged since the baseline, or excluded from the way back. */
  predicate Skipped(baseline: Tree, f: File) {
    Lookup(baseline, f.path) == Some(f.content)
    || f.path == "references/research-index.json" || "traces/" <= f.path
  }

  function Complete(t: Trees, baseline: Tree, files: seq<File>): Trees
    decreases |files|
  {
    if files == [] then t
    else Complete(if Skipped(baseline, files[0]) then t else Import(t, baseline, files[0]), baseline, files[1..])
  }

  /** What each exported file counts as, in order. */
  function Kinds(t: Trees, baseline: Tree, files: seq<File>): seq<Kind>
    decreases |files|
  {
    if files == [] then []
    else if Skipped(baseline, files[0]) then Kinds(t, baseline, files[1..])
    else [KindOf(t.root, baseline, files[0])] + Kinds(Import(t, baseline, files[0]), baseline, files[1..])
  }

  function Count(kinds: seq<Kind>, k: Kind): nat {
    if kinds == [] then 0 else (if kinds[0] == k then 1 else 0) + Count(kinds[1..], k)
  }

  /** How many exported files are brought back at all. */
  function Brought(baseline: Tree, files: seq<File>): nat {
    if files == [] then 0 else (if Skipped(baseline, files[0]) then 0 else 1) + Brought(baseline, files[1..])
  }

  // ---------------------------------------------------------------- no local edit is lost

  /** A local file changes only when it was unmodified since the baseline; otherwise it stays as it is, and
      the guest's version lies beside it in the conflict or record tree of the run. */
  lemma ImportKeepsEdits(t: Trees, baseline: Tree, f: File, path: string)
    ensures Lookup(Import(t, baseline, f).root, path) != Lookup(t.root, path) ==>
      path == f.path && Lookup(t.root, path) == Lookup(baseline, path)
    ensures Lookup(Import(t, baseline, f).root, f.path) != Some(f.content) ==>
      Lookup(Import(t, baseline, f).conflicts, f.path) == Some(f.content)
      || Lookup(Import(t, baseline, f).records, f.path) == Some(f.content)
  {}

  /** A run with restarts: files are imported in any order and any number of times, and in between the user
      writes or deletes local files. `mine` is what the user last left at each path. */
  datatype Action = Bring(file: File) | Edit(path: string, content: Option<Bytes>)
  datatype Session = Session(trees: Trees, mine: Tree)

  function Put(t: Tree, path: string, content: Option<Bytes>): Tree {
    if content.Some? then t[path := content.value] else t - {path}
  }

  function Act(s: Session, baseline: Tree, a: Action): Session {
    match a
    case Bring(f) => if Skipped(baseline, f) then s else s.(trees := Import(s.trees, baseline, f))
    case Edit(path, content) =>
      Session(s.trees.(root := Put(s.trees.root, path, content)), Put(s.mine, path, content))
  }

  function ActAll(s: Session, baseline: Tree, actions: seq<Action>): Session {
    if actions == [] then s else Act(ActAll(s, baseline, actions[..|actions| - 1]), baseline, actions[|actions| - 1])
  }

  /** Whatever differs from the user's own version replaced a file the user had left as the baseline had it. */
  lemma {:induction false} EditsSurvive(root: Tree, baseline: Tree, actions: seq<Action>, path: string)
    ensures var s := ActAll(Session(Trees(root, map[], map[]), root), baseline, actions);
      Lookup(s.trees.root, path) == Lookup(s.mine, path) || Lookup(s.mine, path) == Lookup(baseline, path)
  {
    if actions != [] {
      EditsSurvive(root, baseline, actions[..|actions| - 1], path);
      var s := ActAll(Session(Trees(root, map[], map[]), root), baseline, actions[..|actions| - 1]);
      if actions[|actions| - 1].Bring? { ImportKeepsEdits(s.trees, baseline, actions[|actions| - 1].file, path); }
    }
  }

  // ---------------------------------------------------------------- restarts converge

  /** Importing f again would change nothing. */
  predicate Settled(t: Trees, baseline: Tree, f: File) { Skipped(baseline, f) || Import(t, baseline, f) == t }

  predicate PathsApart(files: seq<File>, path: string) { forall i | 0 <= i < |files| :: files[i].path != path }

  lemma OtherLeavesAlone(t: Trees, baseline: Tree, g: File, f: File)
    requires g.path != f.path
    ensures KindOf(Import(t, baseline, g).root, baseline, f) == KindOf(t.root, baseline, f)
    ensures Settled(t, baseline, f) ==> Settled(Import(t, baseline, g), baseline, f)
  {
    if Settled(t, baseline, f) && !Skipped(baseline, f) { StaysPut(t, baseline, g, f); }
  }

  lemma StaysPut(t: Trees, baseline: Tree, g: File, f: File)
    requires g.path != f.path && Import(t, baseline, f) == t
    ensures Import(Import(t, baseline, g), baseline, f) == Import(t, baseline, g)
  {
    var u := Import(t, baseline, g);
    match KindOf(t.root, baseline, f) {
      case Candidate =>
        assert t.records[f.path := f.content] == t.records;
        assert u.records[f.path := f.content] == u.records;
      case Conflict =>
        assert t.conflicts[f.path := f.content] == t.conflicts;
        assert u.conflicts[f.path := f.content] == u.conflicts;
      case Imported =>
        assert t.root[f.path := f.content] == t.root;
        assert u.root[f.path := f.content] == u.root;
    }
  }

  lemma {:induction false} OthersLeaveAlone(t: Trees, baseline: Tree, files: seq<File>, f: File)
    requires PathsApart(files, f.path)
    ensures KindOf(Complete(t, baseline, files).root, baseline, f) == KindOf(t.root, baseline, f)
    ensures Settled(t, baseline, f) ==> Settled(Complete(t, baseline, files), baseline, f)
    decreases |files|
  {
    if files != [] {
      OtherLeavesAlone(t, baseline, files[0], f);
      var u := if Skipped(baseline, files[0]) then t else Import(t, baseline, files[0]);
      OthersLeaveAlone(u, baseline, files[1..], f);
    }
  }

  lemma ImportSettles(t: Trees, baseline: Tree, f: File)
    ensures Settled(Import(t, baseline, f), baseline, f)
    ensures KindOf(Import(t, baseline, f).root, baseline, f) == KindOf(t.root, baseline, f)
  {
    match KindOf(t.root, baseline, f) {
      case Candidate => Rewritten(t.records, f);
      case Conflict => Rewritten(t.conflicts, f);
      case Imported => Rewritten(t.root, f);
    }
  }

  lemma Rewritten(t: Tree, f: File)
    ensures t[f.path := f.content][f.path := f.content] == t[f.path := f.content]
  {}

  lemma {:induction false} CompleteSettles(t: Trees, baseline: Tree, files: seq<File>, f: File)
    requires DistinctPaths(files) && f in files
    ensures Settled(Complete(t, baseline, files), baseline, f)
    ensures KindOf(Complete(t, baseline, files).root, baseline, f) == KindOf(t.root, baseline, f)
    decreases |files|
  {
    var u := if Skipped(baseline, files[0]) then t else Import(t, baseline, files[0]);
    if f == files[0] {
      ImportSettles(t, baseline, f);
      OthersLeaveAlone(u, baseline, files[1..], f);
    } else {
      CompleteSettles(u, baseline, files[1..], f);
      OthersLeaveAlone(t, baseline, [files[0]], f);
    }
  }

  lemma {:induction false} SettledIsDone(t: Trees, baseline: Tree, files: seq<File>)
    requires forall f | f in files :: Settled(t, baseline, f)
    ensures Complete(t, baseline, files) == t
    ensures Kinds(t, baseline, files) == KindsAt(t.root, baseline, files)
    decreases |files|
  {
    if files != [] {
      assert files[0] in files && forall f | f in files[1..] :: f in files;
      SettledIsDone(t, baseline, files[1..]);
    }
  }

  /** The kinds all files have in one and the same state of the local tree. */
  function KindsAt(root: Tree, baseline: Tree, files: seq<File>): seq<Kind> {
    if files == [] then [] else
    var rest := KindsAt(root, baseline, files[1..]);
    if Skipped(baseline, files[0]) then rest else [KindOf(root, baseline, files[0])] + rest
  }

  lemma {:induction false} SameKinds(a: Tree, b: Tree, baseline: Tree, files: seq<File>)
    requires forall f | f in files :: KindOf(a, baseline, f) == KindOf(b, baseline, f)
    ensures KindsAt(a, baseline, files) == KindsAt(b, baseline, files)
    decreases |files|
  {
    if files != [] {
      assert files[0] in files && forall f | f in files[1..] :: f in files;
      SameKinds(a, b, baseline, files[1..]);
    }
  }

  lemma {:induction false} KindsFromStart(t: Trees, baseline: Tree, files: seq<File>)
    requires DistinctPaths(files)
    ensures Kinds(t, baseline, files) == KindsAt(t.root, baseline, files)
    decreases |files|
  {
    if files != [] {
      var u := if Skipped(baseline, files[0]) then t else Import(t, baseline, files[0]);
      KindsFromStart(u, baseline, files[1..]);
      forall f | f in files[1..] ensures KindOf(u.root, baseline, f) == KindOf(t.root, baseline, f) {
        OthersLeaveAlone(t, baseline, [files[0]], f);
      }
      SameKinds(u.root, t.root, baseline, files[1..]);
    }
  }

  lemma {:induction false} CompleteInParts(t: Trees, baseline: Tree, a: seq<File>, b: seq<File>)
    ensures Complete(t, baseline, a + b) == Complete(Complete(t, baseline, a), baseline, b)
    decreases |a|
  {
    if a == [] {
      assert a + b == b;
    } else {
      assert (a + b)[0] == a[0] && (a + b)[1..] == a[1..] + b;
      CompleteInParts(if Skipped(baseline, a[0]) then t else Import(t, baseline, a[0]), baseline, a[1..], b);
    }
  }

  /** A completion that crashed after k files and runs again from the start ends with the same trees and the
      same counts as one that never crashed. */
  lemma CrashConverges(t: Trees, baseline: Tree, files: seq<File>, k: nat)
    requires DistinctPaths(files) && k <= |files|
    ensures Complete(Complete(t, baseline, files[..k]), baseline, files) == Complete(t, baseline, files)
    ensures Kinds(Complete(t, baseline, files[..k]), baseline, files) == Kinds(t, baseline, files)
  {
    var a, b := files[..k], files[k..];
    var u := Complete(t, baseline, a);
    assert files == a + b;
    forall f | f in a ensures Settled(u, baseline, f) && KindOf(u.root, baseline, f) == KindOf(t.root, baseline, f) {
      CompleteSettles(t, baseline, a, f);
    }
    SettledIsDone(u, baseline, a);
    CompleteInParts(u, baseline, a, b);
    CompleteInParts(t, baseline, a, b);
    KindsFromStart(u, baseline, files);
    KindsFromStart(t, baseline, files);
    forall f | f in files ensures KindOf(u.root, baseline, f) == KindOf(t.root, baseline, f) {
      if f !in a { OthersLeaveAlone(t, baseline, a, f); }
    }
    SameKinds(u.root, t.root, baseline, files);
  }

  /** The trees after any number of crashed attempts, each dying after some number of files. */
  function Crashed(t: Trees, baseline: Tree, files: seq<File>, crashes: seq<nat>): Trees
    decreases |crashes|
  {
    if crashes == [] then t else
    var k := if crashes[0] <= |files| then crashes[0] else |files|;
    Crashed(Complete(t, baseline, files[..k]), baseline, files, crashes[1..])
  }

  /** However often it crashed before, the completion that gets through produces the result of a single run. */
  lemma {:induction false} RestartsConverge(t: Trees, baseline: Tree, files: seq<File>, crashes: seq<nat>)
    requires DistinctPaths(files)
    ensures Complete(Crashed(t, baseline, files, crashes), baseline, files) == Complete(t, baseline, files)
    ensures Kinds(Crashed(t, baseline, files, crashes), baseline, files) == Kinds(t, baseline, files)
    decreases |crashes|
  {
    if crashes != [] {
      var k := if crashes[0] <= |files| then crashes[0] else |files|;
      RestartsConverge(Complete(t, baseline, files[..k]), baseline, files, crashes[1..]);
      CrashConverges(t, baseline, files, k);
    }
  }

  lemma {:induction false} CountsAddUp(t: Trees, baseline: Tree, files: seq<File>)
    ensures var kinds := Kinds(t, baseline, files);
      Count(kinds, Imported) + Count(kinds, Conflict) + Count(kinds, Candidate) == Brought(baseline, files)
    decreases |files|
  {
    if files != [] {
      CountsAddUp(if Skipped(baseline, files[0]) then t else Import(t, baseline, files[0]), baseline, files[1..]);
      assert !Skipped(baseline, files[0]) ==>
        Kinds(t, baseline, files)[1..] == Kinds(Import(t, baseline, files[0]), baseline, files[1..]);
    }
  }

  // ---------------------------------------------------------------- the importing methods

  class LocalWorkspace {
    var root: Tree
    var conflicts: Tree
    var records: Tree

    ghost function Model(): Trees
      reads this
    {
      Trees(root, conflicts, records)
    }

    /** Receives a file chunk by chunk. A failed or garbled transfer leaves no trace; a faithful one never fails. */
    method ImportGuestFile(baseline: Tree, f: File, read: nat -> Outcome<seq<Symbol>>) returns (kind: Outcome<Kind>)
      modifies this
      ensures kind.Threw? ==> Model() == old(Model())
      ensures kind.Returned? ==>
        kind.value == KindOf(old(root), baseline, f) && Model() == Import(old(Model()), baseline, f)
      ensures (forall n | 0 <= n < |f.content| :: read(n) == Returned(Encode(ReadChunk(f.content, n)))) ==>
        kind.Returned?
    {
      var conflict := IsConflict(root, baseline, f);
      var candidate := IsManagedResearchRecord(f.path);
      var received: Bytes := [];
      var offset := 0;
      ghost var faithful := forall n | 0 <= n < |f.content| :: read(n) == Returned(Encode(ReadChunk(f.content, n)));
      while offset < |f.content|
        invariant Model() == old(Model())
        invariant faithful ==> received == f.content[..if offset <= |f.content| then offset else |f.content|]
        decreases |f.content| - offset
      {
        if faithful {
          ChunkText(ReadChunk(f.content, offset));
          ChunkExtends(f.content, offset);
        }
        var encoded := read(offset);
        if encoded.Threw? { return Threw; }
        var bytes := Decode(encoded.value);
        if bytes.None? || |bytes.value| == 0 || |bytes.value| > CHUNK_BYTES { return Threw; }
        received := received + bytes.value;
        offset := offset + CHUNK_BYTES;
      }
      if |received| != |f.content| || received != f.content { return Threw; }
      if candidate {
        records := records[f.path := received];
      } else if conflict {
        conflicts := conflicts[f.path := received];
      } else {
        root := root[f.path := received];
      }
      return Returned(if candidate then Candidate else if conflict then Conflict else Imported);
    }

    /** The completion loop. It may die at any file boundary; when it gets through, the trees are those of
        `Complete` and the three counters count exactly the exported files that were brought back. */
    method CompleteOnce(baseline: Tree, exported: seq<File>, read: File -> (nat -> Outcome<seq<Symbol>>))
      returns (ok: bool, imported: nat, conflictCount: nat, candidateRecords: nat, ghost done: nat)
      modifies this
      ensures done <= |exported| && Model() == Complete(old(Model()), baseline, exported[..done])
      ensures ok ==> done == |exported| && imported + conflictCount + candidateRecords == Brought(baseline, exported)
      ensures ok ==> var kinds := Kinds(old(Model()), baseline, exported);
        && imported == Count(kinds, Imported)
        && conflictCount == Count(kinds, Conflict)
        && candidateRecords == Count(kinds, Candidate)
    {
      ok, imported, conflictCount, candidateRecords, done := true, 0, 0, 0, 0;
      ghost var start := Model();
      for i := 0 to |exported|
        invariant ok && done == i
        invariant Model() == Complete(start, baseline, exported[..i])
        invariant CountedSoFar(start, Model(), baseline, exported, i, imported, conflictCount, candidateRecords)
      {
        CompleteInParts(start, baseline, exported[..i], [exported[i]]);
        assert exported[..i] + [exported[i]] == exported[..i + 1];
        ghost var before := Model();
        var file := exported[i];
        if !Skipped(baseline, file) {
          var result := ImportGuestFile(baseline, file, read(file));
          if result.Threw? { ok := false; return; }
          match result.value {
            case Imported => imported := imported + 1;
            case Conflict => conflictCount := conflictCount + 1;
            case Candidate => candidateRecords := candidateRecords + 1;
          }
        }
        CountNext(before, baseline, exported, i);
        done := i + 1;
      }
      assert exported[..|exported|] == exported && exported[|exported|..] == [];
      CountsAddUp(start, baseline, exported);
    }
  }

  /** The counters so far, plus what the remaining files will count as, make up the whole. */
  ghost predicate CountedSoFar(start: Trees, now: Trees, baseline: Tree, files: seq<File>, i: nat,
                               a: nat, b: nat, c: nat)
    requires i <= |files|
  {
    var all, rest := Kinds(start, baseline, files), Kinds(now, baseline, files[i..]);
    && Count(all, Imported) == a + Count(rest, Imported)
    && Count(all, Conflict) == b + Count(rest, Conflict)
    && Count(all, Candidate) == c + Count(rest, Candidate)
  }

  lemma CountNext(t: Trees, baseline: Tree, files: seq<File>, i: nat)
    requires i < |files|
    ensures var u := if Skipped(baseline, files[i]) then t else Import(t, baseline, files[i]);
      forall k :: Count(Kinds(t, baseline, files[i..]), k) == Count(Kinds(u, baseline, files[i + 1..]), k)
        + (if !Skipped(baseline, files[i]) && KindOf(t.root, baseline, files[i]) == k then 1 else 0)
  {
    assert files[i..][1..] == files[i + 1..];
    if !Skipped(baseline, files[i]) {
      assert Kinds(t, baseline, files[i..])[1..] == Kinds(Import(t, baseline, files[i]), baseline, files[i + 1..]);
    }
  }
}
