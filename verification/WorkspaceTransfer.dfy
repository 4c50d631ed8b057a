/**
 Moving a workspace to a Fleet guest and bringing the results back (fleetWorkspace.ts, and the staging and
 completion loops of fleetRemote.ts).

 A SHA-256 digest is modelled by the content it identifies, that is, without collisions.
 */
module WorkspaceTransfer {
  import opened Options
  import opened Base64

  const CHUNK_BYTES: nat := 192 * 1024
  const MAX_FILE_BYTES: nat := 2 * 1024 * 1024 * 1024

  type Tree = map<string, Bytes>

  /** A file as a listing shows it: path, and size and digest by way of the content. */
  datatype File = File(path: string, content: Bytes)

  function Lookup(t: Tree, path: string): Option<Bytes> { if path in t then Some(t[path]) else None }

  predicate DistinctPaths(files: seq<File>) {
    forall i, j | 0 <= i < j < |files| :: files[i].path != files[j].path
  }

  function ReadChunk(content: Bytes, offset: nat): Bytes
    requires offset <= |content|
  {
    content[offset..if offset + CHUNK_BYTES <= |content| then offset + CHUNK_BYTES else |content|]
  }

  lemma ChunkText(chunk: Bytes)
    requires |chunk| <= CHUNK_BYTES
    ensures Decode(Encode(chunk)) == Some(chunk) && |Encode(chunk)| <= 2 * CHUNK_BYTES
  {
    DecodeEncode(chunk);
    EncodedLength(chunk);
  }

  lemma ChunkExtends(content: Bytes, offset: nat)
    requires offset <= |content|
    ensures content[..offset] + ReadChunk(content, offset) == content[..offset + |ReadChunk(content, offset)|]
  {}

  // ---------------------------------------------------------------- staging: primary to guest

  /** One accepted or refused write: offset 0 replaces the file, any other offset must be its size. */
  function Written(t: Tree, path: string, offset: nat, data: seq<Symbol>): Outcome<Tree> {
    if |data| > 2 * CHUNK_BYTES || Decode(data).None? then Threw else
    var bytes := Decode(data).value;
    if |bytes| > CHUNK_BYTES || offset + |bytes| > MAX_FILE_BYTES then Threw
    else if offset == 0 then Returned(t[path := bytes])
    else if path !in t || |t[path]| != offset then Threw
    else Returned(t[path := t[path] + bytes])
  }

  datatype Write = Write(offset: nat, data: seq<Symbol>)

  /** A file after a sequence of writes, of which refused ones change nothing. */
  function WriteAll(t: Tree, path: string, writes: seq<Write>): Tree {
    if writes == [] then t else
    var before := WriteAll(t, path, writes[..|writes| - 1]);
    var last := writes[|writes| - 1];
    match Written(before, path, last.offset, last.data)
    case Threw => before
    case Returned(after) => after
  }

  /** No write of the sequence was refused. */
  predicate Accepted(t: Tree, path: string, writes: seq<Write>) {
    writes == [] || (
      var before, last := writes[..|writes| - 1], writes[|writes| - 1];
      Accepted(t, path, before) && Written(WriteAll(t, path, before), path, last.offset, last.data).Returned?)
  }

  function Data(w: Write): Bytes { if Decode(w.data).Some? then Decode(w.data).value else [] }

  function Payload(writes: seq<Write>): Bytes {
    if writes == [] then [] else Payload(writes[..|writes| - 1]) + Data(writes[|writes| - 1])
  }

  lemma AcceptedWrite(t: Tree, path: string, w: Write)
    requires Written(t, path, w.offset, w.data).Returned?
    ensures w.offset != 0 ==> path in t
    ensures Lookup(Written(t, path, w.offset, w.data).value, path)
      == Some((if w.offset == 0 then [] else t[path]) + Data(w))
  {
    assert [] + Data(w) == Data(w);
  }

  lemma LastWrite(t: Tree, path: string, writes: seq<Write>)
    requires Accepted(t, path, writes) && writes != []
    ensures var before, w := WriteAll(t, path, writes[..|writes| - 1]), writes[|writes| - 1];
      && (w.offset != 0 ==> path in before)
      && Lookup(WriteAll(t, path, writes), path) == Some((if w.offset == 0 then [] else before[path]) + Data(w))
  {
    AcceptedWrite(WriteAll(t, path, writes[..|writes| - 1]), path, writes[|writes| - 1]);
  }

  lemma PayloadSplits(writes: seq<Write>, k: nat)
    requires k < |writes|
    ensures Payload(writes[k..]) == Payload(writes[..|writes| - 1][k..]) + Data(writes[|writes| - 1])
  {
    var n := |writes| - 1;
    assert writes[k..][..n - k] == writes[..n][k..] && writes[k..][n - k] == writes[n];
  }

  /** Write k is the last one at offset 0. */
  predicate LastReset(writes: seq<Write>, k: nat) {
    k < |writes| && writes[k].offset == 0 && forall i | k < i < |writes| :: writes[i].offset != 0
  }

  lemma EarlierReset(writes: seq<Write>, k: nat)
    requires LastReset(writes, k) && k < |writes| - 1
    ensures LastReset(writes[..|writes| - 1], k)
  {}

  lemma LastResets(t: Tree, path: string, writes: seq<Write>)
    requires Accepted(t, path, writes) && writes != [] && writes[|writes| - 1].offset == 0
    ensures Lookup(WriteAll(t, path, writes), path) == Some([] + Data(writes[|writes| - 1]))
  {
    LastWrite(t, path, writes);
  }

  lemma AcceptedBefore(t: Tree, path: string, writes: seq<Write>)
    requires Accepted(t, path, writes) && writes != []
    ensures Accepted(t, path, writes[..|writes| - 1])
  {}

  lemma LastAppends(t: Tree, path: string, writes: seq<Write>, before: Bytes)
    requires Accepted(t, path, writes) && writes != [] && writes[|writes| - 1].offset != 0
    requires Lookup(WriteAll(t, path, writes[..|writes| - 1]), path) == Some(before)
    ensures Lookup(WriteAll(t, path, writes), path) == Some(before + Data(writes[|writes| - 1]))
  {
    LastWrite(t, path, writes);
  }

  lemma StagedAtReset(t: Tree, path: string, writes: seq<Write>)
    requires Accepted(t, path, writes) && writes != [] && writes[|writes| - 1].offset == 0
    ensures Lookup(WriteAll(t, path, writes), path) == Some(Payload(writes[|writes| - 1..]))
  {
    var n := |writes| - 1;
    PayloadSplits(writes, n);
    assert writes[..n][n..] == [];
    LastResets(t, path, writes);
  }

  lemma StagedFurther(t: Tree, path: string, writes: seq<Write>, k: nat)
    requires Accepted(t, path, writes) && k < |writes| - 1 && writes[|writes| - 1].offset != 0
    requires Lookup(WriteAll(t, path, writes[..|writes| - 1]), path) == Some(Payload(writes[..|writes| - 1][k..]))
    ensures Lookup(WriteAll(t, path, writes), path) == Some(Payload(writes[k..]))
  {
    PayloadSplits(writes, k);
    LastAppends(t, path, writes, Payload(writes[..|writes| - 1][k..]));
  }

  /** Any accepted sequence of writes leaves the file equal to the chunks since its last offset-0 write. */
  lemma {:induction false} StagedIsConcatenation(t: Tree, path: string, writes: seq<Write>, k: nat)
    requires Accepted(t, path, writes) && LastReset(writes, k)
    ensures Lookup(WriteAll(t, path, writes), path) == Some(Payload(writes[k..]))
    decreases |writes|
  {
    if k < |writes| - 1 {
      EarlierReset(writes, k);
      AcceptedBefore(t, path, writes);
      StagedIsConcatenation(t, path, writes[..|writes| - 1], k);
      StagedFurther(t, path, writes, k);
    } else {
      StagedAtReset(t, path, writes);
    }
  }

  /** The guest accepts the next chunk of a file it has so far, and then has that much more of it. */
  lemma NextChunk(t: Tree, path: string, content: Bytes, offset: nat)
    requires offset <= |content| <= MAX_FILE_BYTES
    requires offset > 0 ==> Lookup(t, path) == Some(content[..offset])
    ensures Written(t, path, offset, Encode(ReadChunk(content, offset)))
      == Returned(t[path := content[..offset + |ReadChunk(content, offset)|]])
  {
    ChunkText(ReadChunk(content, offset));
    ChunkExtends(content, offset);
    assert content[..0] + ReadChunk(content, 0) == ReadChunk(content, 0);
  }

  class GuestStage {
    var files: Tree

    constructor (initial: Tree)
      ensures files == initial
    {
      files := initial;
    }

    method WriteChunk(path: string, offset: nat, data: seq<Symbol>) returns (ok: bool)
      modifies this
      ensures var w := Written(old(files), path, offset, data);
        ok == w.Returned? && files == if ok then w.value else old(files)
    {
      if |data| > 2 * CHUNK_BYTES { return false; }
      var bytes := Decode(data);
      if bytes.None? || |bytes.value| > CHUNK_BYTES || offset + |bytes.value| > MAX_FILE_BYTES { return false; }
      if offset == 0 {
        files := files[path := bytes.value];
      } else {
        if path !in files || |files[path]| != offset { return false; }
        files := files[path := files[path] + bytes.value];
      }
      return true;
    }

    method Seal(path: string, sha256: Bytes) returns (ok: bool)
      ensures ok <==> Lookup(files, path) == Some(sha256)
    {
      return path in files && files[path] == sha256;
    }

    /** The chunk loop. Only the network can make it fail: the guest refuses nothing. */
    method SendChunks(file: File) returns (ok: bool, refused: bool)
      requires |file.content| <= MAX_FILE_BYTES
      modifies this
      ensures !refused
      ensures ok ==> files == if file.content == [] then old(files) else old(files)[file.path := file.content]
      ensures forall p | p != file.path :: Lookup(files, p) == Lookup(old(files), p)
    {
      var offset := 0;
      while offset < |file.content|
        invariant offset <= |file.content|
        invariant files == if offset == 0 then old(files) else old(files)[file.path := file.content[..offset]]
        decreases |file.content| - offset
      {
        var reached: bool := *;
        if !reached { return false, false; }
        NextChunk(files, file.path, file.content, offset);
        var chunk := ReadChunk(file.content, offset);
        var written := WriteChunk(file.path, offset, Encode(chunk));
        if !written { return false, true; }
        offset := offset + |chunk|;
      }
      assert file.content[..offset] == file.content;
      return true, false;
    }

    /** Sends one file, an empty one by an empty chunk, and seals it. */
    method SendFile(file: File) returns (ok: bool, refused: bool)
      requires |file.content| <= MAX_FILE_BYTES
      modifies this
      ensures !refused
      ensures ok ==> files == old(files)[file.path := file.content]
      ensures forall p | p != file.path :: Lookup(files, p) == Lookup(old(files), p)
    {
      ok, refused := SendChunks(file);
      if !ok { return; }
      if |file.content| == 0 {
        var reached: bool := *;
        if !reached { return false, false; }
        assert file.content == [] && ReadChunk([], 0) == [];
        NextChunk(files, file.path, [], 0);
        var written := WriteChunk(file.path, 0, Encode([]));
        if !written { return false, true; }
      }
      var sealed := Seal(file.path, file.content);
      return true, !sealed;
    }

    /** The staging loop of prepare: afterwards every source file exists on the guest with the source's content,
        sent, skipped because it was there already, or empty; other guest files are left alone. */
    method StageAll(source: seq<File>) returns (ok: bool, refused: bool)
      requires DistinctPaths(source) && forall f | f in source :: |f.content| <= MAX_FILE_BYTES
      modifies this
      ensures !refused
      ensures ok ==> forall f | f in source :: Lookup(files, f.path) == Some(f.content)
      ensures forall p | (forall f | f in source :: f.path != p) :: Lookup(files, p) == Lookup(old(files), p)
    {
      var remoteHashes := files;
      for i := 0 to |source|
        invariant forall k | 0 <= k < i :: Lookup(files, source[k].path) == Some(source[k].content)
        invariant forall k | i <= k < |source| :: Lookup(files, source[k].path) == Lookup(remoteHashes, source[k].path)
        invariant forall p | (forall f | f in source :: f.path != p) :: Lookup(files, p) == Lookup(old(files), p)
      {
        var file := source[i];
        assert file in source;
        if Lookup(remoteHashes, file.path) == Some(file.content) { continue; }
        var sent, no := SendFile(file);
        if !sent { return false, no; }
      }
      return true, false;
    }
  }
}
