/** The exact-commit helper (native/fs-commit/src/commit.rs): walk the parent without symlinks, check the
    snapshot, write a private temp file, revalidate, rename. Proved on a file system that others change
    between any two calls. */
module FileCommit {
  import opened Ascii
  import opened Optional
  import opened Fips180
  import Sha256
  import opened Disk

  datatype Code = IoError | ParentSymlink | TargetSymlink | SnapshotChanged | CrossDeviceRename | Timeout
  datatype Outcome = Committed(digest: string) | Refused(code: Code)

  /** A destination split into components; `final` is None for "/" and for a path that ends in "..". */
  datatype Path = Path(absolute: bool, parent: seq<Name>, final: Option<Name>)

  datatype ReadResult = Bytes(bytes: seq<Byte>) | Absent | Unreadable | OutOfTime
  datatype Parent = Found(dir: Inode) | NotFound(code: Code)

  predicate CString(name: Name) {
    '\0' !in name
  }

  // ---- What a read of a changing file proves

  function Assembled(gs: seq<Glimpse>): seq<Byte> {
    if gs == [] then [] else Assembled(gs[..|gs| - 1]) + Piece(gs[|gs| - 1])
  }

  /** The glimpses follow one another over one inode. */
  predicate Contiguous(gs: seq<Glimpse>, inode: Inode) {
    forall k :: 0 <= k < |gs| ==> gs[k].inode == inode && gs[k].offset == |Assembled(gs[..k])|
  }

  /** The glimpses read the inode from its start to its end and got `bytes`. */
  predicate WholeRead(gs: seq<Glimpse>, inode: Inode, bytes: seq<Byte>) {
    && gs != [] && Contiguous(gs, inode) && Assembled(gs) == bytes
    && gs[|gs| - 1].count == 0 && |gs[|gs| - 1].content| <= |bytes|
  }

  lemma {:induction false} PiecesOfOne(gs: seq<Glimpse>, inode: Inode, file: seq<Byte>)
    requires Contiguous(gs, inode) && forall k :: 0 <= k < |gs| ==> gs[k].content == file
    ensures Assembled(gs) <= file
  {
    if gs != [] {
      var front, g := gs[..|gs| - 1], gs[|gs| - 1];
      ContiguousBefore(gs, inode);
      PiecesOfOne(front, inode, file);
      PrefixGrows(Assembled(front), file, Piece(g));
    }
  }

  lemma ContiguousBefore(gs: seq<Glimpse>, inode: Inode)
    requires gs != [] && Contiguous(gs, inode)
    ensures Contiguous(gs[..|gs| - 1], inode)
  {
    var front := gs[..|gs| - 1];
    forall k | 0 <= k < |front| ensures front[k].inode == inode && front[k].offset == |Assembled(front[..k])| {
      assert front[..k] == gs[..k];
    }
  }

  lemma PrefixGrows(p: seq<Byte>, file: seq<Byte>, piece: seq<Byte>)
    requires p <= file && (piece == [] || (|p| + |piece| <= |file| && piece == file[|p|..|p| + |piece|]))
    ensures p + piece <= file
  {
  }

  /** When nobody changed the file while it was read, the bytes are the file. */
  lemma UndisturbedRead(gs: seq<Glimpse>, inode: Inode, bytes: seq<Byte>, file: seq<Byte>)
    requires WholeRead(gs, inode, bytes) && forall k :: 0 <= k < |gs| ==> gs[k].content == file
    ensures bytes == file
  {
    PiecesOfOne(gs, inode, file);
  }

  lemma ContiguousOn(gs: seq<Glimpse>, inode: Inode, g: Glimpse)
    requires Contiguous(gs, inode) && g.inode == inode && g.offset == |Assembled(gs)|
    ensures Contiguous(gs + [g], inode) && Assembled(gs + [g]) == Assembled(gs) + Piece(g)
  {
    var all := gs + [g];
    assert all[..|gs|] == gs;
    assert forall k :: 0 <= k < |gs| ==> all[..k] == gs[..k];
  }

  // ---- The parts of the helper

  /** The descriptors from the root to the last were opened one under the other, by the given names, and each
      is a directory itself (an inode keeps its kind, so it was one then). */
  predicate Walked(root: Inode, hops: seq<Hop>, nodes: map<Inode, Node>, names: seq<Name>, walk: seq<Inode>) {
    |walk| == |names| + 1 && walk[0] == root && forall k :: 0 <= k < |names| ==> Walks(hops, nodes, names, walk, k)
  }

  predicate Walks(hops: seq<Hop>, nodes: map<Inode, Node>, names: seq<Name>, walk: seq<Inode>, k: nat)
    requires k < |names| && k + 1 < |walk|
  {
    && Hop(walk[k], names[k], walk[k + 1]) in hops
    && walk[k + 1] in nodes && nodes[walk[k + 1]].Directory?
  }

  lemma HopKept(h: Hop, hops: seq<Hop>, later: seq<Hop>)
    requires h in hops && hops <= later
    ensures h in later
  {
    var i :| 0 <= i < |hops| && hops[i] == h;
    assert later[i] == h;
  }

  lemma WalkedKept(root: Inode, hops: seq<Hop>, nodes: map<Inode, Node>, hops': seq<Hop>, nodes': map<Inode, Node>,
                   names: seq<Name>, walk: seq<Inode>)
    requires Walked(root, hops, nodes, names, walk) && hops <= hops' && Kept(nodes, nodes')
    ensures Walked(root, hops', nodes', names, walk)
  {
    forall k | 0 <= k < |names| ensures Walks(hops', nodes', names, walk, k) {
      assert Walks(hops, nodes, names, walk, k);
      HopKept(Hop(walk[k], names[k], walk[k + 1]), hops, hops');
    }
  }

  lemma WalkedOn(root: Inode, hops: seq<Hop>, nodes: map<Inode, Node>, names: seq<Name>, walk: seq<Inode>, n: nat, next: Inode)
    requires n < |names| && Walked(root, hops, nodes, names[..n], walk)
    requires Hop(walk[n], names[n], next) in hops && next in nodes && nodes[next].Directory?
    ensures Walked(root, hops, nodes, names[..n + 1], walk + [next])
  {
    var names', walk' := names[..n + 1], walk + [next];
    forall k | 0 <= k < |names'| ensures Walks(hops, nodes, names', walk', k) {
      assert k < n ==> Walks(hops, nodes, names[..n], walk, k);
    }
  }

  method OpenComponent(fs: FileSystem, dir: Inode, name: Name) returns (r: Opened)
    requires fs.Valid()
    modifies fs`nodes, fs`hops
    ensures fs.Valid() && fs.temp == old(fs.temp) && fs.effects == old(fs.effects) && fs.glimpses == old(fs.glimpses)
    ensures Kept(old(fs.nodes), fs.nodes) && old(fs.hops) <= fs.hops
    ensures r.Fd? ==> r.inode in fs.nodes && Hop(dir, name, r.inode) in fs.hops
  {
    r := fs.OpenAt(dir, name); // openat2
    if r.Failed? && (r.errno.ENOSYS? || r.errno.EINVAL? || r.errno.EAGAIN? || r.errno.EPERM?) {
      r := fs.OpenAt(dir, name);
    }
  }

  method OpenParent(fs: FileSystem, parent: seq<Name>) returns (r: Parent, ghost walk: seq<Inode>)
    requires fs.Valid()
    modifies fs`nodes, fs`hops
    ensures fs.Valid() && fs.temp == old(fs.temp) && fs.effects == old(fs.effects) && fs.glimpses == old(fs.glimpses)
    ensures Kept(old(fs.nodes), fs.nodes) && old(fs.hops) <= fs.hops
    ensures r.Found? ==> Walked(fs.root, fs.hops, fs.nodes, parent, walk) && walk[|parent|] == r.dir && ".." !in parent
    ensures r.NotFound? ==> r.code.IoError? || r.code.ParentSymlink?
  {
    var current, i := fs.root, 0;
    walk := [fs.root];
    while i < |parent|
      invariant 0 <= i <= |parent| && |walk| == i + 1 && walk[i] == current
      invariant fs.Valid() && fs.temp == old(fs.temp) && fs.effects == old(fs.effects) && fs.glimpses == old(fs.glimpses)
      invariant Kept(old(fs.nodes), fs.nodes) && old(fs.hops) <= fs.hops
      invariant ".." !in parent[..i] && Walked(fs.root, fs.hops, fs.nodes, parent[..i], walk)
    {
      var name := parent[i];
      assert parent[..i + 1] == parent[..i] + [name];
      ghost var hops, nodes := fs.hops, fs.nodes;
      if name == ".." || !CString(name) {
        return NotFound(IoError), walk;
      }
      var reply := OpenComponent(fs, current, name);
      if reply.Failed? {
        var refusedByKind := reply.errno.ELOOP? || reply.errno.EXDEV? || reply.errno.ENOTDIR?;
        return NotFound(if refusedByKind then ParentSymlink else IoError), walk;
      }
      var directory, _, ok := fs.KindOf(reply.inode);
      if !ok || !directory {
        return NotFound(ParentSymlink), walk;
      }
      WalkedKept(fs.root, hops, nodes, fs.hops, fs.nodes, parent[..i], walk);
      WalkedOn(fs.root, fs.hops, fs.nodes, parent, walk, i, reply.inode);
      current, walk, i := reply.inode, walk + [reply.inode], i + 1;
    }
    assert parent[..i] == parent;
    return Found(current), walk;
  }

  method FinalIsSymlink(fs: FileSystem, dir: Inode, name: Name) returns (symlink: bool)
    requires fs.Valid()
    modifies fs`nodes, fs`hops
    ensures fs.Valid() && fs.temp == old(fs.temp) && fs.effects == old(fs.effects) && fs.glimpses == old(fs.glimpses)
    ensures Kept(old(fs.nodes), fs.nodes) && SameFile(old(fs.nodes), fs.nodes, fs.temp) && old(fs.hops) <= fs.hops
  {
    var reply := fs.OpenAt(dir, name);
    if reply.Failed? {
      return reply.errno.ELOOP?;
    }
    var _, isLink, ok := fs.KindOf(reply.inode);
    return ok && isLink;
  }

  /** Reads the whole file in pieces. Others may lengthen it for ever; `patience` is the watchdog's. */
  method ReadAll(fs: FileSystem, inode: Inode, patience: nat) returns (r: ReadResult)
    requires fs.Valid()
    modifies fs`nodes, fs`glimpses
    ensures fs.Valid() && fs.temp == old(fs.temp) && fs.effects == old(fs.effects) && fs.hops == old(fs.hops)
    ensures Kept(old(fs.nodes), fs.nodes) && old(fs.glimpses) <= fs.glimpses
    ensures r.Bytes? ==> WholeRead(fs.glimpses[|old(fs.glimpses)|..], inode, r.bytes)
    ensures !r.Absent?
  {
    ghost var base := fs.glimpses;
    var bytes, left := [], patience;
    while left > 0
      invariant fs.Valid() && fs.temp == old(fs.temp) && fs.effects == old(fs.effects) && fs.hops == old(fs.hops)
      invariant Kept(old(fs.nodes), fs.nodes)
      invariant Partial(base, fs.glimpses, inode, bytes)
    {
      ghost var before := fs.glimpses;
      var chunk := fs.Read(inode, |bytes|);
      if chunk.None? {
        return Unreadable;
      }
      ghost var g := fs.glimpses[|before|];
      PartialOn(base, before, inode, bytes, g);
      if chunk.value == [] {
        return Bytes(bytes);
      }
      bytes, left := bytes + chunk.value, left - 1;
    }
    return OutOfTime;
  }

  /** What was read since `base`: the file's first bytes, piece by piece. */
  ghost predicate Partial(base: seq<Glimpse>, all: seq<Glimpse>, inode: Inode, bytes: seq<Byte>) {
    base <= all && Contiguous(all[|base|..], inode) && Assembled(all[|base|..]) == bytes
  }

  lemma PartialOn(base: seq<Glimpse>, all: seq<Glimpse>, inode: Inode, bytes: seq<Byte>, g: Glimpse)
    requires Partial(base, all, inode, bytes) && g.inode == inode && g.offset == |bytes|
    ensures Partial(base, all + [g], inode, bytes + Piece(g))
    ensures g.count == 0 && |g.content| <= |bytes| ==> WholeRead((all + [g])[|base|..], inode, bytes)
  {
    ContiguousOn(all[|base|..], inode, g);
    assert (all + [g])[|base|..] == all[|base|..] + [g];
  }

  method ReadFile(fs: FileSystem, dir: Inode, name: Name, patience: nat) returns (r: ReadResult, ghost inode: Inode)
    requires fs.Valid()
    modifies fs`nodes, fs`hops, fs`glimpses
    ensures fs.Valid() && fs.temp == old(fs.temp) && fs.effects == old(fs.effects)
    ensures Kept(old(fs.nodes), fs.nodes) && old(fs.hops) <= fs.hops && old(fs.glimpses) <= fs.glimpses
    ensures r.Bytes? ==> Hop(dir, name, inode) in fs.hops && WholeRead(fs.glimpses[|old(fs.glimpses)|..], inode, r.bytes)
  {
    var reply := fs.OpenAt(dir, name);
    if reply.Failed? {
      return if reply.errno.ENOENT? then Absent else Unreadable, 0;
    }
    inode := reply.inode;
    r := ReadAll(fs, reply.inode, patience);
  }

  method Sum(bytes: seq<Byte>) returns (hex: string)
    ensures |bytes| < TWO_POW_61 ==> hex == Sha256.HexOf(Digest(bytes))
  {
    var h := new Sha256.Hasher();
    h.Update(bytes);
    assert h.Message() == bytes;
    var out := h.Finish();
    hex := Sha256.Hex(out);
  }

  /** The write loop: short writes only delay it. */
  method WriteAll(fs: FileSystem, content: seq<Byte>) returns (ok: bool)
    requires fs.Valid() && fs.temp.Some? && fs.nodes[fs.temp.value.inode] == Regular([])
    modifies fs`nodes
    ensures fs.Valid() && fs.temp == old(fs.temp) && fs.effects == old(fs.effects)
    ensures fs.hops == old(fs.hops) && fs.glimpses == old(fs.glimpses) && Kept(old(fs.nodes), fs.nodes)
    ensures ok ==> fs.nodes[fs.temp.value.inode] == Regular(content)
  {
    var written := 0;
    while written < |content|
      invariant 0 <= written <= |content|
      invariant fs.Valid() && fs.temp == old(fs.temp) && fs.effects == old(fs.effects)
      invariant fs.hops == old(fs.hops) && fs.glimpses == old(fs.glimpses) && Kept(old(fs.nodes), fs.nodes)
      invariant fs.nodes[fs.temp.value.inode] == Regular(content[..written])
    {
      var n := fs.Write(content[written..]);
      if n <= 0 {
        return false;
      }
      assert content[..written] + content[written..][..n] == content[..written + n];
      written := written + n;
    }
    assert content[..written] == content;
    return true;
  }

  // ---- The commit

  /** The caller's snapshot check: the refusal, if any, and the bytes read. */
  method CheckSnapshot(fs: FileSystem, dir: Inode, name: Name, expected: string, patience: nat)
    returns (refusal: Option<Code>, ghost inode: Inode, ghost seen: Option<seq<Byte>>)
    requires fs.Valid()
    modifies fs`nodes, fs`hops, fs`glimpses
    ensures fs.Valid() && fs.temp == old(fs.temp) && fs.effects == old(fs.effects)
    ensures Kept(old(fs.nodes), fs.nodes) && old(fs.hops) <= fs.hops && old(fs.glimpses) <= fs.glimpses
    ensures seen.Some? ==> Hop(dir, name, inode) in fs.hops
                           && WholeRead(fs.glimpses[|old(fs.glimpses)|..], inode, seen.value)
    ensures seen.Some? && |seen.value| < TWO_POW_61 ==>
              refusal == if Sha256.HexOf(Digest(seen.value)) == Lower(expected) then None else Some(SnapshotChanged)
    ensures refusal.None? ==> seen.Some?
    ensures seen.None? ==> refusal == Some(SnapshotChanged) || refusal == Some(TargetSymlink) || refusal == Some(Timeout)
  {
    var r;
    r, inode := ReadFile(fs, dir, name, patience);
    match r
    case Absent => return Some(SnapshotChanged), inode, None;
    case Unreadable => return Some(TargetSymlink), inode, None;
    case OutOfTime => return Some(Timeout), inode, None;
    case Bytes(bytes) =>
      var sum := Sum(bytes);
      return if sum != Lower(expected) then Some(SnapshotChanged) else None, inode, Some(bytes);
  }

  /** Everything a commit attempt may have done to the file system, by its outcome. */
  ghost predicate Accounts(effects: seq<Effect>, outcome: Outcome, dir: Inode, temp: Name, made: Inode, name: Name,
                           content: seq<Byte>, removed: bool)
  {
    match outcome
    case Committed(_) => effects == [Created(dir, temp, made), Bound(dir, name, made, content)]
    case Refused(_) =>
      || effects == []
      || effects == [Created(dir, temp, made)] + if removed then [Removed(dir, temp)] else []
  }

  /** The private temp file through to the rename. `removed` is what the cleanup's unlink answered. */
  method Replace(fs: FileSystem, dir: Inode, tempName: Name, name: Name, content: seq<Byte>)
    returns (outcome: Outcome, removed: bool, ghost done: seq<Effect>, ghost made: Inode)
    requires fs.Valid() && fs.temp.None? && tempName != name
    modifies fs
    ensures fs.Valid() && Kept(old(fs.nodes), fs.nodes)
    ensures old(fs.hops) <= fs.hops && fs.glimpses == old(fs.glimpses)
    ensures fs.effects == old(fs.effects) + done && Accounts(done, outcome, dir, tempName, made, name, content, removed)
    ensures outcome.Committed? ==> |content| < TWO_POW_61 ==> outcome.digest == Sha256.HexOf(Digest(content))
    ensures outcome.Refused? ==> outcome.code.IoError? || outcome.code.TargetSymlink? || outcome.code.CrossDeviceRename?
    ensures outcome.Committed? || removed || done == [] ==> fs.temp.None?
  {
    removed, done, made := true, [], 0;
    var reply := fs.CreateExclusive(dir, tempName);
    if reply.Failed? {
      return Refused(IoError), removed, [], made;
    }
    made := reply.inode;
    done := [Created(dir, tempName, made)];
    var refusal := Settle(fs, dir, name, content);
    if refusal.None? {
      Chained(old(fs.effects), done, Bound(dir, name, made, content));
      done := done + [Bound(dir, name, made, content)];
      var sum := Sum(content);
      return Committed(sum), removed, done, made;
    }
    removed := fs.Unlink();
    if removed {
      Chained(old(fs.effects), done, Removed(dir, tempName));
      done := done + [Removed(dir, tempName)];
    }
    return Refused(refusal.value), removed, done, made;
  }

  /** From the empty private file to the rename and the directory's fsync: the refusal, if any. */
  method Settle(fs: FileSystem, dir: Inode, name: Name, content: seq<Byte>) returns (refusal: Option<Code>)
    requires fs.Valid() && fs.temp.Some? && fs.nodes[fs.temp.value.inode] == Regular([]) && fs.temp.value.name != name
    modifies fs`nodes, fs`hops, fs`temp, fs`effects
    ensures fs.Valid() && fs.glimpses == old(fs.glimpses)
    ensures Kept(old(fs.nodes), fs.nodes) && old(fs.hops) <= fs.hops
    ensures refusal.Some? ==> fs.temp == old(fs.temp) && fs.effects == old(fs.effects)
    ensures refusal.None? ==>
              var t := old(fs.temp.value);
              fs.temp.None? && fs.effects == old(fs.effects) + [Bound(t.dir, name, t.inode, content)]
    ensures refusal.Some? ==> refusal.value.IoError? || refusal.value.TargetSymlink? || refusal.value.CrossDeviceRename?
  {
    refusal := Fill(fs, dir, name, content);
    if refusal.Some? {
      return;
    }
    var failure := fs.Rename(name);
    if failure.Some? {
      return Some(if failure.value.EXDEV? then CrossDeviceRename else IoError);
    }
    var _ := fs.Fsync();
    return None;
  }

  lemma Chained(before: seq<Effect>, done: seq<Effect>, e: Effect)
    ensures (before + done) + [e] == before + (done + [e])
  {
  }

  /** Content, fsync and revalidation: the refusal, if any, or a private file that holds exactly `content`. */
  method Fill(fs: FileSystem, dir: Inode, name: Name, content: seq<Byte>) returns (refusal: Option<Code>)
    requires fs.Valid() && fs.temp.Some? && fs.nodes[fs.temp.value.inode] == Regular([])
    modifies fs`nodes, fs`hops
    ensures fs.Valid() && fs.temp == old(fs.temp) && fs.effects == old(fs.effects) && fs.glimpses == old(fs.glimpses)
    ensures Kept(old(fs.nodes), fs.nodes) && old(fs.hops) <= fs.hops
    ensures refusal.None? ==> fs.nodes[fs.temp.value.inode] == Regular(content)
    ensures refusal.Some? ==> refusal.value.IoError? || refusal.value.TargetSymlink?
  {
    var ok := WriteAll(fs, content);
    if ok {
      ok := fs.Fsync();
    }
    if ok {
      var _, _, found := fs.KindOf(dir); // the parent, by its descriptor
      ok := found;
    }
    if !ok {
      return Some(IoError);
    }
    var symlink := FinalIsSymlink(fs, dir, name);
    return if symlink then Some(TargetSymlink) else None;
  }

  /** The commit in the directory that was reached: symlink check, snapshot check, replacement. */
  method CommitIn(fs: FileSystem, dir: Inode, name: Name, content: seq<Byte>, expected: Option<string>, tempName: Name,
                  patience: nat)
    returns (outcome: Outcome, removed: bool, ghost done: seq<Effect>, ghost made: Inode, ghost inode: Inode,
             ghost seen: Option<seq<Byte>>)
    requires fs.Valid() && fs.temp.None? && tempName != name
    modifies fs
    ensures fs.Valid() && Kept(old(fs.nodes), fs.nodes) && old(fs.hops) <= fs.hops
    ensures fs.effects == old(fs.effects) + done && Accounts(done, outcome, dir, tempName, made, name, content, removed)
    ensures outcome.Committed? || removed || done == [] ==> fs.temp.None?
    ensures outcome.Committed? && |content| < TWO_POW_61 ==> outcome.digest == Sha256.HexOf(Digest(content))
    ensures old(fs.glimpses) <= fs.glimpses
    ensures seen.Some? ==> Hop(dir, name, inode) in fs.hops
                           && WholeRead(fs.glimpses[|old(fs.glimpses)|..], inode, seen.value)
    ensures outcome.Committed? && expected.Some? ==> seen.Some?
    ensures expected.Some? && seen.Some? && |seen.value| < TWO_POW_61 ==>
              (outcome == Refused(SnapshotChanged) <==> Sha256.HexOf(Digest(seen.value)) != Lower(expected.value))
  {
    removed, done, made, inode, seen := true, [], 0, 0, None;
    var _, _, found := fs.KindOf(dir);
    if !found {
      return Refused(IoError), removed, done, made, inode, seen;
    }
    var symlink := FinalIsSymlink(fs, dir, name);
    if symlink {
      return Refused(TargetSymlink), removed, done, made, inode, seen;
    }
    outcome, removed, done, made, inode, seen := CommitChecked(fs, dir, name, content, expected, tempName, patience);
  }

  /** From the snapshot check on. */
  method CommitChecked(fs: FileSystem, dir: Inode, name: Name, content: seq<Byte>, expected: Option<string>, tempName: Name,
                       patience: nat)
    returns (outcome: Outcome, removed: bool, ghost done: seq<Effect>, ghost made: Inode, ghost inode: Inode,
             ghost seen: Option<seq<Byte>>)
    requires fs.Valid() && fs.temp.None? && tempName != name
    modifies fs
    ensures fs.Valid() && Kept(old(fs.nodes), fs.nodes) && old(fs.hops) <= fs.hops
    ensures fs.effects == old(fs.effects) + done && Accounts(done, outcome, dir, tempName, made, name, content, removed)
    ensures outcome.Committed? || removed || done == [] ==> fs.temp.None?
    ensures outcome.Committed? && |content| < TWO_POW_61 ==> outcome.digest == Sha256.HexOf(Digest(content))
    ensures old(fs.glimpses) <= fs.glimpses
    ensures seen.Some? ==> Hop(dir, name, inode) in fs.hops
                           && WholeRead(fs.glimpses[|old(fs.glimpses)|..], inode, seen.value)
    ensures outcome.Committed? && expected.Some? ==> seen.Some?
    ensures expected.Some? && seen.Some? && |seen.value| < TWO_POW_61 ==>
              (outcome == Refused(SnapshotChanged) <==> Sha256.HexOf(Digest(seen.value)) != Lower(expected.value))
  {
    removed, done, made, inode, seen := true, [], 0, 0, None;
    if expected.Some? {
      var refusal;
      refusal, inode, seen := CheckSnapshot(fs, dir, name, expected.value, patience);
      if refusal.Some? {
        return Refused(refusal.value), removed, done, made, inode, seen;
      }
    }
    ghost var hops := fs.hops;
    outcome, removed, done, made := Replace(fs, dir, tempName, name, content);
    if seen.Some? {
      HopKept(Hop(dir, name, inode), hops, fs.hops);
    }
  }

  /** The whole commit. The destination name is bound by this process at most once, to an inode that holds
      exactly `content`; a refusal binds nothing and leaves no temp entry (unless its unlink failed); the
      directory was reached through real directories; and a commit with an expected hash had read a file with
      that hash under the destination's name. The temp name is unpredictable, so it is not the final name. */
  method Commit(fs: FileSystem, destination: Path, content: seq<Byte>, expected: Option<string>, tempName: Name, patience: nat)
    returns (outcome: Outcome, removed: bool, ghost walk: seq<Inode>, ghost done: seq<Effect>,
             ghost made: Inode, ghost inode: Inode, ghost seen: Option<seq<Byte>>)
    requires fs.Valid() && fs.temp.None? && destination.final != Some(tempName)
    modifies fs
    ensures fs.Valid() && fs.effects == old(fs.effects) + done && old(fs.glimpses) <= fs.glimpses
    ensures outcome.Committed? || done != [] || seen.Some? ==>
              && destination.absolute && destination.final.Some? && ".." !in destination.parent
              && Walked(fs.root, fs.hops, fs.nodes, destination.parent, walk)
    ensures outcome.Committed? || done != [] ==>
              Accounts(done, outcome, walk[|destination.parent|], tempName, made, destination.final.value, content, removed)
    ensures outcome.Committed? || removed || done == [] ==> fs.temp.None?
    ensures outcome.Committed? && |content| < TWO_POW_61 ==> outcome.digest == Sha256.HexOf(Digest(content))
    ensures seen.Some? ==>
              && Hop(walk[|destination.parent|], destination.final.value, inode) in fs.hops
              && WholeRead(fs.glimpses[|old(fs.glimpses)|..], inode, seen.value)
    ensures outcome.Committed? && expected.Some? ==> seen.Some?
    ensures expected.Some? && seen.Some? && |seen.value| < TWO_POW_61 ==>
              (outcome == Refused(SnapshotChanged) <==> Sha256.HexOf(Digest(seen.value)) != Lower(expected.value))
  {
    removed, walk, done, made, inode, seen := true, [], [], 0, 0, None;
    if !destination.absolute || destination.final.None? || !CString(destination.final.value) {
      return Refused(IoError), removed, walk, done, made, inode, seen;
    }
    var parent;
    parent, walk := OpenParent(fs, destination.parent);
    if parent.NotFound? {
      return Refused(parent.code), removed, walk, done, made, inode, seen;
    }
    ghost var hops, nodes := fs.hops, fs.nodes;
    outcome, removed, done, made, inode, seen :=
      CommitIn(fs, parent.dir, destination.final.value, content, expected, tempName, patience);
    WalkedKept(fs.root, hops, nodes, fs.hops, fs.nodes, destination.parent, walk);
  }
}
