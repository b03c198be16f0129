/** A file system that other processes step on between any two system calls. Inode numbers are not reused and
    an inode keeps its kind; the private temp entry and its inode are the only things others leave alone.
    Each method is one system call: others step, then the call fails in some way or takes effect. */
module Disk {
  import opened Optional
  import opened Fips180

  type Name(==, !new) = string
  type Inode(==, !new) = nat

  datatype Node = Directory(entries: map<Name, Inode>) | Regular(content: seq<Byte>) | Symlink | Special

  datatype Errno = ENOENT | ENOTDIR | ELOOP | EXDEV | EISDIR | EEXIST | ENOSYS | EINVAL | EAGAIN | EPERM | EIO

  datatype Opened = Fd(inode: Inode) | Failed(errno: Errno)

  /** What this process changed, in order. */
  datatype Effect =
    | Created(dir: Inode, name: Name, inode: Inode)
    | Removed(dir: Inode, name: Name)
    | Bound(dir: Inode, name: Name, inode: Inode, content: seq<Byte>)

  /** A successful open of `name` in directory `dir`, and one read of `count` bytes at `offset`, with the content
      of the file just then. */
  datatype Hop = Hop(dir: Inode, name: Name, inode: Inode)
  datatype Glimpse = Glimpse(inode: Inode, offset: nat, count: nat, content: seq<Byte>)

  /** The bytes a glimpse got. */
  function Piece(g: Glimpse): seq<Byte> {
    if g.offset + g.count <= |g.content| then g.content[g.offset..g.offset + g.count] else []
  }

  datatype Temp = Temp(dir: Inode, name: Name, inode: Inode)

  predicate SameKind(x: Node, y: Node) {
    x.Directory? == y.Directory? && x.Regular? == y.Regular? && x.Symlink? == y.Symlink?
  }

  predicate Holds(nodes: map<Inode, Node>, t: Temp) {
    && t.dir in nodes && nodes[t.dir].Directory?
    && t.name in nodes[t.dir].entries && nodes[t.dir].entries[t.name] == t.inode
    && t.inode in nodes && nodes[t.inode].Regular?
  }

  /** Nothing that exists disappears or changes its kind. */
  predicate Kept(from: map<Inode, Node>, to: map<Inode, Node>) {
    forall i :: i in from ==> i in to && SameKind(from[i], to[i])
  }

  predicate SameFile(from: map<Inode, Node>, to: map<Inode, Node>, temp: Option<Temp>) {
    temp.Some? ==> temp.value.inode in from && temp.value.inode in to && to[temp.value.inode] == from[temp.value.inode]
  }

  /** Whatever other processes may do in one go. */
  predicate Steps(from: map<Inode, Node>, to: map<Inode, Node>, temp: Option<Temp>) {
    Kept(from, to) && SameFile(from, to, temp) && (temp.Some? ==> Holds(to, temp.value))
  }

  class FileSystem {
    const root: Inode
    var nodes: map<Inode, Node>
    var temp: Option<Temp>
    ghost var effects: seq<Effect>
    ghost var hops: seq<Hop>
    ghost var glimpses: seq<Glimpse>

    ghost predicate Valid() reads this {
      && root in nodes && nodes[root].Directory?
      && (temp.Some? ==> Holds(nodes, temp.value))
      && (forall h :: h in hops ==> h.inode in nodes)
    }

    predicate IsDirectory(i: Inode) reads this {
      i in nodes && nodes[i].Directory?
    }

    method Others()
      requires Valid()
      modifies this`nodes
      ensures Valid() && Kept(old(nodes), nodes) && SameFile(old(nodes), nodes, temp)
    {
      var next: map<Inode, Node> := *;
      if Steps(nodes, next, temp) {
        nodes := next;
      }
    }

    /** `openat` with no symlink followed: a symlink comes back as itself, or as an error. */
    method OpenAt(dir: Inode, name: Name) returns (r: Opened)
      requires Valid()
      modifies this`nodes, this`hops
      ensures Valid() && temp == old(temp) && effects == old(effects) && glimpses == old(glimpses)
      ensures Kept(old(nodes), nodes) && SameFile(old(nodes), nodes, temp)
      ensures r.Fd? ==> r.inode in nodes && hops == old(hops) + [Hop(dir, name, r.inode)]
      ensures r.Failed? ==> hops == old(hops)
    {
      Others();
      var failure: Option<Errno> := *;
      if failure.Some? {
        return Failed(failure.value);
      }
      if !IsDirectory(dir) {
        return Failed(ENOTDIR);
      }
      if name !in nodes[dir].entries || nodes[dir].entries[name] !in nodes {
        return Failed(ENOENT);
      }
      hops := hops + [Hop(dir, name, nodes[dir].entries[name])];
      return Fd(nodes[dir].entries[name]);
    }

    /** `fstat`, as far as the file type goes; an inode's type never changes, so no step matters. */
    method KindOf(i: Inode) returns (directory: bool, symlink: bool, ok: bool)
      ensures ok ==> i in nodes && directory == nodes[i].Directory? && symlink == nodes[i].Symlink?
    {
      ok := *;
      ok := ok && i in nodes;
      directory, symlink := ok && nodes[i].Directory?, ok && nodes[i].Symlink?;
    }

    /** One `read`: any positive number of bytes that are there, or none at the end of the file. */
    method Read(i: Inode, offset: nat) returns (chunk: Option<seq<Byte>>)
      requires Valid()
      modifies this`nodes, this`glimpses
      ensures Valid() && temp == old(temp) && effects == old(effects) && hops == old(hops)
      ensures Kept(old(nodes), nodes) && SameFile(old(nodes), nodes, temp)
      ensures chunk.None? ==> glimpses == old(glimpses)
      ensures chunk.Some? ==>
                && i in nodes && nodes[i].Regular?
                && glimpses == old(glimpses) + [Glimpse(i, offset, |chunk.value|, nodes[i].content)]
                && chunk.value == Piece(Glimpse(i, offset, |chunk.value|, nodes[i].content))
                && (chunk.value == [] <==> |nodes[i].content| <= offset)
    {
      Others();
      var fails: bool := *;
      if fails || i !in nodes || !nodes[i].Regular? {
        return None;
      }
      var content := nodes[i].content;
      if |content| <= offset {
        glimpses := glimpses + [Glimpse(i, offset, 0, content)];
        return Some([]);
      }
      var count: int := *;
      if !(0 < count <= |content| - offset) {
        count := |content| - offset;
      }
      glimpses := glimpses + [Glimpse(i, offset, count, content)];
      return Some(content[offset..offset + count]);
    }

    /** `openat` with O_CREAT and O_EXCL: a fresh empty file under a name that was free. */
    method CreateExclusive(dir: Inode, name: Name) returns (r: Opened)
      requires Valid() && temp.None?
      modifies this`nodes, this`temp, this`effects
      ensures Valid() && hops == old(hops) && glimpses == old(glimpses)
      ensures Kept(old(nodes), nodes)
      ensures r.Failed? ==> temp.None? && effects == old(effects)
      ensures r.Fd? ==> temp == Some(Temp(dir, name, r.inode)) && nodes[r.inode] == Regular([])
                        && effects == old(effects) + [Created(dir, name, r.inode)]
    {
      Others();
      var failure: Option<Errno>, inode: Inode := *, *;
      if failure.Some? || !IsDirectory(dir) || name in nodes[dir].entries || inode in nodes {
        return Failed(if failure.Some? then failure.value else EEXIST);
      }
      nodes := nodes[inode := Regular([])][dir := Directory(nodes[dir].entries[name := inode])];
      temp := Some(Temp(dir, name, inode));
      effects := effects + [Created(dir, name, inode)];
      return Fd(inode);
    }

    /** One `write` to the private file: all of `data`, a part of it, or an error (`n <= 0`). */
    method Write(data: seq<Byte>) returns (n: int)
      requires Valid() && temp.Some? && data != []
      modifies this`nodes
      ensures Valid() && temp == old(temp) && effects == old(effects) && hops == old(hops) && glimpses == old(glimpses)
      ensures Kept(old(nodes), nodes)
      ensures n <= |data|
      ensures nodes[temp.value.inode]
           == if n <= 0 then old(nodes[temp.value.inode]) else Regular(old(nodes[temp.value.inode]).content + data[..n])
    {
      Others();
      n := *;
      if n > |data| {
        n := |data|;
      }
      if n > 0 {
        var i := temp.value.inode;
        nodes := nodes[i := Regular(nodes[i].content + data[..n])];
      }
    }

    method Fsync() returns (ok: bool)
      requires Valid()
      modifies this`nodes
      ensures Valid() && Kept(old(nodes), nodes) && SameFile(old(nodes), nodes, temp)
    {
      Others();
      ok := *;
    }

    /** `unlinkat` of the private entry. */
    method Unlink() returns (ok: bool)
      requires Valid() && temp.Some?
      modifies this`nodes, this`temp, this`effects
      ensures Valid() && hops == old(hops) && glimpses == old(glimpses)
      ensures Kept(old(nodes), nodes)
      ensures ok ==> temp.None? && effects == old(effects) + [Removed(old(temp).value.dir, old(temp).value.name)]
      ensures !ok ==> temp == old(temp) && effects == old(effects)
    {
      Others();
      ok := *;
      if ok {
        var t := temp.value;
        nodes := nodes[t.dir := Directory(nodes[t.dir].entries - {t.name})];
        effects := effects + [Removed(t.dir, t.name)];
        temp := None;
      }
    }

    /** `renameat` of the private entry over `name` in the same directory. It binds the name itself: a symlink
        that stands there is replaced, never followed. */
    method Rename(name: Name) returns (failure: Option<Errno>)
      requires Valid() && temp.Some? && name != temp.value.name
      modifies this`nodes, this`temp, this`effects
      ensures Valid() && hops == old(hops) && glimpses == old(glimpses)
      ensures Kept(old(nodes), nodes)
      ensures failure.Some? ==> temp == old(temp) && effects == old(effects)
      ensures failure.None? ==>
                var t := old(temp).value;
                && temp.None? && nodes[t.dir].Directory? && name in nodes[t.dir].entries
                && nodes[t.dir].entries[name] == t.inode && t.name !in nodes[t.dir].entries
                && nodes[t.inode] == old(nodes[t.inode])
                && effects == old(effects) + [Bound(t.dir, name, t.inode, nodes[t.inode].content)]
    {
      Others();
      failure := *;
      var t := temp.value;
      if failure.None? && name in nodes[t.dir].entries && IsDirectory(nodes[t.dir].entries[name]) {
        failure := Some(EISDIR);
      }
      if failure.None? {
        nodes := nodes[t.dir := Directory((nodes[t.dir].entries - {t.name})[name := t.inode])];
        effects := effects + [Bound(t.dir, name, t.inode, nodes[t.inode].content)];
        temp := None;
      }
    }
  }
}
