/**
  The mounted file system as its users see it: a map from paths to directories and byte arrays, and
  what each call may do to that map.
 */
module FileTree {
  import opened Blocks
  import opened CInts
  import opened Directory
  import opened InodeCode

  /** What a path leads to. */
  datatype Node = Dir | File(bytes: seq<Byte>)

  /** Every path that leads somewhere, by its components. */
  type Tree = imap<seq<Name>, Node>

  /** The tree, and whether every block of every directory is allocated. */
  datatype View = View(tree: Tree, complete: bool)

  /** A path element that is too long is met: what comes before it leads somewhere. */
  ghost predicate Overlong(t: Tree, names: seq<Name>) {
    names != []
    && var front := names[..|names| - 1];
       Overlong(t, front) || (front in t && |names[|names| - 1]| >= NAME_MAX)
  }

  /** All but the last element lead to a directory. */
  ghost predicate Holds(t: Tree, names: seq<Name>) {
    names != [] && names[..|names| - 1] in t && t[names[..|names| - 1]].Dir?
  }

  /** What inode_open answers when no block has to be allocated. */
  ghost function OpenStatus(t: Tree, path: seq<Byte>): Status {
    if |path| >= PATH_MAX then ENAMETOOLONG
    else if Components(path) in t then Ok
    else if Overlong(t, Components(path)) then EINVAL
    else ENOENT
  }

  // ----- calls

  /** fs_mknod or fs_mkdir with the attributes in front of i_size, fs_write and fs_read on the file
      that fs_open found, and inode_free_block on it. */
  datatype Op =
    | Make(path: seq<Byte>, front: seq<Byte>)
    | Write(path: seq<Byte>, offset: nat, bytes: seq<Byte>)
    | Read(path: seq<Byte>, offset: nat, count: nat)
    | Release(path: seq<Byte>, n: nat)

  /** Strings without NUL, a full set of attributes, and offsets of 32 bits. */
  predicate OpOk(op: Op) {
    && 0 !in op.path
    && match op
       case Make(_, front) => |front| == SIZE
       case Write(_, offset, bytes) => offset + |bytes| < TWO32
       case Read(_, offset, _) => offset < TWO32
       case Release(_, _) => true
  }

  /** The operating system itself refuses to open directories for reading and writing bytes. */
  datatype Reply = IsDirectory | Done(status: Status, data: seq<Byte>)

  /** What mknod or mkdir leaves. */
  function NewNode(front: seq<Byte>): Node
    requires |front| == SIZE
  {
    if IsDir(PutBytes(ZeroBlock(), 0, front)) then Dir else File([])
  }

  /** A file after `bytes`, the first of `len` bytes to write, reached it at `offset`; a gap that opens
      before the offset, and bytes that did not arrive, read as before or as zeros. */
  function Overwritten(file: seq<Byte>, offset: nat, bytes: seq<Byte>, len: nat): (r: seq<Byte>)
    ensures |r| == if offset + len > |file| then offset + len else |file|
    ensures forall x :: 0 <= x < |r| ==>
              r[x] == if offset <= x < offset + |bytes| then bytes[x - offset] else if x < |file| then file[x] else 0
  {
    seq(NewSize(|file|, offset, len),
        x requires 0 <= x =>
          if offset <= x < offset + |bytes| then bytes[x - offset] else if x < |file| then file[x] else 0)
  }

  /** A file after its block `n` was removed. */
  function Cleared(file: seq<Byte>, n: nat): (r: seq<Byte>)
    ensures |r| == |file| && forall x :: 0 <= x < |r| ==> r[x] == if x / BLKSIZE == n then 0 else file[x]
  {
    seq(|file|, x requires 0 <= x < |file| => if x / BLKSIZE == n then 0 else file[x])
  }

  // ----- what each call may do

  ghost predicate Kept(v: View, v': View) { v'.tree == v.tree && (v.complete ==> v'.complete) }

  /** Opening fails for want of space only where a directory block is missing. */
  ghost predicate Opened(v: View, path: seq<Byte>, status: Status) {
    status == OpenStatus(v.tree, path) || (status == ENOSPC && !v.complete && |path| < PATH_MAX)
  }

  /** No file was opened. */
  ghost predicate NotOpened(v: View, path: seq<Byte>, r: Reply, v': View) {
    && Kept(v, v')
    && match r
       case IsDirectory => OpenStatus(v.tree, path) == Ok && v.tree[Components(path)] == Dir
       case Done(status, data) => status != Ok && Opened(v, path, status) && data == []
  }

  ghost predicate HasFile(v: View, path: seq<Byte>) { OpenStatus(v.tree, path) == Ok && v.tree[Components(path)].File? }

  ghost predicate MakeStep(v: View, path: seq<Byte>, front: seq<Byte>, status: Status, v': View)
    requires |front| == SIZE
  {
    var names, s := Components(path), OpenStatus(v.tree, path);
    var room := s == ENOENT && Holds(v.tree, names);
    && (if status == Ok then v'.tree == v.tree[names := NewNode(front)] else v'.tree == v.tree)
    && (v.complete && status != ENOSPC ==> v'.complete)
    && (room ==> status == Ok || status == ENOSPC)
    && (!room ==> status == (if s == Ok then EEXIST else s) || (status == ENOSPC && !v.complete && s != ENAMETOOLONG))
  }

  /** `done` bytes reached the file: all of them, or whole blocks in front of one that was missing. */
  ghost predicate WriteStep(v: View, path: seq<Byte>, offset: nat, bytes: seq<Byte>, done: nat, status: Status,
        v': View) {
    && HasFile(v, path) && done <= |bytes| && (status == Ok || status == ENOSPC)
    && (if status == Ok then done == |bytes| else done < |bytes| && (done == 0 || (offset + done) % BLKSIZE == 0))
    && (v.complete ==> v'.complete)
    && v'.tree == v.tree[Components(path) :=
                         File(Overwritten(v.tree[Components(path)].bytes, offset, bytes[..done], |bytes|))]
  }

  /** The part of the file that inode_read delivers. */
  function Slice(file: seq<Byte>, offset: nat, count: nat): seq<Byte> {
    if offset >= |file| then [] else if count < |file| - offset then file[offset..offset + count] else file[offset..]
  }

  ghost predicate ReadStep(v: View, path: seq<Byte>, offset: nat, count: nat, r: Reply, v': View) {
    HasFile(v, path) && Kept(v, v') && r == Done(Ok, Slice(v.tree[Components(path)].bytes, offset, count))
  }

  ghost predicate ReleaseStep(v: View, path: seq<Byte>, n: nat, r: Reply, v': View) {
    && HasFile(v, path) && r == Done(if n < MAXBLOCKS then Ok else EINVAL, []) && (v.complete ==> v'.complete)
    && v'.tree == v.tree[Components(path) := File(Cleared(v.tree[Components(path)].bytes, n))]
  }

  /** One call, seen through the map. */
  ghost predicate Step(v: View, op: Op, r: Reply, v': View)
    requires OpOk(op)
  {
    match op
    case Make(path, front) => r.Done? && r.data == [] && MakeStep(v, path, front, r.status, v')
    case Write(path, offset, bytes) =>
      || NotOpened(v, path, r, v')
      || exists done: nat :: r.Done? && r.data == [] && WriteStep(v, path, offset, bytes, done, r.status, v')
    case Read(path, offset, count) => NotOpened(v, path, r, v') || ReadStep(v, path, offset, count, r, v')
    case Release(path, n) => NotOpened(v, path, r, v') || ReleaseStep(v, path, n, r, v')
  }

  ghost predicate OpsOk(ops: seq<Op>) { forall k :: 0 <= k < |ops| ==> OpOk(ops[k]) }

  /** A sequence of calls with their replies, and the views between them. */
  ghost predicate Steps(vs: seq<View>, ops: seq<Op>, rs: seq<Reply>) {
    && OpsOk(ops) && |rs| == |ops| && |vs| == |ops| + 1
    && forall k :: 0 <= k < |ops| ==> Step(vs[k], ops[k], rs[k], vs[k + 1])
  }

  /** The replies are those that the calls may get, starting from `v`. */
  ghost predicate Answers(v: View, ops: seq<Op>, rs: seq<Reply>) {
    exists vs: seq<View> :: Steps(vs, ops, rs) && vs[0] == v
  }

  // ----- consequences

  /** The call changes the bytes of this file. */
  predicate Touches(op: Op, names: seq<Name>) { (op.Write? || op.Release?) && Components(op.path) == names }

  lemma OneStep(v: View, op: Op, r: Reply, v': View, names: seq<Name>)
    requires OpOk(op) && Step(v, op, r, v') && names in v.tree
    ensures names in v'.tree && v'.tree[names].Dir? == v.tree[names].Dir?
    ensures !Touches(op, names) ==> v'.tree[names] == v.tree[names]
    ensures v.complete && !(op.Make? && r.Done? && r.status == ENOSPC) ==> v'.complete
  {
    hide Components, Overlong, NewNode, Overwritten, Cleared, Slice;
  }

  /** No path ever disappears, files stay files, directories stay directories, and a file that no call
      writes to or takes blocks from keeps its bytes. */
  lemma {:induction false} Undisturbed(vs: seq<View>, ops: seq<Op>, rs: seq<Reply>, names: seq<Name>)
    requires Steps(vs, ops, rs) && names in vs[0].tree
    ensures names in vs[|ops|].tree && vs[|ops|].tree[names].Dir? == vs[0].tree[names].Dir?
    ensures (forall k :: 0 <= k < |ops| ==> !Touches(ops[k], names)) ==> vs[|ops|].tree[names] == vs[0].tree[names]
    decreases |ops|
  {
    hide Step, Touches, OpOk;
    if ops != [] {
      OneStep(vs[0], ops[0], rs[0], vs[1], names);
      assert Steps(vs[1..], ops[1..], rs[1..]);
      assert forall k :: 0 <= k < |ops[1..]| ==> ops[1..][k] == ops[k + 1];
      Undisturbed(vs[1..], ops[1..], rs[1..], names);
    }
  }

  /** What was written is what a later read of the range delivers, whatever else happens in between,
      as long as no other call changes that file. */
  lemma ReadAfterRun(vs: seq<View>, ops: seq<Op>, rs: seq<Reply>, path: seq<Byte>, again: seq<Byte>, offset: nat,
        bytes: seq<Byte>)
    requires Steps(vs, ops, rs) && |ops| >= 2 && Components(again) == Components(path)
    requires ops[0] == Write(path, offset, bytes) && rs[0] == Done(Ok, [])
    requires ops[|ops| - 1] == Read(again, offset, |bytes|) && rs[|ops| - 1].Done? && rs[|ops| - 1].status == Ok
    requires forall k :: 0 < k < |ops| - 1 ==> !Touches(ops[k], Components(path))
    ensures rs[|ops| - 1].data == bytes
  {
    hide Components, Step, Overlong;
    var names, last := Components(path), |ops| - 1;
    var inner, innerOps, innerRs := vs[1..last + 1], ops[1..last], rs[1..last];
    assert Steps(inner, innerOps, innerRs);
    assert Step(vs[0], ops[0], rs[0], vs[1]) && Step(vs[last], ops[last], rs[last], vs[last + 1]);
    Wrote(vs[0], path, offset, bytes, rs[0], vs[1]);
    assert forall k :: 0 <= k < |innerOps| ==> innerOps[k] == ops[k + 1];
    Undisturbed(inner, innerOps, innerRs, names);
    assert inner[0] == vs[1] && inner[|innerOps|] == vs[last];
    ReadBytes(vs[last], again, offset, |bytes|, rs[last], vs[last + 1]);
  }

  lemma Wrote(v: View, path: seq<Byte>, offset: nat, bytes: seq<Byte>, r: Reply, v': View)
    requires offset + |bytes| < TWO32 && 0 !in path && r == Done(Ok, []) && Step(v, Write(path, offset, bytes), r, v')
    ensures Components(path) in v'.tree && v'.tree[Components(path)].File?
    ensures var file := v'.tree[Components(path)].bytes;
            offset + |bytes| <= |file| && file[offset..offset + |bytes|] == bytes
  {
    hide Components, Overlong;
    assert bytes[..|bytes|] == bytes;
  }

  lemma ReadBytes(v: View, path: seq<Byte>, offset: nat, count: nat, r: Reply, v': View)
    requires offset < TWO32 && 0 !in path && r.Done? && r.status == Ok && Step(v, Read(path, offset, count), r, v')
    ensures Components(path) in v.tree && v.tree[Components(path)].File?
    ensures var file := v.tree[Components(path)].bytes;
            offset + count <= |file| ==> r.data == file[offset..offset + count]
  {
    hide Components, Overlong;
  }
}
