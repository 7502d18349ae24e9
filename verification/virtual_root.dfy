// What the whole system is for: the metadata a genuine root file system would hold.  The host
// supplies names, inodes and kinds; the server's table must show, for every file it tracks,
// the owner, mode and device a root file system would show after the same calls.

module VirtualRoot {
  import opened PathText
  import opened FileTable
  import opened ServerOp
  import opened OpFacts
  import opened Agreeing
  import opened UnlinkProtocol
  import opened Resending
  import opened WrapperScripts

  datatype Meta = Meta(uid: int, gid: int, mode: Mode, rdev: int)

  // The ideal file system: the host's names and file kinds, and root's view of each tracked file.
  datatype Ideal = Ideal(names: map<Path, Inode>, kinds: map<Inode, Mode>, meta: map<Inode, Meta>)

  // Canonical absolute paths; the root directory itself is never renamed or removed.
  predicate GoodPath(p: Path) { p != "" && p[0] == '/' && !EndsInSlash(p) }
  predicate RealNode(n: Inode) { n.dev != 0 && n.ino != 0 }

  predicate Named(names: map<Path, Inode>, n: Inode)
  {
    exists p :: p in names && names[p] == n
  }

  ghost predicate WellFormed(f: Ideal)
  {
    && (forall p | p in f.names :: GoodPath(p) && RealNode(f.names[p]) && f.names[p] in f.kinds)
    && (forall n | n in f.meta :: n in f.kinds && SameKind(f.meta[n].mode, f.kinds[n]) && Named(f.names, n))
  }

  function NodeOf(r: Row): Inode { Inode(r.dev, r.ino) }
  function MetaOf(r: Row): Meta { Meta(r.uid, r.gid, r.mode, r.rdev) }

  predicate Shows(f: Ideal, r: Row)
  {
    && r.path in f.names && f.names[r.path] == NodeOf(r)
    && NodeOf(r) in f.meta && f.meta[NodeOf(r)] == MetaOf(r)
  }

  // The table shows the ideal metadata of every name of every tracked file, once, and nothing else.
  ghost predicate Mirrors(f: Ideal, t: Files)
  {
    && (forall k | k in t :: Shows(f, t[k]))
    && (forall i, j | i in t && j in t && t[i].path == t[j].path :: i == j)
    && (forall p | p in f.names && f.names[p] in f.meta :: HasPath(t, p))
  }

  ghost predicate Refines(f: Ideal, db: Db)
  {
    WellFormed(f) && Mirrors(f, db.files) && NoMarks(db.files)
  }

  // b is what the host's lstat of p may return.
  ghost predicate HostStat(f: Ideal, p: Path, b: StatBuf)
  {
    && p in f.names && b.node == f.names[p] && b.node in f.kinds && SameKind(b.mode, f.kinds[b.node])
    && (b.nlink == 1 ==> OnlyName(f, p))
  }

  ghost predicate OnlyName(f: Ideal, p: Path)
    requires p in f.names
  {
    forall q | q in f.names && f.names[q] == f.names[p] :: q == p
  }

  // ----- the calls and what they mean on a root file system -----

  datatype Call =
    | Create(op: Op, client: int, path: Path, host: Mode, buf: StatBuf, fuid: int, fgid: int)
    | Chmod(client: int, path: Path, buf: StatBuf, perm: nat, fuid: int, fgid: int)
    | Chown(client: int, path: Path, buf: StatBuf, owner: Option<int>, group: Option<int>)
    | HardLink(client: int, src: Path, dst: Path, buf: StatBuf)
    | Remove(client: int, path: Path, buf: StatBuf, ok: bool)
    | Rename(client: int, src: Path, dst: Path, srcBuf: Option<StatBuf>, dstBuf: Option<StatBuf>, ok: bool)

  // Files with no name left lose their metadata.
  function Living(f: Ideal): Ideal
  {
    f.(meta := map n | n in f.meta && Named(f.names, n) :: f.meta[n])
  }

  function Unmoved(q: Path, src: Path, dst: Path): Path { Moved(q, dst, src) }

  // The names after a successful rename: dst is replaced, and everything at or below src moves.
  function RenamedNames(names: map<Path, Inode>, src: Path, dst: Path): map<Path, Inode>
  {
    var rest := names - {dst};
    var targets := set p | p in rest :: Moved(p, src, dst);
    map q | q in targets && Unmoved(q, src, dst) in rest :: rest[Unmoved(q, src, dst)]
  }

  function HostMeta(b: StatBuf): Meta { Meta(b.uid, b.gid, b.mode, b.rdev) }

  function MetaOr(f: Ideal, n: Inode, m: Meta): Meta
  {
    if n in f.meta then f.meta[n] else m
  }

  // The root file system after the call.  A file the server did not know yet comes under
  // tracking with the metadata the call itself supplies.
  function IdealAfter(f: Ideal, c: Call): Ideal
  {
    match c
    case Create(_, _, path, host, buf, fuid, fgid) =>
      Ideal(f.names[path := buf.node], f.kinds[buf.node := host],
            f.meta[buf.node := Meta(fuid, fgid, buf.mode, buf.rdev)])
    case Chmod(_, path, buf, perm, fuid, fgid) =>
      var m := MetaOr(f, buf.node, Meta(fuid, fgid, buf.mode, buf.rdev));
      if IsLnk(buf.mode) then f else f.(meta := f.meta[buf.node := m.(mode := Mode(m.mode.fmt, perm))])
    case Chown(_, path, buf, owner, group) =>
      var m := MetaOr(f, buf.node, HostMeta(buf));
      f.(meta := f.meta[buf.node := m.(uid := if owner.Some? then owner.value else m.uid,
                                       gid := if group.Some? then group.value else m.gid)])
    case HardLink(_, src, dst, buf) => f.(names := f.names[dst := buf.node])
    case Remove(_, path, _, ok) => if ok then Living(f.(names := f.names - {path})) else f
    case Rename(_, src, dst, srcBuf, dstBuf, ok) =>
      if !ok || SameFile(srcBuf, dstBuf) || srcBuf.None? then f
      else Living(Ideal(RenamedNames(f.names, src, dst), f.kinds,
                        f.meta[srcBuf.value.node := MetaOr(f, srcBuf.value.node, HostMeta(srcBuf.value))]))
  }

  // The host can have made this link.
  ghost predicate Linkable(f: Ideal, client: int, src: Path, dst: Path, buf: StatBuf)
  {
    && client != 0 && src in f.names && f.names[src] == buf.node && buf.node in f.kinds
    && SameKind(buf.mode, f.kinds[buf.node]) && buf.nlink != 1 && GoodPath(dst) && dst !in f.names
  }

  // The real call can end this way on the host, and it does not bring a file under tracking
  // that has other, untracked names.
  ghost predicate Possible(f: Ideal, c: Call)
  {
    match c
    case Create(op, client, path, host, buf, fuid, fgid) =>
      && op in {CREAT, MKDIR, MKNOD, SYMLINK} && client != 0
      && GoodPath(path) && path !in f.names && RealNode(buf.node) && !Named(f.names, buf.node)
      && SameKind(buf.mode, host)
    case Chmod(client, path, buf, perm, fuid, fgid) =>
      client != 0 && HostStat(f, path, buf) && (buf.node in f.meta || OnlyName(f, path))
    case Chown(client, path, buf, owner, group) =>
      client != 0 && HostStat(f, path, buf) && (buf.node in f.meta || OnlyName(f, path))
    case HardLink(client, src, dst, buf) => Linkable(f, client, src, dst, buf) && buf.node in f.meta
    case Remove(client, path, buf, ok) =>
      client != 0 && HostStat(f, path, buf)
    case Rename(client, src, dst, srcBuf, dstBuf, ok) =>
      && client != 0 && GoodPath(src) && GoodPath(dst)
      && (if srcBuf.Some? then HostStat(f, src, srcBuf.value) else src !in f.names)
      && (if dstBuf.Some? then HostStat(f, dst, dstBuf.value) else dst !in f.names)
      && (ok && !SameFile(srcBuf, dstBuf) ==>
            && srcBuf.Some? && src != dst && !Below(src, dst)
            && (forall p | p in f.names :: !Below(dst, p))
            && (dstBuf.Some? ==> dstBuf.value.node.dev == srcBuf.value.node.dev)
            && (srcBuf.value.node in f.meta || OnlyName(f, src))
            // replace() is a prefix swap for every tracked name below src
            && (forall p | p in f.names && f.names[p] in f.meta && Below(src, p) :: !Occurs(src, p[|src|..])))
  }

  function DbAfter(db: Db, c: Call): Db
  {
    match c
    case Create(op, client, path, host, buf, fuid, fgid) => CreateScript(db, op, client, path, buf, fuid, fgid)
    case Chmod(client, path, buf, perm, fuid, fgid) => ChmodScript(db, client, path, buf, perm, fuid, fgid)
    case Chown(client, path, buf, owner, group) => ChownScript(db, client, path, buf, owner, group)
    case HardLink(client, src, dst, buf) => LinkScript(db, client, src, dst, buf)
    case Remove(client, path, buf, ok) => RemoveScript(db, client, path, buf, ok)
    case Rename(client, src, dst, srcBuf, dstBuf, ok) =>
      if ok && srcBuf.None? then db else RenameScript(db, client, src, dst, srcBuf, dstBuf, ok)
  }

  // ----- single requests against a mirroring table -----

  // m speaks of the existing name m.path.
  ghost predicate Speaks(f: Ideal, m: Msg)
  {
    && m.named && m.path in f.names && f.names[m.path] == Inode(m.dev, m.ino)
    && Inode(m.dev, m.ino) in f.kinds && SameKind(m.mode, f.kinds[Inode(m.dev, m.ino)])
  }

  predicate Known(f: Ideal, m: Msg) { Inode(m.dev, m.ino) in f.meta }

  ghost predicate Served(db: Db, m: Msg, w: Work, known: bool)
  {
    && Clean(db, m, w) && Process(db, m) == Finish(w)
    && w.foundPath == w.foundIno == known
  }

  // The table mirrors the ideal as far as m can see: at its path and its inode.
  ghost predicate Around(f: Ideal, t: Files, m: Msg)
  {
    && (forall k | k in t && (t[k].path == m.path || NodeOf(t[k]) == Inode(m.dev, m.ino)) :: Shows(f, t[k]))
    && (m.path in f.names && f.names[m.path] in f.meta ==> HasPath(t, m.path))
  }

  lemma MirrorsAround(f: Ideal, t: Files, m: Msg)
    requires Mirrors(f, t)
    ensures Around(f, t, m)
  {}

  lemma Serve(f: Ideal, db: Db, m: Msg)
    requires WellFormed(f) && Around(f, db.files, m) && Speaks(f, m) && m.op !in {RENAME, SYMLINK, DID_UNLINK}
    ensures Served(db, m, Front(db, m), Known(f, m))
    ensures Agrees(db.files, m)
  {
    hide Front, CheckIno;
    assert Agrees(db.files, m);
    FrontOfAgreeing(db, m);
    var w := Front(db, m);
    if Known(f, m) {
      assert HasPath(db.files, m.path);
      var k :| k in db.files && db.files[k].path == m.path;
      assert Shows(f, db.files[k]);
    } else {
      assert forall k | k in db.files && NodeOf(db.files[k]) == Inode(m.dev, m.ino) :: Shows(f, db.files[k]);
    }
    if w.foundIno { var k :| IsHit(db.files, w, k); assert Shows(f, db.files[k]); }
    CheckNothing(w);
  }

  // A request that passes both rounds of checks goes straight to its operation.
  lemma Direct(db: Db, m: Msg, w: Work)
    requires w == Front(db, m) && !Refused(w) && (w.foundIno ==> SameKind(w.byIno.mode, w.header.mode))
    ensures Process(db, m) == Finish(w)
  {
    hide Front, Finish, CheckIno, Refused;
    CheckNothing(w);
  }

  lemma MarkMirrors(f: Ideal, t: Files, p: Path, mark: int)
    requires Mirrors(f, t)
    ensures Mirrors(f, SetMark(t, p, mark))
  {
    var u := SetMark(t, p, mark);
    forall k | k in u
      ensures Shows(f, u[k])
    {
      assert Shows(f, t[k]);
    }
    assert forall k | k in u :: u[k].path == t[k].path;
    hide Shows;
    forall q | q in f.names && f.names[q] in f.meta
      ensures HasPath(u, q)
    {
      var k :| k in t && t[k].path == q;
      assert u[k].path == q;
    }
  }

  lemma MayEffect(f: Ideal, db: Db, m: Msg)
    requires WellFormed(f) && Around(f, db.files, m) && Speaks(f, m) && m.op == MAY_UNLINK
    ensures After(db, m).files == SetMark(db.files, m.path, m.client)
    ensures Succeeds(db, m) <==> Known(f, m)
  {
    Serve(f, db, m);
    hide Front, Process;
  }

  lemma CancelEffect(f: Ideal, db: Db, m: Msg)
    requires WellFormed(f) && Around(f, db.files, m) && Speaks(f, m) && m.op == CANCEL_UNLINK
    ensures After(db, m).files == SetMark(db.files, m.path, 0)
  {
    Serve(f, db, m);
    hide Front, Process;
  }

  lemma StatEffect(f: Ideal, db: Db, m: Msg)
    requires WellFormed(f) && Around(f, db.files, m) && Speaks(f, m) && m.op in {STAT, FSTAT}
             && (m.op == STAT || m.nlink != 0)
    ensures After(db, m) == db
    ensures Succeeds(db, m) <==> Known(f, m)
    ensures Known(f, m) ==> var r := Reply(db, m); Meta(r.uid, r.gid, r.mode, r.rdev) == f.meta[Inode(m.dev, m.ino)]
  {
    Serve(f, db, m);
    var w := Front(db, m);
    hide Front, Process;
    if w.foundIno { var k :| IsHit(db.files, w, k); assert Shows(f, db.files[k]); }
  }

  // A request about a path without rows and without an inode finds nothing.
  lemma NothingThere(db: Db, m: Msg)
    requires m.named && m.dev == 0 && m.ino == 0 && m.op in {MAY_UNLINK, STAT}
    requires forall k | k in db.files :: db.files[k].path != m.path
    ensures After(db, m) == db && !Succeeds(db, m)
  {
    var w := Lookup(db, m);
    assert ByPath(db.files, m.path).None?;
    hide Lookup;
    assert CheckPath(w) == w && !Refused(w) && CheckIno(w) == w;
    assert SetMark(db.files, m.path, m.client) == db.files;
  }

  // ----- the main results -----

  // A stat shows root's view of a tracked file, and leaves an untracked one to the host.
  lemma StatShowsIdeal(f: Ideal, db: Db, client: int, path: Path, buf: StatBuf)
    requires Refines(f, db) && HostStat(f, path, buf)
    ensures var m := Request(STAT, client, path, Some(buf), "");
            && After(db, m) == db
            && (Succeeds(db, m) <==> buf.node in f.meta)
            && (buf.node in f.meta ==> HostMeta(StatFrom(buf, Reply(db, m))) == f.meta[buf.node])
  {
    MirrorsAround(f, db.files, Request(STAT, client, path, Some(buf), ""));
    StatEffect(f, db, Request(STAT, client, path, Some(buf), ""));
  }

  lemma NoRow(f: Ideal, t: Files, p: Path)
    requires Mirrors(f, t) && (p in f.names ==> f.names[p] !in f.meta)
    ensures forall k | k in t :: t[k].path != p
  {
    forall k | k in t
      ensures t[k].path != p
    {
      assert Shows(f, t[k]);
    }
  }

  lemma Unmark(t: Files, p: Path, mark: int)
    requires NoMarks(t) && mark != 0
    ensures DeletePathMarked(SetMark(t, p, mark), p, mark) == DeletePath(t, p)
    ensures SetMark(SetMark(t, p, mark), p, 0) == t
    ensures (forall k | k in t :: t[k].path != p) ==> SetMark(t, p, mark) == t && DeletePath(t, p) == t
  {}

  lemma RemoveRefines(f: Ideal, db: Db, client: int, path: Path, buf: StatBuf, ok: bool)
    requires Refines(f, db) && client != 0 && HostStat(f, path, buf)
    ensures var c := Remove(client, path, buf, ok); Refines(IdealAfter(f, c), DbAfter(db, c))
  {
    hide WellFormed, Mirrors, After, Succeeds, Living;
    var may := Request(MAY_UNLINK, client, path, Some(buf), "");
    var db1 := After(db, may);
    MirrorsAround(f, db.files, may);
    MayEffect(f, db, may);
    Unmark(db.files, path, client);
    if Succeeds(db, may) {
      var did := Request(if ok then DID_UNLINK else CANCEL_UNLINK, client, path, Some(buf), "");
      MarkMirrors(f, db.files, path, client);
      if ok {
        DidEffect(db1, did);
      } else {
        MirrorsAround(f, db1.files, did);
        CancelEffect(f, db1, did);
      }
    } else {
      NoRow(f, db.files, path);
    }
    if ok { RemovedMirrors(f, db.files, path); }
  }

  lemma DidEffect(db: Db, m: Msg)
    requires m.op == DID_UNLINK
    ensures After(db, m).files == DeletePathMarked(db.files, m.path, m.client)
  {
    hide Process;
    DidUnlinkFiles(db, m);
  }

  // Dropping a name and its row.
  lemma RemovedMirrors(f: Ideal, t: Files, path: Path)
    requires WellFormed(f) && Mirrors(f, t) && path in f.names
    ensures var g := Living(f.(names := f.names - {path}));
            WellFormed(g) && Mirrors(g, DeletePath(t, path))
  {
    var g := Living(f.(names := f.names - {path}));
    var u := DeletePath(t, path);
    forall k | k in u
      ensures Shows(g, u[k])
    {
      assert Shows(f, t[k]);
      assert g.names[t[k].path] == NodeOf(t[k]);
      assert Named(g.names, NodeOf(t[k]));
    }
    forall q | q in g.names && g.names[q] in g.meta
      ensures HasPath(u, q)
    {
      var k :| k in t && t[k].path == q;
      assert k in u;
    }
  }

  // ----- creating, linking, changing -----

  // One more row, for a new name or for a file that comes under tracking.
  lemma InsertMirrors(f: Ideal, g: Ideal, t: Files, r: Row)
    requires Mirrors(f, t)
    requires forall k | k in t :: t[k].path != r.path
    requires g.names == f.names[r.path := NodeOf(r)] && g.meta == f.meta[NodeOf(r) := MetaOf(r)]
    requires NodeOf(r) in f.meta ==> f.meta[NodeOf(r)] == MetaOf(r)
    requires forall p | p in f.names && p != r.path && f.names[p] == NodeOf(r) :: NodeOf(r) in f.meta
    requires r.path in f.names ==> f.names[r.path] == NodeOf(r)
    ensures Mirrors(g, Insert(t, r))
  {
    hide Mirrors;
    InsertMirrorsAt(f, g, t, FreshId(t), r);
  }

  // Whatever id the row gets.
  lemma InsertMirrorsAt(f: Ideal, g: Ideal, t: Files, id: nat, r: Row)
    requires Mirrors(f, t) && id !in t
    requires forall k | k in t :: t[k].path != r.path
    requires g.names == f.names[r.path := NodeOf(r)] && g.meta == f.meta[NodeOf(r) := MetaOf(r)]
    requires NodeOf(r) in f.meta ==> f.meta[NodeOf(r)] == MetaOf(r)
    requires forall p | p in f.names && p != r.path && f.names[p] == NodeOf(r) :: NodeOf(r) in f.meta
    requires r.path in f.names ==> f.names[r.path] == NodeOf(r)
    ensures Mirrors(g, t[id := r])
  {
    var u := t[id := r];
    forall k | k in u
      ensures Shows(g, u[k])
    {
      if k != id { assert Shows(f, t[k]); }
    }
    hide Shows;
    forall q | q in g.names && g.names[q] in g.meta
      ensures HasPath(u, q)
    {
      if q == r.path {
        assert u[id].path == q;
      } else {
        assert HasPath(t, q);
        var k :| k in t && t[k].path == q;
        assert u[k].path == q;
      }
    }
  }

  // New metadata for every row of one tracked file.
  lemma UpdateMirrors(f: Ideal, t: Files, n: Inode, m: Meta)
    requires Mirrors(f, t) && n in f.meta
    ensures Mirrors(f.(meta := f.meta[n := m]), SetMeta(t, n.dev, n.ino, m.uid, m.gid, m.mode, m.rdev))
  {
    var g := f.(meta := f.meta[n := m]);
    var u := SetMeta(t, n.dev, n.ino, m.uid, m.gid, m.mode, m.rdev);
    forall k | k in u
      ensures Shows(g, u[k])
    {
      assert Shows(f, t[k]);
    }
    assert forall k | k in u :: u[k].path == t[k].path;
    hide Shows;
    forall q | q in g.names && g.names[q] in g.meta
      ensures HasPath(u, q)
    {
      assert HasPath(t, q);
      var k :| k in t && t[k].path == q;
      assert u[k].path == q;
    }
  }

  // A request about a path and an inode without rows inserts its own row.
  lemma FreshEffect(db: Db, m: Msg)
    requires m.named && m.dev != 0 && m.ino != 0 && m.op in {CREAT, MKDIR, MKNOD, SYMLINK, LINK, CHMOD, CHOWN}
    requires forall k | k in db.files :: db.files[k].path != m.path && NodeOf(db.files[k]) != Inode(m.dev, m.ino)
    ensures After(db, m).files == Insert(db.files, RowOf(m))
  {
    NewRowServed(db, m);
  }

  // A file comes under tracking with the emulated owner, or with the one that chown and link
  // carry themselves.
  lemma NewRowOwner(db: Db, who: Caller, op: Op, path: Path, buf: StatBuf)
    requires RealNode(buf.node) && op in {CREAT, MKDIR, MKNOD, SYMLINK, LINK, CHMOD, FCHMOD, CHOWN, FCHOWN}
    requires op in {FCHMOD, FCHOWN} ==> buf.nlink != 0
    requires forall k | k in db.files :: db.files[k].path != path && NodeOf(db.files[k]) != buf.node
    ensures var own := op in {CHOWN, FCHOWN, LINK};
            After(db, RequestBy(who, op, path, Some(buf), "")).files ==
            Insert(db.files, Row(path, buf.node.dev, buf.node.ino, if own then buf.uid else who.fuid,
                                 if own then buf.gid else who.fgid, buf.mode, buf.rdev, 0))
  {
    hide Front, CheckIno, Finish, Insert;
    var m := RequestBy(who, op, path, Some(buf), "");
    assert forall k | k in db.files :: NodeOf(db.files[k]) != Inode(m.dev, m.ino);
    NewRowServed(db, m);
  }

  lemma NewRowServed(db: Db, m: Msg)
    requires m.named && m.dev != 0 && m.ino != 0 && (Creating(m.op) || Changing(m.op))
    requires m.op in {FCHMOD, FCHOWN} ==> m.nlink != 0
    requires forall k | k in db.files :: db.files[k].path != m.path && NodeOf(db.files[k]) != Inode(m.dev, m.ino)
    ensures After(db, m).files == Insert(db.files, RowOf(m))
  {
    hide Front, CheckIno;
    assert Agrees(db.files, m) by {
      assert forall k | k in db.files :: NodeOf(db.files[k]) != Inode(m.dev, m.ino);
    }
    FrontOfAgreeing(db, m);
    var w := Front(db, m);
    assert !w.foundPath && !w.foundIno by {
      assert forall k | k in db.files :: NodeOf(db.files[k]) != Inode(m.dev, m.ino);
    }
    CheckNothing(w);
  }

  // What the client keeps to itself would change nothing, but for the two ways of setting an
  // attribute that it does not know.
  lemma UnsentChangesNothing(db: Db, m: Msg, logging: bool)
    requires !IsSent(m.op, logging) && m.op !in {CREATE_XATTR, REPLACE_XATTR}
    requires Agrees(db.files, m) && forall k | k in db.files && NodeOf(db.files[k]) == Inode(m.dev, m.ino) ::
               SameKind(db.files[k].mode, m.mode)
    ensures After(db, m) == db
  {
    hide Front;
    FrontOfAgreeing(db, m);
    var w := Front(db, m);
    if w.foundIno {
      var k :| IsHit(db.files, w, k);
      assert NodeOf(db.files[k]) == Inode(m.dev, m.ino);
    }
  }

  lemma NoInodeRows(f: Ideal, t: Files, n: Inode)
    requires Mirrors(f, t) && n !in f.meta
    ensures forall k | k in t :: NodeOf(t[k]) != n
  {
    forall k | k in t
      ensures NodeOf(t[k]) != n
    {
      assert Shows(f, t[k]);
    }
  }

  lemma CreateRefines(f: Ideal, db: Db, c: Call)
    requires Refines(f, db) && c.Create? && Possible(f, c)
    ensures Refines(IdealAfter(f, c), DbAfter(db, c))
  {
    var m := Owned(Request(c.op, c.client, c.path, Some(c.buf), ""), c.fuid, c.fgid);
    CreationFacts(f, c, m);
    CreatedWellFormed(f, c);
    hide WellFormed, Mirrors, After, Possible, Insert, RowOf, IdealAfter;
    NoRow(f, db.files, c.path);
    NoInodeRows(f, db.files, c.buf.node);
    FreshEffect(db, m);
    InsertMirrors(f, IdealAfter(f, c), db.files, RowOf(m));
    InsertMarks(db.files, RowOf(m));
  }

  lemma CreationFacts(f: Ideal, c: Call, m: Msg)
    requires WellFormed(f) && c.Create? && Possible(f, c)
    requires m == Owned(Request(c.op, c.client, c.path, Some(c.buf), ""), c.fuid, c.fgid)
    ensures var n := c.buf.node; var r := RowOf(m); var g := IdealAfter(f, c);
            && m.op in {CREAT, MKDIR, MKNOD, SYMLINK} && RealNode(n) && n !in f.meta && c.path !in f.names
            && r.path == c.path && NodeOf(r) == n && r.deleting == 0
            && g.names == f.names[c.path := n] && g.meta == f.meta[n := MetaOf(r)]
            && forall p | p in f.names :: f.names[p] != n
  {}

  lemma CreatedWellFormed(f: Ideal, c: Call)
    requires WellFormed(f) && c.Create? && Possible(f, c)
    ensures WellFormed(IdealAfter(f, c))
  {
    var g := IdealAfter(f, c);
    forall n | n in g.meta
      ensures Named(g.names, n)
    {
      if n == c.buf.node {
        assert g.names[c.path] == n;
      } else {
        var p :| p in f.names && f.names[p] == n;
        assert g.names[p] == n;
      }
    }
    assert forall n | n in f.meta :: n != c.buf.node;
  }

  lemma MetaWellFormed(f: Ideal, p: Path, m: Meta)
    requires WellFormed(f) && p in f.names && SameKind(m.mode, f.kinds[f.names[p]])
    ensures WellFormed(f.(meta := f.meta[f.names[p] := m]))
  {
    assert Named(f.names, f.names[p]);
  }

  // chmod and chown of a tracked file rewrite its rows with the ideal's new metadata; of an
  // untracked file with one name, they bring it under tracking.
  predicate Changes(was: Meta, m: Msg, want: Meta)
  {
    want == if m.op == CHMOD then was.(mode := Mode(was.mode.fmt, m.mode.perm)) else was.(uid := m.uid, gid := m.gid)
  }

  lemma ChangeOnHit(w: Work, r: Row, want: Meta)
    requires w.msg == w.header && w.foundIno && w.byIno == WithMeta(w.msg, r) && w.msg.op in {CHMOD, CHOWN}
    requires Changes(MetaOf(r), w.msg, want)
    ensures Finish(w).db.files == SetMeta(w.db.files, w.msg.dev, w.msg.ino, want.uid, want.gid, want.mode, want.rdev)
  {
    hide SetMeta;
  }

  lemma ChangeEffectOn(f: Ideal, db: Db, m: Msg, want: Meta)
    requires WellFormed(f) && Around(f, db.files, m) && Speaks(f, m) && m.op in {CHMOD, CHOWN} && Known(f, m)
    requires Changes(f.meta[Inode(m.dev, m.ino)], m, want)
    ensures After(db, m).files == SetMeta(db.files, m.dev, m.ino, want.uid, want.gid, want.mode, want.rdev)
  {
    hide Front, Process, Finish, SetMeta, WellFormed;
    Serve(f, db, m);
    var w := Front(db, m);
    var k :| IsHit(db.files, w, k);
    assert Shows(f, db.files[k]);
    hide Around;
    ChangeOnHit(w, db.files[k], want);
  }

  lemma ChangeKnown(f: Ideal, db: Db, m: Msg, want: Meta)
    requires WellFormed(f) && Mirrors(f, db.files) && Speaks(f, m) && m.op in {CHMOD, CHOWN} && Known(f, m)
    requires Changes(f.meta[Inode(m.dev, m.ino)], m, want)
    ensures Mirrors(f.(meta := f.meta[Inode(m.dev, m.ino) := want]), After(db, m).files)
    ensures NoMarks(db.files) ==> NoMarks(After(db, m).files)
  {
    hide WellFormed, Mirrors, After;
    MirrorsAround(f, db.files, m);
    ChangeEffectOn(f, db, m, want);
    UpdateMirrors(f, db.files, Inode(m.dev, m.ino), want);
  }

  lemma ChangeUnknown(f: Ideal, db: Db, m: Msg)
    requires WellFormed(f) && Mirrors(f, db.files) && Speaks(f, m) && m.op in {CHMOD, CHOWN}
    requires !Known(f, m) && OnlyName(f, m.path)
    ensures Mirrors(f.(meta := f.meta[Inode(m.dev, m.ino) := Meta(m.uid, m.gid, m.mode, m.rdev)]), After(db, m).files)
    ensures NoMarks(db.files) ==> NoMarks(After(db, m).files)
  {
    var n := Inode(m.dev, m.ino);
    var r := RowOf(m);
    UnknownFacts(f, m);
    hide WellFormed, Mirrors, After, RowOf, Insert, OnlyName, Speaks;
    NoRow(f, db.files, m.path);
    NoInodeRows(f, db.files, n);
    FreshEffect(db, m);
    InsertMarks(db.files, r);
    InsertMirrors(f, f.(meta := f.meta[n := MetaOf(r)]), db.files, r);
  }

  lemma UnknownFacts(f: Ideal, m: Msg)
    requires WellFormed(f) && Speaks(f, m) && OnlyName(f, m.path)
    ensures var n := Inode(m.dev, m.ino); var r := RowOf(m);
            && RealNode(n) && NodeOf(r) == n && MetaOf(r) == Meta(m.uid, m.gid, m.mode, m.rdev)
            && m.named && r.path == m.path && r.deleting == 0 && m.path in f.names && f.names[m.path] == n
            && f.names == f.names[m.path := n]
            && forall p | p in f.names && p != m.path :: f.names[p] != n
  {}

  lemma InsertMarks(t: Files, r: Row)
    requires r.deleting == 0
    ensures NoMarks(t) ==> NoMarks(Insert(t, r))
  {}

  lemma ChangeRefines(f: Ideal, db: Db, m: Msg, want: Meta)
    requires Refines(f, db) && Speaks(f, m) && m.op in {CHMOD, CHOWN}
    requires var n := Inode(m.dev, m.ino);
             if n in f.meta then Changes(f.meta[n], m, want)
             else want == Meta(m.uid, m.gid, m.mode, m.rdev) && OnlyName(f, m.path)
    ensures Refines(f.(meta := f.meta[Inode(m.dev, m.ino) := want]), After(db, m))
  {
    MetaWellFormed(f, m.path, want);
    hide WellFormed, Mirrors, After;
    if Known(f, m) { ChangeKnown(f, db, m, want); } else { ChangeUnknown(f, db, m); }
  }

  lemma ChmodRefines(f: Ideal, db: Db, c: Call)
    requires Refines(f, db) && c.Chmod? && Possible(f, c)
    ensures Refines(IdealAfter(f, c), DbAfter(db, c))
  {
    if !IsLnk(c.buf.mode) {
      var b := c.buf.(mode := Mode(c.buf.mode.fmt, c.perm));
      var m := Owned(Request(CHMOD, c.client, c.path, Some(b), ""), c.fuid, c.fgid);
      var base := MetaOr(f, c.buf.node, Meta(c.fuid, c.fgid, c.buf.mode, c.buf.rdev));
      hide WellFormed, Mirrors, After;
      ChangeRefines(f, db, m, base.(mode := Mode(base.mode.fmt, c.perm)));
    }
  }

  lemma ChownRefines(f: Ideal, db: Db, c: Call)
    requires Refines(f, db) && c.Chown? && Possible(f, c)
    ensures Refines(IdealAfter(f, c), DbAfter(db, c))
  {
    var ask := Request(STAT, c.client, c.path, Some(c.buf), "");
    MirrorsAround(f, db.files, ask);
    StatEffect(f, db, ask);
    var b := ChownBuf(db, c.client, c.path, c.buf, c.owner, c.group);
    var m := Request(CHOWN, c.client, c.path, Some(b), "");
    var base := MetaOr(f, c.buf.node, HostMeta(c.buf));
    var want := base.(uid := if c.owner.Some? then c.owner.value else base.uid,
                      gid := if c.group.Some? then c.group.value else base.gid);
    assert SameKind(b.mode, c.buf.mode) by { assert Known(f, ask) ==>
        SameKind(f.meta[c.buf.node].mode, f.kinds[c.buf.node]); }
    hide WellFormed, Mirrors, After;
    ChangeRefines(f, db, m, want);
  }

  lemma LinkedWellFormed(f: Ideal, c: Call)
    requires WellFormed(f) && c.HardLink? && Possible(f, c)
    ensures WellFormed(IdealAfter(f, c))
  {
    var g := IdealAfter(f, c);
    forall n | n in g.meta
      ensures Named(g.names, n)
    {
      var p :| p in f.names && f.names[p] == n;
      assert g.names[p] == n;
    }
  }

  lemma LinkAsks(f: Ideal, db: Db, c: Call) returns (m: Msg)
    requires Refines(f, db) && c.HardLink? && Possible(f, c)
    ensures DbAfter(db, c) == After(db, m)
    ensures m.op == LINK && m.named && m.path == c.dst && Inode(m.dev, m.ino) == c.buf.node
    ensures Meta(m.uid, m.gid, m.mode, m.rdev) == f.meta[c.buf.node]
  {
    var ask := Request(STAT, c.client, c.src, Some(c.buf), "");
    hide After, Succeeds, Reply, Mirrors;
    MirrorsAround(f, db.files, ask);
    StatEffect(f, db, ask);
    m := Request(LINK, c.client, c.dst, Some(StatFrom(c.buf, Reply(db, ask))), "");
  }

  lemma LinkFacts(f: Ideal, c: Call)
    requires WellFormed(f) && c.HardLink? && Possible(f, c)
    ensures var n := c.buf.node; var g := IdealAfter(f, c);
            && RealNode(n) && n in f.meta && c.dst !in f.names
            && g.names == f.names[c.dst := n] && g.meta == f.meta[n := f.meta[n]]
  {}

  lemma HardLinkRefines(f: Ideal, db: Db, c: Call)
    requires Refines(f, db) && c.HardLink? && Possible(f, c)
    ensures Refines(IdealAfter(f, c), DbAfter(db, c))
  {
    hide WellFormed, Mirrors, After, DbAfter, IdealAfter, Possible;
    LinkedWellFormed(f, c);
    LinkFacts(f, c);
    var m := LinkAsks(f, db, c);
    NoRow(f, db.files, c.dst);
    LinkNewEffect(f, db, m);
    InsertMirrors(f, IdealAfter(f, c), db.files, RowOf(m));
  }

  // After a link of a file the server did not know, it knows the file by its new name only, and
  // takes the old one for a mistake.
  lemma LinkedSourceAborts(f: Ideal, db: Db, c: Call)
    requires Refines(f, db) && c.HardLink? && Linkable(f, c.client, c.src, c.dst, c.buf)
    ensures var ask := Request(STAT, c.client, c.src, Some(c.buf), "");
            Reply(DbAfter(db, c), ask).result == ABORT <==> c.buf.node !in f.meta
  {
    var ask := Request(STAT, c.client, c.src, Some(c.buf), "");
    hide WellFormed, Mirrors, After, Reply, DbAfter;
    if c.buf.node in f.meta {
      assert Possible(f, c) && HostStat(IdealAfter(f, c), c.src, c.buf);
      HardLinkRefines(f, db, c);
      hide Refines, IdealAfter, Possible;
      StatShowsIdeal(IdealAfter(f, c), DbAfter(db, c), c.client, c.src, c.buf);
    } else {
      var m := UnknownLinkAsks(f, db, c);
      hide Refines, IdealAfter, Possible, RowOf, Insert;
      LinkedBlocks(f, db.files, c, m);
      FreshEffect(db, m);
      AbortsWhenBlocked(DbAfter(db, c), ask);
    }
  }

  lemma LinkedBlocks(f: Ideal, t: Files, c: Call, m: Msg)
    requires Mirrors(f, t) && c.HardLink? && Linkable(f, c.client, c.src, c.dst, c.buf) && c.buf.node !in f.meta
    requires m.named && m.path == c.dst && Inode(m.dev, m.ino) == c.buf.node && RealNode(c.buf.node)
    ensures forall k | k in t :: t[k].path != m.path && NodeOf(t[k]) != Inode(m.dev, m.ino)
    ensures Blocked(Insert(t, RowOf(m)), Request(STAT, c.client, c.src, Some(c.buf), ""))
  {
    hide Mirrors, Insert, Blocked;
    NoRow(f, t, c.src);
    NoRow(f, t, c.dst);
    NoInodeRows(f, t, c.buf.node);
    OtherNameBlocks(t, RowOf(m), Request(STAT, c.client, c.src, Some(c.buf), ""));
  }

  lemma UnknownLinkAsks(f: Ideal, db: Db, c: Call) returns (m: Msg)
    requires Refines(f, db) && c.HardLink? && Linkable(f, c.client, c.src, c.dst, c.buf) && c.buf.node !in f.meta
    ensures DbAfter(db, c) == After(db, m) && RealNode(c.buf.node)
    ensures m.op == LINK && m.named && m.path == c.dst && Inode(m.dev, m.ino) == c.buf.node && c.dst != c.src
  {
    var ask := Request(STAT, c.client, c.src, Some(c.buf), "");
    assert RealNode(f.names[c.src]);
    hide After, Succeeds, Reply, Mirrors;
    MirrorsAround(f, db.files, ask);
    StatEffect(f, db, ask);
    m := Request(LINK, c.client, c.dst, Some(c.buf), "");
  }

  // An unmarked row gives the inode another name.
  lemma OtherNameBlocks(t: Files, r: Row, m: Msg)
    requires m.op == STAT && m.named && m.dev != 0 && m.ino != 0 && NodeOf(r) == Inode(m.dev, m.ino)
    requires r.deleting == 0 && r.path != m.path && r.path != NAMELESS
    requires forall k | k in t :: t[k].path != m.path && NodeOf(t[k]) != Inode(m.dev, m.ino)
    ensures Blocked(Insert(t, r), m)
  {
    var u := Insert(t, r);
    assert u[FreshId(t)] == r;
    assert forall k | k in t :: u[k] == t[k];
    assert ByPathAndInode(u, m.path, m.dev, m.ino).None? && ByPath(u, m.path).None?;
    assert forall k | k in t :: NodeOf(u[k]) != Inode(m.dev, m.ino);
    assert ByInode(u, m.dev, m.ino) == Some(FreshId(t));
  }

  lemma AbortsWhenBlocked(db: Db, m: Msg)
    requires Blocked(db.files, m)
    ensures Reply(db, m).result == ABORT
  {
    hide Process, Blocked;
    AbortExactly(db, m);
  }

  lemma KnownRow(f: Ideal, t: Files, n: Inode)
    requires WellFormed(f) && Mirrors(f, t) && n in f.meta
    ensures HasInode(t, n.dev, n.ino)
    ensures forall k | k in t && NodeOf(t[k]) == n :: MetaOf(t[k]) == f.meta[n]
  {
    var p :| p in f.names && f.names[p] == n;
    assert HasPath(t, p);
    var k :| k in t && t[k].path == p;
    assert Shows(f, t[k]);
    forall j | j in t && NodeOf(t[j]) == n
      ensures MetaOf(t[j]) == f.meta[n]
    {
      assert Shows(f, t[j]);
    }
  }

  lemma LinkNewEffect(f: Ideal, db: Db, m: Msg)
    requires WellFormed(f) && Mirrors(f, db.files) && m.op == LINK && m.named
    requires forall k | k in db.files :: db.files[k].path != m.path
    requires RealNode(Inode(m.dev, m.ino)) && Known(f, m)
    requires f.meta[Inode(m.dev, m.ino)] == Meta(m.uid, m.gid, m.mode, m.rdev)
    ensures After(db, m).files == Insert(db.files, RowOf(m))
  {
    KnownRow(f, db.files, Inode(m.dev, m.ino));
    hide Mirrors, WellFormed, Insert, RowOf;
    LinkKnown(db, m);
  }

  // A new name for an inode whose rows carry the request's metadata.
  lemma LinkKnown(db: Db, m: Msg)
    requires m.op == LINK && m.named && RealNode(Inode(m.dev, m.ino)) && HasInode(db.files, m.dev, m.ino)
    requires forall k | k in db.files :: db.files[k].path != m.path
    requires forall k | k in db.files && NodeOf(db.files[k]) == Inode(m.dev, m.ino) ::
               MetaOf(db.files[k]) == Meta(m.uid, m.gid, m.mode, m.rdev)
    ensures After(db, m).files == Insert(db.files, RowOf(m))
  {
    hide Front, CheckIno, Finish, Insert, Process;
    FrontOfAgreeing(db, m);
    var w := Front(db, m);
    var k :| IsHit(db.files, w, k);
    assert NodeOf(db.files[k]) == Inode(m.dev, m.ino);
    Direct(db, m, w);
    LinkInserts(w);
    assert RowOf(w.byIno) == RowOf(m);
  }

  lemma LinkInserts(w: Work)
    requires w.msg.op == LINK && !w.foundPath && w.foundIno
    ensures Finish(w).db == LinkFile(w.db, w.byIno)
  {}
}
