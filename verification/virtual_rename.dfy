// The rename part of the virtual-root refinement, and the theorem over whole runs.

module VirtualRename {
  import opened PathText
  import opened FileTable
  import opened ServerOp
  import opened OpFacts
  import opened Agreeing
  import opened UnlinkProtocol
  import opened Resending
  import opened WrapperScripts
  import opened VirtualRoot

  ghost predicate Renaming(f: Ideal, c: Call)
  {
    c.Rename? && Possible(f, c) && !SameFile(c.srcBuf, c.dstBuf)
  }

  predicate Tracks(f: Ideal, b: Option<StatBuf>) { b.Some? && b.value.node in f.meta }

  function MarkBoth(t: Files, c: Call): Files
    requires c.Rename?
  {
    SetMark(SetMark(t, c.dst, c.client), c.src, c.client)
  }

  // Marking one of the two paths, whether or not the host has a file there.
  lemma MarkOne(f: Ideal, db: Db, client: int, p: Path, buf: Option<StatBuf>)
    requires WellFormed(f) && Mirrors(f, db.files)
    requires if buf.Some? then HostStat(f, p, buf.value) else p !in f.names
    ensures var m := Request(MAY_UNLINK, client, p, buf, "");
            && After(db, m).files == SetMark(db.files, p, client)
            && Mirrors(f, After(db, m).files)
            && (Succeeds(db, m) <==> Tracks(f, buf))
  {
    var m := Request(MAY_UNLINK, client, p, buf, "");
    if buf.Some? {
      MirrorsAround(f, db.files, m);
      MayEffect(f, db, m);
    } else {
      NoRow(f, db.files, p);
      NothingThere(db, m);
      assert SetMark(db.files, p, client) == db.files;
    }
    hide After, Succeeds;
    MarkMirrors(f, db.files, p, client);
  }

  lemma AskOld(f: Ideal, db: Db, client: int, p: Path, buf: Option<StatBuf>)
    requires WellFormed(f) && Mirrors(f, db.files)
    requires if buf.Some? then HostStat(f, p, buf.value) else p !in f.names
    ensures var m := Request(STAT, client, p, buf, "");
            After(db, m) == db && (Succeeds(db, m) <==> Tracks(f, buf))
  {
    var m := Request(STAT, client, p, buf, "");
    if buf.Some? {
      MirrorsAround(f, db.files, m);
      StatEffect(f, db, m);
    } else {
      NoRow(f, db.files, p);
      NothingThere(db, m);
    }
  }

  lemma PrepareEffect(f: Ideal, db: Db, c: Call)
    requires Refines(f, db) && Renaming(f, c)
    ensures var p := RenamePrepare(db, c.client, c.src, c.dst, c.srcBuf, c.dstBuf);
            && p.db.files == MarkBoth(db.files, c)
            && Mirrors(f, p.db.files)
            && p.mayNew == Tracks(f, c.dstBuf) && p.mayOld == p.known == Tracks(f, c.srcBuf)
  {
    hide After, Succeeds, Mirrors, WellFormed;
    var db1 := After(db, Request(MAY_UNLINK, c.client, c.dst, c.dstBuf, ""));
    MarkOne(f, db, c.client, c.dst, c.dstBuf);
    MarkOne(f, db1, c.client, c.src, c.srcBuf);
    AskOld(f, After(db1, Request(MAY_UNLINK, c.client, c.src, c.srcBuf, "")), c.client, c.src, c.srcBuf);
  }

  lemma CancelBoth(t: Files, c: Call)
    requires c.Rename? && NoMarks(t)
    ensures SetMark(SetMark(MarkBoth(t, c), c.dst, 0), c.src, 0) == t
    ensures (forall k | k in t :: t[k].path != c.dst) ==> SetMark(MarkBoth(t, c), c.dst, 0) == MarkBoth(t, c)
    ensures (forall k | k in t :: t[k].path != c.src) ==>
              SetMark(SetMark(MarkBoth(t, c), c.dst, 0), c.src, 0) == SetMark(MarkBoth(t, c), c.dst, 0)
  {}

  lemma FailedRenameRefines(f: Ideal, db: Db, c: Call)
    requires Refines(f, db) && Renaming(f, c) && !c.ok
    ensures Refines(IdealAfter(f, c), DbAfter(db, c))
  {
    var p := RenamePrepare(db, c.client, c.src, c.dst, c.srcBuf, c.dstBuf);
    assert IdealAfter(f, c) == f;
    assert DbAfter(db, c) == RenameCancel(p, c.client, c.src, c.dst, c.srcBuf, c.dstBuf);
    PrepareEffect(f, db, c);
    hide After, Succeeds, WellFormed, RenamePrepare, DbAfter;
    CancelBoth(db.files, c);
    if !p.mayNew { NoRow(f, db.files, c.dst); }
    if !p.mayOld { NoRow(f, db.files, c.src); }
    var db1 := p.db;
    if p.mayNew {
      var m := Request(CANCEL_UNLINK, c.client, c.dst, c.dstBuf, "");
      MirrorsAround(f, p.db.files, m);
      CancelEffect(f, p.db, m);
      MarkMirrors(f, p.db.files, c.dst, 0);
      db1 := After(p.db, m);
    }
    if p.mayOld {
      var m := Request(CANCEL_UNLINK, c.client, c.src, c.srcBuf, "");
      MirrorsAround(f, db1.files, m);
      CancelEffect(f, db1, m);
    }
  }

  // The ideal between the removal of the target and the move.
  function HalfWay(f: Ideal, c: Call): Ideal
    requires c.Rename? && c.srcBuf.Some?
  {
    var g := Living(f.(names := f.names - {c.dst}));
    g.(meta := g.meta[c.srcBuf.value.node := MetaOr(f, c.srcBuf.value.node, HostMeta(c.srcBuf.value))])
  }

  ghost predicate Moving(f: Ideal, c: Call) { Renaming(f, c) && c.ok }

  lemma WithoutTarget(f: Ideal, t: Files, c: Call)
    requires WellFormed(f) && Mirrors(f, t) && c.Rename?
    ensures var g := Living(f.(names := f.names - {c.dst}));
            WellFormed(g) && Mirrors(g, DeletePath(t, c.dst))
  {
    if c.dst in f.names {
      RemovedMirrors(f, t, c.dst);
    } else {
      NoRow(f, t, c.dst);
      var g := Living(f.(names := f.names - {c.dst}));
      assert DeletePath(t, c.dst) == t && f.names - {c.dst} == f.names && g.meta == f.meta;
    }
  }

  // The target is gone: the table mirrors the names without it.
  lemma TargetGone(f: Ideal, t: Files, c: Call)
    requires WellFormed(f) && Mirrors(f, t) && c.Rename? && c.src != c.dst
    ensures var g := Living(f.(names := f.names - {c.dst}));
            WellFormed(g) && Mirrors(g, DeletePath(MarkBoth(t, c), c.dst))
  {
    hide Mirrors, WellFormed, Living, DeletePath, SetMark, MarkBoth;
    var g := Living(f.(names := f.names - {c.dst}));
    WithoutTarget(f, t, c);
    MarkMirrors(g, DeletePath(t, c.dst), c.src, c.client);
    MarksCommute(t, c);
  }

  lemma MarksCommute(t: Files, c: Call)
    requires c.Rename? && c.src != c.dst
    ensures DeletePath(MarkBoth(t, c), c.dst) == SetMark(DeletePath(t, c.dst), c.src, c.client)
  {}

  // The source is known: the table mirrors the half-way ideal.
  lemma HalfWayMirrors(f: Ideal, t: Files, c: Call, r: Row)
    requires c.Rename? && c.srcBuf.Some? && Moving(f, c) && WellFormed(f)
    requires Mirrors(Living(f.(names := f.names - {c.dst})), t)
    requires !Tracks(f, c.srcBuf) ==>
               r.path == c.src && NodeOf(r) == c.srcBuf.value.node && MetaOf(r) == HostMeta(c.srcBuf.value)
    ensures Mirrors(HalfWay(f, c), if Tracks(f, c.srcBuf) then t else Insert(t, r))
    ensures !Tracks(f, c.srcBuf) ==> forall k | k in t :: t[k].path != c.src && NodeOf(t[k]) != c.srcBuf.value.node
  {
    hide Mirrors, WellFormed, Moving, HalfWay, Living;
    if Tracks(f, c.srcBuf) {
      KnownHalfWay(f, t, c);
    } else {
      SourceHasNoRow(f, t, c);
      EnteredHalfWay(f, t, c, FreshId(t), r);
    }
  }

  lemma KnownHalfWay(f: Ideal, t: Files, c: Call)
    requires Moving(f, c) && WellFormed(f) && Tracks(f, c.srcBuf)
    requires Mirrors(Living(f.(names := f.names - {c.dst})), t)
    ensures Mirrors(HalfWay(f, c), t)
  {
    var g := Living(f.(names := f.names - {c.dst}));
    hide Mirrors, WellFormed;
    assert g.names[c.src] == c.srcBuf.value.node;
    assert HalfWay(f, c).meta == g.meta;
  }

  lemma SourceHasNoRow(f: Ideal, t: Files, c: Call)
    requires Moving(f, c) && WellFormed(f) && !Tracks(f, c.srcBuf)
    requires Mirrors(Living(f.(names := f.names - {c.dst})), t)
    ensures forall k | k in t :: t[k].path != c.src && NodeOf(t[k]) != c.srcBuf.value.node
  {
    var g := Living(f.(names := f.names - {c.dst}));
    assert g.names[c.src] == c.srcBuf.value.node;
    hide Mirrors, WellFormed;
    NoRow(g, t, c.src);
    NoInodeRows(g, t, c.srcBuf.value.node);
  }

  lemma EnteredHalfWay(f: Ideal, t: Files, c: Call, id: nat, r: Row)
    requires Moving(f, c) && WellFormed(f) && !Tracks(f, c.srcBuf) && id !in t
    requires Mirrors(Living(f.(names := f.names - {c.dst})), t)
    requires r.path == c.src && NodeOf(r) == c.srcBuf.value.node && MetaOf(r) == HostMeta(c.srcBuf.value)
    ensures Mirrors(HalfWay(f, c), t[id := r])
  {
    var g := Living(f.(names := f.names - {c.dst}));
    assert g.names[c.src] == c.srcBuf.value.node;
    SourceHasNoRow(f, t, c);
    hide Mirrors, WellFormed;
    assert OnlyName(f, c.src);
    InsertMirrorsAt(g, HalfWay(f, c), t, id, r);
  }

  // What the server holds when it receives the rename itself.
  function Cleared(db: Db, c: Call): Db
    requires c.Rename?
  {
    var p := RenamePrepare(db, c.client, c.src, c.dst, c.srcBuf, c.dstBuf);
    if p.mayNew then After(p.db, Request(DID_UNLINK, c.client, c.dst, c.dstBuf, "")) else p.db
  }

  function Entered(db: Db, c: Call): Db
    requires c.Rename? && c.srcBuf.Some?
  {
    var p := RenamePrepare(db, c.client, c.src, c.dst, c.srcBuf, c.dstBuf);
    if p.known then Cleared(db, c) else After(Cleared(db, c), Request(LINK, c.client, c.src, c.srcBuf, ""))
  }

  lemma DeleteMine(t: Files, c: Call)
    requires c.Rename? && c.src != c.dst
    ensures DeletePathMarked(MarkBoth(t, c), c.dst, c.client) == DeletePath(MarkBoth(t, c), c.dst)
    ensures (forall k | k in t :: t[k].path != c.dst) ==> MarkBoth(t, c) == DeletePath(MarkBoth(t, c), c.dst)
  {}

  lemma NoTargetRow(f: Ideal, t: Files, c: Call)
    requires Renaming(f, c) && Mirrors(f, t) && !Tracks(f, c.dstBuf)
    ensures forall k | k in t :: t[k].path != c.dst
  {
    hide Mirrors;
    NoRow(f, t, c.dst);
  }

  lemma ClearedEffect(f: Ideal, db: Db, c: Call)
    requires Refines(f, db) && c.Rename? && Renaming(f, c) && c.src != c.dst
    ensures Cleared(db, c).files == DeletePath(MarkBoth(db.files, c), c.dst)
  {
    hide Renaming, After, Succeeds, WellFormed, RenamePrepare, MarkBoth, Mirrors, DeletePath, DeletePathMarked, Tracks;
    var p := RenamePrepare(db, c.client, c.src, c.dst, c.srcBuf, c.dstBuf);
    PrepareEffect(f, db, c);
    DeleteMine(db.files, c);
    if p.mayNew {
      DidEffect(p.db, Request(DID_UNLINK, c.client, c.dst, c.dstBuf, ""));
    } else {
      NoTargetRow(f, db.files, c);
    }
  }

  lemma EnteredEffect(f: Ideal, db: Db, c: Call)
    requires Refines(f, db) && Moving(f, c)
    ensures var t := DeletePath(MarkBoth(db.files, c), c.dst);
            && Entered(db, c).files == (if Tracks(f, c.srcBuf) then t
               else Insert(t, RowOf(Request(LINK, c.client, c.src, c.srcBuf, ""))))
            && Mirrors(HalfWay(f, c), Entered(db, c).files)
  {
    var m := Request(LINK, c.client, c.src, c.srcBuf, "");
    var n := c.srcBuf.value.node;
    assert RealNode(n);
    hide After, Succeeds, Mirrors, RenamePrepare, MarkBoth, Cleared;
    PrepareEffect(f, db, c);
    ClearedEffect(f, db, c);
    TargetGone(f, db.files, c);
    HalfWayMirrors(f, Cleared(db, c).files, c, RowOf(m));
    if !Tracks(f, c.srcBuf) { FreshEffect(Cleared(db, c), m); }
  }

  lemma ScriptEnters(f: Ideal, db: Db, c: Call)
    requires Moving(f, c)
    ensures DbAfter(db, c) == After(Entered(db, c), Request(RENAME, c.client, c.dst, c.srcBuf, c.src))
  {}

  // Rows at and below src carry tracked names; nothing is at or below dst.
  lemma PlainMove(f: Ideal, t: Files, c: Call)
    requires WellFormed(f) && Moving(f, c) && Mirrors(HalfWay(f, c), t)
    ensures PlainRename(t, Request(RENAME, c.client, c.dst, c.srcBuf, c.src))
  {
    var g := HalfWay(f, c);
    assert HasPath(t, c.src) by { assert g.names[c.src] in g.meta; }
    forall k | k in t
      ensures t[k].path != c.dst && !Below(c.dst, t[k].path)
      ensures Below(c.src, t[k].path) ==> !Occurs(c.src, t[k].path[|c.src|..])
    {
      assert Shows(g, t[k]);
    }
  }

  lemma RenameAgrees(f: Ideal, t: Files, c: Call, m: Msg)
    requires WellFormed(f) && Moving(f, c) && Mirrors(HalfWay(f, c), t)
    requires m == Request(RENAME, c.client, c.dst, c.srcBuf, c.src)
    ensures Agrees(t, m) && PathKnown(t, m.(path := c.src)) && HasInode(t, m.dev, m.ino)
    ensures forall k | k in t && NodeOf(t[k]) == Inode(m.dev, m.ino) ::
              SameKind(t[k].mode, m.mode) && (m.nlink == 1 ==> t[k].path == c.src)
  {
    var g := HalfWay(f, c);
    var n := c.srcBuf.value.node;
    assert SameKind(g.meta[n].mode, m.mode);
    forall k | k in t
      ensures NodeOf(t[k]) == n ==> SameKind(t[k].mode, m.mode) && (m.nlink == 1 ==> t[k].path == c.src)
      ensures t[k].path == c.src ==> NodeOf(t[k]) == n
      ensures t[k].path != c.dst
    {
      assert Shows(g, t[k]);
    }
    assert HasPath(t, c.src) by { assert g.names[c.src] in g.meta; }
    var k :| k in t && t[k].path == c.src;
    assert NodeOf(t[k]) == n;
  }

  lemma RenameServed(db: Db, m: Msg)
    requires m.op == RENAME && m.named && Agrees(db.files, m) && PlainRename(db.files, m)
             && HasInode(db.files, m.dev, m.ino)
    requires forall k | k in db.files && NodeOf(db.files[k]) == Inode(m.dev, m.ino) ::
               SameKind(db.files[k].mode, m.mode) && (m.nlink == 1 ==> db.files[k].path == m.extra)
    ensures After(db, m).files == MoveRows(db.files, m.extra, m.path)
  {
    hide Front, CheckIno, PlainRename, Finish, Process, RenameFiles, SetInode, MoveRows;
    FrontOfAgreeing(db, m);
    RenameEffect(db.files, m);
    var w := Front(db, m);
    var k :| IsHit(db.files, w, k);
    assert NodeOf(db.files[k]) == Inode(m.dev, m.ino);
    hide Agrees;
    Direct(db, m, w);
    RenameFinishes(w);
  }

  lemma RenameFinishes(w: Work)
    requires w.msg.op == RENAME && w.msg.named
    ensures Finish(w).db.files ==
            SetInode(RenameFiles(w.db.files, w.msg.extra, w.msg.path), w.msg.path, w.msg.dev, w.msg.ino)
  {
    hide SetInode, RenameFiles;
  }

  // Renaming a name onto another name of the same file does nothing, on the host and here.
  lemma OntoItself(f: Ideal, db: Db, c: Call)
    requires c.Rename? && c.srcBuf.Some? && c.dstBuf.Some?
    requires c.srcBuf.value.node.dev == c.dstBuf.value.node.dev && c.srcBuf.value.node.ino == c.dstBuf.value.node.ino
    ensures IdealAfter(f, c) == f && DbAfter(db, c) == db
  {}

  // A file the server does not know, renamed over one on another device: it is entered as the
  // file it replaces.
  lemma EnteredAcrossDevices(db: Db, c: Call)
    requires c.Rename? && c.ok && c.srcBuf.Some? && c.dstBuf.Some? && !SameFile(c.srcBuf, c.dstBuf)
    requires c.srcBuf.value.node.dev != c.dstBuf.value.node.dev && RealNode(c.dstBuf.value.node)
    requires RealNode(c.srcBuf.value.node) && c.src != "" && c.dst != "" && c.src != c.dst
    requires !EndsInSlash(c.src) && !EndsInSlash(c.dst) && !Below(c.src, c.dst) && !Below(c.dst, c.src)
    requires forall k | k in db.files ::
               && db.files[k].path != c.src && db.files[k].path != c.dst
               && !Below(c.src, db.files[k].path) && !Below(c.dst, db.files[k].path)
               && NodeOf(db.files[k]) != c.srcBuf.value.node && NodeOf(db.files[k]) != c.dstBuf.value.node
    ensures var b := c.srcBuf.value; var n := c.dstBuf.value.node;
            DbAfter(db, c).files == Insert(db.files, Row(c.dst, n.dev, n.ino, b.uid, b.gid, b.mode, b.rdev, 0))
  {
    hide After, Succeeds, Below, EndsInSlash, Insert;
    var b := Some(c.srcBuf.value.(node := c.dstBuf.value.node));
    var p := NothingPrepared(db, c);
    var entered := Request(LINK, c.client, c.src, b, "");
    FreshEffect(p.db, entered);
    var d := After(p.db, entered);
    var moved := Request(RENAME, c.client, c.dst, b, c.src);
    assert DbAfter(db, c) == After(d, moved);
    MovedAlone(d, db.files, RowOf(entered), moved);
  }

  lemma NothingPrepared(db: Db, c: Call) returns (p: Prepared)
    requires c.Rename? && c.srcBuf.Some? && c.dstBuf.Some?
    requires RealNode(c.srcBuf.value.node) && RealNode(c.dstBuf.value.node)
    requires forall k | k in db.files ::
               && db.files[k].path != c.src && db.files[k].path != c.dst
               && NodeOf(db.files[k]) != c.srcBuf.value.node && NodeOf(db.files[k]) != c.dstBuf.value.node
    ensures p == RenamePrepare(db, c.client, c.src, c.dst, c.srcBuf, c.dstBuf)
    ensures p.db.files == db.files && !p.mayNew && !p.mayOld && !p.known
  {
    hide After, Succeeds;
    var mayNew := Request(MAY_UNLINK, c.client, c.dst, c.dstBuf, "");
    var mayOld := Request(MAY_UNLINK, c.client, c.src, c.srcBuf, "");
    var ask := Request(STAT, c.client, c.src, c.srcBuf, "");
    AskedNowhere(db, mayNew);
    var db1 := After(db, mayNew);
    AskedNowhere(db1, mayOld);
    AskedNowhere(After(db1, mayOld), ask);
    p := RenamePrepare(db, c.client, c.src, c.dst, c.srcBuf, c.dstBuf);
  }

  lemma AskedNowhere(db: Db, m: Msg)
    requires m.op in {MAY_UNLINK, STAT} && m.named && m.dev != 0 && m.ino != 0
    requires forall k | k in db.files :: db.files[k].path != m.path && NodeOf(db.files[k]) != Inode(m.dev, m.ino)
    ensures After(db, m).files == db.files && !Succeeds(db, m)
  {
    hide Front, CheckIno;
    assert !HasInode(db.files, m.dev, m.ino) by {
      assert forall k | k in db.files :: NodeOf(db.files[k]) != Inode(m.dev, m.ino);
    }
    FrontOfAgreeing(db, m);
    CheckNothing(Front(db, m));
    assert SetMark(db.files, m.path, m.client) == db.files;
  }

  lemma MovedAlone(db: Db, t: Files, r: Row, m: Msg)
    requires db.files == Insert(t, r) && m.op == RENAME && m.named && r.path == m.extra && r.deleting == 0
    requires RealNode(Inode(m.dev, m.ino)) && NodeOf(r) == Inode(m.dev, m.ino) && SameKind(r.mode, m.mode)
    requires m.extra != "" && m.path != "" && m.extra != m.path && !EndsInSlash(m.extra) && !EndsInSlash(m.path)
    requires !Below(m.extra, m.path) && !Below(m.path, m.extra)
    requires forall k | k in t ::
               && t[k].path != m.extra && t[k].path != m.path && !Below(m.extra, t[k].path) && !Below(m.path, t[k].path)
               && NodeOf(t[k]) != Inode(m.dev, m.ino)
    ensures After(db, m).files == Insert(t, r.(path := m.path))
  {
    hide After, Below, EndsInSlash, MoveRows, Insert;
    AloneAgrees(t, r, m);
    RenameServed(db, m);
    AloneMoves(t, r, m.extra, m.path);
  }

  lemma AloneAgrees(t: Files, r: Row, m: Msg)
    requires m.op == RENAME && m.named && r.path == m.extra && m.path != "" && m.extra != m.path
    requires RealNode(Inode(m.dev, m.ino)) && NodeOf(r) == Inode(m.dev, m.ino) && SameKind(r.mode, m.mode)
    requires !EndsInSlash(m.extra) && !EndsInSlash(m.path) && !Below(m.extra, m.path) && !Below(m.path, m.extra)
    requires m.extra != "" && forall k | k in t ::
               && t[k].path != m.extra && t[k].path != m.path && !Below(m.extra, t[k].path) && !Below(m.path, t[k].path)
               && NodeOf(t[k]) != Inode(m.dev, m.ino)
    ensures var u := Insert(t, r);
            && PlainRename(u, m) && Agrees(u, m) && HasInode(u, m.dev, m.ino)
            && forall k | k in u && NodeOf(u[k]) == Inode(m.dev, m.ino) ::
                 SameKind(u[k].mode, m.mode) && u[k].path == m.extra
  {
    var u := Insert(t, r);
    assert u[FreshId(t)] == r && !Below(m.extra, m.extra);
    assert forall k | k in u :: u[k] == r || (k in t && u[k] == t[k]);
    hide Below, Insert, EndsInSlash;
  }

  lemma AloneMoves(t: Files, r: Row, src: Path, dst: Path)
    requires r.path == src && r.deleting == 0
    requires forall k | k in t :: t[k].path != src && !Below(src, t[k].path)
    ensures MoveRows(Insert(t, r), src, dst) == Insert(t, r.(path := dst))
  {
    hide Below;
    var u := Insert(t, r);
    assert u[FreshId(t)] == r;
    assert Moved(src, src, dst) == dst;
    assert forall k | k in t :: u[k] == t[k];
  }

  // ----- the moved names -----

  lemma RenamedAt(names: map<Path, Inode>, src: Path, dst: Path, p: Path)
    requires p in names && p != dst && !Below(dst, p)
    ensures var q := Moved(p, src, dst);
            && q in RenamedNames(names, src, dst) && Unmoved(q, src, dst) == p
            && RenamedNames(names, src, dst)[q] == names[p]
  {
    MovedBack(p, src, dst);
  }

  lemma RenamedFrom(names: map<Path, Inode>, src: Path, dst: Path, q: Path)
    requires q in RenamedNames(names, src, dst) && forall p | p in names :: !Below(dst, p)
    ensures var p := Unmoved(q, src, dst);
            p in names && p != dst && q == Moved(p, src, dst) && RenamedNames(names, src, dst)[q] == names[p]
  {
    var rest := names - {dst};
    var p :| p in rest && Moved(p, src, dst) == q;
    MovedBack(p, src, dst);
  }

  lemma MovedGood(p: Path, src: Path, dst: Path)
    requires GoodPath(p) && GoodPath(dst)
    ensures GoodPath(Moved(p, src, dst))
  {
    if Below(src, p) {
      var q := Moved(p, src, dst);
      assert q[|q| - 1] == p[|p| - 1];
    }
  }

  // The move renames every name and keeps which files have one.
  lemma SameNamed(f: Ideal, c: Call, n: Inode)
    requires Moving(f, c)
    ensures Named(IdealAfter(f, c).names, n) <==> Named(f.names - {c.dst}, n)
  {
    var g := IdealAfter(f, c);
    if Named(f.names - {c.dst}, n) {
      var p :| p in f.names - {c.dst} && (f.names - {c.dst})[p] == n;
      RenamedAt(f.names, c.src, c.dst, p);
    }
    if Named(g.names, n) {
      var q :| q in g.names && g.names[q] == n;
      RenamedFrom(f.names, c.src, c.dst, q);
      var p := Unmoved(q, c.src, c.dst);
      assert (f.names - {c.dst})[p] == n;
    }
  }

  lemma SameTracked(f: Ideal, c: Call)
    requires Moving(f, c)
    ensures IdealAfter(f, c).meta == HalfWay(f, c).meta
    ensures IdealAfter(f, c).names == RenamedNames(f.names, c.src, c.dst) && IdealAfter(f, c).kinds == f.kinds
    ensures forall n | n in IdealAfter(f, c).meta :: Named(IdealAfter(f, c).names, n)
  {
    hide RenamedNames, Named, WellFormed;
    var g := IdealAfter(f, c);
    var h := HalfWay(f, c);
    var rest := f.names - {c.dst};
    var n := c.srcBuf.value.node;
    var meta := f.meta[n := MetaOr(f, n, HostMeta(c.srcBuf.value))];
    assert Named(rest, n) by { SourceNamed(f, c); }
    assert forall x :: Named(g.names, x) <==> Named(rest, x) by {
      forall x ensures Named(g.names, x) <==> Named(rest, x) { SameNamed(f, c, x); }
    }
    assert g.meta == map x | x in meta && Named(g.names, x) :: meta[x];
    hide IdealAfter, Possible;
    assert g.meta == h.meta;
  }

  lemma SourceNamed(f: Ideal, c: Call)
    requires Moving(f, c)
    ensures Named(f.names - {c.dst}, c.srcBuf.value.node)
  {
    assert (f.names - {c.dst})[c.src] == c.srcBuf.value.node;
  }

  lemma MovedWellFormed(f: Ideal, c: Call)
    requires WellFormed(f) && Moving(f, c)
    ensures WellFormed(IdealAfter(f, c))
  {
    var g := IdealAfter(f, c);
    SameTracked(f, c);
    hide IdealAfter;
    forall q | q in g.names
      ensures GoodPath(q) && RealNode(g.names[q]) && g.names[q] in g.kinds
    {
      RenamedFrom(f.names, c.src, c.dst, q);
      MovedGood(Unmoved(q, c.src, c.dst), c.src, c.dst);
    }
  }

  // g holds the names of h moved from src to dst, with the same metadata.
  ghost predicate MovedIdeal(h: Ideal, g: Ideal, src: Path, dst: Path)
  {
    && g.meta == h.meta
    && (forall p | p in h.names ::
          p != dst && !Below(dst, p) && Moved(p, src, dst) in g.names && g.names[Moved(p, src, dst)] == h.names[p])
    && (forall q | q in g.names :: Unmoved(q, src, dst) in h.names && q == Moved(Unmoved(q, src, dst), src, dst))
  }

  lemma CallMoves(f: Ideal, c: Call)
    requires Moving(f, c)
    ensures MovedIdeal(HalfWay(f, c), IdealAfter(f, c), c.src, c.dst)
  {
    var h := HalfWay(f, c);
    var g := IdealAfter(f, c);
    SameTracked(f, c);
    assert h.names == f.names - {c.dst};
    hide IdealAfter, HalfWay;
    forall p | p in h.names
      ensures Moved(p, c.src, c.dst) in g.names && g.names[Moved(p, c.src, c.dst)] == h.names[p]
    {
      RenamedAt(f.names, c.src, c.dst, p);
    }
    forall q | q in g.names
      ensures Unmoved(q, c.src, c.dst) in h.names && q == Moved(Unmoved(q, c.src, c.dst), c.src, c.dst)
    {
      RenamedFrom(f.names, c.src, c.dst, q);
    }
  }

  lemma MovedMirrors(h: Ideal, g: Ideal, t: Files, src: Path, dst: Path)
    requires Mirrors(h, t) && MovedIdeal(h, g, src, dst)
    ensures Mirrors(g, MoveRows(t, src, dst))
  {
    hide MoveRow, Moved, Below, Unmoved;
    var u := MoveRows(t, src, dst);
    forall k | k in u
      ensures Shows(g, u[k]) && u[k].path == Moved(t[k].path, src, dst) && t[k].path in h.names
    {
      assert Shows(h, t[k]);
      MovedRow(t[k], src, dst);
    }
    hide Shows;
    forall i, j | i in u && j in u && u[i].path == u[j].path
      ensures i == j
    {
      MovedInjective(t[i].path, t[j].path, src, dst);
    }
    forall q | q in g.names && g.names[q] in g.meta
      ensures HasPath(u, q)
    {
      var p := Unmoved(q, src, dst);
      assert HasPath(t, p);
      var k :| k in t && t[k].path == p;
      assert u[k].path == q;
    }
  }

  lemma MovedRow(r: Row, src: Path, dst: Path)
    ensures var m := MoveRow(r, src, dst);
            m.path == Moved(r.path, src, dst) && NodeOf(m) == NodeOf(r) && MetaOf(m) == MetaOf(r)
  {}

  lemma MoveClearsMarks(t: Files, src: Path, dst: Path)
    requires forall k | k in t :: t[k].path == src || t[k].deleting == 0
    ensures NoMarks(MoveRows(t, src, dst))
  {}

  lemma InsertLeavesMarks(t: Files, r: Row, src: Path)
    requires r.deleting == 0 && forall k | k in t :: t[k].path == src || t[k].deleting == 0
    ensures var u := Insert(t, r); forall k | k in u :: u[k].path == src || u[k].deleting == 0
  {}

  lemma EnteredMarks(f: Ideal, db: Db, c: Call)
    requires Refines(f, db) && Moving(f, c)
    ensures var t := Entered(db, c).files; forall k | k in t :: t[k].path == c.src || t[k].deleting == 0
  {
    EnteredEffect(f, db, c);
    MarksLeft(db.files, c);
    hide Entered, Mirrors, WellFormed, HalfWay, Moving, DeletePath, MarkBoth, Insert;
    InsertLeavesMarks(DeletePath(MarkBoth(db.files, c), c.dst),
        RowOf(Request(LINK, c.client, c.src, c.srcBuf, "")), c.src);
  }

  lemma MarksLeft(t: Files, c: Call)
    requires NoMarks(t) && c.Rename?
    ensures var u := DeletePath(MarkBoth(t, c), c.dst); forall k | k in u :: u[k].path == c.src || u[k].deleting == 0
  {}

  lemma RenameRefines(f: Ideal, db: Db, c: Call)
    requires Refines(f, db) && Moving(f, c)
    ensures Refines(IdealAfter(f, c), DbAfter(db, c))
  {
    var m := Request(RENAME, c.client, c.dst, c.srcBuf, c.src);
    var db3 := Entered(db, c);
    hide After, Entered, WellFormed, Mirrors, IdealAfter, HalfWay, DbAfter;
    EnteredEffect(f, db, c);
    PlainMove(f, db3.files, c);
    RenameAgrees(f, db3.files, c, m);
    RenameServed(db3, m);
    ScriptEnters(f, db, c);
    MovedWellFormed(f, c);
    CallMoves(f, c);
    MovedMirrors(HalfWay(f, c), IdealAfter(f, c), db3.files, c.src, c.dst);
    EnteredMarks(f, db, c);
    MoveClearsMarks(db3.files, c.src, c.dst);
  }

  // ----- every call, and every run -----

  lemma StepRefines(f: Ideal, db: Db, c: Call)
    requires Refines(f, db) && Possible(f, c)
    ensures Refines(IdealAfter(f, c), DbAfter(db, c))
  {
    hide Refines, WellFormed, Mirrors;
    match c
    case Create(_, _, _, _, _, _, _) => CreateRefines(f, db, c);
    case Chmod(_, _, _, _, _, _) => ChmodRefines(f, db, c);
    case Chown(_, _, _, _, _) => ChownRefines(f, db, c);
    case HardLink(_, _, _, _) => HardLinkRefines(f, db, c);
    case Remove(client, path, buf, ok) => RemoveRefines(f, db, client, path, buf, ok);
    case Rename(_, _, _, _, _, _) =>
      if !SameFile(c.srcBuf, c.dstBuf) {
        if c.ok { RenameRefines(f, db, c); } else { FailedRenameRefines(f, db, c); }
      }
  }

  // The ideal file system and the database after a sequence of calls.
  function IdealRun(f: Ideal, calls: seq<Call>): Ideal
  {
    if calls == [] then f else IdealAfter(IdealRun(f, calls[..|calls| - 1]), calls[|calls| - 1])
  }

  function DbRun(db: Db, calls: seq<Call>): Db
  {
    if calls == [] then db else DbAfter(DbRun(db, calls[..|calls| - 1]), calls[|calls| - 1])
  }

  ghost predicate PossibleRun(f: Ideal, calls: seq<Call>)
  {
    forall i | 0 <= i < |calls| :: Possible(IdealRun(f, calls[..i]), calls[i])
  }

  // Whatever calls are made, the table keeps showing what a root file system would hold.
  lemma {:induction false} RunRefines(f: Ideal, db: Db, calls: seq<Call>)
    requires Refines(f, db) && PossibleRun(f, calls)
    ensures Refines(IdealRun(f, calls), DbRun(db, calls))
  {
    hide Refines, Possible, IdealAfter, DbAfter;
    if calls != [] {
      var n := |calls| - 1;
      assert forall i | 0 <= i < n :: calls[..n][..i] == calls[..i];
      assert PossibleRun(f, calls[..n]);
      RunRefines(f, db, calls[..n]);
      assert Possible(IdealRun(f, calls[..n]), calls[n]);
      StepRefines(IdealRun(f, calls[..n]), DbRun(db, calls[..n]), calls[n]);
    }
  }

  // The virtual root: starting from an untracked host file system and an empty database,
  // after any run of calls a stat of any name answers with root's metadata when the file is
  // tracked, and leaves the host's answer alone when it is not.
  lemma VirtualRootHolds(names: map<Path, Inode>, kinds: map<Inode, Mode>, calls: seq<Call>,
                         client: int, path: Path, buf: StatBuf)
    requires forall p | p in names :: GoodPath(p) && RealNode(names[p]) && names[p] in kinds
    requires var f := Ideal(names, kinds, map[]); PossibleRun(f, calls) && HostStat(IdealRun(f, calls), path, buf)
    ensures var f := IdealRun(Ideal(names, kinds, map[]), calls);
            var db := DbRun(Db(map[], map[]), calls);
            var m := Request(STAT, client, path, Some(buf), "");
            && After(db, m) == db
            && (Succeeds(db, m) <==> buf.node in f.meta)
            && (buf.node in f.meta ==> HostMeta(StatFrom(buf, Reply(db, m))) == f.meta[buf.node])
  {
    var f := Ideal(names, kinds, map[]);
    var db := Db(map[], map[]);
    assert Refines(f, db);
    RunRefines(f, db, calls);
    StatShowsIdeal(IdealRun(f, calls), DbRun(db, calls), client, path, buf);
  }
}
