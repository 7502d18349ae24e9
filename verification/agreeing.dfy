// Requests that agree with the database, and hard-link coherence: whatever agreeing
// requests arrive, all rows of one inode carry the same metadata.

module Agreeing {
  import opened PathText
  import opened FileTable
  import opened ServerOp
  import opened OpFacts

  // All rows of one inode agree on the metadata the server keeps.
  ghost predicate Coherent(t: Files)
  {
    forall i, j {:trigger SameInode(t[i], t[j])} | i in t && j in t :: SameInode(t[i], t[j]) ==> SameMeta(t[i], t[j])
  }

  predicate Fits(r: Row, m: Msg)
  {
    r.dev == m.dev && r.ino == m.ino && SameKind(r.mode, m.mode)
  }

  // The request agrees with the database: it carries a real inode, the rows at the path
  // (for a rename, at both paths) are that inode and of its kind, and a new symlink does not
  // reuse an inode another path holds.
  ghost predicate Agrees(t: Files, m: Msg)
  {
    && m.dev != 0 && m.ino != 0
    && (m.named ==> forall k | k in t && t[k].path == m.path :: Fits(t[k], m))
    && (m.named && m.op == RENAME ==> m.path != "" && forall k | k in t && t[k].path == m.extra :: Fits(t[k], m))
    && (m.op == SYMLINK ==>
          forall k | k in t && t[k].dev == m.dev && t[k].ino == m.ino :: m.named && t[k].path == m.path)
  }

  // A request sent without a stat buffer: about a path the host does not have, or a program or
  // file that was opened.  What rows its path has are of the kind a zero mode stands for, and
  // a mark is asked for only where there is no row.
  ghost predicate Bare(t: Files, m: Msg)
  {
    && m.dev == 0 && m.ino == 0 && m.op in {EXEC, OPEN, STAT, MAY_UNLINK}
    && forall k | k in t && m.named && t[k].path == m.path ::
         m.op != MAY_UNLINK && SameKind(t[k].mode, m.mode) && !HasInode(t, 0, 0)
  }

  // What a client may send.
  ghost predicate Proper(t: Files, m: Msg) { Agrees(t, m) || Bare(t, m) }

  predicate PathKnown(t: Files, m: Msg) { m.named && HasPath(t, m.path) }

  // Rows of the request's inode that are of another kind.
  ghost predicate Foreign(t: Files, m: Msg)
  {
    exists k :: k in t && t[k].dev == m.dev && t[k].ino == m.ino && !SameKind(t[k].mode, m.mode)
  }

  // What looking up an agreeing request leaves in the locals: the message untouched, and
  // flags that tell exactly whether the path and the inode have rows.
  ghost predicate Clean(db: Db, m: Msg, w: Work)
  {
    && w.db == db
    && w.header == w.msg == m.(result := SUCCEED)
    && w.foundPath == w.foundExact == PathKnown(db.files, m)
    && w.foundIno == HasInode(db.files, m.dev, m.ino)
    && (w.foundIno ==> exists k :: IsHit(db.files, w, k))
  }

  ghost predicate IsHit(t: Files, w: Work, k: nat)
  {
    && k in t && t[k].dev == w.msg.dev && t[k].ino == w.msg.ino
    && w.byIno == WithMeta(w.msg, t[k])
    && w.pathByIno == t[k].path
    && (w.foundPath ==> t[k].path == w.msg.path && w.byPath == w.byIno && SameKind(t[k].mode, w.msg.mode))
  }

  lemma FrontOfAgreeing(db: Db, m: Msg)
    requires Agrees(db.files, m)
    ensures Clean(db, m, Front(db, m))
  {
    var w := Lookup(db, m);
    var e := if m.named then ByPathAndInode(db.files, m.path, m.dev, m.ino) else None;
    if e.Some? {
      assert IsHit(db.files, w, e.value);
    } else {
      assert !PathKnown(db.files, m);
      if w.foundIno {
        assert IsHit(db.files, w, ByInode(db.files, m.dev, m.ino).value);
      }
    }
    assert CheckPath(w) == w;
  }

  // A bare request finds at most its path, is never refused, and leaves the database alone.
  lemma FrontOfBare(db: Db, m: Msg)
    requires Bare(db.files, m)
    ensures var w := Front(db, m);
            && w.db == db && w.foundPath == PathKnown(db.files, m) && !w.foundIno && !Refused(w)
            && w.header == m.(result := SUCCEED)
  {
    var w := Lookup(db, m);
    if w.foundPath {
      assert ByInode(db.files, 0, 0).None?;
      assert SameKind(w.byPath.mode, w.header.mode);
    }
    assert CheckPath(w) == w;
  }

  lemma BareChangesNothing(db: Db, m: Msg)
    requires Bare(db.files, m)
    ensures Process(db, m).db == db && Process(db, m).msg.result != ABORT
  {
    hide Lookup, CheckPath;
    FrontOfBare(db, m);
    FrontFollows(db, m);
    var w := Front(db, m);
    hide Front;
    if m.op == MAY_UNLINK && m.named { assert SetMark(db.files, m.path, m.client) == db.files; }
  }

  lemma CheckInoOfAgreeing(db: Db, m: Msg)
    requires Agrees(db.files, m) && !Refused(Front(db, m))
    ensures var c := CheckIno(Front(db, m));
            && Agrees(c.db.files, m) && Clean(c.db, m, c)
            && (c.db == db || c.db == UnlinkFileDev(db, m))
  {
    FrontOfAgreeing(db, m);
    var w := Front(db, m);
    if w.foundIno && m.op != DID_UNLINK && !SameKind(w.byIno.mode, m.mode) {
      var k :| IsHit(db.files, w, k);
      assert !w.foundPath;
      var c := CheckIno(w);
      assert c.db.files == DeleteInode(db.files, m.dev, m.ino);
      assert !HasInode(c.db.files, m.dev, m.ino);
    }
  }

  lemma CreatKeepsCoherence(db: Db, m: Msg, w: Work)
    requires Coherent(db.files) && Agrees(db.files, m) && Clean(db, m, w)
    ensures Coherent(Creat(w).db.files)
    ensures Coherent(Make(w).db.files)
  {
  }

  lemma ChangeKeepsCoherence(db: Db, m: Msg, w: Work)
    requires Coherent(db.files) && Agrees(db.files, m) && Clean(db, m, w)
    ensures Coherent(Chmod(w).db.files)
    ensures Coherent(Chown(w).db.files)
  {
  }

  lemma LinkKeepsCoherence(db: Db, m: Msg, w: Work)
    requires Coherent(db.files) && Agrees(db.files, m) && Clean(db, m, w)
    ensures Coherent(Link(w).db.files)
  {
    if w.foundIno {
      var k :| IsHit(db.files, w, k);
      LikeHit(db.files, k);
    }
  }

  lemma LikeHit(t: Files, k: nat)
    requires Coherent(t) && k in t
    ensures forall j {:trigger t[j]} | j in t && SameInode(t[j], t[k]) :: SameMeta(t[j], t[k])
  {}

  // A subtree row never lands on the new path itself.
  lemma RenamedBelowMissesTarget(p: Path, src: Path, dst: Path)
    requires Below(src, p) && dst != ""
    ensures Replace(p, src, dst) == dst ==> p == dst
  {
    if src != "" {
      ReplaceNonEmpty(p[|src|..], src, dst);
    }
  }

  // Rows may go, or change their path or mark, but keep inode and metadata.
  ghost predicate MetaKept(t: Files, u: Files)
  {
    u.Keys <= t.Keys && forall k | k in u :: SameInode(u[k], t[k]) && SameMeta(u[k], t[k])
  }

  lemma KeptMetaIsCoherent(t: Files, u: Files)
    requires Coherent(t) && MetaKept(t, u)
    ensures Coherent(u)
  {
    forall i, j | i in u && j in u && SameInode(u[i], u[j])
      ensures SameMeta(u[i], u[j])
    {
      assert SameInode(t[i], t[j]);
    }
  }

  // A rename leaves every row on its inode.
  lemma RenameKeepsMeta(t: Files, m: Msg)
    requires Agrees(t, m) && m.named && m.op == RENAME
    ensures var u := SetInode(RenameFiles(t, m.extra, m.path), m.path, m.dev, m.ino);
            u.Keys == t.Keys && MetaKept(t, u)
  {
    var mid := RenameExact(t, m.extra, m.path);
    var u := RenameFiles(t, m.extra, m.path);
    RenameRangeIsSubtree(mid, m.extra, m.path);
    forall k | k in t
      ensures u[k].path == m.path ==> t[k].dev == m.dev && t[k].ino == m.ino
    {
      if Below(m.extra, mid[k].path) { RenamedBelowMissesTarget(mid[k].path, m.extra, m.path); }
    }
  }

  lemma RenameKeepsCoherence(t: Files, m: Msg)
    requires Coherent(t) && Agrees(t, m) && m.named && m.op == RENAME
    ensures Coherent(SetInode(RenameFiles(t, m.extra, m.path), m.path, m.dev, m.ino))
  {
    RenameKeepsMeta(t, m);
    KeptMetaIsCoherent(t, SetInode(RenameFiles(t, m.extra, m.path), m.path, m.dev, m.ino));
  }

  predicate Creating(op: Op) { op in {CREAT, LINK, SYMLINK, MKDIR, MKNOD} }
  predicate Changing(op: Op) { op in {CHMOD, FCHMOD, CHOWN, FCHOWN} }

  lemma PlainOpsKeepMeta(w: Work)
    requires !Creating(w.msg.op) && !Changing(w.msg.op)
    requires w.msg.op == RENAME ==> !w.msg.named
    ensures MetaKept(w.db.files, Dispatch(w).db.files)
  {
  }

  lemma DispatchKeepsCoherence(db: Db, m: Msg, w: Work)
    requires Coherent(db.files) && Agrees(db.files, m) && Clean(db, m, w)
    ensures Coherent(Dispatch(w).db.files)
  {
    match m.op
    case CREAT => CreatKeepsCoherence(db, m, w);
    case MKDIR => CreatKeepsCoherence(db, m, w);
    case MKNOD => CreatKeepsCoherence(db, m, w);
    case LINK => LinkKeepsCoherence(db, m, w);
    case SYMLINK => LinkKeepsCoherence(db, m, w);
    case CHMOD => ChangeKeepsCoherence(db, m, w);
    case FCHMOD => ChangeKeepsCoherence(db, m, w);
    case CHOWN => ChangeKeepsCoherence(db, m, w);
    case FCHOWN => ChangeKeepsCoherence(db, m, w);
    case _ =>
      if m.op == RENAME && m.named {
        RenameKeepsCoherence(db.files, m);
      } else {
        PlainOpsKeepMeta(w);
        KeptMetaIsCoherent(db.files, Dispatch(w).db.files);
      }
  }

  // A proper request keeps hard links coherent.
  lemma OpKeepsCoherence(db: Db, m: Msg)
    requires Coherent(db.files) && Proper(db.files, m)
    ensures Coherent(Process(db, m).db.files)
  {
    if Bare(db.files, m) {
      hide Process;
      BareChangesNothing(db, m);
    } else {
      AgreeingKeepsCoherence(db, m);
    }
  }

  lemma AgreeingKeepsCoherence(db: Db, m: Msg)
    requires Coherent(db.files) && Agrees(db.files, m)
    ensures Coherent(Process(db, m).db.files)
  {
    FrontOfAgreeing(db, m);
    var w := Front(db, m);
    if !Refused(w) {
      CheckInoOfAgreeing(db, m);
      var c := CheckIno(w);
      DispatchKeepsCoherence(c.db, m, c);
      FinishKeepsCoherence(c);
    }
  }

  lemma FinishKeepsCoherence(w: Work)
    requires Coherent(Dispatch(w).db.files)
    ensures Coherent(Finish(w).db.files)
  {
    assert MetaKept(Dispatch(w).db.files, Finish(w).db.files);
    KeptMetaIsCoherent(Dispatch(w).db.files, Finish(w).db.files);
  }

  // Each request is proper for the database it meets.
  ghost predicate RunProper(db: Db, msgs: seq<Msg>)
  {
    forall i | 0 <= i < |msgs| :: Proper(Run(db, msgs[..i]).files, msgs[i])
  }

  // Every table reachable by proper requests is coherent.
  lemma {:induction false} RunKeepsCoherence(db: Db, msgs: seq<Msg>)
    requires Coherent(db.files) && RunProper(db, msgs)
    ensures Coherent(Run(db, msgs).files)
  {
    hide Process, Proper;
    if msgs != [] {
      var n := |msgs| - 1;
      assert forall i | 0 <= i < n :: msgs[..n][..i] == msgs[..i];
      RunKeepsCoherence(db, msgs[..n]);
      OpKeepsCoherence(Run(db, msgs[..n]), msgs[n]);
    }
  }
}
