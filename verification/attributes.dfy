// Extended attributes belong to inodes: they go with the last row of their inode, and not
// before.

module Attributes {
  import opened PathText
  import opened FileTable
  import opened ServerOp
  import opened OpFacts

  // Every attribute belongs to an inode with a row.
  ghost predicate NoOrphans(db: Db)
  {
    forall k | k in db.attrs :: HasInode(db.files, k.dev, k.ino)
  }

  function DropAttrs(a: Attrs, dev: int, ino: int): Attrs
  {
    map k | k in a && !(k.dev == dev && k.ino == ino) :: a[k]
  }

  lemma SameInodesNoOrphans(db: Db, d: Db)
    requires NoOrphans(db) && d.attrs == db.attrs
    requires forall k | k in db.files :: k in d.files && SameInode(d.files[k], db.files[k])
    ensures NoOrphans(d)
  {
    forall k | k in d.attrs
      ensures HasInode(d.files, k.dev, k.ino)
    {
      var j :| j in db.files && db.files[j].dev == k.dev && db.files[j].ino == k.ino;
      assert d.files[j].dev == k.dev && d.files[j].ino == k.ino;
    }
  }

  lemma ClearedStaysClear(db: Db, dev: int, ino: int)
    requires NoOrphans(db)
    ensures ClearAttrs(db, dev, ino) == db && ClearUnusedAttrs(db) == db
  {
    assert DropAttrs(db.attrs, dev, ino) == db.attrs || HasInode(db.files, dev, ino);
  }

  lemma UnlinkLeavesNoOrphans(w: Work)
    requires w.msg.named && w.msg.op == UNLINK
    ensures NoOrphans(Unlink(w).db)
  {
    var db1 := UnlinkContents(UnlinkFile(w.db, w.msg), w.msg);
    assert NoOrphans(db1);
    var db2 := UnlinkFileDev(db1, w.msg);
    assert !HasInode(DeleteInode(db1.files, w.msg.dev, w.msg.ino), w.msg.dev, w.msg.ino);
    forall k | k in db2.attrs
      ensures HasInode(db2.files, k.dev, k.ino)
    {
      var j :| j in db1.files && db1.files[j].dev == k.dev && db1.files[j].ino == k.ino;
      assert j in db2.files;
    }
  }

  lemma SurvivorsKeepNoOrphans(db: Db, m: Msg)
    requires NoOrphans(db)
    ensures NoOrphans(UnlinkFileDev(db, m))
  {
    var d := UnlinkFileDev(db, m);
    assert !HasInode(DeleteInode(db.files, m.dev, m.ino), m.dev, m.ino);
    forall k | k in d.attrs
      ensures HasInode(d.files, k.dev, k.ino)
    {
      var j :| j in db.files && db.files[j].dev == k.dev && db.files[j].ino == k.ino;
      assert j in d.files;
    }
  }

  // ----- attributes outlive every row but the last -----

  ghost predicate Shrinks(t: Files, u: Files)
  {
    u.Keys <= t.Keys && forall k | k in u :: SameInode(u[k], t[k])
  }

  // No attribute of b is lost in c whose inode has a row in t, and none is gained.
  ghost predicate KeepsAttrs(b: Attrs, c: Attrs, t: Files)
  {
    && c.Keys <= b.Keys
    && forall a | a in b && (a !in c || c[a] != b[a]) :: !HasInode(t, a.dev, a.ino)
  }

  // d is db with rows taken away or repathed, and with no attribute lost whose inode still
  // has a row.
  ghost predicate Prunes(db: Db, d: Db)
  {
    Shrinks(db.files, d.files) && KeepsAttrs(db.attrs, d.attrs, d.files)
  }

  lemma ShrunkInode(t: Files, u: Files, dev: int, ino: int)
    requires Shrinks(t, u) && HasInode(u, dev, ino)
    ensures HasInode(t, dev, ino)
  {
    var j :| j in u && u[j].dev == dev && u[j].ino == ino;
    assert t[j].dev == dev && t[j].ino == ino;
  }

  lemma PrunesTwice(a: Db, b: Db, c: Db)
    requires Prunes(a, b) && Prunes(b, c)
    ensures Prunes(a, c)
  {
    forall k | k in a.attrs && (k !in c.attrs || c.attrs[k] != a.attrs[k])
      ensures !HasInode(c.files, k.dev, k.ino)
    {
      if HasInode(c.files, k.dev, k.ino) { ShrunkInode(b.files, c.files, k.dev, k.ino); }
    }
  }

  lemma ClearingPrunes(db: Db, u: Files, dev: int, ino: int)
    requires Shrinks(db.files, u)
    ensures Prunes(db, db.(files := u))
    ensures Prunes(db, ClearAttrs(db.(files := u), dev, ino))
    ensures Prunes(db, ClearUnusedAttrs(db.(files := u)))
  {}

  // Every pdb_* call that deletes or marks rows prunes.
  lemma DeletingPrunes(db: Db, m: Msg, mark: int)
    ensures Prunes(db, UnlinkFileDev(db, m))
    ensures Prunes(db, UnlinkFile(db, m))
    ensures Prunes(db, UnlinkContents(db, m))
    ensures Prunes(db, MayUnlink(db, m, mark))
    ensures Prunes(db, CancelUnlink(db, m))
    ensures Prunes(db, DidUnlink(db, m, mark))
    ensures Prunes(db, DidUnlinkClash(db, m.path, mark))
  {
    ClearingPrunes(db, db.files, m.dev, m.ino);
    ClearingPrunes(db, DeleteInode(db.files, m.dev, m.ino), m.dev, m.ino);
    ClearingPrunes(db, DeletePath(db.files, m.path), m.dev, m.ino);
    ClearingPrunes(db, DeleteRange(db.files, m.path), m.dev, m.ino);
    ClearingPrunes(db, SetMark(db.files, m.path, mark), m.dev, m.ino);
    ClearingPrunes(db, SetMark(db.files, m.path, 0), m.dev, m.ino);
    ClearingPrunes(db, DeletePathMarked(db.files, m.path, mark), m.dev, m.ino);
  }

  // The database just before a request's insertion, if it makes one.
  function BeforeInsert(w: Work): Db
  {
    match w.msg.op
    case CREAT => if w.foundIno && !w.foundExact then UnlinkFileDev(w.db, w.byIno) else w.db
    case LINK => if w.foundPath then UnlinkFile(w.db, w.msg) else w.db
    case SYMLINK => if w.foundPath then UnlinkFile(w.db, w.msg) else w.db
    case MKDIR => BeforeMake(w)
    case MKNOD => BeforeMake(w)
    case MAY_UNLINK => Dispatch(w).db
    case DID_UNLINK => Dispatch(w).db
    case CANCEL_UNLINK => Dispatch(w).db
    case UNLINK => Dispatch(w).db
    case _ => w.db
  }

  function BeforeMake(w: Work): Db
  {
    var db1 := if w.foundPath then UnlinkFile(w.db, w.msg) else w.db;
    if w.foundIno then UnlinkFileDev(db1, w.byIno) else db1
  }

  lemma BeforeInsertPrunes(w: Work)
    ensures Prunes(w.db, BeforeInsert(w))
  {
    DeletingPrunes(w.db, w.msg, w.msg.client);
    match w.msg.op
    case CREAT => DeletingPrunes(w.db, w.byIno, 0);
    case MKDIR => BeforeMakePrunes(w);
    case MKNOD => BeforeMakePrunes(w);
    case UNLINK => UnlinkPrunes(w);
    case _ =>
  }

  lemma BeforeMakePrunes(w: Work)
    ensures Prunes(w.db, BeforeMake(w))
  {
    var db1 := if w.foundPath then UnlinkFile(w.db, w.msg) else w.db;
    assert Prunes(w.db, db1) by { DeletingPrunes(w.db, w.msg, 0); }
    assert Prunes(db1, UnlinkFileDev(db1, w.byIno)) by { DeletingPrunes(db1, w.byIno, 0); }
    PrunesTwice(w.db, db1, UnlinkFileDev(db1, w.byIno));
  }

  lemma UnlinkPrunes(w: Work)
    ensures Prunes(w.db, Unlink(w).db)
  {
    var db0 := UnlinkFile(w.db, w.msg);
    var db1 := UnlinkContents(db0, w.msg);
    var db2 := UnlinkFileDev(db1, w.msg);
    assert Prunes(w.db, db0) by { DeletingPrunes(w.db, w.msg, 0); }
    assert Prunes(db0, db1) by { DeletingPrunes(db0, w.msg, 0); }
    assert Prunes(db1, db2) by { DeletingPrunes(db1, w.msg, 0); }
    PrunesTwice(w.db, db0, db1);
    PrunesTwice(w.db, db1, db2);
  }

  predicate WritesAttrs(op: Op) { op in {CREATE_XATTR, REPLACE_XATTR, SET_XATTR, REMOVE_XATTR} }

  // From the point before the insertion on, attributes stay put and rows keep their inode,
  // except that a rename rewrites the inode of the rows it moved.
  lemma AfterInsert(w: Work)
    requires !WritesAttrs(w.msg.op)
    ensures var f := Finish(w); var d := BeforeInsert(w);
            && f.db.attrs == d.attrs
            && (forall k | k in f.db.files :: k in d.files || f.inserted == Some(k))
            && (w.msg.op != RENAME ==> forall k | k in f.db.files && f.inserted != Some(k) ::
               SameInode(f.db.files[k], d.files[k]))
  {
    match w.msg.op
    case CREAT =>
    case LINK =>
    case SYMLINK =>
    case MKDIR =>
    case MKNOD =>
    case RENAME =>
    case CHMOD =>
    case FCHMOD =>
    case CHOWN =>
    case FCHOWN =>
    case _ =>
  }

  lemma CheckPathPrunes(w: Work)
    ensures Prunes(w.db, CheckPath(w).db)
  {
    var db1 := DidUnlinkClash(w.db, w.msg.path, w.byPath.deleting);
    assert Prunes(w.db, db1) && Prunes(w.db, UnlinkFile(w.db, w.msg)) && Prunes(w.db, w.db) by {
      DeletingPrunes(w.db, w.msg, w.byPath.deleting);
      ClearingPrunes(w.db, w.db.files, 0, 0);
    }
    assert Prunes(db1, UnlinkFile(db1, w.msg)) by { DeletingPrunes(db1, w.msg, 0); }
    PrunesTwice(w.db, db1, UnlinkFile(db1, w.msg));
  }

  lemma CheckInoPrunes(w: Work)
    requires !Refused(w)
    ensures Prunes(w.db, CheckIno(w).db)
  {
    DeletingPrunes(w.db, w.msg, 0);
    ClearingPrunes(w.db, w.db.files, 0, 0);
  }

  // No request loses an attribute of an inode that one of its old rows still names when the
  // request is done: the attribute goes only with the inode's last surviving row.
  lemma AttrsOutliveRows(db: Db, m: Msg, a: AttrKey, k: nat)
    requires a in db.attrs && m.op != RENAME && !WritesAttrs(m.op)
    requires var o := Process(db, m);
             k in o.db.files && o.inserted != Some(k) && o.db.files[k].dev == a.dev && o.db.files[k].ino == a.ino
    ensures a in Process(db, m).db.attrs && Process(db, m).db.attrs[a] == db.attrs[a]
  {
    hide Lookup, CheckPath, CheckIno, Refused, Dispatch, BeforeInsert, Finish;
    var w := Front(db, m);
    LookupFollows(db, m);
    FrontFollows(db, m);
    assert Prunes(db, w.db) by { CheckPathPrunes(Lookup(db, m)); }
    if Refused(w) {
      assert HasInode(w.db.files, a.dev, a.ino);
    } else {
      var c := CheckIno(w);
      var d := BeforeInsert(c);
      assert Prunes(db, d) by {
        CheckInoPrunes(w);
        PrunesTwice(db, w.db, c.db);
        BeforeInsertPrunes(c);
        PrunesTwice(db, c.db, d);
      }
      AfterInsert(c);
      assert d.files[k].dev == a.dev && d.files[k].ino == a.ino;
      assert HasInode(d.files, a.dev, a.ino);
    }
  }

  // After an unlink that is not blocked, every attribute has a row for its inode.
  lemma UnlinkCollectsAttrs(db: Db, m: Msg)
    requires m.op == UNLINK && m.named
    ensures !Blocked(db.files, m) ==> NoOrphans(Process(db, m).db)
  {
    hide Process, NoOrphans, Blocked;
    RefusedExactly(db, m);
    if !Refused(Front(db, m)) { AcceptedUnlinkCollects(db, m); }
  }

  lemma AcceptedUnlinkCollects(db: Db, m: Msg)
    requires m.op == UNLINK && m.named && !Refused(Front(db, m))
    ensures NoOrphans(Process(db, m).db)
  {
    hide Lookup, CheckPath, CheckIno, Refused, Unlink;
    FrontFollows(db, m);
    UnlinkLeavesNoOrphans(CheckIno(Front(db, m)));
  }

  // Resending a link can still cost attributes: the second pass deletes the only row, and the
  // attributes with it, before it puts the row back.
  lemma RelinkDropsAttrs()
    ensures var m := Msg(LINK, 7, NONE, 1, 2, 0, 0, Mode(8, 420), 0, 1, 0, true, "/f", "");
            var a := AttrKey(1, 2, "user.x");
            var db := Db(map[1 := RowOf(m)], map[a := "v"]);
            Process(db, m).db.files == db.files && a !in Process(db, m).db.attrs
  {
    var m := Msg(LINK, 7, NONE, 1, 2, 0, 0, Mode(8, 420), 0, 1, 0, true, "/f", "");
    var a := AttrKey(1, 2, "user.x");
    var t := map[1 := RowOf(m)];
    var db := Db(t, map[a := "v"]);
    assert t[1].path == "/f";
    var w := Lookup(db, m);
    assert w.foundExact && ByPathAndInode(t, "/f", 1, 2) == Some(1);
    var empty: Files := DeletePath(t, "/f");
    assert empty == map[];
    assert !HasInode(empty, 1, 2);
    assert FreshId(empty) == 1;
    assert !Refused(w);
  }
}
