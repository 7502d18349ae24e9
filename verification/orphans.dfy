// Attributes without a row: which requests make them, and what becomes of them when the inode
// number is used again.

module Orphans {
  import opened PathText
  import opened FileTable
  import opened ServerOp
  import opened OpFacts
  import opened Agreeing
  import opened Attributes
  import opened Resending

  // An attribute is stored for an inode that has no row once the checks are done: the server
  // does not ask for one.
  ghost predicate LeavesOrphan(t: Files, m: Msg)
  {
    && m.op in {SET_XATTR, CREATE_XATTR} && !Blocked(t, m)
    && (!HasInode(t, m.dev, m.ino) || Foreign(t, m))
  }

  lemma LinkKeepsNoOrphans(db: Db, m: Msg, w: Work)
    requires Clean(db, m, w) && NoOrphans(db) && Settled(db, m) && m.op in {LINK, SYMLINK}
    ensures NoOrphans(Finish(w).db)
  {
    FinishLink(w);
    if m.named {
      LinkEffect(db, m, w);
      hide Finish, Link;
      var r := LinkedRow(w);
      var g := DeletePath(db.files, m.path);
      var d := Relink(db, m, r);
      assert d.files == g[FreshId(g) := r];
      forall a | a in d.attrs
        ensures HasInode(d.files, a.dev, a.ino)
      {
        var j :| j in db.files && db.files[j].dev == a.dev && db.files[j].ino == a.ino;
        if j in g { assert d.files[j] == db.files[j]; } else { assert d.files[FreshId(g)] == r; }
      }
    } else {
      UnnamedLink(w);
      SameInodesNoOrphans(db, Link(w).db);
    }
  }

  lemma UnnamedLink(w: Work)
    requires !w.foundPath
    ensures Link(w).db.attrs == w.db.attrs
    ensures forall k | k in w.db.files :: k in Link(w).db.files && Link(w).db.files[k] == w.db.files[k]
  {}

  lemma MakeKeepsNoOrphans(db: Db, m: Msg, w: Work)
    requires Clean(db, m, w) && NoOrphans(db) && Settled(db, m) && m.op in {CREAT, MKDIR, MKNOD}
    ensures NoOrphans(Finish(w).db)
  {
    MadeIs(db, m, w);
    hide Finish;
    if Made(db, m) != db {
      var g := DeleteInode(if m.named then DeletePath(db.files, m.path) else db.files, m.dev, m.ino);
      var d := Remake(db, m);
      assert d.files == g[FreshId(g) := RowOf(m)];
      forall a | a in d.attrs
        ensures HasInode(d.files, a.dev, a.ino)
      {
        var j :| j in db.files && db.files[j].dev == a.dev && db.files[j].ino == a.ino;
        assert j in g && d.files[j] == db.files[j];
      }
    }
  }

  lemma ChangeKeepsNoOrphans(db: Db, m: Msg, w: Work)
    requires Clean(db, m, w) && NoOrphans(db) && Settled(db, m) && Changing(m.op)
    ensures NoOrphans(Finish(w).db)
  {
    var n := ChangeEffect(db, m, w);
    hide Finish, Changed;
    SameInodesNoOrphans(db, Finish(w).db);
  }

  lemma RenameKeepsNoOrphans(db: Db, m: Msg, w: Work)
    requires Clean(db, m, w) && NoOrphans(db) && Agrees(db.files, m) && m.op == RENAME
    ensures NoOrphans(Finish(w).db)
  {
    if m.named {
      RenameKeepsMeta(db.files, m);
      SameInodesNoOrphans(db, Finish(w).db);
    }
  }

  lemma DidUnlinkKeepsNoOrphans(db: Db, m: Msg, mark: int)
    requires NoOrphans(db)
    requires forall k | k in db.files && db.files[k].path == m.path ::
               db.files[k].dev == m.dev && db.files[k].ino == m.ino
    ensures NoOrphans(DidUnlink(db, m, mark))
  {
    var d := DidUnlink(db, m, mark);
    forall a | a in d.attrs
      ensures HasInode(d.files, a.dev, a.ino)
    {
      var j :| j in db.files && db.files[j].dev == a.dev && db.files[j].ino == a.ino;
      assert j in d.files || (a.dev == m.dev && a.ino == m.ino);
    }
  }

  lemma UnlinkKeepsNoOrphans(db: Db, m: Msg, w: Work)
    requires NoOrphans(db) && Clean(db, m, w) && m.op == UNLINK
    ensures NoOrphans(Finish(w).db)
  {
    if m.named { UnlinkLeavesNoOrphans(w); } else { SurvivorsKeepNoOrphans(db, w.msg); }
  }

  lemma OtherDbOrphans(db: Db, m: Msg, marks: bool)
    requires NoOrphans(db) && Agrees(db.files, m) && Other(m.op) && m.op != UNLINK
    requires m.op == DID_UNLINK ==> m.named
    ensures NoOrphans(OtherDb(db, m, marks)) <==>
            !(m.op in {SET_XATTR, CREATE_XATTR} && !HasInode(db.files, m.dev, m.ino))
  {
    if m.op == DID_UNLINK {
      DidUnlinkKeepsNoOrphans(db, m, m.client);
    } else if m.op in {FSTAT, MAY_UNLINK} {
      SameInodesNoOrphans(db, MayUnlink(db, m, m.client));
    } else if m.op == CANCEL_UNLINK {
      var d := db.(files := SetMark(db.files, m.path, 0));
      SameInodesNoOrphans(db, d);
      ClearedStaysClear(d, m.dev, m.ino);
    } else if m.op in {SET_XATTR, CREATE_XATTR} {
      assert AttrOf(m) in OtherDb(db, m, marks).attrs;
    }
  }

  lemma StepOrphans(db: Db, m: Msg, w: Work)
    requires Clean(db, m, w) && Agrees(db.files, m) && NoOrphans(db) && (Settled(db, m) || m.op == DID_UNLINK)
    requires m.op == DID_UNLINK ==> m.named
    ensures NoOrphans(Finish(w).db) <==> !(m.op in {SET_XATTR, CREATE_XATTR} && !HasInode(db.files, m.dev, m.ino))
  {
    hide Finish, NoOrphans, Agrees, OtherDb, HasInode, Settled;
    if m.op in {LINK, SYMLINK} {
      LinkKeepsNoOrphans(db, m, w);
    } else if Creating(m.op) {
      MakeKeepsNoOrphans(db, m, w);
    } else if Changing(m.op) {
      ChangeKeepsNoOrphans(db, m, w);
    } else if m.op == RENAME {
      RenameKeepsNoOrphans(db, m, w);
    } else if m.op == UNLINK {
      UnlinkKeepsNoOrphans(db, m, w);
    } else {
      OtherEffect(db, m, w);
      OtherDbOrphans(db, m, MarksUnlinked(w));
    }
  }

  // A proper request leaves an attribute without a row exactly if it stores one for an inode
  // that has none.
  lemma OrphansExactly(db: Db, m: Msg)
    requires Coherent(db.files) && NoOrphans(db) && Proper(db.files, m)
    requires m.op == DID_UNLINK ==> m.named
    ensures NoOrphans(Process(db, m).db) <==> !LeavesOrphan(db.files, m)
  {
    hide Process, NoOrphans, Blocked, HasInode;
    if Bare(db.files, m) {
      BareChangesNothing(db, m);
    } else {
      RefusedExactly(db, m);
      if Refused(Front(db, m)) {
        RefusedHasInode(db, m);
      } else {
        AcceptedOrphans(db, m);
      }
    }
  }

  lemma AcceptedOrphans(db: Db, m: Msg)
    requires Coherent(db.files) && NoOrphans(db) && Agrees(db.files, m) && !Refused(Front(db, m))
    requires m.op == DID_UNLINK ==> m.named
    ensures NoOrphans(Process(db, m).db) <==>
            !(m.op in {SET_XATTR, CREATE_XATTR} && (!HasInode(db.files, m.dev, m.ino) || Foreign(db.files, m)))
  {
    hide Front, CheckIno, Refused, Finish, NoOrphans, Process, HasInode;
    FirstPass(db, m);
    ProcessedBy(db, m);
    ChecksOfAgreeing(db, m);
    CheckedAttrs(db, m);
    SurvivorsKeepNoOrphans(db, m);
    StepOrphans(CheckIno(Front(db, m)).db, m, CheckIno(Front(db, m)));
  }

  // setxattr on a file the server has never heard of.
  lemma UntrackedFileGetsOrphan()
    ensures var m := Msg(SET_XATTR, 7, NONE, 1, 10, 0, 0, Mode(8, 420), 0, 1, 0, true, "/f", "user.x\0v");
            var db := Db(map[], map[]);
            Proper(db.files, m) && NoOrphans(db) && !NoOrphans(Process(db, m).db)
  {
    var m := Msg(SET_XATTR, 7, NONE, 1, 10, 0, 0, Mode(8, 420), 0, 1, 0, true, "/f", "user.x\0v");
    var db := Db(map[], map[]);
    hide Process, NoOrphans;
    assert NoOrphans(db) by { NothingIsOrphaned(); }
    OrphansExactly(db, m);
  }

  lemma NothingIsOrphaned()
    ensures NoOrphans(Db(map[], map[]))
  {}

  // ----- which attributes a creating request keeps -----

  predicate OfInode(a: AttrKey, m: Msg) { a.dev == m.dev && a.ino == m.ino }

  predicate Kept(db: Db, d: Db, a: AttrKey)
    requires a in db.attrs
  {
    a in d.attrs && d.attrs[a] == db.attrs[a]
  }

  // A link drops the attributes of its inode exactly when its rows are of another kind, or the
  // path has rows and no row of the inode stands at another path.  All other attributes stay.
  lemma LinkKeepsAttrs(db: Db, m: Msg, a: AttrKey)
    requires Coherent(db.files) && Agrees(db.files, m) && m.op in {LINK, SYMLINK} && a in db.attrs
    ensures Kept(db, Process(db, m).db, a) <==>
            !OfInode(a, m)
            || (!Foreign(db.files, m)
                && (PathKnown(db.files, m) ==> HasInode(DeletePath(db.files, m.path), m.dev, m.ino)))
    ensures a in Process(db, m).db.attrs ==> Kept(db, Process(db, m).db, a)
  {
    hide Process, Finish, Front, CheckIno, Link, Refused;
    FrontOfAgreeing(db, m);
    LinkNotRefused(db, m, Front(db, m));
    FirstPass(db, m);
    ProcessedBy(db, m);
    ChecksOfAgreeing(db, m);
    var c := CheckIno(Front(db, m));
    FinishLink(c);
    if c.db != db { DroppedByCheck(db, m, a); }
    NoPathLeft(db, m);
    if m.named {
      LinkEffect(c.db, m, c);
      RelinkAttrs(c.db, m, LinkedRow(c), a);
    } else {
      UnnamedLink(c);
    }
  }

  lemma RelinkAttrs(db: Db, m: Msg, r: Row, a: AttrKey)
    ensures var d := Relink(db, m, r);
            a in d.attrs <==> a in db.attrs && (!OfInode(a, m) || !PathKnown(db.files, m)
                                                || HasInode(DeletePath(db.files, m.path), m.dev, m.ino))
    ensures var d := Relink(db, m, r); a in d.attrs ==> d.attrs[a] == db.attrs[a]
  {}

  lemma DroppedByCheck(db: Db, m: Msg, a: AttrKey)
    ensures var d := UnlinkFileDev(db, m);
            (a in d.attrs <==> a in db.attrs && !OfInode(a, m)) && (a in d.attrs ==> d.attrs[a] == db.attrs[a])
  {
    CheckedAttrs(db, m);
  }

  lemma NoPathLeft(db: Db, m: Msg)
    ensures !PathKnown(db.files, m) ==> !PathKnown(UnlinkFileDev(db, m).files, m)
  {
    UnlinkDevSurvive(db, m);
  }

  // Creating a directory or a node drops the attributes of its inode exactly when the inode has
  // a row and the request is not refused; creating a file also keeps them when its path has
  // rows.  An inode without rows passes its attributes on to the new file.
  lemma MakeKeepsAttrs(db: Db, m: Msg, a: AttrKey)
    requires Coherent(db.files) && Agrees(db.files, m) && m.op in {CREAT, MKDIR, MKNOD} && a in db.attrs
    ensures Kept(db, Process(db, m).db, a) <==>
            !OfInode(a, m) || Blocked(db.files, m) || !HasInode(db.files, m.dev, m.ino)
            || (m.op == CREAT && PathKnown(db.files, m))
    ensures a in Process(db, m).db.attrs ==> Kept(db, Process(db, m).db, a)
  {
    hide Process, Finish, Front, CheckIno, Refused, Blocked;
    RefusedExactly(db, m);
    if Refused(Front(db, m)) {
      RefusedHasInode(db, m);
    } else {
      FrontOfAgreeing(db, m);
      FirstPass(db, m);
      ProcessedBy(db, m);
      ChecksOfAgreeing(db, m);
      var c := CheckIno(Front(db, m));
      MadeIs(c.db, m, c);
      if c.db != db {
        ForeignHasInode(db.files, m);
        NoPathLeft(db, m);
        DroppedByCheck(db, m, a);
      }
      RemakeAttrs(c.db, m, a);
    }
  }

  lemma RemakeAttrs(db: Db, m: Msg, a: AttrKey)
    ensures var d := Remake(db, m);
            (a in d.attrs <==> a in db.attrs && (!OfInode(a, m) || !HasInode(db.files, m.dev, m.ino)))
            && (a in d.attrs ==> d.attrs[a] == db.attrs[a])
  {}

  // A new file inherits the attributes of a removed one that was never tracked and had its inode.
  lemma NewFileInherits()
    ensures var a := AttrKey(1, 10, "user.x");
            var m := Msg(CREAT, 7, NONE, 1, 10, 0, 0, Mode(8, 420), 0, 1, 0, true, "/g", "");
            a in Process(Db(map[], map[a := "v"]), m).db.attrs
  {
    var a := AttrKey(1, 10, "user.x");
    var m := Msg(CREAT, 7, NONE, 1, 10, 0, 0, Mode(8, 420), 0, 1, 0, true, "/g", "");
    hide Process;
    MakeKeepsAttrs(Db(map[], map[a := "v"]), m, a);
  }
}
