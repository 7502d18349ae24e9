// At-least-once delivery.  The client resends a request whose answer it did not get; a second
// pass leaves the table of files as the first one did, and the attributes too but in one case.

module Resending {
  import opened PathText
  import opened FileTable
  import opened ServerOp
  import opened OpFacts
  import opened Agreeing
  import opened Attributes

  // The request agrees, and every row of its inode is of its kind.
  ghost predicate Settled(db: Db, m: Msg)
  {
    Coherent(db.files) && Fitting(db.files, m)
  }

  ghost predicate Fitting(t: Files, m: Msg)
  {
    Agrees(t, m) && forall k | k in t && t[k].dev == m.dev && t[k].ino == m.ino :: Fits(t[k], m)
  }

  // Renames the client can have seen succeed: the row exists, neither path is inside the
  // other, nothing is left at or below the new name, and replace() is a prefix swap.
  ghost predicate PlainRename(t: Files, m: Msg)
  {
    && m.extra != "" && m.path != "" && m.extra != m.path
    && !EndsInSlash(m.extra) && !EndsInSlash(m.path)
    && !Below(m.extra, m.path) && !Below(m.path, m.extra)
    && (exists k :: k in t && t[k].path == m.extra)
    && (forall k | k in t :: t[k].path != m.path && !Below(m.path, t[k].path))
    && PlainBelow(t, m.extra)
  }

  lemma SecondFront(db: Db, m: Msg)
    requires Agrees(db.files, m) && (m.op == DID_UNLINK || Fitting(db.files, m))
    ensures var w := Front(db, m);
            && Clean(db, m, w)
            && Process(db, m).db == (if Refused(w) then db else Finish(w).db)
            && (Refused(w) ==> Process(db, m).msg.result == ABORT)
  {
    FrontOfAgreeing(db, m);
  }

  // Linking, seen whole: the path's rows go, one row comes, and if the path had rows, the
  // inode's attributes go with its last other row.
  function Relink(db: Db, m: Msg, r: Row): Db
  {
    var g := DeletePath(db.files, m.path);
    Db(Insert(g, r),
       if PathKnown(db.files, m) && !HasInode(g, m.dev, m.ino) then DropAttrs(db.attrs, m.dev, m.ino) else db.attrs)
  }

  function LinkedRow(w: Work): Row
  {
    RowOf(if w.foundIno && w.msg.op == LINK then w.byIno else w.header)
  }

  lemma LinkEffect(db: Db, m: Msg, w: Work)
    requires Settled(db, m) && Clean(db, m, w) && m.named && m.op in {LINK, SYMLINK}
    ensures Link(w).db == Relink(db, m, LinkedRow(w))
    ensures Fits(LinkedRow(w), m) && LinkedRow(w).path == m.path && LinkedRow(w).deleting == 0
  {
    var g := DeletePath(db.files, m.path);
    if w.foundIno { var k :| IsHit(db.files, w, k); }
    if !w.foundPath { assert g == db.files; }
  }

  // Linking the same row again puts it back; the attributes go if no other row holds them.
  lemma RelinkTwice(db: Db, m: Msg, r: Row)
    requires m.named && r.path == m.path
    ensures var d := Relink(db, m, r);
            Relink(d, m, r) == if HasInode(DeletePath(db.files, m.path), m.dev, m.ino) then d
                               else d.(attrs := DropAttrs(d.attrs, m.dev, m.ino))
  {
    var g := DeletePath(db.files, m.path);
    var d := Relink(db, m, r);
    assert DeletePath(d.files, m.path) == g;
    assert d.files[FreshId(g)] == r;
    assert PathKnown(d.files, m);
  }

  lemma RelinkSettles(db: Db, m: Msg, r: Row)
    requires Settled(db, m) && Fits(r, m) && r.path == m.path && m.op in {LINK, SYMLINK} && m.named
    requires forall k | k in db.files && SameInode(db.files[k], r) && db.files[k].path != m.path ::
             SameMeta(db.files[k], r)
    ensures Settled(Relink(db, m, r), m) && PathKnown(Relink(db, m, r).files, m)
  {
    var g := DeletePath(db.files, m.path);
    var d := Relink(db, m, r);
    var id := FreshId(g);
    assert d.files == g[id := r];
    assert d.files[id] == r;
    assert Coherent(d.files);
  }

  // On its second pass the request finds exactly the row its first pass inserted.
  lemma RelinkFindsItself(db: Db, m: Msg, w: Work, w2: Work)
    requires Settled(db, m) && Clean(db, m, w) && m.named && m.op in {LINK, SYMLINK}
    requires Clean(Relink(db, m, LinkedRow(w)), m, w2)
    ensures LinkedRow(w2) == LinkedRow(w)
  {
    LinkEffect(db, m, w);
    var r := LinkedRow(w);
    var d := Relink(db, m, r);
    var id := FreshId(DeletePath(db.files, m.path));
    assert d.files[id] == r && PathKnown(d.files, m);
    var k :| IsHit(d.files, w2, k);
    assert d.files[k] == r;
    if w.foundIno { var j :| IsHit(db.files, w, j); }
  }

  lemma LinkSettles(db: Db, m: Msg, w: Work)
    requires Settled(db, m) && Clean(db, m, w) && m.named && m.op in {LINK, SYMLINK}
    ensures var d := Relink(db, m, LinkedRow(w)); Settled(d, m) && PathKnown(d.files, m)
  {
    var r := LinkedRow(w);
    assert Fits(r, m) && r.path == m.path by { LinkEffect(db, m, w); }
    assert forall k | k in db.files && SameInode(db.files[k], r) && db.files[k].path != m.path ::
        SameMeta(db.files[k], r) by {
      if w.foundIno { var k :| IsHit(db.files, w, k); LikeHit(db.files, k); }
    }
    RelinkSettles(db, m, r);
  }

  lemma LinkTwice(db: Db, m: Msg, w: Work, d: Db, w2: Work)
    requires Settled(db, m) && Clean(db, m, w) && m.named && m.op in {LINK, SYMLINK}
    requires d == Link(w).db && Clean(d, m, w2)
    ensures Settled(d, m) && PathKnown(d.files, m)
    ensures Link(w2).db == if HasInode(DeletePath(db.files, m.path), m.dev, m.ino) then d
                           else d.(attrs := DropAttrs(d.attrs, m.dev, m.ino))
  {
    var r := LinkedRow(w);
    assert d == Relink(db, m, r) && r.path == m.path by { LinkEffect(db, m, w); }
    LinkSettles(db, m, w);
    assert LinkedRow(w2) == r by { RelinkFindsItself(db, m, w, w2); }
    assert Link(w2).db == Relink(d, m, r) by { LinkEffect(d, m, w2); }
    RelinkTwice(db, m, r);
  }

  // Creating from scratch, seen whole: every row of the path and of the inode goes, and if there
  // was one, the inode's attributes, and one row comes.
  function Remake(db: Db, m: Msg): Db
  {
    var g := DeleteInode(if m.named then DeletePath(db.files, m.path) else db.files, m.dev, m.ino);
    Db(Insert(g, RowOf(m)), if HasInode(db.files, m.dev, m.ino) then DropAttrs(db.attrs, m.dev, m.ino) else db.attrs)
  }

  lemma MakeEffect(db: Db, m: Msg, w: Work)
    requires Settled(db, m) && Clean(db, m, w)
    ensures Make(w).db == Remake(db, m)
    ensures Creat(w).db == if w.foundPath then db else Remake(db, m)
  {
    var f := if m.named then DeletePath(db.files, m.path) else db.files;
    if w.foundIno { var k :| IsHit(db.files, w, k); }
    if !w.foundPath { assert f == db.files; }
    if !w.foundIno {
      assert DeleteInode(f, m.dev, m.ino) == f;
    } else {
      assert !HasInode(DeleteInode(f, m.dev, m.ino), m.dev, m.ino);
      assert DropAttrs(DropAttrs(db.attrs, m.dev, m.ino), m.dev, m.ino) == DropAttrs(db.attrs, m.dev, m.ino);
    }
  }

  // Creating again replaces the row by itself, and drops what attributes the inode had.
  lemma RemakeTwice(db: Db, m: Msg)
    ensures var d := Remake(db, m); Remake(d, m) == d.(attrs := DropAttrs(d.attrs, m.dev, m.ino))
    ensures HasInode(Remake(db, m).files, m.dev, m.ino)
  {
    var f := if m.named then DeletePath(db.files, m.path) else db.files;
    var g := DeleteInode(f, m.dev, m.ino);
    var d := Insert(g, RowOf(m));
    assert d[FreshId(g)] == RowOf(m);
    assert DeleteInode(if m.named then DeletePath(d, m.path) else d, m.dev, m.ino) == g;
  }

  lemma RemakeSettles(db: Db, m: Msg)
    requires Settled(db, m) && m.op in {CREAT, MKDIR, MKNOD}
    ensures Settled(Remake(db, m), m) && (m.named ==> PathKnown(Remake(db, m).files, m))
  {
    var f := if m.named then DeletePath(db.files, m.path) else db.files;
    var g := DeleteInode(f, m.dev, m.ino);
    var d := Remake(db, m);
    var id := FreshId(g);
    assert d.files == g[id := RowOf(m)];
    assert d.files[id] == RowOf(m);
    assert Coherent(d.files);
  }

  // Changing metadata, seen whole: either every row of the inode gets it, or a new row does.
  lemma UpdateTwice(t: Files, m: Msg)
    requires forall k | k in t && t[k].dev == m.dev && t[k].ino == m.ino ::
               t[k].uid == m.uid && t[k].gid == m.gid && t[k].mode == m.mode && t[k].rdev == m.rdev
    ensures SetMeta(t, m.dev, m.ino, m.uid, m.gid, m.mode, m.rdev) == t
  {}

  function Changed(w: Work): Outcome
  {
    if w.msg.op in {CHMOD, FCHMOD} then Chmod(w) else Chown(w)
  }

  function Marked(db: Db, m: Msg, marked: bool): Db
  {
    if marked then db.(files := SetMark(db.files, m.path, m.client)) else db
  }

  lemma ChangeEffect(db: Db, m: Msg, w: Work) returns (c: Msg)
    requires Settled(db, m) && Clean(db, m, w) && Changing(m.op)
    ensures c.dev == m.dev && c.ino == m.ino && SameKind(c.mode, m.mode)
    ensures m.op in {CHMOD, FCHMOD} ==> c.mode.perm == m.mode.perm
    ensures m.op in {CHOWN, FCHOWN} ==> c.uid == m.uid && c.gid == m.gid
    ensures c.named == m.named && c.path == m.path && c.client == m.client
    ensures w.foundIno ==> Changed(w).db == UpdateFile(db, c)
    ensures !w.foundIno ==> Changed(w).db == LinkFile(db, c)
    ensures Changed(w).msg == c
    ensures Finish(w).db == Marked(Changed(w).db, m, MarksUnlinked(w) && m.named)
  {
    c := Changed(w).msg;
    if w.foundIno { var k :| IsHit(db.files, w, k); }
  }

  ghost predicate AllCarry(t: Files, c: Msg)
  {
    forall k | k in t && t[k].dev == c.dev && t[k].ino == c.ino ::
      t[k].uid == c.uid && t[k].gid == c.gid && t[k].mode == c.mode && t[k].rdev == c.rdev
  }

  lemma UpdateSettles(db: Db, m: Msg, c: Msg)
    requires Settled(db, m) && SameKind(c.mode, m.mode) && c.dev == m.dev && c.ino == m.ino && Changing(m.op)
    ensures Settled(UpdateFile(db, c), m) && AllCarry(UpdateFile(db, c).files, c)
    ensures HasInode(db.files, m.dev, m.ino) ==> HasInode(UpdateFile(db, c).files, m.dev, m.ino)
  {
    var d := UpdateFile(db, c);
    assert AllCarry(d.files, c);
    assert Coherent(d.files);
    if HasInode(db.files, m.dev, m.ino) {
      var k :| k in db.files && db.files[k].dev == m.dev && db.files[k].ino == m.ino;
      assert k in d.files;
    }
  }

  lemma InsertSettles(db: Db, m: Msg, c: Msg)
    requires Settled(db, m) && SameKind(c.mode, m.mode) && c.dev == m.dev && c.ino == m.ino && Changing(m.op)
    requires c.named == m.named && c.path == m.path && !HasInode(db.files, m.dev, m.ino)
    ensures Settled(LinkFile(db, c), m) && AllCarry(LinkFile(db, c).files, c)
    ensures HasInode(LinkFile(db, c).files, m.dev, m.ino)
  {
    var d := LinkFile(db, c);
    var id := FreshId(db.files);
    assert d.files == db.files[id := RowOf(c)];
    assert d.files[id].dev == m.dev;
    assert Coherent(d.files);
  }

  lemma MarkSettles(db: Db, m: Msg, c: Msg, marked: bool)
    requires Settled(db, m) && AllCarry(db.files, c) && HasInode(db.files, m.dev, m.ino)
    ensures var d := Marked(db, m, marked);
            Settled(d, m) && AllCarry(d.files, c) && HasInode(d.files, m.dev, m.ino)
  {
    var d := Marked(db, m, marked);
    assert MetaKept(db.files, d.files);
    KeptMetaIsCoherent(db.files, d.files);
    var k :| k in db.files && db.files[k].dev == m.dev && db.files[k].ino == m.ino;
    assert k in d.files;
  }

  lemma ChangeSettles(db: Db, m: Msg, w: Work)
    requires Settled(db, m) && Clean(db, m, w) && Changing(m.op)
    ensures var d := Finish(w).db;
            Settled(d, m) && AllCarry(d.files, Changed(w).msg) && HasInode(d.files, m.dev, m.ino)
  {
    var c := ChangeEffect(db, m, w);
    var d := Changed(w).db;
    assert Settled(d, m) && AllCarry(d.files, c) && HasInode(d.files, m.dev, m.ino) by {
      if w.foundIno { UpdateSettles(db, m, c); } else { InsertSettles(db, m, c); }
    }
    MarkSettles(d, m, c, MarksUnlinked(w) && m.named);
  }

  lemma ChangeTwice(db: Db, m: Msg, w: Work, w2: Work)
    requires Settled(db, m) && Clean(db, m, w) && Changing(m.op)
    requires Clean(Finish(w).db, m, w2)
    ensures Settled(Finish(w).db, m) && Finish(w2).db == Finish(w).db
  {
    var d := Finish(w).db;
    ChangeSettles(db, m, w);
    var c := ChangeEffect(db, m, w);
    var c2 := ChangeEffect(d, m, w2);
    var k :| IsHit(d.files, w2, k);
    UpdateTwice(d.files, c2);
  }

  predicate Other(op: Op) { !Creating(op) && !Changing(op) && op != RENAME }

  lemma UnlinkKeepsRows(w: Work)
    ensures MetaKept(w.db.files, Unlink(w).db.files)
    ensures forall k | k in Unlink(w).db.files :: Unlink(w).db.files[k] == w.db.files[k]
  {
    hide ClearAttrs, ClearUnusedAttrs;
    var db0 := UnlinkFile(w.db, w.msg);
    ClearsKeepFiles(w.db.(files := DeletePath(w.db.files, w.msg.path)), w.msg.dev, w.msg.ino);
    ClearsKeepFiles(db0.(files := DeleteRange(db0.files, w.msg.path)), w.msg.dev, w.msg.ino);
    UnlinkDevSurvive(UnlinkContents(db0, w.msg), w.msg);
  }

  // Rows may go; what stays keeps its path, inode and kind.
  ghost predicate Thinned(t: Files, u: Files)
  {
    forall k | k in u :: k in t && SameInode(u[k], t[k]) && u[k].path == t[k].path && u[k].mode == t[k].mode
  }

  lemma ThinnedAgrees(t: Files, u: Files, m: Msg)
    requires Agrees(t, m) && Thinned(t, u)
    ensures Agrees(u, m) && (Fitting(t, m) ==> Fitting(u, m))
  {}

  lemma OtherThins(db: Db, m: Msg, w: Work)
    requires Agrees(db.files, m) && Clean(db, m, w) && Other(m.op)
    ensures Thinned(db.files, Finish(w).db.files)
  {
    if m.op == UNLINK {
      UnlinkKeepsRows(w);
    } else {
      OtherEffect(db, m, w);
      hide Finish, ClearAttrs;
      ClearsKeepFiles(db.(files := DeletePathMarked(db.files, m.path, m.client)), m.dev, m.ino);
      ClearsKeepFiles(db.(files := SetMark(db.files, m.path, 0)), m.dev, m.ino);
    }
  }

  lemma OtherKeepsAgrees(db: Db, m: Msg, w: Work)
    requires Agrees(db.files, m) && Clean(db, m, w) && Other(m.op)
    ensures Agrees(Finish(w).db.files, m)
    ensures Fitting(db.files, m) ==> Fitting(Finish(w).db.files, m)
  {
    hide Finish, Agrees, Fitting, Thinned;
    OtherThins(db, m, w);
    ThinnedAgrees(db.files, Finish(w).db.files, m);
  }

  lemma UnlinkTwice(db: Db, m: Msg, w: Work, w2: Work)
    requires Agrees(db.files, m) && Clean(db, m, w) && m.op == UNLINK
    requires Clean(Unlink(w).db, m, w2)
    ensures Unlink(w2).db == Unlink(w).db
  {
    var d := Unlink(w).db;
    UnlinkClears(w);
    UnlinkKeepsRows(w);
    if m.named {
      UnlinkLeavesNoOrphans(w);
      hide Unlink, ClearAttrs, ClearUnusedAttrs;
      assert DeletePath(d.files, m.path) == d.files;
      assert DeleteRange(d.files, m.path) == d.files;
      ClearedStaysClear(d, m.dev, m.ino);
      assert UnlinkContents(UnlinkFile(d, w.msg), w.msg) == d;
    }
    UnlinkStep(w2, d);
  }

  lemma UnlinkStep(w: Work, d: Db)
    requires w.db == d && (w.msg.named ==> UnlinkContents(UnlinkFile(d, w.msg), w.msg) == d)
    requires !(w.header.nlink == 1 && w.foundIno)
    ensures Unlink(w).db == d
  {}

  // What an unlink leaves: nothing at the path or below it, and with one link, nothing of the inode.
  lemma UnlinkClears(w: Work)
    ensures var u := Unlink(w).db.files;
            && (w.msg.named ==> forall k | k in u :: u[k].path != w.msg.path && !InRange(w.msg.path, u[k].path))
            && (w.header.nlink == 1 && w.foundIno ==> !HasInode(u, w.msg.dev, w.msg.ino))
  {
    hide ClearAttrs, ClearUnusedAttrs;
    var db0 := UnlinkFile(w.db, w.msg);
    var db1 := UnlinkContents(db0, w.msg);
    ClearsKeepFiles(w.db.(files := DeletePath(w.db.files, w.msg.path)), w.msg.dev, w.msg.ino);
    ClearsKeepFiles(db0.(files := DeleteRange(db0.files, w.msg.path)), w.msg.dev, w.msg.ino);
    ClearsKeepFiles(db1.(files := DeleteInode(db1.files, w.msg.dev, w.msg.ino)), w.msg.dev, w.msg.ino);
  }

  // What the remaining operations do to the database, by message alone.
  function OtherDb(db: Db, m: Msg, marks: bool): Db
  {
    match m.op
    case FSTAT => if marks then MayUnlink(db, m, m.client) else db
    case MAY_UNLINK => MayUnlink(db, m, m.client)
    case DID_UNLINK => DidUnlink(db, m, m.client)
    case CANCEL_UNLINK => CancelUnlink(db, m)
    case CREATE_XATTR => if AttrOf(m) in db.attrs then db else db.(attrs := db.attrs[AttrOf(m) := AfterNul(m.extra)])
    case REPLACE_XATTR => if AttrOf(m) !in db.attrs then db else db.(attrs := db.attrs[AttrOf(m) := AfterNul(m.extra)])
    case SET_XATTR => db.(attrs := db.attrs[AttrOf(m) := AfterNul(m.extra)])
    case REMOVE_XATTR => ClearAttr(db, AttrKey(m.dev, m.ino, m.extra))
    case _ => db
  }

  lemma OtherEffect(db: Db, m: Msg, w: Work)
    requires Clean(db, m, w) && Other(m.op) && m.op != UNLINK
    ensures Finish(w).db == OtherDb(db, m, MarksUnlinked(w))
  {
    assert AttrOf(w.msg) == AttrOf(m);
  }

  lemma DidUnlinkTwice(db: Db, m: Msg, mark: int)
    ensures DidUnlink(DidUnlink(db, m, mark), m, mark) == DidUnlink(db, m, mark)
  {
    var d := DidUnlink(db, m, mark);
    assert DeletePathMarked(d.files, m.path, mark) == d.files;
    assert !HasInode(d.files, m.dev, m.ino) ==> DropAttrs(d.attrs, m.dev, m.ino) == d.attrs;
  }

  lemma OtherDbTwice(db: Db, m: Msg, marks: bool, marks2: bool)
    requires Other(m.op) && m.op != UNLINK
    requires m.op == FSTAT && m.named && (marks || marks2) ==> forall k | k in db.files :: db.files[k].path != m.path
    ensures OtherDb(OtherDb(db, m, marks), m, marks2) == OtherDb(db, m, marks)
  {
    match m.op
    case FSTAT =>
      if m.named && (marks || marks2) {
        assert SetMark(db.files, m.path, m.client) == db.files;
      }
    case DID_UNLINK => DidUnlinkTwice(db, m, m.client);
    case CANCEL_UNLINK =>
      var f := SetMark(db.files, m.path, 0);
      var d := CancelUnlink(db, m);
      assert SetMark(f, m.path, 0) == f;
      assert !HasInode(f, m.dev, m.ino) ==> DropAttrs(d.attrs, m.dev, m.ino) == d.attrs || !m.named;
    case MAY_UNLINK =>
      var f := SetMark(db.files, m.path, m.client);
      assert SetMark(f, m.path, m.client) == f;
    case _ =>
  }

  lemma OtherTwice(db: Db, m: Msg, w: Work, w2: Work)
    requires Agrees(db.files, m) && Clean(db, m, w) && Other(m.op)
    requires Clean(Finish(w).db, m, w2)
    ensures Finish(w2).db == Finish(w).db
  {
    var d := Finish(w).db;
    if m.op == UNLINK {
      UnlinkTwice(db, m, w, w2);
    } else {
      assert d == OtherDb(db, m, MarksUnlinked(w)) by { OtherEffect(db, m, w); }
      assert Finish(w2).db == OtherDb(d, m, MarksUnlinked(w2)) by { OtherEffect(d, m, w2); }
      assert m.op == FSTAT && m.named && (MarksUnlinked(w) || MarksUnlinked(w2)) ==>
          forall k | k in db.files :: db.files[k].path != m.path;
      OtherDbTwice(db, m, MarksUnlinked(w), MarksUnlinked(w2));
    }
  }

  lemma MovedRows(t: Files, m: Msg)
    requires PlainRename(t, m)
    ensures var u := MoveRows(t, m.extra, m.path);
            && (forall k | k in u :: u[k].path != m.extra && !Below(m.extra, u[k].path))
            && (forall k | k in u && u[k].path == m.path :: t[k].path == m.extra)
            && (exists k :: k in u && u[k].path == m.path)
  {
    var u := MoveRows(t, m.extra, m.path);
    forall k | k in t
      ensures u[k].path != m.extra && !Below(m.extra, u[k].path)
    {
      MovedLeavesSource(t[k].path, m.extra, m.path);
    }
    var k :| k in t && t[k].path == m.extra;
    assert u[k].path == m.path;
  }

  lemma RenameAgain(u: Files, src: Path, dst: Path)
    requires forall k | k in u :: u[k].path != src && !Below(src, u[k].path)
    ensures RenameFiles(u, src, dst) == u
  {
    assert RenameExact(u, src, dst) == u;
    RenameRangeIsSubtree(u, src, dst);
  }

  lemma RenameEffect(t: Files, m: Msg)
    requires PlainRename(t, m) && Agrees(t, m) && m.named && m.op == RENAME
    ensures var u := SetInode(RenameFiles(t, m.extra, m.path), m.path, m.dev, m.ino);
            && u == MoveRows(t, m.extra, m.path)
            && RenameFiles(u, m.extra, m.path) == u
            && SetInode(u, m.path, m.dev, m.ino) == u
            && PathKnown(u, m)
            && (forall k | k in u && u[k].path == m.path :: u[k].deleting == 0 && Fits(u[k], m))
            && (forall k | k in u :: u[k].path != m.extra)
  {
    RenameMovesSubtree(t, m.extra, m.path);
    hide RenameFiles, PlainRename, PlainBelow;
    MovedRows(t, m);
    var u := MoveRows(t, m.extra, m.path);
    assert SetInode(u, m.path, m.dev, m.ino) == u;
    RenameAgain(u, m.extra, m.path);
  }

  lemma MoveKeepsFitting(t: Files, m: Msg)
    requires Fitting(t, m) && PlainRename(t, m) && m.op == RENAME && m.named
    ensures Fitting(MoveRows(t, m.extra, m.path), m)
  {
    var u := MoveRows(t, m.extra, m.path);
    assert forall k | k in u :: k in t && SameInode(u[k], t[k]) && u[k].mode == t[k].mode;
    assert (forall k | k in u && u[k].path == m.path :: Fits(u[k], m))
        && (forall k | k in u :: u[k].path != m.extra) by {
      RenameEffect(t, m);
    }
  }

  lemma RenameTwice(db: Db, m: Msg, w: Work, w2: Work)
    requires Fitting(db.files, m) && Clean(db, m, w) && m.op == RENAME
    requires m.named ==> PlainRename(db.files, m)
    requires Clean(Finish(w).db, m, w2)
    ensures Fitting(Finish(w).db.files, m) && Finish(w2).db == Finish(w).db
    ensures m.named && m.nlink == 1 ==> Refused(w2)
  {
    if m.named {
      var u := MoveRows(db.files, m.extra, m.path);
      assert Fitting(u, m) by { MoveKeepsFitting(db.files, m); }
      RenameEffect(db.files, m);
      assert Finish(w).db == db.(files := u);
      var k :| IsHit(u, w2, k);
    }
  }

  // Settling is what the first pass of a coherent, agreeing request achieves.
  lemma FirstPass(db: Db, m: Msg)
    requires Coherent(db.files) && Agrees(db.files, m) && !Refused(Front(db, m))
    ensures var c := CheckIno(Front(db, m));
            Clean(c.db, m, c) && Agrees(c.db.files, m) && (Settled(c.db, m) || m.op == DID_UNLINK)
            && ((exists k :: k in db.files && Fits(db.files[k], m)) ==> c.db == db)
  {
    CheckInoOfAgreeing(db, m);
    FrontOfAgreeing(db, m);
    var w := Front(db, m);
    var c := CheckIno(w);
    if c.foundIno {
      var k :| IsHit(c.db.files, c, k);
      LikeHit(c.db.files, k);
    }
    if w.foundIno {
      var k :| IsHit(db.files, w, k);
      LikeHit(db.files, k);
    }
    assert MetaKept(db.files, c.db.files);
    KeptMetaIsCoherent(db.files, c.db.files);
  }

  lemma ChecksOfAgreeing(db: Db, m: Msg)
    requires Coherent(db.files) && Agrees(db.files, m) && !Refused(Front(db, m))
    ensures var c := CheckIno(Front(db, m));
            if m.op != DID_UNLINK && Foreign(db.files, m) then c.db == UnlinkFileDev(db, m) && !PathKnown(db.files, m)
            else c.db == db
  {
    hide Front;
    FrontOfAgreeing(db, m);
    var w := Front(db, m);
    if w.foundIno {
      var k :| IsHit(db.files, w, k);
      LikeHit(db.files, k);
    }
  }

  lemma ProcessedBy(db: Db, m: Msg)
    requires !Refused(Front(db, m))
    ensures Process(db, m) == Finish(CheckIno(Front(db, m)))
  {}

  // What the checks leave of an inode whose rows are of another kind: no row and no attribute.
  lemma CheckedAttrs(db: Db, m: Msg)
    ensures var d := UnlinkFileDev(db, m);
            !HasInode(d.files, m.dev, m.ino) && DropAttrs(d.attrs, m.dev, m.ino) == d.attrs
            && d.attrs == DropAttrs(db.attrs, m.dev, m.ino)
  {
    assert !HasInode(DeleteInode(db.files, m.dev, m.ino), m.dev, m.ino);
  }

  // ----- the second pass, operation by operation -----

  // The second pass drops the attributes of the inode if the first one made its only row and
  // kept attributes that were there without one.
  predicate AttrsLater(t: Files, m: Msg)
  {
    && !HasInode(t, m.dev, m.ino)
    && (m.op in {LINK, SYMLINK, MKDIR, MKNOD} || (m.op == CREAT && !m.named))
  }

  function WithoutAttrs(db: Db, m: Msg): Db { db.(attrs := DropAttrs(db.attrs, m.dev, m.ino)) }

  function Later(d: Db, m: Msg, drops: bool): Db { if drops then WithoutAttrs(d, m) else d }

  lemma DropNothing(db: Db, m: Msg)
    requires DropAttrs(db.attrs, m.dev, m.ino) == db.attrs
    ensures WithoutAttrs(db, m) == db
  {}

  // What creating does to a settled database.
  function Made(db: Db, m: Msg): Db
  {
    if m.op == CREAT && PathKnown(db.files, m) then db else Remake(db, m)
  }

  lemma MadeIs(db: Db, m: Msg, w: Work)
    requires Settled(db, m) && Clean(db, m, w) && m.op in {CREAT, MKDIR, MKNOD}
    ensures Finish(w).db == Made(db, m)
  {
    FinishMake(w);
    hide Finish, Creat, Make, Remake, Settled;
    MakeEffect(db, m, w);
  }

  lemma MadeSettles(db: Db, m: Msg)
    requires Settled(db, m) && m.op in {CREAT, MKDIR, MKNOD}
    ensures Settled(Made(db, m), m) && (m.named ==> PathKnown(Made(db, m).files, m))
    ensures AttrsLater(db.files, m) ==> HasInode(Made(db, m).files, m.dev, m.ino) && Made(db, m).attrs == db.attrs
  {
    RemakeSettles(db, m);
    RemakeTwice(db, m);
    hide Settled, Fitting;
  }

  lemma MadeTwice(db: Db, m: Msg)
    requires Settled(db, m) && m.op in {CREAT, MKDIR, MKNOD}
    ensures Made(Made(db, m), m) == Later(Made(db, m), m, AttrsLater(db.files, m))
  {
    RemakeSettles(db, m);
    RemakeTwice(db, m);
    if HasInode(db.files, m.dev, m.ino) {
      MadeAttrs(db, m);
      DropNothing(Remake(db, m), m);
    } else {
      assert !PathKnown(db.files, m);
    }
    hide Remake, Settled, DropAttrs;
  }

  lemma MadeSecond(db: Db, m: Msg, w: Work)
    requires Clean(db, m, w) && Settled(db, m) && m.op in {CREAT, MKDIR, MKNOD}
    ensures Settled(Finish(w).db, m) && (m.named ==> PathKnown(Finish(w).db.files, m))
    ensures AttrsLater(db.files, m) ==> HasInode(Finish(w).db.files, m.dev, m.ino) && Finish(w).db.attrs == db.attrs
    ensures Process(Finish(w).db, m).db == Later(Finish(w).db, m, AttrsLater(db.files, m))
  {
    hide Finish, Front, Process, Refused, Made, Later;
    var d := Finish(w).db;
    MadeIs(db, m, w);
    MadeSettles(db, m);
    MadeTwice(db, m);
    SecondFront(d, m);
    MakeNotRefused(d, m, Front(d, m));
    MadeIs(d, m, Front(d, m));
  }

  lemma FinishMake(w: Work)
    requires w.msg.op in {CREAT, MKDIR, MKNOD}
    ensures Finish(w).db == if w.msg.op == CREAT then Creat(w).db else Make(w).db
  {}

  lemma MakeNotRefused(db: Db, m: Msg, w: Work)
    requires Clean(db, m, w) && Agrees(db.files, m) && m.op in {CREAT, MKDIR, MKNOD}
    requires m.named ==> PathKnown(db.files, m)
    ensures !Refused(w)
  {
    if m.named { var k :| IsHit(db.files, w, k); }
  }

  lemma MadeAttrs(db: Db, m: Msg)
    ensures HasInode(db.files, m.dev, m.ino) ==> DropAttrs(Remake(db, m).attrs, m.dev, m.ino) == Remake(db, m).attrs
  {}

  lemma LinkSecond(db: Db, m: Msg, w: Work)
    requires Clean(db, m, w) && Settled(db, m) && m.op in {LINK, SYMLINK} && m.named
    ensures Settled(Finish(w).db, m) && PathKnown(Finish(w).db.files, m)
    ensures AttrsLater(db.files, m) ==> HasInode(Finish(w).db.files, m.dev, m.ino) && Finish(w).db.attrs == db.attrs
    ensures Process(Finish(w).db, m).db == Later(Finish(w).db, m, AttrsLater(db.files, m))
  {
    var d := Finish(w).db;
    FinishLink(w);
    hide Finish, Link;
    LinkEffect(db, m, w);
    LinkSettles(db, m, w);
    SecondFront(d, m);
    var w2 := Front(d, m);
    LinkNotRefused(d, m, w2);
    hide Process, Front, Refused;
    LinkTwice(db, m, w, d, w2);
    FinishLink(w2);
    LinkedAttrs(db, m, LinkedRow(w));
  }

  lemma LinkNotRefused(db: Db, m: Msg, w: Work)
    requires Clean(db, m, w) && Agrees(db.files, m) && m.op in {LINK, SYMLINK}
    ensures !Refused(w)
  {
    if w.foundIno { var k :| IsHit(db.files, w, k); }
  }

  // The attributes that are left after linking are either those of an inode with another row,
  // or none of the inode, or those it had without a row.
  lemma LinkedAttrs(db: Db, m: Msg, r: Row)
    requires Agrees(db.files, m) && m.named && Fits(r, m) && r.path == m.path
    ensures var d := Relink(db, m, r); var g := DeletePath(db.files, m.path);
            && HasInode(d.files, m.dev, m.ino)
            && (!HasInode(db.files, m.dev, m.ino) ==> d.attrs == db.attrs && !HasInode(g, m.dev, m.ino))
            && (HasInode(db.files, m.dev, m.ino) && !HasInode(g, m.dev, m.ino) ==>
                   DropAttrs(d.attrs, m.dev, m.ino) == d.attrs)
  {
    var g := DeletePath(db.files, m.path);
    assert Relink(db, m, r).files[FreshId(g)] == r;
    if HasInode(db.files, m.dev, m.ino) && !PathKnown(db.files, m) {
      var k :| k in db.files && db.files[k].dev == m.dev && db.files[k].ino == m.ino;
      assert k in g && g[k] == db.files[k];
    }
    if HasInode(g, m.dev, m.ino) {
      var k :| k in g && g[k].dev == m.dev && g[k].ino == m.ino;
      assert db.files[k] == g[k];
    }
  }

  lemma FinishLink(w: Work)
    requires w.msg.op in {LINK, SYMLINK}
    ensures Finish(w) == Link(w)
  {}

  lemma ChangeSecond(db: Db, m: Msg, w: Work)
    requires Clean(db, m, w) && Settled(db, m) && Changing(m.op)
    ensures Process(Finish(w).db, m).db == Finish(w).db
  {
    var d := Finish(w).db;
    assert Settled(d, m) by { ChangeSettles(db, m, w); }
    SecondFront(d, m);
    assert Finish(Front(d, m)).db == d by { ChangeTwice(db, m, w, Front(d, m)); }
  }

  lemma RenameSecond(db: Db, m: Msg, w: Work)
    requires Clean(db, m, w) && Fitting(db.files, m) && m.op == RENAME
    requires m.named ==> PlainRename(db.files, m)
    ensures Process(Finish(w).db, m).db == Finish(w).db
    ensures m.named && m.nlink == 1 ==> Process(Finish(w).db, m).msg.result == ABORT
  {
    hide Finish, Process, PlainRename, Fitting, Front;
    var d := Finish(w).db;
    RenameKeepsFitting(db, m, w);
    SecondFront(d, m);
    RenameTwice(db, m, w, Front(d, m));
  }

  lemma RenameKeepsFitting(db: Db, m: Msg, w: Work)
    requires Clean(db, m, w) && Fitting(db.files, m) && m.op == RENAME
    requires m.named ==> PlainRename(db.files, m)
    ensures Fitting(Finish(w).db.files, m)
  {
    if m.named {
      assert Finish(w).db.files == MoveRows(db.files, m.extra, m.path) by { RenameEffect(db.files, m); }
      MoveKeepsFitting(db.files, m);
    }
  }

  lemma OtherSecond(db: Db, m: Msg, w: Work)
    requires Clean(db, m, w) && Agrees(db.files, m) && (Fitting(db.files, m) || m.op == DID_UNLINK) && Other(m.op)
    ensures Process(Finish(w).db, m).db == Finish(w).db
  {
    var d := Finish(w).db;
    OtherKeepsAgrees(db, m, w);
    SecondFront(d, m);
    assert Finish(Front(d, m)).db == d by { OtherTwice(db, m, w, Front(d, m)); }
  }

  // A second pass over an agreeing request.
  lemma AgreeingSecond(db: Db, m: Msg)
    requires Coherent(db.files) && Agrees(db.files, m)
    requires m.op in {LINK, SYMLINK} ==> m.named
    requires m.op == RENAME && m.named ==> PlainRename(db.files, m)
    ensures var d := Process(db, m).db; Process(d, m).db == Later(d, m, AttrsLater(db.files, m))
    ensures AttrsLater(db.files, m) ==>
              var d := Process(db, m).db;
              d.attrs == db.attrs && Coherent(d.files) && Agrees(d.files, m) && HasInode(d.files, m.dev, m.ino)
  {
    hide Front, CheckIno, Refused, Dispatch, MarksUnlinked, Link, Finish, DropAttrs;
    FrontOfAgreeing(db, m);
    if Refused(Front(db, m)) {
      RefusedHasInode(db, m);
    } else {
      var c := CheckIno(Front(db, m));
      FirstPass(db, m);
      ProcessedBy(db, m);
      ChecksOfAgreeing(db, m);
      CheckedAttrs(db, m);
      hide Process;
      if m.op in {LINK, SYMLINK} {
        LinkSecond(c.db, m, c);
        CreatedSecond(db, c.db, m, Finish(c).db);
      } else if Creating(m.op) {
        MadeSecond(c.db, m, c);
        CreatedSecond(db, c.db, m, Finish(c).db);
      } else if Changing(m.op) {
        ChangeSecond(c.db, m, c);
      } else if m.op == RENAME {
        if m.named { SourceIsKnown(db.files, m); }
        RenameSecond(c.db, m, c);
      } else {
        OtherSecond(c.db, m, c);
      }
    }
  }

  lemma RefusedHasInode(db: Db, m: Msg)
    requires Agrees(db.files, m) && Refused(Front(db, m))
    ensures HasInode(db.files, m.dev, m.ino) && Process(db, m).db == db
  {
    hide Front;
    FrontOfAgreeing(db, m);
  }

  // Seen from before the checks.
  lemma CreatedSecond(db: Db, c: Db, m: Msg, d: Db)
    requires c == db || (c == UnlinkFileDev(db, m) && Foreign(db.files, m))
    requires AttrsLater(c.files, m) ==> d.attrs == c.attrs
    ensures AttrsLater(db.files, m) ==> c == db
    ensures Later(d, m, AttrsLater(c.files, m)) == Later(d, m, AttrsLater(db.files, m))
  {
    if Foreign(db.files, m) { ForeignHasInode(db.files, m); }
    if c != db {
      CheckedAttrs(db, m);
      if AttrsLater(c.files, m) { DropNothing(d, m); }
    }
  }

  lemma ForeignHasInode(t: Files, m: Msg)
    requires Foreign(t, m)
    ensures HasInode(t, m.dev, m.ino)
  {}

  lemma SourceIsKnown(t: Files, m: Msg)
    requires Coherent(t) && Agrees(t, m) && m.op == RENAME && m.named && PlainRename(t, m)
    ensures !Foreign(t, m)
  {
    var k :| k in t && t[k].path == m.extra;
    LikeHit(t, k);
  }

  // ----- what is resent -----

  // A request the client may send.  Links are told with their path, and so are confirmations;
  // a rename has moved a file the server knows.
  ghost predicate Sendable(t: Files, m: Msg)
  {
    && Proper(t, m)
    && (m.op in {LINK, SYMLINK, DID_UNLINK} ==> m.named)
    && (m.op == RENAME && m.named ==> PlainRename(t, m))
  }

  predicate HasAttr(db: Db, m: Msg) { exists a :: a in db.attrs && a.dev == m.dev && a.ino == m.ino }

  // Delivering a request again leaves the files as they are.  It changes the attributes exactly
  // if the request creates the first row of an inode that has attributes already, and then it
  // drops them.
  lemma SecondDelivery(db: Db, m: Msg)
    requires Coherent(db.files) && Sendable(db.files, m)
    ensures var d := Process(db, m).db;
            && Process(d, m).db == Later(d, m, AttrsLater(db.files, m))
            && Process(d, m).db.files == d.files
            && (Process(d, m).db == d <==> !(AttrsLater(db.files, m) && HasAttr(db, m)))
    ensures AttrsLater(db.files, m) ==>
              var d := Process(db, m).db;
              d.attrs == db.attrs && Coherent(d.files) && Agrees(d.files, m) && HasInode(d.files, m.dev, m.ino)
  {
    hide Process;
    if Bare(db.files, m) {
      BareChangesNothing(db, m);
    } else {
      AgreeingSecond(db, m);
      DropsSomething(Process(db, m).db, m);
      if AttrsLater(db.files, m) { SameAttrs(db, Process(db, m).db, m); }
    }
  }

  lemma DropsSomething(db: Db, m: Msg)
    ensures WithoutAttrs(db, m) == db <==> !HasAttr(db, m)
  {
    var d := DropAttrs(db.attrs, m.dev, m.ino);
    if HasAttr(db, m) {
      var a :| a in db.attrs && a.dev == m.dev && a.ino == m.ino;
      assert a !in d;
    } else {
      assert d == db.attrs;
    }
  }

  lemma SameAttrs(a: Db, b: Db, m: Msg)
    requires a.attrs == b.attrs
    ensures HasAttr(a, m) <==> HasAttr(b, m)
  {}

  // The smallest case: a directory made with the inode number of a removed file that was never
  // tracked but had been given an attribute.
  lemma SecondDeliveryDropsInherited()
    ensures var a := AttrKey(1, 10, "user.x");
            var m := Msg(MKDIR, 7, NONE, 1, 10, 0, 0, Mode(S_IFDIR, 493), 0, 2, 0, true, "/d", "");
            var db := Db(map[], map[a := "v"]);
            var d := Process(db, m).db;
            a in d.attrs && a !in Process(d, m).db.attrs
  {
    var a := AttrKey(1, 10, "user.x");
    var m := Msg(MKDIR, 7, NONE, 1, 10, 0, 0, Mode(S_IFDIR, 493), 0, 2, 0, true, "/d", "");
    var db := Db(map[], map[a := "v"]);
    hide Process;
    SecondDelivery(db, m);
    assert a in db.attrs && HasAttr(db, m) && AttrsLater(db.files, m);
  }
}
