// Requests that contradict the table: what the sanity checks make of it, row by row, and whose
// word counts afterwards.

module OddRequests {
  import opened PathText
  import opened FileTable
  import opened ServerOp
  import opened OpFacts
  import opened Agreeing
  import opened Attributes

  // Directories and links, told by the format bits.
  predicate OneKind(a: Mode, b: Mode)
  {
    (a.fmt == 4 <==> b.fmt == 4) && (a.fmt == 10 <==> b.fmt == 10)
  }

  // The request names a path and an inode, and no row has both.
  predicate Loose(t: Files, m: Msg)
  {
    && m.named && m.dev != 0 && m.ino != 0
    && forall k | k in t :: !(t[k].path == m.path && t[k].dev == m.dev && t[k].ino == m.ino)
  }

  // i is the first row of the path.
  predicate FirstAt(t: Files, p: Path, i: nat)
  {
    i in t && t[i].path == p && forall k | k in t && t[k].path == p :: i <= k
  }

  // j is the first row of the inode.
  predicate FirstOf(t: Files, dev: int, ino: int, j: nat)
  {
    j in t && t[j].dev == dev && t[j].ino == ino && forall k | k in t && t[k].dev == dev && t[k].ino == ino :: j <= k
  }

  lemma FoundBy(t: Files, p: Path, dev: int, ino: int, i: nat)
    ensures FirstAt(t, p, i) ==> ByPath(t, p) == Some(i)
    ensures FirstOf(t, dev, ino, i) ==> ByInode(t, dev, ino) == Some(i)
  {}

  // ----- the path's row -----

  // A row of another inode at the path that was to be removed is removed now, and with it the
  // attributes of every inode without a row; one that was not is left alone.
  lemma ClashDropsMarked(db: Db, m: Msg, i: nat)
    requires Loose(db.files, m) && m.op != DID_UNLINK && FirstAt(db.files, m.path, i)
    requires OneKind(db.files[i].mode, m.mode)
    ensures var r := db.files[i]; var d := Front(db, m).db;
            var drops := r.ino != m.ino && r.deleting != 0 && m.op != EXEC;
            && (forall k | k in db.files ::
                  k in d.files <==> !(drops && db.files[k].path == m.path && db.files[k].deleting == r.deleting))
            && (forall k | k in d.files :: k in db.files && d.files[k] == db.files[k])
            && (forall a | a in db.attrs :: a in d.attrs <==> !drops || HasInode(d.files, a.dev, a.ino))
            && (forall a | a in d.attrs :: a in db.attrs && d.attrs[a] == db.attrs[a])
  {
    FoundBy(db.files, m.path, m.dev, m.ino, i);
    assert ByPathAndInode(db.files, m.path, m.dev, m.ino).None?;
  }

  // A row of another kind at the path goes, whatever its inode, and all rows of the path with it.
  lemma OtherKindAtPath(db: Db, m: Msg, i: nat)
    requires Loose(db.files, m) && m.op != DID_UNLINK && FirstAt(db.files, m.path, i)
    requires !OneKind(db.files[i].mode, m.mode)
    ensures var w := Front(db, m);
            && !w.foundPath
            && (forall k | k in db.files :: k in w.db.files <==> db.files[k].path != m.path)
            && (forall k | k in w.db.files :: w.db.files[k] == db.files[k])
  {
    FoundBy(db.files, m.path, m.dev, m.ino, i);
    assert ByPathAndInode(db.files, m.path, m.dev, m.ino).None?;
    hide ClearAttrs, ClearUnusedAttrs;
    var r := db.files[i];
    var db1 := DidUnlinkClash(db, m.path, r.deleting);
    ClearsKeepFiles(db.(files := DeletePathMarked(db.files, m.path, r.deleting)), 0, 0);
    var h := WithRow(m.(result := SUCCEED), r);
    ClearsKeepFiles(db1.(files := DeletePath(db1.files, m.path)), h.dev, h.ino);
    ClearsKeepFiles(db.(files := DeletePath(db.files, m.path)), h.dev, h.ino);
  }

  // ----- the inode's row -----

  // Rows of the inode that are of another kind go, unless the request is refused.
  lemma OtherKindOfInode(db: Db, m: Msg, j: nat)
    requires Loose(db.files, m) && m.op != DID_UNLINK && !Blocked(db.files, m)
    requires forall k | k in db.files :: db.files[k].path != m.path
    requires FirstOf(db.files, m.dev, m.ino, j) && !OneKind(db.files[j].mode, m.mode)
    ensures !Refused(Front(db, m))
    ensures var w := CheckIno(Front(db, m));
            && !w.foundIno && w.msg == m.(result := SUCCEED)
            && (forall k | k in db.files ::
                  k in w.db.files <==> !(db.files[k].dev == m.dev && db.files[k].ino == m.ino))
            && (forall k | k in w.db.files :: w.db.files[k] == db.files[k])
            && (forall a | a in db.attrs :: a in w.db.attrs <==> !(a.dev == m.dev && a.ino == m.ino))
            && (forall a | a in w.db.attrs :: w.db.attrs[a] == db.attrs[a])
  {
    RefusedExactly(db, m);
    FoundBy(db.files, m.path, m.dev, m.ino, j);
    assert ByPathAndInode(db.files, m.path, m.dev, m.ino).None? && ByPath(db.files, m.path).None?;
    assert !HasInode(DeleteInode(db.files, m.dev, m.ino), m.dev, m.ino);
  }

  // ----- whose word counts -----

  // Path and inode have different rows, and neither is wrong on the face of it.
  predicate TwoRows(t: Files, m: Msg, i: nat, j: nat)
  {
    && Loose(t, m) && FirstAt(t, m.path, i) && FirstOf(t, m.dev, m.ino, j)
    && OneKind(t[i].mode, m.mode) && OneKind(t[j].mode, m.mode)
    && (t[i].deleting == 0 || t[i].ino == m.ino) && (t[j].path == NAMELESS || t[j].deleting != 0)
    && t[i].dev != 0 && t[i].ino != 0
  }

  lemma TwoFound(db: Db, m: Msg, i: nat, j: nat)
    requires TwoRows(db.files, m, i, j) && m.op !in {LINK, EXEC, RENAME, DID_UNLINK}
    ensures var w := Front(db, m); var h := m.(result := SUCCEED);
            && !Refused(w) && CheckIno(w) == w && Process(db, m) == Finish(w)
            && w == Work(db, WithRow(h, db.files[i]), h, WithRow(h, db.files[i]), WithMeta(h, db.files[j]),
                         db.files[j].path, true, true, false)
  {
    FoundBy(db.files, m.path, m.dev, m.ino, i);
    FoundBy(db.files, m.path, m.dev, m.ino, j);
    assert ByPathAndInode(db.files, m.path, m.dev, m.ino).None?;
    hide Finish, ByPath, ByInode, ByPathAndInode;
  }

  predicate Bears(m: Msg, r: Row) { m.uid == r.uid && m.gid == r.gid && m.mode == r.mode && m.rdev == r.rdev }

  // stat believes the path, fstat the descriptor's inode.
  lemma WhomStatBelieves(db: Db, m: Msg, i: nat, j: nat)
    requires TwoRows(db.files, m, i, j) && m.op in {STAT, FSTAT}
    ensures var o := Process(db, m);
            && o.db == db && o.msg.result == SUCCEED
            && Bears(o.msg, db.files[if m.op == STAT then i else j])
  {
    TwoFound(db, m, i, j);
    hide Front, CheckIno;
  }

  // chmod and chown believe the inode, and change all its rows and no others.
  lemma WhatChangesBelieve(db: Db, m: Msg, i: nat, j: nat)
    requires TwoRows(db.files, m, i, j) && Changing(m.op)
    ensures var r := db.files[j]; var d := Process(db, m).db;
            && d.attrs == db.attrs && d.files.Keys == db.files.Keys
            && forall k | k in db.files ::
                 d.files[k] ==
                 if !(db.files[k].dev == m.dev && db.files[k].ino == m.ino) then db.files[k]
                 else if m.op in {CHMOD, FCHMOD}
                 then db.files[k].(uid := r.uid, gid := r.gid, mode := Mode(r.mode.fmt, m.mode.perm), rdev := r.rdev)
                 else db.files[k].(uid := m.uid, gid := m.gid, mode := r.mode, rdev := r.rdev)
  {
    TwoFound(db, m, i, j);
    hide Front, CheckIno;
  }

  // Where only the path has a row, of another inode, that row is believed: stat answers with it,
  // and chmod and chown change every row of its inode; nothing is added.
  lemma PathAlone(db: Db, m: Msg, i: nat)
    requires Loose(db.files, m) && FirstAt(db.files, m.path, i) && OneKind(db.files[i].mode, m.mode)
    requires db.files[i].deleting == 0 || db.files[i].ino == m.ino
    requires !HasInode(db.files, m.dev, m.ino) && (m.op in {STAT, FSTAT} || Changing(m.op))
    ensures var r := db.files[i]; var o := Process(db, m);
            && o.msg.result == SUCCEED && o.inserted == None
            && o.db.attrs == db.attrs && o.db.files.Keys == db.files.Keys
            && (m.op in {STAT, FSTAT} ==> o.db == db && Bears(o.msg, r))
            && forall k | k in db.files ::
                 o.db.files[k] ==
                 if m.op in {STAT, FSTAT} || !SameInode(db.files[k], r) then db.files[k]
                 else if m.op in {CHMOD, FCHMOD}
                 then db.files[k].(uid := r.uid, gid := r.gid, mode := Mode(r.mode.fmt, m.mode.perm), rdev := r.rdev)
                 else db.files[k].(uid := m.uid, gid := m.gid, mode := r.mode, rdev := r.rdev)
  {
    PathFound(db, m, i);
    hide Front, CheckIno;
  }

  lemma PathFound(db: Db, m: Msg, i: nat)
    requires Loose(db.files, m) && FirstAt(db.files, m.path, i) && OneKind(db.files[i].mode, m.mode)
    requires db.files[i].deleting == 0 || db.files[i].ino == m.ino
    requires !HasInode(db.files, m.dev, m.ino) && (m.op in {STAT, FSTAT} || Changing(m.op))
    ensures var w := Front(db, m); var h := m.(result := SUCCEED);
            && Process(db, m) == Finish(w) && w.db == db && w.header == h && w.foundPath && !w.foundIno
            && w.msg == w.byPath == WithRow(h, db.files[i])
  {
    FoundBy(db.files, m.path, m.dev, m.ino, i);
    assert ByPathAndInode(db.files, m.path, m.dev, m.ino).None? && ByInode(db.files, m.dev, m.ino).None?;
    hide Finish, ByPath, ByInode, ByPathAndInode;
  }

  // ----- renames and taking back -----

  // Whatever inode the table had for a file that is renamed, its row ends on the request's.
  lemma RenameSetsInode(db: Db, m: Msg, k: nat)
    requires m.op == RENAME && m.named && m.dev != 0 && m.ino != 0 && !Blocked(db.files, m)
    requires forall j | j in db.files :: db.files[j].path != m.path
    requires var d := Process(db, m).db.files; k in d && d[k].path == m.path
    ensures var r := Process(db, m).db.files[k]; r.dev == m.dev && r.ino == m.ino
  {
    RefusedExactly(db, m);
    assert ByPathAndInode(db.files, m.path, m.dev, m.ino).None? && ByPath(db.files, m.path).None?;
    var w := Front(db, m);
    assert w.msg == m.(result := SUCCEED);
    hide Front, RenameFiles;
  }

  // Taking a mark back also drops the attributes of the request's inode if it has no row.
  lemma CancelCollects(db: Db, m: Msg)
    requires m.op == CANCEL_UNLINK && m.named && Agrees(db.files, m) && !HasInode(db.files, m.dev, m.ino)
    ensures var d := Process(db, m).db;
            && d.files == db.files
            && (forall a | a in db.attrs :: a in d.attrs <==> !(a.dev == m.dev && a.ino == m.ino))
            && (forall a | a in d.attrs :: a in db.attrs && d.attrs[a] == db.attrs[a])
  {
    FrontOfAgreeing(db, m);
    var w := Front(db, m);
    hide Front;
    assert SetMark(db.files, m.path, 0) == db.files;
  }
}
