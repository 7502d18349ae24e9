// What the client sees of a repeated delivery: the same answer, except in three cases that the
// table tells beforehand.

module SecondAnswer {
  import opened PathText
  import opened FileTable
  import opened ServerOp
  import opened OpFacts
  import opened Agreeing
  import opened Attributes
  import opened Resending

  // The answer of an agreeing request that is not refused.
  function Answer(db: Db, m: Msg): Result
  {
    match m.op
    case STAT => if PathKnown(db.files, m) || HasInode(db.files, m.dev, m.ino) then SUCCEED else FAIL
    case FSTAT => if PathKnown(db.files, m) || HasInode(db.files, m.dev, m.ino) then SUCCEED else FAIL
    case MAY_UNLINK => if PathKnown(db.files, m) then SUCCEED else FAIL
    case UNLINK => NONE
    case GET_XATTR => if AttrOf(m) in db.attrs && db.attrs[AttrOf(m)] != "" then SUCCEED else FAIL
    case CREATE_XATTR => if AttrOf(m) in db.attrs then FAIL else SUCCEED
    case REPLACE_XATTR => if AttrOf(m) in db.attrs then SUCCEED else FAIL
    case _ => SUCCEED
  }

  lemma AnswerOfClean(db: Db, m: Msg, w: Work)
    requires Agrees(db.files, m) && Clean(db, m, w)
    ensures Finish(w).msg.result == Answer(db, m)
  {
    if w.foundIno { var k :| IsHit(db.files, w, k); }
    assert AttrOf(w.msg) == AttrOf(m);
    assert w.foundPath <==> PathKnown(db.files, m);
  }

  // The first rows of path and inode are the same in two tables that hold the same names.
  ghost predicate SameNames(t: Files, u: Files)
  {
    t.Keys == u.Keys && forall k | k in t :: t[k].path == u[k].path && SameInode(t[k], u[k])
  }

  lemma SameSearches(t: Files, u: Files, p: Path, dev: int, ino: int)
    requires SameNames(t, u)
    ensures ByPath(u, p) == ByPath(t, p) && ByInode(u, dev, ino) == ByInode(t, dev, ino)
    ensures ByPathAndInode(u, p, dev, ino) == ByPathAndInode(t, p, dev, ino)
  {
    assert forall k | k in u :: u[k].path == t[k].path && u[k].dev == t[k].dev && u[k].ino == t[k].ino;
  }

  // A path that is known is never blocked, but for a rename.
  lemma KnownIsNotBlocked(t: Files, m: Msg)
    requires Agrees(t, m) && PathKnown(t, m) && m.op != RENAME
    ensures !Blocked(t, m)
  {
    var k :| k in t && t[k].path == m.path;
    assert ByPathAndInode(t, m.path, m.dev, m.ino).Some?;
  }

  lemma NoInodeIsNotBlocked(t: Files, m: Msg)
    requires Agrees(t, m) && !HasInode(t, m.dev, m.ino)
    ensures !Blocked(t, m)
  {
    assert ByInode(t, m.dev, m.ino).None? && ByPathAndInode(t, m.path, m.dev, m.ino).None?;
  }

  // Marks at the request's own path do not block it.
  lemma MarksDoNotBlock(t: Files, u: Files, m: Msg)
    requires Agrees(t, m) && SameNames(t, u) && m.op != RENAME && !Blocked(t, m)
    requires forall k | k in t && t[k].path != m.path :: u[k].deleting == t[k].deleting
    ensures !Blocked(u, m)
  {
    SameSearches(t, u, m.path, m.dev, m.ino);
  }

  // The rows an unlink leaves of the request's inode, when it does not take them all.
  function LeftByUnlink(t: Files, m: Msg): Option<nat>
  {
    if m.nlink == 1 || !m.named then None
    else ByInode(DeleteRange(DeletePath(t, m.path), m.path), m.dev, m.ino)
  }

  // An unlink of one of several names: the next pass finds the inode under another one.
  predicate LeavesOther(t: Files, m: Msg)
  {
    var o := LeftByUnlink(t, m);
    o.Some? && t[o.value].deleting == 0 && t[o.value].path != NAMELESS && SameKind(t[o.value].mode, m.mode)
  }

  // A request that has been carried out will be answered differently when it comes again.
  ghost predicate AnswersDiffer(db: Db, m: Msg)
  {
    && !Blocked(db.files, m)
    && match m.op
       case RENAME => m.named && m.nlink == 1
       case CREATE_XATTR => AttrOf(m) !in db.attrs || Foreign(db.files, m)
       case UNLINK => LeavesOther(db.files, m)
       case _ => false
  }

  // ----- the second pass, operation by operation -----

  // What an agreeing request that was carried out leaves for the next pass to look at.
  ghost predicate Passed(db: Db, m: Msg, d: Db)
  {
    && Coherent(db.files) && Sendable(db.files, m) && Agrees(db.files, m)
    && !Blocked(db.files, m) && d == Process(db, m).db
  }

  // The first pass, seen through its checks.
  lemma FirstAnswer(db: Db, m: Msg, d: Db) returns (c: Work)
    requires Passed(db, m, d)
    ensures Clean(c.db, m, c) && Agrees(c.db.files, m) && (Settled(c.db, m) || m.op == DID_UNLINK)
    ensures d == Finish(c).db && Process(db, m).msg.result == Answer(c.db, m)
    ensures c.db == db || (c.db == UnlinkFileDev(db, m) && !PathKnown(db.files, m) && Foreign(db.files, m))
    ensures c.db == db ==> !Foreign(db.files, m) || m.op == DID_UNLINK
  {
    RefusedExactly(db, m);
    FrontOfAgreeing(db, m);
    CheckInoOfAgreeing(db, m);
    FirstPass(db, m);
    c := CheckIno(Front(db, m));
    hide Front, CheckIno, Finish, Answer, Blocked;
    AnswerOfClean(c.db, m, c);
    hide Process, Settled;
    ChecksOfAgreeing(db, m);
    ProcessedBy(db, m);
  }

  // The second pass over d.
  lemma NextAnswer(d: Db, m: Msg)
    requires Agrees(d.files, m) && (m.op == DID_UNLINK || Fitting(d.files, m)) && !Blocked(d.files, m)
    ensures Process(d, m).msg.result == Answer(d, m)
  {
    hide Front, Finish, Answer, Blocked;
    RefusedExactly(d, m);
    SecondFront(d, m);
    AnswerOfClean(d, m, Front(d, m));
    ProcessedBy(d, m);
    FittingPasses(d, m);
  }

  lemma FittingPasses(d: Db, m: Msg)
    requires Agrees(d.files, m) && (m.op == DID_UNLINK || Fitting(d.files, m)) && !Refused(Front(d, m))
    ensures CheckIno(Front(d, m)) == Front(d, m)
  {
    hide Front;
    FrontOfAgreeing(d, m);
    var w := Front(d, m);
    if w.foundIno { var k :| IsHit(d.files, w, k); }
  }

  lemma CreatedAnswer(db: Db, m: Msg, d: Db)
    requires Passed(db, m, d) && Creating(m.op)
    ensures !Blocked(d.files, m) && Process(d, m).msg.result == Process(db, m).msg.result
  {
    hide Process, Finish, Blocked, Answer;
    var c := FirstAnswer(db, m, d);
    if m.op in {LINK, SYMLINK} {
      LinkSecond(c.db, m, c);
    } else {
      MadeSecond(c.db, m, c);
    }
    if m.named { KnownIsNotBlocked(d.files, m); } else { UnnamedIsNotBlocked(d.files, m); }
    NextAnswer(d, m);
    CreatingSucceeds(db, d, c.db, m);
  }

  lemma UnnamedIsNotBlocked(t: Files, m: Msg)
    requires !m.named
    ensures !Blocked(t, m)
  {}

  lemma CreatingSucceeds(a: Db, b: Db, c: Db, m: Msg)
    requires Creating(m.op) || Changing(m.op)
    ensures Answer(a, m) == Answer(b, m) == Answer(c, m) == SUCCEED
  {}

  lemma ChangedAnswer(db: Db, m: Msg, d: Db)
    requires Passed(db, m, d) && Changing(m.op)
    ensures !Blocked(d.files, m) && Process(d, m).msg.result == Process(db, m).msg.result
  {
    hide Process, Finish, Blocked, Answer;
    var c := FirstAnswer(db, m, d);
    var n := ChangeEffect(c.db, m, c);
    ChangeSettles(c.db, m, c);
    if c.foundIno {
      assert c.db == db by { if c.db != db { NoInodeLeft(db, m); } }
      MarksDoNotBlock(db.files, d.files, m);
    } else if m.named {
      assert PathKnown(d.files, m) by { NewRowKnown(c.db, n, m, MarksUnlinked(c)); }
      KnownIsNotBlocked(d.files, m);
    } else {
      UnnamedIsNotBlocked(d.files, m);
    }
    NextAnswer(d, m);
    CreatingSucceeds(db, d, c.db, m);
  }

  lemma NoInodeLeft(db: Db, m: Msg)
    ensures !HasInode(UnlinkFileDev(db, m).files, m.dev, m.ino)
  {}

  lemma NewRowKnown(db: Db, n: Msg, m: Msg, marked: bool)
    requires m.named && n.named && n.path == m.path
    ensures PathKnown(Marked(LinkFile(db, n), m, marked).files, m)
  {
    var id := FreshId(db.files);
    assert Marked(LinkFile(db, n), m, marked).files[id].path == m.path;
  }

  lemma RenamedAnswer(db: Db, m: Msg, d: Db)
    requires Passed(db, m, d) && m.op == RENAME
    ensures Process(db, m).msg.result == SUCCEED
    ensures Process(d, m).msg.result == if m.named && m.nlink == 1 then ABORT else SUCCEED
  {
    hide Process, Finish, Blocked, PlainRename;
    var c := FirstAnswer(db, m, d);
    if m.named {
      assert !Foreign(db.files, m) && c.db == db by { SourceIsKnown(db.files, m); }
    }
    RenameSecond(c.db, m, c);
    RenameKeepsFitting(c.db, m, c);
    if !(m.named && m.nlink == 1) {
      ManyNamesAreNotBlocked(d.files, m);
      NextAnswer(d, m);
    }
  }

  lemma ManyNamesAreNotBlocked(t: Files, m: Msg)
    requires m.op == RENAME && !(m.named && m.nlink == 1)
    ensures !Blocked(t, m)
  {}

  // The operations that leave the names alone.
  lemma OtherAnswer(db: Db, m: Msg, d: Db)
    requires Passed(db, m, d) && Other(m.op) && m.op !in {UNLINK, DID_UNLINK}
    ensures !Blocked(d.files, m)
    ensures Process(db, m).msg.result != Process(d, m).msg.result <==>
            m.op == CREATE_XATTR && (AttrOf(m) !in db.attrs || Foreign(db.files, m))
  {
    hide Process, Finish, Blocked, Answer;
    var c := FirstAnswer(db, m, d);
    OtherEffect(c.db, m, c);
    OtherNames(c.db, m, MarksUnlinked(c));
    OtherKeepsAgrees(c.db, m, c);
    if c.db == db {
      MarksDoNotBlock(db.files, d.files, m);
    } else {
      NoInodeLeft(db, m);
      NoInodeIsNotBlocked(d.files, m);
    }
    NextAnswer(d, m);
    OtherAnswers(c.db, m, MarksUnlinked(c));
    if c.db != db { ForeignDrops(db, m); }
  }

  lemma ForeignDrops(db: Db, m: Msg)
    ensures AttrOf(m) !in UnlinkFileDev(db, m).attrs
  {
    CheckedAttrs(db, m);
  }

  lemma OtherNames(db: Db, m: Msg, marks: bool)
    requires Other(m.op) && m.op !in {UNLINK, DID_UNLINK}
    ensures var u := OtherDb(db, m, marks).files;
            SameNames(db.files, u)
            && (forall k | k in db.files && db.files[k].path != m.path :: u[k].deleting == db.files[k].deleting)
  {}

  lemma OtherAnswers(db: Db, m: Msg, marks: bool)
    requires Other(m.op) && m.op !in {UNLINK, DID_UNLINK}
    ensures Answer(OtherDb(db, m, marks), m) != Answer(db, m) <==> m.op == CREATE_XATTR && AttrOf(m) !in db.attrs
  {
    var d := OtherDb(db, m, marks);
    OtherNames(db, m, marks);
    SameSearches(db.files, d.files, m.path, m.dev, m.ino);
    SameInodes(db.files, d.files, m.dev, m.ino);
    hide ByPath, HasInode;
  }

  lemma SameInodes(t: Files, u: Files, dev: int, ino: int)
    requires SameNames(t, u)
    ensures HasInode(t, dev, ino) <==> HasInode(u, dev, ino)
  {
    if k :| k in t && t[k].dev == dev && t[k].ino == ino { assert u[k].dev == dev && u[k].ino == ino; }
    if k :| k in u && u[k].dev == dev && u[k].ino == ino { assert t[k].dev == dev && t[k].ino == ino; }
  }

  lemma ConfirmedAnswer(db: Db, m: Msg, d: Db)
    requires Passed(db, m, d) && m.op == DID_UNLINK
    ensures !Blocked(d.files, m) && Process(d, m).msg.result == Process(db, m).msg.result
  {
    hide Process, Finish;
    var c := FirstAnswer(db, m, d);
    OtherKeepsAgrees(c.db, m, c);
    NextAnswer(d, m);
  }

  lemma UnlinkedAnswer(db: Db, m: Msg, d: Db)
    requires Passed(db, m, d) && m.op == UNLINK
    ensures Process(db, m).msg.result == NONE
    ensures Process(d, m).msg.result == if LeavesOther(db.files, m) then ABORT else NONE
  {
    hide Process, Finish, Blocked, Answer, LeavesOther;
    var c := FirstAnswer(db, m, d);
    UnlinkAnswers(c.db, d, m);
    OtherKeepsAgrees(c.db, m, c);
    AbortExactly(d, m);
    if m.named {
      UnlinkedFiles(c);
      if c.db == db {
        LeftBlocks(db.files, d.files, m);
      } else {
        NoInodeLeft(db, m);
        FewerInodes(c.db.files, d.files, m);
        NoInodeIsNotBlocked(d.files, m);
        ForeignIsNotLeft(db.files, m);
      }
    } else {
      UnnamedIsNotBlocked(d.files, m);
      UnnamedLeaves(db.files, m);
    }
    if !Blocked(d.files, m) { NextAnswer(d, m); }
  }

  lemma UnlinkAnswers(a: Db, b: Db, m: Msg)
    requires m.op == UNLINK
    ensures Answer(a, m) == Answer(b, m) == NONE
  {}

  lemma UnnamedLeaves(t: Files, m: Msg)
    requires !m.named
    ensures !LeavesOther(t, m)
  {}

  // The files an unlink leaves.
  lemma UnlinkedFiles(w: Work)
    requires w.msg == w.header && w.msg.op == UNLINK && w.msg.named
    ensures var left := DeleteRange(DeletePath(w.db.files, w.msg.path), w.msg.path);
            Finish(w).db.files == if w.msg.nlink == 1 && w.foundIno then DeleteInode(left, w.msg.dev,
                w.msg.ino) else left
  {
    hide ClearAttrs, ClearUnusedAttrs, DeleteRange, DeletePath, DeleteInode;
    var db0 := UnlinkFile(w.db, w.msg);
    ClearsKeepFiles(w.db.(files := DeletePath(w.db.files, w.msg.path)), w.msg.dev, w.msg.ino);
    ClearsKeepFiles(db0.(files := DeleteRange(db0.files, w.msg.path)), 0, 0);
    var db1 := UnlinkContents(db0, w.msg);
    ClearsKeepFiles(db1.(files := DeleteInode(db1.files, w.msg.dev, w.msg.ino)), w.msg.dev, w.msg.ino);
  }

  lemma LeftBlocks(t: Files, u: Files, m: Msg)
    requires Coherent(t) && Agrees(t, m) && m.named && m.op == UNLINK && !Foreign(t, m)
    requires var left := DeleteRange(DeletePath(t, m.path), m.path);
             u == if m.nlink == 1 && HasInode(t, m.dev, m.ino) then DeleteInode(left, m.dev, m.ino) else left
    ensures Blocked(u, m) <==> LeavesOther(t, m)
  {
    var left := DeleteRange(DeletePath(t, m.path), m.path);
    assert forall k | k in u :: k in left && u[k] == left[k] == t[k] && u[k].path != m.path;
    assert ByPath(u, m.path).None? && ByPathAndInode(u, m.path, m.dev, m.ino).None?;
    if m.nlink == 1 { assert ByInode(u, m.dev, m.ino).None?; }
  }

  lemma FewerInodes(t: Files, u: Files, m: Msg)
    requires !HasInode(t, m.dev, m.ino)
    requires var left := DeleteRange(DeletePath(t, m.path), m.path);
             u == left || u == DeleteInode(left, m.dev, m.ino)
    ensures !HasInode(u, m.dev, m.ino)
  {
    assert forall k | k in u :: k in t && u[k] == t[k];
  }

  lemma ForeignIsNotLeft(t: Files, m: Msg)
    requires Coherent(t) && Foreign(t, m)
    ensures !LeavesOther(t, m)
  {
    var k :| k in t && t[k].dev == m.dev && t[k].ino == m.ino && !SameKind(t[k].mode, m.mode);
    LikeHit(t, k);
    var left := DeleteRange(DeletePath(t, m.path), m.path);
    assert forall j | j in left :: left[j] == t[j];
  }

  // A repeated request is answered as it was the first time, unless it is one of three: a
  // rename of a single-link file is refused, an exclusive creation of an attribute finds its own
  // attribute, and an unlink of one of several names now finds the inode under another.
  lemma SecondAnswerDiffers(db: Db, m: Msg)
    requires Coherent(db.files) && Sendable(db.files, m)
    ensures Process(Process(db, m).db, m).msg.result != Process(db, m).msg.result <==> AnswersDiffer(db, m)
  {
    var d := Process(db, m).db;
    hide Process, Blocked, LeavesOther;
    if Blocked(db.files, m) {
      RefusedTwice(db, m);
    } else if Bare(db.files, m) {
      BareChangesNothing(db, m);
    } else if Creating(m.op) {
      CreatedAnswer(db, m, d);
    } else if Changing(m.op) {
      ChangedAnswer(db, m, d);
    } else if m.op == RENAME {
      RenamedAnswer(db, m, d);
    } else if m.op == UNLINK {
      UnlinkedAnswer(db, m, d);
    } else if m.op == DID_UNLINK {
      ConfirmedAnswer(db, m, d);
    } else {
      OtherAnswer(db, m, d);
    }
  }

  lemma RefusedTwice(db: Db, m: Msg)
    requires Sendable(db.files, m) && Blocked(db.files, m)
    ensures Process(db, m).db == db
  {
    hide Front, Blocked;
    if Bare(db.files, m) {
      BareChangesNothing(db, m);
    } else {
      RefusedExactly(db, m);
      FrontOfAgreeing(db, m);
    }
  }
}
