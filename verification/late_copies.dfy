// Copies of a request that come late: between the first and the next one the server has carried
// out other clients' requests, each on a part of its own.

module LateCopies {
  import opened PathText
  import opened FileTable
  import opened ServerOp
  import opened OpFacts
  import opened Agreeing
  import opened Attributes
  import opened Resending
  import opened SecondAnswer
  import opened WrapperScripts
  import opened VirtualRoot
  import opened Footprints

  // The part holds all that the request can reach.
  predicate Spans(foot: Foot, m: Msg)
  {
    && Inode(m.dev, m.ino) in foot.nodes && Covers(foot, RowOf(m).path)
    && (m.named && m.op in {UNLINK, RENAME} ==> m.path in foot.trees)
    && (m.named && m.op == RENAME ==> m.extra in foot.trees)
  }

  // ----- a request stays in its part -----

  ghost predicate Stays(t: Files, u: Files, foot: Foot) { Only(t, u, foot) && Tidy(u, foot) }

  lemma StaysTwice(t: Files, u: Files, v: Files, foot: Foot)
    requires Stays(t, u, foot) && Stays(u, v, foot)
    ensures Stays(t, v, foot)
  {
    hide Covers;
  }

  lemma FewerStays(t: Files, u: Files, foot: Foot)
    requires Tidy(t, foot) && Survive(t, u) && forall k | k in t && k !in u :: CoversRow(foot, t[k])
    ensures Stays(t, u, foot)
  {
    hide Covers;
  }

  lemma RowsGo(t: Files, m: Msg, foot: Foot)
    requires Tidy(t, foot) && Inode(m.dev, m.ino) in foot.nodes
    ensures Stays(t, DeleteInode(t, m.dev, m.ino), foot)
    ensures Covers(foot, m.path) ==> Stays(t, DeletePath(t, m.path), foot)
    ensures m.path in foot.trees ==> Stays(t, DeleteRange(t, m.path), foot)
  {
    assert forall k | k in t && t[k].dev == m.dev && t[k].ino == m.ino :: NodeOf(t[k]) in foot.nodes;
    FewerStays(t, DeleteInode(t, m.dev, m.ino), foot);
    if Covers(foot, m.path) { FewerStays(t, DeletePath(t, m.path), foot); }
    if m.path in foot.trees {
      DeleteRangeIsSubtree(t, m.path);
      FewerStays(t, DeleteRange(t, m.path), foot);
    }
  }

  lemma LinkStays(db: Db, m: Msg, r: Row, foot: Foot)
    requires Tidy(db.files, foot) && Spans(foot, m) && m.named && Fits(r, m) && r.path == m.path
    ensures Stays(db.files, Relink(db, m, r).files, foot)
  {
    hide Covers, Tidy, Stays;
    var g := DeletePath(db.files, m.path);
    RowsGo(db.files, m, foot);
    assert Tidy(g, foot) by { assert Stays(db.files, g, foot); StaysIsTidy(db.files, g, foot); }
    InsertActs(g, foot, r);
    ActsStays(g, Insert(g, r), foot, At(g, foot)[FreshId(g) := r]);
    StaysTwice(db.files, g, Insert(g, r), foot);
  }

  lemma StaysIsTidy(t: Files, u: Files, foot: Foot)
    requires Stays(t, u, foot)
    ensures Tidy(u, foot)
  {}

  lemma ActsStays(t: Files, u: Files, foot: Foot, part: Files)
    requires Acts(t, u, foot, part)
    ensures Stays(t, u, foot)
  {}

  lemma MakeStays(db: Db, m: Msg, foot: Foot)
    requires Tidy(db.files, foot) && Spans(foot, m)
    ensures Stays(db.files, Made(db, m).files, foot)
  {
    hide Covers, Tidy, Stays, Only;
    var t := db.files;
    var f := if m.named then DeletePath(t, m.path) else t;
    var g := DeleteInode(f, m.dev, m.ino);
    RowsGo(t, m, foot);
    NothingStays(t, foot);
    StaysIsTidy(t, f, foot);
    RowsGo(f, m, foot);
    StaysIsTidy(f, g, foot);
    InsertActs(g, foot, RowOf(m));
    ActsStays(g, Insert(g, RowOf(m)), foot, At(g, foot)[FreshId(g) := RowOf(m)]);
    StaysTwice(t, f, g, foot);
    StaysTwice(t, g, Insert(g, RowOf(m)), foot);
  }

  lemma NothingStays(t: Files, foot: Foot)
    requires Tidy(t, foot)
    ensures Stays(t, t, foot)
  {}

  lemma ChangeStays(db: Db, m: Msg, w: Work, foot: Foot)
    requires Settled(db, m) && Clean(db, m, w) && Changing(m.op) && Tidy(db.files, foot) && Spans(foot, m)
    ensures Stays(db.files, Finish(w).db.files, foot)
  {
    var c := ChangeEffect(db, m, w);
    hide Covers, Tidy, Stays, Only, Finish, Settled, Clean, At, SetMeta, SetMark;
    var t := db.files;
    var u := Changed(w).db.files;
    var n := Inode(m.dev, m.ino);
    if w.foundIno {
      ChangeActs(t, foot, n, Meta(c.uid, c.gid, c.mode, c.rdev));
      ActsStays(t, u, foot, SetMeta(At(t, foot), n.dev, n.ino, c.uid, c.gid, c.mode, c.rdev));
    } else {
      assert NodeOf(RowOf(c)) == n && RowOf(c).path == RowOf(m).path;
      InsertActs(t, foot, RowOf(c));
      ActsStays(t, u, foot, At(t, foot)[FreshId(t) := RowOf(c)]);
    }
    StaysIsTidy(t, u, foot);
    MarkStays(u, m, m.client, foot);
    StaysTwice(t, u, Finish(w).db.files, foot);
  }

  lemma MarkStays(t: Files, m: Msg, mark: int, foot: Foot)
    requires Tidy(t, foot) && Spans(foot, m)
    ensures Stays(t, t, foot)
    ensures m.named ==> Stays(t, SetMark(t, m.path, mark), foot) && Stays(t, DeletePathMarked(t, m.path, mark), foot)
  {
    NothingStays(t, foot);
    if m.named {
      hide Covers, Tidy;
      MarkActs(t, foot, m.path, mark);
      DeleteActs(t, foot, m.path, mark);
    }
  }

  lemma UnlinkStays(db: Db, m: Msg, w: Work, foot: Foot)
    requires Clean(db, m, w) && m.op == UNLINK && Tidy(db.files, foot) && Spans(foot, m)
    ensures Stays(db.files, Finish(w).db.files, foot)
  {
    var t := db.files;
    UnlinkedRows(w);
    hide Covers, Tidy, Stays, Only, Finish, Clean, DeletePath, DeleteRange, DeleteInode;
    var f := if m.named then DeletePath(t, m.path) else t;
    var g := if m.named then DeleteRange(f, m.path) else f;
    NothingStays(t, foot);
    RowsGo(t, m, foot);
    StaysIsTidy(t, f, foot);
    NothingStays(f, foot);
    RowsGo(f, m, foot);
    StaysIsTidy(f, g, foot);
    RowsGo(g, m, foot);
    StaysTwice(t, f, g, foot);
    StaysTwice(t, g, DeleteInode(g, m.dev, m.ino), foot);
  }

  lemma UnlinkedRows(w: Work)
    requires w.msg == w.header && w.msg.op == UNLINK
    ensures var left := if w.msg.named then DeleteRange(DeletePath(w.db.files, w.msg.path), w.msg.path) else w.db.files;
            Finish(w).db.files == if w.msg.nlink == 1 && w.foundIno
                                  then DeleteInode(left, w.msg.dev, w.msg.ino) else left
  {
    if w.msg.named { UnlinkedFiles(w); }
  }

  lemma RenameStays(db: Db, m: Msg, w: Work, foot: Foot)
    requires Clean(db, m, w) && m.op == RENAME && Agrees(db.files, m) && (m.named ==> PlainRename(db.files, m))
    requires Tidy(db.files, foot) && Spans(foot, m)
    ensures Stays(db.files, Finish(w).db.files, foot)
  {
    RenamedFiles(db, m, w);
    hide Finish, Clean, PlainRename, Agrees, MoveRows, Stays, Tidy, Only, Covers;
    if m.named {
      MoveActs(db.files, foot, m.extra, m.path);
      ActsStays(db.files, Finish(w).db.files, foot, MoveRows(At(db.files, foot), m.extra, m.path));
    } else {
      NothingStays(db.files, foot);
    }
  }

  lemma RenamedFiles(db: Db, m: Msg, w: Work)
    requires Clean(db, m, w) && m.op == RENAME && Agrees(db.files, m) && (m.named ==> PlainRename(db.files, m))
    ensures Finish(w).db.files == if m.named then MoveRows(db.files, m.extra, m.path) else db.files
  {
    hide PlainRename, MoveRows, Agrees;
    if m.named { RenameEffect(db.files, m); }
  }

  lemma OtherStays(db: Db, m: Msg, w: Work, foot: Foot)
    requires Clean(db, m, w) && Other(m.op) && m.op != UNLINK && (m.op == DID_UNLINK ==> m.named)
    requires Tidy(db.files, foot) && Spans(foot, m)
    ensures Stays(db.files, Finish(w).db.files, foot)
  {
    OtherEffect(db, m, w);
    OtherDbFiles(db, m, MarksUnlinked(w));
    hide Clean, Spans, Tidy, Finish, Stays;
    MarkStays(db.files, m, m.client, foot);
    MarkStays(db.files, m, 0, foot);
  }

  lemma OtherDbFiles(db: Db, m: Msg, marks: bool)
    requires Other(m.op) && m.op != UNLINK && (m.op == DID_UNLINK ==> m.named)
    ensures var u := OtherDb(db, m, marks).files;
            || u == db.files
            || (m.named && u in {SetMark(db.files, m.path, m.client), SetMark(db.files, m.path, 0),
                                 DeletePathMarked(db.files, m.path, m.client)})
  {}

  // A request a client may send changes nothing outside its part.
  lemma RequestStays(db: Db, m: Msg, foot: Foot)
    requires Coherent(db.files) && Sendable(db.files, m) && Spans(foot, m) && Tidy(db.files, foot)
    ensures Stays(db.files, Process(db, m).db.files, foot)
  {
    hide Process, Front, CheckIno, Refused, Finish, Covers, Tidy, Only, Stays, Spans, PlainRename;
    NothingStays(db.files, foot);
    if Bare(db.files, m) {
      BareChangesNothing(db, m);
    } else if Refused(Front(db, m)) {
      RefusedHasInode(db, m);
    } else {
      var c := CheckIno(Front(db, m));
      FirstPass(db, m);
      ProcessedBy(db, m);
      ChecksOfAgreeing(db, m);
      CheckStays(db, m, foot);
      StaysIsTidy(db.files, c.db.files, foot);
      if m.op in {LINK, SYMLINK} {
        LinkEffect(c.db, m, c);
        FinishLink(c);
        LinkStays(c.db, m, LinkedRow(c), foot);
      } else if Creating(m.op) {
        MadeIs(c.db, m, c);
        MakeStays(c.db, m, foot);
      } else if Changing(m.op) {
        ChangeStays(c.db, m, c, foot);
      } else if m.op == RENAME {
        if m.named { SourceIsKnown(db.files, m); }
        RenameStays(c.db, m, c, foot);
      } else if m.op == UNLINK {
        UnlinkStays(c.db, m, c, foot);
      } else {
        OtherStays(c.db, m, c, foot);
      }
      StaysTwice(db.files, c.db.files, Finish(c).db.files, foot);
    }
  }

  lemma CheckStays(db: Db, m: Msg, foot: Foot)
    requires Spans(foot, m) && Tidy(db.files, foot)
    ensures Stays(db.files, UnlinkFileDev(db, m).files, foot)
  {
    hide Covers;
    RowsGo(db.files, m, foot);
    ClearsKeepFiles(db.(files := DeleteInode(db.files, m.dev, m.ino)), m.dev, m.ino);
  }

  // ----- what one delivery leaves for the next -----

  // The row is the only one of its path and inode.
  predicate Sole(t: Files, m: Msg, k: nat)
  {
    && k in t && t[k].dev == m.dev && t[k].ino == m.ino && t[k].path == RowOf(m).path
    && forall j | j in t && j != k :: !(m.named && t[j].path == m.path) && !(t[j].dev == m.dev && t[j].ino == m.ino)
  }

  // The path's only row, which linking puts back as it is.
  predicate Linkable(t: Files, m: Msg, k: nat)
  {
    && k in t && t[k].path == m.path && t[k].deleting == 0 && (m.op == SYMLINK ==> t[k] == RowOf(m))
    && forall j | j in t && j != k :: t[j].path != m.path
  }

  ghost predicate Remade(t: Files, m: Msg)
  {
    exists k :: Sole(t, m, k) && t[k] == RowOf(m)
  }

  // The rows are as the request wants them.
  ghost predicate Carried(t: Files, m: Msg)
  {
    match m.op
    case LINK => m.named && exists k :: Linkable(t, m, k)
    case SYMLINK => m.named && exists k :: Linkable(t, m, k)
    case MKDIR => Remade(t, m)
    case MKNOD => Remade(t, m)
    case CREAT => PathKnown(t, m) || Remade(t, m)
    case RENAME => m.named ==> forall k | k in t :: t[k].path != m.extra && !Below(m.extra, t[k].path)
    case UNLINK =>
      && (m.named ==> forall k | k in t :: t[k].path != m.path && !Below(m.path, t[k].path))
      && (m.nlink == 1 ==> !HasInode(t, m.dev, m.ino))
    case MAY_UNLINK => m.named ==> forall k | k in t && t[k].path == m.path :: t[k].deleting == m.client
    case CANCEL_UNLINK => m.named ==> forall k | k in t && t[k].path == m.path :: t[k].deleting == 0
    case DID_UNLINK => m.named && forall k | k in t && t[k].path == m.path :: t[k].deleting != m.client
    case _ => Changing(m.op) ==> HasInode(t, m.dev, m.ino) && Changes(t, m)
  }

  ghost predicate Changes(t: Files, m: Msg)
  {
    forall k | k in t && t[k].dev == m.dev && t[k].ino == m.ino ::
      if m.op in {CHMOD, FCHMOD} then t[k].mode.perm == m.mode.perm else t[k].uid == m.uid && t[k].gid == m.gid
  }

  // The request has been refused and will be again, or has been carried out.
  ghost predicate Settles(t: Files, m: Msg)
  {
    Agrees(t, m) && (Blocked(t, m) || ((m.op == DID_UNLINK || Fitting(t, m)) && Carried(t, m)))
  }

  // That can be told from the part alone.
  lemma SettlesIsLocal(t: Files, u: Files, m: Msg, foot: Foot)
    requires Settles(t, m) && Spans(foot, m) && At(t, foot) == At(u, foot)
    ensures Settles(u, m) && (Blocked(t, m) <==> Blocked(u, m))
  {
    SameRows(t, u, m, foot);
    hide At, Covers, Spans, Blocked, Carried;
    CarriedIsLocal(t, u, m);
    SameBlocked(t, u, m);
  }

  // Rows the request can see.
  predicate Near(r: Row, m: Msg)
  {
    || (r.dev == m.dev && r.ino == m.ino) || r.path == RowOf(m).path
    || (m.named && m.op in {UNLINK, RENAME} && Below(m.path, r.path))
    || (m.named && m.op == RENAME && (r.path == m.extra || Below(m.extra, r.path)))
  }

  ghost predicate SameNear(t: Files, u: Files, m: Msg)
  {
    && (forall k | k in t && Near(t[k], m) :: k in u && u[k] == t[k])
    && (forall k | k in u && Near(u[k], m) :: k in t && u[k] == t[k])
  }

  lemma SameRows(t: Files, u: Files, m: Msg, foot: Foot)
    requires Spans(foot, m) && At(t, foot) == At(u, foot)
    ensures SameNear(t, u, m)
  {
    forall r: Row | Near(r, m)
      ensures CoversRow(foot, r)
    {
      if r.dev == m.dev && r.ino == m.ino { assert NodeOf(r) in foot.nodes; }
    }
    forall k | k in t && Near(t[k], m)
      ensures k in u && u[k] == t[k]
    {
      assert k in At(t, foot);
    }
    forall k | k in u && Near(u[k], m)
      ensures k in t && u[k] == t[k]
    {
      assert k in At(u, foot);
    }
  }

  lemma NearKnown(t: Files, u: Files, m: Msg)
    requires SameNear(t, u, m)
    ensures HasInode(t, m.dev, m.ino) <==> HasInode(u, m.dev, m.ino)
    ensures PathKnown(t, m) <==> PathKnown(u, m)
    ensures forall k :: Sole(t, m, k) ==> Sole(u, m, k) && u[k] == t[k]
    ensures m.named ==> forall k :: Linkable(t, m, k) ==> Linkable(u, m, k)
  {}

  lemma CarriedIsLocal(t: Files, u: Files, m: Msg)
    requires SameNear(t, u, m)
    ensures Carried(t, m) ==> Carried(u, m)
    ensures Agrees(t, m) ==> Agrees(u, m)
    ensures Fitting(t, m) ==> Fitting(u, m)
  {
    NearKnown(t, u, m);
    hide Sole, Linkable, HasInode, HasPath;
  }

  lemma SameBlocked(t: Files, u: Files, m: Msg)
    requires SameNear(t, u, m) && Agrees(t, m)
    ensures Blocked(t, m) <==> Blocked(u, m)
  {
    if m.named {
      SameFirst(t, u, m);
    }
  }

  lemma SameFirst(t: Files, u: Files, m: Msg)
    requires SameNear(t, u, m) && m.named
    ensures ByPath(t, m.path) == ByPath(u, m.path) && ByInode(t, m.dev, m.ino) == ByInode(u, m.dev, m.ino)
    ensures ByPathAndInode(t, m.path, m.dev, m.ino) == ByPathAndInode(u, m.path, m.dev, m.ino)
  {}

  // The first delivery settles the request.
  lemma FirstSettles(db: Db, m: Msg)
    requires Coherent(db.files) && Agrees(db.files, m) && Sendable(db.files, m)
    ensures Settles(Process(db, m).db.files, m)
  {
    hide Process, Front, CheckIno, Refused, Finish, PlainRename, Carried, Blocked;
    RefusedExactly(db, m);
    if Refused(Front(db, m)) {
      RefusedHasInode(db, m);
    } else {
      var c := CheckIno(Front(db, m));
      FirstPass(db, m);
      ProcessedBy(db, m);
      ChecksOfAgreeing(db, m);
      if m.op in {LINK, SYMLINK} {
        LinkCarries(c.db, m, c);
      } else if Creating(m.op) {
        MakeCarries(c.db, m, c);
      } else if Changing(m.op) {
        ChangeCarries(c.db, m, c);
      } else if m.op == RENAME {
        if m.named { SourceIsKnown(db.files, m); }
        RenameCarries(c.db, m, c);
      } else {
        OtherKeepsAgrees(c.db, m, c);
        OtherCarries(c.db, m, c);
      }
    }
  }

  lemma LinkCarries(db: Db, m: Msg, w: Work)
    requires Clean(db, m, w) && Settled(db, m) && m.op in {LINK, SYMLINK} && m.named
    ensures Settled(Finish(w).db, m) && Carried(Finish(w).db.files, m)
  {
    FinishLink(w);
    LinkSettles(db, m, w);
    LinkEffect(db, m, w);
    var r := LinkedRow(w);
    assert m.op == SYMLINK ==> r == RowOf(m);
    var g := DeletePath(db.files, m.path);
    assert Linkable(Insert(g, r), m, FreshId(g));
  }

  lemma MakeCarries(db: Db, m: Msg, w: Work)
    requires Clean(db, m, w) && Settled(db, m) && m.op in {CREAT, MKDIR, MKNOD}
    ensures Settled(Finish(w).db, m) && Carried(Finish(w).db.files, m)
  {
    MadeIs(db, m, w);
    MadeSettles(db, m);
    if !(m.op == CREAT && PathKnown(db.files, m)) {
      var f := if m.named then DeletePath(db.files, m.path) else db.files;
      var g := DeleteInode(f, m.dev, m.ino);
      assert Sole(Insert(g, RowOf(m)), m, FreshId(g));
    }
  }

  lemma ChangeCarries(db: Db, m: Msg, w: Work)
    requires Clean(db, m, w) && Settled(db, m) && Changing(m.op)
    ensures Settled(Finish(w).db, m) && Carried(Finish(w).db.files, m)
  {
    ChangeSettles(db, m, w);
    var c := ChangeEffect(db, m, w);
  }

  lemma RenameCarries(db: Db, m: Msg, w: Work)
    requires Clean(db, m, w) && Fitting(db.files, m) && m.op == RENAME
    requires m.named ==> PlainRename(db.files, m)
    ensures Fitting(Finish(w).db.files, m) && Carried(Finish(w).db.files, m)
  {
    RenameKeepsFitting(db, m, w);
    if m.named {
      RenameEffect(db.files, m);
      MovedRows(db.files, m);
    }
  }

  lemma OtherCarries(db: Db, m: Msg, w: Work)
    requires Clean(db, m, w) && Agrees(db.files, m) && Other(m.op) && (m.op == DID_UNLINK ==> m.named)
    ensures Carried(Finish(w).db.files, m)
  {
    if m.op == UNLINK {
      UnlinkedRows(w);
      DeleteRangeIsSubtree(DeletePath(db.files, m.path), m.path);
    } else {
      OtherEffect(db, m, w);
    }
  }

  // ----- one more copy -----

  // The table as it was, except that the row the request made may have been put back under a
  // later number.
  ghost predicate Renewed(t: Files, u: Files, m: Msg)
  {
    u == t || exists k :: k in t && t[k].dev == m.dev && t[k].ino == m.ino && u == Insert(t - {k}, t[k])
  }

  function RowsOf(t: Files): set<Row> { set k | k in t :: t[k] }

  lemma PartRows(t: Files, foot: Foot)
    ensures RowsOf(At(t, foot)) == set r | r in RowsOf(t) && CoversRow(foot, r)
  {
    hide CoversRow;
    forall k | k in t && CoversRow(foot, t[k])
      ensures t[k] in RowsOf(At(t, foot))
    {
      assert At(t, foot)[k] == t[k];
    }
  }

  // u is t with row k under a later number.
  lemma PutBack(t: Files, k: nat)
    requires k in t
    ensures var u := Insert(t - {k}, t[k]);
            RowsOf(u) == RowsOf(t) && (Coherent(t) ==> Coherent(u))
  {
    var id := FreshId(t - {k});
    var u := Insert(t - {k}, t[k]);
    assert u[id] == t[k];
    forall j | j in t
      ensures t[j] in RowsOf(u)
    {
      assert u[if j == k then id else j] == t[j];
    }
    forall i, j | i in u && j in u && Coherent(t) && SameInode(u[i], u[j])
      ensures SameMeta(u[i], u[j])
    {
      assert SameInode(t[if i == id then k else i], t[if j == id then k else j]);
    }
  }

  lemma PutBackStays(t: Files, k: nat, foot: Foot)
    requires k in t && Tidy(t, foot) && NodeOf(t[k]) in foot.nodes
    ensures Stays(t, Insert(t - {k}, t[k]), foot)
  {
    hide Covers;
    var u := Insert(t - {k}, t[k]);
    assert u[FreshId(t - {k})] == t[k];
  }

  lemma RenewedIsSame(t: Files, u: Files, m: Msg, foot: Foot)
    requires Renewed(t, u, m) && Spans(foot, m) && Tidy(t, foot)
    ensures Stays(t, u, foot) && RowsOf(u) == RowsOf(t) && RowsOf(At(u, foot)) == RowsOf(At(t, foot))
    ensures Coherent(t) ==> Coherent(u)
  {
    hide RowsOf, Tidy, Stays, Coherent, Insert, At, Covers;
    PartRows(t, foot);
    PartRows(u, foot);
    NothingStays(t, foot);
    if u != t {
      var k :| k in t && t[k].dev == m.dev && t[k].ino == m.ino && u == Insert(t - {k}, t[k]);
      assert NodeOf(t[k]) in foot.nodes;
      PutBack(t, k);
      PutBackStays(t, k, foot);
    }
  }

  lemma RenewedSettles(t: Files, k: nat, m: Msg)
    requires Agrees(t, m) && Fitting(t, m) && Carried(t, m) && Creating(m.op) && k in t
    ensures var u := Insert(t - {k}, t[k]);
            Agrees(u, m) && Fitting(u, m) && Carried(u, m) && !Blocked(u, m)
  {
    var u := Insert(t - {k}, t[k]);
    PutBackAgrees(t, k, m);
    PutBackCarries(t, k, m);
    hide Blocked, Agrees, Fitting;
    if m.named {
      CarriedIsKnown(u, m);
      KnownIsNotBlocked(u, m);
    } else {
      UnnamedIsNotBlocked(u, m);
    }
  }

  lemma CarriedIsKnown(t: Files, m: Msg)
    requires Carried(t, m) && Creating(m.op) && m.named
    ensures PathKnown(t, m)
  {}

  lemma PutBackAgrees(t: Files, k: nat, m: Msg)
    requires Agrees(t, m) && Fitting(t, m) && k in t
    ensures var u := Insert(t - {k}, t[k]); Agrees(u, m) && Fitting(u, m)
  {
    var id := FreshId(t - {k});
    var u := Insert(t - {k}, t[k]);
    assert forall j | j in u :: u[j] == t[if j == id then k else j];
  }

  lemma PutBackCarries(t: Files, k: nat, m: Msg)
    requires Carried(t, m) && Creating(m.op) && k in t
    ensures Carried(Insert(t - {k}, t[k]), m)
  {
    var id := FreshId(t - {k});
    var u := Insert(t - {k}, t[k]);
    assert u[id] == t[k];
    forall j | j in t
      ensures t[j].path == m.path ==> HasPath(u, m.path)
      ensures Linkable(t, m, j) && m.named ==> Linkable(u, m, if j == k then id else j)
      ensures Sole(t, m, j) && t[j] == RowOf(m) ==> Remade(u, m)
    {
      var n := if j == k then id else j;
      assert u[n] == t[j];
      if Sole(t, m, j) { assert Sole(u, m, n); }
    }
  }

  lemma LinkRenews(db: Db, m: Msg, w: Work)
    requires Clean(db, m, w) && Settled(db, m) && m.op in {LINK, SYMLINK} && Carried(db.files, m)
    ensures exists k :: k in db.files && Fits(db.files[k], m)
                        && Finish(w).db.files == Insert(db.files - {k}, db.files[k])
  {
    FinishLink(w);
    LinkEffect(db, m, w);
    var k :| Linkable(db.files, m, k);
    assert PathKnown(db.files, m);
    var j :| IsHit(db.files, w, j);
    assert j == k;
    assert LinkedRow(w) == db.files[k];
    assert DeletePath(db.files, m.path) == db.files - {k};
  }

  lemma MakeRenews(db: Db, m: Msg, w: Work)
    requires Clean(db, m, w) && Settled(db, m) && m.op in {CREAT, MKDIR, MKNOD} && Carried(db.files, m)
    ensures Finish(w).db.files == db.files
            || exists k :: k in db.files && Fits(db.files[k], m)
                           && Finish(w).db.files == Insert(db.files - {k}, db.files[k])
  {
    MadeIs(db, m, w);
    var t := db.files;
    if !(m.op == CREAT && PathKnown(t, m)) {
      var k :| Sole(t, m, k) && t[k] == RowOf(m);
      var f := if m.named then DeletePath(t, m.path) else t;
      assert DeleteInode(f, m.dev, m.ino) == t - {k};
    }
  }

  lemma ChangeRenews(db: Db, m: Msg, w: Work)
    requires Clean(db, m, w) && Settled(db, m) && Changing(m.op) && Carried(db.files, m)
    ensures Finish(w).db.files == db.files
  {
    var c := ChangeEffect(db, m, w);
    var k :| IsHit(db.files, w, k);
    LikeHit(db.files, k);
    UpdateTwice(db.files, c);
  }

  lemma RenameRenews(db: Db, m: Msg, w: Work)
    requires Clean(db, m, w) && Agrees(db.files, m) && m.op == RENAME && Carried(db.files, m)
    ensures Finish(w).db.files == db.files
  {
    if m.named {
      RenameAgain(db.files, m.extra, m.path);
      assert SetInode(db.files, m.path, m.dev, m.ino) == db.files;
    }
  }

  lemma OtherRenews(db: Db, m: Msg, w: Work)
    requires Clean(db, m, w) && Agrees(db.files, m) && Other(m.op) && Carried(db.files, m)
    ensures Finish(w).db.files == db.files
  {
    var t := db.files;
    if m.op == UNLINK {
      UnlinkedRows(w);
      if m.named {
        assert DeletePath(t, m.path) == t;
        DeleteRangeIsSubtree(t, m.path);
        assert DeleteRange(t, m.path) == t;
      }
    } else {
      OtherEffect(db, m, w);
      if m.named {
        assert m.op == DID_UNLINK ==> DeletePathMarked(t, m.path, m.client) == t;
        assert m.op == CANCEL_UNLINK ==> SetMark(t, m.path, 0) == t;
        assert m.op == MAY_UNLINK || MarksUnlinked(w) ==> SetMark(t, m.path, m.client) == t;
      }
    }
  }

  // A copy that meets what the first delivery left changes nothing but that row's number.
  lemma CopyRenews(db: Db, m: Msg)
    requires Coherent(db.files) && Settles(db.files, m)
    ensures var v := Process(db, m).db.files;
            Renewed(db.files, v, m) && Settles(v, m) && (Blocked(v, m) <==> Blocked(db.files, m))
  {
    hide Process, Front, Refused, Finish, Carried, Blocked;
    RefusedExactly(db, m);
    if Refused(Front(db, m)) {
      RefusedHasInode(db, m);
    } else {
      SecondFront(db, m);
      var w := Front(db, m);
      if m.op in {LINK, SYMLINK} {
        LinkRenews(db, m, w);
        var k :| k in db.files && Fits(db.files[k], m) && Finish(w).db.files == Insert(db.files - {k}, db.files[k]);
        RenewedSettles(db.files, k, m);
      } else if Creating(m.op) {
        MakeRenews(db, m, w);
        if Finish(w).db.files != db.files {
          var k :| k in db.files && Fits(db.files[k], m) && Finish(w).db.files == Insert(db.files - {k}, db.files[k]);
          RenewedSettles(db.files, k, m);
        }
      } else if Changing(m.op) {
        ChangeRenews(db, m, w);
      } else if m.op == RENAME {
        RenameRenews(db, m, w);
      } else {
        OtherRenews(db, m, w);
      }
    }
  }

  // Its answer.
  lemma CopyAnswer(db: Db, m: Msg)
    requires Settles(db.files, m)
    ensures Process(db, m).msg.result == if Blocked(db.files, m) then ABORT else Answer(db, m)
  {
    hide Process, Carried, Blocked, Fitting, Agrees, Answer;
    AbortExactly(db, m);
    if !Blocked(db.files, m) { NextAnswer(db, m); }
  }

  predicate OnAttrs(op: Op) { op in {GET_XATTR, LIST_XATTR, CREATE_XATTR, REPLACE_XATTR, SET_XATTR, REMOVE_XATTR} }

  lemma SameAnswer(a: Db, b: Db, m: Msg, foot: Foot)
    requires Spans(foot, m) && !OnAttrs(m.op) && RowsOf(At(a.files, foot)) == RowsOf(At(b.files, foot))
    ensures Answer(a, m) == Answer(b, m)
  {
    KnownByRows(a.files, m, foot);
    KnownByRows(b.files, m, foot);
    hide Covers, Spans, At, RowsOf;
  }

  lemma KnownByRows(t: Files, m: Msg, foot: Foot)
    requires Spans(foot, m)
    ensures HasInode(t, m.dev, m.ino) <==> exists r :: r in RowsOf(At(t, foot)) && r.dev == m.dev && r.ino == m.ino
    ensures m.named ==> (HasPath(t, m.path) <==> exists r :: r in RowsOf(At(t, foot)) && r.path == m.path)
  {
    PartRows(t, foot);
    hide Covers, At;
    assert forall k | k in t && t[k].dev == m.dev && t[k].ino == m.ino :: NodeOf(t[k]) in foot.nodes;
    assert forall k | k in t :: t[k] in RowsOf(t);
  }

  // ----- whole runs -----

  // After the first delivery: another copy of the request, or another request in a part of its own.
  datatype Event = Copy | Theirs(msg: Msg, part: Foot)

  function Taken(m: Msg, e: Event): Msg
  {
    match e case Copy => m case Theirs(o, _) => o
  }

  function Played(db: Db, m: Msg, es: seq<Event>): Db
  {
    if es == [] then db
    else
      var n := |es| - 1;
      Process(Played(db, m, es[..n]), Taken(m, es[n])).db
  }

  ghost predicate AllApart(db: Db, m: Msg, es: seq<Event>, mine: Foot)
  {
    forall i | 0 <= i < |es| && es[i].Theirs? ::
      var t := Played(db, m, es[..i]).files;
      Sendable(t, es[i].msg) && Spans(es[i].part, es[i].msg) && Tidy(t, es[i].part) && Apart(es[i].part, mine)
  }

  // While others work apart from it, the request stays settled.
  ghost predicate Resting(t: Files, d: Files, m: Msg, mine: Foot)
  {
    && Coherent(t) && Settles(t, m) && Tidy(t, mine)
    && RowsOf(At(t, mine)) == RowsOf(At(d, mine)) && (Blocked(t, m) <==> Blocked(d, m))
  }

  lemma OtherRests(db: Db, d: Files, m: Msg, mine: Foot, o: Msg, part: Foot)
    requires Resting(db.files, d, m, mine) && Spans(mine, m)
    requires Sendable(db.files, o) && Spans(part, o) && Tidy(db.files, part) && Apart(part, mine)
    ensures Resting(Process(db, o).db.files, d, m, mine)
  {
    hide Process, Sendable, Spans, Settles, Blocked, Covers, Tidy, Apart, At, Only, Coherent;
    var u := Process(db, o).db.files;
    RequestStays(db, o, part);
    OpKeepsCoherence(db, o) by { SendableIsProper(db.files, o); }
    OtherPartStays(db.files, u, part, mine);
    SettlesIsLocal(db.files, u, m, mine);
  }

  lemma SendableIsProper(t: Files, m: Msg)
    requires Sendable(t, m)
    ensures Proper(t, m)
  {}

  lemma CopyRests(db: Db, d: Files, m: Msg, mine: Foot)
    requires Resting(db.files, d, m, mine) && Spans(mine, m)
    ensures Resting(Process(db, m).db.files, d, m, mine)
  {
    hide Process, Blocked, Spans, Settles, Tidy, Renewed, RowsOf, At, Only, Coherent;
    CopyRenews(db, m);
    RenewedIsSame(db.files, Process(db, m).db.files, m, mine);
    StaysIsTidy(db.files, Process(db, m).db.files, mine);
  }

  lemma {:induction false} PlayRests(db: Db, m: Msg, es: seq<Event>, mine: Foot)
    requires Resting(db.files, db.files, m, mine) && Spans(mine, m) && AllApart(db, m, es, mine)
    ensures Resting(Played(db, m, es).files, db.files, m, mine)
  {
    hide Process, Resting, Spans, Sendable, Tidy, Apart;
    if es != [] {
      var n := |es| - 1;
      var less := es[..n];
      assert forall i | 0 <= i < n :: less[..i] == es[..i];
      PlayRests(db, m, less, mine);
      var now := Played(db, m, less);
      match es[n]
      case Copy => CopyRests(now, db.files, m, mine);
      case Theirs(o, part) => OtherRests(now, db.files, m, mine, o, part);
    }
  }

  // However many copies of a request arrive after its first delivery, and whatever requests of
  // others are carried out in between on parts of their own: the rows of the request's part
  // stay those of the first delivery, each copy leaves every row of the whole table, but may put
  // one of its own back under a later number, and it is answered as the second one would have
  // been at once.
  lemma CopiesAreHarmless(db: Db, m: Msg, es: seq<Event>, mine: Foot)
    requires Coherent(db.files) && Agrees(db.files, m) && Sendable(db.files, m)
    requires Spans(mine, m) && Tidy(db.files, mine) && AllApart(Process(db, m).db, m, es, mine)
    ensures var d := Process(db, m).db; var u := Played(d, m, es); var v := Process(u, m).db;
            && RowsOf(At(u.files, mine)) == RowsOf(At(d.files, mine))
            && Renewed(u.files, v.files, m) && RowsOf(v.files) == RowsOf(u.files)
            && (!OnAttrs(m.op) ==> Process(u, m).msg.result == Process(d, m).msg.result)
  {
    hide Process, Blocked, Answer, Spans, Sendable, Tidy, Settles, Agrees, AllApart, Renewed, Only, RowsOf, At,
      Coherent;
    var d := Process(db, m).db;
    FirstSettles(db, m);
    RequestStays(db, m, mine);
    StaysIsTidy(db.files, d.files, mine);
    OpKeepsCoherence(db, m) by { SendableIsProper(db.files, m); }
    PlayRests(d, m, es, mine);
    var u := Played(d, m, es);
    CopyRenews(u, m);
    RenewedIsSame(u.files, Process(u, m).db.files, m, mine);
    CopyAnswer(u, m);
    CopyAnswer(d, m);
    if !OnAttrs(m.op) { SameAnswer(u, d, m, mine); }
  }
}
