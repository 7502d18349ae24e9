// Pending deletions.  A client marks a row before it removes the file, and confirms or
// cancels afterwards; other clients' requests fall in between.  The mark on a row always
// names the last request that touched it, so a confirmation removes only what its own
// client marked last.

module UnlinkProtocol {
  import opened PathText
  import opened FileTable
  import opened ServerOp
  import opened OpFacts

  // Who, if anyone, was the last to mark a row.
  datatype Mark = Unmarked | MarkedBy(client: int)

  function Code(k: Mark): int
  {
    if k.MarkedBy? then k.client else 0
  }

  // The effect of one request on the mark of row k, from what can be seen of the request:
  // the row it inserted, whether it was refused, and the row's path beforehand.
  function MarkAfter(db: Db, m: Msg, k: nat, before: Mark): Mark
  {
    var o := Process(db, m);
    if o.inserted == Some(k) then
      if m.op in {FCHMOD, FCHOWN} && m.nlink == 0 && m.named then MarkedBy(m.client) else Unmarked
    else if o.msg.result == ABORT || k !in db.files || !m.named then before
    else if m.op == MAY_UNLINK && db.files[k].path == m.path then MarkedBy(m.client)
    else if m.op == CANCEL_UNLINK && db.files[k].path == m.path then Unmarked
    else if m.op == RENAME && (db.files[k].path == m.extra || Below(m.extra, db.files[k].path)) then Unmarked
    else before
  }

  // The last mark on row k in a run from a database without marks.
  function LastMark(db: Db, msgs: seq<Msg>, k: nat): Mark
  {
    if msgs == [] then Unmarked
    else
      var n := |msgs| - 1;
      MarkAfter(Run(db, msgs[..n]), msgs[n], k, LastMark(db, msgs[..n], k))
  }

  ghost predicate NoMarks(t: Files) { forall k | k in t :: t[k].deleting == 0 }

  // When no row was found by path, none has it.
  lemma PathUnknown(db: Db, m: Msg)
    requires !Front(db, m).foundPath && m.named && m.op != DID_UNLINK
    ensures forall k | k in Front(db, m).db.files :: Front(db, m).db.files[k].path != m.path
  {
    var l := Lookup(db, m);
    if !l.foundPath {
      assert ByPath(db.files, m.path).None?;
      assert Front(db, m).db == db;
    }
  }

  lemma DispatchMarks(w: Work, k: nat)
    requires var o := Dispatch(w); k in o.db.files && o.inserted != Some(k)
    ensures k in w.db.files
    ensures var o := Dispatch(w); var r := w.db.files[k];
            o.db.files[k].deleting ==
              if !w.msg.named then r.deleting
              else if w.msg.op == MAY_UNLINK && r.path == w.msg.path then w.msg.client
              else if w.msg.op == CANCEL_UNLINK && r.path == w.msg.path then 0
              else if w.msg.op == RENAME && (r.path == w.msg.extra || Below(w.msg.extra, r.path)) then 0
              else r.deleting
  {
    match w.msg.op
    case RENAME =>
      if w.msg.named {
        var mid := RenameExact(w.db.files, w.msg.extra, w.msg.path);
        RenameRangeIsSubtree(mid, w.msg.extra, w.msg.path);
      }
    case CREAT =>
    case LINK =>
    case SYMLINK =>
    case MKDIR =>
    case MKNOD =>
    case UNLINK =>
    case _ =>
  }

  lemma ChangeMarks(w: Work, k: nat)
    requires MarksUnlinked(w) && k in Finish(w).db.files
    requires w.byIno.client == w.byPath.client == w.msg.client
    requires w.msg.named ==> forall j | j in w.db.files :: w.db.files[j].path != w.msg.path
    ensures k in Dispatch(w).db.files
    ensures Finish(w).db.files[k].deleting ==
              if Dispatch(w).inserted == Some(k) && w.msg.named then w.msg.client
              else Dispatch(w).db.files[k].deleting
  {}

  lemma InsertedUnmarked(w: Work, k: nat)
    requires Dispatch(w).inserted == Some(k)
    ensures k in Dispatch(w).db.files && Dispatch(w).db.files[k].deleting == 0
    ensures w.msg.op in {CREAT, CHMOD, FCHMOD, CHOWN, FCHOWN, LINK, SYMLINK, MKDIR, MKNOD}
    ensures w.msg.op in {CHMOD, FCHMOD, CHOWN, FCHOWN} ==> !w.foundPath && !w.foundIno
  {
    hide UnlinkFileDev, UnlinkFile;
  }

  // One step: the mark column follows MarkAfter.
  lemma StepFollowsMarks(db: Db, m: Msg, k: nat, before: Mark)
    requires k in Process(db, m).db.files
    requires k in db.files ==> db.files[k].deleting == Code(before)
    ensures Process(db, m).db.files[k].deleting == Code(MarkAfter(db, m, k, before))
    ensures k in db.files || Process(db, m).inserted == Some(k)
  {
    hide Dispatch, Lookup, CheckPath, CheckIno, Refused;
    ChecksSurvive(db, m);
    FrontFollows(db, m);
    var w := Front(db, m);
    if !Refused(w) {
      var c := CheckIno(w);
      var o := Dispatch(c);
      DispatchReply(c);
      if MarksUnlinked(c) {
        if m.named { PathUnknown(db, m); CheckInoSurvive(w); }
        ChangeMarks(c, k);
      }
      if o.inserted == Some(k) {
        InsertedUnmarked(c, k);
      } else {
        DispatchMarks(c, k);
      }
    }
  }

  // In every reachable table the mark on a row is the client of its last mark, or zero when
  // the row has been inserted, released or renamed since.
  lemma {:induction false} MarkIsLastEvent(db: Db, msgs: seq<Msg>, k: nat)
    requires NoMarks(db.files) && k in Run(db, msgs).files
    ensures Run(db, msgs).files[k].deleting == Code(LastMark(db, msgs, k))
  {
    if msgs != [] {
      var n := |msgs| - 1;
      var p := Run(db, msgs[..n]);
      if k in p.files {
        MarkIsLastEvent(db, msgs[..n], k);
      }
      StepFollowsMarks(p, msgs[n], k, LastMark(db, msgs[..n], k));
    }
  }

  lemma DidUnlinkFiles(db: Db, m: Msg)
    requires m.op == DID_UNLINK
    ensures Process(db, m).db.files == DeletePathMarked(db.files, m.path, m.client)
  {
    hide ClearAttrs;
    FrontFollows(db, m);
    var l := Lookup(db, m);
    assert l.db == db;
    hide Lookup;
    assert Front(db, m) == l && !Refused(l) && CheckIno(l) == l;
    ClearsKeepFiles(db.(files := DeletePathMarked(db.files, m.path, m.client)), l.msg.dev, l.msg.ino);
  }

  // A confirmation removes exactly the rows at its path whose last mark is its own client's,
  // whatever other clients did in between.
  lemma DidUnlinkRemovesOwnMarks(db: Db, msgs: seq<Msg>, m: Msg)
    requires NoMarks(db.files) && m.op == DID_UNLINK && m.client != 0
    ensures var t := Run(db, msgs).files;
            Process(Run(db, msgs), m).db.files ==
              map k | k in t && !(t[k].path == m.path && LastMark(db, msgs, k) == MarkedBy(m.client)) :: t[k]
  {
    var d := Run(db, msgs);
    forall k | k in d.files
      ensures d.files[k].deleting == Code(LastMark(db, msgs, k))
    {
      MarkIsLastEvent(db, msgs, k);
    }
    hide Process, LastMark, Run;
    DidUnlinkFiles(d, m);
  }

  // Requests by which a client can put its own mark on a row.
  predicate Marks(m: Msg, client: int)
  {
    m.client == client && m.op in {MAY_UNLINK, FCHMOD, FCHOWN}
  }

  lemma {:induction false} MarkIsNotMine(db: Db, msgs: seq<Msg>, later: seq<Msg>, k: nat, client: int)
    requires LastMark(db, msgs, k) != MarkedBy(client)
    requires forall i | 0 <= i < |later| :: !Marks(later[i], client)
    ensures LastMark(db, msgs + later, k) != MarkedBy(client)
  {
    hide MarkAfter, Run;
    if later == [] {
      assert msgs + later == msgs;
    } else {
      var all := msgs + later;
      var less := later[..|later| - 1];
      assert all[..|all| - 1] == msgs + less && all[|all| - 1] == later[|later| - 1];
      MarkIsNotMine(db, msgs, less, k, client);
      NotMarkedByOthers(Run(db, msgs + less), all[|all| - 1], k, LastMark(db, msgs + less, k), client);
    }
  }

  lemma NotMarkedByOthers(db: Db, m: Msg, k: nat, before: Mark, client: int)
    requires before != MarkedBy(client) && !Marks(m, client)
    ensures MarkAfter(db, m, k, before) != MarkedBy(client)
  {
    hide Process;
  }

  // A late confirmation takes no row whose last mark, at any moment since its client last
  // asked to mark anything, was not its own: whatever others mark, cancel, create or move
  // in between.
  lemma LateConfirmationIsHarmless(db: Db, msgs: seq<Msg>, later: seq<Msg>, did: Msg, k: nat)
    requires NoMarks(db.files) && did.op == DID_UNLINK && did.client != 0
    requires LastMark(db, msgs, k) != MarkedBy(did.client)
    requires forall i | 0 <= i < |later| :: !Marks(later[i], did.client)
    requires k in Run(db, msgs + later).files
    ensures k in Process(Run(db, msgs + later), did).db.files
  {
    hide Process, LastMark, Run;
    MarkIsNotMine(db, msgs, later, k, did.client);
    DidUnlinkRemovesOwnMarks(db, msgs + later, did);
  }

  // In particular after another client's mark on the row.
  lemma MarkTakesOver(db: Db, msgs: seq<Msg>, may: Msg, k: nat)
    requires may.op == MAY_UNLINK && may.named && !Blocked(Run(db, msgs).files, may)
    requires k in Run(db, msgs).files && Run(db, msgs).files[k].path == may.path
    ensures LastMark(db, msgs + [may], k) == MarkedBy(may.client)
  {
    var all := msgs + [may];
    var d := Run(db, msgs);
    assert all[..|all| - 1] == msgs;
    AbortExactly(d, may);
    assert Process(d, may).inserted == None by { MayUnlinkInsertsNothing(d, may); }
  }

  lemma MayUnlinkInsertsNothing(db: Db, m: Msg)
    requires m.op == MAY_UNLINK
    ensures Process(db, m).inserted == None
  {
    FrontFollows(db, m);
    hide Lookup, CheckPath, CheckIno, Refused;
  }

  // ----- a new file at a marked path -----

  predicate Tracked(t: Files, p: Path, dev: int, ino: int)
  {
    exists k :: k in t && t[k].path == p && t[k].dev == dev && t[k].ino == ino
  }

  // Creating a file leaves its path a row with the inode exactly if there was one already, or
  // the path had no row at all and no unmarked row gives the inode another name.  On a clash
  // the stale row goes, or stays, and nothing replaces it.
  lemma CreatTracksExactly(db: Db, m: Msg)
    requires m.op == CREAT && m.named && m.dev != 0 && m.ino != 0
    ensures Tracked(Process(db, m).db.files, m.path, m.dev, m.ino)
            <==> (Tracked(db.files, m.path, m.dev, m.ino)
                  || (ByPath(db.files, m.path).None? && Elsewhere(db.files, m.dev, m.ino).None?))
  {
    AbortExactly(db, m);
    ElsewhereBlocks(db.files, m);
    if Blocked(db.files, m) {
      assert !Tracked(db.files, m.path, m.dev, m.ino) by {
        if Tracked(db.files, m.path, m.dev, m.ino) { TrackedIsNotBlocked(db.files, m); }
      }
      hide Process, Blocked, Elsewhere;
      NoNewTracks(db, m);
    } else {
      hide Process, Blocked, Elsewhere;
      AcceptedCreatTracks(db, m);
    }
  }

  // The first row of an inode, if it is unmarked and has a name.
  function Elsewhere(t: Files, dev: int, ino: int): Option<nat>
  {
    var o := ByInode(t, dev, ino);
    if o.Some? && t[o.value].deleting == 0 && t[o.value].path != NAMELESS then o else None
  }

  lemma ElsewhereBlocks(t: Files, m: Msg)
    requires m.op in {CREAT, MKDIR, MKNOD} && m.named && m.dev != 0 && m.ino != 0
    ensures ByPath(t, m.path).None? ==> (Blocked(t, m) <==> Elsewhere(t, m.dev, m.ino).Some?)
  {}

  lemma TrackedIsNotBlocked(t: Files, m: Msg)
    requires m.op in {CREAT, MKDIR, MKNOD} && m.named && m.dev != 0 && m.ino != 0 && Tracked(t, m.path, m.dev, m.ino)
    ensures !Blocked(t, m)
  {
    assert ByPathAndInode(t, m.path, m.dev, m.ino).Some?;
  }

  lemma NoNewTracks(db: Db, m: Msg)
    requires Survive(db.files, Process(db, m).db.files) && !Tracked(db.files, m.path, m.dev, m.ino)
    ensures !Tracked(Process(db, m).db.files, m.path, m.dev, m.ino)
  {}

  lemma AcceptedCreatTracks(db: Db, m: Msg)
    requires m.op == CREAT && m.named && m.dev != 0 && m.ino != 0 && !Blocked(db.files, m)
    ensures Tracked(Process(db, m).db.files, m.path, m.dev, m.ino)
            <==> (Tracked(db.files, m.path, m.dev, m.ino) || ByPath(db.files, m.path).None?)
  {
    assert Process(db, m).msg.result != ABORT by { AbortExactly(db, m); }
    hide Blocked;
    var l := Lookup(db, m);
    assert l.foundExact <==> Tracked(db.files, m.path, m.dev, m.ino) by {
      var e := ByPathAndInode(db.files, m.path, m.dev, m.ino);
    }
    assert l.foundExact ==> l.foundPath && l.foundIno && l.byIno.mode == l.byPath.mode && l.msg == l.header;
    assert !l.foundExact && !l.foundPath ==> ByPath(db.files, m.path).None? && l.msg == l.header;
    assert !l.foundExact && l.foundPath ==>
             ByPath(db.files, m.path).Some? && !(l.msg.dev == m.dev && l.msg.ino == m.ino);
    FrontFollows(db, m);
    ChecksSurvive(db, m);
    ExactStays(l);
    hide Lookup;
    CreatTracks(l, m);
  }

  // Checking an exact match whose kind is right changes nothing.
  lemma ExactStays(l: Work)
    ensures l.foundPath && SameKind(l.byPath.mode, l.header.mode) && l.byPath.ino == l.header.ino ==> CheckPath(l) == l
  {}

  lemma CreatTracks(l: Work, m: Msg)
    requires m.op == CREAT && m.named && l.header == m.(result := SUCCEED)
    requires l.foundExact ==> l.foundPath && l.foundIno && l.byIno.mode == l.byPath.mode && l.byPath.ino == m.ino
    requires l.foundExact || !l.foundPath ==> l.msg == l.header
    requires l.foundExact ==> Tracked(l.db.files, m.path, m.dev, m.ino)
    requires !l.foundExact ==> !Tracked(l.db.files, m.path, m.dev, m.ino)
    requires !l.foundExact && l.foundPath ==> !(l.msg.dev == m.dev && l.msg.ino == m.ino)
    requires l.msg.op == CREAT && l.msg.path == m.path && l.msg.named
    requires l.byIno.dev == m.dev && l.byIno.ino == m.ino
    requires !Refused(CheckPath(l))
    ensures Tracked(Creat(CheckIno(CheckPath(l))).db.files, m.path, m.dev, m.ino) <==> (l.foundExact || !l.foundPath)
  {
    var w := CheckPath(l);
    var c := CheckIno(w);
    CheckPathSurvive(l);
    CheckInoSurvive(w);
    assert w.byIno == l.byIno && w.byPath == l.byPath && w.msg == l.msg && w.header == l.header && w.foundExact
        == l.foundExact
        && c.msg == w.msg && c.foundExact == w.foundExact && c.byIno == w.byIno;
    if l.foundExact && SameKind(l.byPath.mode, m.mode) {
      assert c == l;
    } else if l.foundExact || !l.foundPath {
      assert !c.foundPath;
      hide UnlinkFileDev;
      var o := Creat(c);
      assert o.db.files[o.inserted.value].path == m.path;
    } else {
      var o := Creat(c);
      UnlinkDevSurvive(c.db, c.byIno);
    }
  }

  // Directories and nodes get their row exactly unless the request is blocked.
  lemma MakeTracksExactly(db: Db, m: Msg)
    requires m.op in {MKDIR, MKNOD} && m.named && m.dev != 0 && m.ino != 0
    ensures Tracked(Process(db, m).db.files, m.path, m.dev, m.ino) <==> !Blocked(db.files, m)
  {
    AbortExactly(db, m);
    if Blocked(db.files, m) {
      assert !Tracked(db.files, m.path, m.dev, m.ino) by {
        if Tracked(db.files, m.path, m.dev, m.ino) { TrackedIsNotBlocked(db.files, m); }
      }
      hide Process, Blocked;
      NoNewTracks(db, m);
    } else {
      hide Process, Blocked;
      InsertingTracks(db, m);
    }
  }

  // Links always get theirs.
  lemma LinkAlwaysTracks(db: Db, m: Msg)
    requires m.op == LINK && m.named
    ensures Tracked(Process(db, m).db.files, m.path, m.dev, m.ino)
  {
    AbortExactly(db, m);
    hide Process;
    InsertingTracks(db, m);
  }

  lemma InsertingTracks(db: Db, m: Msg)
    requires m.op in {MKDIR, MKNOD, LINK} && m.named && !Blocked(db.files, m)
    ensures Tracked(Process(db, m).db.files, m.path, m.dev, m.ino)
  {
    RefusedExactly(db, m);
    hide Blocked;
    hide Lookup, CheckPath, CheckIno, UnlinkFileDev, UnlinkFile, Refused;
    FrontFollows(db, m);
    var o := Dispatch(CheckIno(Front(db, m)));
    assert o.db.files[o.inserted.value].path == m.path;
  }

  // A creation that is refused: the inode has an unmarked row under another name.
  lemma CreatOfKnownInodeIsRefused()
    ensures var r := Row("/old", 1, 10, 0, 0, Mode(8, 420), 0, 0);
            var m := Msg(CREAT, 2, NONE, 1, 10, 0, 0, Mode(8, 420), 0, 1, 0, true, "/x", "");
            Process(Db(map[5 := r], map[]), m).msg.result == ABORT
            && !Tracked(Process(Db(map[5 := r], map[]), m).db.files, "/x", 1, 10)
  {
    var r := Row("/old", 1, 10, 0, 0, Mode(8, 420), 0, 0);
    var m := Msg(CREAT, 2, NONE, 1, 10, 0, 0, Mode(8, 420), 0, 1, 0, true, "/x", "");
    var db := Db(map[5 := r], map[]);
    assert db.files[5] == r && ByPath(db.files, "/x").None? && ByInode(db.files, 1, 10) == Some(5);
    assert Elsewhere(db.files, 1, 10) == Some(5);
    AbortExactly(db, m);
    ElsewhereBlocks(db.files, m);
    CreatTracksExactly(db, m);
  }

  // The clash the protocol was designed for: /x is marked by client 1 and its inode replaced;
  // the newcomer's row is lost.
  lemma CreatAfterClashIsLost()
    ensures var r := Row("/x", 1, 10, 0, 0, Mode(8, 420), 0, 1);
            var m := Msg(CREAT, 2, NONE, 1, 11, 0, 0, Mode(8, 420), 0, 1, 0, true, "/x", "");
            Process(Db(map[5 := r], map[]), m).db.files == map[]
            && Process(Db(map[5 := r], map[]), m).msg.result == SUCCEED
  {
    var r := Row("/x", 1, 10, 0, 0, Mode(8, 420), 0, 1);
    var m := Msg(CREAT, 2, NONE, 1, 11, 0, 0, Mode(8, 420), 0, 1, 0, true, "/x", "");
    var t: Files := map[5 := r];
    assert t[5] == r;
    assert ByPathAndInode(t, "/x", 1, 11).None?;
    assert ByPath(t, "/x") == Some(5);
    assert ByInode(t, 1, 11).None?;
    assert DeletePathMarked(t, "/x", 1) == map[];
  }
}
