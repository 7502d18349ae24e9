// Facts about the stages of a request that hold whatever the database says.

module OpFacts {
  import opened PathText
  import opened FileTable
  import opened ServerOp

  // Rows of u are rows of t, unchanged.
  ghost predicate Survive(t: Files, u: Files)
  {
    u.Keys <= t.Keys && forall k | k in u :: u[k] == t[k]
  }

  lemma CheckPathSurvive(w: Work)
    ensures Survive(w.db.files, CheckPath(w).db.files)
  {
    hide ClearAttrs, ClearUnusedAttrs;
    ClearsKeepFiles(w.db.(files := DeletePathMarked(w.db.files, w.msg.path, w.byPath.deleting)), 0, 0);
    var db1 := DidUnlinkClash(w.db, w.msg.path, w.byPath.deleting);
    ClearsKeepFiles(w.db.(files := DeletePath(w.db.files, w.msg.path)), w.msg.dev, w.msg.ino);
    ClearsKeepFiles(db1.(files := DeletePath(db1.files, w.msg.path)), w.msg.dev, w.msg.ino);
  }

  lemma ClearsKeepFiles(db: Db, dev: int, ino: int)
    ensures ClearAttrs(db, dev, ino).files == db.files && ClearUnusedAttrs(db).files == db.files
  {}

  lemma UnlinkDevSurvive(db: Db, m: Msg)
    ensures Survive(db.files, UnlinkFileDev(db, m).files)
  {
    hide ClearAttrs;
    ClearsKeepFiles(db.(files := DeleteInode(db.files, m.dev, m.ino)), m.dev, m.ino);
  }

  lemma CheckInoSurvive(w: Work)
    requires !Refused(w)
    ensures Survive(w.db.files, CheckIno(w).db.files)
  {
    hide UnlinkFileDev;
    UnlinkDevSurvive(w.db, w.msg);
  }

  lemma ChecksSurvive(db: Db, m: Msg)
    ensures Survive(db.files, Front(db, m).db.files)
    ensures !Refused(Front(db, m)) ==> Survive(db.files, CheckIno(Front(db, m)).db.files)
  {
    hide Lookup, CheckPath, CheckIno, Refused;
    LookupFollows(db, m);
    CheckPathSurvive(Lookup(db, m));
    if !Refused(Front(db, m)) { CheckInoSurvive(Front(db, m)); }
  }

  // m is the request h, with at most its row fields overwritten.
  predicate Carries(m: Msg, h: Msg)
  {
    && m.op == h.op && m.client == h.client && m.result == h.result && m.nlink == h.nlink
    && m.named == h.named && m.path == h.path && m.extra == h.extra
  }

  // What the lookup and the checks leave of a request.
  ghost predicate Follows(w: Work, h: Msg)
  {
    && w.header == h && Carries(w.msg, h) && Carries(w.byPath, h) && Carries(w.byIno, h)
    && w.byIno.dev == h.dev && w.byIno.ino == h.ino
  }

  lemma LookupFollows(db: Db, m: Msg)
    ensures Follows(Lookup(db, m), m.(result := SUCCEED)) && Lookup(db, m).db == db
  {}

  lemma ChecksFollow(w: Work)
    ensures var c := CheckPath(w);
            c.msg == w.msg && c.header == w.header && c.byPath == w.byPath && c.byIno == w.byIno
            && c.foundIno == w.foundIno && c.foundExact == w.foundExact && (c.foundPath ==> w.foundPath)
    ensures !Refused(w) ==>
            var c := CheckIno(w);
            c.msg == w.msg && c.header == w.header && c.byPath == w.byPath && c.byIno == w.byIno
            && c.foundPath == w.foundPath && c.foundExact == w.foundExact && (c.foundIno ==> w.foundIno)
  {
    hide DidUnlinkClash, UnlinkFile, UnlinkFileDev;
  }

  lemma FrontFollows(db: Db, m: Msg)
    ensures var h := m.(result := SUCCEED); var w := Front(db, m);
            Follows(w, h) && (!Refused(w) ==> Follows(CheckIno(w), h) && CheckIno(w).foundPath == w.foundPath)
  {
    hide Lookup, CheckPath, CheckIno, Refused;
    LookupFollows(db, m);
    ChecksFollow(Lookup(db, m));
    ChecksFollow(Front(db, m));
  }

  lemma DispatchReply(w: Work)
    requires w.msg.result == SUCCEED && w.header.result == SUCCEED && w.byIno.result == SUCCEED
             && w.byPath.result == SUCCEED
    ensures Dispatch(w).msg.result != ABORT
    ensures Finish(w).inserted == Dispatch(w).inserted && Finish(w).msg == Dispatch(w).msg
  {
  }

  lemma CheckNothing(w: Work)
    ensures !Refused(w) && (w.foundIno ==> SameKind(w.byIno.mode, w.header.mode)) ==> CheckIno(w) == w
  {}

  // ----- which requests are refused -----

  // The row whose path is compared with the request's: an exact match, else the first row of
  // the request's inode, which is searched only if the message then holds a real inode.
  function Compared(t: Files, m: Msg): Option<nat>
  {
    var exact := if m.named && m.dev != 0 && m.ino != 0 then ByPathAndInode(t, m.path, m.dev, m.ino) else None;
    var atPath := if m.named then ByPath(t, m.path) else None;
    if exact.Some? then exact
    else if (if atPath.Some? then t[atPath.value].dev != 0 && t[atPath.value].ino != 0 else m.dev != 0 && m.ino != 0)
    then ByInode(t, m.dev, m.ino)
    else None
  }

  // That row is unmarked and says the inode is elsewhere.
  predicate Blocked(t: Files, m: Msg)
  {
    && m.named && m.op !in {LINK, EXEC, DID_UNLINK}
    && var o := Compared(t, m);
       o.Some? && t[o.value].deleting == 0
       && if m.op == RENAME then m.nlink == 1 && m.extra != t[o.value].path
          else m.path != t[o.value].path && t[o.value].path != NAMELESS
  }

  lemma RefusedExactly(db: Db, m: Msg)
    ensures Refused(Front(db, m)) <==> Blocked(db.files, m)
  {
    var l := Lookup(db, m);
    ChecksFollow(l);
    hide CheckPath;
    var w := CheckPath(l);
    assert w.pathByIno == l.pathByIno by { CheckPathKeepsPath(l); }
  }

  lemma CheckPathKeepsPath(w: Work)
    ensures CheckPath(w).pathByIno == w.pathByIno
  {}

  // A request is answered with an abort exactly when it is blocked, which the table tells
  // beforehand; it then does no more than the checks did.
  lemma AbortExactly(db: Db, m: Msg)
    ensures Process(db, m).msg.result == ABORT <==> Blocked(db.files, m)
    ensures Blocked(db.files, m) ==> Survive(db.files, Process(db, m).db.files) && Process(db, m).inserted == None
  {
    hide Lookup, CheckPath, CheckIno, Refused, Blocked, Dispatch;
    RefusedExactly(db, m);
    FrontFollows(db, m);
    ChecksSurvive(db, m);
    if !Refused(Front(db, m)) { DispatchReply(CheckIno(Front(db, m))); }
  }

  // ----- which requests rename rows -----

  lemma DispatchKeepsPaths(w: Work, k: nat)
    requires var o := Dispatch(w); k in o.db.files && o.inserted != Some(k)
    ensures k in w.db.files
    ensures Dispatch(w).db.files[k].path != w.db.files[k].path ==>
              w.msg.op == RENAME && w.msg.named && (w.db.files[k].path == w.msg.extra
                  || Below(w.msg.extra, w.db.files[k].path))
  {
    match w.msg.op
    case RENAME =>
      if w.msg.named {
        var mid := RenameExact(w.db.files, w.msg.extra, w.msg.path);
        RenameRangeIsSubtree(mid, w.msg.extra, w.msg.path);
      }
    case CREAT =>
    case LINK =>
    case SYMLINK =>
    case MKDIR =>
    case MKNOD =>
    case UNLINK =>
    case _ =>
  }

  lemma FinishKeepsPaths(w: Work, k: nat)
    requires k in Finish(w).db.files
    ensures k in Dispatch(w).db.files && Finish(w).db.files[k].path == Dispatch(w).db.files[k].path
  {
    hide Dispatch;
  }

  // No request gives a row another path but a rename, and a rename only rows at or below the
  // old path.  So a row without a name keeps the placeholder, whatever requests name its inode.
  lemma OnlyRenamesMovePaths(db: Db, m: Msg, k: nat)
    requires var o := Process(db, m); k in o.db.files && o.inserted != Some(k)
    ensures k in db.files
    ensures Process(db, m).db.files[k].path != db.files[k].path ==>
              m.op == RENAME && m.named && (db.files[k].path == m.extra || Below(m.extra, db.files[k].path))
  {
    hide Dispatch, Lookup, CheckPath, CheckIno, Refused;
    ChecksSurvive(db, m);
    FrontFollows(db, m);
    var w := Front(db, m);
    if !Refused(w) {
      var c := CheckIno(w);
      DispatchReply(c);
      FinishKeepsPaths(c, k);
      DispatchKeepsPaths(c, k);
    }
  }

  // A request with a path for an inode whose only row has none: the row is changed, not named.
  lemma NamedRequestLeavesNameless()
    ensures var r := Row(NAMELESS, 1, 10, 0, 0, Mode(8, 420), 0, 0);
            var m := Msg(CHMOD, 2, NONE, 1, 10, 0, 0, Mode(8, 448), 0, 1, 0, true, "/x", "");
            Process(Db(map[5 := r], map[]), m).db.files == map[5 := r.(mode := Mode(8, 448))]
  {
    var r := Row(NAMELESS, 1, 10, 0, 0, Mode(8, 420), 0, 0);
    var m := Msg(CHMOD, 2, NONE, 1, 10, 0, 0, Mode(8, 448), 0, 1, 0, true, "/x", "");
    var t: Files := map[5 := r];
    assert t[5] == r && NAMELESS != "/x";
    assert ByPathAndInode(t, "/x", 1, 10).None? && ByPath(t, "/x").None?;
    assert ByInode(t, 1, 10) == Some(5);
    assert SetMeta(t, 1, 10, 0, 0, Mode(8, 448), 0) == map[5 := r.(mode := Mode(8, 448))];
  }
}
