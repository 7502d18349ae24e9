// One request being served: the variables the server rewrites step by step while it looks a
// request up, checks it and carries it out, proved against the stages of ServerOp.

module Requests {
  import opened PathText
  import opened FileTable
  import opened ServerOp
  import opened OpFacts
  import opened FileDbs

  class ServerRequest {
    var msg: Msg
    var header: Msg
    var byPath: Msg
    var byIno: Msg
    var pathByIno: Path
    var foundPath: bool
    var foundIno: bool
    var foundExact: bool
    var inserted: Option<nat>
    var value: Option<string>

    constructor (m: Msg)
      ensures msg == m && inserted.None? && value.None?
    {
      msg, header, byPath, byIno, pathByIno := m, m, m, m, "";
      foundPath, foundIno, foundExact := false, false, false;
      inserted, value := None, None;
    }

    ghost function Locals(db: FileDb): Work
      reads this, db
    {
      Work(db.Memory(), msg, header, byPath, byIno, pathByIno, foundPath, foundIno, foundExact)
    }

    ghost function Sofar(db: FileDb): Outcome
      reads this, db
    {
      Outcome(db.Memory(), msg, inserted, value)
    }

    ghost predicate Silent()
      reads this
    {
      inserted.None? && value.None?
    }

    // Where the row of the request is: by path and inode, else by path, else by inode.
    method Find(db: FileDb)
      requires db.Valid() && Silent()
      modifies this
      ensures Locals(db) == Lookup(old(db.Memory()), old(msg)) && Silent()
    {
      hide ByPath, ByInode, ByPathAndInode, WithMeta, WithRow;
      msg := msg.(result := SUCCEED);
      header := msg;
      byIno := header;
      pathByIno := "";
      foundPath, foundIno, foundExact := false, false, false;
      if msg.named && msg.dev != 0 && msg.ino != 0 {
        var found, hit := db.FindExact(msg);
        if found {
          byPath, byIno := hit, hit;
          foundPath, foundIno, foundExact := true, true, true;
          pathByIno := msg.path;
        }
      }
      if !foundExact { FindLoosely(db); }
    }

    // No row has both: by path, and by inode as long as there is one to search for.  The row's
    // inode may now stand in the message, but the search uses the request's.
    method FindLoosely(db: FileDb)
      requires db.Valid() && byIno == header && pathByIno == "" && !foundIno
      modifies this`msg, this`byPath, this`byIno, this`pathByIno, this`foundPath, this`foundIno
      ensures var atPath := if old(msg).named then ByPath(db.files, old(msg).path) else None;
              && foundPath == atPath.Some? && byPath == msg
              && msg == if atPath.Some? then WithRow(old(msg), db.files[atPath.value]) else old(msg)
      ensures var atIno := if msg.dev != 0 && msg.ino != 0 then ByInode(db.files, header.dev, header.ino) else None;
              && foundIno == atIno.Some?
              && byIno == (if atIno.Some? then WithMeta(header, db.files[atIno.value]) else header)
              && pathByIno == if atIno.Some? then db.files[atIno.value].path else ""
    {
      hide ByPath, ByInode, WithMeta, WithRow;
      foundPath, msg := db.FindPath(msg);
      byPath := msg;
      if msg.dev != 0 && msg.ino != 0 {
        foundIno, byIno, pathByIno := db.FindDev(byIno);
      }
    }

    // The row at the path is of another inode: only one that was about to go is dropped.
    method CheckClash(db: FileDb)
      requires db.Valid()
      modifies db`files, db`attrs, db`dirty
      ensures db.Valid()
      ensures db.Memory() ==
        if byPath.ino != header.ino && header.ino != 0 && msg.op != EXEC && byPath.deleting != 0
        then DidUnlinkClash(old(db.Memory()), msg.path, byPath.deleting) else old(db.Memory())
    {
      hide DidUnlinkClash;
      if byPath.ino != header.ino && header.ino != 0 {
        match msg.op {
          case EXEC =>
          case _ =>
            if byPath.deleting != 0 { db.DidUnlinkFile(msg.path, None, byPath.deleting); }
        }
      }
    }

    // The row at the path is of another kind of file.
    method CheckFoundPath(db: FileDb)
      requires db.Valid() && Silent()
      modifies this`foundPath, db`files, db`attrs, db`dirty
      ensures db.Valid() && Silent() && Locals(db) == CheckPath(old(Locals(db)))
    {
      hide DidUnlinkClash, UnlinkFile;
      if !foundPath || msg.op == DID_UNLINK { return; }
      CheckClash(db);
      if IsDir(byPath.mode) != IsDir(header.mode) {
        db.Unlink(msg);
        foundPath := false;
      } else if IsLnk(byPath.mode) != IsLnk(header.mode) {
        db.Unlink(msg);
        foundPath := false;
      }
    }

    method PathDiffers(db: FileDb) returns (mismatch: bool)
      ensures mismatch == PathMismatch(Locals(db))
    {
      if !msg.named { return false; }
      mismatch := false;
      match msg.op {
        case LINK =>
        case EXEC =>
        case RENAME =>
          if msg.nlink == 1 && msg.extra != pathByIno { mismatch := true; }
        case _ =>
          if msg.path != pathByIno && pathByIno != NAMELESS { mismatch := true; }
      }
    }

    // The row of the inode has another path, which may refuse the request, or another kind.
    method CheckFoundIno(db: FileDb) returns (aborted: bool)
      requires db.Valid() && Silent()
      modifies this`msg, this`foundIno, db`files, db`attrs, db`dirty
      ensures db.Valid() && Silent() && aborted == Refused(old(Locals(db)))
      ensures aborted ==> db.Memory() == old(db.Memory()) && msg == old(msg).(result := ABORT)
      ensures !aborted ==> Locals(db) == CheckIno(old(Locals(db)))
    {
      hide UnlinkFileDev;
      if !foundIno || msg.op == DID_UNLINK { return false; }
      var mismatch := PathDiffers(db);
      if mismatch && byIno.deleting == 0 {
        foundIno := false;
        msg := msg.(result := ABORT);
        return true;
      }
      if IsDir(byIno.mode) != IsDir(header.mode) {
        db.UnlinkDev(msg);
        foundIno := false;
      } else if IsLnk(byIno.mode) != IsLnk(header.mode) {
        db.UnlinkDev(msg);
        foundIno := false;
      }
      return false;
    }

    method DoCreat(db: FileDb)
      requires db.Valid() && Silent()
      modifies this`inserted, db`files, db`attrs, db`dirty
      ensures db.Valid() && Sofar(db) == Creat(old(Locals(db)))
    {
      if foundIno && !foundExact { db.UnlinkDev(byIno); }
      if !foundPath {
        var id := db.Link(msg);
        inserted := Some(id);
      }
    }

    // chmod keeps the format bits of what the database knows.
    method DoChmod(db: FileDb)
      requires db.Valid() && Silent()
      modifies this`msg, this`inserted, db`files, db`dirty
      ensures db.Valid() && Sofar(db) == Chmod(old(Locals(db)))
    {
      if foundIno {
        msg := byIno;
        msg := msg.(mode := Mode(msg.mode.fmt, header.mode.perm));
        db.Update(msg);
      } else if foundPath {
        msg := byPath;
        msg := msg.(mode := Mode(byPath.mode.fmt, header.mode.perm));
        db.Update(msg);
      } else {
        msg := msg.(mode := header.mode);
      }
      if !foundPath && !foundIno {
        var id := db.Link(msg);
        inserted := Some(id);
      }
    }

    method DoChown(db: FileDb)
      requires db.Valid() && Silent()
      modifies this`msg, this`inserted, db`files, db`dirty
      ensures db.Valid() && Sofar(db) == Chown(old(Locals(db)))
    {
      if foundIno {
        msg := byIno;
        msg := msg.(uid := header.uid, gid := header.gid);
        db.Update(msg);
      } else if foundPath {
        msg := byPath;
        msg := msg.(uid := header.uid, gid := header.gid);
        db.Update(msg);
      } else {
        msg := msg.(uid := header.uid, gid := header.gid);
      }
      if !foundPath && !foundIno {
        var id := db.Link(msg);
        inserted := Some(id);
      }
    }

    method DoStat(db: FileDb, preferIno: bool)
      requires db.Valid() && Silent()
      modifies this`msg
      ensures Sofar(db) == Stat(old(Locals(db)), preferIno)
    {
      var best := if foundIno && (preferIno || !foundPath) then byIno else byPath;
      if foundIno || foundPath { msg := best; } else { msg := msg.(result := FAIL); }
    }

    method DoLink(db: FileDb)
      requires db.Valid() && Silent()
      modifies this`msg, this`inserted, db`files, db`attrs, db`dirty
      ensures db.Valid() && Sofar(db) == ServerOp.Link(old(Locals(db)))
    {
      if foundPath { db.Unlink(msg); }
      if foundIno {
        if msg.op != SYMLINK { msg := byIno; }
      } else {
        msg := header;
      }
      var id := db.Link(msg);
      inserted := Some(id);
    }

    method DoUnlink(db: FileDb)
      requires db.Valid() && Silent()
      modifies this`msg, db`files, db`attrs, db`dirty
      ensures db.Valid() && Sofar(db) == ServerOp.Unlink(old(Locals(db)))
    {
      db.Unlink(msg);
      db.UnlinkBelow(msg);
      if header.nlink == 1 && foundIno { db.UnlinkDev(msg); }
      msg := msg.(result := NONE);
    }

    method DoMake(db: FileDb)
      requires db.Valid() && Silent()
      modifies this`msg, this`inserted, db`files, db`attrs, db`dirty
      ensures db.Valid() && Sofar(db) == Make(old(Locals(db)))
    {
      if foundPath { db.Unlink(msg); }
      if foundIno { db.UnlinkDev(byIno); }
      msg := header;
      var id := db.Link(msg);
      inserted := Some(id);
    }

    method DoSetXattr(db: FileDb)
      requires db.Valid() && Silent()
      modifies this`msg, db`attrs, db`dirty
      ensures db.Valid() && Sofar(db) == SetAttr(old(Locals(db)))
    {
      var failed := db.SetXattr(msg, msg.extra, msg.op == CREATE_XATTR, msg.op == REPLACE_XATTR);
      if failed { msg := msg.(result := FAIL); }
    }

    method DoGetXattr(db: FileDb)
      requires db.Valid() && Silent()
      modifies this`msg, this`value
      ensures Sofar(db) == GetAttr(old(Locals(db)))
    {
      var failed, v := db.GetXattr(msg, msg.extra);
      if failed { msg := msg.(result := FAIL); } else { value := Some(v); }
    }

    method DoRename(db: FileDb)
      requires db.Valid() && Silent()
      modifies db`files, db`dirty
      ensures db.Valid() && Sofar(db) == Done(old(Locals(db)), UpdateInode(RenameFile(old(db.Memory()), msg), msg), msg)
    {
      db.Rename(msg.extra, msg);
      db.UpdateInodeAt(msg);
    }

    method DoMayUnlink(db: FileDb)
      requires db.Valid() && Silent() && msg.op == MAY_UNLINK
      modifies this`msg, db`files, db`dirty
      ensures db.Valid() && Sofar(db) == Dispatch(old(Locals(db)))
    {
      var failed := db.MayUnlinkFile(msg, msg.client);
      if failed { msg := msg.(result := FAIL); }
    }

    method Perform(db: FileDb)
      requires db.Valid() && Silent()
      modifies this`msg, this`inserted, this`value, db`files, db`attrs, db`dirty
      ensures db.Valid() && Sofar(db) == Dispatch(old(Locals(db)))
    {
      match msg.op {
        case CHDIR => case CLOSE => case EXEC => case OPEN =>
        case CREAT => DoCreat(db);
        case CHMOD => DoChmod(db);
        case FCHMOD => DoChmod(db);
        case CHOWN => DoChown(db);
        case FCHOWN => DoChown(db);
        case STAT => DoStat(db, false);
        case FSTAT => DoStat(db, true);
        case LINK => DoLink(db);
        case SYMLINK => DoLink(db);
        case RENAME => DoRename(db);
        case MAY_UNLINK => DoMayUnlink(db);
        case DID_UNLINK => db.DidUnlinkFile(msg.path, Some(msg), msg.client);
        case CANCEL_UNLINK => db.CancelUnlinkFile(msg);
        case UNLINK => DoUnlink(db);
        case MKDIR => DoMake(db);
        case MKNOD => DoMake(db);
        case GET_XATTR => DoGetXattr(db);
        case LIST_XATTR => value := db.ListXattr(msg);
        case CREATE_XATTR => DoSetXattr(db);
        case REPLACE_XATTR => DoSetXattr(db);
        case SET_XATTR => DoSetXattr(db);
        case REMOVE_XATTR => db.RemoveXattr(msg, msg.extra);
      }
    }

    method FinishOp(db: FileDb)
      requires db.Valid() && Silent() && header.op == msg.op && byPath.op == msg.op && byIno.op == msg.op
      modifies this`msg, this`inserted, this`value, db`files, db`attrs, db`dirty
      ensures db.Valid() && Sofar(db) == Finish(old(Locals(db)))
    {
      hide Dispatch, MayUnlink;
      DispatchKeepsOp(Locals(db));
      Perform(db);
      match msg.op {
        case FCHOWN => MarkUnlinked(db);
        case FCHMOD => MarkUnlinked(db);
        case FSTAT => MarkUnlinked(db);
        case _ =>
      }
    }

    method MarkUnlinked(db: FileDb)
      requires db.Valid()
      modifies db`files, db`dirty
      ensures db.Valid()
      ensures db.Memory() == if !foundPath && !foundIno && msg.nlink == 0
                             then MayUnlink(old(db.Memory()), msg, msg.client) else old(db.Memory())
    {
      if !foundPath && !foundIno && msg.nlink == 0 { var _ := db.MayUnlinkFile(msg, msg.client); }
    }
  }

  lemma DispatchKeepsOp(w: Work)
    requires w.header.op == w.msg.op && w.byPath.op == w.msg.op && w.byIno.op == w.msg.op
    ensures var m := Dispatch(w).msg;
            && m.op == w.msg.op
            && (!w.foundPath && !w.foundIno && w.msg.op in {FCHOWN, FCHMOD, FSTAT} ==> m.nlink == w.msg.nlink)
  {}

  // The request state machine, from message to reply.
  method PseudoOp(db: FileDb, m: Msg) returns (reply: Outcome)
    requires db.Valid()
    modifies db`files, db`attrs, db`dirty
    ensures db.Valid() && reply == Process(old(db.Memory()), m) && reply.db == db.Memory()
  {
    FrontFollows(db.Memory(), m);
    hide Lookup, CheckPath, Refused, CheckIno, Finish;
    var r := new ServerRequest(m);
    r.Find(db);
    r.CheckFoundPath(db);
    var aborted := r.CheckFoundIno(db);
    if !aborted { r.FinishOp(db); }
    reply := Outcome(Db(db.files, db.attrs), r.msg, r.inserted, r.value);
  }

  // ----- a whole session -----

  datatype Event = Arrives(m: Msg) | Idle

  function Arrived(events: seq<Event>): seq<Msg>
  {
    if events == [] then []
    else
      var e := events[|events| - 1];
      Arrived(events[..|events| - 1]) + if e.Arrives? then [e.m] else []
  }

  lemma RunSnoc(db: Db, msgs: seq<Msg>, m: Msg)
    ensures Run(db, msgs + [m]) == Process(Run(db, msgs), m).db
  {
    assert (msgs + [m])[..|msgs|] == msgs;
  }

  lemma ArrivedNext(events: seq<Event>, i: nat)
    requires i < |events|
    ensures Arrived(events[..i + 1]) ==
            if events[i].Arrives? then Arrived(events[..i]) + [events[i].m] else Arrived(events[..i])
  {
    var soFar := events[..i + 1];
    assert soFar[..i] == events[..i] && soFar[i] == events[i];
  }

  // Start from what is on disk, answer requests in whatever order they come with any number of
  // occasional write-backs in between, and flush on the way out: the disk holds exactly what
  // the requests did.
  method Session(saved: Db, events: seq<Event>) returns (db: FileDb)
    ensures db.Valid() && db.disk == db.Memory() == Run(saved, Arrived(events))
  {
    hide Process;
    db := new FileDb(saved);
    var i := 0;
    while i < |events|
      invariant 0 <= i <= |events| && fresh(db) && db.Valid()
      invariant db.Memory() == Run(saved, Arrived(events[..i]))
    {
      ArrivedNext(events, i);
      match events[i] {
        case Arrives(m) =>
          RunSnoc(saved, Arrived(events[..i]), m);
          var _ := PseudoOp(db, m);
        case Idle =>
          var _ := db.MaybeBackup();
      }
      i := i + 1;
    }
    assert events[..i] == events;
    db.Backup();
  }
}
