// The wrapped calls as the client runs them: a sequence of requests around the real call, with
// the flags that remember what the server answered.  `ok` is how the real call ends.

module Wrappers {
  import opened PathText
  import opened FileTable
  import opened ServerOp
  import opened FileDbs
  import opened Requests
  import opened WrapperScripts

  predicate Answered(msg: Option<Msg>) { msg.Some? && msg.value.result == SUCCEED }

  // One request and its answer, if the operation is one the server is asked about.
  method ClientOp(db: FileDb, who: Caller, op: Op, path: Option<Path>, buf: Option<StatBuf>, extra: string)
    returns (msg: Option<Msg>)
    requires db.Valid()
    modifies db`files, db`attrs, db`dirty
    ensures db.Valid()
    ensures msg.Some? <==>
            op !in {CHDIR, CLOSE, CREATE_XATTR, REPLACE_XATTR} && (op in {EXEC, OPEN} ==> who.logging)
    ensures msg.None? ==> db.Memory() == old(db.Memory())
    ensures msg.Some? ==>
              var plain := Request(op, who.client, if path.Some? then path.value else "", buf, extra);
              var m := plain.(named := path.Some?,
                  uid := if op in {CHMOD, CREAT, FCHMOD, MKDIR, MKNOD, SYMLINK} then who.fuid else plain.uid,
                  gid := if op in {CHMOD, CREAT, FCHMOD, MKDIR, MKNOD, SYMLINK} then who.fgid else plain.gid);
              db.Memory() == After(old(db.Memory()), m) && msg.value == Reply(old(db.Memory()), m)
  {
    hide Process;
    var m := Request(op, who.client, if path.Some? then path.value else "", buf, extra).(named := path.Some?);
    var doRequest := true;
    match op {
      case CHDIR => doRequest := false;
      case CLOSE => doRequest := false;
      case CREATE_XATTR => doRequest := false;
      case REPLACE_XATTR => doRequest := false;
      case OPEN => doRequest := who.logging;
      case EXEC => doRequest := who.logging;
      case CHMOD => m := m.(uid := who.fuid, gid := who.fgid);
      case CREAT => m := m.(uid := who.fuid, gid := who.fgid);
      case FCHMOD => m := m.(uid := who.fuid, gid := who.fgid);
      case MKDIR => m := m.(uid := who.fuid, gid := who.fgid);
      case MKNOD => m := m.(uid := who.fuid, gid := who.fgid);
      case SYMLINK => m := m.(uid := who.fuid, gid := who.fgid);
      case _ =>
    }
    if !doRequest { return None; }
    var reply := PseudoOp(db, m);
    msg := Some(reply.msg);
  }

  // open with O_CREAT, mkdir, mknod and symlink, after the real call.
  method WrapCreate(db: FileDb, who: Caller, op: Op, path: Path, buf: StatBuf)
    requires db.Valid() && op in {CREAT, MKDIR, MKNOD, SYMLINK}
    modifies db`files, db`attrs, db`dirty
    ensures db.Valid() && db.Memory() == CreateScript(old(db.Memory()), op, who.client, path, buf, who.fuid, who.fgid)
  {
    hide Process;
    var _ := ClientOp(db, who, op, Some(path), Some(buf), "");
  }

  // chmod keeps the format bits of the host's file, and leaves symbolic links alone.
  method WrapFchmodat(db: FileDb, who: Caller, path: Path, stat: StatBuf, perm: nat)
    requires db.Valid()
    modifies db`files, db`attrs, db`dirty
    ensures db.Valid() && db.Memory() == ChmodScript(old(db.Memory()), who.client, path, stat, perm, who.fuid, who.fgid)
  {
    hide Process;
    var buf := stat;
    if IsLnk(buf.mode) { return; }
    buf := buf.(mode := Mode(buf.mode.fmt, perm));
    var _ := ClientOp(db, who, CHMOD, Some(path), Some(buf), "");
  }

  // chown asks for the current owner when either id is to stay.
  method WrapFchownat(db: FileDb, who: Caller, path: Path, stat: StatBuf, owner: Option<int>, group: Option<int>)
    requires db.Valid()
    modifies db`files, db`attrs, db`dirty
    ensures db.Valid() && db.Memory() == ChownScript(old(db.Memory()), who.client, path, stat, owner, group)
  {
    hide Process;
    var buf := stat;
    if owner.None? || group.None? {
      var msg := ClientOp(db, who, STAT, Some(path), Some(buf), "");
      if Answered(msg) {
        buf := buf.(uid := msg.value.uid, gid := msg.value.gid, mode := msg.value.mode, rdev := msg.value.rdev);
      }
    }
    if owner.Some? { buf := buf.(uid := owner.value); }
    if group.Some? { buf := buf.(gid := group.value); }
    var _ := ClientOp(db, who, CHOWN, Some(path), Some(buf), "");
  }

  // A request that is always sent and carries the buffer as it is; whether it succeeded.
  method Ask(db: FileDb, who: Caller, op: Op, path: Path, buf: Option<StatBuf>, extra: string) returns (good: bool)
    requires db.Valid() && IsSent(op, who.logging) && !SendsOwner(op)
    modifies db`files, db`attrs, db`dirty
    ensures var m := Request(op, who.client, path, buf, extra);
            db.Valid() && db.Memory() == After(old(db.Memory()), m) && good == Succeeds(old(db.Memory()), m)
  {
    hide Process;
    var msg := ClientOp(db, who, op, Some(path), buf, extra);
    good := Answered(msg);
  }

  // unlinkat and rmdir, once the file has been found.
  method WrapUnlinkat(db: FileDb, who: Caller, path: Path, buf: StatBuf, ok: bool)
    requires db.Valid()
    modifies db`files, db`attrs, db`dirty
    ensures db.Valid() && db.Memory() == RemoveScript(old(db.Memory()), who.client, path, buf, ok)
  {
    hide Process;
    var oldDbEntry := Ask(db, who, MAY_UNLINK, path, Some(buf), "");
    if oldDbEntry {
      if !ok {
        var _ := Ask(db, who, CANCEL_UNLINK, path, Some(buf), "");
      } else {
        var _ := Ask(db, who, DID_UNLINK, path, Some(buf), "");
      }
    }
  }

  // linkat of a named file, after the real link: the stat buffer is filled from the reply.
  method WrapLinkat(db: FileDb, who: Caller, oldPath: Path, newPath: Path, stat: StatBuf)
    requires db.Valid()
    modifies db`files, db`attrs, db`dirty
    ensures db.Valid() && db.Memory() == LinkScript(old(db.Memory()), who.client, oldPath, newPath, stat)
  {
    hide Process;
    var buf := stat;
    var msg := ClientOp(db, who, STAT, Some(oldPath), Some(buf), "");
    if Answered(msg) {
      buf := buf.(uid := msg.value.uid, gid := msg.value.gid, mode := msg.value.mode, rdev := msg.value.rdev);
    }
    msg := ClientOp(db, who, LINK, Some(newPath), Some(buf), "");
  }

  // linkat of a descriptor, whose path the client may know.
  method WrapLinkTmpfile(db: FileDb, who: Caller, fdPath: Option<Path>, newPath: Path, stat: StatBuf)
    requires db.Valid()
    modifies db`files, db`attrs, db`dirty
    ensures db.Valid() && db.Memory() == LinkTmpScript(old(db.Memory()), who, fdPath, newPath, stat)
  {
    hide Process;
    var buf := stat;
    var msg := ClientOp(db, who, FSTAT, fdPath, Some(buf), "");
    if !Answered(msg) {
      msg := ClientOp(db, who, CREAT, Some(newPath), Some(buf), "");
      msg := ClientOp(db, who, OPEN, Some(newPath), Some(buf), "");
      return;
    }
    buf := buf.(uid := msg.value.uid, gid := msg.value.gid, mode := msg.value.mode, rdev := msg.value.rdev);
    msg := ClientOp(db, who, LINK, Some(newPath), Some(buf), "");
  }

  // rename and renameat.
  method WrapRename(db: FileDb, who: Caller, oldPath: Path, newPath: Path,
                    oldStat: Option<StatBuf>, newBuf: Option<StatBuf>, ok: bool)
    requires db.Valid() && (ok ==> oldStat.Some?)
    modifies db`files, db`attrs, db`dirty
    ensures db.Valid()
    ensures db.Memory() == RenameScript(old(db.Memory()), who.client, oldPath, newPath, oldStat, newBuf, ok)
  {
    hide Process, After, Succeeds, Request;
    var oldBuf := oldStat;
    if newBuf.Some? && oldBuf.Some? && newBuf.value.node == oldBuf.value.node { return; }

    var mayUnlinkNew := Ask(db, who, MAY_UNLINK, newPath, newBuf, "");
    var mayUnlinkOld := Ask(db, who, MAY_UNLINK, oldPath, oldBuf, "");
    var oldDbEntry := Ask(db, who, STAT, oldPath, oldBuf, "");

    if !ok {
      if mayUnlinkNew { var _ := Ask(db, who, CANCEL_UNLINK, newPath, newBuf, ""); }
      if mayUnlinkOld { var _ := Ask(db, who, CANCEL_UNLINK, oldPath, oldBuf, ""); }
      return;
    }

    if mayUnlinkNew { var _ := Ask(db, who, DID_UNLINK, newPath, newBuf, ""); }
    if !oldDbEntry {
      if newBuf.Some? && newBuf.value.node.dev != oldBuf.value.node.dev {
        oldBuf := Some(oldBuf.value.(node := newBuf.value.node));
      }
      var _ := Ask(db, who, LINK, oldPath, oldBuf, "");
    }
    var _ := Ask(db, who, RENAME, newPath, oldBuf, oldPath);
  }
}
