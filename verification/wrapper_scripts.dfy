// The client half: what each wrapped call asks of the server around the real system call.
// A script maps the database before the call to the database after it.

module WrapperScripts {
  import opened PathText
  import opened FileTable
  import opened ServerOp

  datatype Inode = Inode(dev: int, ino: int)

  // A stat buffer as the wrappers fill it.
  datatype StatBuf = StatBuf(node: Inode, uid: int, gid: int, mode: Mode, rdev: int, nlink: int)

  // A request built from a stat buffer; without one every stat field is zero.
  function Request(op: Op, client: int, path: Path, buf: Option<StatBuf>, extra: string): Msg
  {
    match buf
    case Some(b) =>
      Msg(op, client, NONE, b.node.dev, b.node.ino, b.uid, b.gid, b.mode, b.rdev, b.nlink, 0, true, path, extra)
    case None =>
      Msg(op, client, NONE, 0, 0, 0, 0, Mode(0, 0), 0, 0, 0, true, path, extra)
  }

  // The operations that send the emulated owner in place of the host's.
  function Owned(m: Msg, fuid: int, fgid: int): Msg { m.(uid := fuid, gid := fgid) }

  // Who calls: the process, its emulated owner, and whether the server logs.
  datatype Caller = Caller(client: int, fuid: int, fgid: int, logging: bool)

  predicate SendsOwner(op: Op) { op in {CHMOD, CREAT, FCHMOD, MKDIR, MKNOD, SYMLINK} }

  // Some operations are the client's own business, two are only of interest to the log, and the
  // two that refine the setting of attributes are not known to the client.
  predicate IsSent(op: Op, logging: bool)
  {
    match op
    case CHDIR => false
    case CLOSE => false
    case CREATE_XATTR => false
    case REPLACE_XATTR => false
    case EXEC => logging
    case OPEN => logging
    case _ => true
  }

  function RequestBy(who: Caller, op: Op, path: Path, buf: Option<StatBuf>, extra: string): Msg
  {
    var m := Request(op, who.client, path, buf, extra);
    if SendsOwner(op) then Owned(m, who.fuid, who.fgid) else m
  }

  // Copy what the server answered into a stat buffer; inode and link count stay the host's.
  function StatFrom(b: StatBuf, m: Msg): StatBuf
  {
    b.(uid := m.uid, gid := m.gid, mode := m.mode, rdev := m.rdev)
  }

  function Reply(db: Db, m: Msg): Msg { Process(db, m).msg }
  function After(db: Db, m: Msg): Db { Process(db, m).db }
  predicate Succeeds(db: Db, m: Msg) { Reply(db, m).result == SUCCEED }

  // open(O_CREAT) of a new file, mkdir, mknod and symlink: one request after the real call.
  function CreateScript(db: Db, op: Op, client: int, path: Path, buf: StatBuf, fuid: int, fgid: int): Db
  {
    After(db, Owned(Request(op, client, path, Some(buf), ""), fuid, fgid))
  }

  // chmod of a symbolic link succeeds without effect.
  function ChmodScript(db: Db, client: int, path: Path, buf: StatBuf, perm: nat, fuid: int, fgid: int): Db
  {
    if IsLnk(buf.mode) then db
    else
      var b := buf.(mode := Mode(buf.mode.fmt, perm));
      After(db, Owned(Request(CHMOD, client, path, Some(b), ""), fuid, fgid))
  }

  // chown with either id left alone first asks for the current values.
  function ChownBuf(db: Db, client: int, path: Path, buf: StatBuf, owner: Option<int>, group: Option<int>): StatBuf
  {
    var ask := Request(STAT, client, path, Some(buf), "");
    var b := if (owner.None? || group.None?) && Succeeds(db, ask) then StatFrom(buf, Reply(db, ask)) else buf;
    b.(uid := if owner.Some? then owner.value else b.uid, gid := if group.Some? then group.value else b.gid)
  }

  function ChownScript(db: Db, client: int, path: Path, buf: StatBuf, owner: Option<int>, group: Option<int>): Db
  {
    var ask := Request(STAT, client, path, Some(buf), "");
    var db1 := if owner.None? || group.None? then After(db, ask) else db;
    After(db1, Request(CHOWN, client, path, Some(ChownBuf(db, client, path, buf, owner, group)), ""))
  }

  // linkat, after the real link: the new name inherits what the server knows of the old one.
  function LinkScript(db: Db, client: int, src: Path, dst: Path, buf: StatBuf): Db
  {
    var ask := Request(STAT, client, src, Some(buf), "");
    var b := if Succeeds(db, ask) then StatFrom(buf, Reply(db, ask)) else buf;
    After(After(db, ask), Request(LINK, client, dst, Some(b), ""))
  }

  // linkat of a descriptor without a name: if the server does not know the file, the new name is
  // created and not linked.
  function LinkTmpScript(db: Db, who: Caller, fdPath: Option<Path>, dst: Path, buf: StatBuf): Db
  {
    var ask := RequestBy(who, FSTAT, if fdPath.Some? then fdPath.value else "", Some(buf), "").(named := fdPath.Some?);
    var db1 := After(db, ask);
    if Succeeds(db, ask) then
      After(db1, Request(LINK, who.client, dst, Some(StatFrom(buf, Reply(db, ask))), ""))
    else
      var db2 := After(db1, RequestBy(who, CREAT, dst, Some(buf), ""));
      if who.logging then After(db2, RequestBy(who, OPEN, dst, Some(buf), "")) else db2
  }

  // unlinkat and rmdir: mark, call, confirm or cancel.
  function RemoveScript(db: Db, client: int, path: Path, buf: StatBuf, ok: bool): Db
  {
    var may := Request(MAY_UNLINK, client, path, Some(buf), "");
    var db1 := After(db, may);
    if !Succeeds(db, may) then db1
    else After(db1, Request(if ok then DID_UNLINK else CANCEL_UNLINK, client, path, Some(buf), ""))
  }

  predicate SameFile(a: Option<StatBuf>, b: Option<StatBuf>)
  {
    a.Some? && b.Some? && a.value.node == b.value.node
  }

  // The two marks and the question that come before the real rename.
  datatype Prepared = Prepared(db: Db, mayNew: bool, mayOld: bool, known: bool)

  function RenamePrepare(db: Db, client: int, src: Path, dst: Path, srcBuf: Option<StatBuf>,
      dstBuf: Option<StatBuf>): Prepared
  {
    var mayNew := Request(MAY_UNLINK, client, dst, dstBuf, "");
    var db1 := After(db, mayNew);
    var mayOld := Request(MAY_UNLINK, client, src, srcBuf, "");
    var db2 := After(db1, mayOld);
    var ask := Request(STAT, client, src, srcBuf, "");
    Prepared(After(db2, ask), Succeeds(db, mayNew), Succeeds(db1, mayOld), Succeeds(db2, ask))
  }

  function RenameCancel(p: Prepared, client: int, src: Path, dst: Path, srcBuf: Option<StatBuf>,
      dstBuf: Option<StatBuf>): Db
  {
    var db1 := if p.mayNew then After(p.db, Request(CANCEL_UNLINK, client, dst, dstBuf, "")) else p.db;
    if p.mayOld then After(db1, Request(CANCEL_UNLINK, client, src, srcBuf, "")) else db1
  }

  // An unknown old file is entered under its old name first, on the device of the file it
  // replaced if that differs.
  function RenameBuf(known: bool, srcBuf: StatBuf, dstBuf: Option<StatBuf>): StatBuf
  {
    if !known && dstBuf.Some? && dstBuf.value.node.dev != srcBuf.node.dev
    then srcBuf.(node := dstBuf.value.node) else srcBuf
  }

  function RenameConfirm(p: Prepared, client: int, src: Path, dst: Path, srcBuf: StatBuf, dstBuf: Option<StatBuf>): Db
  {
    var b := Some(RenameBuf(p.known, srcBuf, dstBuf));
    var db1 := if p.mayNew then After(p.db, Request(DID_UNLINK, client, dst, dstBuf, "")) else p.db;
    var db2 := if p.known then db1 else After(db1, Request(LINK, client, src, b, ""));
    After(db2, Request(RENAME, client, dst, b, src))
  }

  // rename and renameat.  A link renamed onto another link of the same file is left to the
  // real call, which does nothing.
  function RenameScript(db: Db, client: int, src: Path, dst: Path,
                        srcBuf: Option<StatBuf>, dstBuf: Option<StatBuf>, ok: bool): Db
    requires ok ==> srcBuf.Some?
  {
    if SameFile(srcBuf, dstBuf) then db
    else
      var p := RenamePrepare(db, client, src, dst, srcBuf, dstBuf);
      if ok then RenameConfirm(p, client, src, dst, srcBuf.value, dstBuf)
      else RenameCancel(p, client, src, dst, srcBuf, dstBuf)
  }
}
