// The server's request state machine: what one request does to the database and what it
// answers.  A request is looked up by path and inode, two rounds of sanity checks may
// repair the database or refuse the request, and then the operation itself runs.

module ServerOp {
  import opened PathText
  import opened FileTable
  import opened NameList

  datatype Op =
    | CHDIR | CLOSE | EXEC | OPEN
    | CREAT | CHMOD | FCHMOD | CHOWN | FCHOWN | STAT | FSTAT
    | LINK | SYMLINK | RENAME
    | MAY_UNLINK | DID_UNLINK | CANCEL_UNLINK | UNLINK
    | MKDIR | MKNOD
    | GET_XATTR | LIST_XATTR | CREATE_XATTR | REPLACE_XATTR | SET_XATTR | REMOVE_XATTR

  datatype Result = SUCCEED | FAIL | NONE | ABORT

  // A request after its packed path has been split: `named` says whether pathlen is
  // non-zero, `extra` is the old path of a rename or the attribute data.
  datatype Msg = Msg(
    op: Op, client: int, result: Result,
    dev: int, ino: int, uid: int, gid: int, mode: Mode, rdev: int, nlink: int, deleting: int,
    named: bool, path: Path, extra: string)

  // The reply, the rowid of a row inserted on the way, and the bytes sent back with it.
  datatype Outcome = Outcome(db: Db, msg: Msg, inserted: Option<nat>, value: Option<string>)

  // The locals of one request.
  datatype Work = Work(
    db: Db, msg: Msg, header: Msg, byPath: Msg, byIno: Msg, pathByIno: Path,
    foundPath: bool, foundIno: bool, foundExact: bool)

  function WithMeta(m: Msg, r: Row): Msg
  {
    m.(uid := r.uid, gid := r.gid, mode := r.mode, rdev := r.rdev, deleting := r.deleting)
  }

  function WithRow(m: Msg, r: Row): Msg
  {
    WithMeta(m, r).(dev := r.dev, ino := r.ino)
  }

  function RowOf(m: Msg): Row
  {
    Row(if m.named then m.path else NAMELESS, m.dev, m.ino, m.uid, m.gid, m.mode, m.rdev, 0)
  }

  // ----- the pdb_* calls, on values -----

  function LinkFile(db: Db, m: Msg): Db
  {
    db.(files := Insert(db.files, RowOf(m)))
  }

  function UnlinkFileDev(db: Db, m: Msg): Db
  {
    ClearAttrs(db.(files := DeleteInode(db.files, m.dev, m.ino)), m.dev, m.ino)
  }

  function UnlinkFile(db: Db, m: Msg): Db
  {
    if !m.named then db
    else ClearAttrs(db.(files := DeletePath(db.files, m.path)), m.dev, m.ino)
  }

  function UnlinkContents(db: Db, m: Msg): Db
  {
    if !m.named then db
    else ClearUnusedAttrs(db.(files := DeleteRange(db.files, m.path)))
  }

  function MayUnlink(db: Db, m: Msg, mark: int): Db
  {
    if !m.named then db
    else db.(files := SetMark(db.files, m.path, mark))
  }

  function CancelUnlink(db: Db, m: Msg): Db
  {
    if !m.named then db
    else ClearAttrs(db.(files := SetMark(db.files, m.path, 0)), m.dev, m.ino)
  }

  function DidUnlink(db: Db, m: Msg, mark: int): Db
  {
    ClearAttrs(db.(files := DeletePathMarked(db.files, m.path, mark)), m.dev, m.ino)
  }

  // The form used on a clash, where the inode of the stale row is not trusted.
  function DidUnlinkClash(db: Db, p: Path, mark: int): Db
  {
    ClearUnusedAttrs(db.(files := DeletePathMarked(db.files, p, mark)))
  }

  function UpdateFile(db: Db, m: Msg): Db
  {
    db.(files := SetMeta(db.files, m.dev, m.ino, m.uid, m.gid, m.mode, m.rdev))
  }

  function RenameFile(db: Db, m: Msg): Db
  {
    if !m.named then db
    else db.(files := RenameFiles(db.files, m.extra, m.path))
  }

  // The copying of attributes that goes with this update is not part of this model.
  function UpdateInode(db: Db, m: Msg): Db
  {
    if !m.named then db
    else db.(files := SetInode(db.files, m.path, m.dev, m.ino))
  }

  // Attribute data is a name, a NUL and a value; a name on its own has no NUL.
  function AttrOf(m: Msg): AttrKey { AttrKey(m.dev, m.ino, CString(m.extra)) }

  function AttrNames(db: Db, dev: int, ino: int): set<string>
  {
    set k | k in db.attrs && k.dev == dev && k.ino == ino :: k.name
  }

  // The names in order, each with its NUL; nothing at all when there are none.
  function ListOf(names: set<string>): Option<string>
  {
    if names == {} then None else Some(Listing(Sorted(names)))
  }

  // ----- stage 1: look the request up -----

  function Lookup(db: Db, msg: Msg): Work
  {
    var h := msg.(result := SUCCEED);
    var exact := if h.named && h.dev != 0 && h.ino != 0
                 then ByPathAndInode(db.files, h.path, h.dev, h.ino) else None;
    if exact.Some? then
      var hit := WithMeta(h, db.files[exact.value]);
      Work(db, h, h, hit, hit, h.path, true, true, true)
    else
      var atPath := if h.named then ByPath(db.files, h.path) else None;
      var m := if atPath.Some? then WithRow(h, db.files[atPath.value]) else h;
      // the guard reads the message, which may already hold the row's inode;
      // the search uses the request's own
      var atIno := if m.dev != 0 && m.ino != 0 then ByInode(db.files, h.dev, h.ino) else None;
      Work(db, m, h, m,
           if atIno.Some? then WithMeta(h, db.files[atIno.value]) else h,
           if atIno.Some? then db.files[atIno.value].path else "",
           atPath.Some?, atIno.Some?, false)
  }

  // ----- stage 2: the row found by path -----

  function CheckPath(w: Work): Work
  {
    if !w.foundPath || w.msg.op == DID_UNLINK then w
    else
      var clash := w.byPath.ino != w.header.ino && w.header.ino != 0 && w.msg.op != EXEC
                   && w.byPath.deleting != 0;
      var db1 := if clash then DidUnlinkClash(w.db, w.msg.path, w.byPath.deleting) else w.db;
      if SameKind(w.byPath.mode, w.header.mode) then w.(db := db1)
      else w.(db := UnlinkFile(db1, w.msg), foundPath := false)
  }

  // ----- stage 3: the row found by inode -----

  predicate PathMismatch(w: Work)
  {
    w.msg.named &&
    match w.msg.op
    case LINK => false
    case EXEC => false
    case RENAME => w.msg.nlink == 1 && w.msg.extra != w.pathByIno
    case _ => w.msg.path != w.pathByIno && w.pathByIno != NAMELESS
  }

  predicate Refused(w: Work)
  {
    w.foundIno && w.msg.op != DID_UNLINK && PathMismatch(w) && w.byIno.deleting == 0
  }

  function CheckIno(w: Work): Work
    requires !Refused(w)
  {
    if !w.foundIno || w.msg.op == DID_UNLINK || SameKind(w.byIno.mode, w.header.mode) then w
    else w.(db := UnlinkFileDev(w.db, w.msg), foundIno := false)
  }

  // ----- stage 4: the operation -----

  function Done(w: Work, db: Db, msg: Msg): Outcome
  {
    Outcome(db, msg, None, None)
  }

  function Linked(w: Work, db: Db, msg: Msg): Outcome
  {
    Outcome(LinkFile(db, msg), msg, Some(FreshId(db.files)), None)
  }

  function Failing(m: Msg, fails: bool): Msg
  {
    if fails then m.(result := FAIL) else m
  }

  function Creat(w: Work): Outcome
  {
    var db1 := if w.foundIno && !w.foundExact then UnlinkFileDev(w.db, w.byIno) else w.db;
    if w.foundPath then Done(w, db1, w.msg) else Linked(w, db1, w.msg)
  }

  function Chmod(w: Work): Outcome
  {
    if w.foundIno || w.foundPath then
      var hit := if w.foundIno then w.byIno else w.byPath;
      var m := hit.(mode := Mode(hit.mode.fmt, w.header.mode.perm));
      Done(w, UpdateFile(w.db, m), m)
    else
      Linked(w, w.db, w.msg.(mode := w.header.mode))
  }

  function Chown(w: Work): Outcome
  {
    if w.foundIno || w.foundPath then
      var m := (if w.foundIno then w.byIno else w.byPath).(uid := w.header.uid, gid := w.header.gid);
      Done(w, UpdateFile(w.db, m), m)
    else
      Linked(w, w.db, w.msg.(uid := w.header.uid, gid := w.header.gid))
  }

  function Stat(w: Work, preferIno: bool): Outcome
  {
    if w.foundIno && (preferIno || !w.foundPath) then Done(w, w.db, w.byIno)
    else if w.foundPath then Done(w, w.db, w.byPath)
    else Done(w, w.db, w.msg.(result := FAIL))
  }

  function Link(w: Work): Outcome
  {
    var db1 := if w.foundPath then UnlinkFile(w.db, w.msg) else w.db;
    var m := if !w.foundIno then w.header
             else if w.msg.op == SYMLINK then w.msg
             else w.byIno;
    Linked(w, db1, m)
  }

  function Make(w: Work): Outcome
  {
    var db1 := if w.foundPath then UnlinkFile(w.db, w.msg) else w.db;
    var db2 := if w.foundIno then UnlinkFileDev(db1, w.byIno) else db1;
    Linked(w, db2, w.header)
  }

  function Unlink(w: Work): Outcome
  {
    var db1 := UnlinkContents(UnlinkFile(w.db, w.msg), w.msg);
    var db2 := if w.header.nlink == 1 && w.foundIno then UnlinkFileDev(db1, w.msg) else db1;
    Done(w, db2, w.msg.(result := NONE))
  }

  function SetAttr(w: Work): Outcome
  {
    var key := AttrOf(w.msg);
    if (w.msg.op == CREATE_XATTR && key in w.db.attrs) || (w.msg.op == REPLACE_XATTR && key !in w.db.attrs)
    then Done(w, w.db, w.msg.(result := FAIL))
    else Done(w, w.db.(attrs := w.db.attrs[key := AfterNul(w.msg.extra)]), w.msg)
  }

  function GetAttr(w: Work): Outcome
  {
    var key := AttrOf(w.msg);
    if key in w.db.attrs && w.db.attrs[key] != ""
    then Outcome(w.db, w.msg, None, Some(w.db.attrs[key]))
    else Done(w, w.db, w.msg.(result := FAIL))
  }

  function Dispatch(w: Work): Outcome
  {
    match w.msg.op
    case CHDIR => Done(w, w.db, w.msg)
    case CLOSE => Done(w, w.db, w.msg)
    case EXEC => Done(w, w.db, w.msg)
    case OPEN => Done(w, w.db, w.msg)
    case CREAT => Creat(w)
    case CHMOD => Chmod(w)
    case FCHMOD => Chmod(w)
    case CHOWN => Chown(w)
    case FCHOWN => Chown(w)
    case STAT => Stat(w, false)
    case FSTAT => Stat(w, true)
    case LINK => Link(w)
    case SYMLINK => Link(w)
    case RENAME => Done(w, UpdateInode(RenameFile(w.db, w.msg), w.msg), w.msg)
    case MAY_UNLINK =>
      Done(w, MayUnlink(w.db, w.msg, w.msg.client),
           Failing(w.msg, !w.msg.named || ByPath(w.db.files, w.msg.path).None?))
    case DID_UNLINK => Done(w, DidUnlink(w.db, w.msg, w.msg.client), w.msg)
    case CANCEL_UNLINK => Done(w, CancelUnlink(w.db, w.msg), w.msg)
    case UNLINK => Unlink(w)
    case MKDIR => Make(w)
    case MKNOD => Make(w)
    case GET_XATTR => GetAttr(w)
    case LIST_XATTR => Outcome(w.db, w.msg, None, ListOf(AttrNames(w.db, w.msg.dev, w.msg.ino)))
    case CREATE_XATTR => SetAttr(w)
    case REPLACE_XATTR => SetAttr(w)
    case SET_XATTR => SetAttr(w)
    case REMOVE_XATTR => Done(w, ClearAttr(w.db, AttrKey(w.msg.dev, w.msg.ino, w.msg.extra)), w.msg)
  }

  predicate MarksUnlinked(w: Work)
  {
    (w.msg.op == FCHOWN || w.msg.op == FCHMOD || w.msg.op == FSTAT)
    && !w.foundPath && !w.foundIno && w.msg.nlink == 0
  }

  // Descriptor operations on a file with no links left also mark its path.
  function Finish(w: Work): Outcome
  {
    var o := Dispatch(w);
    if MarksUnlinked(w)
    then o.(db := MayUnlink(o.db, o.msg, o.msg.client)) else o
  }

  function Front(db: Db, msg: Msg): Work { CheckPath(Lookup(db, msg)) }

  function Process(db: Db, msg: Msg): Outcome
  {
    var w := Front(db, msg);
    if Refused(w) then Done(w, w.db, w.msg.(result := ABORT))
    else Finish(CheckIno(w))
  }

  // The database after a sequence of requests, in the order the server took them.
  function Run(db: Db, msgs: seq<Msg>): Db
  {
    if msgs == [] then db
    else Process(Run(db, msgs[..|msgs| - 1]), msgs[|msgs| - 1]).db
  }
}
