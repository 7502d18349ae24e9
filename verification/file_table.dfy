// The files and xattrs tables, and the meaning of each SQL statement the server runs
// on them.  A table maps the integer primary key to its row; an INSERT takes the
// largest key plus one and a SELECT that steps once returns the smallest matching key.

module FileTable {
  import opened PathText

  datatype Option<+T> = None | Some(value: T)

  // A mode word split into its file format (the bits above 07777) and the rest.
  datatype Mode = Mode(fmt: nat, perm: nat)

  const S_IFDIR: nat := 4    // 0040000
  const S_IFLNK: nat := 10   // 0120000
  const NAMELESS: Path := "NAMELESS FILE"

  predicate IsDir(m: Mode) { m.fmt == S_IFDIR }
  predicate IsLnk(m: Mode) { m.fmt == S_IFLNK }

  // The only part of a file's format the server compares with the host's.
  predicate SameKind(a: Mode, b: Mode)
  {
    IsDir(a) == IsDir(b) && IsLnk(a) == IsLnk(b)
  }

  datatype Row = Row(path: Path, dev: int, ino: int, uid: int, gid: int, mode: Mode, rdev: int, deleting: int)

  predicate SameInode(a: Row, b: Row) { a.dev == b.dev && a.ino == b.ino }
  predicate SameMeta(a: Row, b: Row)
  {
    a.uid == b.uid && a.gid == b.gid && a.mode == b.mode && a.rdev == b.rdev
  }

  type Files = map<nat, Row>

  datatype AttrKey = AttrKey(dev: int, ino: int, name: string)
  type Attrs = map<AttrKey, string>

  datatype Db = Db(files: Files, attrs: Attrs)

  // ----- rowid selection -----

  predicate IsLeast(s: set<nat>, m: nat) { m in s && forall k | k in s :: m <= k }
  predicate IsGreatest(s: set<nat>, m: nat) { m in s && forall k | k in s :: k <= m }

  lemma LeastExists(s: set<nat>)
    requires s != {}
    ensures exists m :: IsLeast(s, m)
  {
    var k :| k in s;
    if s == {k} {
      assert IsLeast(s, k);
    } else {
      LeastExists(s - {k});
      var m :| IsLeast(s - {k}, m);
      assert forall j | j in s :: j == k || j in s - {k};
      assert IsLeast(s, if m < k then m else k);
    }
  }

  lemma GreatestExists(s: set<nat>)
    requires s != {}
    ensures exists m :: IsGreatest(s, m)
  {
    var k :| k in s;
    if s == {k} {
      assert IsGreatest(s, k);
    } else {
      GreatestExists(s - {k});
      var m :| IsGreatest(s - {k}, m);
      assert forall j | j in s :: j == k || j in s - {k};
      assert IsGreatest(s, if m > k then m else k);
    }
  }

  function Least(s: set<nat>): (o: Option<nat>)
    ensures o.None? <==> s == {}
    ensures o.Some? ==> IsLeast(s, o.value)
  {
    if s == {} then None
    else
      LeastExists(s);
      var m :| m in s && IsLeast(s, m);
      Some(m)
  }

  // The key an INSERT assigns.
  function FreshId(t: Files): (id: nat)
    ensures id !in t && forall k | k in t :: k < id
  {
    if t.Keys == {} then 1
    else
      GreatestExists(t.Keys);
      var m :| m in t.Keys && IsGreatest(t.Keys, m);
      m + 1
  }

  // ----- SELECT ... WHERE, first row -----

  function ByPath(t: Files, p: Path): (o: Option<nat>)
    ensures o.Some? ==> o.value in t && t[o.value].path == p && forall k | k in t && t[k].path == p :: o.value <= k
    ensures o.None? ==> forall k | k in t :: t[k].path != p
  {
    var hits := set k | k in t && t[k].path == p;
    assert forall k | k in t && t[k].path == p :: k in hits;
    Least(hits)
  }

  function ByInode(t: Files, dev: int, ino: int): (o: Option<nat>)
    ensures o.Some? ==> o.value in t && t[o.value].dev == dev && t[o.value].ino == ino
                        && forall k | k in t && t[k].dev == dev && t[k].ino == ino :: o.value <= k
    ensures o.None? ==> forall k | k in t :: !(t[k].dev == dev && t[k].ino == ino)
  {
    var hits := set k | k in t && t[k].dev == dev && t[k].ino == ino;
    assert forall k | k in t && t[k].dev == dev && t[k].ino == ino :: k in hits;
    Least(hits)
  }

  function ByPathAndInode(t: Files, p: Path, dev: int, ino: int): (o: Option<nat>)
    ensures o.Some? ==> o.value in t && t[o.value].path == p && t[o.value].dev == dev && t[o.value].ino == ino
                        && forall k | k in t && t[k].path == p && t[k].dev == dev && t[k].ino == ino :: o.value <= k
    ensures o.None? ==> forall k | k in t :: !(t[k].path == p && t[k].dev == dev && t[k].ino == ino)
  {
    var hits := set k | k in t && t[k].path == p && t[k].dev == dev && t[k].ino == ino;
    assert forall k | k in t && t[k].path == p && t[k].dev == dev && t[k].ino == ino :: k in hits;
    Least(hits)
  }

  predicate HasPath(t: Files, p: Path) { exists k :: k in t && t[k].path == p }

  predicate HasInode(t: Files, dev: int, ino: int)
  {
    exists k :: k in t && t[k].dev == dev && t[k].ino == ino
  }

  // ----- INSERT, DELETE, UPDATE on files -----

  function Insert(t: Files, r: Row): Files { t[FreshId(t) := r] }

  function DeletePath(t: Files, p: Path): Files
  {
    map k | k in t && t[k].path != p :: t[k]
  }

  function DeleteInode(t: Files, dev: int, ino: int): Files
  {
    map k | k in t && !(t[k].dev == dev && t[k].ino == ino) :: t[k]
  }

  function DeletePathMarked(t: Files, p: Path, mark: int): Files
  {
    map k | k in t && !(t[k].path == p && t[k].deleting == mark) :: t[k]
  }

  function DeleteMarked(t: Files, mark: int): Files
  {
    map k | k in t && t[k].deleting != mark :: t[k]
  }

  function DeleteRange(t: Files, dir: Path): Files
  {
    map k | k in t && !InRange(dir, t[k].path) :: t[k]
  }

  function SetMark(t: Files, p: Path, mark: int): Files
  {
    map k | k in t :: if t[k].path == p then t[k].(deleting := mark) else t[k]
  }

  function SetInode(t: Files, p: Path, dev: int, ino: int): Files
  {
    map k | k in t :: if t[k].path == p then t[k].(dev := dev, ino := ino) else t[k]
  }

  function SetMeta(t: Files, dev: int, ino: int, uid: int, gid: int, mode: Mode, rdev: int): Files
  {
    map k | k in t ::
      if t[k].dev == dev && t[k].ino == ino
      then t[k].(uid := uid, gid := gid, mode := mode, rdev := rdev) else t[k]
  }

  function RenameExact(t: Files, src: Path, dst: Path): Files
  {
    map k | k in t :: if t[k].path == src then t[k].(path := dst, deleting := 0) else t[k]
  }

  function RenameRange(t: Files, src: Path, dst: Path): Files
  {
    map k | k in t ::
      if InRange(src, t[k].path)
      then t[k].(path := Replace(t[k].path, src, dst), deleting := 0) else t[k]
  }

  // The two statements of a rename, inside one transaction.
  function RenameFiles(t: Files, src: Path, dst: Path): Files
  {
    RenameRange(RenameExact(t, src, dst), src, dst)
  }

  function Renumber(t: Files, src: int, dst: int): Files
  {
    map k | k in t :: if t[k].dev == src then t[k].(dev := dst) else t[k]
  }

  // ----- xattrs -----

  function ClearUnusedAttrs(db: Db): Db
  {
    db.(attrs := map k | k in db.attrs && HasInode(db.files, k.dev, k.ino) :: db.attrs[k])
  }

  // Drop the attributes of one inode unless some row still names it.
  function ClearAttrs(db: Db, dev: int, ino: int): Db
  {
    if HasInode(db.files, dev, ino) then db
    else db.(attrs := map k | k in db.attrs && !(k.dev == dev && k.ino == ino) :: db.attrs[k])
  }

  function ClearAttr(db: Db, key: AttrKey): Db
  {
    db.(attrs := db.attrs - {key})
  }

  // ----- facts about the statements -----

  // The range scan is the directory test, so the two subtree statements may be read with Below.
  lemma DeleteRangeIsSubtree(t: Files, dir: Path)
    ensures DeleteRange(t, dir) == map k | k in t && !Below(dir, t[k].path) :: t[k]
  {
    forall k | k in t
      ensures InRange(dir, t[k].path) == Below(dir, t[k].path)
    {
      RangeIsDescendants(dir, t[k].path);
    }
  }

  lemma RenameRangeIsSubtree(t: Files, src: Path, dst: Path)
    ensures RenameRange(t, src, dst) ==
            map k | k in t ::
              if Below(src, t[k].path)
              then t[k].(path := Replace(t[k].path, src, dst), deleting := 0) else t[k]
  {
    forall k | k in t
      ensures InRange(src, t[k].path) == Below(src, t[k].path)
    {
      RangeIsDescendants(src, t[k].path);
    }
  }

  // What a rename ought to do to every row.
  function MoveRow(r: Row, src: Path, dst: Path): Row
  {
    if r.path == src || Below(src, r.path)
    then r.(path := Moved(r.path, src, dst), deleting := 0) else r
  }

  function MoveRows(t: Files, src: Path, dst: Path): Files
  {
    map k | k in t :: MoveRow(t[k], src, dst)
  }

  // No name below src repeats src: the guard under which replace() is a prefix swap.
  ghost predicate PlainBelow(t: Files, src: Path)
  {
    forall k | k in t && Below(src, t[k].path) :: !Occurs(src, t[k].path[|src|..])
  }

  // A rename moves the directory and its whole subtree, keeps every other column and every
  // other row, exactly when no name below the old path contains the old path again.
  lemma RenameMovesSubtree(t: Files, src: Path, dst: Path)
    requires src != "" && src != dst && !Below(src, dst)
    ensures RenameFiles(t, src, dst) == MoveRows(t, src, dst) <==> PlainBelow(t, src)
  {
    var mid := RenameExact(t, src, dst);
    var got := RenameFiles(t, src, dst);
    var want := MoveRows(t, src, dst);
    RenameRangeIsSubtree(mid, src, dst);
    assert got.Keys == t.Keys == want.Keys;
    forall k | k in t
      ensures got[k] == want[k] <==> !(Below(src, t[k].path) && Occurs(src, t[k].path[|src|..]))
    {
      if Below(src, t[k].path) {
        ReplaceMovesDescendant(t[k].path, src, dst);
      }
    }
  }

  // The reverse rename restores every path when nothing was at or below the new name.
  lemma RenameRoundTrip(t: Files, src: Path, dst: Path)
    requires src != "" && dst != "" && src != dst && !Below(src, dst) && !Below(dst, src)
    requires forall k | k in t :: t[k].path != dst && !Below(dst, t[k].path)
    requires PlainBelow(t, src)
    requires PlainBelow(MoveRows(t, src, dst), dst)
    ensures var back := RenameFiles(RenameFiles(t, src, dst), dst, src);
            && back.Keys == t.Keys
            && forall k | k in t ::
                 back[k] == (if t[k].path == src || Below(src, t[k].path) then t[k].(deleting := 0) else t[k])
  {
    RenameMovesSubtree(t, src, dst);
    var there := MoveRows(t, src, dst);
    RenameMovesSubtree(there, dst, src);
    forall k | k in t
      ensures MoveRow(MoveRow(t[k], src, dst), dst, src)
              == (if t[k].path == src || Below(src, t[k].path) then t[k].(deleting := 0) else t[k])
    {
      MovedBack(t[k].path, src, dst);
      var q := Moved(t[k].path, src, dst);
      if Below(src, t[k].path) {
        assert q[..|dst|] == dst && q[|dst|] == '/';
      }
    }
  }
}
