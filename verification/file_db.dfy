// The server's file database as an object: an in-memory copy that every statement updates in
// place, the copy on disk, and the flag that says the two may differ.

module FileDbs {
  import opened PathText
  import opened FileTable
  import opened NameList
  import opened ServerOp

  // ----- moving a file system to another device -----

  predicate RenumberClashes(a: Attrs, src: int, dst: int)
  {
    src != dst && exists k :: k in a && k.dev == src && k.(dev := dst) in a
  }

  // A clash with the unique index over (dev, ino, name) fails the update.  That the store then
  // undoes the rows it had already moved is an assumption about the store.
  function RenumberAttrs(a: Attrs, src: int, dst: int): Attrs
  {
    if src == dst || RenumberClashes(a, src, dst) then a
    else (map k | k in a && k.dev != src :: a[k])
         + (map k | k in a && k.dev == src :: k.(dev := dst) := a[k])
  }

  function Renumbered(k: AttrKey, src: int, dst: int): AttrKey { if k.dev == src then k.(dev := dst) else k }

  lemma RenumberedAt(a: Attrs, src: int, dst: int, k: AttrKey)
    requires src != dst && !RenumberClashes(a, src, dst) && k in a
    ensures var b := RenumberAttrs(a, src, dst); var n := Renumbered(k, src, dst); n in b && b[n] == a[k]
  {
    if k.dev == src {
      var moved := map j | j in a && j.dev == src :: j.(dev := dst) := a[j];
      assert k.(dev := dst) in moved;
      assert forall j | j in a && j.dev == src && j.(dev := dst) == k.(dev := dst) :: j == k.(dev := src) == k;
    } else {
      assert forall j | j in a && j.dev == src :: j.(dev := dst) !in a;
    }
  }

  lemma RenumberedFrom(a: Attrs, src: int, dst: int, n: AttrKey)
    requires src != dst && !RenumberClashes(a, src, dst) && n in RenumberAttrs(a, src, dst)
    ensures n.dev != src && exists k :: k in a && Renumbered(k, src, dst) == n
  {
    if n in (map k | k in a && k.dev != src :: a[k]) {
      assert Renumbered(n, src, dst) == n;
    } else {
      var k :| k in a && k.dev == src && k.(dev := dst) == n;
      assert Renumbered(k, src, dst) == n;
    }
  }

  lemma RenumberedInjective(a: Attrs, src: int, dst: int, j: AttrKey, k: AttrKey)
    requires src != dst && !RenumberClashes(a, src, dst)
    requires j in a && k in a && Renumbered(j, src, dst) == Renumbered(k, src, dst)
    ensures j == k
  {
    assert j.ino == k.ino && j.name == k.name;
  }

  // Every attribute keeps its file: what was found under the old device is found under the new
  // one, and nothing is left behind or lost.
  lemma RenumberMoves(a: Attrs, src: int, dst: int)
    requires src != dst && !RenumberClashes(a, src, dst)
    ensures var b := RenumberAttrs(a, src, dst);
            && (forall k | k in a :: Renumbered(k, src, dst) in b && b[Renumbered(k, src, dst)] == a[k])
            && (forall n | n in b :: n.dev != src)
            && |b| == |a|
  {
    var b := RenumberAttrs(a, src, dst);
    forall k | k in a
      ensures Renumbered(k, src, dst) in b && b[Renumbered(k, src, dst)] == a[k]
    {
      RenumberedAt(a, src, dst, k);
    }
    forall n | n in b
      ensures n.dev != src && exists k :: k in a.Keys && Renumbered(k, src, dst) == n
    {
      RenumberedFrom(a, src, dst, n);
    }
    hide RenumberAttrs;
    forall j, k | j in a && k in a && Renumbered(j, src, dst) == Renumbered(k, src, dst)
      ensures j == k
    {
      RenumberedInjective(a, src, dst, j, k);
    }
    SameSize(a.Keys, b.Keys, src, dst);
    assert |a| == |a.Keys| && |b| == |b.Keys|;
  }

  lemma {:induction false} SameSize(s: set<AttrKey>, t: set<AttrKey>, src: int, dst: int)
    requires forall k | k in s :: Renumbered(k, src, dst) in t
    requires forall j, k | j in s && k in s && Renumbered(j, src, dst) == Renumbered(k, src, dst) :: j == k
    requires forall n | n in t :: exists k :: k in s && Renumbered(k, src, dst) == n
    ensures |s| == |t|
  {
    if s == {} {
      assert t == {};
    } else {
      var k :| k in s;
      var n := Renumbered(k, src, dst);
      SameSize(s - {k}, t - {n}, src, dst);
    }
  }

  // A multiple of 256 enough bigger than n to give some breathing room.
  function RoundUp(n: nat): (m: nat)
    ensures m > n && m % 256 == 0
  {
    256 * ((n + 64) / 256 + 1)
  }

  // One more name and its NUL, in a larger buffer if they may not fit.
  method AppendName(buffer: array<char>, used: nat, name: string) returns (b: array<char>, end: nat)
    requires used <= buffer.Length
    modifies buffer
    ensures (b == buffer || fresh(b)) && end == used + |name| + 1 <= b.Length
    ensures b[..end] == old(buffer[..used]) + name + "\0"
  {
    b := buffer;
    if used + |name| + 2 > b.Length {
      b := new char[RoundUp(used + |name| + 2)];
      forall i | 0 <= i < used { b[i] := buffer[i]; }
    }
    assert b[..used] == old(buffer[..used]);
    forall i | 0 <= i < |name| { b[used + i] := name[i]; }
    b[used + |name|] := '\0';
    end := used + |name| + 1;
  }

  predicate NodeIs(r: Row, m: Msg) { r.dev == m.dev && r.ino == m.ino }

  class FileDb {
    var files: Files
    var attrs: Attrs
    var dirty: bool
    var disk: Db
    var occasional: nat

    // Write-back: a clear flag means the disk copy is current.
    ghost predicate Valid()
      reads this
    {
      (!dirty ==> Memory() == disk) && occasional < 10
    }

    ghost function Memory(): Db
      reads this
    {
      Db(files, attrs)
    }

    // The server opens its database by loading the disk copy into memory.
    constructor (saved: Db)
      ensures Valid() && Memory() == disk == saved
    {
      files, attrs := saved.files, saved.attrs;
      disk := saved;
      dirty := false;
      occasional := 0;
    }

    method Backup()
      requires Valid()
      modifies this`disk, this`dirty
      ensures Valid() && disk == Memory() && !dirty
    {
      if !dirty { return; }
      disk := Db(files, attrs);
      dirty := false;
    }

    // Called when the server has been idle; every tenth call writes.
    method MaybeBackup() returns (written: bool)
      requires Valid()
      modifies this`disk, this`dirty, this`occasional
      ensures Valid() && occasional == (old(occasional) + 1) % 10
      ensures written == (occasional == 0)
      ensures written ==> disk == Memory()
      ensures !written ==> disk == old(disk) && dirty == old(dirty)
    {
      written := false;
      occasional := (occasional + 1) % 10;
      if occasional == 0 {
        Backup();
        written := true;
      }
    }

    // ----- attribute clean-up; these change the attributes without raising the flag -----

    method ClearUnusedXattrs()
      requires dirty && occasional < 10
      modifies this`attrs
      ensures Valid() && Memory() == ClearUnusedAttrs(old(Memory()))
    {
      attrs := map k | k in attrs && HasInode(files, k.dev, k.ino) :: attrs[k];
    }

    method ClearXattrs(m: Msg)
      requires dirty && occasional < 10
      modifies this`attrs
      ensures Valid() && Memory() == ClearAttrs(old(Memory()), m.dev, m.ino)
    {
      if ByInode(files, m.dev, m.ino).None? {
        attrs := map k | k in attrs && !(k.dev == m.dev && k.ino == m.ino) :: attrs[k];
      }
    }

    // ----- the statements on files -----

    method Link(m: Msg) returns (id: nat)
      requires Valid()
      modifies this`files, this`dirty
      ensures Valid() && Memory() == LinkFile(old(Memory()), m) && id == FreshId(old(files))
    {
      id := FreshId(files);
      dirty := true;
      files := files[id := Row(if m.named then m.path else NAMELESS, m.dev, m.ino, m.uid, m.gid, m.mode, m.rdev, 0)];
    }

    method UnlinkDev(m: Msg)
      requires Valid()
      modifies this`files, this`attrs, this`dirty
      ensures Valid() && Memory() == UnlinkFileDev(old(Memory()), m)
    {
      dirty := true;
      files := DeleteInode(files, m.dev, m.ino);
      ClearXattrs(m);
    }

    // Gives the nameless rows of an inode a path: none of them stays nameless, their other
    // columns stay, and so do all other rows.
    method UpdateFilePath(m: Msg) returns (failed: bool)
      requires Valid()
      modifies this`files, this`dirty
      ensures Valid() && failed == !m.named && attrs == old(attrs)
      ensures failed ==> files == old(files)
      ensures files.Keys == old(files).Keys
      ensures forall k | k in files :: files[k].(path := old(files)[k].path) == old(files)[k]
      ensures forall k | k in files && files[k].path != old(files)[k].path ::
                old(files)[k].path == NAMELESS && NodeIs(files[k], m) && files[k].path == m.path
      ensures !failed && m.path != NAMELESS ==>
                forall k | k in files && NodeIs(files[k], m) :: files[k].path != NAMELESS
    {
      if !m.named { return true; }
      failed := false;
      dirty := true;
      files := map k | k in files ::
        if files[k].path == NAMELESS && NodeIs(files[k], m) then files[k].(path := m.path) else files[k];
    }

    method MayUnlinkFile(m: Msg, mark: int) returns (failed: bool)
      requires Valid()
      modifies this`files, this`dirty
      ensures Valid() && Memory() == MayUnlink(old(Memory()), m, mark)
      ensures failed <==> !m.named || forall k | k in old(files) :: old(files)[k].path != m.path
    {
      if !m.named { return true; }
      dirty := true;
      var changed := set k | k in files && files[k].path == m.path;
      files := SetMark(files, m.path, mark);
      failed := |changed| == 0;
      assert forall k | k in old(files) && old(files)[k].path == m.path :: k in changed;
    }

    method CancelUnlinkFile(m: Msg)
      requires Valid()
      modifies this`files, this`attrs, this`dirty
      ensures Valid() && Memory() == CancelUnlink(old(Memory()), m)
    {
      if !m.named { return; }
      dirty := true;
      files := SetMark(files, m.path, 0);
      ClearXattrs(m);
    }

    // Rows left behind by a repair pass, by their cookie; zero is not a cookie.
    method DidUnlinkFiles(mark: int)
      requires Valid()
      modifies this`files, this`attrs, this`dirty
      ensures Valid()
      ensures mark == 0 ==> Memory() == old(Memory())
      ensures mark != 0 ==> Memory() == ClearUnusedAttrs(old(Memory()).(files := DeleteMarked(old(files), mark)))
    {
      if mark == 0 { return; }
      dirty := true;
      files := DeleteMarked(files, mark);
      ClearUnusedXattrs();
    }

    // Without a message the inode of the deleted row is not known, and every unused attribute goes.
    method DidUnlinkFile(p: Path, m: Option<Msg>, mark: int)
      requires Valid()
      requires m.Some? ==> m.value.path == p
      modifies this`files, this`attrs, this`dirty
      ensures Valid()
      ensures Memory() == match m case Some(h) => DidUnlink(old(Memory()), h, mark)
              case None => DidUnlinkClash(old(Memory()), p, mark)
    {
      dirty := true;
      files := DeletePathMarked(files, p, mark);
      if m.Some? { ClearXattrs(m.value); } else { ClearUnusedXattrs(); }
    }

    method Unlink(m: Msg)
      requires Valid()
      modifies this`files, this`attrs, this`dirty
      ensures Valid() && Memory() == UnlinkFile(old(Memory()), m)
    {
      if !m.named { return; }
      dirty := true;
      files := DeletePath(files, m.path);
      ClearXattrs(m);
    }

    method UnlinkBelow(m: Msg)
      requires Valid()
      modifies this`files, this`attrs, this`dirty
      ensures Valid() && Memory() == UnlinkContents(old(Memory()), m)
    {
      if !m.named { return; }
      dirty := true;
      files := DeleteRange(files, m.path);
      ClearUnusedXattrs();
    }

    method Rename(oldPath: Path, m: Msg)
      requires Valid() && oldPath == m.extra
      modifies this`files, this`dirty
      ensures Valid() && Memory() == RenameFile(old(Memory()), m)
    {
      if !m.named { return; }
      dirty := true;
      files := RenameExact(files, oldPath, m.path);
      files := RenameRange(files, oldPath, m.path);
    }

    // The device changed but the inodes did not.
    method RenumberAll(src: int, dst: int) returns (failed: bool)
      requires Valid()
      modifies this`files, this`attrs, this`dirty
      ensures Valid()
      ensures files == Renumber(old(files), src, dst) && files.Keys == old(files).Keys
      ensures forall k | k in files ::
                files[k] == if old(files)[k].dev == src then old(files)[k].(dev := dst) else old(files)[k]
      ensures failed ==> attrs == old(attrs)
      ensures attrs == RenumberAttrs(old(attrs), src, dst) && failed == RenumberClashes(old(attrs), src, dst)
    {
      dirty := true;
      files := Renumber(files, src, dst);
      var moving := set k | k in attrs && k.dev == src;
      var clashing := set k | k in moving && k.(dev := dst) in attrs;
      failed := src != dst && clashing != {};
      assert failed == RenumberClashes(attrs, src, dst) by {
        if RenumberClashes(attrs, src, dst) {
          var k :| k in attrs && k.dev == src && k.(dev := dst) in attrs;
          assert k in clashing;
        }
      }
      attrs := RenumberAttrs(attrs, src, dst);
    }

    method UpdateInodeAt(m: Msg)
      requires Valid()
      modifies this`files, this`dirty
      ensures Valid() && Memory() == UpdateInode(old(Memory()), m)
    {
      if !m.named { return; }
      dirty := true;
      files := SetInode(files, m.path, m.dev, m.ino);
    }

    method Update(m: Msg)
      requires Valid()
      modifies this`files, this`dirty
      ensures Valid() && Memory() == UpdateFile(old(Memory()), m)
    {
      dirty := true;
      files := SetMeta(files, m.dev, m.ino, m.uid, m.gid, m.mode, m.rdev);
    }

    // ----- searches: the row's fields overwrite the message's -----

    method FindExact(m: Msg) returns (found: bool, hit: Msg)
      ensures found <==>
              exists k :: k in files && files[k].path == m.path && files[k].dev == m.dev && files[k].ino == m.ino
      ensures var o := ByPathAndInode(files, m.path, m.dev, m.ino);
              found == o.Some? && hit == if found then WithMeta(m, files[o.value]) else m
    {
      var o := ByPathAndInode(files, m.path, m.dev, m.ino);
      if o.None? { return false, m; }
      var r := files[o.value];
      return true, m.(uid := r.uid, gid := r.gid, mode := r.mode, rdev := r.rdev, deleting := r.deleting);
    }

    method FindPath(m: Msg) returns (found: bool, hit: Msg)
      ensures found <==> m.named && exists k :: k in files && files[k].path == m.path
      ensures var o := ByPath(files, m.path);
              found == (m.named && o.Some?) && hit == if found then WithRow(m, files[o.value]) else m
    {
      if !m.named { return false, m; }
      var o := ByPath(files, m.path);
      if o.None? { return false, m; }
      var r := files[o.value];
      return true, m.(dev := r.dev, ino := r.ino, uid := r.uid, gid := r.gid, mode := r.mode, rdev := r.rdev,
                      deleting := r.deleting);
    }

    method FindDev(m: Msg) returns (found: bool, hit: Msg, path: Path)
      ensures found <==> HasInode(files, m.dev, m.ino)
      ensures var o := ByInode(files, m.dev, m.ino);
              && found == o.Some?
              && hit == (if found then WithMeta(m, files[o.value]) else m)
              && path == if found then files[o.value].path else ""
    {
      var o := ByInode(files, m.dev, m.ino);
      if o.None? { return false, m, ""; }
      var r := files[o.value];
      return true, m.(uid := r.uid, gid := r.gid, mode := r.mode, rdev := r.rdev, deleting := r.deleting), r.path;
    }

    // ----- attributes -----

    method GetXattr(m: Msg, name: string) returns (failed: bool, value: string)
      ensures var key := AttrKey(m.dev, m.ino, CString(name));
              && failed == !(key in attrs && attrs[key] != "")
              && (!failed ==> value == attrs[key])
    {
      var key := AttrKey(m.dev, m.ino, CString(name));
      if key !in attrs || |attrs[key]| < 1 { return true, ""; }
      return false, attrs[key];
    }

    // The flags of setxattr: create demands a new name, replace an existing one.
    method SetXattr(m: Msg, data: string, create: bool, replace: bool) returns (failed: bool)
      requires Valid()
      modifies this`attrs, this`dirty
      ensures Valid()
      ensures var key := AttrKey(m.dev, m.ino, CString(data));
              && failed == ((create && key in old(attrs)) || (replace && key !in old(attrs)))
              && attrs == if failed then old(attrs) else old(attrs)[key := AfterNul(data)]
    {
      var key := AttrKey(m.dev, m.ino, CString(data));
      if create && key in attrs { return true; }
      if replace && key !in attrs { return true; }
      failed := false;
      dirty := true;
      attrs := attrs[key := AfterNul(data)];
    }

    // The names in order, into a buffer that is replaced by a larger one when the next name may
    // not fit.
    method ListXattr(m: Msg) returns (value: Option<string>)
      ensures value == ListOf(AttrNames(Memory(), m.dev, m.ino))
    {
      var rest := set k | k in attrs && k.dev == m.dev && k.ino == m.ino :: k.name;
      ghost var all := rest;
      assert all == AttrNames(Memory(), m.dev, m.ino);
      ghost var done: seq<string> := [];
      var none := true;
      var buffer := new char[0];
      var used := 0;
      while rest != {}
        invariant fresh(buffer) && 0 <= used <= buffer.Length && buffer[..used] == Listing(done)
        invariant Sorted(all) == done + Sorted(rest)
        invariant if none then rest == all && used == 0 else all != {}
        decreases |rest|
      {
        var name := FirstName(rest);
        if none { buffer := new char[RoundUp(|name|)]; }
        buffer, used := AppendName(buffer, used, name);
        ListingSnoc(done, name);
        done := done + [name];
        none := false;
        rest := rest - {name};
      }
      assert done == Sorted(all);
      value := if none then None else Some(buffer[..used]);
    }

    method RemoveXattr(m: Msg, name: string)
      requires Valid()
      modifies this`attrs, this`dirty
      ensures Valid() && Memory() == ClearAttr(old(Memory()), AttrKey(m.dev, m.ino, name))
    {
      dirty := true;
      attrs := attrs - {AttrKey(m.dev, m.ino, name)};
    }
  }
}
