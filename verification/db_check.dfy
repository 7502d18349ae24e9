// The repair pass: compare every row with the host file system, bring stale inodes up to date,
// and mark and sweep the rows that cannot be right.

module DbCheck {
  import opened PathText
  import opened FileTable
  import opened ServerOp
  import opened OpFacts
  import opened FileDbs

  datatype HostNode = HostNode(dev: int, ino: int, mode: Mode)

  // lstat of every path that exists, fixed during the pass.
  type Host = map<Path, HostNode>

  predicate Bad(host: Host, r: Row)
  {
    r.path !in host || !SameKind(host[r.path].mode, r.mode)
  }

  predicate Stale(host: Host, r: Row)
  {
    !Bad(host, r) && !(host[r.path].dev == r.dev && host[r.path].ino == r.ino)
  }

  predicate BadSeen(t: Files, host: Host, done: set<nat>, p: Path)
  {
    exists j :: j in done && j in t && t[j].path == p && Bad(host, t[j])
  }

  predicate StaleSeen(t: Files, host: Host, done: set<nat>, p: Path)
  {
    exists j :: j in done && j in t && t[j].path == p && Stale(host, t[j])
  }

  // Row r when the rows of done have been looked at.
  function Checked(t: Files, host: Host, cookie: int, done: set<nat>, r: Row): (c: Row)
    ensures c.path == r.path && SameMeta(c, r)
  {
    var r1 := if BadSeen(t, host, done, r.path) then r.(deleting := cookie) else r;
    if StaleSeen(t, host, done, r.path) && r.path in host
    then r1.(dev := host[r.path].dev, ino := host[r.path].ino) else r1
  }

  // Nothing about the rows of this path is wrong beyond their inode.
  ghost predicate Sound(t: Files, host: Host, p: Path)
  {
    forall j | j in t && t[j].path == p :: !Bad(host, t[j])
  }

  ghost predicate AllSound(t: Files, host: Host)
  {
    forall j | j in t :: !Bad(host, t[j])
  }

  // What the pass leaves: sound paths, on the host's inodes.  Once something has to go, rows
  // that already carry the cookie go with it.
  ghost function Repaired(t: Files, host: Host, cookie: int): Files
  {
    map k | k in t && Sound(t, host, t[k].path) && t[k].path in host
        && (AllSound(t, host) || t[k].deleting != cookie) ::
      t[k].(dev := host[t[k].path].dev, ino := host[t[k].path].ino)
  }

  predicate Matches(host: Host, r: Row) { !Bad(host, r) && !Stale(host, r) }

  // One more row looked at, in fixing mode.
  lemma CheckedStep(t: Files, host: Host, cookie: int, done: set<nat>, k: nat, r: Row)
    requires k in t
    ensures var next := Checked(t, host, cookie, done + {k}, r); var now := Checked(t, host, cookie, done, r);
            next ==
            if t[k].path != r.path then now
            else if Bad(host, t[k]) then now.(deleting := cookie)
            else if Stale(host, t[k]) then now.(dev := host[r.path].dev, ino := host[r.path].ino)
            else now
  {
    SeenStep(t, host, done, k, r.path);
  }

  lemma SeenStep(t: Files, host: Host, done: set<nat>, k: nat, p: Path)
    requires k in t
    ensures BadSeen(t, host, done + {k}, p) <==> BadSeen(t, host, done, p) || (t[k].path == p && Bad(host, t[k]))
    ensures StaleSeen(t, host, done + {k}, p) <==> StaleSeen(t, host, done, p) || (t[k].path == p && Stale(host, t[k]))
  {
    if BadSeen(t, host, done, p) {
      var j :| j in done && j in t && t[j].path == p && Bad(host, t[j]);
      assert j in done + {k};
    }
    if StaleSeen(t, host, done, p) {
      var j :| j in done && j in t && t[j].path == p && Stale(host, t[j]);
      assert j in done + {k};
    }
    assert k in done + {k};
  }

  function CheckedAll(t: Files, host: Host, cookie: int, done: set<nat>): Files
  {
    map k | k in t :: Checked(t, host, cookie, done, t[k])
  }

  // What looking at row r does to the table.
  function FixedFor(u: Files, host: Host, cookie: int, r: Row): Files
  {
    if Bad(host, r) then SetMark(u, r.path, cookie)
    else if Stale(host, r) then SetInode(u, r.path, host[r.path].dev, host[r.path].ino)
    else u
  }

  lemma CheckedAllStep(t: Files, host: Host, cookie: int, done: set<nat>, k: nat)
    requires k in t
    ensures CheckedAll(t, host, cookie, done + {k}) == FixedFor(CheckedAll(t, host, cookie, done), host, cookie, t[k])
  {
    var u := CheckedAll(t, host, cookie, done);
    var v := FixedFor(u, host, cookie, t[k]);
    var w := CheckedAll(t, host, cookie, done + {k});
    forall j | j in t
      ensures v[j] == w[j]
    {
      CheckedStep(t, host, cookie, done, k, t[j]);
      assert u[j].path == t[j].path;
    }
    assert v.Keys == w.Keys;
  }

  lemma NothingChecked(t: Files, host: Host, cookie: int)
    ensures CheckedAll(t, host, cookie, {}) == t
  {}

  lemma SweepIsRepair(t: Files, host: Host, cookie: int)
    ensures var u := CheckedAll(t, host, cookie, t.Keys);
            (if AllSound(t, host) then u else DeleteMarked(u, cookie)) == Repaired(t, host, cookie)
  {
    var u := CheckedAll(t, host, cookie, t.Keys);
    var v := Repaired(t, host, cookie);
    forall k | k in t
      ensures k in v <==> (AllSound(t, host) || u[k].deleting != cookie)
      ensures k in v ==> v[k] == u[k]
    {
      assert Sound(t, host, t[k].path) <==> !BadSeen(t, host, t.Keys, t[k].path);
      if Sound(t, host, t[k].path) {
        assert !Bad(host, t[k]);
        assert Stale(host, t[k]) ==> StaleSeen(t, host, t.Keys, t[k].path);
      }
    }
  }

  // pseudo_db_check: rows come from a snapshot, in any order.
  method PseudoDbCheck(db: FileDb, host: Host, cookie: int, fix: bool) returns (errors: bool)
    requires db.Valid() && cookie != 0
    modifies db`files, db`attrs, db`dirty
    ensures db.Valid()
    ensures !fix ==> db.Memory() == old(db.Memory())
    ensures !fix ==> (errors <==> exists k :: k in db.files && !Matches(host, db.files[k]))
    ensures fix ==> !errors && db.files == Repaired(old(db.files), host, cookie)
    // without a row to renumber, attributes go only with a sweep, and only those without a row
    ensures fix && (forall k | k in old(db.files) :: !Stale(host, old(db.files)[k])) ==>
              var d := Db(db.files, old(db.attrs));
              db.Memory() == if AllSound(old(db.files), host) then d else ClearUnusedAttrs(d)
  {
    hide FixedFor, Repaired, Checked, Bad, Stale, DeleteMarked, ClearUnusedAttrs;
    var snapshot := db.files;
    assert CheckedAll(snapshot, host, cookie, {}) == snapshot by { NothingChecked(snapshot, host, cookie); }
    var todo := snapshot.Keys;
    var deleteSome := false;
    errors := false;
    assert snapshot.Keys - todo == {};
    while todo != {}
      invariant todo <= snapshot.Keys && db.Valid()
      invariant !fix ==> db.Memory() == old(db.Memory()) && !deleteSome
      invariant !fix ==> (errors <==> exists k :: k in snapshot.Keys - todo && !Matches(host, snapshot[k]))
      invariant fix ==> db.attrs == old(db.attrs)
      invariant fix ==> !errors && db.files == CheckedAll(snapshot, host, cookie, snapshot.Keys - todo)
      invariant fix ==> (deleteSome <==> exists k :: k in snapshot.Keys - todo && Bad(host, snapshot[k]))
    {
      var k :| k in todo;
      ghost var done := snapshot.Keys - todo;
      todo := todo - {k};
      assert snapshot.Keys - todo == done + {k};
      if fix {
        CheckedAllStep(snapshot, host, cookie, done, k);
        var failed, marked := FixRow(db, host, cookie, snapshot[k], k);
        if marked { deleteSome := true; }
        if failed { errors := true; }
      } else if !Matches(host, snapshot[k]) {
        errors := true;
      }
    }
    assert snapshot.Keys - todo == snapshot.Keys;
    SweepIsRepair(snapshot, host, cookie);
    if deleteSome {
      ClearsKeepFiles(db.Memory().(files := DeleteMarked(db.files, cookie)), 0, 0);
      db.DidUnlinkFiles(cookie);
    }
  }

  function FileMsg(r: Row): Msg
  {
    Msg(OPEN, 0, NONE, r.dev, r.ino, r.uid, r.gid, r.mode, r.rdev, 0, 0, true, r.path, "")
  }

  // Correct the inode at the row's path, or mark what is there for deletion.
  method FixRow(db: FileDb, host: Host, cookie: int, r: Row, k: nat) returns (failed: bool, marked: bool)
    requires db.Valid() && k in db.files && db.files[k].path == r.path
    modifies db`files, db`dirty
    ensures db.Valid() && !failed && marked == Bad(host, r) && db.attrs == old(db.attrs)
    ensures db.files == FixedFor(old(db.files), host, cookie, r)
  {
    var m := FileMsg(r);
    failed, marked := false, false;
    var fixup := 0;
    if r.path !in host {
      fixup := 2;
    } else {
      var buf := host[r.path];
      if buf.ino != m.ino { m := m.(ino := buf.ino); fixup := 1; }
      if buf.dev != m.dev { m := m.(dev := buf.dev); fixup := 1; }
      if IsLnk(buf.mode) != IsLnk(m.mode) { fixup := 2; }
      if IsDir(buf.mode) != IsDir(m.mode) { fixup := 2; }
    }
    if fixup == 1 {
      db.UpdateInodeAt(m);
    } else if fixup == 2 {
      marked := true;
      failed := db.MayUnlinkFile(m, cookie);
    }
  }

  // ----- what the pass is for -----

  // Every row that survives matches the host, and keeps its owner, mode and device.
  lemma SurvivorsMatch(t: Files, host: Host, cookie: int)
    ensures var u := Repaired(t, host, cookie);
            forall k | k in u ::
              && u[k].path in host && host[u[k].path].dev == u[k].dev && host[u[k].path].ino == u[k].ino
              && (host[u[k].path].mode.fmt == S_IFDIR <==> u[k].mode.fmt == S_IFDIR)
              && (host[u[k].path].mode.fmt == S_IFLNK <==> u[k].mode.fmt == S_IFLNK)
              && Matches(host, u[k]) && k in t && u[k].path == t[k].path && SameMeta(u[k], t[k])
              && u[k].deleting == t[k].deleting
  {
    var u := Repaired(t, host, cookie);
    forall k | k in u
      ensures Matches(host, u[k])
    {
      assert !Bad(host, t[k]);
    }
    forall k | k in u { MatchesIs(host, u[k]); }
  }

  // What a row is compared for.
  lemma MatchesIs(host: Host, r: Row)
    ensures Matches(host, r) <==>
            && r.path in host && host[r.path].dev == r.dev && host[r.path].ino == r.ino
            && (host[r.path].mode.fmt == S_IFDIR <==> r.mode.fmt == S_IFDIR)
            && (host[r.path].mode.fmt == S_IFLNK <==> r.mode.fmt == S_IFLNK)
    ensures Bad(host, r) <==>
            r.path !in host
            || !((host[r.path].mode.fmt == S_IFDIR <==> r.mode.fmt == S_IFDIR)
                 && (host[r.path].mode.fmt == S_IFLNK <==> r.mode.fmt == S_IFLNK))
  {}

  // When no row already held the cookie, a row goes exactly when some row of its path is gone
  // from the host or of another kind there.
  lemma OnlyUnsoundRowsGo(t: Files, host: Host, cookie: int, k: nat)
    requires k in t && forall j | j in t :: t[j].deleting != cookie
    ensures k in Repaired(t, host, cookie) <==>
            t[k].path in host
            && forall j | j in t && t[j].path == t[k].path ::
                 && (host[t[k].path].mode.fmt == S_IFDIR <==> t[j].mode.fmt == S_IFDIR)
                 && (host[t[k].path].mode.fmt == S_IFLNK <==> t[j].mode.fmt == S_IFLNK)
  {
    forall j | j in t { MatchesIs(host, t[j]); }
    if Sound(t, host, t[k].path) { assert !Bad(host, t[k]); }
  }

  // A second pass finds nothing to do, whatever its cookie.
  lemma RepairIsComplete(t: Files, host: Host, cookie: int, again: int)
    ensures var u := Repaired(t, host, cookie);
            (forall k | k in u :: Matches(host, u[k])) && Repaired(u, host, again) == u
  {
    SurvivorsMatch(t, host, cookie);
    var u := Repaired(t, host, cookie);
    assert AllSound(u, host);
    assert forall k | k in u :: Sound(u, host, u[k].path);
  }

  // Fix, then check: the check reports success.
  method RepairThenCheck(db: FileDb, host: Host, cookie: int) returns (errors: bool)
    requires db.Valid() && cookie != 0
    modifies db`files, db`attrs, db`dirty
    ensures db.Valid() && !errors && db.files == Repaired(old(db.files), host, cookie)
  {
    RepairIsComplete(db.files, host, cookie, cookie);
    var _ := PseudoDbCheck(db, host, cookie, true);
    errors := PseudoDbCheck(db, host, cookie, false);
  }
}
