// The wrapped calls on the running server keep its table on the ideal file system.

module WrappedRuns {
  import opened PathText
  import opened FileTable
  import opened ServerOp
  import opened OpFacts
  import opened Agreeing
  import opened UnlinkProtocol
  import opened FileDbs
  import opened WrapperScripts
  import opened Wrappers
  import opened VirtualRoot
  import opened VirtualRename

  method WrapCall(db: FileDb, c: Call, logging: bool)
    requires db.Valid() && (c.Create? ==> c.op in {CREAT, MKDIR, MKNOD, SYMLINK})
    modifies db`files, db`attrs, db`dirty
    ensures db.Valid() && db.Memory() == DbAfter(old(db.Memory()), c)
  {
    hide CreateScript, ChmodScript, ChownScript, LinkScript, RemoveScript, RenameScript;
    match c
    case Create(op, client, path, _, buf, fuid, fgid) =>
      WrapCreate(db, Caller(client, fuid, fgid, logging), op, path, buf);
    case Chmod(client, path, buf, perm, fuid, fgid) =>
      WrapFchmodat(db, Caller(client, fuid, fgid, logging), path, buf, perm);
    case Chown(client, path, buf, owner, group) =>
      WrapFchownat(db, Caller(client, 0, 0, logging), path, buf, owner, group);
    case HardLink(client, src, dst, buf) =>
      WrapLinkat(db, Caller(client, 0, 0, logging), src, dst, buf);
    case Remove(client, path, buf, ok) =>
      WrapUnlinkat(db, Caller(client, 0, 0, logging), path, buf, ok);
    case Rename(client, src, dst, srcBuf, dstBuf, ok) =>
      if !(ok && srcBuf.None?) { WrapRename(db, Caller(client, 0, 0, logging), src, dst, srcBuf, dstBuf, ok); }
  }

  // Any possible run of wrapped calls, by any clients, on a server that starts from an empty
  // database: afterwards the table in memory is on the ideal.
  method RunCalls(names: map<Path, Inode>, kinds: map<Inode, Mode>, calls: seq<Call>, logging: bool)
      returns (db: FileDb)
    requires forall p | p in names :: GoodPath(p) && RealNode(names[p]) && names[p] in kinds
    requires PossibleRun(Ideal(names, kinds, map[]), calls)
    ensures db.Valid() && Refines(IdealRun(Ideal(names, kinds, map[]), calls), db.Memory())
  {
    hide DbAfter, IdealAfter, Possible, Refines;
    ghost var f := Ideal(names, kinds, map[]);
    ghost var start := Db(map[], map[]);
    db := new FileDb(Db(map[], map[]));
    var i := 0;
    while i < |calls|
      invariant 0 <= i <= |calls| && fresh(db) && db.Valid()
      invariant db.Memory() == DbRun(start, calls[..i])
    {
      assert calls[..i + 1][..i] == calls[..i];
      assert Possible(IdealRun(f, calls[..i]), calls[i]);
      if calls[i].Create? { KnownCreation(IdealRun(f, calls[..i]), calls[i]); }
      WrapCall(db, calls[i], logging);
      i := i + 1;
    }
    assert calls[..i] == calls;
    EmptyRefines(names, kinds);
    RunRefines(f, start, calls);
  }

  lemma KnownCreation(f: Ideal, c: Call)
    requires Possible(f, c) && c.Create?
    ensures c.op in {CREAT, MKDIR, MKNOD, SYMLINK}
  {}

  lemma EmptyRefines(names: map<Path, Inode>, kinds: map<Inode, Mode>)
    requires forall p | p in names :: GoodPath(p) && RealNode(names[p]) && names[p] in kinds
    ensures Refines(Ideal(names, kinds, map[]), Db(map[], map[]))
  {}

  // ----- naming a file that had no name -----

  // A file opened without a name, when it is linked into place: it comes under tracking as a
  // newly created one, with the emulated owner.
  lemma LinkTmpRefines(f: Ideal, db: Db, c: Call, who: Caller)
    requires Refines(f, db) && c.Create? && c.op == CREAT && Possible(f, c) && c.buf.nlink != 0
    requires who.client == c.client && who.fuid == c.fuid && who.fgid == c.fgid
    ensures Refines(IdealAfter(f, c), LinkTmpScript(db, who, None, c.path, c.buf))
  {
    var ask := RequestBy(who, FSTAT, "", Some(c.buf), "").(named := false);
    var open := RequestBy(who, OPEN, c.path, Some(c.buf), "");
    assert c.buf.node !in f.meta;
    hide WellFormed, Mirrors, After, Succeeds;
    NoInodeRows(f, db.files, c.buf.node);
    NamelessAsk(db, ask);
    CreateRefines(f, db, c);
    OpenKeeps(IdealAfter(f, c), DbAfter(db, c), open);
  }

  lemma NamelessAsk(db: Db, m: Msg)
    requires m.op == FSTAT && !m.named && m.dev != 0 && m.ino != 0 && m.nlink != 0
    requires forall k | k in db.files :: NodeOf(db.files[k]) != Inode(m.dev, m.ino)
    ensures After(db, m) == db && !Succeeds(db, m)
  {
    hide Front, CheckIno;
    assert !HasInode(db.files, m.dev, m.ino) by {
      assert forall k | k in db.files :: NodeOf(db.files[k]) != Inode(m.dev, m.ino);
    }
    FrontOfAgreeing(db, m);
    CheckNothing(Front(db, m));
  }

  lemma OpenKeeps(f: Ideal, db: Db, m: Msg)
    requires Refines(f, db) && Speaks(f, m) && m.op == OPEN
    ensures After(db, m) == db
  {
    MirrorsAround(f, db.files, m);
    Serve(f, db, m);
    hide Front, Process;
  }

  // A descriptor's file that the server knows, by whatever name or none, gets the new name with
  // its metadata.
  lemma LinkKnownTmpRefines(f: Ideal, db: Db, c: Call, who: Caller, fdPath: Option<Path>)
    requires Refines(f, db) && c.HardLink? && Possible(f, c) && who.client == c.client && c.buf.nlink != 0
    requires fdPath.Some? ==> fdPath.value in f.names && f.names[fdPath.value] == c.buf.node
    ensures Refines(IdealAfter(f, c), LinkTmpScript(db, who, fdPath, c.dst, c.buf))
  {
    var ask := TmpQuestion(who, fdPath, c.buf);
    LinkFacts(f, c);
    LinkedWellFormed(f, c);
    hide WellFormed, Mirrors, After, IdealAfter, Reply, Succeeds;
    TmpAsk(f, db, c.buf, who, fdPath);
    var m := Request(LINK, who.client, c.dst, Some(StatFrom(c.buf, Reply(db, ask))), "");
    assert LinkTmpScript(db, who, fdPath, c.dst, c.buf) == After(db, m);
    TmpLinks(f, db, c, m);
  }

  function TmpQuestion(who: Caller, fdPath: Option<Path>, buf: StatBuf): Msg
  {
    RequestBy(who, FSTAT, if fdPath.Some? then fdPath.value else "", Some(buf), "").(named := fdPath.Some?)
  }

  lemma TmpAsk(f: Ideal, db: Db, buf: StatBuf, who: Caller, fdPath: Option<Path>)
    requires Refines(f, db) && buf.nlink != 0 && buf.node in f.meta && RealNode(buf.node)
    requires buf.node in f.kinds && SameKind(buf.mode, f.kinds[buf.node])
    requires fdPath.Some? ==> fdPath.value in f.names && f.names[fdPath.value] == buf.node
    ensures var ask := TmpQuestion(who, fdPath, buf);
            After(db, ask) == db && Succeeds(db, ask) && HostMeta(StatFrom(buf, Reply(db, ask))) == f.meta[buf.node]
  {
    var ask := TmpQuestion(who, fdPath, buf);
    TmpKinds(f, db, buf);
    hide WellFormed, Mirrors, After, Reply, Succeeds;
    if fdPath.Some? {
      MirrorsAround(f, db.files, ask);
      StatEffect(f, db, ask);
    } else {
      KnownRow(f, db.files, buf.node);
      KnownAsk(db, ask, f.meta[buf.node]);
    }
  }

  lemma TmpKinds(f: Ideal, db: Db, buf: StatBuf)
    requires Refines(f, db) && buf.node in f.kinds && SameKind(buf.mode, f.kinds[buf.node])
    ensures forall k | k in db.files && NodeOf(db.files[k]) == buf.node :: SameKind(db.files[k].mode, buf.mode)
  {
    forall k | k in db.files && NodeOf(db.files[k]) == buf.node
      ensures SameKind(db.files[k].mode, buf.mode)
    {
      assert Shows(f, db.files[k]);
    }
  }

  lemma TmpLinks(f: Ideal, db: Db, c: Call, m: Msg)
    requires Refines(f, db) && c.HardLink? && Possible(f, c) && WellFormed(IdealAfter(f, c))
    requires m.op == LINK && m.named && m.path == c.dst && Inode(m.dev, m.ino) == c.buf.node
    requires c.buf.node in f.meta && f.meta[c.buf.node] == Meta(m.uid, m.gid, m.mode, m.rdev)
    ensures Refines(IdealAfter(f, c), After(db, m))
  {
    hide WellFormed, Mirrors, After, IdealAfter, Possible;
    LinkFacts(f, c);
    NoRow(f, db.files, c.dst);
    LinkNewEffect(f, db, m);
    InsertMirrors(f, IdealAfter(f, c), db.files, RowOf(m));
    RefinedByInsert(IdealAfter(f, c), db, RowOf(m), After(db, m));
  }

  lemma RefinedByInsert(g: Ideal, db: Db, r: Row, d: Db)
    requires WellFormed(g) && Mirrors(g, Insert(db.files, r)) && NoMarks(db.files) && r.deleting == 0
    requires d.files == Insert(db.files, r)
    ensures Refines(g, d)
  {
    hide WellFormed, Mirrors;
  }

  lemma KnownAsk(db: Db, m: Msg, meta: Meta)
    requires m.op == FSTAT && !m.named && m.dev != 0 && m.ino != 0 && HasInode(db.files, m.dev, m.ino)
    requires forall k | k in db.files && NodeOf(db.files[k]) == Inode(m.dev, m.ino) ::
               MetaOf(db.files[k]) == meta && SameKind(db.files[k].mode, m.mode)
    ensures After(db, m) == db && Succeeds(db, m)
    ensures var r := Reply(db, m); Meta(r.uid, r.gid, r.mode, r.rdev) == meta
  {
    hide Front, CheckIno;
    FrontOfAgreeing(db, m);
    var w := Front(db, m);
    var k :| IsHit(db.files, w, k);
    assert NodeOf(db.files[k]) == Inode(m.dev, m.ino);
    CheckNothing(w);
  }
}
