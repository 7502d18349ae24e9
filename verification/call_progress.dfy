// How far a call has come, told from its own part of the table, and why one more of its requests
// brings it one step further whatever the rest of the table holds.

module CallProgress {
  import opened PathText
  import opened FileTable
  import opened ServerOp
  import opened OpFacts
  import opened Agreeing
  import opened UnlinkProtocol
  import opened Resending
  import opened WrapperScripts
  import opened VirtualRoot
  import opened VirtualRename
  import opened Footprints
  import opened LocalIdeals
  import opened CallSteps

  // ----- single requests on a part -----

  // The part mirrors h, so the table does as far as a request about the part can see.
  lemma PartAround(h: Ideal, foot: Foot, t: Files, m: Msg)
    requires Mirrors(h, At(t, foot)) && Covers(foot, m.path) && Inode(m.dev, m.ino) in foot.nodes
    ensures Around(h, t, m)
  {
    hide Covers;
    var part := At(t, foot);
    forall k | k in t && (t[k].path == m.path || NodeOf(t[k]) == Inode(m.dev, m.ino))
      ensures Shows(h, t[k])
    {
      assert k in part;
    }
    if m.path in h.names && h.names[m.path] in h.meta {
      assert HasPath(part, m.path);
      var k :| k in part && part[k].path == m.path;
      assert t[k].path == m.path;
    }
  }

  lemma PartHasNoRow(h: Ideal, foot: Foot, t: Files, p: Path)
    requires Mirrors(h, At(t, foot)) && Covers(foot, p) && (p in h.names ==> h.names[p] !in h.meta)
    ensures forall k | k in t :: t[k].path != p
  {
    hide Covers, Mirrors;
    NoRow(h, At(t, foot), p);
    assert forall k | k in t && t[k].path == p :: k in At(t, foot);
  }

  lemma PartHasNoNode(h: Ideal, foot: Foot, t: Files, n: Inode)
    requires Mirrors(h, At(t, foot)) && n in foot.nodes && n !in h.meta
    ensures forall k | k in t :: NodeOf(t[k]) != n
  {
    hide Covers, Mirrors;
    NoInodeRows(h, At(t, foot), n);
    assert forall k | k in t && NodeOf(t[k]) == n :: k in At(t, foot);
  }

  // The stat buffer of a covered path, or none for one the host does not have.
  ghost predicate Stated(h: Ideal, foot: Foot, p: Path, buf: Option<StatBuf>)
  {
    Covers(foot, p) && if buf.Some? then HostStat(h, p, buf.value) && buf.value.node in foot.nodes else p !in h.names
  }

  lemma MayStep(h: Ideal, foot: Foot, db: Db, client: int, p: Path, buf: Option<StatBuf>)
    requires WellFormed(h) && Mirrors(h, At(db.files, foot)) && Tidy(db.files, foot) && Stated(h, foot, p, buf)
    ensures var m := Request(MAY_UNLINK, client, p, buf, "");
            && Acts(db.files, After(db, m).files, foot, SetMark(At(db.files, foot), p, client))
            && (Succeeds(db, m) <==> Tracks(h, buf))
  {
    var m := Request(MAY_UNLINK, client, p, buf, "");
    hide Covers, Mirrors, WellFormed, At, Acts, After, Succeeds, Tidy;
    if buf.Some? {
      PartAround(h, foot, db.files, m);
      MayEffect(h, db, m);
    } else {
      PartHasNoRow(h, foot, db.files, p);
      NothingThere(db, m);
      NothingToMark(db.files, p, client);
    }
    MarkActs(db.files, foot, p, client);
  }

  lemma NothingToMark(t: Files, p: Path, mark: int)
    requires forall k | k in t :: t[k].path != p
    ensures SetMark(t, p, mark) == t
  {}

  lemma AskStep(h: Ideal, foot: Foot, db: Db, client: int, p: Path, buf: Option<StatBuf>)
    requires WellFormed(h) && Mirrors(h, At(db.files, foot)) && Tidy(db.files, foot) && Stated(h, foot, p, buf)
    ensures var m := Request(STAT, client, p, buf, "");
            && Acts(db.files, After(db, m).files, foot, At(db.files, foot))
            && (Succeeds(db, m) <==> Tracks(h, buf))
            && (Tracks(h, buf) ==> HostMeta(StatFrom(buf.value, Reply(db, m))) == h.meta[buf.value.node])
  {
    var m := Request(STAT, client, p, buf, "");
    hide Covers, Mirrors, WellFormed, At, Acts, After, Succeeds, Tidy, Reply;
    if buf.Some? {
      PartAround(h, foot, db.files, m);
      StatEffect(h, db, m);
    } else {
      PartHasNoRow(h, foot, db.files, p);
      NothingThere(db, m);
    }
    NothingActs(db.files, foot);
  }

  lemma CancelStep(h: Ideal, foot: Foot, db: Db, client: int, p: Path, buf: StatBuf)
    requires WellFormed(h) && Mirrors(h, At(db.files, foot)) && Tidy(db.files, foot) && Stated(h, foot, p, Some(buf))
    ensures var m := Request(CANCEL_UNLINK, client, p, Some(buf), "");
            Acts(db.files, After(db, m).files, foot, SetMark(At(db.files, foot), p, 0))
  {
    var m := Request(CANCEL_UNLINK, client, p, Some(buf), "");
    hide Covers, Mirrors, WellFormed, At, Acts, After, Tidy;
    PartAround(h, foot, db.files, m);
    CancelEffect(h, db, m);
    MarkActs(db.files, foot, p, 0);
  }

  lemma DidStep(foot: Foot, db: Db, m: Msg)
    requires Tidy(db.files, foot) && Covers(foot, m.path) && m.op == DID_UNLINK
    ensures Acts(db.files, After(db, m).files, foot, DeletePathMarked(At(db.files, foot), m.path, m.client))
  {
    hide Covers, At, Acts, After, Tidy;
    DidEffect(db, m);
    DeleteActs(db.files, foot, m.path, m.client);
  }

  // A file the part does not track gets its row, under some id.
  lemma EnterStep(h: Ideal, foot: Foot, db: Db, m: Msg)
    requires Mirrors(h, At(db.files, foot)) && Tidy(db.files, foot)
    requires m.named && m.dev != 0 && m.ino != 0 && m.op in {CREAT, MKDIR, MKNOD, SYMLINK, LINK, CHMOD, CHOWN}
    requires Covers(foot, m.path) && Inode(m.dev, m.ino) in foot.nodes
    requires Inode(m.dev, m.ino) !in h.meta && (m.path in h.names ==> h.names[m.path] !in h.meta)
    ensures var id := FreshId(db.files);
            id !in At(db.files, foot) && Acts(db.files, After(db, m).files, foot, At(db.files, foot)[id := RowOf(m)])
  {
    hide Covers, Mirrors, At, Acts, After, Tidy;
    PartHasNoRow(h, foot, db.files, m.path);
    PartHasNoNode(h, foot, db.files, Inode(m.dev, m.ino));
    FreshEffect(db, m);
    InsertActs(db.files, foot, RowOf(m));
  }

  lemma ChangeStep(h: Ideal, foot: Foot, db: Db, m: Msg, want: Meta)
    requires WellFormed(h) && Mirrors(h, At(db.files, foot)) && Tidy(db.files, foot) && Speaks(h, m)
             && m.op in {CHMOD, CHOWN}
    requires Covers(foot, m.path) && Inode(m.dev, m.ino) in foot.nodes
    requires Known(h, m) && Changes(h.meta[Inode(m.dev, m.ino)], m, want)
    ensures Acts(db.files, After(db, m).files, foot,
                 SetMeta(At(db.files, foot), m.dev, m.ino, want.uid, want.gid, want.mode, want.rdev))
  {
    hide Covers, Mirrors, WellFormed, At, Acts, After, Tidy, Changes, SetMeta;
    PartAround(h, foot, db.files, m);
    ChangeEffectOn(h, db, m, want);
    ChangeActs(db.files, foot, Inode(m.dev, m.ino), want);
  }

  // A new name for a file the part tracks.
  lemma LinkStep(h: Ideal, foot: Foot, db: Db, m: Msg)
    requires WellFormed(h) && Mirrors(h, At(db.files, foot)) && Tidy(db.files, foot) && m.op == LINK && m.named
    requires Covers(foot, m.path) && Inode(m.dev, m.ino) in foot.nodes && m.path !in h.names
    requires RealNode(Inode(m.dev, m.ino)) && Known(h, m)
    requires h.meta[Inode(m.dev, m.ino)] == Meta(m.uid, m.gid, m.mode, m.rdev)
    ensures var id := FreshId(db.files);
            id !in At(db.files, foot) && Acts(db.files, After(db, m).files, foot, At(db.files, foot)[id := RowOf(m)])
  {
    PartKnown(h, foot, db.files, Inode(m.dev, m.ino));
    hide Covers, Mirrors, At, Acts, After, Tidy, WellFormed;
    PartHasNoRow(h, foot, db.files, m.path);
    LinkKnown(db, m);
    InsertActs(db.files, foot, RowOf(m));
  }

  lemma PartKnown(h: Ideal, foot: Foot, t: Files, n: Inode)
    requires WellFormed(h) && Mirrors(h, At(t, foot)) && n in foot.nodes && n in h.meta
    ensures HasInode(t, n.dev, n.ino)
    ensures forall k | k in t && NodeOf(t[k]) == n :: MetaOf(t[k]) == h.meta[n]
  {
    hide Mirrors, WellFormed, Covers;
    var part := At(t, foot);
    KnownRow(h, part, n);
    var k :| k in part && part[k].dev == n.dev && part[k].ino == n.ino;
    assert t[k].dev == n.dev && t[k].ino == n.ino;
    assert forall j | j in t && NodeOf(t[j]) == n :: j in part && part[j] == t[j];
  }

  // Rows at and below the two paths of a rename are all in the part.
  lemma MoveStep(h: Ideal, foot: Foot, db: Db, c: Call)
    requires WellFormed(h) && Moving(h, c) && Mirrors(HalfWay(h, c), At(db.files, foot)) && Tidy(db.files, foot)
    requires c.src in foot.trees && c.dst in foot.trees && c.srcBuf.value.node in foot.nodes
    ensures var m := Request(RENAME, c.client, c.dst, c.srcBuf, c.src);
            Acts(db.files, After(db, m).files, foot, MoveRows(At(db.files, foot), c.src, c.dst))
  {
    var m := Request(RENAME, c.client, c.dst, c.srcBuf, c.src);
    var part := At(db.files, foot);
    PlainMove(h, part, c);
    RenameAgrees(h, part, c, m);
    hide Mirrors, WellFormed, Moving, HalfWay, Acts, After, MoveRows;
    PartOfMove(db.files, foot, m);
    RenameServed(db, m);
    MoveActs(db.files, foot, c.src, c.dst);
  }

  lemma PartOfMove(t: Files, foot: Foot, m: Msg)
    requires m.op == RENAME && m.named && m.extra in foot.trees && m.path in foot.trees
             && Inode(m.dev, m.ino) in foot.nodes
    requires var part := At(t, foot);
             && PlainRename(part, m) && Agrees(part, m) && HasInode(part, m.dev, m.ino)
             && forall k | k in part && NodeOf(part[k]) == Inode(m.dev, m.ino) ::
                  SameKind(part[k].mode, m.mode) && (m.nlink == 1 ==> part[k].path == m.extra)
    ensures PlainRename(t, m) && Agrees(t, m) && HasInode(t, m.dev, m.ino)
    ensures forall k | k in t && NodeOf(t[k]) == Inode(m.dev, m.ino) ::
              SameKind(t[k].mode, m.mode) && (m.nlink == 1 ==> t[k].path == m.extra)
  {
    var part := At(t, foot);
    forall k | k in t && (t[k].path == m.path || t[k].path == m.extra || Below(m.path, t[k].path)
        || Below(m.extra, t[k].path)
                          || NodeOf(t[k]) == Inode(m.dev, m.ino))
      ensures k in part && part[k] == t[k]
    {
      assert InTrees(foot.trees, t[k].path) || NodeOf(t[k]) in foot.nodes;
    }
    hide Covers, CoversRow, Occurs;
    var k :| k in part && part[k].path == m.extra;
    assert t[k].path == m.extra;
    var j :| j in part && part[j].dev == m.dev && part[j].ino == m.ino;
    assert t[j].dev == m.dev && t[j].ino == m.ino;
  }

  // ----- how far a call has come -----

  ghost predicate Begun(h: Ideal, c: Call, was: Files)
  {
    WellFormed(h) && Possible(h, c) && Mirrors(h, was) && NoMarks(was)
  }

  ghost predicate Ended(h: Ideal, c: Call, part: Files)
  {
    var g := IdealAfter(h, c);
    WellFormed(g) && Mirrors(g, part) && NoMarks(part)
  }

  function Chowned(h: Ideal, c: Call): Meta
    requires c.Chown?
  {
    var m := MetaOr(h, c.buf.node, HostMeta(c.buf));
    m.(uid := if c.owner.Some? then c.owner.value else m.uid, gid := if c.group.Some? then c.group.value else m.gid)
  }

  // What a call has learnt before its one request.
  ghost predicate Learnt(h: Ideal, c: Call, seen: Option<StatBuf>)
  {
    match c
    case Chown(_, _, buf, owner, group) =>
      seen.Some? && seen.value.node == buf.node && SameKind(seen.value.mode, buf.mode)
      && (var b := OwnerSet(seen.value, owner, group);
          b.uid == Chowned(h, c).uid && b.gid == Chowned(h, c).gid
              && (buf.node !in h.meta ==> HostMeta(b) == Chowned(h, c)))
    case HardLink(_, _, _, buf) =>
      seen.Some? && seen.value.node == buf.node && buf.node in h.meta && HostMeta(seen.value) == h.meta[buf.node]
    case _ => true
  }

  ghost predicate OnlySourceMarked(c: Call, part: Files)
    requires c.Rename?
  {
    forall k | k in part :: part[k].path == c.src || part[k].deleting == 0
  }

  // The part of the table of a call that began with `was` and sends `r.todo` next.
  ghost predicate Progress(h: Ideal, r: Running, was: Files, part: Files)
  {
    var c := r.call;
    && Begun(h, c, was)
    && (c.Rename? && r.todo != Finished ==>
          Renaming(h, c) && (r.todo in {DropNew, EnterOld, MoveOld} <==> c.ok && Rank(r.todo) < 5))
    && match r.todo
       case MarkNew => part == was
       case MarkOld =>
         if c.Remove? then part == was else part == SetMark(was, c.dst, c.client) && r.mayNew == Tracks(h, c.dstBuf)
       case AskOld =>
         if c.Rename? then part == MarkBoth(was, c) && r.mayNew == Tracks(h, c.dstBuf) && r.mayOld
             == Tracks(h, c.srcBuf)
         else part == was
       case Tell => part == was && Learnt(h, c, r.seen) && (c.Chmod? ==> !IsLnk(c.buf.mode))
       case Confirm => part == SetMark(was, c.path, c.client) && c.buf.node in h.meta
       case DropNew => part == MarkBoth(was, c) && r.mayNew && Tracks(h, c.dstBuf) && r.known == Tracks(h, c.srcBuf)
       case EnterOld => part == DeletePath(MarkBoth(was, c), c.dst) && !r.known && !Tracks(h, c.srcBuf)
       case MoveOld => Mirrors(HalfWay(h, c), part) && OnlySourceMarked(c, part)
       case FreeNew => part == MarkBoth(was, c) && Tracks(h, c.dstBuf) && r.mayOld == Tracks(h, c.srcBuf)
       case FreeOld => part == SetMark(MarkBoth(was, c), c.dst, 0) && Tracks(h, c.srcBuf)
       case Finished => Ended(h, c, part)
  }

  // One more request: the part goes where the call says, and nothing else moves.
  ghost predicate Advances(h: Ideal, foot: Foot, db: Db, r: Running, was: Files)
  {
    && r.todo != Finished
    && var m := MsgFor(r); var u := After(db, m).files;
       Only(db.files, u, foot) && Tidy(u, foot) && Progress(h, Next(r, Reply(db, m)), was, At(u, foot))
  }

  ghost predicate Ready(h: Ideal, foot: Foot, db: Db, r: Running, was: Files)
  {
    && Tidy(db.files, foot) && Progress(h, r, was, At(db.files, foot)) && r.todo != Finished
    && Holds(foot, r.call) && (forall p | p in h.names :: Covers(foot, p) && h.names[p] in foot.nodes)
  }

  // ----- call by call -----

  lemma NewRowEnds(h: Ideal, c: Call, was: Files, id: nat, r: Row)
    requires Mirrors(h, was) && NoMarks(was) && WellFormed(IdealAfter(h, c)) && id !in was && r.deleting == 0
    requires forall k | k in was :: was[k].path != r.path
    requires var g := IdealAfter(h, c);
             g.names == h.names[r.path := NodeOf(r)] && g.meta == h.meta[NodeOf(r) := MetaOf(r)]
    requires NodeOf(r) in h.meta ==> h.meta[NodeOf(r)] == MetaOf(r)
    requires forall p | p in h.names && p != r.path && h.names[p] == NodeOf(r) :: NodeOf(r) in h.meta
    requires r.path in h.names ==> h.names[r.path] == NodeOf(r)
    ensures Ended(h, c, was[id := r])
  {
    hide IdealAfter, WellFormed, Mirrors;
    InsertMirrorsAt(h, IdealAfter(h, c), was, id, r);
  }

  lemma CreateFacts(h: Ideal, foot: Foot, db: Db, r: Running, was: Files)
    requires Ready(h, foot, db, r, was) && r.call.Create?
    ensures var c := r.call; var m := MsgFor(r); var g := IdealAfter(h, c);
            && Begun(h, c, was) && Tidy(db.files, foot) && At(db.files, foot) == was && r.todo == Tell
            && Covers(foot, c.path) && c.buf.node in foot.nodes && c.buf.node !in h.meta && RealNode(c.buf.node)
            && c.path !in h.names && (forall p | p in h.names :: h.names[p] != c.buf.node)
            && WellFormed(g) && g.names == h.names[c.path := c.buf.node]
            && g.meta == h.meta[c.buf.node := MetaOf(RowOf(m))]
            && m.named && m.path == c.path && Inode(m.dev, m.ino) == c.buf.node
            && m.op in {CREAT, MKDIR, MKNOD, SYMLINK}
  {
    var c := r.call;
    assert c.path in NamedBy(c) && c.buf.node in NewNodes(c);
    CreatedWellFormed(h, c);
    hide Covers, Mirrors;
  }

  lemma CreateStep(h: Ideal, foot: Foot, db: Db, r: Running, was: Files)
    requires Ready(h, foot, db, r, was) && r.call.Create?
    ensures Advances(h, foot, db, r, was)
  {
    var c := r.call;
    hide Ready, Covers, Mirrors, At, Acts, After, Tidy, WellFormed, Reply, IdealAfter, Possible, Advances, MsgFor,
         RowOf;
    CreateFacts(h, foot, db, r, was);
    var m := MsgFor(r);
    EnterStep(h, foot, db, m);
    NoRow(h, was, c.path);
    RowFacts(m);
    assert RowOf(m).path == c.path by { RowPath(m); }
    NewRowEnds(h, c, was, FreshId(db.files), RowOf(m));
    EndsHere(h, foot, db, r, was, was[FreshId(db.files) := RowOf(m)]);
  }

  lemma RowPath(m: Msg)
    requires m.named
    ensures RowOf(m).path == m.path
  {}

  lemma Stepped(h: Ideal, foot: Foot, db: Db, r: Running, was: Files, part: Files)
    requires r.todo != Finished
    requires Acts(db.files, After(db, MsgFor(r)).files, foot, part)
             && Progress(h, Next(r, Reply(db, MsgFor(r))), was, part)
    ensures Advances(h, foot, db, r, was)
  {
    hide Progress, After, Reply, MsgFor, Next;
  }

  // The last request of a call.
  lemma EndsHere(h: Ideal, foot: Foot, db: Db, r: Running, was: Files, part: Files)
    requires r.todo != Finished && Begun(h, r.call, was)
    requires Next(r, Reply(db, MsgFor(r))).todo == Finished
    requires Acts(db.files, After(db, MsgFor(r)).files, foot, part) && Ended(h, r.call, part)
    ensures Advances(h, foot, db, r, was)
  {
    hide After, Reply, MsgFor, Ended, Begun, Acts, Next;
    Stepped(h, foot, db, r, was, part);
  }

  // chmod and chown, of a tracked file or of one that comes under tracking.
  ghost predicate ChangeFacts(h: Ideal, c: Call, m: Msg, want: Meta)
    requires c.Chmod? || c.Chown?
  {
    var n := c.buf.node;
    && m.op in {CHMOD, CHOWN} && Speaks(h, m) && Inode(m.dev, m.ino) == n && m.path == c.path && m.path in h.names
    && IdealAfter(h, c) == h.(meta := h.meta[n := want])
    && (if n in h.meta then Changes(h.meta[n], m, want)
        else want == Meta(m.uid, m.gid, m.mode, m.rdev) && OnlyName(h, m.path))
    && SameKind(want.mode, h.kinds[h.names[c.path]])
  }

  lemma KnownChangeEnds(h: Ideal, foot: Foot, db: Db, c: Call, m: Msg, was: Files, want: Meta)
    requires WellFormed(h) && Mirrors(h, was) && NoMarks(was) && Tidy(db.files, foot) && At(db.files, foot) == was
    requires (c.Chmod? || c.Chown?) && ChangeFacts(h, c, m, want) && c.buf.node in h.meta
    requires Covers(foot, c.path) && c.buf.node in foot.nodes
    ensures var part := SetMeta(was, m.dev, m.ino, want.uid, want.gid, want.mode, want.rdev);
            Acts(db.files, After(db, m).files, foot, part) && Ended(h, c, part)
  {
    MetaWellFormed(h, c.path, want);
    hide Covers, Mirrors, At, Acts, After, Tidy, WellFormed, Changes, IdealAfter, SameKind, OnlyName;
    ChangeStep(h, foot, db, m, want);
    UpdateMirrors(h, was, c.buf.node, want);
    ChangeMarks(was, c.buf.node, want);
  }

  lemma ChangeMarks(t: Files, n: Inode, m: Meta)
    ensures NoMarks(t) ==> NoMarks(SetMeta(t, n.dev, n.ino, m.uid, m.gid, m.mode, m.rdev))
  {}

  lemma NewChangeEnds(h: Ideal, foot: Foot, db: Db, c: Call, m: Msg, was: Files, want: Meta)
    requires WellFormed(h) && Mirrors(h, was) && NoMarks(was) && Tidy(db.files, foot) && At(db.files, foot) == was
    requires (c.Chmod? || c.Chown?) && ChangeFacts(h, c, m, want) && c.buf.node !in h.meta
    requires Covers(foot, c.path) && c.buf.node in foot.nodes
    ensures var part := was[FreshId(db.files) := RowOf(m)];
            Acts(db.files, After(db, m).files, foot, part) && Ended(h, c, part)
  {
    MetaWellFormed(h, c.path, want);
    UnknownFacts(h, m);
    hide Covers, Mirrors, At, Acts, After, Tidy, WellFormed, Changes, IdealAfter, SameKind, OnlyName, Speaks, RowOf;
    EnterStep(h, foot, db, m);
    NoRow(h, was, c.path);
    NewRowEnds(h, c, was, FreshId(db.files), RowOf(m));
  }

  lemma ChangeEnds(h: Ideal, foot: Foot, db: Db, r: Running, was: Files, want: Meta)
    requires Ready(h, foot, db, r, was) && (r.call.Chmod? || r.call.Chown?) && r.todo == Tell
    requires ChangeFacts(h, r.call, MsgFor(r), want)
    ensures Advances(h, foot, db, r, was)
  {
    var c := r.call;
    var m := MsgFor(r);
    assert Covers(foot, c.path) && c.buf.node in foot.nodes by { assert c.path in NamedBy(c); }
    hide Covers, Mirrors, At, Acts, After, Tidy, WellFormed, Reply, ChangeFacts, MsgFor, Ended, Possible;
    if c.buf.node in h.meta {
      KnownChangeEnds(h, foot, db, c, m, was, want);
      EndsHere(h, foot, db, r, was, SetMeta(was, m.dev, m.ino, want.uid, want.gid, want.mode, want.rdev));
    } else {
      NewChangeEnds(h, foot, db, c, m, was, want);
      EndsHere(h, foot, db, r, was, was[FreshId(db.files) := RowOf(m)]);
    }
  }

  lemma ChmodFacts(h: Ideal, r: Running)
    requires WellFormed(h) && Possible(h, r.call) && r.call.Chmod? && r.todo == Tell && !IsLnk(r.call.buf.mode)
    ensures var c := r.call;
            var base := MetaOr(h, c.buf.node, Meta(c.fuid, c.fgid, c.buf.mode, c.buf.rdev));
            ChangeFacts(h, c, MsgFor(r), base.(mode := Mode(base.mode.fmt, c.perm)))
  {}

  lemma ChmodStep(h: Ideal, foot: Foot, db: Db, r: Running, was: Files)
    requires Ready(h, foot, db, r, was) && r.call.Chmod?
    ensures Advances(h, foot, db, r, was)
  {
    var c := r.call;
    var base := MetaOr(h, c.buf.node, Meta(c.fuid, c.fgid, c.buf.mode, c.buf.rdev));
    hide WellFormed, Possible, ChangeFacts, Mirrors, MetaOr, Tidy, At, Holds, Advances;
    ChmodFacts(h, r);
    ChangeEnds(h, foot, db, r, was, base.(mode := Mode(base.mode.fmt, c.perm)));
  }

  lemma ChownFacts(h: Ideal, r: Running)
    requires WellFormed(h) && Possible(h, r.call) && r.call.Chown? && r.todo == Tell
    requires Learnt(h, r.call, r.seen)
    ensures ChangeFacts(h, r.call, MsgFor(r), Chowned(h, r.call))
  {}

  lemma ChownStep(h: Ideal, foot: Foot, db: Db, r: Running, was: Files)
    requires Ready(h, foot, db, r, was) && r.call.Chown?
    ensures Advances(h, foot, db, r, was)
  {
    var c := r.call;
    assert Stated(h, foot, c.path, Some(c.buf)) by { assert c.path in NamedBy(c); }
    hide WellFormed, Possible, ChangeFacts, Mirrors, MetaOr, Tidy, At, Holds, Advances, After, Reply, Stated,
         Covers, Learnt, Acts;
    if r.todo == Tell {
      ChownFacts(h, r);
      ChangeEnds(h, foot, db, r, was, Chowned(h, c));
    } else {
      var m := MsgFor(r);
      AskStep(h, foot, db, c.client, c.path, Some(c.buf));
      AskedAnswer(h, db, m, Some(c.buf));
      ChownAsked(h, r, Reply(db, m));
      Stepped(h, foot, db, r, was, was);
    }
  }

  lemma AskedAnswer(h: Ideal, db: Db, m: Msg, buf: Option<StatBuf>)
    requires Succeeds(db, m) <==> Tracks(h, buf)
    ensures Reply(db, m).result == SUCCEED <==> Tracks(h, buf)
  {}

  lemma ChownAsked(h: Ideal, r: Running, answer: Msg)
    requires WellFormed(h) && Possible(h, r.call) && r.call.Chown? && r.todo == AskOld
    requires answer.result == SUCCEED <==> r.call.buf.node in h.meta
    requires r.call.buf.node in h.meta ==> HostMeta(StatFrom(r.call.buf, answer)) == h.meta[r.call.buf.node]
    ensures var n := Next(r, answer); n.todo == Tell && Learnt(h, r.call, n.seen)
  {}

  lemma HardLinkStep(h: Ideal, foot: Foot, db: Db, r: Running, was: Files)
    requires Ready(h, foot, db, r, was) && r.call.HardLink?
    ensures Advances(h, foot, db, r, was)
  {
    hide Advances;
    if r.todo == Tell { HardLinkTells(h, foot, db, r, was); } else { HardLinkAsks(h, foot, db, r, was); }
  }

  lemma HardLinkTells(h: Ideal, foot: Foot, db: Db, r: Running, was: Files)
    requires Ready(h, foot, db, r, was) && r.call.HardLink? && r.todo == Tell
    ensures Advances(h, foot, db, r, was)
  {
    var c := r.call;
    var m := MsgFor(r);
    assert Covers(foot, c.dst) && c.buf.node in foot.nodes by { assert c.src in NamedBy(c) && c.dst in NamedBy(c); }
    LinkFacts(h, c);
    LinkedWellFormed(h, c);
    assert Inode(m.dev, m.ino) == c.buf.node && RowOf(m).path == c.dst && MetaOf(RowOf(m)) == h.meta[c.buf.node];
    hide Covers, Mirrors, At, Acts, After, Tidy, WellFormed, Reply, IdealAfter, Possible, Advances, RowOf, Ended;
    LinkStep(h, foot, db, m);
    NoRow(h, was, c.dst);
    assert RowOf(m).deleting == 0 && NodeOf(RowOf(m)) == c.buf.node by { RowFacts(m); }
    NewRowEnds(h, c, was, FreshId(db.files), RowOf(m));
    EndsHere(h, foot, db, r, was, was[FreshId(db.files) := RowOf(m)]);
  }

  lemma RowFacts(m: Msg)
    ensures RowOf(m).deleting == 0 && NodeOf(RowOf(m)) == Inode(m.dev, m.ino)
  {}

  lemma HardLinkAsks(h: Ideal, foot: Foot, db: Db, r: Running, was: Files)
    requires Ready(h, foot, db, r, was) && r.call.HardLink? && r.todo == AskOld
    ensures Advances(h, foot, db, r, was)
  {
    var c := r.call;
    var m := MsgFor(r);
    assert Covers(foot, c.src) && c.buf.node in foot.nodes && Speaks(h, m) by { assert c.src in NamedBy(c); }
    LinkFacts(h, c);
    hide Covers, Mirrors, At, Acts, After, Tidy, WellFormed, Reply, Possible, Advances, Speaks;
    PartAround(h, foot, db.files, m);
    StatEffect(h, db, m);
    AskedAnswer(h, db, m, Some(c.buf));
    NothingActs(db.files, foot);
    Stepped(h, foot, db, r, was, was);
  }

  lemma DeleteKeepsNoMarks(t: Files, p: Path)
    requires NoMarks(t)
    ensures NoMarks(DeletePath(t, p))
  {}

  lemma RemoveFacts(h: Ideal, foot: Foot, db: Db, r: Running, was: Files)
    requires Ready(h, foot, db, r, was) && r.call.Remove?
    ensures var c := r.call;
            && Begun(h, c, was) && Tidy(db.files, foot) && r.todo in {MarkOld, Confirm}
            && At(db.files, foot) == (if r.todo == MarkOld then was else SetMark(was, c.path, c.client))
            && (r.todo == Confirm ==> c.buf.node in h.meta)
            && Stated(h, foot, c.path, Some(c.buf)) && Covers(foot, c.path)
            && c.client != 0 && c.path in h.names && h.names[c.path] == c.buf.node
  {
    assert r.call.path in NamedBy(r.call);
    hide WellFormed, Mirrors, Covers;
  }

  lemma RemoveStep(h: Ideal, foot: Foot, db: Db, r: Running, was: Files)
    requires Ready(h, foot, db, r, was) && r.call.Remove?
    ensures Advances(h, foot, db, r, was)
  {
    hide Advances, Ready, Stated, Begun;
    RemoveFacts(h, foot, db, r, was);
    if r.todo == MarkOld {
      RemoveMarks(h, foot, db, r, was);
    } else if r.call.ok {
      RemoveConfirms(h, foot, db, r, was);
    } else {
      RemoveCancels(h, foot, db, r, was);
    }
  }

  lemma RemoveConfirms(h: Ideal, foot: Foot, db: Db, r: Running, was: Files)
    requires Ready(h, foot, db, r, was) && r.call.Remove? && r.todo == Confirm && r.call.ok
    ensures Advances(h, foot, db, r, was)
  {
    var c := r.call;
    hide Ready, Covers, Mirrors, At, Acts, After, Tidy, WellFormed, Living, Possible, Advances, Stated;
    RemoveFacts(h, foot, db, r, was);
    Unmark(was, c.path, c.client);
    RemovedMirrors(h, was, c.path);
    DidStep(foot, db, MsgFor(r));
    DeleteKeepsNoMarks(was, c.path);
    EndsHere(h, foot, db, r, was, DeletePath(was, c.path));
  }

  lemma RemoveCancels(h: Ideal, foot: Foot, db: Db, r: Running, was: Files)
    requires Ready(h, foot, db, r, was) && r.call.Remove? && r.todo == Confirm && !r.call.ok
    ensures Advances(h, foot, db, r, was)
  {
    var c := r.call;
    hide Ready, Covers, Mirrors, At, Acts, After, Tidy, WellFormed, Possible, Advances, Stated, SetMark;
    RemoveFacts(h, foot, db, r, was);
    Unmark(was, c.path, c.client);
    MarkMirrors(h, was, c.path, c.client);
    CancelStep(h, foot, db, c.client, c.path, c.buf);
    EndsHere(h, foot, db, r, was, was);
  }

  lemma RemoveMarks(h: Ideal, foot: Foot, db: Db, r: Running, was: Files)
    requires Ready(h, foot, db, r, was) && r.call.Remove? && r.todo == MarkOld
    ensures Advances(h, foot, db, r, was)
  {
    var c := r.call;
    var m := MsgFor(r);
    var part := SetMark(was, c.path, c.client);
    hide Ready, Covers, Mirrors, At, Acts, After, Tidy, WellFormed, Living, Possible, Advances, Stated, Reply,
         Succeeds, SetMark;
    RemoveFacts(h, foot, db, r, was);
    MayStep(h, foot, db, c.client, c.path, Some(c.buf));
    AskedAnswer(h, db, m, Some(c.buf));
    if c.buf.node in h.meta {
      RemoveMarked(h, r, was, Reply(db, m));
      Stepped(h, foot, db, r, was, part);
    } else {
      NoRow(h, was, c.path);
      Unmark(was, c.path, c.client);
      if c.ok { RemovedMirrors(h, was, c.path); }
      EndsHere(h, foot, db, r, was, part);
    }
  }

  lemma RemoveMarked(h: Ideal, r: Running, was: Files, answer: Msg)
    requires Begun(h, r.call, was) && r.call.Remove? && r.todo == MarkOld
    requires answer.result == SUCCEED && r.call.buf.node in h.meta
    ensures Progress(h, Next(r, answer), was, SetMark(was, r.call.path, r.call.client))
  {
    hide Begun, SetMark;
  }

  // ----- renaming -----

  lemma RenameFacts(h: Ideal, foot: Foot, db: Db, r: Running, was: Files)
    requires Ready(h, foot, db, r, was) && r.call.Rename?
    ensures var c := r.call;
            && Begun(h, c, was) && Tidy(db.files, foot) && Renaming(h, c)
            && Progress(h, r, was, At(db.files, foot))
            && Stated(h, foot, c.src, c.srcBuf) && Stated(h, foot, c.dst, c.dstBuf)
            && c.src in foot.trees && c.dst in foot.trees && c.client != 0
            && (c.ok ==> Moving(h, c) && c.srcBuf.Some? && c.src != c.dst && c.srcBuf.value.node in foot.nodes
                         && RenameBuf(r.known, c.srcBuf.value, c.dstBuf) == c.srcBuf.value)
  {
    var c := r.call;
    assert c.src in NamedBy(c) && c.dst in NamedBy(c) && c.src in TreesOf(c) && c.dst in TreesOf(c);
    hide WellFormed, Mirrors, Covers;
  }

  // The two marks and the question, before the real rename.
  lemma MarkNewStep(h: Ideal, foot: Foot, db: Db, r: Running, was: Files)
    requires Ready(h, foot, db, r, was) && r.call.Rename? && r.todo == MarkNew
    ensures Advances(h, foot, db, r, was)
  {
    var c := r.call;
    hide Ready, Covers, Mirrors, At, Acts, After, Tidy, WellFormed, Possible, Advances, Stated, Reply,
         Succeeds, SetMark, Renaming;
    RenameFacts(h, foot, db, r, was);
    MayStep(h, foot, db, c.client, c.dst, c.dstBuf);
    AskedAnswer(h, db, MsgFor(r), c.dstBuf);
    Stepped(h, foot, db, r, was, SetMark(was, c.dst, c.client));
  }

  lemma MarkOldStep(h: Ideal, foot: Foot, db: Db, r: Running, was: Files)
    requires Ready(h, foot, db, r, was) && r.call.Rename? && r.todo == MarkOld
    ensures Advances(h, foot, db, r, was)
  {
    var c := r.call;
    hide Ready, Covers, Mirrors, At, Acts, After, Tidy, WellFormed, Possible, Advances, Stated, Reply,
         Succeeds, SetMark, Renaming;
    RenameFacts(h, foot, db, r, was);
    MarkMirrors(h, was, c.dst, c.client);
    MayStep(h, foot, db, c.client, c.src, c.srcBuf);
    AskedAnswer(h, db, MsgFor(r), c.srcBuf);
    Stepped(h, foot, db, r, was, MarkBoth(was, c));
  }

  lemma BothMirrors(h: Ideal, c: Call, was: Files)
    requires c.Rename? && Mirrors(h, was)
    ensures Mirrors(h, MarkBoth(was, c))
  {
    hide Mirrors, SetMark;
    MarkMirrors(h, was, c.dst, c.client);
    MarkMirrors(h, SetMark(was, c.dst, c.client), c.src, c.client);
  }

  lemma AskOldStep(h: Ideal, foot: Foot, db: Db, r: Running, was: Files)
    requires Ready(h, foot, db, r, was) && r.call.Rename? && r.todo == AskOld
    ensures Advances(h, foot, db, r, was)
  {
    var c := r.call;
    var m := MsgFor(r);
    hide Ready, Covers, Mirrors, At, Acts, After, Tidy, WellFormed, Possible, Advances, Stated, Reply,
         Succeeds, MarkBoth;
    RenameFacts(h, foot, db, r, was);
    BothMirrors(h, c, was);
    AskStep(h, foot, db, c.client, c.src, c.srcBuf);
    AskedAnswer(h, db, m, c.srcBuf);
    AfterAsking(h, r, was, Reply(db, m));
    Stepped(h, foot, db, r, was, MarkBoth(was, c));
  }

  // The target has no row left.
  lemma GoneProgress(h: Ideal, r: Running, was: Files)
    requires r.call.Rename? && Begun(h, r.call, was) && Moving(h, r.call) && r.call.src != r.call.dst
    requires r.known == Tracks(h, r.call.srcBuf) && r.todo == if r.known then MoveOld else EnterOld
    ensures Progress(h, r, was, DeletePath(MarkBoth(was, r.call), r.call.dst))
  {
    var c := r.call;
    var part := DeletePath(MarkBoth(was, c), c.dst);
    hide WellFormed, Mirrors, Possible, HalfWay, MarkBoth, DeletePath, Living;
    MarksLeft(was, c);
    if r.known {
      TargetGone(h, was, c);
      KnownHalfWay(h, part, c);
    }
  }

  // The target's mark is released.
  lemma FreedProgress(h: Ideal, r: Running, was: Files)
    requires r.call.Rename? && Begun(h, r.call, was) && Renaming(h, r.call) && !r.call.ok
    requires r.mayOld == Tracks(h, r.call.srcBuf) && r.todo == if r.mayOld then FreeOld else Finished
    ensures Progress(h, r, was, SetMark(MarkBoth(was, r.call), r.call.dst, 0))
  {
    var c := r.call;
    hide WellFormed, Mirrors, Possible, MarkBoth, SetMark;
    CancelBoth(was, c);
    if !r.mayOld {
      NoSourceRow(h, was, c);
      assert IdealAfter(h, c) == h;
    }
  }

  lemma NoSourceRow(h: Ideal, t: Files, c: Call)
    requires Renaming(h, c) && Mirrors(h, t) && !Tracks(h, c.srcBuf)
    ensures forall k | k in t :: t[k].path != c.src
  {
    hide Mirrors;
    NoRow(h, t, c.src);
  }

  lemma NothingAtTarget(t: Files, c: Call)
    requires c.Rename? && forall k | k in t :: t[k].path != c.dst
    ensures DeletePath(MarkBoth(t, c), c.dst) == MarkBoth(t, c) && SetMark(MarkBoth(t, c), c.dst, 0) == MarkBoth(t, c)
  {}

  lemma AfterAsking(h: Ideal, r: Running, was: Files, answer: Msg)
    requires r.call.Rename? && r.todo == AskOld && Begun(h, r.call, was) && Renaming(h, r.call)
    requires r.call.ok ==> Moving(h, r.call) && r.call.src != r.call.dst
    requires r.mayNew == Tracks(h, r.call.dstBuf) && r.mayOld == Tracks(h, r.call.srcBuf)
    requires answer.result == SUCCEED <==> Tracks(h, r.call.srcBuf)
    ensures Progress(h, Next(r, answer), was, MarkBoth(was, r.call))
  {
    var c := r.call;
    var n := Next(r, answer);
    hide WellFormed, Mirrors, Renaming, Moving, MarkBoth, HalfWay, IdealAfter, Tracks, SetMark, DeletePath,
         OnlySourceMarked;
    if !r.mayNew {
      NoTargetRow(h, was, c);
      NothingAtTarget(was, c);
      if c.ok { GoneProgress(h, n, was); } else { FreedProgress(h, n, was); }
    }
  }

  // The target's row is dropped.
  lemma DropNewStep(h: Ideal, foot: Foot, db: Db, r: Running, was: Files)
    requires Ready(h, foot, db, r, was) && r.call.Rename? && r.todo == DropNew
    ensures Advances(h, foot, db, r, was)
  {
    var c := r.call;
    hide Ready, Covers, Mirrors, At, Acts, After, Tidy, WellFormed, Possible, Advances, Reply, MarkBoth,
         DeletePath, Tracks;
    RenameFacts(h, foot, db, r, was);
    DidStep(foot, db, MsgFor(r));
    DeleteMine(was, c);
    GoneProgress(h, Next(r, Reply(db, MsgFor(r))), was);
    Stepped(h, foot, db, r, was, DeletePath(MarkBoth(was, c), c.dst));
  }

  // An unknown source is entered under its old name.
  lemma EnterOldStep(h: Ideal, foot: Foot, db: Db, r: Running, was: Files)
    requires Ready(h, foot, db, r, was) && r.call.Rename? && r.todo == EnterOld
    ensures Advances(h, foot, db, r, was)
  {
    var c := r.call;
    var m := MsgFor(r);
    var part := DeletePath(MarkBoth(was, c), c.dst);
    var g := Living(h.(names := h.names - {c.dst}));
    hide Ready, Covers, Mirrors, At, Acts, After, Tidy, WellFormed, Possible, Advances, Reply, MarkBoth,
         DeletePath, Living, HalfWay, RowOf;
    RenameFacts(h, foot, db, r, was);
    TargetGone(h, was, c);
    EnterFacts(h, c, m);
    EnterStep(g, foot, db, m);
    RowFacts(m);
    MarksLeft(was, c);
    EnteredHalfWay(h, part, c, FreshId(db.files), RowOf(m));
    Stepped(h, foot, db, r, was, part[FreshId(db.files) := RowOf(m)]);
  }

  lemma EnterFacts(h: Ideal, c: Call, m: Msg)
    requires WellFormed(h) && Moving(h, c) && !Tracks(h, c.srcBuf) && m == Request(LINK, c.client, c.src, c.srcBuf, "")
    ensures var n := c.srcBuf.value.node; var g := Living(h.(names := h.names - {c.dst}));
            && Inode(m.dev, m.ino) == n && m.dev != 0 && m.ino != 0 && m.named && n !in g.meta
            && c.src in g.names && g.names[c.src] == n
            && RowOf(m).path == c.src && NodeOf(RowOf(m)) == n && MetaOf(RowOf(m)) == HostMeta(c.srcBuf.value)
  {}

  lemma MoveOldStep(h: Ideal, foot: Foot, db: Db, r: Running, was: Files)
    requires Ready(h, foot, db, r, was) && r.call.Rename? && r.todo == MoveOld
    ensures Advances(h, foot, db, r, was)
  {
    var c := r.call;
    var part := At(db.files, foot);
    hide Ready, Covers, Mirrors, At, Acts, After, Tidy, WellFormed, Possible, Advances, Reply, HalfWay,
         IdealAfter, MoveRows, Stated;
    RenameFacts(h, foot, db, r, was);
    MoveStep(h, foot, db, c);
    CallMoves(h, c);
    MovedMirrors(HalfWay(h, c), IdealAfter(h, c), part, c.src, c.dst);
    MoveClearsMarks(part, c.src, c.dst);
    MovedWellFormed(h, c);
    EndsHere(h, foot, db, r, was, MoveRows(part, c.src, c.dst));
  }

  // A rename that failed takes its marks back.
  lemma FreeNewStep(h: Ideal, foot: Foot, db: Db, r: Running, was: Files)
    requires Ready(h, foot, db, r, was) && r.call.Rename? && r.todo == FreeNew
    ensures Advances(h, foot, db, r, was)
  {
    var c := r.call;
    hide Ready, Covers, Mirrors, At, Acts, After, Tidy, WellFormed, Possible, Advances, Reply, MarkBoth,
         SetMark, Stated;
    RenameFacts(h, foot, db, r, was);
    BothMirrors(h, c, was);
    CancelStep(h, foot, db, c.client, c.dst, c.dstBuf.value);
    FreedProgress(h, Next(r, Reply(db, MsgFor(r))), was);
    Stepped(h, foot, db, r, was, SetMark(MarkBoth(was, c), c.dst, 0));
  }

  lemma FreeOldStep(h: Ideal, foot: Foot, db: Db, r: Running, was: Files)
    requires Ready(h, foot, db, r, was) && r.call.Rename? && r.todo == FreeOld
    ensures Advances(h, foot, db, r, was)
  {
    var c := r.call;
    hide Ready, Covers, Mirrors, At, Acts, After, Tidy, WellFormed, Possible, Advances, Reply, MarkBoth,
         SetMark, Stated;
    RenameFacts(h, foot, db, r, was);
    BothMirrors(h, c, was);
    MarkMirrors(h, MarkBoth(was, c), c.dst, 0);
    CancelBoth(was, c);
    CancelStep(h, foot, db, c.client, c.src, c.srcBuf.value);
    assert IdealAfter(h, c) == h;
    EndsHere(h, foot, db, r, was, was);
  }

  // ----- every call -----

  lemma StepAdvances(h: Ideal, foot: Foot, db: Db, r: Running, was: Files)
    requires Ready(h, foot, db, r, was)
    ensures Advances(h, foot, db, r, was)
  {
    hide Ready, Advances, Progress;
    match r.call
    case Create(_, _, _, _, _, _, _) => CreateStep(h, foot, db, r, was);
    case Chmod(_, _, _, _, _, _) => ChmodStep(h, foot, db, r, was);
    case Chown(_, _, _, _, _) => ChownStep(h, foot, db, r, was);
    case HardLink(_, _, _, _) => HardLinkStep(h, foot, db, r, was);
    case Remove(_, _, _, _) => RemoveStep(h, foot, db, r, was);
    case Rename(_, _, _, _, _, _) => RenameStep(h, foot, db, r, was);
  }

  lemma RenameStep(h: Ideal, foot: Foot, db: Db, r: Running, was: Files)
    requires Ready(h, foot, db, r, was) && r.call.Rename?
    ensures Advances(h, foot, db, r, was)
  {
    assert r.todo !in {Tell, Confirm, Finished};
    hide Ready, Advances;
    match r.todo {
      case MarkNew => MarkNewStep(h, foot, db, r, was);
      case MarkOld => MarkOldStep(h, foot, db, r, was);
      case AskOld => AskOldStep(h, foot, db, r, was);
      case DropNew => DropNewStep(h, foot, db, r, was);
      case EnterOld => EnterOldStep(h, foot, db, r, was);
      case MoveOld => MoveOldStep(h, foot, db, r, was);
      case FreeNew => FreeNewStep(h, foot, db, r, was);
      case FreeOld => FreeOldStep(h, foot, db, r, was);
    }
  }

  lemma StartProgress(h: Ideal, c: Call, was: Files)
    requires Begun(h, c, was)
    ensures Progress(h, Started(c), was, was)
  {
    hide WellFormed, Mirrors;
    assert First(c) == Finished ==> IdealAfter(h, c) == h;
  }
}
