// Runs of several clients.  The host carries out a removal before the server hears of it: from
// then on the inode number is free, and another client may get it for a new file while the old
// row, marked, waits for its confirmation.

module ConcurrentRuns {
  import opened PathText
  import opened FileTable
  import opened ServerOp
  import opened Agreeing
  import opened WrapperScripts
  import opened UnlinkProtocol
  import opened VirtualRoot
  import opened VirtualRename
  import opened Footprints
  import opened LocalIdeals
  import opened CallSteps
  import opened CallProgress
  import opened Concurrent

  // A removal the host has carried out and the server has not been told of.
  datatype Debt = Debt(client: int, path: Path, buf: StatBuf)

  datatype World = World(sys: Sys, owed: map<int, Debt>)

  // A step of a call; a real removal; its confirmation.
  datatype Event = Step(act: Act) | Removed(who: int) | Confirmed(who: int)

  function Happen(s: World, e: Event): World
  {
    match e
    case Step(a) => s.(sys := Do(s.sys, a))
    case Removed(who) =>
      if who !in s.sys.tasks || !s.sys.tasks[who].run.call.Remove? then s
      else
        var c := s.sys.tasks[who].run.call;
        World(Sys(IdealAfter(s.sys.f, c), s.sys.db, s.sys.tasks - {who}, s.sys.done + [c]),
              s.owed[who := Debt(c.client, c.path, c.buf)])
    case Confirmed(who) =>
      if who !in s.owed then s
      else World(s.sys.(db := After(s.sys.db, Confirmation(s.owed[who]))), s.owed - {who})
  }

  function Confirmation(d: Debt): Msg { Request(DID_UNLINK, d.client, d.path, Some(d.buf), "") }

  // A new call stays apart from the paths whose removal is to be confirmed; a file it creates may
  // have the number of a removed one, unless it is a symbolic link.
  ghost predicate Free(s: World, c: Call)
  {
    && (forall w | w in s.owed :: !Covers(FootOf(s.sys.f, c), s.owed[w].path))
    && (c.Create? && c.op == SYMLINK ==> forall w | w in s.owed :: s.owed[w].buf.node != c.buf.node)
  }

  // A removal that takes the last name can be seen on its own.
  ghost predicate Removes(s: Sys, who: int)
  {
    && who in s.tasks && s.tasks[who].run.call.Remove? && s.tasks[who].run.call.ok && s.tasks[who].run.todo == Confirm
    && s.tasks[who].run.call.path in s.f.names && OnlyName(s.f, s.tasks[who].run.call.path)
  }

  ghost predicate CanHappen(s: World, e: Event)
  {
    match e
    case Step(a) => Allowed(s.sys, a) && (a.Begin? ==> a.who !in s.owed && Free(s, a.call))
    case Removed(who) => Removes(s.sys, who)
    case Confirmed(who) => true
  }

  predicate IsOwed(owed: map<int, Debt>, p: Path)
  {
    exists w :: w in owed && owed[w].path == p
  }

  // The table without the rows of removed files.
  function Without(t: Files, owed: map<int, Debt>): Files
  {
    map k | k in t && !IsOwed(owed, t[k].path) :: t[k]
  }

  function Cleared(s: World): Sys { s.sys.(db := Db(Without(s.sys.db.files, s.owed), s.sys.db.attrs)) }

  // A creation that has not been told yet will drop the rows its inode number has.
  predicate Reuses(a: Task, n: Inode)
  {
    a.run.call.Create? && a.run.call.op != SYMLINK && a.run.todo == Tell && a.run.call.buf.node == n
  }

  // The row of a removed file is marked by the client that will confirm, and its inode number is
  // free or on its way to a new file.
  ghost predicate Stale(f: Ideal, tasks: map<int, Task>, d: Debt, r: Row)
  {
    && r.deleting == d.client && NodeOf(r) == d.buf.node && !Named(f.names, NodeOf(r))
    && forall w | w in tasks && NodeOf(r) in tasks[w].foot.nodes :: Reuses(tasks[w], NodeOf(r))
  }

  ghost predicate Owing(s: World)
  {
    && s.sys.tasks.Keys !! s.owed.Keys
    && (forall w | w in s.owed :: s.owed[w].client != 0 && s.owed[w].path !in s.sys.f.names)
    && (forall v, w | v in s.owed && w in s.owed && s.owed[v].path == s.owed[w].path :: v == w)
    && (forall v, w | v in s.sys.tasks && w in s.owed :: !Covers(s.sys.tasks[v].foot, s.owed[w].path))
  }

  ghost predicate AllStale(s: World, t: Files)
  {
    forall k, w | k in t && w in s.owed && t[k].path == s.owed[w].path :: Stale(s.sys.f, s.sys.tasks, s.owed[w], t[k])
  }

  ghost predicate Kept(s: World)
  {
    Inv(Cleared(s)) && Owing(s) && AllStale(s, s.sys.db.files)
  }

  // ----- one more request -----

  // No row of a removed file is in the part: the request may as well run on the whole table.
  ghost predicate Unseen(s: World, foot: Foot)
  {
    forall k | k in s.sys.db.files && IsOwed(s.owed, s.sys.db.files[k].path) ::
      !CoversRow(foot, s.sys.db.files[k])
  }

  lemma SameInPart(t: Files, owed: map<int, Debt>, foot: Foot)
    requires forall k | k in t && IsOwed(owed, t[k].path) :: !CoversRow(foot, t[k])
    ensures At(t, foot) == At(Without(t, owed), foot) && (Tidy(Without(t, owed), foot) <==> Tidy(t, foot))
  {
    hide Covers, IsOwed;
    assert forall k | k in t && !IsOwed(owed, t[k].path) :: k in Without(t, owed);
  }

  lemma SoundOnWhole(f: Ideal, t: Files, owed: map<int, Debt>, a: Task)
    requires forall k | k in t && IsOwed(owed, t[k].path) :: !CoversRow(a.foot, t[k])
    ensures Sound(f, t, a) <==> Sound(f, Without(t, owed), a)
  {
    SameInPart(t, owed, a.foot);
    hide At, Progress, Tidy, CoversRow, IsOwed;
  }

  // Rows of removed files outside the part are as before.
  lemma StillOwed(t: Files, u: Files, owed: map<int, Debt>, foot: Foot)
    requires Only(t, u, foot) && Tidy(t, foot) && Tidy(u, foot)
    requires forall w | w in owed :: !Covers(foot, owed[w].path)
    ensures forall k | k in u && IsOwed(owed, u[k].path) :: k in t && u[k] == t[k] && !CoversRow(foot, u[k])
    ensures Only(Without(t, owed), Without(u, owed), foot)
  {
    hide Covers;
    forall k | k in u && IsOwed(owed, u[k].path)
      ensures k in t && u[k] == t[k] && !CoversRow(foot, u[k])
    {}
    hide IsOwed;
  }

  lemma InvIsSound(s: Sys, who: int)
    requires Inv(s) && who in s.tasks
    ensures Sound(s.f, s.db.files, s.tasks[who])
  {}

  // One request, of a part that holds no row of a removed file.
  lemma PartGoesOn(s: World, who: int)
    requires Kept(s) && who in s.sys.tasks && s.sys.tasks[who].run.todo != Finished
    requires Unseen(s, s.sys.tasks[who].foot)
    ensures var a := s.sys.tasks[who]; var m := MsgFor(a.run); var u := After(s.sys.db, m).files;
            && StillAt(s, u, a.foot)
            && Sound(s.sys.f, Without(u, s.owed), a.(run := Next(a.run, Reply(s.sys.db, m))))
  {
    var a := s.sys.tasks[who];
    var m := MsgFor(a.run);
    var t, u := s.sys.db.files, After(s.sys.db, m).files;
    InvIsSound(Cleared(s), who);
    hide Sound, After, Reply, MsgFor, Next, Tidy, Only, AllStale, Without, IsOwed, Inv;
    SoundOnWhole(s.sys.f, t, s.owed, a);
    TaskAdvances(s.sys, a);
    SoundIsTidy(s.sys.f, t, a);
    StillOwed(t, u, s.owed, a.foot);
    SoundOnWhole(s.sys.f, u, s.owed, a.(run := Next(a.run, Reply(s.sys.db, m))));
  }

  // What a request about a part leaves of the rows of removed files, and of the rest.
  ghost predicate StillAt(s: World, u: Files, foot: Foot)
  {
    && Only(Without(s.sys.db.files, s.owed), Without(u, s.owed), foot)
    && forall k | k in u && IsOwed(s.owed, u[k].path) ::
         k in s.sys.db.files && u[k] == s.sys.db.files[k] && NodeOf(u[k]) !in foot.nodes
  }

  lemma GoesOn(s: World, who: int)
    requires Kept(s) && who in s.sys.tasks && s.sys.tasks[who].run.todo != Finished
    requires var a := s.sys.tasks[who]; var m := MsgFor(a.run); var u := After(s.sys.db, m).files;
             && StillAt(s, u, a.foot)
             && Sound(s.sys.f, Without(u, s.owed), a.(run := Next(a.run, Reply(s.sys.db, m))))
    ensures Kept(Happen(s, Step(Go(who))))
  {
    hide Happen, Do, Sound, After, Reply, MsgFor, Next, Only, Inv, Stale, Without, Cleared,
      IsOwed, Owing, AllStale;
    var n := Happen(s, Step(Go(who)));
    WhatGoes(s, who);
    ClearedGoesOn(s, n, who);
    OwedPaths(s);
    OwingGoesOn(s, n);
    StaleGoesOn(s, n, who);
  }

  lemma ClearedGoesOn(s: World, n: World, who: int)
    requires Inv(Cleared(s)) && who in s.sys.tasks && n.sys.f == s.sys.f && n.owed == s.owed
    requires who in n.sys.tasks && n.sys.tasks[who].foot == s.sys.tasks[who].foot
    requires n.sys.tasks == s.sys.tasks[who := n.sys.tasks[who]]
    requires StillAt(s, n.sys.db.files, n.sys.tasks[who].foot)
             && Sound(s.sys.f, Without(n.sys.db.files, s.owed), n.sys.tasks[who])
    ensures Inv(Cleared(n))
  {
    hide Sound, Only, Inv, Without, IsOwed, Tidy;
    SoundIsTidy(s.sys.f, Without(n.sys.db.files, s.owed), n.sys.tasks[who]);
    PartKeepsInv(Cleared(s), who, Cleared(n));
  }

  lemma WhatGoes(s: World, who: int)
    requires who in s.sys.tasks && s.sys.tasks[who].run.todo != Finished
    ensures var n := Happen(s, Step(Go(who))); var a := s.sys.tasks[who]; var m := MsgFor(a.run);
            && n.owed == s.owed && n.sys.f == s.sys.f && n.sys.db == After(s.sys.db, m)
            && n.sys.tasks == s.sys.tasks[who := a.(run := Next(a.run, Reply(s.sys.db, m)))]
  {
    hide After, Reply, Next, MsgFor;
  }

  lemma OwingGoesOn(s: World, n: World)
    requires Owing(s) && n.owed == s.owed && n.sys.tasks.Keys !! s.owed.Keys
    requires forall w | w in s.owed :: s.owed[w].path !in n.sys.f.names
    requires forall v | v in n.sys.tasks ::
               || (v in s.sys.tasks && n.sys.tasks[v].foot == s.sys.tasks[v].foot)
               || forall w | w in s.owed :: !Covers(n.sys.tasks[v].foot, s.owed[w].path)
    ensures Owing(n)
  {
    hide Covers;
  }

  lemma OwedPaths(s: World)
    requires Owing(s)
    ensures forall w | w in s.owed :: s.owed[w].path !in s.sys.f.names
    ensures s.sys.tasks.Keys !! s.owed.Keys
    ensures forall v, w | v in s.sys.tasks && w in s.owed :: !Covers(s.sys.tasks[v].foot, s.owed[w].path)
  {
    hide Covers;
  }

  lemma StaleGoesOn(s: World, n: World, who: int)
    requires AllStale(s, s.sys.db.files) && n.owed == s.owed && n.sys.f == s.sys.f && who in s.sys.tasks
    requires n.sys.tasks.Keys == s.sys.tasks.Keys && n.sys.tasks[who].foot == s.sys.tasks[who].foot
    requires forall w | w in s.sys.tasks && w != who :: n.sys.tasks[w] == s.sys.tasks[w]
    requires forall k | k in n.sys.db.files && IsOwed(s.owed, n.sys.db.files[k].path) ::
               k in s.sys.db.files && n.sys.db.files[k] == s.sys.db.files[k]
               && NodeOf(n.sys.db.files[k]) !in s.sys.tasks[who].foot.nodes
    ensures AllStale(n, n.sys.db.files)
  {
    var u := n.sys.db.files;
    hide Named, Reuses;
    forall k, w | k in u && w in n.owed && u[k].path == n.owed[w].path
      ensures Stale(n.sys.f, n.sys.tasks, n.owed[w], u[k])
    {
      assert IsOwed(s.owed, u[k].path);
      assert Stale(s.sys.f, s.sys.tasks, s.owed[w], s.sys.db.files[k]);
    }
  }

  // ----- a new file with the number of a removed one -----

  // The marked rows of the inode do not refuse the request, and it drops them.
  lemma ReuseEffect(db: Db, m: Msg)
    requires m.named && m.dev != 0 && m.ino != 0 && m.op in {CREAT, MKDIR, MKNOD}
    requires forall k | k in db.files :: db.files[k].path != m.path
    requires forall k | k in db.files && NodeOf(db.files[k]) == Inode(m.dev, m.ino) :: db.files[k].deleting != 0
    ensures After(db, m).files == Insert(DeleteInode(db.files, m.dev, m.ino), RowOf(m))
  {
    hide Front, CheckIno, Finish, Insert, DeleteInode;
    FrontOfAgreeing(db, m);
    var w := Front(db, m);
    if w.foundIno {
      var k :| IsHit(db.files, w, k);
      assert NodeOf(db.files[k]) == Inode(m.dev, m.ino);
    }
    CheckDropsInode(w);
    MakeDropsInode(CheckIno(w));
    DeletedTwice(db.files, m);
  }

  lemma DeletedTwice(t: Files, m: Msg)
    ensures var g := DeleteInode(t, m.dev, m.ino); DeleteInode(g, m.dev, m.ino) == g
    ensures !HasInode(t, m.dev, m.ino) ==> DeleteInode(t, m.dev, m.ino) == t
  {}

  lemma CheckDropsInode(w: Work)
    requires !Refused(w)
    ensures var c := CheckIno(w);
            c == w || (!c.foundIno && c == w.(db := c.db, foundIno := false)
                       && c.db.files == DeleteInode(w.db.files, w.msg.dev, w.msg.ino))
  {
    hide DeleteInode;
  }

  lemma MakeDropsInode(w: Work)
    requires w.msg.op in {CREAT, MKDIR, MKNOD} && !w.foundPath && !w.foundExact && RowOf(w.msg) == RowOf(w.header)
    requires w.foundIno ==> w.byIno.dev == w.msg.dev && w.byIno.ino == w.msg.ino
    ensures Finish(w).db.files ==
            Insert(if w.foundIno then DeleteInode(w.db.files, w.msg.dev, w.msg.ino) else w.db.files, RowOf(w.msg))
  {
    hide Insert, DeleteInode;
  }

  lemma ReuseRow(t: Files, owed: map<int, Debt>, m: Msg)
    requires m.named && !IsOwed(owed, m.path)
    requires forall k | k in t && !IsOwed(owed, t[k].path) :: NodeOf(t[k]) != Inode(m.dev, m.ino)
    ensures var g := DeleteInode(t, m.dev, m.ino); var u := Insert(g, RowOf(m)); var id := FreshId(g);
            && id !in Without(t, owed) && Without(u, owed) == Without(t, owed)[id := RowOf(m)]
            && forall k | k in u && IsOwed(owed, u[k].path) ::
                 k in t && u[k] == t[k] && NodeOf(u[k]) != Inode(m.dev, m.ino)
  {
    hide IsOwed;
    var g := DeleteInode(t, m.dev, m.ino);
    var id := FreshId(g);
    var u := Insert(g, RowOf(m));
    assert u[id] == RowOf(m) && u[id].path == m.path;
    forall k | k in Without(t, owed)
      ensures k in g
    {
      assert NodeOf(t[k]) != Inode(m.dev, m.ino);
    }
  }

  // What a creation about to be told knows of its part.
  lemma ReuseFacts(s: World, who: int, n: Inode) returns (was: Files)
    requires Kept(s) && who in s.sys.tasks && Reuses(s.sys.tasks[who], n)
    ensures var a := s.sys.tasks[who]; var h := Local(s.sys.f, a.foot); var t0 := Without(s.sys.db.files, s.owed);
            && Ready(h, a.foot, Db(t0, s.sys.db.attrs), a.run, was)
            && Begun(h, a.run.call, was) && At(t0, a.foot) == was && Tidy(t0, a.foot)
  {
    InvIsSound(Cleared(s), who);
    var a := s.sys.tasks[who];
    var h := Local(s.sys.f, a.foot);
    hide Tidy, Covers, Inv, Without, Begun;
    was :| Progress(h, a.run, was, At(Without(s.sys.db.files, s.owed), a.foot));
  }

  // A row for a path and an inode of the part, under any number that is free.
  lemma EnterAnywhere(t: Files, foot: Foot, id: nat, r: Row)
    requires Tidy(t, foot) && Covers(foot, r.path) && NodeOf(r) in foot.nodes && id !in t
    ensures var u := t[id := r]; Only(t, u, foot) && Tidy(u, foot) && At(u, foot) == At(t, foot)[id := r]
  {
    hide Covers;
  }

  lemma NobodyThere(s: World, foot: Foot, h: Ideal, p: Path, n: Inode)
    requires Owing(s) && AllStale(s, s.sys.db.files) && Covers(foot, p) && n in foot.nodes
    requires forall w | w in s.owed :: !Covers(foot, s.owed[w].path)
    requires Mirrors(h, At(Without(s.sys.db.files, s.owed), foot)) && p !in h.names && n !in h.meta
    ensures !IsOwed(s.owed, p)
    ensures forall k | k in s.sys.db.files :: s.sys.db.files[k].path != p
    ensures forall k | k in s.sys.db.files && !IsOwed(s.owed, s.sys.db.files[k].path) :: NodeOf(s.sys.db.files[k]) != n
    ensures forall k | k in s.sys.db.files && NodeOf(s.sys.db.files[k]) == n :: s.sys.db.files[k].deleting != 0
  {
    var t := s.sys.db.files;
    var t0 := Without(t, s.owed);
    hide Covers, Mirrors, Stale;
    PartHasNoRow(h, foot, t0, p);
    PartHasNoNode(h, foot, t0, n);
    assert forall k | k in t && !IsOwed(s.owed, t[k].path) :: k in t0 && t0[k] == t[k];
    forall k | k in t && IsOwed(s.owed, t[k].path)
      ensures t[k].deleting != 0
    {
      var w :| w in s.owed && s.owed[w].path == t[k].path;
      StaleIsMarked(s, k, w);
    }
  }

  lemma StaleIsMarked(s: World, k: nat, w: int)
    requires Owing(s) && AllStale(s, s.sys.db.files) && k in s.sys.db.files && w in s.owed
             && s.sys.db.files[k].path == s.owed[w].path
    ensures s.sys.db.files[k].deleting == s.owed[w].client != 0
    ensures NodeOf(s.sys.db.files[k]) == s.owed[w].buf.node && !Named(s.sys.f.names, NodeOf(s.sys.db.files[k]))
  {
    assert Stale(s.sys.f, s.sys.tasks, s.owed[w], s.sys.db.files[k]);
  }

  lemma CreatedSound(f: Ideal, u: Files, a: Task, was: Files, answer: Msg)
    requires a.run.todo == Tell && a.run.call.Create?
    requires Closed(f, a.foot) && Holds(a.foot, a.run.call) && Tidy(u, a.foot)
    requires Begun(Local(f, a.foot), a.run.call, was) && Ended(Local(f, a.foot), a.run.call, At(u, a.foot))
    ensures Sound(f, u, a.(run := Next(a.run, answer)))
  {
    hide Covers, Tidy, Local, At, Begun, Ended;
    assert Progress(Local(f, a.foot), Next(a.run, answer), was, At(u, a.foot));
  }

  // The creation is told: the rows of the removed file go, its own row comes.
  lemma ReusePart(s: World, who: int, n: Inode)
    requires Kept(s) && who in s.sys.tasks && Reuses(s.sys.tasks[who], n)
    ensures var a := s.sys.tasks[who]; var m := MsgFor(a.run); var u := After(s.sys.db, m).files;
            && StillAt(s, u, a.foot)
            && Sound(s.sys.f, Without(u, s.owed), a.(run := Next(a.run, Reply(s.sys.db, m))))
  {
    var a := s.sys.tasks[who];
    var c := a.run.call;
    var h := Local(s.sys.f, a.foot);
    var m := MsgFor(a.run);
    var t := s.sys.db.files;
    var t0 := Without(t, s.owed);
    var was := ReuseFacts(s, who, n);
    assert Closed(s.sys.f, a.foot) && Holds(a.foot, c) by { InvIsSound(Cleared(s), who); }
    CreateFacts(h, a.foot, Db(t0, s.sys.db.attrs), a.run, was);
    assert m.op == c.op;
    hide Inv, Ready, Covers, Mirrors, At, After, Tidy, WellFormed, Reply, IdealAfter, Possible, RowOf, Local,
         Without, IsOwed, Holds, Closed, AllStale, Next, MsgFor, Ended, Sound, Insert;
    NobodyThere(s, a.foot, h, c.path, n);
    ReuseEffect(s.sys.db, m);
    ReuseRow(t, s.owed, m);
    RowFacts(m);
    RowPath(m);
    var id := FreshId(DeleteInode(t, m.dev, m.ino));
    EnterAnywhere(t0, a.foot, id, RowOf(m));
    NoRow(h, was, c.path);
    NewRowEnds(h, c, was, id, RowOf(m));
    CreatedSound(s.sys.f, t0[id := RowOf(m)], a, was, Reply(s.sys.db, m));
  }

  // Any other call has no row of a removed file in its part.
  lemma UnseenByOthers(s: World, who: int)
    requires Kept(s) && who in s.sys.tasks
    requires forall n :: !Reuses(s.sys.tasks[who], n)
    ensures Unseen(s, s.sys.tasks[who].foot)
  {
    var t := s.sys.db.files;
    hide Covers, Inv, Named;
    forall k | k in t && IsOwed(s.owed, t[k].path)
      ensures !CoversRow(s.sys.tasks[who].foot, t[k])
    {
      var w :| w in s.owed && s.owed[w].path == t[k].path;
      assert Stale(s.sys.f, s.sys.tasks, s.owed[w], t[k]);
    }
  }

  lemma RequestHappens(s: World, who: int)
    requires Kept(s) && who in s.sys.tasks && s.sys.tasks[who].run.todo != Finished
    ensures Kept(Happen(s, Step(Go(who))))
  {
    var c := s.sys.tasks[who].run.call;
    hide Kept, Sound, Stale, Covers, StillAt, Happen;
    if c.Create? && Reuses(s.sys.tasks[who], c.buf.node) {
      ReusePart(s, who, c.buf.node);
    } else {
      assert Unseen(s, s.sys.tasks[who].foot) by { UnseenByOthers(s, who); }
      PartGoesOn(s, who);
    }
    GoesOn(s, who);
  }

  // ----- a call that begins or ends -----

  lemma BeginHappens(s: World, who: int, c: Call)
    requires Kept(s) && CanHappen(s, Step(Begin(who, c)))
    ensures Kept(Happen(s, Step(Begin(who, c))))
  {
    var n := Happen(s, Step(Begin(who, c)));
    assert Cleared(n) == Do(Cleared(s), Begin(who, c));
    NewIsStale(s, c);
    hide Inv, Covers, Apart, Possible, FootOf, IsOwed, Started, Without, Stale, Named, Reuses, Owing, AllStale;
    BeginKeepsInv(Cleared(s), who, c);
    OwedPaths(s);
    OwingGoesOn(s, n);
    StaleBegins(s, n, who);
  }

  lemma StaleBegins(s: World, n: World, who: int)
    requires AllStale(s, s.sys.db.files) && n.owed == s.owed && n.sys.f == s.sys.f && n.sys.db == s.sys.db
    requires who in n.sys.tasks && n.sys.tasks == s.sys.tasks[who := n.sys.tasks[who]]
    requires forall w, i | w in s.owed && i == s.owed[w].buf.node && !Named(s.sys.f.names, i)
                           && i in n.sys.tasks[who].foot.nodes :: Reuses(n.sys.tasks[who], i)
    ensures AllStale(n, n.sys.db.files)
  {
    hide Named, Reuses;
    forall k, w | k in n.sys.db.files && w in n.owed && n.sys.db.files[k].path == n.owed[w].path
      ensures Stale(n.sys.f, n.sys.tasks, n.owed[w], n.sys.db.files[k])
    {
      assert Stale(s.sys.f, s.sys.tasks, s.owed[w], s.sys.db.files[k]);
    }
  }

  // Only a creation reaches for a number that is free.
  lemma NewIsStale(s: World, c: Call)
    requires Free(s, c) && Possible(s.sys.f, c)
    ensures forall w, n | w in s.owed && n == s.owed[w].buf.node && !Named(s.sys.f.names, n)
                          && n in FootOf(s.sys.f, c).nodes ::
              Reuses(Task(Started(c), FootOf(s.sys.f, c)), n)
  {
    hide Covers;
    forall n | n in FootOf(s.sys.f, c).nodes && !Named(s.sys.f.names, n)
      ensures n in NewNodes(c)
    {}
  }

  lemma EndHappens(s: World, who: int)
    requires Kept(s) && who in s.sys.tasks && s.sys.tasks[who].run.todo == Finished
    ensures Kept(Happen(s, Step(Go(who))))
  {
    var n := Happen(s, Step(Go(who)));
    var a := s.sys.tasks[who];
    InvIsSound(Cleared(s), who);
    assert WellFormed(s.sys.f);
    assert Cleared(n) == Do(Cleared(s), Go(who));
    hide Inv, Covers, Apart, IdealAfter, IsOwed, WellFormed, Sound, Without, Stale, Named, Reuses, Ended, Local,
      SameOutside, Closed, Owing, AllStale;
    FinishKeepsInv(Cleared(s), who);
    EndedCall(s.sys.f, Without(s.sys.db.files, s.owed), a);
    NewNamesInPart(s.sys.f, n.sys.f, a.foot);
    OwedPaths(s);
    OwingGoesOn(s, n);
    assert forall i :: !Reuses(a, i) by { EndedReusesNothing(a); }
    StaleEnds(s, n, who);
  }

  lemma EndedReusesNothing(a: Task)
    requires a.run.todo == Finished
    ensures forall i :: !Reuses(a, i)
  {}

  lemma StaleEnds(s: World, n: World, who: int)
    requires AllStale(s, s.sys.db.files) && n.owed == s.owed && n.sys.db == s.sys.db
    requires who in s.sys.tasks && n.sys.tasks == s.sys.tasks - {who} && forall i :: !Reuses(s.sys.tasks[who], i)
    requires forall i | i !in s.sys.tasks[who].foot.nodes && Named(n.sys.f.names, i) :: Named(s.sys.f.names, i)
    ensures AllStale(n, n.sys.db.files)
  {
    hide Named, Reuses;
    forall k, w | k in n.sys.db.files && w in n.owed && n.sys.db.files[k].path == n.owed[w].path
      ensures Stale(n.sys.f, n.sys.tasks, n.owed[w], n.sys.db.files[k])
    {
      assert Stale(s.sys.f, s.sys.tasks, s.owed[w], s.sys.db.files[k]);
    }
  }

  lemma NewNamesInPart(f: Ideal, g: Ideal, foot: Foot)
    requires SameOutside(f, g, foot) && Closed(g, foot)
    ensures forall p | p in g.names && !Covers(foot, p) :: p in f.names
    ensures forall n | n !in foot.nodes && Named(g.names, n) :: Named(f.names, n)
  {
    hide Covers;
    forall n | n !in foot.nodes && Named(g.names, n)
      ensures Named(f.names, n)
    {
      var p :| p in g.names && g.names[p] == n;
      assert f.names[p] == n;
    }
  }

  // ----- a real removal and its confirmation -----

  lemma SameFilesInv(a: Sys, b: Sys)
    requires Inv(a) && a.f == b.f && a.db.files == b.db.files && a.tasks == b.tasks
    ensures Inv(b)
  {
    hide Sound, QuietMirrors, WellFormed, Apart;
  }

  lemma ConfirmHappens(s: World, who: int)
    requires Kept(s) && who in s.owed
    ensures Kept(Happen(s, Confirmed(who)))
  {
    var n := Happen(s, Confirmed(who));
    var d := s.owed[who];
    hide Inv, Covers, Without, Stale, DeletePathMarked, After;
    DidEffect(s.sys.db, Confirmation(d));
    ConfirmedFiles(s, who);
    SameFilesInv(Cleared(s), Cleared(n));
    assert Owing(n);
    StaleConfirmed(s, n, who);
  }

  // What is confirmed is what was set aside.
  lemma ConfirmedFiles(s: World, who: int)
    requires Owing(s) && AllStale(s, s.sys.db.files) && who in s.owed
    ensures var u := DeletePathMarked(s.sys.db.files, s.owed[who].path, s.owed[who].client);
            Without(u, s.owed - {who}) == Without(s.sys.db.files, s.owed)
  {
    var t := s.sys.db.files;
    var d := s.owed[who];
    var less := s.owed - {who};
    hide Covers, Stale;
    forall k | k in t
      ensures IsOwed(s.owed, t[k].path) <==> IsOwed(less, t[k].path) || t[k].path == d.path
      ensures t[k].path == d.path ==> t[k].deleting == d.client
    {
      if w :| w in s.owed && s.owed[w].path == t[k].path { assert w == who || w in less; }
      if w :| w in less && less[w].path == t[k].path { assert w in s.owed; }
      if t[k].path == d.path { StaleIsMarked(s, k, who); }
    }
  }

  lemma StaleConfirmed(s: World, n: World, who: int)
    requires AllStale(s, s.sys.db.files) && who in s.owed && n.owed == s.owed - {who}
    requires n.sys.f == s.sys.f && n.sys.tasks == s.sys.tasks
    requires n.sys.db.files == DeletePathMarked(s.sys.db.files, s.owed[who].path, s.owed[who].client)
    ensures AllStale(n, n.sys.db.files)
  {
    hide Stale;
    var u := n.sys.db.files;
    forall k, w | k in u && w in n.owed && u[k].path == n.owed[w].path
      ensures Stale(n.sys.f, n.sys.tasks, n.owed[w], u[k])
    {
      assert k in s.sys.db.files && w in s.owed;
    }
  }

  // The rows at the path, in the part of the call that removes it.
  lemma RemovedRows(f: Ideal, t: Files, a: Task)
    requires Sound(f, t, a) && a.run.call.Remove? && a.run.call.ok && a.run.todo == Confirm
    ensures var c := a.run.call;
            && c.client != 0 && Covers(a.foot, c.path) && c.buf.node in a.foot.nodes
            && c.path in f.names && f.names[c.path] == c.buf.node
            && forall k | k in t && t[k].path == c.path :: t[k].deleting == c.client && NodeOf(t[k]) == c.buf.node
  {
    var c := a.run.call;
    var h := Local(f, a.foot);
    var was := RemovalBegan(f, t, a);
    hide Sound, Covers, At, Mirrors, Local;
    MarkedRows(h, was, c.path, c.client);
    CoveredRows(t, a.foot);
  }

  lemma RemovalBegan(f: Ideal, t: Files, a: Task) returns (was: Files)
    requires Sound(f, t, a) && a.run.call.Remove? && a.run.call.ok && a.run.todo == Confirm
    ensures var c := a.run.call; var h := Local(f, a.foot);
            && c.client != 0 && Covers(a.foot, c.path) && c.buf.node in a.foot.nodes
            && c.path in f.names && f.names[c.path] == c.buf.node
            && c.path in h.names && h.names[c.path] == c.buf.node
            && Mirrors(h, was) && At(t, a.foot) == SetMark(was, c.path, c.client)
  {
    var c := a.run.call;
    var h := Local(f, a.foot);
    hide Covers, Mirrors, WellFormed, At, SetMark, Tidy;
    assert c.path in NamedBy(c);
    was :| Progress(h, a.run, was, At(t, a.foot));
    assert HostStat(h, c.path, c.buf);
  }

  lemma CoveredRows(t: Files, foot: Foot)
    ensures forall k | k in t && Covers(foot, t[k].path) :: k in At(t, foot) && At(t, foot)[k] == t[k]
  {
    hide Covers;
  }

  lemma MarkedRows(h: Ideal, was: Files, p: Path, mark: int)
    requires Mirrors(h, was) && p in h.names
    ensures var part := SetMark(was, p, mark);
            forall k | k in part && part[k].path == p :: part[k].deleting == mark && NodeOf(part[k]) == h.names[p]
  {
    forall k | k in was && was[k].path == p
      ensures NodeOf(was[k]) == h.names[p]
    {
      assert Shows(h, was[k]);
    }
  }

  // The removal seen as one with its confirmation.
  function AtOnce(s: Sys, who: int): Sys
  {
    Do(Do(s, Go(who)), Go(who))
  }

  lemma AtOnceIs(s: Sys, who: int)
    requires who in s.tasks
    requires var r := s.tasks[who].run; r.call.Remove? && r.call.ok && r.todo == Confirm
    ensures var c := s.tasks[who].run.call; var n := AtOnce(s, who);
            && n.f == IdealAfter(s.f, c) && n.tasks == s.tasks - {who}
            && n.db.files == DeletePathMarked(s.db.files, c.path, c.client)
  {
    hide After, Reply, IdealAfter, DeletePathMarked;
    DidEffect(s.db, MsgFor(s.tasks[who].run));
    var one := Do(s, Go(who));
    assert one.tasks == s.tasks[who := one.tasks[who]];
    assert one.tasks - {who} == s.tasks - {who};
  }

  lemma AtOnceKeepsInv(s: Sys, who: int)
    requires Inv(s) && who in s.tasks
    requires var r := s.tasks[who].run; r.call.Remove? && r.call.ok && r.todo == Confirm
    ensures Inv(AtOnce(s, who))
  {
    hide Inv, After, Reply, IdealAfter;
    GoKeepsInv(s, who);
    FinishKeepsInv(Do(s, Go(who)), who);
  }

  // Setting the rows at the path aside is what the confirmation would do to them.
  lemma RemovedFiles(t: Files, owed: map<int, Debt>, who: int, d: Debt)
    requires who !in owed
    requires forall k | k in Without(t, owed) && t[k].path == d.path :: t[k].deleting == d.client
    ensures Without(t, owed[who := d]) == DeletePathMarked(Without(t, owed), d.path, d.client)
  {
    var more := owed[who := d];
    forall p
      ensures IsOwed(more, p) <==> IsOwed(owed, p) || p == d.path
    {
      if w :| w in owed && owed[w].path == p { assert w in more && more[w] == owed[w]; }
      if p == d.path { assert more[who].path == p; }
    }
    hide IsOwed;
  }

  lemma RemovalHappens(s: World, who: int)
    requires Kept(s) && CanHappen(s, Removed(who))
    ensures Kept(Happen(s, Removed(who)))
  {
    var n := Happen(s, Removed(who));
    var a := s.sys.tasks[who];
    var c := a.run.call;
    var t := s.sys.db.files;
    InvIsSound(Cleared(s), who);
    OthersAreApart(Cleared(s), who);
    hide Inv, Covers, Sound, Without, Stale, DeletePathMarked, IdealAfter, IsOwed, Named, Apart;
    RemovedRows(s.sys.f, Without(t, s.owed), a);
    assert forall k | k in Without(t, s.owed) :: t[k] == Without(t, s.owed)[k] by { WithoutIsPart(t, s.owed); }
    RemovedFiles(t, s.owed, who, Debt(c.client, c.path, c.buf));
    AtOnceIs(Cleared(s), who);
    AtOnceKeepsInv(Cleared(s), who);
    SameFilesInv(AtOnce(Cleared(s), who), Cleared(n));
    RemovedNames(s.sys.f, c);
    StillOwing(s, n, who);
    StaleRemoved(s, n, who);
  }

  lemma WithoutIsPart(t: Files, owed: map<int, Debt>)
    ensures forall k | k in Without(t, owed) :: k in t && t[k] == Without(t, owed)[k]
  {}

  lemma OthersAreApart(s: Sys, who: int)
    requires Inv(s) && who in s.tasks
    ensures forall w | w in s.tasks && w != who :: Apart(s.tasks[who].foot, s.tasks[w].foot)
  {
    hide Apart;
  }

  lemma RemovedNames(f: Ideal, c: Call)
    requires c.Remove? && c.ok && c.path in f.names && OnlyName(f, c.path)
    ensures var g := IdealAfter(f, c);
            c.path !in g.names && !Named(g.names, f.names[c.path])
            && (forall p | p in g.names :: p in f.names) && (forall i | Named(g.names, i) :: Named(f.names, i))
  {
    var g := IdealAfter(f, c);
    forall i | Named(g.names, i)
      ensures Named(f.names, i)
    {
      var p :| p in g.names && g.names[p] == i;
      assert f.names[p] == i;
    }
  }

  lemma StillOwing(s: World, n: World, who: int)
    requires Owing(s) && who in s.sys.tasks && who !in s.owed && n.sys.tasks == s.sys.tasks - {who}
    requires var a := s.sys.tasks[who]; var c := a.run.call;
             && c.Remove? && n.owed == s.owed[who := Debt(c.client, c.path, c.buf)] && c.client != 0
             && Covers(a.foot, c.path) && c.path !in n.sys.f.names
             && forall w | w in s.sys.tasks && w != who :: Apart(a.foot, s.sys.tasks[w].foot)
    requires forall p | p in n.sys.f.names :: p in s.sys.f.names
    ensures Owing(n)
  {
    hide Covers;
  }

  lemma StaleRemoved(s: World, n: World, who: int)
    requires AllStale(s, s.sys.db.files) && Owing(s) && who in s.sys.tasks && who !in s.owed
    requires n.sys.tasks == s.sys.tasks - {who} && n.sys.db == s.sys.db
    requires forall i | Named(n.sys.f.names, i) :: Named(s.sys.f.names, i)
    requires var a := s.sys.tasks[who]; var c := a.run.call;
             && c.Remove? && n.owed == s.owed[who := Debt(c.client, c.path, c.buf)]
             && Covers(a.foot, c.path) && c.buf.node in a.foot.nodes && !Named(n.sys.f.names, c.buf.node)
             && (forall w | w in s.sys.tasks && w != who :: Apart(a.foot, s.sys.tasks[w].foot))
             && (forall k | k in Without(s.sys.db.files, s.owed) && s.sys.db.files[k].path == c.path ::
                   s.sys.db.files[k].deleting == c.client && NodeOf(s.sys.db.files[k]) == c.buf.node)
    ensures AllStale(n, n.sys.db.files)
  {
    var t := s.sys.db.files;
    var a := s.sys.tasks[who];
    hide Covers, Named, Reuses;
    forall k, w | k in t && w in n.owed && t[k].path == n.owed[w].path
      ensures Stale(n.sys.f, n.sys.tasks, n.owed[w], t[k])
    {
      if w != who {
        assert Stale(s.sys.f, s.sys.tasks, s.owed[w], t[k]);
      } else {
        assert !IsOwed(s.owed, t[k].path);
        assert k in Without(t, s.owed);
      }
    }
  }

  // ----- whole runs -----

  lemma HappenKeeps(s: World, e: Event)
    requires Kept(s) && CanHappen(s, e)
    ensures Kept(Happen(s, e))
  {
    hide Kept, Inv;
    match e
    case Step(a) =>
      match a {
        case Begin(who, c) => BeginHappens(s, who, c);
        case Go(who) =>
          if who in s.sys.tasks {
            if s.sys.tasks[who].run.todo == Finished { EndHappens(s, who); } else { RequestHappens(s, who); }
          }
      }
    case Removed(who) => RemovalHappens(s, who);
    case Confirmed(who) => if who in s.owed { ConfirmHappens(s, who); }
  }

  function HappenAll(s: World, events: seq<Event>): World
  {
    if events == [] then s else Happen(HappenAll(s, events[..|events| - 1]), events[|events| - 1])
  }

  ghost predicate AllCanHappen(s: World, events: seq<Event>)
  {
    forall i | 0 <= i < |events| :: CanHappen(HappenAll(s, events[..i]), events[i])
  }

  lemma {:induction false} HappenAllKeeps(s: World, events: seq<Event>)
    requires Kept(s) && AllCanHappen(s, events)
    ensures Kept(HappenAll(s, events))
  {
    hide Kept, Happen, CanHappen;
    if events != [] {
      var n := |events| - 1;
      assert forall i | 0 <= i < n :: events[..n][..i] == events[..i];
      HappenAllKeeps(s, events[..n]);
      HappenKeeps(HappenAll(s, events[..n]), events[n]);
    }
  }

  // The ideal is that of the calls done, one after the other.
  lemma {:induction false} HappenAllIsSerial(s: World, f: Ideal, events: seq<Event>)
    requires s.sys.f == IdealRun(f, s.sys.done)
    ensures var n := HappenAll(s, events).sys; n.f == IdealRun(f, n.done)
  {
    hide Happen, IdealRun;
    if events != [] {
      HappenAllIsSerial(s, f, events[..|events| - 1]);
      HappenIsSerial(HappenAll(s, events[..|events| - 1]), f, events[|events| - 1]);
    }
  }

  lemma HappenIsSerial(s: World, f: Ideal, e: Event)
    requires s.sys.f == IdealRun(f, s.sys.done)
    ensures var n := Happen(s, e).sys; n.f == IdealRun(f, n.done)
  {
    hide IdealAfter, After, Reply, Next, MsgFor, FootOf, IdealRun;
    var was := s.sys;
    forall c: Call
      ensures IdealRun(f, was.done + [c]) == IdealAfter(was.f, c)
    {
      IdealRunSnoc(f, was.done, c);
    }
  }

  lemma IdealRunSnoc(f: Ideal, calls: seq<Call>, c: Call)
    ensures IdealRun(f, calls + [c]) == IdealAfter(IdealRun(f, calls), c)
  {
    hide IdealAfter;
    assert (calls + [c])[..|calls|] == calls;
  }

  function Quietly(f: Ideal, db: Db): World { World(Sys(f, db, map[], []), map[]) }

  lemma StartsKept(f: Ideal, db: Db)
    requires Refines(f, db)
    ensures Kept(Quietly(f, db))
  {
    hide WellFormed;
    var s := Quietly(f, db);
    assert Without(db.files, s.owed) == db.files;
  }

  lemma NobodyAtWork(s: World)
    requires Kept(s) && s.sys.tasks == map[] && s.owed == map[]
    ensures Refines(s.sys.f, s.sys.db)
  {
    hide WellFormed;
    assert Without(s.sys.db.files, s.owed) == s.sys.db.files;
    assert forall r: Row :: QuietRow(s.sys.tasks, r) && Quiet(s.sys.tasks, r.path);
    forall p | p in s.sys.f.names && s.sys.f.names[p] in s.sys.f.meta
      ensures HasPath(s.sys.db.files, p)
    {
      assert Quiet(s.sys.tasks, p);
    }
  }

  // Several clients, each call on its own part, all requests interleaved in any order, and inode
  // numbers used again as soon as the host has freed them: whenever no call is under way and no
  // confirmation is due, the table shows the ideal that the same calls leave one after the other,
  // in the order they took effect.
  lemma ConcurrentRefines(f: Ideal, db: Db, events: seq<Event>)
    requires Refines(f, db) && AllCanHappen(Quietly(f, db), events)
    ensures var s := HappenAll(Quietly(f, db), events);
            && s.sys.f == IdealRun(f, s.sys.done)
            && (s.sys.tasks == map[] && s.owed == map[] ==> Refines(s.sys.f, s.sys.db))
  {
    hide Refines, Kept, AllCanHappen, HappenAll;
    StartsKept(f, db);
    HappenAllKeeps(Quietly(f, db), events);
    HappenAllIsSerial(Quietly(f, db), f, events);
    var s := HappenAll(Quietly(f, db), events);
    if s.sys.tasks == map[] && s.owed == map[] { NobodyAtWork(s); }
  }

  // And at any moment, calls under way or not, a stat of a path nobody is working on shows
  // root's view of a tracked file and leaves an untracked one to the host.
  lemma StatAnytime(f: Ideal, db: Db, events: seq<Event>, client: int, path: Path, buf: StatBuf)
    requires Refines(f, db) && AllCanHappen(Quietly(f, db), events)
    requires var s := HappenAll(Quietly(f, db), events).sys; HostStat(s.f, path, buf) && Quiet(s.tasks, path)
    ensures var s := HappenAll(Quietly(f, db), events).sys;
            var m := Request(STAT, client, path, Some(buf), "");
            && After(s.db, m) == s.db
            && (Succeeds(s.db, m) <==> buf.node in s.f.meta)
            && (buf.node in s.f.meta ==> HostMeta(StatFrom(buf, Reply(s.db, m))) == s.f.meta[buf.node])
  {
    hide Refines, AllCanHappen, HappenAll, After, Succeeds, Reply, Kept, HostStat, Quiet;
    StartsKept(f, db);
    HappenAllKeeps(Quietly(f, db), events);
    StatQuietly(HappenAll(Quietly(f, db), events), client, path, buf);
  }

  lemma StatQuietly(s: World, client: int, path: Path, buf: StatBuf)
    requires Kept(s) && HostStat(s.sys.f, path, buf) && Quiet(s.sys.tasks, path)
    ensures var m := Request(STAT, client, path, Some(buf), "");
            && After(s.sys.db, m) == s.sys.db
            && (Succeeds(s.sys.db, m) <==> buf.node in s.sys.f.meta)
            && (buf.node in s.sys.f.meta ==> HostMeta(StatFrom(buf, Reply(s.sys.db, m))) == s.sys.f.meta[buf.node])
  {
    var m := Request(STAT, client, path, Some(buf), "");
    hide After, Succeeds, Reply, Kept, Quiet, Around, WellFormed;
    QuietIsAround(s, m);
    StatEffect(s.sys.f, s.sys.db, m);
  }

  lemma QuietIsAround(s: World, m: Msg)
    requires Kept(s) && Quiet(s.sys.tasks, m.path)
    requires m.path in s.sys.f.names && s.sys.f.names[m.path] == Inode(m.dev, m.ino)
    ensures Around(s.sys.f, s.sys.db.files, m) && WellFormed(s.sys.f)
  {
    var t := s.sys.db.files;
    assert WellFormed(s.sys.f);
    QuietAround(Cleared(s), m);
    hide Inv, Stale, WellFormed, Around, Without, IsOwed, AllStale, Owing;
    StaleIsElsewhere(s, m);
    AroundWithout(s.sys.f, t, s.owed, m);
  }

  lemma StaleIsElsewhere(s: World, m: Msg)
    requires Owing(s) && AllStale(s, s.sys.db.files)
    requires m.path in s.sys.f.names && s.sys.f.names[m.path] == Inode(m.dev, m.ino)
    ensures forall k | k in s.sys.db.files && IsOwed(s.owed, s.sys.db.files[k].path) ::
              s.sys.db.files[k].path != m.path && NodeOf(s.sys.db.files[k]) != Inode(m.dev, m.ino)
  {
    var t := s.sys.db.files;
    OwedPaths(s);
    hide Owing, AllStale, Stale;
    forall k | k in t && IsOwed(s.owed, t[k].path)
      ensures t[k].path != m.path && NodeOf(t[k]) != Inode(m.dev, m.ino)
    {
      var w :| w in s.owed && s.owed[w].path == t[k].path;
      StaleIsMarked(s, k, w);
    }
  }

  lemma AroundWithout(f: Ideal, t: Files, owed: map<int, Debt>, m: Msg)
    requires Around(f, Without(t, owed), m)
    requires forall k | k in t && IsOwed(owed, t[k].path) :: t[k].path != m.path && NodeOf(t[k]) != Inode(m.dev, m.ino)
    ensures Around(f, t, m)
  {
    hide Shows, IsOwed;
    forall k | k in t && (t[k].path == m.path || NodeOf(t[k]) == Inode(m.dev, m.ino))
      ensures Shows(f, t[k])
    {
      assert k in Without(t, owed);
    }
    if m.path in f.names && f.names[m.path] in f.meta {
      var k :| k in Without(t, owed) && Without(t, owed)[k].path == m.path;
      assert k in t && t[k].path == m.path;
    }
  }

  // A symbolic link keeps the marked row of the file that had its number, and a hard link made
  // before that is confirmed takes the old file's owner.
  lemma SymlinkKeepsStaleRow()
    ensures var stale := Row("/a", 1, 10, 5, 5, Mode(S_IFLNK, 511), 0, 7);
            var made := Msg(SYMLINK, 8, NONE, 1, 10, 0, 0, Mode(S_IFLNK, 511), 0, 1, 0, true, "/b", "");
            var linked := made.(op := LINK, nlink := 2, path := "/c");
            var told := made.(op := DID_UNLINK, client := 7, path := "/a");
            !Coherent(Run(Db(map[1 := stale], map[]), [made, linked, told]).files)
  {
    var stale := Row("/a", 1, 10, 5, 5, Mode(S_IFLNK, 511), 0, 7);
    var made := Msg(SYMLINK, 8, NONE, 1, 10, 0, 0, Mode(S_IFLNK, 511), 0, 1, 0, true, "/b", "");
    var linked := made.(op := LINK, nlink := 2, path := "/c");
    var told := made.(op := DID_UNLINK, client := 7, path := "/a");
    hide Run, Process, Coherent;
    StaleStays(Db(map[1 := stale], map[]), made, linked, told, stale);
  }

  lemma StaleStays(d: Db, made: Msg, linked: Msg, told: Msg, stale: Row)
    requires d.files == map[1 := stale] && made.op == SYMLINK && linked.op == LINK && told.op == DID_UNLINK
    requires made.named && linked.named && told.path == stale.path && told.client == stale.deleting != 0
    requires made.path != stale.path && linked.path != stale.path && linked.path != made.path
    requires made.dev == linked.dev == stale.dev != 0 && made.ino == linked.ino == stale.ino != 0
    requires made.mode == linked.mode == stale.mode && made.uid != stale.uid
    ensures !Coherent(Run(d, [made, linked, told]).files)
  {
    var e := Process(d, made).db;
    var f := Process(e, linked).db;
    StaleSymlink(d, made, stale);
    var a, b := RowOf(made), stale.(path := linked.path, deleting := 0);
    assert a.path == made.path && a.deleting == 0 && SameInode(a, b) && !SameMeta(a, b);
    hide Run, Process, Coherent, RowOf, DeletePathMarked, SameInode, SameMeta;
    BesideStale(d.files, stale, a);
    StaleLink(e, linked, stale);
    ThreeRequests(d, made, linked, told);
    DidEffect(f, told);
    Mixed(d.files, a, b, stale.path, stale.deleting);
  }

  lemma BesideStale(t: Files, stale: Row, a: Row)
    requires t == map[1 := stale]
    ensures var e := Insert(t, a);
            1 in e && e[1] == stale && forall k | k in e :: k >= 1 && (e[k] == stale || e[k] == a)
  {
    assert t[1] == stale;
  }

  lemma Mixed(t: Files, a: Row, b: Row, p: Path, mark: int)
    requires SameInode(a, b) && !SameMeta(a, b) && a.path != p && b.path != p
    ensures !Coherent(DeletePathMarked(Insert(Insert(t, a), b), p, mark))
  {
    hide SameMeta;
    var e := Insert(t, a);
    var i, j := FreshId(t), FreshId(e);
    var u := DeletePathMarked(Insert(e, b), p, mark);
    assert i in u && j in u && u[i] == a && u[j] == b;
    assert SameInode(u[i], u[j]);
  }

  lemma ThreeRequests(d: Db, a: Msg, b: Msg, c: Msg)
    ensures Run(d, [a, b, c]) == Process(Process(Process(d, a).db, b).db, c).db
  {
    hide Process;
    assert [a, b, c][..2] == [a, b] && [a, b][..1] == [a] && [a][..0] == [];
    assert Run(d, [a]) == Process(d, a).db;
    assert Run(d, [a, b]) == Process(Run(d, [a]), b).db;
  }

  lemma StaleSymlink(d: Db, m: Msg, stale: Row)
    requires d.files == map[1 := stale] && m.op == SYMLINK && m.named && m.path != stale.path
    requires m.dev == stale.dev != 0 && m.ino == stale.ino != 0 && SameKind(m.mode, stale.mode) && stale.deleting != 0
    ensures Process(d, m).db.files == Insert(d.files, RowOf(m))
  {
    assert ByPathAndInode(d.files, m.path, m.dev, m.ino).None? && ByPath(d.files, m.path).None?;
    assert d.files[1] == stale;
    assert ByInode(d.files, m.dev, m.ino) == Some(1);
  }

  lemma StaleLink(d: Db, m: Msg, stale: Row)
    requires 1 in d.files && d.files[1] == stale && forall k | k in d.files :: k >= 1 && d.files[k].path != m.path
    requires m.op == LINK && m.named
    requires m.dev == stale.dev != 0 && m.ino == stale.ino != 0 && SameKind(m.mode, stale.mode)
    ensures Process(d, m).db.files == Insert(d.files, stale.(path := m.path, deleting := 0))
  {
    assert ByPathAndInode(d.files, m.path, m.dev, m.ino).None? && ByPath(d.files, m.path).None?;
    assert ByInode(d.files, m.dev, m.ino) == Some(1);
  }
}
