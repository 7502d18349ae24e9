// Several clients at once.  Each works on its own part of the file system; their requests reach
// the server in any order, and where nobody is at work the table is on the ideal.

module Concurrent {
  import opened PathText
  import opened FileTable
  import opened ServerOp
  import opened WrapperScripts
  import opened UnlinkProtocol
  import opened VirtualRoot
  import opened VirtualRename
  import opened Footprints
  import opened LocalIdeals
  import opened CallSteps
  import opened CallProgress

  datatype Task = Task(run: Running, foot: Foot)

  // The ideal with the finished calls, in the order they finished, and the calls under way.
  datatype Sys = Sys(f: Ideal, db: Db, tasks: map<int, Task>, done: seq<Call>)

  // A client begins a call, or its call goes one request further and finally ends.
  datatype Act = Begin(who: int, call: Call) | Go(who: int)

  function Do(s: Sys, a: Act): Sys
  {
    match a
    case Begin(who, call) =>
      if who in s.tasks then s else s.(tasks := s.tasks[who := Task(Started(call), FootOf(s.f, call))])
    case Go(who) =>
      if who !in s.tasks then s
      else
        var r := s.tasks[who].run;
        if r.todo == Finished then Sys(IdealAfter(s.f, r.call), s.db, s.tasks - {who}, s.done + [r.call])
        else
          var m := MsgFor(r);
          s.(db := After(s.db, m), tasks := s.tasks[who := s.tasks[who].(run := Next(r, Reply(s.db, m)))])
  }

  // A call begins on what is possible on the host, and apart from the calls under way.
  ghost predicate Allowed(s: Sys, a: Act)
  {
    a.Begin? ==>
      a.who !in s.tasks && Possible(s.f, a.call)
      && forall w | w in s.tasks :: Apart(s.tasks[w].foot, FootOf(s.f, a.call))
  }

  predicate Quiet(tasks: map<int, Task>, p: Path)
  {
    forall w | w in tasks :: !Covers(tasks[w].foot, p)
  }

  predicate QuietRow(tasks: map<int, Task>, r: Row)
  {
    forall w | w in tasks :: !CoversRow(tasks[w].foot, r)
  }

  // Where nobody is at work, the table shows the ideal.
  ghost predicate QuietMirrors(f: Ideal, t: Files, tasks: map<int, Task>)
  {
    && (forall k | k in t && QuietRow(tasks, t[k]) :: Shows(f, t[k]) && t[k].deleting == 0)
    && (forall i, j | i in t && j in t && QuietRow(tasks, t[i]) && QuietRow(tasks, t[j]) && t[i].path
       == t[j].path :: i == j)
    && (forall p | p in f.names && f.names[p] in f.meta && Quiet(tasks, p) :: HasPath(t, p))
  }

  ghost predicate Sound(f: Ideal, t: Files, a: Task)
  {
    && Closed(f, a.foot) && Holds(a.foot, a.run.call) && Tidy(t, a.foot)
    && exists was :: Progress(Local(f, a.foot), a.run, was, At(t, a.foot))
  }

  ghost predicate Inv(s: Sys)
  {
    && WellFormed(s.f)
    && (forall w | w in s.tasks :: Sound(s.f, s.db.files, s.tasks[w]))
    && (forall v, w | v in s.tasks && w in s.tasks && v != w :: Apart(s.tasks[v].foot, s.tasks[w].foot))
    && QuietMirrors(s.f, s.db.files, s.tasks)
  }

  // ----- one more request -----

  lemma GoKeepsInv(s: Sys, who: int)
    requires Inv(s) && who in s.tasks && s.tasks[who].run.todo != Finished
    ensures Inv(Do(s, Go(who)))
  {
    hide Sound, After, Reply, MsgFor, Next, WellFormed, Tidy, Only, Apart, QuietMirrors;
    TaskAdvances(s, s.tasks[who]);
    PartKeepsInv(s, who, Do(s, Go(who)));
  }

  // A task has gone further, and its part of the table with it.
  lemma PartKeepsInv(s: Sys, who: int, n: Sys)
    requires Inv(s) && who in s.tasks && n.f == s.f
    requires n.tasks.Keys == s.tasks.Keys && n.tasks[who].foot == s.tasks[who].foot
    requires forall w | w in s.tasks && w != who :: n.tasks[w] == s.tasks[w]
    requires var a := n.tasks[who];
             Only(s.db.files, n.db.files, a.foot) && Tidy(n.db.files, a.foot) && Sound(n.f, n.db.files, a)
    ensures Inv(n)
  {
    hide Sound, WellFormed, Tidy, Only, Apart, QuietMirrors;
    SoundIsTidy(s.f, s.db.files, s.tasks[who]);
    OthersAreSound(s, who, n.db.files);
    QuietStays(s, who, n);
  }

  lemma OthersAreSound(s: Sys, who: int, u: Files)
    requires Inv(s) && who in s.tasks
    requires var foot := s.tasks[who].foot;
             Only(s.db.files, u, foot) && Tidy(s.db.files, foot) && Tidy(u, foot)
    ensures forall w | w in s.tasks && w != who :: Sound(s.f, u, s.tasks[w])
  {
    hide Sound, WellFormed, Tidy, Only, Apart, QuietMirrors;
    forall w | w in s.tasks && w != who
      ensures Sound(s.f, u, s.tasks[w])
    {
      OtherIsSound(s.f, s.db.files, u, s.tasks[who].foot, s.tasks[w]);
    }
  }

  lemma SoundIsTidy(f: Ideal, t: Files, a: Task)
    requires Sound(f, t, a)
    ensures Tidy(t, a.foot) && Closed(f, a.foot)
  {}

  lemma TaskAdvances(s: Sys, a: Task)
    requires Sound(s.f, s.db.files, a) && a.run.todo != Finished
    ensures var m := MsgFor(a.run); var u := After(s.db, m).files;
            && Only(s.db.files, u, a.foot) && Tidy(u, a.foot)
            && Sound(s.f, u, a.(run := Next(a.run, Reply(s.db, m))))
  {
    var h := Local(s.f, a.foot);
    hide Progress, After, Reply, MsgFor, Tidy, Only, Covers;
    var was :| Progress(h, a.run, was, At(s.db.files, a.foot));
    assert Ready(h, a.foot, s.db, a.run, was);
    StepAdvances(h, a.foot, s.db, a.run, was);
  }

  lemma OtherIsSound(f: Ideal, t: Files, u: Files, mine: Foot, b: Task)
    requires Sound(f, t, b) && Only(t, u, mine) && Tidy(t, mine) && Tidy(u, mine) && Apart(mine, b.foot)
    ensures Sound(f, u, b)
  {
    hide Progress, Tidy, Only, Covers, At, Apart;
    OtherPartStays(t, u, mine, b.foot);
  }

  lemma QuietStays(s: Sys, who: int, n: Sys)
    requires who in s.tasks && QuietMirrors(s.f, s.db.files, s.tasks) && n.f == s.f
    requires n.tasks.Keys == s.tasks.Keys && forall w | w in s.tasks :: n.tasks[w].foot == s.tasks[w].foot
    requires var foot := s.tasks[who].foot;
             Only(s.db.files, n.db.files, foot) && Tidy(s.db.files, foot)
    ensures QuietMirrors(n.f, n.db.files, n.tasks)
  {
    var foot := s.tasks[who].foot;
    var t, u := s.db.files, n.db.files;
    hide Covers, Shows;
    forall k | k in u && QuietRow(n.tasks, u[k])
      ensures k in t && u[k] == t[k] && QuietRow(s.tasks, t[k])
    {
      assert !CoversRow(foot, u[k]);
    }
    forall p | p in n.f.names && n.f.names[p] in n.f.meta && Quiet(n.tasks, p)
      ensures HasPath(u, p)
    {
      assert Quiet(s.tasks, p);
      var k :| k in t && t[k].path == p;
      assert !Covers(foot, p) && !CoversRow(foot, t[k]);
      assert u[k].path == p;
    }
  }

  // ----- a call that ends -----

  lemma EndedCall(f: Ideal, t: Files, a: Task)
    requires WellFormed(f) && Sound(f, t, a) && a.run.todo == Finished
    ensures var g := IdealAfter(f, a.run.call);
            && ActsOnIdeal(f, a.run.call, a.foot) && Ended(Local(f, a.foot), a.run.call, At(t, a.foot))
            && WellFormed(g) && Tidy(t, a.foot)
  {
    var h := Local(f, a.foot);
    var c := a.run.call;
    hide WellFormed, Tidy, Covers, Closed, Local, At, IdealAfter, SameOutside, Holds, Mirrors;
    var was :| Progress(h, a.run, was, At(t, a.foot));
    CallActs(f, c, a.foot);
    JoinWellFormed(f, IdealAfter(f, c), a.foot);
  }

  lemma FinishKeepsInv(s: Sys, who: int)
    requires Inv(s) && who in s.tasks && s.tasks[who].run.todo == Finished
    ensures Inv(Do(s, Go(who)))
  {
    var a := s.tasks[who];
    var n := Do(s, Go(who));
    var t := s.db.files;
    EndedCall(s.f, t, a);
    hide WellFormed, Sound, Ended, Apart, IdealAfter, QuietMirrors, SameOutside, Closed, Local, At;
    forall w | w in n.tasks
      ensures Sound(n.f, t, n.tasks[w])
    {
      OtherSeesNothing(s.f, n.f, t, a.foot, s.tasks[w]);
    }
    QuietGrows(s.f, n.f, t, s.tasks, who);
  }

  lemma OtherSeesNothing(f: Ideal, g: Ideal, t: Files, mine: Foot, b: Task)
    requires Sound(f, t, b) && SameOutside(f, g, mine) && Closed(g, mine) && Apart(mine, b.foot)
    ensures Sound(g, t, b)
  {
    hide Progress, SameOutside, Apart, Local, At;
    LocalStays(f, g, mine, b.foot);
  }

  // The rows of the part, as the new ideal shows them.
  lemma PartShows(g: Ideal, foot: Foot, t: Files)
    requires Mirrors(Local(g, foot), At(t, foot)) && Closed(g, foot)
    ensures forall k | k in t && CoversRow(foot, t[k]) :: Shows(g, t[k])
    ensures forall i, j | i in t && j in t && CoversRow(foot, t[i]) && CoversRow(foot, t[j]) && t[i].path
            == t[j].path :: i == j
    ensures forall p | p in g.names && g.names[p] in g.meta && Covers(foot, p) :: HasPath(t, p)
  {
    hide Covers;
    var h, part := Local(g, foot), At(t, foot);
    forall k | k in t && CoversRow(foot, t[k])
      ensures Shows(g, t[k])
    {
      assert k in part && Shows(h, part[k]);
    }
    assert forall k | k in t && CoversRow(foot, t[k]) :: k in part && part[k] == t[k];
    forall p | p in g.names && g.names[p] in g.meta && Covers(foot, p)
      ensures HasPath(t, p)
    {
      assert h.names[p] == g.names[p] && HasPath(part, p);
      var k :| k in part && part[k].path == p;
      assert t[k].path == p;
    }
  }

  lemma QuietGrows(f: Ideal, g: Ideal, t: Files, tasks: map<int, Task>, who: int)
    requires who in tasks && QuietMirrors(f, t, tasks)
    requires var a := tasks[who];
             && g == IdealAfter(f, a.run.call) && ActsOnIdeal(f, a.run.call, a.foot) && Tidy(t, a.foot)
             && Ended(Local(f, a.foot), a.run.call, At(t, a.foot))
    ensures QuietMirrors(g, t, tasks - {who})
  {
    var foot := tasks[who].foot;
    var less := tasks - {who};
    assert Mirrors(Local(g, foot), At(t, foot)) && SameOutside(f, g, foot) && NoMarks(At(t, foot));
    PartShows(g, foot, t);
    hide ActsOnIdeal, Ended, IdealAfter, Mirrors;
    forall k | k in t && QuietRow(less, t[k])
      ensures Shows(g, t[k]) && t[k].deleting == 0
      ensures CoversRow(foot, t[k]) || QuietRow(tasks, t[k])
    {
      if CoversRow(foot, t[k]) {
        assert At(t, foot)[k] == t[k];
      } else {
        QuietOrMine(tasks, who, t[k]);
        assert Shows(f, t[k]) && !Covers(foot, t[k].path) && NodeOf(t[k]) !in foot.nodes;
      }
    }
    hide Shows, At, NoMarks, NodeOf;
    forall i, j | i in t && j in t && QuietRow(less, t[i]) && QuietRow(less, t[j]) && t[i].path == t[j].path
      ensures i == j
    {
      assert CoversRow(foot, t[i]) <==> CoversRow(foot, t[j]);
    }
    hide Covers;
    forall p | p in g.names && g.names[p] in g.meta && Quiet(less, p)
      ensures HasPath(t, p)
    {
      if !Covers(foot, p) {
        QuietPathOrMine(tasks, who, p);
        assert p in f.names && f.names[p] == g.names[p];
        OutsideNode(f, g, foot, p);
      }
    }
  }

  lemma OutsideNode(f: Ideal, g: Ideal, foot: Foot, p: Path)
    requires SameOutside(f, g, foot) && Closed(g, foot) && p in g.names && !Covers(foot, p) && g.names[p] in g.meta
    ensures p in f.names && f.names[p] in f.meta
  {
    hide Covers;
  }

  lemma QuietOrMine(tasks: map<int, Task>, who: int, r: Row)
    requires who in tasks && QuietRow(tasks - {who}, r) && !CoversRow(tasks[who].foot, r)
    ensures QuietRow(tasks, r)
  {
    hide CoversRow;
    assert forall w | w in tasks && w != who :: w in tasks - {who};
  }

  lemma QuietPathOrMine(tasks: map<int, Task>, who: int, p: Path)
    requires who in tasks && Quiet(tasks - {who}, p) && !Covers(tasks[who].foot, p)
    ensures Quiet(tasks, p)
  {
    hide Covers;
    assert forall w | w in tasks && w != who :: w in tasks - {who};
  }

  // ----- a call that begins -----

  // The rows of a new part are quiet: nobody else is at work there.
  lemma NewPartIsQuiet(s: Sys, foot: Foot)
    requires Inv(s) && Closed(s.f, foot) && forall w | w in s.tasks :: Apart(s.tasks[w].foot, foot)
    ensures Tidy(s.db.files, foot)
    ensures forall k | k in s.db.files && CoversRow(foot, s.db.files[k]) :: QuietRow(s.tasks, s.db.files[k])
    ensures forall p | Covers(foot, p) :: Quiet(s.tasks, p)
  {
    var t := s.db.files;
    forall k | k in t
      ensures Covers(foot, t[k].path) <==> NodeOf(t[k]) in foot.nodes
      ensures CoversRow(foot, t[k]) ==> QuietRow(s.tasks, t[k])
    {
      if QuietRow(s.tasks, t[k]) {
        assert Shows(s.f, t[k]);
      } else {
        var w :| w in s.tasks && CoversRow(s.tasks[w].foot, t[k]);
        assert Sound(s.f, t, s.tasks[w]) && Apart(s.tasks[w].foot, foot);
        SoundIsTidy(s.f, t, s.tasks[w]);
        assert Covers(s.tasks[w].foot, t[k].path) && NodeOf(t[k]) in s.tasks[w].foot.nodes;
      }
    }
    hide Inv;
  }

  lemma NewPartMirrors(s: Sys, foot: Foot)
    requires QuietMirrors(s.f, s.db.files, s.tasks) && Closed(s.f, foot)
    requires forall k | k in s.db.files && CoversRow(foot, s.db.files[k]) :: QuietRow(s.tasks, s.db.files[k])
    requires forall p | Covers(foot, p) :: Quiet(s.tasks, p)
    ensures Mirrors(Local(s.f, foot), At(s.db.files, foot)) && NoMarks(At(s.db.files, foot))
  {
    var t := s.db.files;
    var part := At(t, foot);
    var h := Local(s.f, foot);
    hide Covers, Quiet, QuietRow;
    forall k | k in part
      ensures Shows(h, part[k]) && part[k].deleting == 0
    {
      assert Shows(s.f, t[k]);
      assert Covers(foot, t[k].path) <==> NodeOf(t[k]) in foot.nodes;
    }
    forall p | p in h.names && h.names[p] in h.meta
      ensures HasPath(part, p)
    {
      assert HasPath(t, p);
      var k :| k in t && t[k].path == p;
      assert CoversRow(foot, t[k]) && part[k].path == p;
    }
  }

  lemma NewTaskIsSound(s: Sys, c: Call)
    requires Inv(s) && Possible(s.f, c) && forall w | w in s.tasks :: Apart(s.tasks[w].foot, FootOf(s.f, c))
    ensures Sound(s.f, s.db.files, Task(Started(c), FootOf(s.f, c)))
  {
    var foot := FootOf(s.f, c);
    var t := s.db.files;
    FootIsClosed(s.f, c);
    FootHolds(s.f, c);
    hide FootOf;
    NewPartIsQuiet(s, foot);
    NewPartMirrors(s, foot);
    LocalWellFormed(s.f, foot);
    LocalPossible(s.f, foot, c);
    hide Inv, Mirrors, WellFormed, Possible, Local, At, Holds, Closed, Tidy, Progress, QuietRow, Quiet;
    assert Begun(Local(s.f, foot), c, At(t, foot));
    StartProgress(Local(s.f, foot), c, At(t, foot));
  }

  lemma BeginKeepsInv(s: Sys, who: int, c: Call)
    requires Inv(s) && Allowed(s, Begin(who, c))
    ensures Inv(Do(s, Begin(who, c)))
  {
    hide Sound, Started, FootOf, Apart, QuietMirrors, WellFormed, Possible;
    NewTaskIsSound(s, c);
    LessIsQuiet(s, Do(s, Begin(who, c)), who);
    ApartBothWays(s, FootOf(s.f, c));
  }

  lemma ApartBothWays(s: Sys, foot: Foot)
    requires forall w | w in s.tasks :: Apart(s.tasks[w].foot, foot)
    ensures forall w | w in s.tasks :: Apart(foot, s.tasks[w].foot)
  {
    hide Covers;
  }

  lemma LessIsQuiet(s: Sys, n: Sys, who: int)
    requires QuietMirrors(s.f, s.db.files, s.tasks) && who !in s.tasks && who in n.tasks
    requires n.f == s.f && n.db == s.db && n.tasks == s.tasks[who := n.tasks[who]]
    ensures QuietMirrors(n.f, n.db.files, n.tasks)
  {
    hide Covers, CoversRow, Shows;
    assert forall w | w in s.tasks :: w in n.tasks && n.tasks[w] == s.tasks[w];
    forall r: Row
      ensures QuietRow(n.tasks, r) ==> QuietRow(s.tasks, r)
      ensures Quiet(n.tasks, r.path) ==> Quiet(s.tasks, r.path)
    {}
  }

  // ----- every act -----

  lemma DoKeepsInv(s: Sys, a: Act)
    requires Inv(s) && Allowed(s, a)
    ensures Inv(Do(s, a))
  {
    hide Inv;
    match a
    case Begin(who, c) => BeginKeepsInv(s, who, c);
    case Go(who) =>
      if who in s.tasks {
        if s.tasks[who].run.todo == Finished { FinishKeepsInv(s, who); } else { GoKeepsInv(s, who); }
      }
  }

  lemma QuietAround(s: Sys, m: Msg)
    requires Inv(s) && m.path in s.f.names && s.f.names[m.path] == Inode(m.dev, m.ino) && Quiet(s.tasks, m.path)
    ensures Around(s.f, s.db.files, m)
  {
    var t := s.db.files;
    var n := Inode(m.dev, m.ino);
    hide Covers, Shows;
    forall k | k in t && (t[k].path == m.path || NodeOf(t[k]) == n)
      ensures QuietRow(s.tasks, t[k])
    {
      forall w | w in s.tasks
        ensures !CoversRow(s.tasks[w].foot, t[k])
      {
        assert Sound(s.f, t, s.tasks[w]);
        SoundIsTidy(s.f, t, s.tasks[w]);
        assert !Covers(s.tasks[w].foot, m.path) && n !in s.tasks[w].foot.nodes;
      }
    }
  }
}
