// A wrapped call as the server sees it: one request at a time, each depending on the answers so
// far.  Requests of other clients may come in between.

module CallSteps {
  import opened PathText
  import opened FileTable
  import opened ServerOp
  import opened WrapperScripts
  import opened VirtualRoot

  // The request a call sends next.
  datatype Todo =
    | MarkNew | MarkOld | AskOld    // before the real call
    | Tell                          // the one request of create, chmod, chown and link
    | Confirm                       // a removal, confirmed or taken back
    | DropNew | EnterOld | MoveOld  // a rename that succeeded
    | FreeNew | FreeOld             // a rename that failed
    | Finished

  datatype Course = Running(call: Call, todo: Todo, mayNew: bool, mayOld: bool, known: bool, seen: Option<StatBuf>)

  predicate Apt(c: Call, todo: Todo)
  {
    match todo
    case MarkNew => c.Rename?
    case MarkOld => c.Remove? || c.Rename?
    case AskOld => c.Chown? || c.HardLink? || c.Rename?
    case Tell => c.Create? || c.Chmod? || c.Chown? || c.HardLink?
    case Confirm => c.Remove?
    case DropNew => c.Rename?
    case EnterOld => c.Rename? && c.srcBuf.Some?
    case MoveOld => c.Rename? && c.srcBuf.Some?
    case FreeNew => c.Rename?
    case FreeOld => c.Rename?
    case Finished => true
  }

  // A request the call can send, and an answer is waited for only with a buffer to put it in.
  predicate AptRunning(r: Course)
  {
    && Apt(r.call, r.todo)
    && ((r.call.Chown? || r.call.HardLink?) && r.todo == Tell ==> r.seen.Some?)
    && (r.call.Rename? && r.call.ok && r.todo != Finished ==> r.call.srcBuf.Some?)
  }

  const IDLE: Call := Create(CREAT, 0, "", Mode(0, 0), StatBuf(Inode(0, 0), 0, 0, Mode(0, 0), 0, 0), 0, 0)

  type Running = r: Course | AptRunning(r) witness Running(IDLE, Finished, false, false, false, None)

  function First(c: Call): Todo
  {
    match c
    case Create(_, _, _, _, _, _, _) => Tell
    case Chmod(_, _, buf, _, _, _) => if IsLnk(buf.mode) then Finished else Tell
    case Chown(_, _, _, owner, group) => if owner.None? || group.None? then AskOld else Tell
    case HardLink(_, _, _, _) => AskOld
    case Remove(_, _, _, _) => MarkOld
    case Rename(_, _, _, srcBuf, dstBuf, ok) =>
      if SameFile(srcBuf, dstBuf) || (ok && srcBuf.None?) then Finished else MarkNew
  }

  function Started(c: Call): (r: Running)
  {
    Running(c, First(c), false, false, false, if c.Chown? || c.HardLink? then Some(c.buf) else None)
  }

  function OwnerSet(b: StatBuf, owner: Option<int>, group: Option<int>): StatBuf
  {
    b.(uid := if owner.Some? then owner.value else b.uid, gid := if group.Some? then group.value else b.gid)
  }

  function MsgFor(r: Running): Msg
    requires r.todo != Finished
  {
    var c := r.call;
    match r.todo
    case MarkNew => Request(MAY_UNLINK, c.client, c.dst, c.dstBuf, "")
    case MarkOld =>
      if c.Remove? then Request(MAY_UNLINK, c.client, c.path, Some(c.buf), "")
      else Request(MAY_UNLINK, c.client, c.src, c.srcBuf, "")
    case AskOld =>
      if c.Chown? then Request(STAT, c.client, c.path, Some(c.buf), "")
      else if c.HardLink? then Request(STAT, c.client, c.src, Some(c.buf), "")
      else Request(STAT, c.client, c.src, c.srcBuf, "")
    case Tell =>
      if c.Create? then Owned(Request(c.op, c.client, c.path, Some(c.buf), ""), c.fuid, c.fgid)
      else if c.Chmod? then
        Owned(Request(CHMOD, c.client, c.path, Some(c.buf.(mode := Mode(c.buf.mode.fmt, c.perm))), ""), c.fuid, c.fgid)
      else if c.Chown? then Request(CHOWN, c.client, c.path, Some(OwnerSet(r.seen.value, c.owner, c.group)), "")
      else Request(LINK, c.client, c.dst, r.seen, "")
    case Confirm => Request(if c.ok then DID_UNLINK else CANCEL_UNLINK, c.client, c.path, Some(c.buf), "")
    case DropNew => Request(DID_UNLINK, c.client, c.dst, c.dstBuf, "")
    case EnterOld => Request(LINK, c.client, c.src, Some(RenameBuf(r.known, c.srcBuf.value, c.dstBuf)), "")
    case MoveOld => Request(RENAME, c.client, c.dst, Some(RenameBuf(r.known, c.srcBuf.value, c.dstBuf)), c.src)
    case FreeNew => Request(CANCEL_UNLINK, c.client, c.dst, c.dstBuf, "")
    case FreeOld => Request(CANCEL_UNLINK, c.client, c.src, c.srcBuf, "")
  }

  function Next(r: Running, answer: Msg): (n: Running)
    requires r.todo != Finished
    ensures Rank(n.todo) < Rank(r.todo) && n.call == r.call
  {
    var c := r.call;
    var good := answer.result == SUCCEED;
    match r.todo
    case MarkNew => r.(mayNew := good, todo := MarkOld)
    case MarkOld =>
      if c.Remove? then r.(mayOld := good, todo := if good then Confirm else Finished)
      else r.(mayOld := good, todo := AskOld)
    case AskOld =>
      if c.Rename? then
        var known := r.(known := good);
        if c.ok then known.(todo := if r.mayNew then DropNew else if good then MoveOld else EnterOld)
        else known.(todo := if r.mayNew then FreeNew else if r.mayOld then FreeOld else Finished)
      else r.(seen := Some(if good then StatFrom(c.buf, answer) else c.buf), todo := Tell)
    case Tell => r.(todo := Finished)
    case Confirm => r.(todo := Finished)
    case DropNew => r.(todo := if !c.ok then Finished else if r.known then MoveOld else EnterOld)
    case EnterOld => r.(todo := MoveOld)
    case MoveOld => r.(todo := Finished)
    case FreeNew => r.(todo := if r.mayOld then FreeOld else Finished)
    case FreeOld => r.(todo := Finished)
  }

  function Rank(todo: Todo): nat
  {
    match todo
    case MarkNew => 7 case MarkOld => 6 case AskOld => 5
    case DropNew => 4 case EnterOld => 3 case MoveOld => 2
    case FreeNew => 3 case FreeOld => 2
    case Tell => 1 case Confirm => 1 case Finished => 0
  }

  // The call with the server to itself.
  function Solo(db: Db, r: Running): Db
    decreases Rank(r.todo)
  {
    if r.todo == Finished then db
    else Solo(After(db, MsgFor(r)), Next(r, Reply(db, MsgFor(r))))
  }

  lemma SoloOnce(db: Db, r: Running)
    requires r.todo != Finished
    ensures Solo(db, r) == Solo(After(db, MsgFor(r)), Next(r, Reply(db, MsgFor(r))))
  {}

  lemma SoloDone(db: Db, r: Running)
    requires r.todo == Finished
    ensures Solo(db, r) == db
  {}

  // Step by step it is the wrapper's script.
  lemma SoloIsScript(db: Db, c: Call)
    ensures Solo(db, Started(c)) == DbAfter(db, c)
  {
    hide Solo, After, Reply;
    var r := Started(c);
    match c
    case Rename(_, _, _, _, _, _) => SoloRename(db, c);
    case Remove(_, _, _, ok) =>
      SoloOnce(db, r);
      var db1 := After(db, MsgFor(r));
      var r1 := Next(r, Reply(db, MsgFor(r)));
      if r1.todo != Finished {
        SoloOnce(db1, r1);
        SoloDone(After(db1, MsgFor(r1)), Next(r1, Reply(db1, MsgFor(r1))));
      } else {
        SoloDone(db1, r1);
      }
    case Create(_, _, _, _, _, _, _) => SoloTell(db, r);
    case Chmod(_, _, _, _, _, _) =>
      if r.todo == Finished { SoloDone(db, r); } else { SoloTell(db, r); }
    case Chown(_, _, _, owner, group) =>
      if r.todo == AskOld { SoloAsked(db, r); } else { SoloTell(db, r); }
    case HardLink(_, _, _, _) => SoloAsked(db, r);
  }

  lemma SoloTell(db: Db, r: Running)
    requires r.todo == Tell
    ensures Solo(db, r) == After(db, MsgFor(r))
  {
    hide Solo, After, Reply;
    SoloOnce(db, r);
    SoloDone(After(db, MsgFor(r)), Next(r, Reply(db, MsgFor(r))));
  }

  lemma SoloAsked(db: Db, r: Running)
    requires r.todo == AskOld && (r.call.Chown? || r.call.HardLink?)
    ensures var n := Next(r, Reply(db, MsgFor(r)));
            n.todo == Tell && Solo(db, r) == After(After(db, MsgFor(r)), MsgFor(n))
  {
    hide Solo, After, Reply;
    SoloOnce(db, r);
    SoloTell(After(db, MsgFor(r)), Next(r, Reply(db, MsgFor(r))));
  }

  lemma SoloRename(db: Db, c: Call)
    requires c.Rename?
    ensures Solo(db, Started(c)) == DbAfter(db, c)
  {
    hide Solo, After, Reply;
    var r := Started(c);
    if r.todo == Finished {
      SoloDone(db, r);
    } else {
      SoloOnce(db, r);
      var db1 := After(db, MsgFor(r));
      var r1 := Next(r, Reply(db, MsgFor(r)));
      SoloOnce(db1, r1);
      var db2 := After(db1, MsgFor(r1));
      var r2 := Next(r1, Reply(db1, MsgFor(r1)));
      SoloOnce(db2, r2);
      var db3 := After(db2, MsgFor(r2));
      var r3 := Next(r2, Reply(db2, MsgFor(r2)));
      var p := RenamePrepare(db, c.client, c.src, c.dst, c.srcBuf, c.dstBuf);
      assert p == Prepared(db3, r3.mayNew, r3.mayOld, r3.known);
      if c.ok { SoloConfirm(p, r3); } else { SoloCancel(p, r3); }
    }
  }

  lemma SoloConfirm(p: Prepared, r: Running)
    requires r.call.Rename? && r.call.ok && r.call.srcBuf.Some?
    requires p.mayNew == r.mayNew && p.known == r.known
    requires r.todo == if r.mayNew then DropNew else if r.known then MoveOld else EnterOld
    ensures var c := r.call; Solo(p.db, r) == RenameConfirm(p, c.client, c.src, c.dst, c.srcBuf.value, c.dstBuf)
  {
    hide Solo, After, Reply;
    var db, s := p.db, r;
    if s.todo == DropNew {
      SoloOnce(db, s);
      db, s := After(db, MsgFor(s)), Next(s, Reply(db, MsgFor(s)));
    }
    if s.todo == EnterOld {
      SoloOnce(db, s);
      db, s := After(db, MsgFor(s)), Next(s, Reply(db, MsgFor(s)));
    }
    SoloOnce(db, s);
    SoloDone(After(db, MsgFor(s)), Next(s, Reply(db, MsgFor(s))));
  }

  lemma SoloCancel(p: Prepared, r: Running)
    requires r.call.Rename? && !r.call.ok
    requires p.mayNew == r.mayNew && p.mayOld == r.mayOld
    requires r.todo == if r.mayNew then FreeNew else if r.mayOld then FreeOld else Finished
    ensures var c := r.call; Solo(p.db, r) == RenameCancel(p, c.client, c.src, c.dst, c.srcBuf, c.dstBuf)
  {
    hide Solo, After, Reply;
    var db, s := p.db, r;
    if s.todo == FreeNew {
      SoloOnce(db, s);
      db, s := After(db, MsgFor(s)), Next(s, Reply(db, MsgFor(s)));
    }
    if s.todo == FreeOld {
      SoloOnce(db, s);
      db, s := After(db, MsgFor(s)), Next(s, Reply(db, MsgFor(s)));
    }
    SoloDone(db, s);
  }
}
