// Whole runs in which requests are delivered more than once.

module Redelivery {
  import opened PathText
  import opened FileTable
  import opened ServerOp
  import opened OpFacts
  import opened Agreeing
  import opened Attributes
  import opened Resending

  // ----- the files do not depend on the attributes -----

  // Two requests under way that differ in the attributes only.
  predicate Alike(v: Work, w: Work)
  {
    v.db.files == w.db.files && v == w.(db := v.db)
  }

  lemma CheckPathAlike(v: Work, w: Work)
    requires Alike(v, w)
    ensures Alike(CheckPath(v), CheckPath(w))
  {
    hide DidUnlinkClash, UnlinkFile;
    ClearsAlike(v.db, w.db, v.msg, v.byPath.deleting);
    ClearsAlike(DidUnlinkClash(v.db, v.msg.path, v.byPath.deleting),
                DidUnlinkClash(w.db, w.msg.path, w.byPath.deleting), v.msg, v.byPath.deleting);
  }

  // The statements that touch both tables.
  lemma ClearsAlike(a: Db, b: Db, m: Msg, mark: int)
    requires a.files == b.files
    ensures UnlinkFileDev(a, m).files == UnlinkFileDev(b, m).files
    ensures UnlinkFile(a, m).files == UnlinkFile(b, m).files
    ensures UnlinkContents(a, m).files == UnlinkContents(b, m).files
    ensures CancelUnlink(a, m).files == CancelUnlink(b, m).files
    ensures DidUnlink(a, m, mark).files == DidUnlink(b, m, mark).files
    ensures DidUnlinkClash(a, m.path, mark).files == DidUnlinkClash(b, m.path, mark).files
  {}

  lemma CheckInoAlike(v: Work, w: Work)
    requires Alike(v, w) && !Refused(v)
    ensures !Refused(w) && Alike(CheckIno(v), CheckIno(w))
  {
    hide UnlinkFileDev;
    ClearsAlike(v.db, w.db, v.msg, 0);
  }

  lemma UnlinkAlike(v: Work, w: Work)
    requires Alike(v, w)
    ensures Unlink(v).db.files == Unlink(w).db.files
  {
    hide UnlinkFileDev, UnlinkFile, UnlinkContents;
    ClearsAlike(v.db, w.db, v.msg, 0);
    ClearsAlike(UnlinkFile(v.db, v.msg), UnlinkFile(w.db, w.msg), v.msg, 0);
    ClearsAlike(UnlinkContents(UnlinkFile(v.db, v.msg), v.msg), UnlinkContents(UnlinkFile(w.db, w.msg), w.msg),
                v.msg, 0);
  }

  lemma CreatAlike(v: Work, w: Work)
    requires Alike(v, w)
    ensures Creat(v).db.files == Creat(w).db.files
  {
    hide UnlinkFileDev;
    ClearsAlike(v.db, w.db, v.byIno, 0);
  }

  lemma LinkAlike(v: Work, w: Work)
    requires Alike(v, w)
    ensures Link(v).db.files == Link(w).db.files
  {
    hide UnlinkFile;
    ClearsAlike(v.db, w.db, v.msg, 0);
  }

  lemma MakeAlike(v: Work, w: Work)
    requires Alike(v, w)
    ensures Make(v).db.files == Make(w).db.files
  {
    hide UnlinkFileDev, UnlinkFile;
    ClearsAlike(v.db, w.db, v.msg, 0);
    ClearsAlike(v.db, w.db, v.byIno, 0);
    ClearsAlike(UnlinkFile(v.db, v.msg), UnlinkFile(w.db, w.msg), v.byIno, 0);
  }

  lemma ChangeAlike(v: Work, w: Work)
    requires Alike(v, w)
    ensures Chmod(v).db.files == Chmod(w).db.files && Chmod(v).msg == Chmod(w).msg
    ensures Chown(v).db.files == Chown(w).db.files && Chown(v).msg == Chown(w).msg
    ensures forall ino :: Stat(v, ino).db.files == v.db.files && Stat(w, ino).db.files == w.db.files
                          && Stat(v, ino).msg == Stat(w, ino).msg
  {
    hide SetMeta, Insert, RowOf;
  }

  lemma MarksAlike(v: Work, w: Work)
    requires Alike(v, w) && v.msg.op in {RENAME, MAY_UNLINK, DID_UNLINK, CANCEL_UNLINK, UNLINK}
    ensures Dispatch(v).db.files == Dispatch(w).db.files
  {
    hide Unlink, CancelUnlink, DidUnlink, SetMark, RenameFiles, SetInode;
    UnlinkAlike(v, w);
    ClearsAlike(v.db, w.db, v.msg, v.msg.client);
  }

  lemma RowsAlike(v: Work, w: Work)
    requires Alike(v, w)
    requires Creating(v.msg.op) || Changing(v.msg.op) || v.msg.op in {STAT, FSTAT}
    ensures Dispatch(v).db.files == Dispatch(w).db.files
    ensures MarksUnlinked(v) ==> Dispatch(v).msg == Dispatch(w).msg
  {
    hide Creat, Link, Make, Chmod, Chown, Stat;
    CreatAlike(v, w);
    LinkAlike(v, w);
    MakeAlike(v, w);
    ChangeAlike(v, w);
    assert Stat(v, false).db.files == Stat(w, false).db.files && Stat(v, true).db.files == Stat(w, true).db.files;
  }

  lemma PlainAlike(v: Work, w: Work)
    requires Alike(v, w) && v.msg.op !in {RENAME, MAY_UNLINK, DID_UNLINK, CANCEL_UNLINK, UNLINK, STAT, FSTAT}
    requires !Creating(v.msg.op) && !Changing(v.msg.op)
    ensures Dispatch(v).db.files == v.db.files && Dispatch(w).db.files == w.db.files
  {}

  lemma DispatchAlike(v: Work, w: Work)
    requires Alike(v, w)
    ensures Dispatch(v).db.files == Dispatch(w).db.files
    ensures MarksUnlinked(v) ==> Dispatch(v).msg == Dispatch(w).msg
  {
    hide Dispatch;
    if v.msg.op in {RENAME, MAY_UNLINK, DID_UNLINK, CANCEL_UNLINK, UNLINK} {
      MarksAlike(v, w);
    } else if Creating(v.msg.op) || Changing(v.msg.op) || v.msg.op in {STAT, FSTAT} {
      RowsAlike(v, w);
    } else {
      PlainAlike(v, w);
    }
  }

  lemma FilesIgnoreAttrs(a: Db, b: Db, m: Msg)
    requires a.files == b.files
    ensures Process(a, m).db.files == Process(b, m).db.files
  {
    hide Lookup, CheckPath, CheckIno, Refused, Dispatch;
    LookupAlike(a, b, m);
    CheckPathAlike(Lookup(a, m), Lookup(b, m));
    var v, w := Front(a, m), Front(b, m);
    RefusedAlike(v, w);
    if !Refused(v) {
      CheckInoAlike(v, w);
      DispatchAlike(CheckIno(v), CheckIno(w));
    }
  }

  lemma LookupAlike(a: Db, b: Db, m: Msg)
    requires a.files == b.files
    ensures Alike(Lookup(a, m), Lookup(b, m))
  {}

  lemma RefusedAlike(v: Work, w: Work)
    requires Alike(v, w)
    ensures Refused(v) <==> Refused(w)
  {}

  // ----- one request -----

  // n deliveries of one request.
  function Deliver(db: Db, m: Msg, n: nat): Db
  {
    if n == 0 then db else Process(Deliver(db, m, n - 1), m).db
  }

  // All deliveries after the second leave what the second left.
  lemma {:induction false} DeliverAgain(db: Db, m: Msg, n: nat)
    requires Coherent(db.files) && Sendable(db.files, m) && n >= 1
    ensures var d := Process(db, m).db;
            Deliver(db, m, n) == if n == 1 then d else Later(d, m, AttrsLater(db.files, m))
  {
    hide Process, Sendable, Later, AttrsLater, Coherent, Agrees, HasInode, HasAttr;
    SecondDelivery(db, m);
    DeliverFirst(db, m);
    if n > 2 {
      DeliverAgain(db, m, n - 1);
      ThirdDelivery(db, m);
    } else if n == 2 {
      assert Deliver(db, m, 2) == Process(Deliver(db, m, 1), m).db;
    }
  }

  lemma DeliverFirst(db: Db, m: Msg)
    ensures Deliver(db, m, 1) == Process(db, m).db
  {
    hide Process;
    assert Deliver(db, m, 0) == db;
  }

  // After the second delivery the request meets the row the first one made.
  lemma ThirdDelivery(db: Db, m: Msg)
    requires Coherent(db.files) && Sendable(db.files, m)
    ensures var d := Later(Process(db, m).db, m, AttrsLater(db.files, m)); Process(d, m).db == d
  {
    assert m.op in {LINK, SYMLINK} ==> m.named;
    hide Process, Sendable, DropAttrs, Coherent, Agrees, HasAttr;
    var d := Process(db, m).db;
    SecondDelivery(db, m);
    if AttrsLater(db.files, m) {
      AgreeingIsSendable(d.files, m);
      SecondDelivery(d, m);
    }
  }

  lemma AgreeingIsSendable(t: Files, m: Msg)
    requires Agrees(t, m) && m.op in {LINK, SYMLINK, MKDIR, MKNOD, CREAT} && (m.op in {LINK, SYMLINK} ==> m.named)
    ensures Sendable(t, m)
  {}

  // ----- runs -----

  // The i-th request is delivered times[i] times.
  function RunRepeated(db: Db, msgs: seq<Msg>, times: seq<nat>): Db
    requires |msgs| == |times|
  {
    if msgs == [] then db
    else
      var n := |msgs| - 1;
      Deliver(RunRepeated(db, msgs[..n], times[..n]), msgs[n], times[n])
  }

  ghost predicate RunSendable(db: Db, msgs: seq<Msg>)
  {
    forall i | 0 <= i < |msgs| :: Sendable(Run(db, msgs[..i]).files, msgs[i])
  }

  lemma DeliverFiles(a: Db, b: Db, m: Msg, n: nat)
    requires a.files == b.files && Coherent(b.files) && Sendable(b.files, m) && n >= 1
    ensures Deliver(a, m, n).files == Process(b, m).db.files
  {
    hide Process, Sendable, Coherent;
    DeliverAgain(a, m, n);
    FilesIgnoreAttrs(a, b, m);
  }

  // A whole run of requests, each delivered at least once and some more often, leaves the files
  // as if each had been delivered exactly once.
  lemma {:induction false} AtLeastOnceIsOnce(db: Db, msgs: seq<Msg>, times: seq<nat>)
    requires |msgs| == |times| && forall i | 0 <= i < |times| :: times[i] >= 1
    requires Coherent(db.files) && RunSendable(db, msgs)
    ensures RunRepeated(db, msgs, times).files == Run(db, msgs).files && Coherent(Run(db, msgs).files)
  {
    hide Process, Sendable, Coherent, Deliver;
    if msgs != [] {
      var n := |msgs| - 1;
      assert forall i | 0 <= i < n :: msgs[..n][..i] == msgs[..i];
      AtLeastOnceIsOnce(db, msgs[..n], times[..n]);
      var d := Run(db, msgs[..n]);
      assert Sendable(d.files, msgs[n]);
      DeliverFiles(RunRepeated(db, msgs[..n], times[..n]), d, msgs[n], times[n]);
      SendableKeepsCoherence(d, msgs[n]);
    }
  }

  lemma SendableKeepsCoherence(db: Db, m: Msg)
    requires Coherent(db.files) && Sendable(db.files, m)
    ensures Coherent(Process(db, m).db.files)
  {
    hide Process;
    OpKeepsCoherence(db, m);
  }

  // The requests that lose attributes when they come again.
  ghost predicate LosesLater(db: Db, msgs: seq<Msg>, i: nat)
    requires i < |msgs|
  {
    var d := Run(db, msgs[..i]);
    AttrsLater(d.files, msgs[i]) && HasAttr(d, msgs[i])
  }

  // And the attributes too, if no request is repeated that gives an inode with attributes its
  // first row.
  lemma {:induction false} AtLeastOnceIsOnceForAll(db: Db, msgs: seq<Msg>, times: seq<nat>)
    requires |msgs| == |times| && forall i | 0 <= i < |times| :: times[i] >= 1
    requires Coherent(db.files) && RunSendable(db, msgs)
    requires forall i | 0 <= i < |msgs| && times[i] > 1 :: !LosesLater(db, msgs, i)
    ensures RunRepeated(db, msgs, times) == Run(db, msgs)
  {
    hide Process, Sendable, Coherent, Deliver, AttrsLater, HasAttr, DropAttrs;
    if msgs != [] {
      var n := |msgs| - 1;
      var less := msgs[..n];
      assert forall i | 0 <= i < n :: less[..i] == msgs[..i];
      assert forall i | 0 <= i < n :: LosesLater(db, less, i) == LosesLater(db, msgs, i);
      AtLeastOnceIsOnceForAll(db, less, times[..n]);
      AtLeastOnceIsOnce(db, less, times[..n]);
      var d := Run(db, less);
      assert Sendable(d.files, msgs[n]);
      DeliverAgain(d, msgs[n], times[n]);
      SecondDelivery(d, msgs[n]);
      assert times[n] > 1 ==> !LosesLater(db, msgs, n);
    }
  }
}
