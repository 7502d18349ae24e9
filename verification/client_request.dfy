// A client's request over an unreliable connection: it is sent again until an answer comes, so
// the server may have carried it out any number of times.

module ClientRequest {
  import opened FileTable
  import opened ServerOp
  import opened OpFacts
  import opened Agreeing
  import opened Attributes
  import opened Resending
  import opened Redelivery
  import opened SecondAnswer
  import opened FileDbs
  import opened Requests

  const RETRIES: nat := 250

  // How one attempt ends: not sent, sent but no answer came back, answered, or answered by
  // something other than an acknowledgement.
  datatype Try = NotSent | Lost(served: bool) | Answered | NotAcked(served: bool)

  // The client gives up on the first answer that is no acknowledgement, and aborts when it has
  // run out of attempts.
  datatype Reply = Response(m: Msg, value: Option<string>) | Nothing | Aborted

  predicate Final(t: Try) { t.Answered? || t.NotAcked? }

  // Whether the server had carried the request out before the attempt that ended it.
  predicate ServedBefore(tries: seq<Try>)
  {
    tries != [] && !Final(tries[0]) && (tries[0] == Lost(true) || ServedBefore(tries[1..]))
  }

  // The attempt that ends it.
  function Ending(tries: seq<Try>): Option<Try>
  {
    if tries == [] then None
    else if Final(tries[0]) then Some(tries[0])
    else Ending(tries[1..])
  }

  method PseudoClientRequest(db: FileDb, m: Msg, tries: seq<Try>) returns (reply: Reply)
    requires db.Valid() && |tries| == RETRIES
    requires Coherent(db.files) && Sendable(db.files, m)
    modifies db`files, db`attrs, db`dirty
    ensures db.Valid()
    ensures reply.Response? <==> Ending(tries) == Some(Answered)
    ensures reply.Aborted? <==> Ending(tries) == None
    // the files are those of one delivery, or, if the server never acted, as they were
    ensures db.files == if Acted(tries) then Process(old(db.Memory()), m).db.files else old(db.files)
    // so are the attributes, but for those an inode had before the request made its first row
    ensures db.Memory() ==
            if !Acted(tries) then old(db.Memory())
            else Later(Process(old(db.Memory()), m).db, m, ActedTwice(tries) && AttrsLater(old(db.files), m))
    // the answer is, whole, what the server gave at the delivery that ended it
    ensures reply.Response? ==>
              Acted(tries)
              && (var last := Process(Deliver(old(db.Memory()), m, Served(tries) - 1), m);
                  reply.m == last.msg && reply.value == last.value)
    // a stat shows the row, however many deliveries were lost before
    ensures reply.Response? && m.op in {STAT, FSTAT} && Agrees(old(db.files), m) ==>
              && (reply.m.result == SUCCEED <==> Shown(old(db.files), m))
              && (Shown(old(db.files), m) ==> Tells(old(db.files), m, reply.m))
    // the answer is the first one, unless it is one of those a repetition changes
    ensures reply.Response? ==>
              (reply.m.result != Process(old(db.Memory()), m).msg.result
               <==> ServedBefore(tries) && AnswersDiffer(old(db.Memory()), m))
  {
    hide Process, Sendable, Coherent, AnswersDiffer, AttrsLater, DropAttrs, Shown, Tells, Agrees;
    ghost var start := db.Memory();
    ghost var served := 0;
    var i := 0;
    while i < RETRIES
      invariant 0 <= i <= RETRIES && db.Valid()
      invariant db.Memory() == Deliver(start, m, served)
      invariant Ending(tries) == Ending(tries[i..])
      invariant Served(tries) == served + Served(tries[i..])
      invariant ServedBefore(tries) == (served > 0 || ServedBefore(tries[i..]))
    {
      assert tries[i..][0] == tries[i] && tries[i..][1..] == tries[i + 1..];
      match tries[i] {
        case NotSent =>
        case Lost(carriedOut) =>
          if carriedOut {
            var _ := PseudoOp(db, m);
            served := served + 1;
          }
        case Answered =>
          Delivered(start, m, served);
          Delivered(start, m, served + 1);
          AnswerAgain(start, m, served);
          if m.op in {STAT, FSTAT} && Agrees(start.files, m) { StatAgain(start, m, served); }
          assert Served(tries) == served + 1;
          var answer := PseudoOp(db, m);
          return Response(answer.msg, answer.value);
        case NotAcked(carriedOut) =>
          Delivered(start, m, served);
          Delivered(start, m, served + 1);
          if carriedOut { var _ := PseudoOp(db, m); }
          return Nothing;
      }
      i := i + 1;
    }
    assert tries[i..] == [];
    Delivered(start, m, served);
    return Aborted;
  }

  // How often the server carried the request out.
  function Served(tries: seq<Try>): nat
  {
    if tries == [] then 0
    else
      (if tries[0] in {Lost(true), Answered, NotAcked(true)} then 1 else 0)
      + if Final(tries[0]) then 0 else Served(tries[1..])
  }

  predicate Acted(tries: seq<Try>) { Served(tries) > 0 }
  predicate ActedTwice(tries: seq<Try>) { Served(tries) > 1 }

  // ----- what the attempts amount to -----

  // No answer has come before the i-th attempt.
  predicate StillTrying(tries: seq<Try>, i: nat)
  {
    i <= |tries| && forall j | 0 <= j < i :: tries[j].NotSent? || tries[j].Lost?
  }

  // The request ends at the first attempt that is answered, by whatever; without one it ends in
  // nothing.
  lemma {:induction false} EndingIs(tries: seq<Try>)
    ensures Ending(tries) == None <==> StillTrying(tries, |tries|)
    ensures Ending(tries) == Some(Answered) <==>
            exists i :: 0 <= i < |tries| && StillTrying(tries, i) && tries[i] == Answered
  {
    if tries != [] {
      var rest := tries[1..];
      EndingIs(rest);
      Shifted(tries);
      if tries[0] == Answered { assert StillTrying(tries, 0); }
    }
  }

  // One attempt less.
  lemma Shifted(tries: seq<Try>)
    requires tries != []
    ensures forall i: nat :: StillTrying(tries, i + 1) <==> !Final(tries[0]) && StillTrying(tries[1..], i)
    ensures forall i | 0 <= i < |tries[1..]| :: tries[1..][i] == tries[i + 1]
  {
    forall i: nat
      ensures StillTrying(tries, i + 1) <==> !Final(tries[0]) && StillTrying(tries[1..], i)
    {
      if StillTrying(tries, i + 1) { assert tries[0].NotSent? || tries[0].Lost?; }
      assert forall j | 1 <= j < |tries| :: tries[j] == tries[1..][j - 1];
    }
  }

  // Attempts that reached the server, up to the one that ended it.
  function Reached(tries: seq<Try>): set<nat>
  {
    set i: nat | i < |tries| && StillTrying(tries, i) && Reaches(tries[i])
  }

  predicate Reaches(t: Try) { t in {Lost(true), Answered, NotAcked(true)} }

  // The first attempt, and the others one later.
  lemma ReachedNext(tries: seq<Try>)
    requires tries != []
    ensures var later := set i | i in Reached(tries[1..]) :: i + 1;
            Reached(tries) == (if Reaches(tries[0]) then {0} else {}) + if Final(tries[0]) then {} else later
  {
    var rest := tries[1..];
    Shifted(tries);
    assert StillTrying(tries, 0);
    hide StillTrying;
    forall i: nat | i > 0
      ensures i in Reached(tries) <==> !Final(tries[0]) && i - 1 in Reached(rest)
    {
      assert StillTrying(tries, i - 1 + 1) <==> !Final(tries[0]) && StillTrying(rest, i - 1);
    }
    var later := set i | i in Reached(rest) :: i + 1;
    assert forall i: nat :: i in later <==> i > 0 && i - 1 in Reached(rest) by {
      forall i: nat | i > 0 && i - 1 in Reached(rest) ensures i in later { assert i == (i - 1) + 1; }
    }
  }

  lemma {:induction false} ServedIs(tries: seq<Try>)
    ensures Served(tries) == |Reached(tries)|
    ensures Ending(tries) == Some(Answered) ==> (ServedBefore(tries) <==> |Reached(tries)| > 1)
  {
    if tries == [] {
      NoneReached();
    } else {
      ServedIs(tries[1..]);
      ReachedCount(tries);
      hide Reached;
      if Ending(tries[1..]) == Some(Answered) { AnsweredIsServed(tries[1..]); }
    }
  }

  lemma ReachedCount(tries: seq<Try>)
    requires tries != []
    ensures |Reached(tries)| ==
            (if Reaches(tries[0]) then 1 else 0) + if Final(tries[0]) then 0 else |Reached(tries[1..])|
  {
    var later := set i | i in Reached(tries[1..]) :: i + 1;
    ReachedNext(tries);
    hide Reached;
    OneLater(Reached(tries[1..]), later);
    assert 0 !in later;
    assert |{0} + later| == 1 + |later|;
  }

  lemma NoneReached()
    ensures Reached([]) == {}
  {}

  lemma {:induction false} AnsweredIsServed(tries: seq<Try>)
    requires Ending(tries) == Some(Answered)
    ensures Served(tries) > 0
  {
    if !Final(tries[0]) { AnsweredIsServed(tries[1..]); }
  }

  lemma OneLater(s: set<nat>, u: set<nat>)
    requires u == set i | i in s :: i + 1
    ensures |u| == |s|
  {
    if s != {} {
      var k :| k in s;
      assert k + 1 in u;
      var v := set i | i in s - {k} :: i + 1;
      forall j | j in u - {k + 1} ensures j in v {
        var i :| i in s && i + 1 == j;
        assert i in s - {k};
      }
      assert u - {k + 1} == v;
      OneLater(s - {k}, u - {k + 1});
    }
  }

  lemma Delivered(db: Db, m: Msg, n: nat)
    requires Coherent(db.files) && Sendable(db.files, m)
    ensures Deliver(db, m, n) ==
            if n == 0 then db else Later(Process(db, m).db, m, n > 1 && AttrsLater(db.files, m))
    ensures Deliver(db, m, n + 1) == Process(Deliver(db, m, n), m).db
  {
    hide Process;
    if n > 0 { DeliverAgain(db, m, n); }
  }

  // The answer to the delivery after n others.
  lemma AnswerAgain(db: Db, m: Msg, n: nat)
    requires Coherent(db.files) && Sendable(db.files, m)
    ensures Process(Deliver(db, m, n), m).msg.result != Process(db, m).msg.result <==> n > 0 && AnswersDiffer(db, m)
  {
    hide Process, AnswersDiffer, Coherent, Sendable, DropAttrs;
    if n == 0 {
      assert Deliver(db, m, 0) == db;
    } else {
      DeliverAgain(db, m, n);
      SecondAnswerDiffers(db, m);
      if AttrsLater(db.files, m) { ThirdAnswer(db, m); }
    }
  }

  lemma ThirdAnswer(db: Db, m: Msg)
    requires Coherent(db.files) && Sendable(db.files, m) && AttrsLater(db.files, m)
    ensures var d := Process(db, m).db;
            Process(WithoutAttrs(d, m), m).msg.result == Process(d, m).msg.result
  {
    assert m.op in {LINK, SYMLINK} ==> m.named;
    hide Process, AnswersDiffer, Coherent, Sendable, DropAttrs, HasAttr, Agrees;
    var d := Process(db, m).db;
    SecondDelivery(db, m);
    AgreeingIsSendable(d.files, m);
    SecondAnswerDiffers(d, m);
    CreatingDoesNotDiffer(d, m);
  }

  lemma CreatingDoesNotDiffer(db: Db, m: Msg)
    requires Creating(m.op)
    ensures !AnswersDiffer(db, m)
  {}

  // ----- what a stat shows -----

  // The inode has a row, of the request's kind, and nothing says it is elsewhere.
  ghost predicate Shown(t: Files, m: Msg)
  {
    HasInode(t, m.dev, m.ino) && !Foreign(t, m) && !Blocked(t, m)
  }

  // The answer carries the metadata of every row of the inode.
  ghost predicate Tells(t: Files, m: Msg, answer: Msg)
  {
    forall k | k in t && t[k].dev == m.dev && t[k].ino == m.ino ::
      answer.uid == t[k].uid && answer.gid == t[k].gid && answer.mode == t[k].mode && answer.rdev == t[k].rdev
  }

  lemma StatAnswer(db: Db, m: Msg)
    requires Coherent(db.files) && Agrees(db.files, m) && m.op in {STAT, FSTAT}
    ensures var o := Process(db, m);
            && (o.msg.result == SUCCEED <==> Shown(db.files, m))
            && (Shown(db.files, m) ==> o.db == db && Tells(db.files, m, o.msg))
  {
    hide Blocked, Front, CheckIno, Finish, Refused;
    RefusedExactly(db, m);
    if Refused(Front(db, m)) {
      AbortExactly(db, m);
    } else {
      FirstPass(db, m);
      ProcessedBy(db, m);
      ChecksOfAgreeing(db, m);
      var c := CheckIno(Front(db, m));
      hide Process;
      PathHasInode(c.db.files, m);
      AnswerOfClean(c.db, m, c);
      if Foreign(db.files, m) { NoInodeLeft(db, m); } else if c.foundIno { StatOfClean(db, m, c); }
    }
  }

  lemma PathHasInode(t: Files, m: Msg)
    requires Agrees(t, m)
    ensures PathKnown(t, m) ==> HasInode(t, m.dev, m.ino)
  {}

  lemma StatOfClean(db: Db, m: Msg, w: Work)
    requires Clean(db, m, w) && Coherent(db.files) && m.op in {STAT, FSTAT} && w.foundIno
    ensures Finish(w).db == db && Tells(db.files, m, Finish(w).msg)
  {
    var k :| IsHit(db.files, w, k);
    LikeHit(db.files, k);
  }

  // So does the answer to any later delivery.
  lemma StatAgain(db: Db, m: Msg, n: nat)
    requires Coherent(db.files) && Sendable(db.files, m) && Agrees(db.files, m) && m.op in {STAT, FSTAT}
    ensures var o := Process(Deliver(db, m, n), m).msg;
            && (o.result == SUCCEED <==> Shown(db.files, m))
            && (Shown(db.files, m) ==> Tells(db.files, m, o))
  {
    hide Process, Coherent, Sendable, Agrees, Shown, Tells, AnswersDiffer;
    StatAnswer(db, m);
    AnswerAgain(db, m, n);
    StatDoesNotDiffer(db, m);
    Delivered(db, m, n);
  }

  lemma StatDoesNotDiffer(db: Db, m: Msg)
    requires m.op in {STAT, FSTAT}
    ensures !AnswersDiffer(db, m) && !AttrsLater(db.files, m)
  {}
}
