// The recursive lock every wrapper takes, step by step: each read and each write of its three
// shared variables is one step, and threads may be interleaved between any two of them.

module WrapperLock {

  type Tid = int
  const NONE: Tid := 0

  // Where a thread is in getlock or droplock; the values it has read are its own.
  datatype Pc =
    | Idle
    | Get                    // about to compare the holder with itself
    | GetOwn                 // it was the holder: about to read the count
    | GetOwnRead(r: int)     // about to write the count back, one higher
    | GetWait                // it was not: about to lock the mutex
    | GetLocked              // about to set the count to one
    | GetCounted             // about to name itself the holder
    | Drop                   // about to read the count
    | DropRead(r: int)       // about to write it back, one lower
    | DropWrote(r: int)      // about to test what it wrote
    | DropHolder             // about to clear the holder
    | DropUnlock             // about to unlock the mutex

  // depth counts the thread's getlocks that have not been undone.
  datatype Thread = Thread(pc: Pc, depth: nat)

  datatype State = State(holder: Tid, recursion: int, owner: Tid, threads: map<Tid, Thread>)

  datatype Action = CallGet | CallDrop | Advance

  function At(s: State, t: Tid, pc: Pc): State
    requires t in s.threads
  {
    s.(threads := s.threads[t := s.threads[t].(pc := pc)])
  }

  function Counted(s: State, t: Tid, pc: Pc, depth: nat, recursion: int): State
    requires t in s.threads
  {
    s.(recursion := recursion, threads := s.threads[t := Thread(pc, depth)])
  }

  // One step of thread t.  Waiting for a taken mutex, and dropping a lock one does not have,
  // leave everything as it is.
  function Step(s: State, t: Tid, a: Action): State
    requires t in s.threads
  {
    var me := s.threads[t];
    match me.pc
    case Idle =>
      if a == CallGet then At(s, t, Get)
      else if a == CallDrop && me.depth > 0 then At(s, t, Drop)
      else s
    case Get => At(s, t, if s.holder == t then GetOwn else GetWait)
    case GetOwn => At(s, t, GetOwnRead(s.recursion))
    case GetOwnRead(r) => Counted(s, t, Idle, me.depth + 1, r + 1)
    case GetWait => if s.owner == NONE then At(s.(owner := t), t, GetLocked) else s
    case GetLocked => At(s.(recursion := 1), t, GetCounted)
    case GetCounted => Counted(s.(holder := t), t, Idle, me.depth + 1, s.recursion)
    case Drop => At(s, t, DropRead(s.recursion))
    case DropRead(r) => Counted(s, t, DropWrote(r - 1), if me.depth > 0 then me.depth - 1 else 0, r - 1)
    case DropWrote(r) => At(s, t, if r == 0 then DropHolder else Idle)
    case DropHolder => At(s.(holder := NONE), t, DropUnlock)
    case DropUnlock => At(s.(owner := NONE), t, Idle)
  }

  // A thread without the mutex has no depth and is at most asking for it.
  predicate Outside(th: Thread) { th.depth == 0 && th.pc in {Idle, Get, GetWait} }

  // The thread with the mutex: what the shared variables hold at each point of the two functions.
  predicate Inside(s: State, t: Tid, th: Thread)
  {
    match th.pc
    case Idle => th.depth >= 1 && s.recursion == th.depth && s.holder == t
    case Get => th.depth >= 1 && s.recursion == th.depth && s.holder == t
    case GetOwn => th.depth >= 1 && s.recursion == th.depth && s.holder == t
    case GetOwnRead(r) => th.depth >= 1 && r == s.recursion == th.depth && s.holder == t
    case GetWait => false
    case GetLocked => th.depth == 0 && s.holder == NONE
    case GetCounted => th.depth == 0 && s.recursion == 1 && s.holder == NONE
    case Drop => th.depth >= 1 && s.recursion == th.depth && s.holder == t
    case DropRead(r) => th.depth >= 1 && r == s.recursion == th.depth && s.holder == t
    case DropWrote(r) => r == s.recursion == th.depth && s.holder == t
    case DropHolder => th.depth == 0 && s.holder == t
    case DropUnlock => th.depth == 0 && s.holder == NONE
  }

  ghost predicate Inv(s: State)
  {
    && NONE !in s.threads
    && (s.owner == NONE ==> s.holder == NONE)
    && (s.owner != NONE ==> s.owner in s.threads && Inside(s, s.owner, s.threads[s.owner]))
    && (forall t | t in s.threads && t != s.owner :: Outside(s.threads[t]))
  }

  // Every single step of every thread keeps the lock's books.
  lemma StepKeepsInv(s: State, t: Tid, a: Action)
    requires Inv(s) && t in s.threads
    ensures Inv(Step(s, t, a)) && Step(s, t, a).threads.Keys == s.threads.Keys
  {
    OthersStay(s, t, a);
    if t != s.owner { OutsiderKeepsInv(s, t, a); } else { OwnerKeepsInv(s, t, a); }
  }

  lemma OthersStay(s: State, t: Tid, a: Action)
    requires t in s.threads
    ensures var u := Step(s, t, a);
            u.threads.Keys == s.threads.Keys && forall k | k in s.threads && k != t :: u.threads[k] == s.threads[k]
  {}

  // A thread without the mutex can only come to wait for it, or take it when it is free.
  lemma OutsiderKeepsInv(s: State, t: Tid, a: Action)
    requires Inv(s) && t in s.threads && t != s.owner
    ensures Inv(Step(s, t, a))
  {
    assert Outside(s.threads[t]);
  }

  lemma OwnerKeepsInv(s: State, t: Tid, a: Action)
    requires Inv(s) && t in s.threads && t == s.owner
    ensures Inv(Step(s, t, a))
  {
    OthersStay(s, t, a);
  }

  datatype Turn = Turn(t: Tid, a: Action)

  function Run(s: State, turns: seq<Turn>): State
  {
    if turns == [] then s
    else
      var was := Run(s, turns[..|turns| - 1]);
      var last := turns[|turns| - 1];
      if last.t in was.threads then Step(was, last.t, last.a) else was
  }

  function Start(tids: set<Tid>): State
  {
    State(NONE, 0, NONE, map t | t in tids :: Thread(Idle, 0))
  }

  lemma {:induction false} RunKeepsInv(s: State, turns: seq<Turn>)
    requires Inv(s)
    ensures Inv(Run(s, turns)) && Run(s, turns).threads.Keys == s.threads.Keys
  {
    if turns != [] {
      var n := |turns| - 1;
      RunKeepsInv(s, turns[..n]);
      var was := Run(s, turns[..n]);
      if turns[n].t in was.threads { StepKeepsInv(was, turns[n].t, turns[n].a); }
    }
  }

  predicate HasLock(s: State, t: Tid)
  {
    t in s.threads && s.threads[t].depth > 0
  }

  // However the threads are interleaved: at most one has the lock, it is the one the mutex and
  // the holder variable name, and between its calls the count is its nesting depth.
  lemma MutualExclusion(tids: set<Tid>, turns: seq<Turn>, t: Tid, u: Tid)
    requires NONE !in tids
    ensures var s := Run(Start(tids), turns);
            && (HasLock(s, t) && HasLock(s, u) ==> t == u)
            && (HasLock(s, t) ==> s.owner == t == s.holder)
            && (HasLock(s, t) && s.threads[t].pc == Idle ==> s.recursion == s.threads[t].depth)
  {
    RunKeepsInv(Start(tids), turns);
  }

  // A thread runs its steps alone.
  function Alone(s: State, t: Tid, first: Action, n: nat): State
    requires t in s.threads
  {
    if n == 0 then s
    else
      var was := Alone(s, t, first, n - 1);
      if t in was.threads then Step(was, t, if n == 1 then first else Advance) else was
  }

  // getlock by a thread that may have it: nested, it only counts; first, it takes the mutex.
  // droplock undoes exactly that, and the mutex is free again when the last one is undone.
  lemma GetThenDrop(s: State, t: Tid)
    requires Inv(s) && t in s.threads && s.threads[t].pc == Idle && s.owner in {NONE, t}
    ensures var deep := s.owner == t;
            var got := Alone(s, t, CallGet, if deep then 4 else 5);
            && t in got.threads && got.threads[t] == Thread(Idle, s.threads[t].depth + 1)
            && got.owner == got.holder == t && got.recursion == s.threads[t].depth + 1
            && (var back := Alone(got, t, CallDrop, if deep then 4 else 6);
                back.threads == s.threads && back.owner == s.owner && back.holder == s.holder
                && (deep ==> back.recursion == s.recursion))
  {
    var me := s.threads[t];
    var s1 := At(s, t, Get);
    assert Alone(s, t, CallGet, 1) == Step(Alone(s, t, CallGet, 0), t, CallGet) == s1;
    if s.owner == t {
      var s2 := At(s1, t, GetOwn);
      assert Alone(s, t, CallGet, 2) == s2;
      var s3 := At(s2, t, GetOwnRead(s.recursion));
      assert Alone(s, t, CallGet, 3) == s3;
      var got := Counted(s3, t, Idle, me.depth + 1, s.recursion + 1);
      assert Alone(s, t, CallGet, 4) == got;
      DropBack(got, t);
      assert Alone(got, t, CallDrop, 4).threads == s.threads;
    } else {
      assert Outside(me);
      var s2 := At(s1, t, GetWait);
      assert Alone(s, t, CallGet, 2) == s2;
      var s3 := At(s2.(owner := t), t, GetLocked);
      assert Alone(s, t, CallGet, 3) == s3;
      var s4 := At(s3.(recursion := 1), t, GetCounted);
      assert Alone(s, t, CallGet, 4) == s4;
      var got := Counted(s4.(holder := t), t, Idle, 1, 1);
      assert Alone(s, t, CallGet, 5) == got;
      DropBack(got, t);
      assert Alone(got, t, CallDrop, 6).threads == s.threads;
    }
  }

  lemma DropBack(s: State, t: Tid)
    requires t in s.threads && s.threads[t].pc == Idle && s.threads[t].depth == s.recursion >= 1
    requires s.owner == s.holder == t
    ensures s.recursion > 1 ==>
              Alone(s, t, CallDrop, 4) == Counted(s, t, Idle, s.threads[t].depth - 1, s.recursion - 1)
    ensures s.recursion == 1 ==>
              Alone(s, t, CallDrop, 6) == Counted(s, t, Idle, 0, 0).(owner := NONE, holder := NONE)
  {
    var d := s.threads[t].depth;
    var s1 := At(s, t, Drop);
    assert Alone(s, t, CallDrop, 1) == Step(Alone(s, t, CallDrop, 0), t, CallDrop) == s1;
    var s2 := At(s1, t, DropRead(s.recursion));
    assert Alone(s, t, CallDrop, 2) == s2;
    var s3 := Counted(s2, t, DropWrote(s.recursion - 1), d - 1, s.recursion - 1);
    assert Alone(s, t, CallDrop, 3) == s3;
    if s.recursion > 1 {
      assert Alone(s, t, CallDrop, 4) == At(s3, t, Idle);
    } else {
      var s4 := At(s3, t, DropHolder);
      assert Alone(s, t, CallDrop, 4) == s4;
      var s5 := At(s4.(holder := NONE), t, DropUnlock);
      assert Alone(s, t, CallDrop, 5) == s5;
      assert Alone(s, t, CallDrop, 6) == At(s5.(owner := NONE), t, Idle);
    }
  }
}
