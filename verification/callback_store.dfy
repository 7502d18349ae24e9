// The callbacks of nested nftw walks, kept by all threads in one array.  Each thread sees its own
// stack: the last entry it put in is the one it finds and the one it takes out.

module CallbackStore {

  type Tid = int
  datatype Entry = Entry(tid: Tid, callback: int, flags: int)

  // The entries of one thread, oldest first.
  function StackOf(s: seq<Entry>, t: Tid): seq<Entry>
  {
    if s == [] then []
    else StackOf(s[..|s| - 1], t) + if s[|s| - 1].tid == t then [s[|s| - 1]] else []
  }

  lemma {:induction false} StackAppend(s: seq<Entry>, r: seq<Entry>, t: Tid)
    ensures StackOf(s + r, t) == StackOf(s, t) + StackOf(r, t)
  {
    if r == [] {
      assert s + r == s;
    } else {
      var less := r[..|r| - 1];
      assert (s + r)[..|s + r| - 1] == s + less;
      StackAppend(s, less, t);
    }
  }

  lemma {:induction false} StackOfOthers(s: seq<Entry>, t: Tid)
    requires forall i | 0 <= i < |s| :: s[i].tid != t
    ensures StackOf(s, t) == []
  {
    if s != [] { StackOfOthers(s[..|s| - 1], t); }
  }

  // The last entry of a thread is the top of its stack; without it, the stack is one shorter.
  lemma TopIsLast(s: seq<Entry>, k: nat, t: Tid)
    requires k < |s| && s[k].tid == t && forall i | k < i < |s| :: s[i].tid != t
    ensures StackOf(s, t) == StackOf(s[..k], t) + [s[k]]
    ensures StackOf(s[..k] + s[k + 1..], t) == StackOf(s[..k], t)
    ensures forall u | u != t :: StackOf(s[..k] + s[k + 1..], u) == StackOf(s, u)
  {
    var before, after := s[..k], s[k + 1..];
    assert s == before + [s[k]] + after;
    StackOfOthers(after, t);
    StackAppend(before + [s[k]], after, t);
    StackAppend(before, after, t);
    StackAppend(before, [s[k]], t);
    One(s[k], t);
    forall u | u != t
      ensures StackOf(before + after, u) == StackOf(s, u)
    {
      StackAppend(before + [s[k]], after, u);
      StackAppend(before, after, u);
      StackAppend(before, [s[k]], u);
      One(s[k], u);
      assert StackOf(before, u) + [] == StackOf(before, u);
    }
  }

  lemma One(e: Entry, t: Tid)
    ensures StackOf([e], t) == if e.tid == t then [e] else []
  {
    assert [e][..0] == [];
  }

  class Store {
    var entries: array<Entry>
    var size: nat

    ghost predicate Valid()
      reads this
    {
      size == entries.Length
    }

    ghost function Contents(): seq<Entry>
      reads this, entries
    {
      entries[..]
    }

    constructor ()
      ensures Valid() && Contents() == [] && fresh(entries)
    {
      entries := new Entry[0];
      size := 0;
    }

    method Append(e: Entry)
      requires Valid()
      modifies this
      ensures Valid() && fresh(entries) && Contents() == old(Contents()) + [e]
      ensures StackOf(Contents(), e.tid) == old(StackOf(Contents(), e.tid)) + [e]
      ensures forall u | u != e.tid :: StackOf(Contents(), u) == old(StackOf(Contents(), u))
    {
      ghost var was := Contents();
      size := size + 1;
      var bigger := new Entry[size];
      forall i | 0 <= i < size - 1 { bigger[i] := entries[i]; }
      bigger[size - 1] := e;
      entries := bigger;
      assert Contents() == was + [e];
      assert (was + [e])[..|was|] == was;
    }

    // The newest entry of the thread that asks.
    method Find(tid: Tid) returns (found: bool, target: Entry)
      requires Valid()
      ensures found <==> StackOf(Contents(), tid) != []
      ensures found ==> var s := StackOf(Contents(), tid); target == s[|s| - 1]
    {
      target := Entry(tid, 0, 0);
      var i := size - 1;
      while i >= 0
        invariant -1 <= i < size && forall j | i < j < size :: entries[j].tid != tid
      {
        if entries[i].tid == tid {
          TopIsLast(Contents(), i, tid);
          return true, entries[i];
        }
        i := i - 1;
      }
      StackOfOthers(Contents(), tid);
      return false, target;
    }

    // Takes out the newest entry of the thread that asks, and nothing if it has none.
    method Delete(tid: Tid)
      requires Valid()
      modifies this, entries
      ensures Valid() && (entries == old(entries) || fresh(entries))
      ensures var s := old(StackOf(Contents(), tid));
              if s == [] then Contents() == old(Contents()) else StackOf(Contents(), tid) == s[..|s| - 1]
      ensures forall u | u != tid :: StackOf(Contents(), u) == old(StackOf(Contents(), u))
    {
      ghost var was := Contents();
      if size == 1 {
        One(entries[0], tid);
        assert was == [entries[0]];
        if entries[0].tid == tid {
          TopIsLast(was, 0, tid);
          entries := new Entry[0];
          size := 0;
          assert Contents() == was[..0] + was[1..];
        }
        return;
      }
      var foundIdx := -1;
      var i := size - 1;
      while i >= 0
        invariant -1 <= i < size && forall j | i < j < size :: entries[j].tid != tid
        invariant foundIdx == -1
      {
        if entries[i].tid == tid {
          foundIdx := i;
          break;
        }
        i := i - 1;
      }
      if foundIdx == -1 {
        StackOfOthers(was, tid);
        return;
      }
      TopIsLast(was, foundIdx, tid);
      RemoveAt(foundIdx);
    }

    // Shift left, then shrink by one.
    method RemoveAt(k: nat)
      requires Valid() && k < size
      modifies this, entries
      ensures Valid() && fresh(entries) && Contents() == old(Contents())[..k] + old(Contents())[k + 1..]
    {
      ghost var was := Contents();
      var i := k + 1;
      while i < size
        invariant k < i <= size == entries.Length && entries == old(entries)
        invariant forall j | 0 <= j < k :: entries[j] == was[j]
        invariant forall j | k <= j < i - 1 :: entries[j] == was[j + 1]
        invariant forall j | i <= j < size :: entries[j] == was[j]
      {
        entries[i - 1] := entries[i];
        i := i + 1;
      }
      size := size - 1;
      var smaller := new Entry[size];
      forall j | 0 <= j < size { smaller[j] := entries[j]; }
      entries := smaller;
      assert Contents() == was[..k] + was[k + 1..];
    }
  }

  // ----- any interleaving of any number of threads -----

  datatype Step = Push(e: Entry) | Pop(tid: Tid) | Look(tid: Tid)

  function Actor(s: Step): Tid
  {
    match s case Push(e) => e.tid case Pop(t) => t case Look(t) => t
  }

  // What a step does to the stack of thread t: only its own steps matter.
  function Own(was: seq<Entry>, s: Step, t: Tid): seq<Entry>
  {
    match s
    case Push(e) => if e.tid == t then was + [e] else was
    case Pop(u) => if u == t && was != [] then was[..|was| - 1] else was
    case Look(_) => was
  }

  function OwnStack(steps: seq<Step>, t: Tid): seq<Entry>
  {
    if steps == [] then [] else Own(OwnStack(steps[..|steps| - 1], t), steps[|steps| - 1], t)
  }

  function View(stack: seq<Entry>, s: Step): seq<Entry>
  {
    if s.Look? && stack != [] then [stack[|stack| - 1]] else []
  }

  // What the thread of the i-th step sees if it looks.
  function Seen(steps: seq<Step>, i: nat): seq<Entry>
    requires i < |steps|
  {
    View(OwnStack(steps[..i], Actor(steps[i])), steps[i])
  }

  lemma OwnStackNext(steps: seq<Step>, i: nat, t: Tid)
    requires i < |steps|
    ensures OwnStack(steps[..i + 1], t) == Own(OwnStack(steps[..i], t), steps[i], t)
  {
    assert steps[..i + 1][..i] == steps[..i];
  }

  method Take(store: Store, s: Step) returns (view: seq<Entry>)
    requires store.Valid()
    modifies store, store.entries
    ensures store.Valid() && (store.entries == old(store.entries) || fresh(store.entries))
    ensures view == View(old(StackOf(store.Contents(), Actor(s))), s)
    ensures forall t :: StackOf(store.Contents(), t) == Own(old(StackOf(store.Contents(), t)), s, t)
  {
    hide StackOf;
    view := [];
    match s {
      case Push(e) => store.Append(e);
      case Pop(t) => store.Delete(t);
      case Look(t) =>
        var found, target := store.Find(t);
        if found { view := [target]; }
    }
  }

  // Every thread finds what it would find in a store of its own.
  method Interleave(steps: seq<Step>) returns (store: Store, seen: seq<seq<Entry>>)
    ensures |seen| == |steps| && forall i | 0 <= i < |steps| :: seen[i] == Seen(steps, i)
    ensures forall t :: StackOf(store.Contents(), t) == OwnStack(steps, t)
  {
    hide StackOf, OwnStack, Own, View;
    store := new Store();
    seen := [];
    NothingYet(steps);
    while |seen| < |steps|
      invariant |seen| <= |steps| && store.Valid() && fresh(store) && fresh(store.entries)
      invariant forall i | 0 <= i < |seen| :: seen[i] == Seen(steps, i)
      invariant forall t :: StackOf(store.Contents(), t) == OwnStack(steps[..|seen|], t)
      decreases |steps| - |seen|
    {
      var i := |seen|;
      forall t { OwnStackNext(steps, i, t); }
      var view := Take(store, steps[i]);
      seen := seen + [view];
    }
    assert steps[..|seen|] == steps;
  }

  lemma NothingYet(steps: seq<Step>)
    ensures forall t :: StackOf([], t) == OwnStack(steps[..0], t)
  {}

  // ----- what a thread sees of its nested walks -----

  predicate NotBy(steps: seq<Step>, t: Tid)
  {
    forall i | 0 <= i < |steps| :: Actor(steps[i]) != t
  }

  lemma {:induction false} OthersDoNotMatter(pre: seq<Step>, others: seq<Step>, t: Tid)
    requires NotBy(others, t)
    ensures OwnStack(pre + others, t) == OwnStack(pre, t)
  {
    if others == [] {
      assert pre + others == pre;
    } else {
      var less := others[..|others| - 1];
      assert (pre + others)[..|pre + others| - 1] == pre + less;
      OthersDoNotMatter(pre, less, t);
    }
  }

  lemma OwnStackSnoc(steps: seq<Step>, s: Step, t: Tid)
    ensures OwnStack(steps + [s], t) == Own(OwnStack(steps, t), s, t)
  {
    assert (steps + [s])[..|steps|] == steps;
  }

  // A thread that starts a walk finds that walk's callback until it ends it, whatever other
  // threads do in the meantime.
  lemma FindsItsOwn(pre: seq<Step>, e: Entry, others: seq<Step>)
    requires NotBy(others, e.tid)
    ensures var steps := pre + [Push(e)] + others + [Look(e.tid)]; Seen(steps, |steps| - 1) == [e]
  {
    var steps := pre + [Push(e)] + others + [Look(e.tid)];
    assert steps[..|steps| - 1] == pre + [Push(e)] + others;
    OthersDoNotMatter(pre + [Push(e)], others, e.tid);
    OwnStackSnoc(pre, Push(e), e.tid);
  }

  // Afterwards it finds again what it would have found before.
  lemma FindsTheOuterOne(pre: seq<Step>, e: Entry, others: seq<Step>, later: seq<Step>)
    requires NotBy(others, e.tid) && NotBy(later, e.tid)
    ensures var steps := pre + [Push(e)] + others + [Pop(e.tid)] + later + [Look(e.tid)];
            Seen(steps, |steps| - 1) == Seen(pre + [Look(e.tid)], |pre|)
  {
    var walked := pre + [Push(e)] + others;
    var steps := walked + [Pop(e.tid)] + later + [Look(e.tid)];
    assert steps[..|steps| - 1] == walked + [Pop(e.tid)] + later;
    assert (pre + [Look(e.tid)])[..|pre|] == pre;
    OwnStackSnoc(pre, Push(e), e.tid);
    OthersDoNotMatter(pre + [Push(e)], others, e.tid);
    OwnStackSnoc(walked, Pop(e.tid), e.tid);
    OthersDoNotMatter(walked + [Pop(e.tid)], later, e.tid);
  }
}
