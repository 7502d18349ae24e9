// What the walk is for.  It computes what step-by-step pathname resolution computes (section
// 4.13 of the Base Definitions of POSIX.1-2017, with names under a non-directory kept as they
// are), its note of what it stands on is always right, and its results are canonical.

module PathResolution {
  import opened PathText
  import opened FileTable
  import opened PathWalk

  // ----- resolution one element at a time -----

  // An element and how many links deep it was found.
  datatype Task = Task(name: string, leave: bool, depth: nat)
  datatype Machine = Machine(comps: seq<string>, todo: seq<Task>)

  function Tasks(elems: seq<Elem>, depth: nat): seq<Task>
  {
    seq(|elems|, i requires 0 <= i < |elems| => Task(elems[i].name, elems[i].leave, depth))
  }

  // What stands at the end of the components; the root is a directory.
  function Standing(env: Env, comps: seq<string>): Kind
  {
    var p := PathOf(env.root, comps);
    if comps == [] then IsDirectory
    else if p !in env.fs then Missing
    else match env.fs[p] case Dir => IsDirectory case Other => IsOther case Link(_) => IsLink
  }

  // The next element is a link below a directory, and not to be left alone.
  predicate FollowsNext(env: Env, m: Machine)
    requires m.todo != []
  {
    && Standing(env, m.comps) == IsDirectory && m.todo[0].name !in {"", ".", ".."} && !m.todo[0].leave
    && Standing(env, m.comps + [m.todo[0].name]) == IsLink
  }

  function TextOf(env: Env, comps: seq<string>): Option<string>
    requires Standing(env, comps) == IsLink
  {
    env.fs[PathOf(env.root, comps)].target
  }

  // The next element does not fit a path, or is a link that cannot be read whole or is nested
  // too deep.
  predicate Stuck(env: Env, m: Machine)
  {
    && m.todo != [] && !(Standing(env, m.comps) == IsDirectory && m.todo[0].name in {"", ".", ".."})
    && (|PathOf(env.root, m.comps)| + |m.todo[0].name| + 3 > env.max
        || (FollowsNext(env, m)
            && (var text := TextOf(env, m.comps + [m.todo[0].name]);
                m.todo[0].depth >= 16 || text.None? || |text.value| > env.max)))
  }

  // One element: an empty name and "." stay, ".." drops the last component but never the root, a
  // link's text is spliced in front of what remains, and anything else is appended.
  function Step(env: Env, m: Machine): Machine
    requires m.todo != [] && !Stuck(env, m)
  {
    var t := m.todo[0];
    var rest := m.todo[1..];
    var dir := Standing(env, m.comps) == IsDirectory;
    if dir && t.name in {"", "."} then Machine(m.comps, rest)
    else if dir && t.name == ".." then Machine(if m.comps == [] then [] else m.comps[..|m.comps| - 1], rest)
    else if FollowsNext(env, m) then
      var text := TextOf(env, m.comps + [t.name]).value;
      Machine(if text != "" && text[0] == '/' then [] else m.comps,
          Tasks(Split(text, |text|, false), t.depth + 1) + rest)
    else Machine(m.comps + [t.name], rest)
  }

  predicate Reaches(env: Env, m: Machine, n: nat, end: Machine)
    decreases n
  {
    if n == 0 then m == end
    else m.todo != [] && !Stuck(env, m) && Reaches(env, Step(env, m), n - 1, end)
  }

  lemma {:induction false} ReachesThen(env: Env, m: Machine, n: nat, mid: Machine, k: nat, end: Machine)
    requires Reaches(env, m, n, mid) && Reaches(env, mid, k, end)
    ensures Reaches(env, m, n + k, end)
    decreases n
  {
    hide Step, Stuck;
    if n > 0 { ReachesThen(env, Step(env, m), n - 1, mid, k, end); }
  }

  // There is one way to end.
  lemma {:induction false} ReachesOnce(env: Env, m: Machine, n: nat, a: Machine, k: nat, b: Machine)
    requires Reaches(env, m, n, a) && Reaches(env, m, k, b)
    requires a.todo == [] || Stuck(env, a)
    requires b.todo == [] || Stuck(env, b)
    ensures a == b
    decreases n
  {
    hide Step;
    if n > 0 && k > 0 { ReachesOnce(env, Step(env, m), n - 1, a, k - 1, b); }
  }

  // ----- what the walk keeps -----

  // Nothing lies below a name that is neither a directory nor a link.
  predicate Tree(env: Env)
  {
    forall q, i | q in env.fs && |env.root| < i < |q| && q[i] == '/' :: KindAt(env.fs, q[..i]) in {IsDirectory, IsLink}
  }

  lemma NothingBelow(env: Env, comps: seq<string>, name: string)
    requires Tree(env) && comps != [] && KindOf(env, comps) in {IsOther, Missing}
    ensures KindOf(env, comps + [name]) == Missing
  {
    var p := PathOf(env.root, comps);
    var q := PathOf(env.root, comps + [name]);
    PathOfPush(env.root, comps, name);
    RootIsPrefix(env.root, comps);
    assert q[|p|] == '/' && q[..|p|] == p;
  }

  predicate OnDirectories(env: Env, comps: seq<string>)
  {
    forall i | 0 <= i < |comps| :: KindOf(env, comps[..i]) == IsDirectory
  }

  predicate PlainName(s: string) { s != "" && s != "." && s != ".." && Slashless(s) }

  // Names that resolution would not have kept stand only below a non-directory.
  predicate OddOnlyBelowFiles(env: Env, comps: seq<string>)
  {
    forall i | 0 <= i < |comps| :: Slashless(comps[i]) && (KindOf(env, comps[..i]) == IsDirectory ==>
        PlainName(comps[i]))
  }

  // The remembered kind is what lstat says, though ".." and links never ask.
  predicate Right(env: Env, st: State)
  {
    && st.kind == KindOf(env, st.comps)
    && (st.kind == IsDirectory ==> OnDirectories(env, st.comps))
    && OddOnlyBelowFiles(env, st.comps)
    && |PathOf(env.root, st.comps)| + 2 <= env.max
  }

  predicate ElemsFit(elems: seq<Elem>)
  {
    && (forall i | 0 <= i < |elems| :: Slashless(elems[i].name))
    && (forall i | 0 <= i < |elems| - 1 :: !elems[i].leave)
  }

  lemma {:induction false} SplitFits(s: string, n: nat, leaveLast: bool)
    requires n <= |s|
    ensures ElemsFit(Split(s, n, leaveLast))
    decreases |s|
  {
    hide ElemsFit, Split;
    var i := SlashIndex(s);
    SplitUnfold(s, n, leaveLast);
    FewFit(Elem(s, leaveLast));
    FewFit(Elem(s[..i], false));
    if n > 0 && i < |s| && i + 1 < n {
      SplitFits(s[i + 1..], n - i - 1, leaveLast);
      ConsFits(Elem(s[..i], false), Split(s[i + 1..], n - i - 1, leaveLast));
    }
  }

  lemma FewFit(e: Elem)
    ensures ElemsFit([]) && (Slashless(e.name) ==> ElemsFit([e]))
  {}

  lemma ConsFits(e: Elem, rest: seq<Elem>)
    requires Slashless(e.name) && !e.leave && ElemsFit(rest)
    ensures ElemsFit([e] + rest)
  {
    var all := [e] + rest;
    assert forall i | 0 < i < |all| :: all[i] == rest[i - 1];
  }

  lemma {:induction false} NothingLeft(s: string, n: nat)
    requires n <= |s|
    ensures forall i | 0 <= i < |Split(s, n, false)| :: !Split(s, n, false)[i].leave
    decreases |s|
  {
    var i := SlashIndex(s);
    if n > 0 && i < |s| && i + 1 < n { NothingLeft(s[i + 1..], n - i - 1); }
  }

  lemma PopKeepsRight(env: Env, st: State)
    requires Right(env, st) && st.kind == IsDirectory
    ensures Right(env, st.(comps := Popped(st.comps)))
  {
    if st.comps != [] {
      var p := Popped(st.comps);
      assert forall i | 0 <= i <= |p| :: p[..i] == st.comps[..i];
      assert p == st.comps[..|p|];
    }
  }

  lemma PushKeepsRight(env: Env, st: State, name: string, exact: bool)
    requires Tree(env) && Right(env, st) && st.kind != IsLink && Slashless(name)
    requires st.kind == IsDirectory ==> !Skipped(name) && name != ".."
    requires |PathOf(env.root, st.comps)| + |name| + 3 <= env.max
    ensures Right(env, State(st.comps + [name], KindOf(env, st.comps + [name]), exact))
    ensures st.kind != IsDirectory ==> KindOf(env, st.comps + [name]) == Missing
  {
    var next := st.comps + [name];
    assert forall i | 0 <= i <= |st.comps| :: next[..i] == st.comps[..i];
    assert st.comps == st.comps[..|st.comps|];
    PathOfPush(env.root, st.comps, name);
    if st.kind != IsDirectory { NothingBelow(env, st.comps, name); }
  }

  lemma LinkStartIsRight(env: Env, st: State, text: string, whole: bool)
    requires Right(env, st) && st.kind == IsDirectory
    ensures Right(env, LinkStart(st, text, whole))
  {
    RootIsPrefix(env.root, st.comps);
  }

  // Appending one element, and what it leaves.
  lemma {:induction false} ElemKeepsRight(env: Env, depth: nat, st: State, e: Elem)
    requires Tree(env) && depth <= MAX_LINKS && Right(env, st) && st.kind != IsLink && Slashless(e.name)
    ensures var o := WalkElem(env, depth, st, e);
            o.Done? && o.st.exact ==> st.exact && Right(env, o.st) && (o.st.kind == IsLink ==> e.leave)
    decreases MAX_LINKS - depth, 0, 0
  {
    hide Right, WalkList, Tree, PathOf, KindAt, Split;
    if !Appends(st, e.name) {
      PopKeepsRight(env, st);
    } else if |PathOf(env.root, st.comps)| + |e.name| + 3 <= env.max {
      PushKeepsRight(env, st, e.name, st.exact);
      RightKind(env, st);
      KindOfPush(env, st.comps, e.name);
      if Follows(env, depth, st, e) {
        var text := LinkText(env, st, e);
        var whole := text == TargetOf(env, st, e).value;
        SplitFits(text, |text|, false);
        NothingLeft(text, |text|);
        LinkStartIsRight(env, st, text, whole);
        ListKeepsRight(env, depth + 1, LinkStart(st, text, whole), Split(text, |text|, false));
      }
    }
  }

  lemma RightKind(env: Env, st: State)
    requires Right(env, st)
    ensures st.kind == KindOf(env, st.comps)
  {}

  lemma KindOfPush(env: Env, comps: seq<string>, name: string)
    ensures KindOf(env, comps + [name]) == KindAt(env.fs, PathOf(env.root, comps + [name]))
  {}

  // While every link met is read whole and followed, the walk is right about where it stands.
  lemma {:induction false} ListKeepsRight(env: Env, depth: nat, st: State, elems: seq<Elem>)
    requires Tree(env) && depth <= MAX_LINKS && Right(env, st) && st.kind != IsLink && ElemsFit(elems)
    ensures var o := WalkList(env, depth, st, elems);
            o.Done? && o.st.exact ==>
              st.exact && Right(env, o.st) && (o.st.kind == IsLink ==> elems != [] && elems[|elems| - 1].leave)
    decreases MAX_LINKS - depth, |elems|, 1
  {
    hide Right, WalkElem, Tree, Slashless;
    if elems != [] {
      var o := WalkElem(env, depth, st, elems[0]);
      ElemKeepsRight(env, depth, st, elems[0]);
      if o.Done? {
        var rest := elems[1..];
        if o.st.exact && o.st.kind != IsLink {
          ListKeepsRight(env, depth, o.st, rest);
        } else if o.st.exact {
          assert rest == [];
        } else {
          ListStaysInexact(env, depth, o.st, rest);
        }
      }
    }
  }

  lemma {:induction false} ElemStaysInexact(env: Env, depth: nat, st: State, e: Elem)
    requires depth <= MAX_LINKS && !st.exact
    ensures var o := WalkElem(env, depth, st, e); o.Done? ==> !o.st.exact
    decreases MAX_LINKS - depth, 0, 0
  {
    hide WalkList;
    if Follows(env, depth, st, e) {
      var text := LinkText(env, st, e);
      ListStaysInexact(env, depth + 1, LinkStart(st, text, text == TargetOf(env, st, e).value),
          Split(text, |text|, false));
    }
  }

  lemma {:induction false} ListStaysInexact(env: Env, depth: nat, st: State, elems: seq<Elem>)
    requires depth <= MAX_LINKS && !st.exact
    ensures var o := WalkList(env, depth, st, elems); o.Done? ==> !o.st.exact
    decreases MAX_LINKS - depth, |elems|, 1
  {
    hide WalkElem;
    if elems != [] {
      ElemStaysInexact(env, depth, st, elems[0]);
      var o := WalkElem(env, depth, st, elems[0]);
      if o.Done? { ListStaysInexact(env, depth, o.st, elems[1..]); }
    }
  }

  // ----- the walk is resolution -----

  function TaskOf(e: Elem, depth: nat): Task { Task(e.name, e.leave, depth) }

  lemma TasksCons(elems: seq<Elem>, depth: nat, rest: seq<Task>)
    requires elems != []
    ensures Tasks(elems, depth) + rest == [TaskOf(elems[0], depth)] + (Tasks(elems[1..], depth) + rest)
  {}

  // The machine sees what the walk sees, where the walk is right.
  lemma SameView(env: Env, depth: nat, st: State, e: Elem, rest: seq<Task>)
    requires Right(env, st)
    ensures var m := Machine(st.comps, [TaskOf(e, depth)] + rest);
            && m.todo[1..] == rest && Standing(env, m.comps) == st.kind
            && (FollowsNext(env, m) <==> Appends(st, e.name) && AtLink(env, st, e))
            && (FollowsNext(env, m) ==> TextOf(env, m.comps + [m.todo[0].name]) == TargetOf(env, st, e))
  {}

  // An element that is not followed is one step.
  lemma PlainStep(env: Env, depth: nat, st: State, e: Elem, rest: seq<Task>)
    requires Right(env, st) && depth <= MAX_LINKS && !(Appends(st, e.name) && AtLink(env, st, e))
    requires WalkElem(env, depth, st, e).Done?
    ensures Reaches(env, Machine(st.comps, [TaskOf(e, depth)] + rest), 1,
            Machine(WalkElem(env, depth, st, e).st.comps, rest))
  {
    var m := Machine(st.comps, [TaskOf(e, depth)] + rest);
    SameView(env, depth, st, e, rest);
    RightKind(env, st);
    hide Right, PathOf;
    assert Step(env, m) == Machine(WalkElem(env, depth, st, e).st.comps, rest);
    assert Reaches(env, Step(env, m), 0, Machine(WalkElem(env, depth, st, e).st.comps, rest));
  }

  // A link followed whole is one step to its spliced text.
  lemma LinkStep(env: Env, depth: nat, st: State, e: Elem, rest: seq<Task>)
    requires Right(env, st) && Appends(st, e.name) && Follows(env, depth, st, e)
    requires |PathOf(env.root, st.comps)| + |e.name| + 3 <= env.max
    requires LinkText(env, st, e) == TargetOf(env, st, e).value
    ensures var text := LinkText(env, st, e);
            var m := Machine(st.comps, [TaskOf(e, depth)] + rest);
            && !Stuck(env, m)
            && Step(env, m) == Machine(LinkStart(st, text, true).comps,
               Tasks(Split(text, |text|, false), depth + 1) + rest)
  {
    SameView(env, depth, st, e, rest);
    hide Right, PathOf, Split;
  }

  lemma {:induction false} ElemSplices(env: Env, depth: nat, st: State, e: Elem, rest: seq<Task>) returns (n: nat)
    requires Tree(env) && depth <= MAX_LINKS && Right(env, st) && st.kind != IsLink && Slashless(e.name)
    requires var o := WalkElem(env, depth, st, e); o.Done? && o.st.exact
    ensures Reaches(env, Machine(st.comps, [TaskOf(e, depth)] + rest), n,
            Machine(WalkElem(env, depth, st, e).st.comps, rest))
    decreases MAX_LINKS - depth, 0, 0
  {
    hide Right, Tree, PathOf, Split, Slashless, Step, Stuck;
    if Appends(st, e.name) && AtLink(env, st, e) {
      var text := LinkText(env, st, e);
      var whole := text == TargetOf(env, st, e).value;
      var st1 := LinkStart(st, text, whole);
      if !whole { ListStaysInexact(env, depth + 1, st1, Split(text, |text|, false)); }
      LinkStep(env, depth, st, e, rest);
      LinkStartIsRight(env, st, text, whole);
      SplitFits(text, |text|, false);
      n := ListSplices(env, depth + 1, st1, Split(text, |text|, false), rest);
      n := n + 1;
    } else {
      PlainStep(env, depth, st, e, rest);
      n := 1;
    }
  }

  lemma {:induction false} ListSplices(env: Env, depth: nat, st: State, elems: seq<Elem>, rest: seq<Task>)
      returns (n: nat)
    requires Tree(env) && depth <= MAX_LINKS && Right(env, st) && (st.kind == IsLink ==> elems == []) && ElemsFit(elems)
    requires var o := WalkList(env, depth, st, elems); o.Done? && o.st.exact
    ensures Reaches(env, Machine(st.comps, Tasks(elems, depth) + rest), n,
            Machine(WalkList(env, depth, st, elems).st.comps, rest))
    decreases MAX_LINKS - depth, |elems|, 1
  {
    hide Right, Tree, WalkElem, Slashless, Reaches;
    if elems == [] {
      n := 0;
      ReachesItself(env, Machine(st.comps, rest));
      assert Tasks(elems, depth) + rest == rest;
    } else {
      var o := WalkElem(env, depth, st, elems[0]);
      if !o.st.exact { ListStaysInexact(env, depth, o.st, elems[1..]); }
      TasksCons(elems, depth, rest);
      ElemKeepsRight(env, depth, st, elems[0]);
      var k := ElemSplices(env, depth, st, elems[0], Tasks(elems[1..], depth) + rest);
      n := ListSplices(env, depth, o.st, elems[1..], rest);
      ReachesThen(env, Machine(st.comps, Tasks(elems, depth) + rest), k,
          Machine(o.st.comps, Tasks(elems[1..], depth) + rest),
                  n, Machine(WalkList(env, depth, st, elems).st.comps, rest));
      n := k + n;
    }
  }

  lemma ReachesItself(env: Env, m: Machine)
    ensures Reaches(env, m, 0, m)
  {}

  // Where the walk gives up on a link, resolution is stuck on it.
  lemma {:induction false} ElemSticks(env: Env, depth: nat, st: State, e: Elem, rest: seq<Task>)
      returns (n: nat, m: Machine)
    requires Tree(env) && depth <= MAX_LINKS && Right(env, st) && st.kind != IsLink && Slashless(e.name)
    requires var o := WalkElem(env, depth, st, e); st.exact && !(o.Done? && o.st.exact)
    ensures Reaches(env, Machine(st.comps, [TaskOf(e, depth)] + rest), n, m) && Stuck(env, m)
    decreases MAX_LINKS - depth, 0, 0
  {
    hide Right, Tree, PathOf, Split, Slashless, Step;
    var m0 := Machine(st.comps, [TaskOf(e, depth)] + rest);
    SameView(env, depth, st, e, rest);
    if |PathOf(env.root, st.comps)| + |e.name| + 3 <= env.max
       && Follows(env, depth, st, e) && LinkText(env, st, e) == TargetOf(env, st, e).value {
      var text := LinkText(env, st, e);
      LinkStep(env, depth, st, e, rest);
      LinkStartIsRight(env, st, text, true);
      SplitFits(text, |text|, false);
      n, m := ListSticks(env, depth + 1, LinkStart(st, text, true), Split(text, |text|, false), rest);
      n := n + 1;
    } else {
      n, m := 0, m0;
    }
  }

  lemma {:induction false} ListSticks(env: Env, depth: nat, st: State, elems: seq<Elem>, rest: seq<Task>)
      returns (n: nat, m: Machine)
    requires Tree(env) && depth <= MAX_LINKS && Right(env, st) && (st.kind == IsLink ==> elems == []) && ElemsFit(elems)
    requires var o := WalkList(env, depth, st, elems); st.exact && !(o.Done? && o.st.exact)
    ensures Reaches(env, Machine(st.comps, Tasks(elems, depth) + rest), n, m) && Stuck(env, m)
    decreases MAX_LINKS - depth, |elems|, 1
  {
    hide Right, Tree, WalkElem, Slashless, Reaches, Stuck;
    var o := WalkElem(env, depth, st, elems[0]);
    var later := Tasks(elems[1..], depth) + rest;
    TasksCons(elems, depth, rest);
    if o.Done? && o.st.exact {
      ElemKeepsRight(env, depth, st, elems[0]);
      var k := ElemSplices(env, depth, st, elems[0], later);
      n, m := ListSticks(env, depth, o.st, elems[1..], rest);
      ReachesThen(env, Machine(st.comps, Tasks(elems, depth) + rest), k, Machine(o.st.comps, later), n, m);
      n := k + n;
    } else {
      n, m := ElemSticks(env, depth, st, elems[0], later);
    }
  }

  // Resolution of m ends on exactly these components.
  ghost predicate Resolves(env: Env, m: Machine, comps: seq<string>)
  {
    exists n :: Reaches(env, m, n, Machine(comps, []))
  }

  // The start of a call: a base whose directories are directories and that is not itself a link.
  predicate StartsRight(fs: Fs, max: nat, q: Query)
    requires Sane(q)
  {
    var env := EnvOf(fs, max, q);
    Tree(env) && Right(env, State(StartOf(q), KindOf(env, StartOf(q)), true)) && KindOf(env, StartOf(q)) != IsLink
  }

  function MachineOf(q: Query): Machine
    requires Sane(q)
  {
    Machine(StartOf(q), Tasks(Split(q.path, |Trimmed(q.path)|, q.leaveLast), 0))
  }

  // The walk succeeds without giving anything up, on given components, exactly when resolution
  // ends there: no link loops, is nested more than 16 deep or cannot be read, and every prefix
  // on the way fits a path.
  lemma WalkIsResolution(fs: Fs, max: nat, q: Query, comps: seq<string>)
    requires Sane(q) && StartsRight(fs, max, q)
    ensures var o := WalkOf(fs, max, q);
            Resolves(EnvOf(fs, max, q), MachineOf(q), comps) <==> o.Done? && o.st.exact && comps == o.st.comps
  {
    var env := EnvOf(fs, max, q);
    var st := State(StartOf(q), KindOf(env, StartOf(q)), true);
    var elems := Split(q.path, |Trimmed(q.path)|, q.leaveLast);
    var o := WalkOf(fs, max, q);
    var m0 := MachineOf(q);
    hide Right, Tree, Split, Step, Reaches, StartOf, KindOf, Stuck, WalkList;
    SplitFits(q.path, |Trimmed(q.path)|, q.leaveLast);
    assert Tasks(elems, 0) + [] == Tasks(elems, 0);
    var n, m;
    if o.Done? && o.st.exact {
      n := ListSplices(env, 0, st, elems, []);
      m := Machine(o.st.comps, []);
    } else {
      n, m := ListSticks(env, 0, st, elems, []);
    }
    if Resolves(env, m0, comps) {
      var k :| Reaches(env, m0, k, Machine(comps, []));
      ReachesOnce(env, m0, n, m, k, Machine(comps, []));
      StuckHasWork(env, m);
    }
  }

  lemma StuckHasWork(env: Env, m: Machine)
    ensures Stuck(env, m) ==> m.todo != []
  {}
}
