// Canonical paths: what the walk produces, and what it leaves alone.

module PathCanonical {
  import opened PathText
  import opened FileTable
  import opened PathWalk
  import opened PathResolution

  // No empty, "." or ".." component, no link or file on the way, and no link at the end.
  predicate Canonical(env: Env, comps: seq<string>)
  {
    && (forall i | 0 <= i < |comps| :: PlainName(comps[i]))
    && OnDirectories(env, comps)
    && KindOf(env, comps) != IsLink
  }

  // The whole call produces canonical components whenever everything before the last one is a
  // directory and no link is left at the end; in particular whenever it ends on a directory.
  lemma ResultIsCanonical(fs: Fs, max: nat, q: Query)
    requires Sane(q) && StartsRight(fs, max, q) && WalkOf(fs, max, q).Done? && WalkOf(fs, max, q).st.exact
    ensures var env := EnvOf(fs, max, q);
            var st := WalkOf(fs, max, q).st;
            && (Canonical(env, st.comps) <==> OnDirectories(env, st.comps) && KindOf(env, st.comps) != IsLink)
            && (KindOf(env, st.comps) == IsDirectory ==> Canonical(env, st.comps))
            && (!q.leaveLast ==> KindOf(env, st.comps) != IsLink)
  {
    var env := EnvOf(fs, max, q);
    var elems := Split(q.path, |Trimmed(q.path)|, q.leaveLast);
    SplitFits(q.path, |Trimmed(q.path)|, q.leaveLast);
    if !q.leaveLast { NothingLeft(q.path, |Trimmed(q.path)|); }
    hide Tree, Split, WalkList;
    ListKeepsRight(env, 0, State(StartOf(q), KindOf(env, StartOf(q)), true), elems);
    RightIsCanonical(env, WalkOf(fs, max, q).st);
  }

  lemma RightIsCanonical(env: Env, st: State)
    requires Right(env, st)
    ensures OnDirectories(env, st.comps) && KindOf(env, st.comps) != IsLink ==> Canonical(env, st.comps)
    ensures KindOf(env, st.comps) == IsDirectory ==> OnDirectories(env, st.comps)
    ensures st.kind == KindOf(env, st.comps)
  {}

  // ----- canonical text -----

  function Join(comps: seq<string>): string
  {
    if comps == [] then "" else "/" + comps[0] + Join(comps[1..])
  }

  lemma {:induction false} PathOfJoin(root: string, pre: seq<string>, comps: seq<string>)
    ensures PathOf(root, pre + comps) == PathOf(root, pre) + Join(comps)
    decreases |comps|
  {
    hide PathOf;
    if comps == [] {
      assert pre + comps == pre;
    } else {
      var name := comps[0];
      assert pre + comps == (pre + [name]) + comps[1..];
      PathOfJoin(root, pre + [name], comps[1..]);
      PathOfPush(root, pre, name);
      Regroup(PathOf(root, pre), name, Join(comps[1..]));
    }
  }

  lemma Regroup(a: string, b: string, c: string)
    ensures (a + "/" + b) + c == a + ("/" + b + c)
  {}

  predicate AllPlain(comps: seq<string>) { forall i | 0 <= i < |comps| :: PlainName(comps[i]) }

  predicate Tail(s: string) { s == "" || s == "/" }

  // Canonical text splits back into its components; only the last may be left alone.
  ghost predicate Spelled(elems: seq<Elem>, comps: seq<string>)
  {
    && |elems| == |comps|
    && (forall i | 0 <= i < |comps| :: elems[i].name == comps[i] && (i < |comps| - 1 ==> !elems[i].leave))
  }

  lemma SlashAt(s: string, i: nat)
    requires i <= |s| && Slashless(s[..i]) && (i < |s| ==> s[i] == '/')
    ensures SlashIndex(s) == i
  {
    assert forall j | 0 <= j < i :: s[j] == s[..i][j];
  }

  // One name and the slash after it come off the front.
  lemma SplitHead(c: string, more: string, n: nat, leaveLast: bool)
    requires Slashless(c) && |c| + 1 < n <= |c| + 1 + |more|
    ensures Split(c + "/" + more, n, leaveLast) == [Elem(c, false)] + Split(more, n - |c| - 1, leaveLast)
  {
    hide Split, Slashless;
    var s := c + "/" + more;
    assert s[..|c|] == c && s[|c| + 1..] == more && s[|c|] == '/';
    SlashAt(s, |c|);
    SplitUnfold(s, n, leaveLast);
  }

  lemma SplitOne(c: string, tail: string, leaveLast: bool)
    requires Slashless(c) && c != "" && Tail(tail)
    ensures Split(c + tail, |c|, leaveLast) == [Elem(c, leaveLast && tail == "")]
  {
    hide Split, Slashless;
    var s := c + tail;
    assert s[..|c|] == c;
    SlashAt(s, |c|);
    SplitUnfold(s, |c|, leaveLast);
    assert tail == "" ==> s == c;
  }

  lemma {:induction false} SplitJoin(c: string, rest: seq<string>, tail: string, leaveLast: bool)
    requires PlainName(c) && AllPlain(rest) && Tail(tail)
    ensures var n := |c + Join(rest)|; Spelled(Split(c + Join(rest) + tail, n, leaveLast), [c] + rest)
    decreases |rest|
  {
    hide Split;
    if rest == [] {
      SplitOne(c, tail, leaveLast);
      assert c + Join(rest) == c;
    } else {
      var c1, later := rest[0], rest[1..];
      var more := c1 + Join(later);
      assert c + Join(rest) == c + "/" + more && (c + "/" + more) + tail == c + "/" + (more + tail);
      assert [c1] + later == rest;
      SplitJoin(c1, later, tail, leaveLast);
      SplitHead(c, more + tail, |c| + 1 + |more|, leaveLast);
      SpelledCons(c, Split(more + tail, |more|, leaveLast), rest);
    }
  }

  lemma SpelledCons(c: string, elems: seq<Elem>, comps: seq<string>)
    requires Spelled(elems, comps)
    ensures Spelled([Elem(c, false)] + elems, [c] + comps)
  {
    var all := [Elem(c, false)] + elems;
    assert forall i | 0 < i < |all| :: all[i] == elems[i - 1];
    assert forall i | 0 < i < |all| :: ([c] + comps)[i] == comps[i - 1];
  }

  // ----- canonicalising again -----

  // Walking canonical components from anywhere along them arrives at the end of them.
  lemma {:induction false} WalkCanonical(env: Env, comps: seq<string>, k: nat, elems: seq<Elem>)
    requires Canonical(env, comps) && k <= |comps| && Spelled(elems, comps[k..])
    requires |PathOf(env.root, comps)| + 2 <= env.max
    ensures WalkList(env, 0, State(comps[..k], KindOf(env, comps[..k]), true), elems)
         == Done(State(comps, KindOf(env, comps), true))
    decreases |comps| - k
  {
    if k == |comps| {
      assert comps[..k] == comps;
    } else {
      var st := State(comps[..k], KindOf(env, comps[..k]), true);
      CanonicalStep(env, comps, k, elems[0]);
      assert Spelled(elems[1..], comps[k + 1..]);
      hide PathOf, WalkList, WalkElem, KindOf, Canonical, Spelled;
      WalkCanonical(env, comps, k + 1, elems[1..]);
      OneStep(env, st, elems);
    }
  }

  lemma CanonicalStep(env: Env, comps: seq<string>, k: nat, e: Elem)
    requires Canonical(env, comps) && k < |comps| && e.name == comps[k] && (k < |comps| - 1 ==> !e.leave)
    requires |PathOf(env.root, comps)| + 2 <= env.max
    ensures WalkElem(env, 0, State(comps[..k], KindOf(env, comps[..k]), true), e)
            == Done(State(comps[..k + 1], KindOf(env, comps[..k + 1]), true))
  {
    assert comps[..k] + [comps[k]] == comps[..k + 1];
    assert k + 1 == |comps| ==> comps[..k + 1] == comps;
    PrefixFits(env, comps, k + 1);
    PathOfPush(env.root, comps[..k], comps[k]);
    hide PathOf, KindAt;
  }

  lemma OneStep(env: Env, st: State, elems: seq<Elem>)
    requires elems != [] && WalkElem(env, 0, st, elems[0]).Done?
    ensures WalkList(env, 0, st, elems) == WalkList(env, 0, WalkElem(env, 0, st, elems[0]).st, elems[1..])
  {}

  lemma {:induction false} PrefixFits(env: Env, comps: seq<string>, k: nat)
    requires k <= |comps|
    ensures |PathOf(env.root, comps[..k])| <= |PathOf(env.root, comps)|
    decreases |comps|
  {
    if k < |comps| {
      var less := comps[..|comps| - 1];
      assert less[..k] == comps[..k];
      PrefixFits(env, less, k);
    } else {
      assert comps[..k] == comps;
    }
  }

  lemma {:induction false} JoinEnds(comps: seq<string>)
    requires comps != [] && AllPlain(comps)
    ensures |Join(comps)| > 1 && !EndsInSlash(Join(comps))
    decreases |comps|
  {
    var c, rest := comps[0], comps[1..];
    if rest == [] {
      assert Join(comps) == "/" + c;
    } else {
      JoinEnds(rest);
      var s := Join(comps);
      assert s[|s| - 1] == Join(rest)[|Join(rest)| - 1];
    }
  }

  lemma TrimTail(s: string, tail: string)
    requires !EndsInSlash(s) && Tail(tail)
    ensures Trimmed(s + tail) == s
  {
    assert (s + "/")[..|s|] == s && s + "" == s;
  }

  // Walking the text of canonical components, from the root.
  lemma WalkJoin(env: Env, comps: seq<string>, tail: string, leaveLast: bool)
    requires Canonical(env, comps) && comps != [] && Tail(tail) && |PathOf(env.root, comps)| + 2 <= env.max
    ensures WalkList(env, 0, State([], IsDirectory, true), Split(Join(comps) + tail, |Join(comps)|, leaveLast))
         == Done(State(comps, KindOf(env, comps), true))
  {
    hide Split, PathOf, KindAt;
    var c, rest := comps[0], comps[1..];
    var more := c + Join(rest);
    assert AllPlain(rest) && [c] + rest == comps;
    assert Join(comps) == "" + "/" + more && Join(comps) + tail == "" + "/" + (more + tail);
    SplitJoin(c, rest, tail, leaveLast);
    SplitHead("", more + tail, |Join(comps)|, leaveLast);
    var elems := Split(more + tail, |more|, leaveLast);
    assert comps[0..] == comps && comps[..0] == [];
    WalkCanonical(env, comps, 0, elems);
    hide Canonical, Spelled, Join;
    var st := State([], IsDirectory, true);
    var all := [Elem("", false)] + elems;
    assert all[1..] == elems && WalkElem(env, 0, st, all[0]) == Done(st);
    OneStep(env, st, all);
  }

  // The result as a path of its own, below the same root.
  function Again(q: Query, text: string, leaveLast: bool): Query
    requires Sane(q) && RootOf(q) <= text
  {
    Query(RootOf(q), text[|RootOf(q)|..], |RootOf(q)|, leaveLast)
  }

  lemma AgainIsSane(q: Query, text: string, leaveLast: bool)
    requires Sane(q) && RootOf(q) <= text && RootOf(q) != text
    ensures var r := Again(q, text, leaveLast);
            Sane(r) && RootOf(r) == BaseOf(r) == RootOf(q) && StartOf(r) == []
  {
    var r := Again(q, text, leaveLast);
    assert r.base[..r.rootlen] == r.base;
    assert RootOf(q) != "" ==> RootOf(q)[0] == q.base[0];
    assert q.rootlen == |q.base| ==> q.base[..q.rootlen] == q.base;
    assert RootOf(r)[|RootOf(r)|..] == "";
  }

  lemma JoinText(root: string, comps: seq<string>, tail: string)
    requires AllPlain(comps) && Tail(tail) && (comps == [] ==> tail == "/")
    ensures PathOf(root, comps) + tail == root + (Join(comps) + tail) && PathOf(root, comps) == root + Join(comps)
    ensures Trimmed(Join(comps) + tail) == Join(comps)
    ensures EndsInSlash(Join(comps) + tail) <==> tail == "/"
  {
    hide PathOf, Trimmed, Join;
    PathOfJoin(root, [], comps);
    PathOfRoot(root);
    assert [] + comps == comps;
    if comps != [] { JoinEnds(comps); }
    TrimTail(Join(comps), tail);
    assert tail == "" ==> Join(comps) + tail == Join(comps);
  }

  lemma PathOfRoot(root: string)
    ensures PathOf(root, []) == root && Join([]) == ""
  {}

  // Canonical text below a root is left as it is.
  lemma FixCanonical(fs: Fs, max: nat, r: Query, comps: seq<string>, tail: string)
    requires Sane(r) && RootOf(r) == BaseOf(r) == r.base && StartOf(r) == []
    requires Tail(tail) && (comps == [] ==> tail == "/") && r.path == Join(comps) + tail
    requires Canonical(EnvOf(fs, max, r), comps) && |PathOf(RootOf(r), comps)| + 2 <= max
    ensures FixPath(fs, max, r) == Fixed(r.base + r.path)
  {
    var env := EnvOf(fs, max, r);
    assert AllPlain(comps);
    JoinText(r.base, comps, tail);
    hide Canonical, WalkList, Split, StartOf, KindAt, PathOf, Join, Trimmed;
    if comps == [] {
      PathOfRoot(r.base);
      WalkNothing(env, r.path, r.leaveLast);
    } else {
      WalkJoin(env, comps, tail, r.leaveLast);
    }
  }

  // Canonicalising a canonical result changes nothing, whether or not links are followed.
  lemma FixTwice(fs: Fs, max: nat, q: Query, leaveLast: bool)
    requires Sane(q) && StartsRight(fs, max, q) && FixPath(fs, max, q).Fixed?
    requires WalkOf(fs, max, q).st.exact && Canonical(EnvOf(fs, max, q), WalkOf(fs, max, q).st.comps)
    ensures var text := FixPath(fs, max, q).text;
            RootOf(q) <= text && RootOf(q) != text && Sane(Again(q, text, leaveLast))
            && FixPath(fs, max, Again(q, text, leaveLast)) == Fixed(text)
  {
    var comps := WalkOf(fs, max, q).st.comps;
    var text := FixPath(fs, max, q).text;
    var tail := if comps == [] || EndsInSlash(q.path) then "/" else "";
    ResultFits(fs, max, q);
    assert AllPlain(comps);
    hide WalkOf, StartOf, StartsRight, Canonical, PathOf, Join, Trimmed;
    JoinText(RootOf(q), comps, tail);
    AgainIsSane(q, text, leaveLast);
    FixCanonical(fs, max, Again(q, text, leaveLast), comps, tail);
  }

  lemma WalkNothing(env: Env, path: string, leaveLast: bool)
    ensures WalkList(env, 0, State([], IsDirectory, true), Split(path, 0, leaveLast))
            == Done(State([], KindOf(env, []), true))
  {}

  lemma ResultFits(fs: Fs, max: nat, q: Query)
    requires Sane(q) && StartsRight(fs, max, q) && WalkOf(fs, max, q).Done? && WalkOf(fs, max, q).st.exact
    ensures |PathOf(RootOf(q), WalkOf(fs, max, q).st.comps)| + 2 <= max
  {
    var env := EnvOf(fs, max, q);
    SplitFits(q.path, |Trimmed(q.path)|, q.leaveLast);
    hide Tree, Split, WalkList;
    ListKeepsRight(env, 0, State(StartOf(q), KindOf(env, StartOf(q)), true),
        Split(q.path, |Trimmed(q.path)|, q.leaveLast));
  }

  // ----- below a non-directory -----

  // Once the walk stands on something that is neither a directory nor a link, what remains is
  // kept as it is written, empty names and dots included.
  lemma {:induction false} KeptBelowFiles(env: Env, depth: nat, st: State, elems: seq<Elem>)
    requires Tree(env) && depth <= MAX_LINKS && st.comps != []
    requires st.kind == KindOf(env, st.comps) && st.kind in {IsOther, Missing}
    requires WalkList(env, depth, st, elems).Done?
    ensures var end := WalkList(env, depth, st, elems).st;
            && PathOf(env.root, end.comps) == PathOf(env.root, st.comps) + Join(Names(elems))
            && end.exact == st.exact && (elems != [] ==> end.kind == Missing)
    decreases |elems|
  {
    hide Tree, PathOf;
    if elems != [] {
      var e := elems[0];
      var next := State(st.comps + [e.name], Missing, st.exact);
      NothingBelow(env, st.comps, e.name);
      assert WalkElem(env, depth, st, e) == Done(next);
      KeptBelowFiles(env, depth, next, elems[1..]);
      PathOfPush(env.root, st.comps, e.name);
      assert Names(elems)[1..] == Names(elems[1..]);
      Regroup(PathOf(env.root, st.comps), e.name, Join(Names(elems[1..])));
    }
  }
}
