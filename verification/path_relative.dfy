// Where a path starts: a relative path means what it means below its base.

module PathRelative {
  import opened PathText
  import opened FileTable
  import opened PathWalk
  import opened PathResolution
  import opened PathCanonical

  // The walk starts on the base, unless an absolute path starts over above no root.
  lemma StartIsBase(q: Query)
    requires Sane(q)
    ensures var base := if q.base == "/" then "" else q.base;
            if q.path == "" || q.path[0] != '/' || q.rootlen > 1
            then PathOf(RootOf(q), StartOf(q)) == base else StartOf(q) == []
  {
    hide PathOf, CompsOf;
    var root := RootOf(q);
    var base := BaseOf(q);
    LoneSlash(q);
    if base != "" {
      CompsSpell(root, base[|root|..]);
      assert root + base[|root|..] == base;
    } else {
      PathOfRoot(root);
    }
  }

  lemma LoneSlash(q: Query)
    requires Sane(q)
    ensures |q.base| == 1 ==> q.base == "/"
  {
    assert |q.base| == 1 ==> q.base == [q.base[0]];
  }

  // The same path from the root on: root and base are the texts they are.
  function FromRoot(q: Query): Query
    requires Sane(q)
  {
    if q.base in {"", "/"} then Query("", "/" + q.path, 0, q.leaveLast)
    else
      var n := if q.rootlen == 1 then 0 else q.rootlen;
      Query(q.base[..n], q.base[n..] + "/" + q.path, n, q.leaveLast)
  }

  predicate IsRelative(path: string) { path != "" && path[0] != '/' }

  lemma {:induction false} TrimmedAppend(pre: string, s: string)
    requires Trimmed(s) != ""
    ensures Trimmed(pre + s) == pre + Trimmed(s)
    decreases |s|
  {
    if s[|s| - 1] == '/' {
      assert (pre + s)[..|pre + s| - 1] == pre + s[..|s| - 1];
      TrimmedAppend(pre, s[..|s| - 1]);
    } else {
      assert (pre + s)[|pre + s| - 1] == s[|s| - 1];
    }
  }

  lemma {:induction false} TrimmedKeepsFirst(s: string)
    requires IsRelative(s)
    ensures Trimmed(s) != ""
    decreases |s|
  {
    if s[|s| - 1] == '/' { TrimmedKeepsFirst(s[..|s| - 1]); }
  }

  // Elements of the base, all to be followed.
  function Elems(comps: seq<string>): seq<Elem>
  {
    seq(|comps|, i requires 0 <= i < |comps| => Elem(comps[i], false))
  }

  lemma {:induction false} SplitBelow(comps: seq<string>, more: string, n: nat, leaveLast: bool)
    requires AllPlain(comps) && 0 < n <= |more|
    ensures Split(Join(comps) + "/" + more, |Join(comps)| + 1 + n, leaveLast)
            == [Elem("", false)] + Elems(comps) + Split(more, n, leaveLast)
    decreases |comps|
  {
    var e := Elem("", false);
    ElemsCons(comps);
    JoinCons(comps);
    JoinStarts(comps);
    hide Split, Join, Elems;
    if comps == [] {
      assert Join(comps) + "/" + more == "" + "/" + more;
      SplitHead("", more, n + 1, leaveLast);
    } else {
      var c, rest := comps[0], comps[1..];
      var tail := Join(rest) + "/" + more;
      JoinCons(rest);
      JoinStarts(rest);
      Spelling(c, Join(rest), more);
      SplitBelow(rest, more, n, leaveLast);
      SplitName(c, tail, |Join(rest)| + 1 + n, leaveLast);
      SplitHead("", c + tail, |Join(comps)| + 1 + n, leaveLast);
      Glue(e, Elem(c, false), Split(tail[1..], |Join(rest)| + n, leaveLast), Elems(rest), Split(more, n, leaveLast));
    }
  }

  lemma Spelling(c: string, rest: string, more: string)
    ensures ("/" + c + rest) + "/" + more == "" + "/" + (c + (rest + "/" + more))
  {}

  lemma Glue(e: Elem, c: Elem, later: seq<Elem>, rest: seq<Elem>, more: seq<Elem>)
    requires [e] + later == [e] + rest + more
    ensures [e] + ([c] + later) == [e] + ([c] + rest) + more
  {
    assert ([e] + later)[1..] == later && ([e] + rest + more)[1..] == rest + more;
  }

  lemma ElemsCons(comps: seq<string>)
    ensures Elems(comps) == if comps == [] then [] else [Elem(comps[0], false)] + Elems(comps[1..])
  {}

  lemma JoinCons(comps: seq<string>)
    ensures Join(comps) == if comps == [] then "" else "/" + comps[0] + Join(comps[1..])
  {}

  lemma JoinStarts(comps: seq<string>)
    ensures comps != [] ==> Join(comps) != "" && Join(comps)[0] == '/'
  {}

  // A name in front of text that starts with a slash.
  lemma SplitName(c: string, tail: string, n: nat, leaveLast: bool)
    requires PlainName(c) && tail != "" && tail[0] == '/' && 1 < n <= |tail|
    ensures Split(c + tail, |c| + n, leaveLast) == [Elem(c, false)] + Split(tail[1..], n - 1, leaveLast)
    ensures Split(tail, n, leaveLast) == [Elem("", false)] + Split(tail[1..], n - 1, leaveLast)
  {
    hide Split;
    assert Slashless("") && Slashless(c);
    hide Slashless;
    var more := tail[1..];
    assert c + tail == c + "/" + more;
    SplitHead(c, more, |c| + n, leaveLast);
    assert tail == "" + "/" + more;
    SplitHead("", more, n, leaveLast);
  }

  lemma {:induction false} WalkAppend(env: Env, st: State, a: seq<Elem>, b: seq<Elem>)
    ensures WalkList(env, 0, st, a + b) ==
            match WalkList(env, 0, st, a) case Fail => Fail case Done(st1) => WalkList(env, 0, st1, b)
    decreases |a|
  {
    hide WalkElem;
    if a == [] {
      assert a + b == b;
    } else {
      assert (a + b)[1..] == a[1..] + b;
      var o := WalkElem(env, 0, st, a[0]);
      if o.Done? { WalkAppend(env, o.st, a[1..], b); }
    }
  }

  // Down the base from the root.
  lemma WalkDown(env: Env, comps: seq<string>)
    requires Canonical(env, comps) && |PathOf(env.root, comps)| + 2 <= env.max
    ensures WalkList(env, 0, State([], IsDirectory, true), [Elem("", false)] + Elems(comps))
            == Done(State(comps, KindOf(env, comps), true))
  {
    hide Canonical, PathOf;
    var st := State([], IsDirectory, true);
    var all := [Elem("", false)] + Elems(comps);
    assert all[1..] == Elems(comps) && WalkElem(env, 0, st, all[0]) == Done(st);
    OneStep(env, st, all);
    assert comps[0..] == comps && comps[..0] == [];
    WalkCanonical(env, comps, 0, Elems(comps));
  }

  lemma FromRootIsSane(q: Query)
    requires Sane(q)
    ensures var a := FromRoot(q);
            && Sane(a) && RootOf(a) == BaseOf(a) == RootOf(q) && StartOf(a) == []
            && a.path == BaseOf(q)[|RootOf(q)|..] + "/" + q.path && a.leaveLast == q.leaveLast
  {
    if q.base in {"", "/"} {
      assert RootOf(q) == "" && BaseOf(q) == "";
    } else {
      LoneSlash(q);
      var a := FromRoot(q);
      assert a.base[..a.rootlen] == a.base;
      assert q.rootlen == |q.base| ==> q.base[..q.rootlen] == q.base;
      assert RootOf(a)[|RootOf(a)|..] == "";
    }
  }

  lemma {:induction false} JoinComps(root: string, comps: seq<string>, text: string)
    requires PathOf(root, comps) == root + text
    ensures Join(comps) == text
  {
    PathOfJoin(root, [], comps);
    PathOfRoot(root);
    assert [] + comps == comps;
    assert (root + Join(comps))[|root|..] == (root + text)[|root|..];
  }

  // A relative path below a canonical base is the absolute path made of both, below the same
  // root, whenever that fits.
  lemma RelativeIsBelowBase(fs: Fs, max: nat, q: Query)
    requires Sane(q) && IsRelative(q.path) && Canonical(EnvOf(fs, max, q), StartOf(q))
    requires |BaseOf(q)| + 1 + |q.path| < max
    ensures Sane(FromRoot(q)) && FixPath(fs, max, q) == FixPath(fs, max, FromRoot(q))
  {
    hide Canonical, Split, WalkList, StartOf, Join, Trimmed, PathOf, KindOf, EndsInSlash;
    var a := FromRoot(q);
    var env := EnvOf(fs, max, q);
    var comps := StartOf(q);
    FromRootIsSane(q);
    StartIsBase(q);
    RootInFront(q);
    TrimmedKeepsFirst(q.path);
    var text := BaseOf(q)[|RootOf(q)|..];
    hide Sane, FromRoot, RootOf, BaseOf;
    JoinComps(RootOf(q), comps, text);
    TrimmedAppend(text + "/", q.path);
    SameWalk(env, comps, q.path, q.leaveLast);
    RootIsDirectory(env);
    assert WalkOf(fs, max, a) == WalkOf(fs, max, q);
    EndOfBoth(text, q.path);
    hide WalkOf;
    SameFix(fs, max, q, a);
  }

  lemma SameFix(fs: Fs, max: nat, q: Query, a: Query)
    requires Sane(q) && Sane(a) && RootOf(a) == RootOf(q) && EndsInSlash(a.path) == EndsInSlash(q.path)
    requires WalkOf(fs, max, a) == WalkOf(fs, max, q)
    requires |q.path| + |BaseOf(q)| < max && |a.path| + |BaseOf(a)| < max
    ensures FixPath(fs, max, q) == FixPath(fs, max, a)
  {
    hide WalkOf;
  }

  lemma RootInFront(q: Query)
    requires Sane(q)
    ensures |RootOf(q)| <= |BaseOf(q)| <= |q.base| && RootOf(q) + BaseOf(q)[|RootOf(q)|..] == BaseOf(q)
    ensures BaseOf(q) == if q.base == "/" then "" else q.base
  {
    LoneSlash(q);
  }

  lemma EndOfBoth(text: string, path: string)
    requires path != ""
    ensures EndsInSlash(text + "/" + path) == EndsInSlash(path)
  {}

  lemma CanonicalIsPlain(env: Env, comps: seq<string>)
    requires Canonical(env, comps)
    ensures AllPlain(comps)
  {}

  lemma SameWalk(env: Env, comps: seq<string>, path: string, leaveLast: bool)
    requires Canonical(env, comps) && Trimmed(path) != "" && |PathOf(env.root, comps)| + 2 <= env.max
    ensures var n := |Trimmed(path)|;
            WalkList(env, 0, State([], IsDirectory, true),
                     Split(Join(comps) + "/" + path, |Join(comps)| + 1 + n, leaveLast))
            == WalkList(env, 0, State(comps, KindOf(env, comps), true), Split(path, n, leaveLast))
  {
    hide Canonical, Split, WalkList, Join, PathOf, Trimmed, KindOf, AllPlain, Elems;
    CanonicalIsPlain(env, comps);
    var n := |Trimmed(path)|;
    SplitBelow(comps, path, n, leaveLast);
    WalkDown(env, comps);
    WalkAppend(env, State([], IsDirectory, true), [Elem("", false)] + Elems(comps), Split(path, n, leaveLast));
  }

  lemma RootIsDirectory(env: Env)
    ensures KindOf(env, []) == IsDirectory
  {}

  // A slash at the end stays, and there is no other but the root's.
  lemma SlashKept(fs: Fs, max: nat, q: Query)
    requires Sane(q) && FixPath(fs, max, q).Fixed? && AllPlain(WalkOf(fs, max, q).st.comps)
    ensures EndsInSlash(FixPath(fs, max, q).text) <==> EndsInSlash(q.path) || WalkOf(fs, max, q).st.comps == []
  {
    hide WalkOf, PathOf, AllPlain, EndsInSlash;
    var comps := WalkOf(fs, max, q).st.comps;
    var text := PathOf(RootOf(q), comps);
    if comps != [] { PlainEnds(RootOf(q), comps); }
    EndsInOne(text);
    assert text + "" == text;
  }

  lemma EndsInOne(s: string)
    ensures EndsInSlash(s + "/")
  {}

  lemma PlainEnds(root: string, comps: seq<string>)
    requires comps != [] && AllPlain(comps)
    ensures !EndsInSlash(PathOf(root, comps))
  {
    var last := comps[|comps| - 1];
    assert PlainName(last);
    var before := PathOf(root, comps[..|comps| - 1]);
    var s := before + "/" + last;
    assert s[|s| - 1] == last[|last| - 1];
  }

  // ----- a single name -----

  // Where one name leads from a directory: "." stays, ".." leads to the parent but not above the
  // root, and any other name to the entry itself, a link that is to be left alone included.
  function Entry(comps: seq<string>, name: string): seq<string>
  {
    if name == "." then comps
    else if name == ".." then if comps == [] then [] else comps[..|comps| - 1]
    else comps + [name]
  }

  lemma OneName(fs: Fs, max: nat, q: Query)
    requires Sane(q) && q.path != "" && Slashless(q.path) && KindOf(EnvOf(fs, max, q), StartOf(q)) == IsDirectory
    requires |PathOf(RootOf(q), StartOf(q))| + |q.path| + 3 <= max && |BaseOf(q)| + |q.path| < max
    requires q.path in {".", ".."} || q.leaveLast
             || KindAt(fs, PathOf(RootOf(q), StartOf(q) + [q.path])) != IsLink
    ensures var comps := Entry(StartOf(q), q.path);
            FixPath(fs, max, q) == Fixed(PathOf(RootOf(q), comps) + if comps == [] then "/" else "")
  {
    hide PathOf, StartOf, KindAt, Sane;
    var env := EnvOf(fs, max, q);
    var st := State(StartOf(q), KindOf(env, StartOf(q)), true);
    TrimOne(q.path);
    SplitOne(q.path, "", q.leaveLast);
    assert q.path + "" == q.path;
    var e := Elem(q.path, q.leaveLast);
    assert WalkElem(env, 0, st, e).Done? && WalkElem(env, 0, st, e).st.comps == Entry(st.comps, q.path);
    OneStep(env, st, [e]);
    assert [e][1..] == [];
  }

  lemma TrimOne(s: string)
    requires s != "" && Slashless(s)
    ensures Trimmed(s) == s && !EndsInSlash(s)
  {
    assert s[|s| - 1] != '/';
  }
}
