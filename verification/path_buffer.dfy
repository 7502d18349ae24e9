// The path buffer itself: characters edited in place behind a moving end, a shared note of what
// the text now names, and the counter of links being followed.

module PathBuffers {
  import opened PathText
  import opened FileTable
  import opened PathWalk

  // No path or link text holds a NUL.
  predicate FsText(fs: Fs)
  {
    forall p | p in fs :: fs[p].Link? && fs[p].target.Some? ==> NulFree(fs[p].target.value)
  }

  class PathBuffer {
    const fs: Fs
    const buf: array<char>
    const rootLen: nat
    var current: nat
    var mode: Kind
    var linkRecursion: nat

    // A base that leaves room for its NUL only, and to which nothing is added.
    ghost const tight: bool

    // What the characters spell.
    ghost const root: string
    ghost var comps: seq<string>
    ghost var exact: bool

    ghost predicate Spells()
      reads this`current, this`comps, buf
    {
      && |root| == rootLen && FsText(fs)
      && rootLen <= current && current + (if tight then 1 else 2) <= buf.Length
      && buf[..current] == PathOf(root, comps) && buf[current] == '\0' && NulFree(buf[..current])
      && forall e | e in comps :: Slashless(e)
    }

    ghost predicate Valid()
      reads this`current, this`comps, this`linkRecursion, buf
    {
      Spells() && linkRecursion <= MAX_LINKS
    }

    ghost function Here(): State
      reads this`comps, this`mode, this`exact
    {
      State(comps, mode, exact)
    }

    ghost function Env(): Env
    {
      PathWalk.Env(fs, root, buf.Length)
    }

    // The base is already in the buffer.
    constructor (fs: Fs, buf: array<char>, rootLen: nat, current: nat)
      requires FsText(fs) && rootLen <= current < buf.Length
      requires NulFree(buf[..current]) && buf[current] == '\0' && (rootLen < current ==> buf[rootLen] == '/')
      ensures Valid() && linkRecursion == 0 && exact && mode == Missing && this.fs == fs && this.buf == buf
      ensures this.rootLen == rootLen && this.current == current && root == buf[..rootLen]
      ensures comps == CompsOf(buf[rootLen..current])
      ensures tight == (current + 1 == buf.Length)
    {
      this.fs, this.buf, this.rootLen, this.current := fs, buf, rootLen, current;
      root := buf[..rootLen];
      comps := CompsOf(buf[rootLen..current]);
      exact := true;
      tight := current + 1 == buf.Length;
      mode := Missing;
      linkRecursion := 0;
      new;
      CompsSpell(root, buf[rootLen..current]);
      assert buf[..current] == buf[..rootLen] + buf[rootLen..current];
    }

    // The root is a directory without asking.
    method StatBase()
      requires Valid()
      modifies this`mode
      ensures Valid() && mode == KindOf(Env(), comps)
    {
      RootIsPrefix(root, comps);
      if current > rootLen { mode := Lstat(); } else { mode := IsDirectory; }
    }

    method Lstat() returns (k: Kind)
      requires Spells()
      ensures k == KindAt(fs, PathOf(root, comps))
    {
      CStringOf(buf[..], current);
      assert buf[..][..current] == buf[..current];
      k := KindAt(fs, CString(buf[..]));
    }

    // Back to the slash before the last element.
    method Backtrack()
      requires Valid()
      modifies this`current, this`comps, buf
      ensures Valid() && comps == Popped(old(comps))
    {
      RootIsPrefix(root, comps);
      if current <= rootLen { return; }
      ghost var kept := PathOf(root, Popped(comps));
      ghost var last := comps[|comps| - 1];
      RootIsPrefix(root, Popped(comps));
      assert buf[..current] == kept + "/" + last;
      assert buf[..current][|kept|] == '/';
      assert last in comps;
      assert forall j | |kept| < j < current :: buf[..current][j] == last[j - |kept| - 1];
      assert buf[|kept|] == '/' && forall j | |kept| < j <= current :: buf[j] != '/';
      var at := current;
      while at > rootLen && buf[at] != '/'
        invariant |kept| <= at <= current
      {
        at := at - 1;
      }
      assert buf[..at] == buf[..current][..at] == kept;
      buf[at] := '\0';
      current := at;
      comps := Popped(comps);
    }

    // One more slash and element.
    method Extend(element: string)
      requires Valid() && Slashless(element) && NulFree(element) && current + |element| + 3 <= buf.Length
      modifies this`current, this`comps, buf
      ensures Valid() && comps == old(comps) + [element] && current == old(current) + |element| + 1
    {
      ghost var was := buf[..current];
      buf[current] := '/';
      current := current + 1;
      var start := current;
      forall i | 0 <= i < |element| { buf[start + i] := element[i]; }
      current := current + |element|;
      buf[current] := '\0';
      comps := comps + [element];
      assert buf[..current] == was + "/" + element;
      assert comps[..|comps| - 1] == old(comps);
    }

    // Cut the text back to a shorter stack.
    method CutTo(n: nat, ghost kept: seq<string>)
      requires Valid() && n <= current && buf[..n] == PathOf(root, kept) && forall e | e in kept :: Slashless(e)
      modifies this`current, this`comps, buf
      ensures Valid() && comps == kept
    {
      RootIsPrefix(root, kept);
      assert forall i | 0 <= i < n :: buf[i] == buf[..current][i];
      current := n;
      buf[current] := '\0';
      comps := kept;
    }

    method CutToRoot()
      requires Valid()
      modifies this`current, this`comps, buf
      ensures Valid() && comps == []
    {
      RootIsPrefix(root, comps);
      assert buf[..rootLen] == buf[..current][..rootLen];
      CutTo(rootLen, []);
    }

    method CutElement(element: string, ghost dir: seq<string>)
      requires Valid() && comps == dir + [element]
      modifies this`current, this`comps, buf
      ensures Valid() && comps == dir
    {
      PathOfPush(root, dir, element);
      assert buf[..current] == PathOf(root, dir) + "/" + element;
      var n := current - (|element| + 1);
      assert buf[..n] == buf[..current][..n];
      assert forall e | e in dir :: e in comps;
      CutTo(n, dir);
    }

    lemma Length()
      requires Valid()
      ensures current == |PathOf(root, comps)|
    {
      assert |buf[..current]| == current;
    }

    // The root never changes, and the end never moves into it.
    lemma Confined()
      requires Valid()
      ensures rootLen <= current && buf[..rootLen] == root && (comps == [] <==> current == rootLen)
    {
      RootIsPrefix(root, comps);
      assert buf[..rootLen] == buf[..current][..rootLen];
    }

    // The rest of the walk after a link has been read: on its text, from the root or from the
    // directory that held it.
    method Follow(text: string, ghost whole: bool, element: string, ghost dir: seq<string>) returns (retval: int)
      requires Valid() && linkRecursion < MAX_LINKS && NulFree(text)
      requires comps == dir + [element]
      modifies this`current, this`comps, this`mode, this`exact, this`linkRecursion, buf
      decreases MAX_LINKS - linkRecursion, 0
      ensures Valid() && linkRecursion == old(linkRecursion)
      ensures Ends(retval, WalkList(Env(), linkRecursion + 1,
                     LinkStart(State(dir, IsDirectory, old(exact)), text, whole), Split(text, |text|, false)))
    {
      hide WalkList, Split, PathOf, NulFree, Slashless;
      if text != "" && text[0] == '/' {
        CutToRoot();
      } else {
        CutElement(element, dir);
      }
      mode := IsDirectory;
      exact := exact && whole;
      linkRecursion := linkRecursion + 1;
      retval := AppendElements(text, |text|, false);
      linkRecursion := linkRecursion - 1;
    }

    ghost predicate Ends(retval: int, o: Outcome)
      reads this
    {
      match o
      case Fail => retval == -1
      case Done(st) => retval != -1 && Here() == st
    }

    method AppendElement(element: string, leaveThis: bool) returns (retval: int)
      requires Valid() && Slashless(element) && NulFree(element)
      modifies this`current, this`comps, this`mode, this`exact, this`linkRecursion, buf
      decreases MAX_LINKS - linkRecursion, 2
      ensures Valid() && linkRecursion == old(linkRecursion)
      ensures Ends(retval, WalkElem(Env(), linkRecursion, old(Here()), Elem(element, leaveThis)))
    {
      hide WalkLink, Spells, Slashless, NulFree, PathOf;
      Length();
      var isDir := mode == IsDirectory;
      if isDir {
        if |element| == 0 || (|element| == 1 && element[0] == '.') { return 0; }
        if |element| == 2 && element[0] == '.' && element[1] == '.' {
          Backtrack();
          return 1;
        }
      }
      if current + |element| + 3 > buf.Length { return -1; }
      ghost var dir := comps;
      Extend(element);
      mode := Lstat();
      if !leaveThis && isDir && mode == IsLink { retval := FollowLink(element, dir); } else { retval := 1; }
    }

    // The element just added is a link that should be followed.
    method FollowLink(element: string, ghost dir: seq<string>) returns (retval: int)
      requires Valid() && mode == IsLink == KindAt(fs, PathOf(root, comps)) && comps == dir + [element]
      modifies this`current, this`comps, this`mode, this`exact, this`linkRecursion, buf
      decreases MAX_LINKS - linkRecursion, 1
      ensures Valid() && linkRecursion == old(linkRecursion)
      ensures var st := State(dir, IsDirectory, old(exact)); var e := Elem(element, false);
              if Follows(Env(), linkRecursion, st, e)
              then Ends(retval, WalkLink(Env(), linkRecursion, st, e))
              else retval != -1 && Here() == State(old(comps), IsLink, false)
    {
      hide WalkList, Split, PathOf;
      if linkRecursion >= MAX_LINKS {
        exact := false;
        return 1;
      }
      var target := ReadLink();
      if target.None? {
        exact := false;
        return 0;
      }
      var text := Truncated(target.value, buf.Length);
      retval := Follow(text, text == target.value, element, dir);
    }

    // A trailing slash, if there was one or if nothing is left but the root.
    method Finish(trailingSlash: bool) returns (end: nat)
      requires Valid() && (tight ==> comps != [] && !trailingSlash)
      modifies buf
      ensures end < buf.Length && buf[end] == '\0' && NulFree(buf[..end]) && buf[..rootLen] == root
      ensures buf[..end] == PathOf(root, comps) + if comps == [] || trailingSlash then "/" else ""
    {
      RootIsPrefix(root, comps);
      Confined();
      ghost var text := buf[..current];
      end := current;
      if current == rootLen || trailingSlash {
        if current < buf.Length {
          buf[current] := '/';
          end := current + 1;
          buf[end] := '\0';
          assert buf[..end] == text + "/";
        }
      }
      assert buf[..rootLen] == text[..rootLen];
    }

    method ReadLink() returns (target: Option<string>)
      requires Spells() && KindAt(fs, PathOf(root, comps)) == IsLink
      ensures target == fs[PathOf(root, comps)].target && (target.Some? ==> NulFree(target.value))
    {
      CStringOf(buf[..], current);
      assert buf[..][..current] == buf[..current];
      target := fs[CString(buf[..])].target;
    }

    method AppendElements(path: string, elen: nat, leaveLast: bool) returns (retval: int)
      requires Valid() && elen <= |path| && NulFree(path)
      modifies this`current, this`comps, this`mode, this`exact, this`linkRecursion, buf
      decreases MAX_LINKS - linkRecursion, 3
      ensures Valid() && linkRecursion == old(linkRecursion)
      ensures Ends(retval, WalkList(Env(), linkRecursion, old(Here()), Split(path, elen, leaveLast)))
    {
      hide WalkElem, WalkList, Split, Spells, Slashless, NulFree, Names;
      ghost var env := Env();
      ghost var depth := linkRecursion;
      ghost var want := WalkList(env, depth, Here(), Split(path, elen, leaveLast));
      ghost var todo := Split(path, elen, leaveLast);
      SplitAll(path, elen, leaveLast);
      retval := 1;
      var at := 0;
      while at < elen
        invariant Valid() && linkRecursion == depth && retval == 1
        invariant todo == if at < elen then Split(path[at..], elen - at, leaveLast) else []
        invariant WalkList(env, depth, Here(), todo) == want
      {
        var next := at + SlashIndex(path[at..]);
        var leaveThis := next == |path| && leaveLast;
        SplitNext(path, at, elen, leaveLast);
        NextIsName(path, at);
        ghost var rest := if next + 1 < elen then Split(path[next + 1..], elen - next - 1, leaveLast) else [];
        WalkListStep(env, depth, Here(), Elem(path[at..next], leaveThis), rest);
        var rc := AppendElement(path[at..next], leaveThis);
        if rc == -1 {
          retval := -1;
          return;
        }
        at := next + 1;
        todo := rest;
      }
      WalkListEmpty(env, depth, Here());
    }
  }

  lemma WalkListStep(env: Env, depth: nat, st: State, e: Elem, rest: seq<Elem>)
    requires depth <= MAX_LINKS
    ensures WalkList(env, depth, st, [e] + rest) ==
            match WalkElem(env, depth, st, e) case Fail => Fail case Done(st1) => WalkList(env, depth, st1, rest)
  {
    assert ([e] + rest)[1..] == rest;
  }

  lemma WalkListEmpty(env: Env, depth: nat, st: State)
    requires depth <= MAX_LINKS
    ensures WalkList(env, depth, st, []) == Done(st)
  {}

  // Looking for the next slash takes one element off the list.
  lemma SplitNext(path: string, at: nat, elen: nat, leaveLast: bool)
    requires at < elen <= |path|
    ensures var next := at + SlashIndex(path[at..]);
            && at <= next <= |path|
            && Split(path[at..], elen - at, leaveLast) ==
               [Elem(path[at..next], next == |path| && leaveLast)]
               + (if next + 1 < elen then Split(path[next + 1..], elen - next - 1, leaveLast) else [])
  {
    hide Split;
    var s := path[at..];
    var i := SlashIndex(s);
    SplitUnfold(s, elen - at, leaveLast);
    assert path[at..at + i] == s[..i];
    if i < |s| {
      assert s[i + 1..] == path[at + i + 1..];
    } else {
      assert s[..i] == s;
    }
  }

  lemma NextIsName(path: string, at: nat)
    requires at <= |path| && NulFree(path)
    ensures var next := at + SlashIndex(path[at..]);
            next <= |path| && Slashless(path[at..next]) && NulFree(path[at..next])
  {
    var s := path[at..];
    var i := SlashIndex(s);
    assert forall j | 0 <= j < i :: s[j] == path[at + j];
  }

  lemma SplitAll(path: string, elen: nat, leaveLast: bool)
    requires elen <= |path|
    ensures Split(path, elen, leaveLast) == if 0 < elen then Split(path[0..], elen - 0, leaveLast) else []
  {
    assert path[0..] == path;
  }

  // Copy the base, unless the path starts over.
  method LoadBase(buf: array<char>, q: Query, baselen: nat, rootlen: nat) returns (current: nat)
    requires Sane(q) && NulFree(q.base) && baselen < buf.Length && baselen == |BaseOf(q)| && rootlen == |RootOf(q)|
    modifies buf
    ensures rootlen <= current < buf.Length && (current == baselen || current == 0)
    ensures buf[..current] ==
            if q.path == "" || q.path[0] != '/' || rootlen > 0 then if q.base == "/" then "" else q.base else ""
    ensures buf[current] == '\0' && NulFree(buf[..current]) && (rootlen < current ==> buf[rootlen] == '/')
    ensures buf[..rootlen] == RootOf(q) && CompsOf(buf[rootlen..current]) == StartOf(q)
  {
    current := 0;
    assert |q.base| == 1 ==> q.base == [q.base[0]];
    if baselen > 0 && (|q.path| == 0 || q.path[0] != '/' || rootlen > 0) {
      forall i | 0 <= i < baselen { buf[i] := q.base[i]; }
      current := baselen;
      assert buf[..baselen] == q.base;
      assert buf[..rootlen] == q.base[..rootlen] && buf[rootlen..baselen] == q.base[rootlen..];
    }
    buf[current] := '\0';
  }

  // Trailing slashes are dropped, and remembered.
  method Trim(path: string) returns (pathlen: nat, trailingSlash: bool)
    ensures pathlen <= |path| && path[..pathlen] == Trimmed(path) && trailingSlash == EndsInSlash(path)
  {
    pathlen := |path|;
    trailingSlash := false;
    assert path[..pathlen] == path;
    while pathlen > 0 && path[pathlen - 1] == '/'
      invariant 0 <= pathlen <= |path| && Trimmed(path[..pathlen]) == Trimmed(path)
      invariant trailingSlash == (pathlen < |path|)
      invariant trailingSlash ==> EndsInSlash(path)
    {
      trailingSlash := true;
      pathlen := pathlen - 1;
      assert path[..pathlen + 1][..pathlen] == path[..pathlen];
    }
    assert Trimmed(path[..pathlen]) == path[..pathlen];
  }

  predicate Holds(buf: array<char>, len: nat, text: string)
    reads buf
  {
    len == |text| < buf.Length && buf[..len] == text && buf[len] == '\0' && NulFree(text)
  }

  // An empty path takes a base that leaves no room for more than its NUL, if no slash has to be
  // added to it.
  predicate Fits(q: Query, size: nat)
    requires Sane(q)
  {
    |BaseOf(q)| + 2 <= size || (q.path == "" && |RootOf(q)| < |BaseOf(q)| && |BaseOf(q)| + 1 == size)
  }

  method FixFitting(fs: Fs, buf: array<char>, q: Query, baselen: nat, rootlen: nat) returns (result: Fixed, len: nat)
    requires Sane(q) && NulFree(q.base) && NulFree(q.path) && FsText(fs)
    requires Fits(q, buf.Length) && baselen == |BaseOf(q)| && rootlen == |RootOf(q)|
    modifies buf
    ensures result == Finished(q, WalkOf(fs, buf.Length, q)) && !result.TooLong?
    ensures result.Fixed? ==> Holds(buf, len, result.text)
    ensures buf[..rootlen] == RootOf(q)
  {
    hide WalkList, Split, Trimmed, StartOf, CompsOf, KindOf, EndsInSlash, FsText, PathOf, PathBuffer.Spells;
    var pathlen, trailingSlash := Trim(q.path);
    var current := LoadBase(buf, q, baselen, rootlen);
    var b := new PathBuffer(fs, buf, rootlen, current);
    b.StatBase();
    ghost var st := b.Here();
    b.Confined();
    assert b.tight ==> q.path == "" && b.comps != [];
    var rc := b.AppendElements(q.path, pathlen, q.leaveLast);
    b.Confined();
    if rc == -1 { return Failed, 0; }
    if q.path == "" { NothingAdded(b.Env(), b.linkRecursion, st, q); }
    len := b.Finish(trailingSlash);
    result := Fixed(buf[..len]);
  }

  lemma NothingAdded(env: Env, depth: nat, st: State, q: Query)
    requires depth <= MAX_LINKS && q.path == ""
    ensures WalkList(env, depth, st, Split(q.path, |Trimmed(q.path)|, q.leaveLast)) == Done(st) && !EndsInSlash(q.path)
  {}

  // The whole call, on a buffer of the system's longest path.  The one call left out is that of
  // an empty path next to a base that is the root itself and fills the buffer up to its NUL: the
  // slash it needs would have no room.
  method PseudoFixPath(fs: Fs, buf: array<char>, q: Query) returns (result: Fixed, len: nat)
    requires Sane(q) && NulFree(q.base) && NulFree(q.path) && FsText(fs)
    requires !(q.path == "" && BaseOf(q) == RootOf(q) && |BaseOf(q)| + 1 == buf.Length)
    modifies buf
    ensures result == FixPath(fs, buf.Length, q)
    ensures result.Fixed? ==> Holds(buf, len, result.text)
    ensures !result.TooLong? ==> buf[..|RootOf(q)|] == RootOf(q)
  {
    var baselen := if |q.base| == 1 then 0 else |q.base|;
    var rootlen := if q.rootlen == 1 then 0 else q.rootlen;
    if |q.path| + baselen >= buf.Length { return TooLong(q.path), 0; }
    RootInBase(q);
    result, len := FixFitting(fs, buf, q, baselen, rootlen);
  }

  lemma RootInBase(q: Query)
    requires Sane(q)
    ensures |RootOf(q)| <= |BaseOf(q)| && (|RootOf(q)| == |BaseOf(q)| ==> RootOf(q) == BaseOf(q))
  {}
}
