// Choosing what a path is relative to: a directory descriptor, the working directory, or the
// emulated root, and handing the two to the canonicaliser.

module BasePath {
  import opened PathText
  import opened FileTable
  import opened PathWalk
  import opened PathBuffers
  import opened PathCanonical
  import opened PathRelative

  // What the client knows: its emulated root ("" without one), its working directory and the
  // paths of its descriptors.
  datatype Client = Client(chroot: string, cwd: string, fds: map<int, string>)

  const AT_FDCWD: int := -100

  datatype Based = NoPath | Same(text: string) | Canon(result: Fixed)

  // Text of a directory as the client keeps it.
  predicate DirText(s: string)
  {
    s != "" && s[0] == '/' && (s == "/" || !EndsInSlash(s)) && NulFree(s)
  }

  predicate Knows(c: Client)
  {
    && (c.chroot == "" || (DirText(c.chroot) && c.chroot != "/"))
    && DirText(c.cwd) && (forall fd | fd in c.fds :: fd >= 0 && DirText(c.fds[fd]))
  }

  // base is root or one of its descendants.
  predicate Under(root: string, base: string)
  {
    root != "" && |base| >= |root| && base[..|root|] == root && (|base| == |root| || base[|root|] == '/')
  }

  predicate AtCwd(dirfd: int) { dirfd == -1 || dirfd == AT_FDCWD }

  // The path canonicalised on a base, which a root above it confines.
  function Resolved(fs: Fs, max: nat, c: Client, base: string, path: string, leaveLast: bool): Based
    requires Knows(c) && (base == c.chroot || DirText(base))
  {
    var q := Query(base, path, if Under(c.chroot, base) then |c.chroot| else 0, leaveLast);
    BelowIsSane(c, q);
    Canon(FixPath(fs, max, q))
  }

  lemma BelowIsSane(c: Client, q: Query)
    requires Knows(c) && (q.base == c.chroot || DirText(q.base))
    requires q.rootlen == if Under(c.chroot, q.base) then |c.chroot| else 0
    ensures Sane(q) && RootOf(q) == if Under(c.chroot, q.base) then c.chroot else ""
    ensures NulFree(q.base)
  {}

  // An absolute path is taken from the emulated root, a relative one from the working directory
  // or from a descriptor that is known.  Below an emulated root a path of any form comes out
  // below that root: an absolute path always, a relative one when its directory is below it.
  method FindBasePath(fs: Fs, buf: array<char>, c: Client, dirfd: int, path: string, leaveLast: bool) returns (r: Based)
    requires Knows(c) && NulFree(path) && FsText(fs)
    modifies buf
    ensures path == "" && AtCwd(dirfd) ==> r == Same("")
    ensures path == "" && !AtCwd(dirfd) ==> r == if dirfd in c.fds then Same(c.fds[dirfd]) else NoPath
    ensures path != "" && path[0] == '/' ==> r == Resolved(fs, buf.Length, c, c.chroot, path, leaveLast)
    ensures path != "" && path[0] != '/' && AtCwd(dirfd) ==> r == Resolved(fs, buf.Length, c, c.cwd, path, leaveLast)
    ensures path != "" && path[0] != '/' && !AtCwd(dirfd) ==>
              r == if dirfd in c.fds then Resolved(fs, buf.Length, c, c.fds[dirfd], path, leaveLast) else NoPath
    ensures r.Canon? && r.result.Fixed? && c.chroot != "" && path != "" && path[0] == '/' ==>
              Under(c.chroot, r.result.text)
    ensures r.Canon? && r.result.Fixed? && path != "" && path[0] != '/' && AtCwd(dirfd) && Under(c.chroot, c.cwd) ==>
              Under(c.chroot, r.result.text)
    ensures r.Canon? && r.result.Fixed? && path != "" && path[0] != '/' && !AtCwd(dirfd) ==>
              (Under(c.chroot, c.fds[dirfd]) ==> Under(c.chroot, r.result.text))
  {
    if path == "" {
      if dirfd != -1 && dirfd != AT_FDCWD {
        return if dirfd in c.fds then Same(c.fds[dirfd]) else NoPath;
      }
      return Same("");
    }
    var base, minlen := "", 0;
    if path[0] != '/' {
      if dirfd != -1 && dirfd != AT_FDCWD {
        if !(dirfd >= 0 && dirfd in c.fds) { return NoPath; }
        base := c.fds[dirfd];
      } else {
        base := c.cwd;
      }
      var n := |c.chroot|;
      if n > 0 && |base| >= n && base[..n] == c.chroot && (|base| == n || base[n] == '/') { minlen := n; }
    } else if c.chroot != "" {
      base, minlen := c.chroot, |c.chroot|;
    }
    var q := Query(base, path, minlen, leaveLast);
    BelowIsSane(c, q);
    hide FixPath;
    var result, _ := PseudoFixPath(fs, buf, q);
    if result.Fixed? && minlen > 0 { RootKept(fs, buf.Length, q); }
    return Canon(result);
  }

  // Whatever the walk did, the root stands in front, with a slash after it.
  lemma RootKept(fs: Fs, max: nat, q: Query)
    requires Sane(q) && RootOf(q) != "" && FixPath(fs, max, q).Fixed?
    ensures Under(RootOf(q), FixPath(fs, max, q).text)
  {
    hide WalkOf;
    SlashAfterRoot(RootOf(q), WalkOf(fs, max, q).st.comps);
  }

  lemma {:induction false} SlashAfterRoot(root: string, comps: seq<string>)
    ensures root <= PathOf(root, comps)
    ensures comps != [] ==> |PathOf(root, comps)| > |root| && PathOf(root, comps)[|root|] == '/'
  {
    if comps != [] { SlashAfterRoot(root, comps[..|comps| - 1]); }
  }

  // Without an emulated root, a relative path comes out as the absolute path that the working
  // directory and it spell.
  lemma RelativeToCwd(fs: Fs, max: nat, c: Client, path: string, leaveLast: bool)
    requires Knows(c) && c.chroot == "" && IsRelative(path)
    requires var cwd := if c.cwd == "/" then "" else c.cwd;
             Canonical(Env(fs, "", max), CompsOf(cwd)) && |cwd| + 1 + |path| < max
    ensures var cwd := if c.cwd == "/" then "" else c.cwd;
            Resolved(fs, max, c, c.cwd, path, leaveLast) == Resolved(fs, max, c, "", cwd + "/" + path, leaveLast)
  {
    var q := Query(c.cwd, path, 0, leaveLast);
    AtWorkingDirectory(c, q);
    hide FixPath, Canonical, CompsOf, StartOf, FromRoot, Knows, DirText, Sane, RootOf, BaseOf;
    RelativeIsBelowBase(fs, max, q);
  }

  lemma AtWorkingDirectory(c: Client, q: Query)
    requires Knows(c) && c.chroot == "" && IsRelative(q.path) && q.base == c.cwd && q.rootlen == 0
    ensures var cwd := if c.cwd == "/" then "" else c.cwd;
            && Sane(q) && RootOf(q) == "" && BaseOf(q) == cwd && StartOf(q) == CompsOf(cwd)
            && FromRoot(q) == Query("", cwd + "/" + q.path, 0, q.leaveLast)
  {
    LoneSlash(q);
    assert BaseOf(q)[0..] == BaseOf(q) && c.cwd[0..] == c.cwd;
  }
}
