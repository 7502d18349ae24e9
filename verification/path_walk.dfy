// Canonicalising a path: what the walk over a path's elements computes, as a stack of components
// above an immovable root.  Symbolic links are expanded to a fixed nesting depth, and the walk
// remembers whether it stands on a directory instead of asking again.

module PathWalk {
  import opened PathText
  import opened FileTable

  datatype Node = Dir | Other | Link(target: Option<string>)

  // What lstat and readlink say of every path text; a link may turn out to be unreadable.
  type Fs = map<string, Node>

  datatype Kind = IsDirectory | IsLink | IsOther | Missing

  function KindAt(fs: Fs, p: string): Kind
  {
    if p !in fs then Missing
    else match fs[p]
      case Dir => IsDirectory
      case Other => IsOther
      case Link(_) => IsLink
  }

  const MAX_LINKS: nat := 16

  // An element of a path; `leave` asks not to follow it if it is a link.
  datatype Elem = Elem(name: string, leave: bool)

  // The file system, the text of the root prefix, and the size of the path buffer.
  datatype Env = Env(fs: Fs, root: string, max: nat)

  // exact: so far no link was left unread, cut short, or unfollowed for being nested too deep.
  datatype State = State(comps: seq<string>, kind: Kind, exact: bool)
  datatype Outcome = Fail | Done(st: State)

  function PathOf(root: string, comps: seq<string>): string
  {
    if comps == [] then root
    else PathOf(root, comps[..|comps| - 1]) + "/" + comps[|comps| - 1]
  }

  // The root counts as a directory without asking.
  function KindOf(env: Env, comps: seq<string>): Kind
  {
    if comps == [] then IsDirectory else KindAt(env.fs, PathOf(env.root, comps))
  }

  predicate Skipped(name: string) { name == "" || name == "." }

  function Popped(comps: seq<string>): seq<string>
  {
    if comps == [] then [] else comps[..|comps| - 1]
  }

  function SlashIndex(s: string): (i: nat)
    ensures i <= |s| && (forall j | 0 <= j < i :: s[j] != '/') && (i < |s| ==> s[i] == '/')
  {
    if s == "" || s[0] == '/' then 0 else 1 + SlashIndex(s[1..])
  }

  // The elements of the first n characters of s.  Only an element with no slash after it
  // anywhere in s can be left alone.
  function Split(s: string, n: nat, leaveLast: bool): seq<Elem>
    requires n <= |s|
    decreases |s|
  {
    if n == 0 then []
    else
      var i := SlashIndex(s);
      if i == |s| then [Elem(s, leaveLast)]
      else [Elem(s[..i], false)] + (if i + 1 >= n then [] else Split(s[i + 1..], n - i - 1, leaveLast))
  }

  lemma SplitUnfold(s: string, n: nat, leaveLast: bool)
    requires n <= |s|
    ensures var i := SlashIndex(s);
            Split(s, n, leaveLast) ==
            if n == 0 then []
            else if i == |s| then [Elem(s, leaveLast)]
            else if i + 1 >= n then [Elem(s[..i], false)]
            else [Elem(s[..i], false)] + Split(s[i + 1..], n - i - 1, leaveLast)
  {
    hide SlashIndex;
  }

  // What readlink fits into its buffer.
  function Truncated(t: string, max: nat): string { if |t| > max then t[..max] else t }

  // An element that is not one of the two special directory names is appended.
  predicate Appends(st: State, name: string)
  {
    st.kind == IsDirectory ==> !Skipped(name) && name != ".."
  }

  // The appended element is a link below a directory, which the caller wants followed.
  predicate AtLink(env: Env, st: State, e: Elem)
  {
    st.kind == IsDirectory && !e.leave && KindAt(env.fs, PathOf(env.root, st.comps + [e.name])) == IsLink
  }

  function TargetOf(env: Env, st: State, e: Elem): Option<string>
    requires AtLink(env, st, e)
  {
    env.fs[PathOf(env.root, st.comps + [e.name])].target
  }

  predicate Follows(env: Env, depth: nat, st: State, e: Elem)
  {
    AtLink(env, st, e) && depth < MAX_LINKS && TargetOf(env, st, e).Some?
  }

  // Where the walk goes on from, and over what: absolute text starts again at the root.
  function LinkText(env: Env, st: State, e: Elem): string
    requires AtLink(env, st, e) && TargetOf(env, st, e).Some?
  {
    Truncated(TargetOf(env, st, e).value, env.max)
  }

  function LinkStart(st: State, text: string, whole: bool): State
  {
    State(if text != "" && text[0] == '/' then [] else st.comps, IsDirectory, st.exact && whole)
  }

  function WalkLink(env: Env, depth: nat, st: State, e: Elem): Outcome
    requires depth <= MAX_LINKS && Follows(env, depth, st, e)
    decreases MAX_LINKS - depth, 0, 0
  {
    var text := LinkText(env, st, e);
    WalkList(env, depth + 1, LinkStart(st, text, text == TargetOf(env, st, e).value), Split(text, |text|, false))
  }

  function WalkElem(env: Env, depth: nat, st: State, e: Elem): Outcome
    requires depth <= MAX_LINKS
    decreases MAX_LINKS - depth, 0, 1
  {
    if !Appends(st, e.name) then Done(if e.name == ".." then st.(comps := Popped(st.comps)) else st)
    else if |PathOf(env.root, st.comps)| + |e.name| + 3 > env.max then Fail
    else if Follows(env, depth, st, e) then WalkLink(env, depth, st, e)
    else
      var next := st.comps + [e.name];
      Done(State(next, KindAt(env.fs, PathOf(env.root, next)), st.exact && !AtLink(env, st, e)))
  }

  function WalkList(env: Env, depth: nat, st: State, elems: seq<Elem>): Outcome
    requires depth <= MAX_LINKS
    decreases MAX_LINKS - depth, |elems|, 2
  {
    if elems == [] then Done(st)
    else
      match WalkElem(env, depth, st, elems[0])
      case Fail => Fail
      case Done(st1) => WalkList(env, depth, st1, elems[1..])
  }

  // ----- the whole call -----

  function Trimmed(s: string): (t: string)
    ensures t <= s && !EndsInSlash(t)
  {
    if s != "" && s[|s| - 1] == '/' then Trimmed(s[..|s| - 1]) else s
  }

  function Names(elems: seq<Elem>): seq<string>
  {
    seq(|elems|, i requires 0 <= i < |elems| => elems[i].name)
  }

  // The components of text that is empty or starts with a slash.
  function CompsOf(s: string): seq<string>
  {
    if s == "" then [] else Parts(s[1..])
  }

  function Parts(s: string): seq<string>
    decreases |s|
  {
    var i := SlashIndex(s);
    if i == |s| then [s] else [s[..i]] + Parts(s[i + 1..])
  }

  // base and path, with rootlen characters of base that ".." and links cannot undo.
  datatype Query = Query(base: string, path: string, rootlen: nat, leaveLast: bool)

  // A path that could not fit is handed back as it came.
  datatype Fixed = TooLong(path: string) | Failed | Fixed(text: string)

  // A lone slash counts as nothing.
  function RootOf(q: Query): string
    requires q.rootlen <= |q.base|
  {
    if q.rootlen == 1 then "" else q.base[..q.rootlen]
  }

  function BaseOf(q: Query): string { if |q.base| == 1 then "" else q.base }

  predicate Slashless(s: string) { forall i | 0 <= i < |s| :: s[i] != '/' }

  // The base is canonical text and the root is the text of one of its directories.
  predicate Sane(q: Query)
  {
    && q.rootlen <= |q.base|
    && (q.base != "" ==> q.base[0] == '/')
    && (|q.base| > 1 ==> !EndsInSlash(q.base))
    && (1 < q.rootlen < |q.base| ==> !EndsInSlash(q.base[..q.rootlen]) && q.base[q.rootlen] == '/')
  }

  // An absolute path starts over, but never above the root.
  function StartOf(q: Query): seq<string>
    requires Sane(q)
  {
    if BaseOf(q) != "" && (q.path == "" || q.path[0] != '/' || RootOf(q) != "")
    then CompsOf(BaseOf(q)[|RootOf(q)|..]) else []
  }

  function EnvOf(fs: Fs, max: nat, q: Query): Env
    requires Sane(q)
  {
    Env(fs, RootOf(q), max)
  }

  function WalkOf(fs: Fs, max: nat, q: Query): Outcome
    requires Sane(q)
  {
    var env := EnvOf(fs, max, q);
    WalkList(env, 0, State(StartOf(q), KindOf(env, StartOf(q)), true), Split(q.path, |Trimmed(q.path)|, q.leaveLast))
  }

  // What the walk ends on, with its final slash.
  function Finished(q: Query, o: Outcome): Fixed
    requires q.rootlen <= |q.base|
  {
    match o
    case Fail => Failed
    case Done(st) => Fixed(PathOf(RootOf(q), st.comps) + if st.comps == [] || EndsInSlash(q.path) then "/" else "")
  }

  function FixPath(fs: Fs, max: nat, q: Query): Fixed
    requires Sane(q)
  {
    if |q.path| + |BaseOf(q)| >= max then TooLong(q.path) else Finished(q, WalkOf(fs, max, q))
  }

  // ----- text facts -----

  lemma PathOfPush(root: string, comps: seq<string>, name: string)
    ensures PathOf(root, comps + [name]) == PathOf(root, comps) + "/" + name
  {
    assert (comps + [name])[..|comps|] == comps;
  }

  lemma PartsUnfold(s: string)
    ensures var i := SlashIndex(s); Parts(s) == if i == |s| then [s] else [s[..i]] + Parts(s[i + 1..])
  {
    hide SlashIndex;
  }

  lemma {:induction false} PathOfParts(root: string, comps: seq<string>, s: string)
    ensures PathOf(root, comps + Parts(s)) == PathOf(root, comps) + "/" + s
    decreases |s|
  {
    hide PathOf, Parts;
    var i := SlashIndex(s);
    PartsUnfold(s);
    if i == |s| {
      PathOfPush(root, comps, s);
    } else {
      var rest := s[i + 1..];
      assert comps + ([s[..i]] + Parts(rest)) == (comps + [s[..i]]) + Parts(rest);
      PathOfPush(root, comps, s[..i]);
      PathOfParts(root, comps + [s[..i]], rest);
      Rejoin(PathOf(root, comps), s, i);
    }
  }

  lemma Rejoin(before: string, s: string, i: nat)
    requires i < |s| && s[i] == '/'
    ensures before + "/" + s[..i] + "/" + s[i + 1..] == before + "/" + s
  {
    assert s == s[..i] + "/" + s[i + 1..];
  }

  lemma {:induction false} PartsAreSlashless(s: string)
    ensures forall e | e in Parts(s) :: Slashless(e)
    decreases |s|
  {
    var i := SlashIndex(s);
    if i < |s| { PartsAreSlashless(s[i + 1..]); }
  }

  lemma CompsSpell(root: string, s: string)
    requires s != "" ==> s[0] == '/'
    ensures PathOf(root, CompsOf(s)) == root + s
    ensures forall e | e in CompsOf(s) :: Slashless(e)
  {
    if s != "" {
      PathOfParts(root, [], s[1..]);
      PartsAreSlashless(s[1..]);
      assert [] + CompsOf(s) == CompsOf(s);
      assert s == "/" + s[1..];
    }
  }

  lemma {:induction false} RootIsPrefix(root: string, comps: seq<string>)
    ensures root <= PathOf(root, comps) && (comps != [] ==> |PathOf(root, comps)| > |root|)
  {
    if comps != [] { RootIsPrefix(root, comps[..|comps| - 1]); }
  }
}
