// The part of the file system a call works on: paths, whole trees, and inodes.  Calls whose
// parts do not overlap can be looked at one by one.

module Footprints {
  import opened PathText
  import opened FileTable
  import opened ServerOp
  import opened WrapperScripts
  import opened UnlinkProtocol
  import opened VirtualRoot

  datatype Foot = Foot(exact: set<Path>, trees: set<Path>, nodes: set<Inode>)

  predicate InTrees(trees: set<Path>, p: Path)
  {
    exists r :: r in trees && (p == r || Below(r, p))
  }

  predicate Covers(foot: Foot, p: Path) { p in foot.exact || InTrees(foot.trees, p) }

  predicate CoversRow(foot: Foot, r: Row) { Covers(foot, r.path) || NodeOf(r) in foot.nodes }

  ghost predicate Apart(a: Foot, b: Foot)
  {
    && (forall p :: !(Covers(a, p) && Covers(b, p)))
    && a.nodes !! b.nodes
  }

  // The covered names are exactly those of the covered inodes.
  ghost predicate Closed(f: Ideal, foot: Foot)
  {
    forall p | p in f.names :: Covers(foot, p) <==> f.names[p] in foot.nodes
  }

  // The part of a call: the paths it names, everything at or below the two paths of a rename,
  // the inodes of these, and all names of those inodes.
  function NamedBy(c: Call): set<Path>
  {
    match c
    case HardLink(_, src, dst, _) => {src, dst}
    case Rename(_, src, dst, _, _, _) => {src, dst}
    case _ => {c.path}
  }

  function TreesOf(c: Call): set<Path> { if c.Rename? then {c.src, c.dst} else {} }

  function NewNodes(c: Call): set<Inode> { if c.Create? then {c.buf.node} else {} }

  function FootOf(f: Ideal, c: Call): Foot
  {
    var nodes := (set p | p in f.names && (p in NamedBy(c) || InTrees(TreesOf(c), p)) :: f.names[p]) + NewNodes(c);
    Foot(NamedBy(c) + (set p | p in f.names && f.names[p] in nodes), TreesOf(c), nodes)
  }

  lemma FootIsClosed(f: Ideal, c: Call)
    requires Possible(f, c)
    ensures Closed(f, FootOf(f, c))
  {
    var foot := FootOf(f, c);
    forall p | p in f.names
      ensures Covers(foot, p) <==> f.names[p] in foot.nodes
    {
      if f.names[p] in foot.nodes { assert p in foot.exact; }
      if c.Create? { assert Named(f.names, f.names[p]); }
    }
  }

  // ----- the part of a table -----

  function At(t: Files, foot: Foot): Files
  {
    map k | k in t && CoversRow(foot, t[k]) :: t[k]
  }

  // A row is covered by its path exactly when it is by its inode.
  ghost predicate Tidy(t: Files, foot: Foot)
  {
    forall k | k in t :: Covers(foot, t[k].path) <==> NodeOf(t[k]) in foot.nodes
  }

  // From t to u, only covered rows have changed, and only into covered rows.
  ghost predicate Only(t: Files, u: Files, foot: Foot)
  {
    && (forall k | k in t && !CoversRow(foot, t[k]) :: k in u && u[k] == t[k])
    && (forall k | k in u && !CoversRow(foot, u[k]) :: k in t && u[k] == t[k])
  }

  // What happens to one part leaves another alone.
  lemma OtherPartStays(t: Files, u: Files, mine: Foot, other: Foot)
    requires Only(t, u, mine) && Apart(mine, other)
    requires Tidy(t, mine) && Tidy(u, mine) && Tidy(t, other)
    ensures At(u, other) == At(t, other) && Tidy(u, other)
  {
    forall k | k in t && CoversRow(other, t[k])
      ensures k in u && u[k] == t[k]
    {
      assert Covers(other, t[k].path) && !Covers(mine, t[k].path);
    }
    forall k | k in u
      ensures Covers(other, u[k].path) <==> NodeOf(u[k]) in other.nodes
      ensures CoversRow(other, u[k]) ==> k in t && u[k] == t[k]
    {
      if CoversRow(mine, u[k]) {
        assert Covers(mine, u[k].path) && NodeOf(u[k]) in mine.nodes;
      } else {
        assert u[k] == t[k];
      }
    }
  }

  // ----- the effects of the requests on a part -----

  // u is what the same effect makes of the part.
  ghost predicate Acts(t: Files, u: Files, foot: Foot, part: Files)
  {
    Only(t, u, foot) && Tidy(u, foot) && At(u, foot) == part
  }

  lemma NothingActs(t: Files, foot: Foot)
    requires Tidy(t, foot)
    ensures Acts(t, t, foot, At(t, foot))
  {}

  lemma MarkActs(t: Files, foot: Foot, p: Path, mark: int)
    requires Tidy(t, foot) && Covers(foot, p)
    ensures Acts(t, SetMark(t, p, mark), foot, SetMark(At(t, foot), p, mark))
  {
    hide Covers;
    var u := SetMark(t, p, mark);
    assert forall k | k in u :: u[k].path == t[k].path && NodeOf(u[k]) == NodeOf(t[k]);
  }

  lemma DeleteActs(t: Files, foot: Foot, p: Path, mark: int)
    requires Tidy(t, foot) && Covers(foot, p)
    ensures Acts(t, DeletePathMarked(t, p, mark), foot, DeletePathMarked(At(t, foot), p, mark))
  {
    hide Covers;
  }

  lemma ChangeActs(t: Files, foot: Foot, n: Inode, m: Meta)
    requires Tidy(t, foot) && n in foot.nodes
    ensures Acts(t, SetMeta(t, n.dev, n.ino, m.uid, m.gid, m.mode, m.rdev), foot,
                 SetMeta(At(t, foot), n.dev, n.ino, m.uid, m.gid, m.mode, m.rdev))
  {
    hide Covers;
    var u := SetMeta(t, n.dev, n.ino, m.uid, m.gid, m.mode, m.rdev);
    assert forall k | k in u :: u[k].path == t[k].path && NodeOf(u[k]) == NodeOf(t[k]);
    assert forall k | k in t && u[k] != t[k] :: NodeOf(t[k]) == n;
  }

  lemma InsertActs(t: Files, foot: Foot, r: Row)
    requires Tidy(t, foot) && Covers(foot, r.path) && NodeOf(r) in foot.nodes
    ensures Acts(t, Insert(t, r), foot, At(t, foot)[FreshId(t) := r]) && FreshId(t) !in At(t, foot)
  {
    hide Covers;
  }

  lemma MoveActs(t: Files, foot: Foot, src: Path, dst: Path)
    requires Tidy(t, foot) && src in foot.trees && dst in foot.trees
    ensures Acts(t, MoveRows(t, src, dst), foot, MoveRows(At(t, foot), src, dst))
  {
    var u := MoveRows(t, src, dst);
    forall k | k in t
      ensures NodeOf(u[k]) == NodeOf(t[k])
      ensures u[k] == t[k] || (Covers(foot, t[k].path) && Covers(foot, u[k].path))
    {
      if t[k].path == src || Below(src, t[k].path) { MovedIsCovered(foot, t[k].path, src, dst); }
    }
    hide Covers, MoveRow;
  }

  lemma MovedIsCovered(foot: Foot, p: Path, src: Path, dst: Path)
    requires src in foot.trees && dst in foot.trees && (p == src || Below(src, p))
    ensures Covers(foot, p) && Covers(foot, Moved(p, src, dst))
  {
    var q := Moved(p, src, dst);
    if p != src {
      assert q[..|dst|] == dst && q[|dst|] == '/';
      assert Below(dst, q);
    }
  }
}
