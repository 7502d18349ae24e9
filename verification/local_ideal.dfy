// The ideal file system seen through one part of it.

module LocalIdeals {
  import opened PathText
  import opened FileTable
  import opened ServerOp
  import opened WrapperScripts
  import opened VirtualRoot
  import opened VirtualRename
  import opened Footprints

  function Local(f: Ideal, foot: Foot): Ideal
  {
    Ideal(map p | p in f.names && Covers(foot, p) :: f.names[p],
          map n | n in f.kinds && n in foot.nodes :: f.kinds[n],
          map n | n in f.meta && n in foot.nodes :: f.meta[n])
  }

  // The part holds everything the call names.
  predicate Holds(foot: Foot, c: Call)
  {
    && (forall p | p in NamedBy(c) :: Covers(foot, p))
    && TreesOf(c) <= foot.trees && NewNodes(c) <= foot.nodes
  }

  lemma FootHolds(f: Ideal, c: Call)
    ensures Holds(FootOf(f, c), c)
  {}

  lemma LocalWellFormed(f: Ideal, foot: Foot)
    requires WellFormed(f) && Closed(f, foot)
    ensures WellFormed(Local(f, foot))
  {
    hide Covers;
    var g := Local(f, foot);
    forall n | n in g.meta
      ensures Named(g.names, n)
    {
      var p :| p in f.names && f.names[p] == n;
      assert g.names[p] == n;
    }
  }

  lemma LocalPossible(f: Ideal, foot: Foot, c: Call)
    requires WellFormed(f) && Closed(f, foot) && Holds(foot, c) && Possible(f, c)
    ensures Possible(Local(f, foot), c)
  {
    hide Covers, WellFormed;
    var g := Local(f, foot);
    assert forall p | p in g.names :: p in f.names && g.names[p] == f.names[p];
  }

  // Outside a part, two ideals are the same.
  ghost predicate SameOutside(f: Ideal, g: Ideal, foot: Foot)
  {
    && (forall p | !Covers(foot, p) :: (p in f.names <==> p in g.names) && (p in f.names ==> g.names[p] == f.names[p]))
    && (forall n | n !in foot.nodes :: (n in f.kinds <==> n in g.kinds) && (n in f.kinds ==> g.kinds[n] == f.kinds[n]))
    && (forall n | n !in foot.nodes :: (n in f.meta <==> n in g.meta) && (n in f.meta ==> g.meta[n] == f.meta[n]))
  }

  // Another part does not see the difference.
  lemma LocalStays(f: Ideal, g: Ideal, mine: Foot, other: Foot)
    requires SameOutside(f, g, mine) && Apart(mine, other) && Closed(f, other) && Closed(g, mine)
    ensures Local(g, other) == Local(f, other) && Closed(g, other)
  {
    hide Covers;
  }

  // Both sides together are well formed.
  lemma JoinWellFormed(f: Ideal, g: Ideal, foot: Foot)
    requires WellFormed(f) && Closed(f, foot) && SameOutside(f, g, foot) && Closed(g, foot)
             && WellFormed(Local(g, foot))
    ensures WellFormed(g)
  {
    hide Covers, GoodPath, RealNode;
    var h := Local(g, foot);
    forall p | p in g.names
      ensures GoodPath(p) && RealNode(g.names[p]) && g.names[p] in g.kinds
    {
      if Covers(foot, p) { assert h.names[p] == g.names[p]; } else { assert f.names[p] == g.names[p]; }
    }
    forall n | n in g.meta
      ensures n in g.kinds && SameKind(g.meta[n].mode, g.kinds[n]) && Named(g.names, n)
    {
      if n in foot.nodes {
        assert h.meta[n] == g.meta[n];
        var p :| p in h.names && h.names[p] == n;
        assert g.names[p] == n;
      } else {
        var p :| p in f.names && f.names[p] == n;
        assert !Covers(foot, p) && g.names[p] == n;
      }
    }
  }

  // ----- what a call does to the ideal -----

  // A call changes only its part, and changes that as if there were nothing else.
  ghost predicate ActsOnIdeal(f: Ideal, c: Call, foot: Foot)
  {
    var g := IdealAfter(f, c);
    && SameOutside(f, g, foot) && Closed(g, foot)
    && Local(g, foot) == IdealAfter(Local(f, foot), c)
  }

  lemma NamedLocally(f: Ideal, foot: Foot, n: Inode)
    requires Closed(f, foot) && n in foot.nodes
    ensures Named(f.names, n) <==> Named(Local(f, foot).names, n)
  {
    if p :| p in f.names && f.names[p] == n { assert Local(f, foot).names[p] == n; }
    if p :| p in Local(f, foot).names && Local(f, foot).names[p] == n { assert f.names[p] == n; }
  }

  // From f to g only the part has changed, into h.
  ghost predicate Turns(f: Ideal, g: Ideal, foot: Foot, h: Ideal)
  {
    SameOutside(f, g, foot) && Closed(g, foot) && Local(g, foot) == h
  }

  lemma NameTurns(f: Ideal, foot: Foot, p: Path, n: Inode)
    requires Closed(f, foot) && Covers(foot, p) && n in foot.nodes
    ensures Turns(f, f.(names := f.names[p := n]), foot, Local(f, foot).(names := Local(f, foot).names[p := n]))
  {
    hide Covers;
  }

  lemma KindTurns(f: Ideal, foot: Foot, n: Inode, kind: Mode)
    requires Closed(f, foot) && n in foot.nodes
    ensures Turns(f, f.(kinds := f.kinds[n := kind]), foot, Local(f, foot).(kinds := Local(f, foot).kinds[n := kind]))
  {
    hide Covers;
  }

  lemma MetaTurns(f: Ideal, foot: Foot, n: Inode, m: Meta)
    requires Closed(f, foot) && n in foot.nodes
    ensures Turns(f, f.(meta := f.meta[n := m]), foot, Local(f, foot).(meta := Local(f, foot).meta[n := m]))
  {
    hide Covers;
  }

  lemma TurnsTwice(f: Ideal, g: Ideal, k: Ideal, foot: Foot, h: Ideal)
    requires SameOutside(f, g, foot) && Turns(g, k, foot, h)
    ensures Turns(f, k, foot, h)
  {
    hide Covers;
  }

  lemma NodeIsCovered(f: Ideal, foot: Foot, c: Call)
    requires Closed(f, foot) && Holds(foot, c) && Possible(Local(f, foot), c)
    requires c.Create? || c.Chmod? || c.Chown? || c.HardLink?
    ensures c.buf.node in foot.nodes
  {
    hide Covers;
    var h := Local(f, foot);
    match c {
      case Create(_, _, _, _, _, _, _) => assert c.buf.node in NewNodes(c);
      case HardLink(_, src, _, _) => assert h.names[src] == f.names[src];
      case _ => assert h.names[c.path] == f.names[c.path];
    }
  }

  lemma CreateActs(f: Ideal, c: Call, foot: Foot)
    requires Closed(f, foot) && Holds(foot, c) && c.Create?
    ensures ActsOnIdeal(f, c, foot)
  {
    hide Closed, Covers, SameOutside, Local;
    var n := c.buf.node;
    assert c.path in NamedBy(c) && n in NewNodes(c);
    var m := Meta(c.fuid, c.fgid, c.buf.mode, c.buf.rdev);
    var g1 := f.(names := f.names[c.path := n]);
    var g2 := g1.(kinds := g1.kinds[n := c.host]);
    NameTurns(f, foot, c.path, n);
    KindTurns(g1, foot, n, c.host);
    TurnsTwice(f, g1, g2, foot, Local(g1, foot).(kinds := Local(g1, foot).kinds[n := c.host]));
    MetaTurns(g2, foot, n, m);
    TurnsTwice(f, g2, g2.(meta := g2.meta[n := m]), foot, Local(g2, foot).(meta := Local(g2, foot).meta[n := m]));
  }

  lemma MetaLocally(f: Ideal, foot: Foot, n: Inode, m: Meta)
    requires n in foot.nodes
    ensures MetaOr(f, n, m) == MetaOr(Local(f, foot), n, m)
  {}

  lemma NothingTurns(f: Ideal, foot: Foot)
    requires Closed(f, foot)
    ensures Turns(f, f, foot, Local(f, foot))
  {
    hide Covers;
  }

  lemma PlainCallActs(f: Ideal, c: Call, foot: Foot)
    requires Closed(f, foot) && Holds(foot, c) && Possible(Local(f, foot), c)
    requires c.Create? || c.Chmod? || c.Chown? || c.HardLink?
    ensures ActsOnIdeal(f, c, foot)
  {
    hide Closed, Covers, SameOutside, Local, Possible, MetaOr;
    NodeIsCovered(f, foot, c);
    NothingTurns(f, foot);
    var n := c.buf.node;
    match c {
      case Create(_, _, _, _, _, _, _) => CreateActs(f, c, foot);
      case Chmod(_, _, buf, perm, fuid, fgid) =>
        var host := Meta(fuid, fgid, buf.mode, buf.rdev);
        MetaLocally(f, foot, n, host);
        var m := MetaOr(f, n, host);
        MetaTurns(f, foot, n, m.(mode := Mode(m.mode.fmt, perm)));
      case Chown(_, _, buf, owner, group) =>
        MetaLocally(f, foot, n, HostMeta(buf));
        var m := MetaOr(f, n, HostMeta(buf));
        MetaTurns(f, foot, n, m.(uid := if owner.Some? then owner.value else m.uid,
                                 gid := if group.Some? then group.value else m.gid));
      case HardLink(_, _, dst, _) =>
        assert dst in NamedBy(c);
        NameTurns(f, foot, dst, n);
    }
  }

  // Names come and go in a part: metadata of files without names goes.
  lemma LivingActs(f: Ideal, g: Ideal, foot: Foot)
    requires WellFormed(f) && Closed(f, foot) && SameOutside(f, g, foot) && Closed(g, foot)
    ensures SameOutside(f, Living(g), foot) && Closed(Living(g), foot)
    ensures Local(Living(g), foot) == Living(Local(g, foot))
  {
    hide Covers;
    forall n: Inode
      ensures n in foot.nodes ==> (Named(g.names, n) <==> Named(Local(g, foot).names, n))
      ensures n !in foot.nodes && n in f.meta ==> Named(g.names, n)
    {
      if n in foot.nodes {
        NamedLocally(g, foot, n);
      } else if n in f.meta {
        var p :| p in f.names && f.names[p] == n;
        assert g.names[p] == n;
      }
    }
    hide Named;
  }

  lemma RemoveActs(f: Ideal, c: Call, foot: Foot)
    requires WellFormed(f) && Closed(f, foot) && Holds(foot, c) && c.Remove?
    ensures ActsOnIdeal(f, c, foot)
  {
    hide WellFormed, Covers;
    assert c.path in NamedBy(c);
    var g := f.(names := f.names - {c.path});
    if c.ok {
      LivingActs(f, g, foot);
      assert Local(g, foot) == Local(f, foot).(names := Local(f, foot).names - {c.path});
    }
  }

  lemma MovedCover(foot: Foot, p: Path, src: Path, dst: Path)
    requires src in foot.trees && dst in foot.trees
    ensures Covers(foot, p) <==> Covers(foot, Moved(p, src, dst))
    ensures !Covers(foot, p) ==> Moved(p, src, dst) == p && p != dst
  {
    if p == src || Below(src, p) { MovedIsCovered(foot, p, src, dst); }
  }

  lemma RenamedLocally(names: map<Path, Inode>, foot: Foot, src: Path, dst: Path)
    requires src in foot.trees && dst in foot.trees
    ensures var h := map p | p in names && Covers(foot, p) :: names[p];
            RenamedNames(h, src, dst) == map q | q in RenamedNames(names, src, dst) && Covers(foot, q) ::
                RenamedNames(names, src, dst)[q]
    ensures forall p | !Covers(foot, p) ::
              (p in names <==> p in RenamedNames(names, src, dst))
                  && (p in names ==> RenamedNames(names, src, dst)[p] == names[p])
  {
    forall p
      ensures Covers(foot, p) <==> Covers(foot, Moved(p, src, dst))
      ensures Covers(foot, p) <==> Covers(foot, Unmoved(p, src, dst))
      ensures !Covers(foot, p) ==> Moved(p, src, dst) == p == Unmoved(p, src, dst) && p != dst
    {
      MovedCover(foot, p, src, dst);
      MovedCover(foot, p, dst, src);
    }
    hide Covers, Moved, Unmoved;
  }

  lemma RenameActs(f: Ideal, c: Call, foot: Foot)
    requires WellFormed(f) && Closed(f, foot) && Holds(foot, c) && Possible(Local(f, foot), c) && c.Rename?
    ensures ActsOnIdeal(f, c, foot)
  {
    NothingTurns(f, foot);
    if c.ok && !SameFile(c.srcBuf, c.dstBuf) && c.srcBuf.Some? {
      var n := c.srcBuf.value.node;
      var h := Local(f, foot);
      assert n in foot.nodes by { assert h.names[c.src] == f.names[c.src]; }
      hide WellFormed, Covers, RenamedNames, MetaOr, Living, Possible;
      MetaLocally(f, foot, n, HostMeta(c.srcBuf.value));
      var m := MetaOr(f, n, HostMeta(c.srcBuf.value));
      var g := Ideal(RenamedNames(f.names, c.src, c.dst), f.kinds, f.meta[n := m]);
      assert c.src in foot.trees && c.dst in foot.trees by { assert c.src in TreesOf(c) && c.dst in TreesOf(c); }
      RenameTurns(f, foot, c.src, c.dst, n, m);
      LivingActs(f, g, foot);
    }
  }

  lemma RenameTurns(f: Ideal, foot: Foot, src: Path, dst: Path, n: Inode, m: Meta)
    requires Closed(f, foot) && src in foot.trees && dst in foot.trees && n in foot.nodes
    ensures var h := Local(f, foot);
            Turns(f, Ideal(RenamedNames(f.names, src, dst), f.kinds, f.meta[n := m]), foot,
                  Ideal(RenamedNames(h.names, src, dst), h.kinds, h.meta[n := m]))
  {
    hide Closed, SameOutside, Local, RenamedNames;
    var g1 := f.(names := RenamedNames(f.names, src, dst));
    MovedNamesTurn(f, foot, src, dst);
    MetaTurns(g1, foot, n, m);
    TurnsTwice(f, g1, g1.(meta := g1.meta[n := m]), foot, Local(g1, foot).(meta := Local(g1, foot).meta[n := m]));
  }

  lemma MovedNamesTurn(f: Ideal, foot: Foot, src: Path, dst: Path)
    requires Closed(f, foot) && src in foot.trees && dst in foot.trees
    ensures var h := Local(f, foot);
            Turns(f, f.(names := RenamedNames(f.names, src, dst)), foot, h.(names := RenamedNames(h.names, src, dst)))
  {
    hide Covers, RenamedNames, InTrees;
    RenamedLocally(f.names, foot, src, dst);
    RenamedStaysClosed(f, foot, src, dst);
  }

  lemma RenamedStaysClosed(f: Ideal, foot: Foot, src: Path, dst: Path)
    requires Closed(f, foot) && src in foot.trees && dst in foot.trees
    ensures Closed(f.(names := RenamedNames(f.names, src, dst)), foot)
  {
    var g := RenamedNames(f.names, src, dst);
    forall q | q in g
      ensures Covers(foot, q) <==> g[q] in foot.nodes
    {
      MovedCover(foot, q, dst, src);
    }
  }

  lemma CallActs(f: Ideal, c: Call, foot: Foot)
    requires WellFormed(f) && Closed(f, foot) && Holds(foot, c) && Possible(Local(f, foot), c)
    ensures ActsOnIdeal(f, c, foot)
  {
    hide ActsOnIdeal, WellFormed, Closed, Possible, Local;
    match c
    case Remove(_, _, _, _) => RemoveActs(f, c, foot);
    case Rename(_, _, _, _, _, _) => RenameActs(f, c, foot);
    case _ => PlainCallActs(f, c, foot);
  }
}
