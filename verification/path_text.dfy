// Path strings as SQLite sees them: the binary text order, the half-open range
// scan that stands for "everything below a directory", and SQL replace().

module PathText {

  type Path = string

  // Binary collation: compare the first byte that differs; a proper prefix is smaller.
  predicate Less(a: string, b: string)
  {
    if b == "" then false
    else if a == "" then true
    else a[0] < b[0] || (a[0] == b[0] && Less(a[1..], b[1..]))
  }

  // p is a proper descendant of dir: dir, a slash, and at least one more byte.
  predicate Below(dir: Path, p: Path)
  {
    |p| > |dir| + 1 && p[..|dir|] == dir && p[|dir|] == '/'
  }

  // The WHERE clause of the subtree statements.
  predicate InRange(dir: Path, p: Path)
  {
    Less(dir + "/", p) && Less(p, dir + "0")
  }

  predicate OccursAt(y: string, x: string, i: int)
  {
    0 <= i <= |x| - |y| && x[i..i + |y|] == y
  }

  ghost predicate Occurs(y: string, x: string)
  {
    exists i :: OccursAt(y, x, i)
  }

  // SQL replace(x, y, z): every occurrence of y, left to right, without overlap;
  // an empty y leaves x alone.
  function Replace(x: string, y: string, z: string): string
  {
    if y == "" || |x| < |y| then x
    else if x[..|y|] == y then z + Replace(x[|y|..], y, z)
    else [x[0]] + Replace(x[1..], y, z)
  }

  // Where a path should land when src becomes dst.
  function Moved(p: Path, src: Path, dst: Path): Path
  {
    if p == src || Below(src, p) then dst + p[|src|..] else p
  }

  lemma {:induction false} RangeIsDescendants(dir: Path, p: Path)
    ensures InRange(dir, p) <==> Below(dir, p)
  {
    if dir == "" {
      assert dir + "/" == "/" && dir + "0" == "0";
      if p != "" {
        assert Less("/", p) <==> ('/' < p[0] || ('/' == p[0] && Less("", p[1..])));
        assert Less(p, "0") <==> (p[0] < '0' || (p[0] == '0' && Less(p[1..], "")));
      }
    } else if p != "" {
      assert (dir + "/")[0] == dir[0] && (dir + "/")[1..] == dir[1..] + "/";
      assert (dir + "0")[0] == dir[0] && (dir + "0")[1..] == dir[1..] + "0";
      RangeIsDescendants(dir[1..], p[1..]);
      if p[0] == dir[0] {
        assert Below(dir, p) <==> Below(dir[1..], p[1..]) by {
          if |p| > |dir| + 1 {
            assert p[..|dir|] == [p[0]] + p[1..][..|dir| - 1];
            assert dir == [dir[0]] + dir[1..];
          }
        }
      } else {
        assert |p| >= |dir| ==> p[..|dir|][0] == p[0];
      }
    } else {
      assert dir + "/" != "";
    }
  }

  lemma {:induction false} ReplaceLength(x: string, y: string, z: string)
    ensures |z| <= |y| ==> |Replace(x, y, z)| <= |x|
    ensures |z| >= |y| ==> |Replace(x, y, z)| >= |x|
  {
    if y == "" || |x| < |y| {
    } else if x[..|y|] == y {
      ReplaceLength(x[|y|..], y, z);
    } else {
      ReplaceLength(x[1..], y, z);
    }
  }

  lemma {:induction false} ReplaceNonEmpty(x: string, y: string, z: string)
    requires x != "" && z != ""
    ensures Replace(x, y, z) != ""
  {
  }

  // replace() is the identity exactly when there is nothing to replace.
  lemma {:induction false} ReplaceIsIdentity(x: string, y: string, z: string)
    requires y != ""
    ensures Replace(x, y, z) == x <==> (y == z || !Occurs(y, x))
  {
    if |x| < |y| {
    } else if x[..|y|] == y {
      var rest := x[|y|..];
      assert OccursAt(y, x, 0);
      ReplaceIsIdentity(rest, y, z);
      ReplaceLength(rest, y, z);
      assert x == y + rest;
      if Replace(x, y, z) == x && |z| == |y| {
        assert (z + Replace(rest, y, z))[..|y|] == z;
      }
    } else {
      var rest := x[1..];
      ReplaceIsIdentity(rest, y, z);
      assert x == [x[0]] + rest;
      assert Occurs(y, x) <==> Occurs(y, rest) by {
        if i :| OccursAt(y, x, i) {
          assert x[0..|y|] == x[..|y|];
          assert rest[i - 1..i - 1 + |y|] == x[i..i + |y|];
          assert OccursAt(y, rest, i - 1);
        }
        if i :| OccursAt(y, rest, i) {
          assert x[i + 1..i + 1 + |y|] == rest[i..i + |y|];
          assert OccursAt(y, x, i + 1);
        }
      }
      if Replace(x, y, z) == x {
        assert Replace(x, y, z)[1..] == rest;
      }
    }
  }

  // A descendant is renamed to the right place exactly when the old name does not
  // turn up again in the part below it (or the rename changes nothing).
  lemma ReplaceMovesDescendant(p: Path, src: Path, dst: Path)
    requires src != "" && Below(src, p)
    ensures Replace(p, src, dst) == Moved(p, src, dst)
            <==> (src == dst || !Occurs(src, p[|src|..]))
  {
    var rest := p[|src|..];
    ReplaceIsIdentity(rest, src, dst);
    assert Replace(p, src, dst) == dst + Replace(rest, src, dst);
    if Replace(p, src, dst) == Moved(p, src, dst) {
      assert (dst + Replace(rest, src, dst))[|dst|..] == (dst + rest)[|dst|..];
      assert (dst + Replace(rest, src, dst))[|dst|..] == Replace(rest, src, dst);
      assert (dst + rest)[|dst|..] == rest;
    }
  }

  // The smallest everyday case that goes wrong: a child whose name starts like its parent.
  lemma RenameManglesChild()
    ensures Below("/a", "/a/apple")
    ensures Replace("/a/apple", "/a", "/b") == "/b/bpple" != Moved("/a/apple", "/a", "/b")
  {
    var p := "/a/apple";
    assert p[..2] == "/a" && p[2..] == "/apple";
    assert Moved(p, "/a", "/b") == "/b/apple";
    assert "/apple"[..2] == "/a" && "/apple"[2..] == "pple";
    assert Replace("pple", "/a", "/b") == "pple" by {
      assert "pple"[1..] == "ple" && "ple"[1..] == "le" && "le"[1..] == "e";
      assert Replace("le", "/a", "/b") == "le";
      assert Replace("ple", "/a", "/b") == "ple";
    }
    assert Replace("/apple", "/a", "/b") == "/bpple";
    assert "/b/bpple"[3] != "/b/apple"[3];
  }

  // Moving there and back is the identity on everything that was not at or below dst.
  lemma MovedBack(p: Path, src: Path, dst: Path)
    requires p != dst && !Below(dst, p)
    ensures Moved(Moved(p, src, dst), dst, src) == p
  {
    if p == src || Below(src, p) {
      var q := dst + p[|src|..];
      assert q[|dst|..] == p[|src|..];
      assert p == src + p[|src|..];
      if p == src {
        assert q == dst;
      } else {
        assert q[..|dst|] == dst && q[|dst|] == '/';
        assert Below(dst, q);
      }
    }
  }

  // Distinct paths stay distinct when nothing was at or below the target.
  lemma MovedInjective(p: Path, q: Path, src: Path, dst: Path)
    requires p != dst && !Below(dst, p)
    requires q != dst && !Below(dst, q)
    requires Moved(p, src, dst) == Moved(q, src, dst)
    ensures p == q
  {
    MovedBack(p, src, dst);
    MovedBack(q, src, dst);
  }

  predicate EndsInSlash(p: Path) { p != "" && p[|p| - 1] == '/' }

  lemma PrefixesNest(a: string, b: string, q: string)
    ensures a <= q && b <= q ==> a <= b || b <= a
  {}

  // A moved path has left the source, if neither name is inside the other.
  lemma MovedLeavesSource(p: Path, src: Path, dst: Path)
    requires src != dst && !Below(src, dst) && !Below(dst, src)
    requires !EndsInSlash(src) && !EndsInSlash(dst)
    ensures Moved(p, src, dst) != src && !Below(src, Moved(p, src, dst))
  {
    var q := Moved(p, src, dst);
    PrefixesNest(src, dst, q);
    assert src < dst ==> dst[..|src|] == src;
    assert dst < src ==> src[..|dst|] == dst;
  }

  // ----- NUL-terminated text -----

  function CString(s: string): string
  {
    if s == "" || s[0] == '\0' then "" else [s[0]] + CString(s[1..])
  }

  function AfterNul(s: string): string
  {
    var n := |CString(s)| + 1;
    if n <= |s| then s[n..] else ""
  }

  predicate NulFree(s: string) { forall i | 0 <= i < |s| :: s[i] != '\0' }

  // Text followed by its terminator reads back as the text, whatever comes after it.
  lemma {:induction false} CStringOf(s: string, n: nat)
    requires n <= |s| && NulFree(s[..n]) && (n < |s| ==> s[n] == '\0')
    ensures CString(s) == s[..n]
  {
    if n > 0 {
      assert s[0] == s[..n][0] && s[1..][..n - 1] == s[..n][1..];
      assert s[1..][n - 1..] == s[n..];
      CStringOf(s[1..], n - 1);
      assert s[..n] == [s[0]] + s[..n][1..];
    }
  }
}
