// The list of an inode's attribute names as it is sent back: sorted, each name followed by a NUL.

module NameList {
  import opened PathText

  // ----- the text order is a total order -----

  lemma {:induction false} LessIsTotal(a: string, b: string)
    ensures Less(a, b) || Less(b, a) || a == b
    ensures !(Less(a, b) && Less(b, a)) && (a == b ==> !Less(a, b))
  {
    if a != "" && b != "" {
      LessIsTotal(a[1..], b[1..]);
      assert a[0] == b[0] && a[1..] == b[1..] ==> a == [a[0]] + a[1..] == b;
    }
  }

  lemma {:induction false} LessIsTransitive(a: string, b: string, c: string)
    requires Less(a, b) && Less(b, c)
    ensures Less(a, c)
  {
    if a != "" && a[0] == b[0] && b[0] == c[0] { LessIsTransitive(a[1..], b[1..], c[1..]); }
  }

  predicate IsFirst(s: set<string>, n: string)
  {
    n in s && forall x | x in s :: x == n || Less(n, x)
  }

  lemma FirstExists(s: set<string>)
    requires s != {}
    ensures exists n :: IsFirst(s, n)
  {
    var k :| k in s;
    if s == {k} {
      assert IsFirst(s, k);
    } else {
      FirstExists(s - {k});
      var n :| IsFirst(s - {k}, n);
      LessIsTotal(k, n);
      if Less(k, n) {
        forall x | x in s
          ensures x == k || Less(k, x)
        {
          if x != k && x != n { LessIsTransitive(k, n, x); }
        }
        assert IsFirst(s, k);
      } else {
        assert IsFirst(s, n);
      }
    }
  }

  lemma FirstIsOne(s: set<string>, a: string, b: string)
    requires IsFirst(s, a) && IsFirst(s, b)
    ensures a == b
  {
    LessIsTotal(a, b);
  }

  function FirstName(s: set<string>): (n: string)
    requires s != {}
    ensures IsFirst(s, n)
  {
    FirstExists(s);
    assert forall a, b | IsFirst(s, a) && IsFirst(s, b) :: a == b by {
      forall a, b | IsFirst(s, a) && IsFirst(s, b) ensures a == b { FirstIsOne(s, a, b); }
    }
    var n :| n in s && IsFirst(s, n);
    n
  }

  function Sorted(s: set<string>): seq<string>
  {
    if s == {} then [] else [FirstName(s)] + Sorted(s - {FirstName(s)})
  }

  // In order, and each name once.
  lemma {:induction false} SortedIsSorted(s: set<string>)
    ensures forall x :: x in Sorted(s) <==> x in s
    ensures |Sorted(s)| == |s|
    ensures forall i, j | 0 <= i < j < |Sorted(s)| :: Less(Sorted(s)[i], Sorted(s)[j])
  {
    if s != {} {
      var n := FirstName(s);
      var rest := s - {n};
      SortedIsSorted(rest);
      assert Sorted(s) == [n] + Sorted(rest);
      forall i, j | 0 <= i < j < |Sorted(s)|
        ensures Less(Sorted(s)[i], Sorted(s)[j])
      {
        if i == 0 { assert Sorted(rest)[j - 1] in rest; }
      }
    }
  }

  // ----- the bytes -----

  function Listing(names: seq<string>): string
  {
    if names == [] then "" else names[0] + "\0" + Listing(names[1..])
  }

  lemma {:induction false} ListingSnoc(names: seq<string>, n: string)
    ensures Listing(names + [n]) == Listing(names) + n + "\0"
  {
    if names == [] {
      assert [n][1..] == [] && [] + [n] == [n];
    } else {
      assert (names + [n])[1..] == names[1..] + [n];
      ListingSnoc(names[1..], n);
    }
  }

  // Taking the bytes apart at their NULs.
  function Unlisted(bytes: string): seq<string>
    decreases |bytes|
  {
    if bytes == "" then [] else [CString(bytes)] + Unlisted(AfterNul(bytes))
  }

  lemma CStringHead(n: string, more: string)
    requires NulFree(n)
    ensures CString(n + "\0" + more) == n && AfterNul(n + "\0" + more) == more
  {
    var t := n + "\0" + more;
    assert t[..|n|] == n;
    CStringOf(t, |n|);
  }

  // The reader gets back exactly the names, in order.
  lemma {:induction false} ListingRoundTrip(names: seq<string>)
    requires forall n | n in names :: NulFree(n)
    ensures Unlisted(Listing(names)) == names
  {
    if names != [] {
      CStringHead(names[0], Listing(names[1..]));
      ListingRoundTrip(names[1..]);
    }
  }
}
