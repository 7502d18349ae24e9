// How a request travels: the client packs path, name and value into one buffer, the message
// goes out as a header and that many bytes, the server reads it into a buffer it reuses, and
// takes the bytes apart again.  Characters stand for bytes.

module Encoding {
  import opened PathText
  import opened FileTable
  import opened ServerOp
  import opened OpFacts
  import opened Agreeing
  import opened AttrRequests

  // ----- what is sent -----

  // The client drops one slash at the end, but not the root's.
  function Stripped(path: string): string
  {
    if |path| + 1 > 2 && path[|path| - 1] == '/' then path[..|path| - 1] else path
  }

  // A path on its own keeps its length, so dropping a slash leaves a second NUL.
  function PackedPath(path: string): string
  {
    Stripped(path) + "\0" + if Stripped(path) == path then "" else "\0"
  }

  function PackedPair(path: string, name: string): string
  {
    Stripped(path) + "\0" + name + "\0"
  }

  function PackedTriple(path: string, name: string, value: string): string
  {
    Stripped(path) + "\0" + name + "\0" + value + "\0"
  }

  function Packed(path: string, name: Option<string>, value: Option<string>): string
  {
    match (name, value)
    case (None, _) => PackedPath(path)
    case (Some(n), None) => PackedPair(path, n)
    case (Some(n), Some(v)) => PackedTriple(path, n, v)
  }

  // The client's buffer for combined paths, which only ever grows.
  class PackBuffer {
    var alloced: array<char>

    constructor ()
      ensures fresh(alloced) && alloced.Length == 0
    {
      alloced := new char[0];
    }

    method Reserve(len: nat)
      modifies this
      ensures alloced.Length >= len && (alloced == old(alloced) || fresh(alloced))
    {
      if len > alloced.Length {
        alloced := new char[len];
      }
    }

    method Put(at: nat, s: string) returns (end: nat)
      requires at + |s| <= alloced.Length
      modifies alloced
      ensures end == at + |s| && alloced[..end] == old(alloced[..at]) + s
    {
      forall i | 0 <= i < |s| { alloced[at + i] := s[i]; }
      end := at + |s|;
    }

    // Two texts, each with its NUL, and a third with a NUL when there is one.
    method PackExtras(path: string, name: string, value: Option<string>) returns (pathlen: nat)
      modifies this, alloced
      ensures pathlen <= alloced.Length && alloced[..pathlen] == Packed(path, Some(name), value)
      ensures alloced == old(alloced) || fresh(alloced)
    {
      var strip := if |path| + 1 > 2 && path[|path| - 1] == '/' then 1 else 0;
      var partialLen := (|path| + 1) - 1 - strip;
      var start := path[..partialLen];
      assert start == Stripped(path);
      hide Stripped;
      var fullLen := |name| + 1 + (|path| + 1) - strip;
      if value.Some? { fullLen := fullLen + |value.value| + 1; }
      Reserve(fullLen);
      var at := Put(0, start);
      assert alloced[..at] == start;
      at := Put(at, "\0");
      at := Put(at, name);
      if value.Some? {
        at := Put(at, "\0");
        at := Put(at, value.value);
      }
      pathlen := Put(at, "\0");
    }

    method PackAlone(path: string) returns (bytes: string)
      modifies this, alloced
      ensures bytes == Packed(path, None, None)
      ensures alloced == old(alloced) || fresh(alloced)
    {
      var pathlen := |path| + 1;
      if pathlen > 2 && path[pathlen - 2] == '/' {
        Reserve(pathlen);
        forall i | 0 <= i < |path| { alloced[i] := path[i]; }
        alloced[pathlen - 1] := '\0';
        alloced[pathlen - 2] := '\0';
        bytes := alloced[..pathlen];
      } else {
        bytes := path + "\0";
      }
    }
  }

  // ----- framing -----

  // The fixed-size header, with the number of path bytes that follow it.
  datatype Header = Header(fields: Msg, pathlen: nat)
  datatype Item = Head(h: Header) | Byte(c: char)

  function Bytes(s: string): seq<Item> { seq(|s|, i requires 0 <= i < |s| => Byte(s[i])) }
  function Frame(fields: Msg, bytes: string): seq<Item> { [Head(Header(fields, |bytes|))] + Bytes(bytes) }

  datatype Letter = Letter(fields: Msg, bytes: string)

  function Frames(letters: seq<Letter>): seq<Item>
  {
    if letters == [] then [] else Frame(letters[0].fields, letters[0].bytes) + Frames(letters[1..])
  }

  // One end of a connection, and the buffer its messages are received into.
  class Receiver {
    var queue: seq<Item>
    var incoming: array<char>
    var incomingPathlen: nat

    ghost predicate Valid()
      reads this
    {
      incoming.Length == incomingPathlen
    }

    constructor ()
      ensures Valid() && queue == [] && fresh(incoming)
    {
      queue := [];
      incoming := new char[0];
      incomingPathlen := 0;
    }

    method Send(fields: Msg, bytes: string)
      requires Valid()
      modifies this`queue
      ensures Valid() && queue == old(queue) + Frame(fields, bytes)
    {
      queue := queue + [Head(Header(fields, |bytes|))] + Bytes(bytes);
      assert queue == old(queue) + Frame(fields, bytes);
    }

    // The buffer grows when the path would not leave room for a terminating NUL.
    method Receive(ghost fields: Msg, ghost bytes: string, ghost rest: seq<Item>) returns (header: Header)
      requires Valid() && queue == Frame(fields, bytes) + rest
      modifies this, incoming
      ensures Valid() && queue == rest && header == Header(fields, |bytes|)
      ensures |bytes| < incoming.Length && incoming[..|bytes|] == bytes
      ensures bytes != "" ==> incoming[|bytes|] == '\0'
      ensures incoming == old(incoming) || fresh(incoming)
    {
      header := queue[0].h;
      var body := queue[1..];
      if incoming.Length == 0 || header.pathlen >= incomingPathlen {
        incoming := new char[header.pathlen + 128];
        incomingPathlen := header.pathlen + 128;
      }
      var n := header.pathlen;
      assert body[..n] == Bytes(bytes) && body[n..] == rest;
      if n > 0 {
        forall i | 0 <= i < n { incoming[i] := body[i].c; }
        incoming[n] := '\0';
      }
      assert forall i | 0 <= i < n :: body[i] == Bytes(bytes)[i];
      queue := body[n..];
    }
  }

  // Whatever was sent is received, in order, through one reused buffer.
  method Exchange(letters: seq<Letter>) returns (got: seq<Letter>)
    ensures got == letters
  {
    var r := new Receiver();
    var i := 0;
    while i < |letters|
      invariant 0 <= i <= |letters| && r.Valid() && fresh(r) && fresh(r.incoming)
      invariant r.queue == Frames(letters[..i])
    {
      r.Send(letters[i].fields, letters[i].bytes);
      FramesSnoc(letters, i);
      i := i + 1;
    }
    assert letters[..i] == letters;
    got := [];
    while |got| < |letters|
      invariant |got| <= |letters| && got == letters[..|got|] && r.Valid() && fresh(r) && fresh(r.incoming)
      invariant r.queue == Frames(letters[|got|..])
      decreases |letters| - |got|
    {
      var k := |got|;
      assert letters[k..][1..] == letters[k + 1..];
      var h := r.Receive(letters[k].fields, letters[k].bytes, Frames(letters[k + 1..]));
      got := got + [Letter(h.fields, r.incoming[..h.pathlen])];
    }
    assert letters[..|got|] == letters;
  }

  lemma {:induction false} FramesAppend(a: seq<Letter>, b: Letter)
    ensures Frames(a + [b]) == Frames(a) + Frame(b.fields, b.bytes)
  {
    if a == [] {
      assert [b][1..] == [];
    } else {
      assert (a + [b])[1..] == a[1..] + [b];
      FramesAppend(a[1..], b);
    }
  }

  lemma FramesSnoc(letters: seq<Letter>, i: nat)
    requires i < |letters|
    ensures Frames(letters[..i + 1]) == Frames(letters[..i]) + Frame(letters[i].fields, letters[i].bytes)
  {
    assert letters[..i + 1] == letters[..i] + [letters[i]];
    FramesAppend(letters[..i], letters[i]);
  }

  // ----- taking a request apart -----

  predicate Splits(op: Op)
  {
    op in {RENAME, CREATE_XATTR, GET_XATTR, LIST_XATTR, REPLACE_XATTR, REMOVE_XATTR, SET_XATTR}
  }

  function LessSlash(s: string): string
  {
    if s != "" && s[|s| - 1] == '/' then s[..|s| - 1] else s
  }

  // The bytes between the first NUL and the last byte.
  function Extra(bytes: string): string
  {
    var n := |CString(bytes)| + 1;
    if n < |bytes| then bytes[n..|bytes| - 1] else ""
  }

  function Decoded(fields: Msg, bytes: string): Msg
  {
    var splits := Splits(fields.op) && bytes != "";
    var text := LessSlash(if splits then CString(bytes) else bytes);
    var extra := if !splits then "" else if fields.op == RENAME then LessSlash(Extra(bytes)) else Extra(bytes);
    fields.(named := text != "", path := CString(text), extra := extra)
  }

  method StrLen(a: array<char>, end: nat) returns (n: nat)
    requires end < a.Length && a[end] == '\0'
    ensures n <= end && a[n] == '\0' && NulFree(a[..n]) && a[..n] == CString(a[..end])
  {
    n := 0;
    while a[n] != '\0'
      invariant n <= end && forall i | 0 <= i < n :: a[i] != '\0'
      decreases end - n
    {
      n := n + 1;
    }
    CStringOf(a[..end], n);
    assert a[..end][..n] == a[..n];
  }

  // The same in the received buffer, where a dropped slash is overwritten by a NUL.
  method TakeApart(a: array<char>, header: Header) returns (m: Msg)
    requires header.pathlen < a.Length && (header.pathlen > 0 ==> a[header.pathlen] == '\0')
    requires Splits(header.fields.op) && header.pathlen > 0 ==> |CString(a[..header.pathlen])| < header.pathlen
    modifies a
    ensures m == Decoded(header.fields, old(a[..header.pathlen]))
  {
    hide LessSlash;
    var pathlen := header.pathlen;
    var extra := "";
    if pathlen > 0 && Splits(header.fields.op) {
      pathlen, extra := TakeExtra(a, header);
    }
    var path, named := TakePath(a, pathlen);
    m := header.fields.(named := named, path := path, extra := extra);
  }

  method TakeExtra(a: array<char>, header: Header) returns (pathlen: nat, extra: string)
    requires 0 < header.pathlen < a.Length && a[header.pathlen] == '\0'
             && |CString(a[..header.pathlen])| < header.pathlen
    modifies a
    ensures var bytes := old(a[..header.pathlen]);
            (pathlen < a.Length && a[..pathlen] == CString(bytes) && a[pathlen] == '\0'
             && extra == if header.fields.op == RENAME then LessSlash(Extra(bytes)) else Extra(bytes))
  {
    hide CString;
    ghost var bytes := a[..header.pathlen];
    pathlen := StrLen(a, header.pathlen);
    extra := "";
    var start := pathlen + 1;
    var extraLen := header.pathlen - start - 1;
    assert extraLen > 0 ==> a[start..start + extraLen] == Extra(bytes) == bytes[start..start + extraLen];
    if extraLen > 0 && header.fields.op == RENAME && a[start + extraLen - 1] == '/' {
      extraLen := extraLen - 1;
      a[start + extraLen] := '\0';
      assert a[start..start + extraLen] == bytes[start..start + extraLen];
    }
    if extraLen >= 0 { extra := a[start..start + extraLen]; }
    assert a[..pathlen] == bytes[..pathlen];
  }

  // The server's advisory test of the last byte.
  method TakePath(a: array<char>, len: nat) returns (path: string, named: bool)
    requires len < a.Length && (len > 0 ==> a[len] == '\0')
    modifies a
    ensures var text := LessSlash(old(a[..len])); named == (text != "") && path == CString(text)
  {
    ghost var seen := a[..len];
    var pathlen := len;
    if pathlen > 0 && a[pathlen - 1] == '/' {
      pathlen := pathlen - 1;
      a[pathlen] := '\0';
    }
    assert a[..pathlen] == LessSlash(seen);
    named := pathlen > 0;
    path := "";
    if pathlen > 0 {
      var n := StrLen(a, pathlen);
      path := a[..n];
    }
  }

  // ----- round trips -----

  lemma CStringBefore(s: string, more: string)
    requires NulFree(s)
    ensures CString(s + "\0" + more) == s
  {
    var t := s + "\0" + more;
    assert t[..|s|] == s;
    CStringOf(t, |s|);
  }

  lemma CStringWhole(s: string)
    requires NulFree(s)
    ensures CString(s) == s
  {
    assert s[..|s|] == s;
    CStringOf(s, |s|);
  }

  lemma LessSlashNulFree(s: string)
    requires NulFree(s)
    ensures NulFree(LessSlash(s)) && NulFree(Stripped(s)) && CString(LessSlash(s)) == LessSlash(s)
  {
    CStringWhole(LessSlash(s));
  }

  // A request about one path arrives with that path, less the slash the client dropped: the
  // server's own test never sees a slash here, because it looks at the NUL.
  lemma PathRoundTrip(fields: Msg, path: string)
    requires NulFree(path) && !Splits(fields.op)
    ensures var m := Decoded(fields, Packed(path, None, None));
            && m == fields.(named := true, path := Stripped(path), extra := "")
            && path == m.path + if path !in {"", "/"} && path[|path| - 1] == '/' then "/" else ""
  {
    LonePath(path);
    var bytes := PackedPath(path);
    LessSlashNulFree(path);
    assert bytes[|bytes| - 1] == '\0';
    CStringBefore(Stripped(path), if Stripped(path) == path then "" else "\0");
  }

  // A path and the data after it.
  lemma SplitRoundTrip(fields: Msg, path: string, data: string)
    requires NulFree(path) && Splits(fields.op)
    ensures var p := LessSlash(Stripped(path));
            (Decoded(fields, Stripped(path) + "\0" + (data + "\0")) ==
             fields.(named := p != "", path := p, extra := if fields.op == RENAME then LessSlash(data) else data))
  {
    LessSlashNulFree(path);
    LessSlashNulFree(Stripped(path));
    hide LessSlash, Stripped, CString, Extra;
    TwoParts(Stripped(path), data);
  }

  lemma TwoParts(first: string, data: string)
    requires NulFree(first)
    ensures var bytes := first + "\0" + (data + "\0"); CString(bytes) == first && Extra(bytes) == data
  {
    var bytes := first + "\0" + (data + "\0");
    CStringBefore(first, data + "\0");
    assert bytes[|first| + 1..|bytes| - 1] == data;
  }

  // A rename arrives with both paths, the second less one slash at its end.
  lemma RenameRoundTrip(fields: Msg, path: string, oldPath: string)
    requires NulFree(path) && NulFree(oldPath) && fields.op == RENAME
    ensures var p := LessSlash(Stripped(path));
            (Decoded(fields, Packed(path, Some(oldPath), None)) ==
             fields.(named := p != "", path := p, extra := LessSlash(oldPath)))
  {
    SplitRoundTrip(fields, path, oldPath);
    assert PackedPair(path, oldPath) == Stripped(path) + "\0" + (oldPath + "\0");
  }

  function AttrData(name: string, value: Option<string>): string
  {
    if value.Some? then name + "\0" + value.value else name
  }

  // An attribute request arrives with its name, and with every byte of its value.
  lemma AttrRoundTrip(fields: Msg, path: string, name: string, value: Option<string>)
    requires NulFree(path) && NulFree(name) && Splits(fields.op) && fields.op != RENAME
    ensures var p := LessSlash(Stripped(path));
            var m := Decoded(fields, Packed(path, Some(name), value));
            (m == fields.(named := p != "", path := p, extra := AttrData(name, value))
             && AttrOf(m).name == name && CString(m.extra) == name
             && (value.Some? ==> AfterNul(m.extra) == value.value && |m.extra| == |name| + 1 + |value.value|))
  {
    var data := AttrData(name, value);
    SplitRoundTrip(fields, path, data);
    assert Packed(path, Some(name), value) == Stripped(path) + "\0" + (data + "\0");
    hide Stripped, LessSlash, Decoded, Packed;
    if value.Some? {
      CStringBefore(name, value.value);
      assert data[|name| + 1..] == value.value;
    } else {
      CStringWhole(name);
    }
  }

  // Of a path alone one slash is lost, if it ends in one and is not the root.
  lemma LonePath(path: string)
    ensures path != "" && path != "/" && path[|path| - 1] == '/' ==> Stripped(path) + "/" == path
    ensures path == "" || path == "/" || path[|path| - 1] != '/' ==> Stripped(path) == path
  {
    assert |path| == 1 ==> path == [path[0]];
  }

  // The path of a split request is the original less one slash exactly when it does not end in
  // two of them; only the root arrives without a name.
  lemma ArrivingPath(path: string)
    ensures LessSlash(Stripped(path)) == LessSlash(path) <==>
            !(|path| >= 2 && path[|path| - 1] == path[|path| - 2] == '/')
    ensures LessSlash(Stripped(path)) == "" <==> path == "" || path == "/" || path == "//"
  {
    var s := LessSlash(Stripped(path));
    if s == "" {
      assert |path| <= 2;
      assert |path| == 1 ==> path == [path[0]];
      assert |path| == 2 ==> path == [path[0], path[1]];
    }
    if |path| >= 2 && path[|path| - 1] == path[|path| - 2] == '/' {
      assert |s| == |path| - 2;
    }
  }

  // ----- end to end -----

  // Set an attribute of a file and read it back: the bytes that were set, unless there were none.
  lemma SetThenGet(db: Db, fields: Msg, path: string, name: string, value: string)
    requires NulFree(path) && NulFree(name)
    requires var put := Decoded(fields.(op := SET_XATTR), Packed(path, Some(name), Some(value)));
             Agrees(db.files, put) && !Blocked(db.files, put)
    ensures var put := Decoded(fields.(op := SET_XATTR), Packed(path, Some(name), Some(value)));
            var ask := Decoded(fields.(op := GET_XATTR), Packed(path, Some(name), None));
            var answer := Process(Process(db, put).db, ask);
            (answer.value == (if value == "" then None else Some(value))
             && (answer.msg.result == SUCCEED <==> value != ""))
  {
    var put := Decoded(fields.(op := SET_XATTR), Packed(path, Some(name), Some(value)));
    var ask := Decoded(fields.(op := GET_XATTR), Packed(path, Some(name), None));
    AttrRoundTrip(fields.(op := SET_XATTR), path, name, Some(value));
    AttrRoundTrip(fields.(op := GET_XATTR), path, name, None);
    RefusedExactly(db, put);
    hide Blocked, Front, Refused, Decoded, Packed, LessSlash, Stripped, CString, AfterNul, AttrData;
    StoredThenFound(db, put, ask);
  }

  // Remove it, and it is not found.
  lemma RemoveThenGet(db: Db, fields: Msg, path: string, name: string)
    requires NulFree(path) && NulFree(name) && Coherent(db.files)
    requires var drop := Decoded(fields.(op := REMOVE_XATTR), Packed(path, Some(name), None));
             Agrees(db.files, drop) && !Blocked(db.files, drop)
    ensures var drop := Decoded(fields.(op := REMOVE_XATTR), Packed(path, Some(name), None));
            var ask := Decoded(fields.(op := GET_XATTR), Packed(path, Some(name), None));
            var d := Process(db, drop);
            var answer := Process(d.db, ask);
            (d.msg.result == SUCCEED && AttrKey(fields.dev, fields.ino, name) !in d.db.attrs
             && answer.value == None && answer.msg.result != SUCCEED)
  {
    var drop := Decoded(fields.(op := REMOVE_XATTR), Packed(path, Some(name), None));
    var ask := Decoded(fields.(op := GET_XATTR), Packed(path, Some(name), None));
    AttrRoundTrip(fields.(op := REMOVE_XATTR), path, name, None);
    AttrRoundTrip(fields.(op := GET_XATTR), path, name, None);
    hide Process, Blocked, Decoded, Packed, LessSlash, Stripped, CString;
    RemoveRemoves(db, drop);
    RemovedIsNotFound(db, drop, ask);
  }

  lemma StoredThenFound(db: Db, put: Msg, ask: Msg)
    requires Agrees(db.files, put) && !Refused(Front(db, put))
    requires put.op == SET_XATTR && ask == put.(op := GET_XATTR, extra := ask.extra)
    requires CString(ask.extra) == CString(put.extra)
    ensures var value := AfterNul(put.extra);
            var answer := Process(Process(db, put).db, ask);
            (answer.value == (if value == "" then None else Some(value))
             && (answer.msg.result == SUCCEED <==> value != ""))
  {
    hide Front, CheckIno, CString, AfterNul;
    CheckInoOfAgreeing(db, put);
    FrontOfAgreeing(db, put);
    var c := CheckIno(Front(db, put));
    var db1 := Process(db, put).db;
    assert db1 == c.db.(attrs := c.db.attrs[AttrOf(put) := AfterNul(put.extra)]);
    FrontOfAgreeing(db1, ask);
    var w := Front(db1, ask);
    SecondLook(db, put, ask, db1, c);
    assert Process(db1, ask) == Finish(w);
  }

  // The second request meets the rows the first one left, and passes the same checks.
  lemma SecondLook(db: Db, put: Msg, ask: Msg, db1: Db, c: Work)
    requires Agrees(db.files, put) && !Refused(Front(db, put)) && c == CheckIno(Front(db, put))
    requires put.op == SET_XATTR && ask == put.(op := GET_XATTR, extra := ask.extra)
    requires db1.files == c.db.files
    ensures var w := Front(db1, ask); !Refused(w) && CheckIno(w) == w
  {
    hide Front, CheckIno;
    FrontOfAgreeing(db, put);
    CheckInoOfAgreeing(db, put);
    FrontOfAgreeing(db1, ask);
    var w := Front(db1, ask);
    if HasInode(db1.files, put.dev, put.ino) {
      assert c.db == db;
      SameLook(db, db1, put, ask);
      KindKept(Front(db, put));
    }
    CheckNothing(w);
  }

  lemma SameLook(db: Db, db1: Db, put: Msg, ask: Msg)
    requires Agrees(db.files, put) && db1.files == db.files
    requires put.op == SET_XATTR && ask == put.(op := GET_XATTR, extra := ask.extra)
    ensures var v := Front(db, put); var w := Front(db1, ask);
            (w.foundIno == v.foundIno && w.pathByIno == v.pathByIno && w.byIno.mode == v.byIno.mode
             && w.byIno.deleting == v.byIno.deleting)
  {
    assert CheckPath(Lookup(db, put)) == Lookup(db, put) by { LookupStays(db, put); }
    assert CheckPath(Lookup(db1, ask)) == Lookup(db1, ask) by { LookupStays(db1, ask); }
  }

  lemma LookupStays(db: Db, m: Msg)
    requires Agrees(db.files, m)
    ensures CheckPath(Lookup(db, m)) == Lookup(db, m)
  {}

  lemma KindKept(w: Work)
    requires !Refused(w) && w.foundIno && CheckIno(w).foundIno && w.msg.op != DID_UNLINK
    ensures SameKind(w.byIno.mode, w.header.mode)
  {}
}
