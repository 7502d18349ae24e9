// What the attribute requests do, told by name and value: after any of them the attributes of
// the inode are exactly these, and those of others are as before.

module AttrRequests {
  import opened PathText
  import opened NameList
  import opened FileTable
  import opened ServerOp
  import opened OpFacts
  import opened Agreeing
  import opened Attributes
  import opened Resending
  import opened SecondAnswer
  import opened Orphans

  // What the server stores of the inode once the checks are done: if its rows are of another
  // kind, they go, and the attributes with them.
  ghost function Held(db: Db, m: Msg, name: string): Option<string>
  {
    var a := AttrKey(m.dev, m.ino, name);
    if a in db.attrs && !Foreign(db.files, m) then Some(db.attrs[a]) else None
  }

  predicate StoredAt(db: Db, m: Msg, name: string) { AttrKey(m.dev, m.ino, name) in db.attrs }

  // The attributes of the inode that are not called `name`, and all those of other inodes.
  ghost predicate OthersStay(db: Db, d: Db, m: Msg, name: string)
  {
    && (forall n | n != name :: (StoredAt(d, m, n) <==> Held(db, m, n).Some?))
    && (forall n | n != name && StoredAt(d, m, n) :: d.attrs[AttrKey(m.dev, m.ino, n)] == Held(db, m, n).value)
    && (forall a: AttrKey | !OfInode(a, m) :: (a in d.attrs <==> a in db.attrs))
    && (forall a: AttrKey | !OfInode(a, m) && a in db.attrs :: d.attrs[a] == db.attrs[a])
  }

  // The checks, seen on the attributes.
  lemma Checks(db: Db, m: Msg) returns (c: Work)
    requires Coherent(db.files) && Agrees(db.files, m) && !Blocked(db.files, m) && m.op != DID_UNLINK
    ensures Clean(c.db, m, c) && Agrees(c.db.files, m) && Process(db, m) == Finish(c)
    ensures c.db.files == db.files || Foreign(db.files, m)
    ensures c.db.attrs == if Foreign(db.files, m) then DropAttrs(db.attrs, m.dev, m.ino) else db.attrs
  {
    hide Blocked, Front, CheckIno, Finish, Refused;
    RefusedExactly(db, m);
    FirstPass(db, m);
    ProcessedBy(db, m);
    ChecksOfAgreeing(db, m);
    CheckedAttrs(db, m);
    c := CheckIno(Front(db, m));
  }

  // Removing: the attribute is gone, whether or not it was there, and nothing else goes with it.
  lemma RemoveRemoves(db: Db, m: Msg)
    requires Coherent(db.files) && Agrees(db.files, m) && !Blocked(db.files, m) && m.op == REMOVE_XATTR
    ensures var o := Process(db, m);
            && o.msg.result == SUCCEED && !StoredAt(o.db, m, m.extra) && OthersStay(db, o.db, m, m.extra)
            && (!Foreign(db.files, m) ==> o.db.files == db.files) && Agrees(o.db.files, m)
  {
    hide Process, Blocked;
    var c := Checks(db, m);
  }

  // Setting: the value is stored, or it is refused because the name is there, or is not.
  lemma SetSets(db: Db, m: Msg)
    requires Coherent(db.files) && Agrees(db.files, m) && !Blocked(db.files, m)
    requires m.op in {SET_XATTR, CREATE_XATTR, REPLACE_XATTR}
    ensures var o := Process(db, m); var name := CString(m.extra); var held := Held(db, m, name);
            var refused := (m.op == CREATE_XATTR && held.Some?) || (m.op == REPLACE_XATTR && held.None?);
            && (o.msg.result == FAIL <==> refused) && (o.msg.result == SUCCEED <==> !refused)
            && OthersStay(db, o.db, m, name)
            && (StoredAt(o.db, m, name) <==> !refused || held.Some?)
            && (StoredAt(o.db, m, name) ==>
                  o.db.attrs[AttrKey(m.dev, m.ino, name)] == if refused then held.value else AfterNul(m.extra))
            && (!Foreign(db.files, m) ==> o.db.files == db.files)
  {
    hide Process, Blocked, CString, AfterNul;
    var c := Checks(db, m);
  }

  // Asking: the value, unless there is none or it is empty.
  lemma GetGets(db: Db, m: Msg)
    requires Coherent(db.files) && Agrees(db.files, m) && !Blocked(db.files, m) && m.op == GET_XATTR
    ensures var o := Process(db, m); var held := Held(db, m, CString(m.extra));
            && o.value == (if held.Some? && held.value != "" then held else None)
            && (o.msg.result == SUCCEED <==> o.value.Some?)
            && (!Foreign(db.files, m) ==> o.db == db)
  {
    hide Process, Blocked, CString;
    var c := Checks(db, m);
  }

  // Listing: the bytes are the names, in order and each once, of exactly the attributes that
  // are stored; no bytes are sent if there are none.
  lemma ListLists(db: Db, m: Msg) returns (names: seq<string>)
    requires Coherent(db.files) && Agrees(db.files, m) && !Blocked(db.files, m) && m.op == LIST_XATTR
    ensures var o := Process(db, m);
            && o.value == (if names == [] then None else Some(Listing(names)))
            && (forall n :: n in names <==> Held(db, m, n).Some?)
            && (forall i, j | 0 <= i < j < |names| :: Less(names[i], names[j]))
            && (!Foreign(db.files, m) ==> o.db == db)
  {
    hide Process, Blocked, Sorted, Listing;
    var c := Checks(db, m);
    var all := AttrNames(c.db, m.dev, m.ino);
    names := Sorted(all);
    SortedIsSorted(all);
    forall n
      ensures n in all <==> Held(db, m, n).Some?
    {
      assert n in all <==> AttrKey(m.dev, m.ino, n) in c.db.attrs;
    }
    assert names == [] <==> all == {};
  }

  // Once removed, it is not found, whoever asks.
  lemma RemovedIsNotFound(db: Db, m: Msg, ask: Msg)
    requires Coherent(db.files) && Agrees(db.files, m) && !Blocked(db.files, m) && m.op == REMOVE_XATTR
    requires ask.op == GET_XATTR && ask.dev == m.dev && ask.ino == m.ino && CString(ask.extra) == m.extra
    requires Agrees(Process(db, m).db.files, ask)
    ensures var o := Process(Process(db, m).db, ask); o.value == None && o.msg.result != SUCCEED
  {
    var d := Process(db, m).db;
    RemoveRemoves(db, m);
    OpKeepsCoherence(db, m);
    hide Process, Blocked, Agrees, CString, OthersStay;
    if Blocked(d.files, ask) {
      BlockedSaysNothing(d, ask);
    } else {
      GetGets(d, ask);
    }
  }

  lemma BlockedSaysNothing(db: Db, m: Msg)
    requires Blocked(db.files, m)
    ensures Process(db, m).msg.result == ABORT && Process(db, m).value == None
  {
    hide Front, Refused, Blocked;
    RefusedExactly(db, m);
    AbortExactly(db, m);
  }
}
