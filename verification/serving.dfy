// The server's end of a request: the received bytes are taken apart and the request carried out.

module Serving {
  import opened PathText
  import opened FileTable
  import opened ServerOp
  import opened FileDbs
  import opened Requests
  import opened Encoding

  // From received message to reply.  The buffer holds the header's number of bytes and a NUL.
  method ServeMessage(db: FileDb, a: array<char>, header: Header) returns (reply: Outcome)
    requires db.Valid() && header.pathlen < a.Length && (header.pathlen > 0 ==> a[header.pathlen] == '\0')
    requires Splits(header.fields.op) && header.pathlen > 0 ==> |CString(a[..header.pathlen])| < header.pathlen
    modifies a, db`files, db`attrs, db`dirty
    ensures db.Valid() && db.Memory() == reply.db
    ensures reply == Process(old(db.Memory()), Decoded(header.fields, old(a[..header.pathlen])))
  {
    hide Process, Decoded;
    var m := TakeApart(a, header);
    reply := PseudoOp(db, m);
  }

  // A request with a path and perhaps more, from the client's arguments to the server's reply:
  // packed, sent, received into a reused buffer, taken apart and carried out.
  method RequestAndServe(db: FileDb, r: Receiver, p: PackBuffer, fields: Msg, path: string,
                         name: Option<string>, value: Option<string>) returns (reply: Outcome)
    requires db.Valid() && r.Valid() && r.queue == []
    requires NulFree(path) && (name.Some? ==> NulFree(name.value)) && (name.None? ==> value.None?)
    modifies r, r.incoming, p, p.alloced, db`files, db`attrs, db`dirty
    ensures db.Valid() && r.Valid() && r.queue == [] && db.Memory() == reply.db
    ensures reply == Process(old(db.Memory()), Decoded(fields, Packed(path, name, value)))
  {
    hide Process, Decoded, Packed, Stripped;
    ghost var wire := Packed(path, name, value);
    PackedHoldsNul(path, name, value);
    var bytes;
    if name.Some? {
      var n := p.PackExtras(path, name.value, value);
      bytes := p.alloced[..n];
    } else {
      bytes := p.PackAlone(path);
    }
    r.Send(fields, bytes);
    assert r.queue == Frame(fields, bytes) + [];
    var header := r.Receive(fields, bytes, []);
    reply := ServeMessage(db, r.incoming, header);
  }

  lemma PackedHoldsNul(path: string, name: Option<string>, value: Option<string>)
    requires NulFree(path)
    ensures var bytes := Packed(path, name, value); bytes != "" && |CString(bytes)| < |bytes|
  {
    LessSlashNulFree(path);
    var more := Packed(path, name, value)[|Stripped(path)| + 1..];
    assert Packed(path, name, value) == Stripped(path) + "\0" + more;
    CStringBefore(Stripped(path), more);
  }
}
