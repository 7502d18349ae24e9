// The server's table of connections and its decision to leave: slots reused or grown, a count
// that must stay right for a shutdown request to be judged, and an exit that strands nobody.

module Clients {
  import opened PathText
  import opened FileTable

  const LOOP_DELAY: int := 2
  const DEFAULT_TIMEOUT: int := 30
  const SHORT_TIMEOUT: int := 3

  // A closed slot has descriptor -1.  The first ping tells the process, its program and its tag.
  datatype Client = Client(fd: int, pid: int, program: Option<string>, tag: Option<string>)
  const NOBODY: Client := Client(-1, 0, None, None)

  function Opened(fd: int): Client { Client(fd, 0, None, None) }

  datatype Answer = Ack | Nak(pids: seq<int>, others: int)

  // What one wake-up of the loop brings.
  datatype Event = Accept(fd: int) | Hangup(id: nat) | Ping(id: nat, pid: int, bytes: string)
      | Request(id: nat) | Shutdown(id: nat) | Terminate
  datatype Wake = Quiet | Busy(events: seq<Event>)

  function Live(slots: seq<Client>): set<nat>
  {
    set i | 0 <= i < |slots| && slots[i].fd != -1
  }

  // The process ids of the live slots among the first n, without slot `but` and the listener.
  function Listed(slots: seq<Client>, n: nat, but: nat): seq<int>
    requires n <= |slots|
  {
    if n <= 1 then []
    else Listed(slots, n - 1, but) + if slots[n - 1].fd != -1 && n - 1 != but then [slots[n - 1].pid] else []
  }

  lemma LiveBelow(slots: seq<Client>, n: nat)
    requires n < |slots|
    ensures Live(slots[..n + 1]) == Live(slots[..n]) + if slots[n].fd != -1 then {n} else {}
    ensures n !in Live(slots[..n])
  {}

  lemma OneMore(was: set<nat>, now: set<nat>, n: nat, more: bool, but: nat)
    requires n !in was && n != 0 && now == was + if more then {n} else {}
    ensures |now - {0, but}| == |was - {0, but}| + if more && n != but then 1 else 0
  {
    if more && n != but {
      assert now - {0, but} == (was - {0, but}) + {n};
    } else {
      assert now - {0, but} == was - {0, but};
    }
  }

  lemma OnlyFirst(slots: seq<Client>, n: nat, but: nat)
    requires n <= 1 && n <= |slots|
    ensures Live(slots[..n]) - {0, but} == {}
  {}

  // The list is as long as there are such slots.
  lemma {:induction false} ListedCounts(slots: seq<Client>, n: nat, but: nat)
    requires n <= |slots|
    ensures |Listed(slots, n, but)| == |Live(slots[..n]) - {0, but}|
  {
    hide Live;
    if n <= 1 {
      OnlyFirst(slots, n, but);
    } else {
      ListedCounts(slots, n - 1, but);
      LiveBelow(slots, n - 1);
      assert slots[..n - 1 + 1] == slots[..n];
      OneMore(Live(slots[..n - 1]), Live(slots[..n]), n - 1, slots[n - 1].fd != -1, but);
    }
  }

  lemma {:induction false} ListedHas(slots: seq<Client>, n: nat, but: nat, j: nat)
    requires 0 < j < n <= |slots| && j != but && slots[j].fd != -1
    ensures slots[j].pid in Listed(slots, n, but)
  {
    if j < n - 1 { ListedHas(slots, n - 1, but, j); }
  }

  lemma SubsetCount(s: set<nat>, a: nat, b: nat)
    requires a in s && b in s && a != b
    ensures |s - {a, b}| == |s| - 2
  {
    assert s - {a, b} == (s - {a}) - {b};
  }

  // The slot a new client gets.
  function FirstFree(live: set<nat>): (n: nat)
    ensures n !in live && forall j | 0 <= j < n :: j in live
  {
    FirstFreeFrom(live, 0)
  }

  function FirstFreeFrom(live: set<nat>, n: nat): (m: nat)
    requires forall j | 0 <= j < n :: j in live
    ensures m >= n && m !in live && forall j | 0 <= j < m :: j in live
    decreases |From(live, n)|
  {
    if n !in live then n
    else
      assert From(live, n) == From(live, n + 1) + {n};
      FirstFreeFrom(live, n + 1)
  }

  function From(live: set<nat>, n: nat): set<nat> { set j | j in live && j >= n }

  lemma FirstFreeIs(live: set<nat>, n: nat)
    requires n !in live && forall j | 0 <= j < n :: j in live
    ensures FirstFree(live) == n
  {}

  // ----- what the events do, on the slots and the decision to leave -----

  // patience: what is left of the timeout before an idle server leaves; answers: what shutdown
  // requests have been told.
  datatype Board = Board(slots: seq<Client>, peaceful: bool, forceful: bool, timeout: int, patience: int,
                         answers: seq<Answer>)

  predicate Leaving(b: Board) { b.peaceful || b.forceful }

  predicate Guest(slots: seq<Client>, id: nat) { 0 < id < |slots| && slots[id].fd != -1 }

  // The table with one client more: in the first closed slot, or in the first of sixteen new ones.
  function Seated(slots: seq<Client>, fd: int): seq<Client>
  {
    var n := FirstFree(Live(slots));
    if n < |slots| then slots[n := Opened(fd)] else slots + [Opened(fd)] + seq(15, _ => NOBODY)
  }

  // The first ping of a client: a program name and, behind its NUL, a tag.
  function Pinged(was: Client, pid: int, bytes: string): Client
  {
    if was.pid != 0 then was
    else if bytes == "" then was.(pid := pid)
    else was.(pid := pid, program := Some(CString(bytes)),
              tag := if |CString(bytes)| < |bytes| then Some(CString(AfterNul(bytes))) else was.tag)
  }

  function AfterEvent(b: Board, e: Event): Board
  {
    match e
    case Accept(fd) =>
      if b.forceful || fd == -1 then b
      else b.(slots := Seated(b.slots, fd), peaceful := false, timeout := DEFAULT_TIMEOUT)
    case Hangup(id) => if Guest(b.slots, id) then b.(slots := b.slots[id := NOBODY]) else b
    case Ping(id, pid, bytes) =>
      if Guest(b.slots, id) then b.(slots := b.slots[id := Pinged(b.slots[id], pid, bytes)]) else b
    case Request(_) => b
    case Shutdown(id) =>
      if !Guest(b.slots, id) then b
      else
        var others := Live(b.slots) - {0, id};
        if others == {} then b.(peaceful := true, answers := b.answers + [Ack])
        else b.(timeout := SHORT_TIMEOUT, answers := b.answers + [Nak(Listed(b.slots, |b.slots|, id), |others|)])
    case Terminate => b.(forceful := true)
  }

  // The events of one wake, until one says to leave at once.
  function AfterEvents(b: Board, events: seq<Event>): Board
    decreases |events|
  {
    if events == [] || b.forceful then b else AfterEvents(AfterEvent(b, events[0]), events[1..])
  }

  function AfterWake(b: Board, w: Wake): Board
  {
    match w
    case Busy(events) => AfterEvents(b.(patience := b.timeout), events)
    case Quiet =>
      if Live(b.slots) != {0} then b
      else b.(patience := b.patience - LOOP_DELAY, peaceful := b.peaceful || b.patience <= LOOP_DELAY)
  }

  // The wakes, until the loop leaves.
  function AfterWakes(b: Board, wakes: seq<Wake>): Board
    decreases |wakes|
  {
    if wakes == [] || Leaving(b) then b else AfterWakes(AfterWake(b, wakes[0]), wakes[1..])
  }

  class ClientTable {
    const listenFd: int
    var clients: array<Client>
    var activeClients: int
    var highestClient: int
    var maxClients: int
    var diePeacefully: bool
    var dieForcefully: bool
    var serverTimeout: int
    // The client whose shutdown request was granted.
    ghost var requester: nat

    ghost function LiveSlots(): set<nat>
      reads this, clients
    {
      Live(clients[..])
    }

    ghost function Seen(patience: int, answers: seq<Answer>): Board
      reads this, clients
    {
      Board(clients[..], diePeacefully, dieForcefully, serverTimeout, patience, answers)
    }

    ghost predicate Valid()
      reads this, clients
    {
      && listenFd != -1
      && maxClients == clients.Length && 0 <= highestClient < maxClients
      && activeClients == |LiveSlots()|
      && clients[0].fd == listenFd
      && (forall i | i in LiveSlots() :: i <= highestClient)
      && (diePeacefully ==> LiveSlots() <= {0, requester})
    }

    constructor (listenFd: int)
      requires listenFd != -1
      ensures Valid() && LiveSlots() == {0} && this.listenFd == listenFd && fresh(clients)
      ensures !diePeacefully && !dieForcefully && serverTimeout == DEFAULT_TIMEOUT
    {
      this.listenFd := listenFd;
      clients := new Client[16](i => if i == 0 then Opened(listenFd) else NOBODY);
      activeClients, highestClient, maxClients := 1, 0, 16;
      diePeacefully, dieForcefully := false, false;
      serverTimeout := DEFAULT_TIMEOUT;
      requester := 0;
      new;
      assert LiveSlots() == {0};
    }

    // The first closed slot, or one of sixteen new ones.
    method OpenClient(fd: int) returns (slot: nat)
      requires Valid() && fd != -1 && !diePeacefully
      modifies this`clients, this`activeClients, this`highestClient, this`maxClients, clients
      ensures Valid() && (clients == old(clients) || fresh(clients))
      ensures slot !in old(LiveSlots()) && LiveSlots() == old(LiveSlots()) + {slot}
      ensures slot < clients.Length && clients[slot] == Opened(fd)
      ensures old(clients.Length) <= clients.Length
      ensures forall j | 0 <= j < old(clients.Length) && j != slot :: clients[j] == old(clients[j])
      ensures slot == FirstFree(old(LiveSlots())) && clients[..] == Seated(old(clients[..]), fd)
    {
      ghost var was := clients[..];
      SeatedIs(was, fd);
      slot := FirstClosed();
      if slot == maxClients { Grow(); }
      clients[slot] := Opened(fd);
      assert clients[..] == Seated(was, fd);
      hide FirstFree, Live, Seated;
      activeClients := activeClients + 1;
      if slot > highestClient { highestClient := slot; }
    }

    method FirstClosed() returns (i: nat)
      requires Valid()
      ensures i <= clients.Length && i == FirstFree(LiveSlots()) && (i < clients.Length ==> clients[i].fd == -1)
    {
      i := 0;
      while i < maxClients && clients[i].fd != -1
        invariant 0 <= i <= maxClients && forall j | 0 <= j < i :: clients[j].fd != -1
      {
        i := i + 1;
      }
      FirstFreeIs(LiveSlots(), i);
    }

    method Grow()
      requires Valid()
      modifies this`clients, this`highestClient, this`maxClients
      ensures Valid() && fresh(clients) && clients.Length == old(clients.Length) + 16
      ensures LiveSlots() == old(LiveSlots()) && highestClient == old(maxClients) + 1
      ensures forall j | 0 <= j < old(clients.Length) :: clients[j] == old(clients[j])
      ensures forall j | old(clients.Length) <= j < clients.Length :: clients[j] == NOBODY
    {
      var bigger := new Client[maxClients + 16];
      forall i | 0 <= i < maxClients { bigger[i] := clients[i]; }
      forall i | maxClients <= i < maxClients + 16 { bigger[i] := NOBODY; }
      ghost var was := LiveSlots();
      clients := bigger;
      highestClient := maxClients + 1;
      maxClients := maxClients + 16;
      assert LiveSlots() == was;
    }

    // The listener's slot and slots past the bound are refused.  Looking for a lower bound stops
    // at once, on the slot just emptied, so the bound stays where it was.
    method CloseClient(client: int)
      requires Valid() && (client in LiveSlots() || client > highestClient || client <= 0)
      modifies this`activeClients, this`highestClient, clients
      ensures Valid() && highestClient == old(highestClient)
      ensures LiveSlots() == old(LiveSlots()) - if client > 0 then {client} else {}
      ensures clients[..] == if client > 0 && client in old(LiveSlots())
                             then old(clients[..])[client := NOBODY] else old(clients[..])
    {
      if client > highestClient || client <= 0 { return; }
      ghost var was := LiveSlots();
      clients[client] := NOBODY;
      assert LiveSlots() == was - {client};
      activeClients := activeClients - 1;
      if client == highestClient { LowerBound(); }
    }

    // Steps down past open slots only.
    method LowerBound()
      requires 0 <= highestClient < clients.Length
      modifies this`highestClient
      ensures 0 <= highestClient <= old(highestClient)
      ensures clients[old(highestClient)].fd == -1 ==> highestClient == old(highestClient)
      ensures highestClient > 0 ==> clients[highestClient].fd == -1
    {
      while clients[highestClient].fd != -1 && highestClient > 0
        invariant 0 <= highestClient <= old(highestClient) < clients.Length
        invariant clients[old(highestClient)].fd == -1 ==> highestClient == old(highestClient)
        decreases highestClient
      {
        highestClient := highestClient - 1;
      }
    }

    // A program name and, behind its NUL, a tag.
    method PingClient(client: nat, pid: int, bytes: string)
      requires Valid() && client in LiveSlots() && client != 0
      modifies clients
      ensures Valid() && LiveSlots() == old(LiveSlots())
      ensures clients[..] == old(clients[..])[client := Pinged(old(clients[client]), pid, bytes)]
      ensures clients[client] ==
              var was := old(clients[client]);
              if was.pid != 0 then was
              else if bytes == "" then was.(pid := pid)
              else was.(pid := pid, program := Some(CString(bytes)),
                        tag := if |CString(bytes)| < |bytes| then Some(CString(AfterNul(bytes))) else was.tag)
      ensures Seen(0, []) == AfterEvent(old(Seen(0, [])), Ping(client, pid, bytes))
    {
      ghost var was := LiveSlots();
      var c := clients[client];
      if c.pid == 0 {
        c := c.(pid := pid);
        if |bytes| > 0 {
          var proglen := |CString(bytes)|;
          c := c.(program := Some(CString(bytes)));
          if |bytes| > proglen { c := c.(tag := Some(CString(AfterNul(bytes)))); }
        }
        clients[client] := c;
      }
      assert LiveSlots() == was;
    }

    // A shutdown is granted when only the listener and the client that asks are left;
    // otherwise the answer names everyone else.
    method ServeShutdown(client: nat) returns (answer: Answer)
      requires Valid() && client in LiveSlots() && client != 0
      modifies this`diePeacefully, this`requester, this`serverTimeout
      ensures Valid()
      ensures answer.Ack? <==> LiveSlots() == {0, client}
      ensures answer.Ack? ==> diePeacefully && requester == client && serverTimeout == old(serverTimeout)
      ensures answer.Nak? ==> diePeacefully == old(diePeacefully) && serverTimeout == SHORT_TIMEOUT
      ensures answer.Nak? ==> answer.pids == Listed(clients[..], clients.Length, client)
      ensures Seen(0, [answer]) == AfterEvent(old(Seen(0, [])), Shutdown(client))
      ensures answer.Nak? ==>
                && answer.others == |answer.pids| == |LiveSlots() - {0, client}|
                && forall j | j in LiveSlots() - {0, client} :: clients[j].pid in answer.pids
    {
      hide AfterEvent, Listed, Live;
      ShutdownFacts(this, client);
      if activeClients > 2 {
        var pids := ListOthers(client);
        serverTimeout := SHORT_TIMEOUT;
        return Nak(pids, activeClients - 2);
      }
      diePeacefully := true;
      requester := client;
      return Ack;
    }

    method ListOthers(client: nat) returns (pids: seq<int>)
      requires Valid()
      ensures pids == Listed(clients[..], clients.Length, client)
    {
      pids := [];
      var j := 1;
      while j <= highestClient
        invariant 1 <= j <= highestClient + 1 && pids == Listed(clients[..], j, client)
      {
        if clients[j].fd != -1 && j != client { pids := pids + [clients[j].pid]; }
        j := j + 1;
      }
      forall i | j <= i < clients.Length ensures clients[..][i].fd == -1 {
        assert i !in LiveSlots();
      }
      ClosedAreNotListed(clients[..], j, |clients[..]|, client);
    }

    // A new client cancels any leave already granted.
    method AcceptClient(fd: int)
      requires Valid() && fd != -1
      modifies this`clients, this`activeClients, this`highestClient, this`maxClients, this`diePeacefully,
          this`serverTimeout, clients
      ensures Valid() && !diePeacefully && (clients == old(clients) || fresh(clients))
      ensures LiveSlots() == old(LiveSlots()) + {FirstFree(old(LiveSlots()))} && serverTimeout == DEFAULT_TIMEOUT
      ensures clients[..] == Seated(old(clients[..]), fd)
    {
      serverTimeout := DEFAULT_TIMEOUT;
      diePeacefully := false;
      var _ := OpenClient(fd);
    }

    // One report of the poll: who is live afterwards, and whether the server is to leave.
    // Descriptors that are closed are never reported.
    method Handle(e: Event) returns (answers: seq<Answer>)
      requires Valid()
      modifies this, clients
      ensures Valid() && (clients == old(clients) || fresh(clients))
      ensures Seen(0, answers) == AfterEvent(old(Seen(0, [])), e)
      ensures dieForcefully == (old(dieForcefully) || e.Terminate?)
      ensures match e
              case Accept(fd) =>
                if old(dieForcefully) || fd == -1 then LiveSlots() == old(LiveSlots()) && diePeacefully
                    == old(diePeacefully)
                else LiveSlots() == old(LiveSlots()) + {FirstFree(old(LiveSlots()))} && !diePeacefully
              case Hangup(id) =>
                LiveSlots() == old(LiveSlots()) - (if id > 0 then {id} else {}) && diePeacefully == old(diePeacefully)
              case Shutdown(id) =>
                LiveSlots() == old(LiveSlots())
                && diePeacefully == (old(diePeacefully) || (id > 0 && LiveSlots() == {0, id}))
              case _ => LiveSlots() == old(LiveSlots()) && diePeacefully == old(diePeacefully)
    {
      ghost var b := Seen(0, []);
      assert 0 in Live(b.slots);
      hide AfterEvent, Live;
      EventMeans(b, e);
      answers := Serve(e);
    }

    method Serve(e: Event) returns (answers: seq<Answer>)
      requires Valid()
      modifies this, clients
      ensures Valid() && (clients == old(clients) || fresh(clients))
      ensures Seen(0, answers) == AfterEvent(old(Seen(0, [])), e)
      ensures dieForcefully == (old(dieForcefully) || e.Terminate?)
    {
      hide AfterEvent, Seated, Opened, Live;
      answers := [];
      ghost var b := Seen(0, []);
      OtherEvents(b, e);
      match e
      case Accept(fd) =>
        if !dieForcefully && fd != -1 { AcceptClient(fd); }
      case Hangup(id) =>
        if 0 < id < maxClients && clients[id].fd != -1 {
          GuestIsLive(clients[..], id);
          CloseClient(id);
        }
      case Ping(id, pid, bytes) =>
        if 0 < id < maxClients && clients[id].fd != -1 {
          GuestIsLive(clients[..], id);
          PingClient(id, pid, bytes);
        }
      case Request(_) =>
      case Shutdown(id) =>
        if 0 < id < maxClients && clients[id].fd != -1 {
          GuestIsLive(clients[..], id);
          var answer := ServeShutdown(id);
          answers := [answer];
        }
      case Terminate =>
        dieForcefully := true;
    }
  }

  // More than two live slots, or only the listener and the one that asks.
  lemma ShutdownFacts(t: ClientTable, id: nat)
    requires t.Valid() && id in t.LiveSlots() && id != 0
    ensures var live := t.LiveSlots(); var others := live - {0, id}; var b := t.Seen(0, []);
            && |others| == t.activeClients - 2 && (t.activeClients > 2 <==> others != {})
            && (others == {} <==> live == {0, id}) && 0 in live
            && AfterEvent(b, Shutdown(id)) ==
               (if others == {} then b.(peaceful := true, answers := b.answers + [Ack])
                else b.(timeout := SHORT_TIMEOUT,
                        answers := b.answers + [Nak(Listed(b.slots, |b.slots|, id), |others|)]))
            && |Listed(b.slots, |b.slots|, id)| == |others|
            && forall j | j in others :: j < t.clients.Length && t.clients[j].pid in Listed(b.slots, |b.slots|, id)
  {
    var live := t.LiveSlots();
    var slots := t.clients[..];
    assert 0 in live;
    SubsetCount(live, 0, id);
    AllListed(slots, |slots|, id);
    assert live - {0, id} == {} <==> live == {0, id};
    if live - {0, id} == {} { assert |live - {0, id}| == 0; }
    ShutdownIs(t.Seen(0, []), id);
  }

  lemma ShutdownIs(b: Board, id: nat)
    requires Guest(b.slots, id)
    ensures var others := Live(b.slots) - {0, id};
            AfterEvent(b, Shutdown(id)) ==
            if others == {} then b.(peaceful := true, answers := b.answers + [Ack])
            else b.(timeout := SHORT_TIMEOUT, answers := b.answers + [Nak(Listed(b.slots, |b.slots|, id), |others|)])
  {}

  // The events that do little.
  lemma OtherEvents(b: Board, e: Event)
    ensures e.Accept? ==>
              AfterEvent(b, e) ==
              if b.forceful || e.fd == -1 then b
              else b.(slots := Seated(b.slots, e.fd), peaceful := false, timeout := DEFAULT_TIMEOUT)
    ensures e.Hangup? ==>
              AfterEvent(b, e) == if Guest(b.slots, e.id) then b.(slots := b.slots[e.id := NOBODY]) else b
    ensures (e.Ping? || e.Shutdown?) && !Guest(b.slots, e.id) ==> AfterEvent(b, e) == b
    ensures e.Request? ==> AfterEvent(b, e) == b
    ensures e.Terminate? ==> AfterEvent(b, e) == b.(forceful := true)
  {}

  // Patience and earlier answers do not matter to an event.
  lemma EventAnywhere(b: Board, patience: int, said: seq<Answer>, e: Event)
    requires b.answers == []
    ensures var c := AfterEvent(b, e);
            AfterEvent(b.(patience := patience, answers := said), e)
            == c.(patience := patience, answers := said + c.answers)
  {
    assert said + [] == said;
  }

  lemma GuestIsLive(slots: seq<Client>, id: nat)
    ensures Guest(slots, id) <==> id > 0 && id in Live(slots)
    ensures Guest(slots, id) && slots[0].fd != -1 ==> (Live(slots) - {0, id} == {} <==> Live(slots) == {0, id})
  {}

  // An event, seen on the live slots.
  lemma EventMeans(b: Board, e: Event)
    requires 0 in Live(b.slots)
    ensures var c := AfterEvent(b, e); var was := Live(b.slots); var now := Live(c.slots);
            match e
            case Accept(fd) =>
              if b.forceful || fd == -1 then now == was && c.peaceful == b.peaceful
              else now == was + {FirstFree(was)} && !c.peaceful
            case Hangup(id) => now == was - (if id > 0 then {id} else {}) && c.peaceful == b.peaceful
            case Shutdown(id) => now == was && c.peaceful == (b.peaceful || (id > 0 && now == {0, id}))
            case _ => now == was && c.peaceful == b.peaceful
  {
    match e
    case Accept(fd) => if fd != -1 { SeatedIs(b.slots, fd); }
    case Shutdown(id) =>
      if Guest(b.slots, id) {
        assert id in Live(b.slots);
        assert Live(b.slots) - {0, id} == {} <==> Live(b.slots) == {0, id};
      }
    case _ =>
  }

  lemma {:induction false} ClosedAreNotListed(slots: seq<Client>, n: nat, m: nat, but: nat)
    requires 0 < n <= m <= |slots| && forall i | n <= i < m :: slots[i].fd == -1
    ensures Listed(slots, m, but) == Listed(slots, n, but)
    decreases m
  {
    if n < m { ClosedAreNotListed(slots, n, m - 1, but); }
  }

  lemma AllListed(slots: seq<Client>, n: nat, but: nat)
    requires n <= |slots| && forall i | i in Live(slots) :: i < n
    ensures |Listed(slots, n, but)| == |Live(slots) - {0, but}|
    ensures forall j | j in Live(slots) - {0, but} :: slots[j].pid in Listed(slots, n, but)
  {
    ListedCounts(slots, n, but);
    assert Live(slots[..n]) == Live(slots);
    forall j | j in Live(slots) - {0, but}
      ensures slots[j].pid in Listed(slots, n, but)
    {
      ListedHas(slots, n, but, j);
    }
  }

  // The loop: wake up, handle what was reported, and leave when told to or when bored.
  method ServerLoop(t: ClientTable, wakes: seq<Wake>) returns (left: bool, answers: seq<Answer>)
    requires t.Valid() && !t.diePeacefully && !t.dieForcefully
    modifies t, t.clients
    ensures t.Valid()
    // slots, decision to leave, timeout and answers are those the wakes lead to
    ensures exists p :: t.Seen(p, answers) == AfterWakes(old(t.Seen(t.serverTimeout, [])), wakes)
    ensures left <==> t.diePeacefully || t.dieForcefully
    ensures left && !t.dieForcefully ==> t.LiveSlots() <= {0, t.requester} && 0 in t.LiveSlots()
  {
    hide AfterEvents, AfterEvent, Live;
    ghost var want := AfterWakes(t.Seen(t.serverTimeout, []), wakes);
    var loopTimeout := t.serverTimeout;
    left, answers := false, [];
    var n := 0;
    while n < |wakes| && !left
      invariant 0 <= n <= |wakes| && t.Valid() && (t.clients == old(t.clients) || fresh(t.clients))
      invariant left <==> t.diePeacefully || t.dieForcefully
      invariant AfterWakes(t.Seen(loopTimeout, answers), wakes[n..]) == want
    {
      ghost var b := t.Seen(loopTimeout, answers);
      assert wakes[n..][0] == wakes[n] && wakes[n..][1..] == wakes[n + 1..];
      match wakes[n] {
        case Quiet =>
          ListenerCount(t);
          if t.activeClients == 1 {
            loopTimeout := loopTimeout - LOOP_DELAY;
            if loopTimeout <= 0 { t.diePeacefully := true; }
          }
        case Busy(events) =>
          loopTimeout := t.serverTimeout;
          EventsAnywhere(t.Seen(0, []), loopTimeout, answers, events);
          var said := HandleReports(t, events);
          answers := answers + said;
      }
      assert t.Seen(loopTimeout, answers) == AfterWake(b, wakes[n]);
      left := t.diePeacefully || t.dieForcefully;
      n := n + 1;
    }
    assert t.Seen(loopTimeout, answers) == want;
    ListenerCount(t);
  }

  // The reports of one wake, until one says to leave at once.
  method HandleReports(t: ClientTable, events: seq<Event>) returns (answers: seq<Answer>)
    requires t.Valid()
    modifies t, t.clients
    ensures t.Valid() && (t.clients == old(t.clients) || fresh(t.clients))
    ensures t.Seen(0, answers) == AfterEvents(old(t.Seen(0, [])), events)
  {
    hide AfterEvent;
    ghost var want := AfterEvents(t.Seen(0, []), events);
    answers := [];
    var i := 0;
    while i < |events| && !t.dieForcefully
      invariant 0 <= i <= |events| && t.Valid() && (t.clients == old(t.clients) || fresh(t.clients))
      invariant AfterEvents(t.Seen(0, answers), events[i..]) == want
    {
      assert events[i..][0] == events[i] && events[i..][1..] == events[i + 1..];
      EventAnywhere(t.Seen(0, []), 0, answers, events[i]);
      var said := t.Handle(events[i]);
      answers := answers + said;
      i := i + 1;
    }
  }

  lemma {:induction false} EventsAnywhere(b: Board, patience: int, said: seq<Answer>, events: seq<Event>)
    requires b.answers == []
    ensures var c := AfterEvents(b, events);
            AfterEvents(b.(patience := patience, answers := said), events)
            == c.(patience := patience, answers := said + c.answers)
    decreases |events|
  {
    hide AfterEvent;
    if events == [] || b.forceful {
      assert said + [] == said;
    } else {
      EventAnywhere(b, patience, said, events[0]);
      var c := AfterEvent(b, events[0]);
      var clear := c.(answers := []);
      assert c == clear.(patience := clear.patience, answers := c.answers);
      EventsAnywhere(clear, patience, said + c.answers, events[1..]);
      EventsAnywhere(clear, clear.patience, c.answers, events[1..]);
      assert said + (c.answers + AfterEvents(clear, events[1..]).answers)
          == (said + c.answers) + AfterEvents(clear, events[1..]).answers;
    }
  }

  lemma ListenerCount(t: ClientTable)
    requires t.Valid()
    ensures t.activeClients == 1 <==> t.LiveSlots() == {0}
    ensures 0 in t.LiveSlots()
  {
    var s := t.LiveSlots();
    assert 0 in s;
    if |s| == 1 { assert |s - {0}| == 0; }
  }

  // ----- what that means -----

  lemma {:induction false} EventsAppend(b: Board, pre: seq<Event>, post: seq<Event>)
    ensures AfterEvents(b, pre + post) == AfterEvents(AfterEvents(b, pre), post)
    decreases |pre|
  {
    if pre == [] || b.forceful {
      assert [] + post == post;
      assert pre == [] ==> pre + post == post;
    } else {
      assert (pre + post)[1..] == pre[1..] + post;
      EventsAppend(AfterEvent(b, pre[0]), pre[1..], post);
    }
  }

  // A signal to quit, anywhere among the events of a wake, ends it.
  lemma {:induction false} TerminateEnds(b: Board, events: seq<Event>)
    ensures AfterEvents(b, events).forceful <==> b.forceful || Terminate in events
    decreases |events|
  {
    if events != [] && !b.forceful { TerminateEnds(AfterEvent(b, events[0]), events[1..]); }
  }

  // The loop is left by force exactly if a signal to quit is reached.
  lemma {:induction false} QuitsWhenTold(b: Board, wakes: seq<Wake>, i: nat)
    requires i < |wakes| && wakes[i].Busy? && Terminate in wakes[i].events
    ensures Leaving(AfterWakes(b, wakes))
    ensures !Leaving(AfterWakes(b, wakes[..i])) ==> AfterWakes(b, wakes).forceful
    decreases |wakes|
  {
    if !Leaving(b) {
      if i == 0 {
        TerminateEnds(b.(patience := b.timeout), wakes[0].events);
      } else {
        assert wakes[1..][..i - 1] == wakes[..i][1..];
        QuitsWhenTold(AfterWake(b, wakes[0]), wakes[1..], i - 1);
      }
    }
  }

  lemma {:induction false} ForcedByTerminate(b: Board, wakes: seq<Wake>)
    requires !b.forceful && AfterWakes(b, wakes).forceful
    ensures exists i :: 0 <= i < |wakes| && wakes[i].Busy? && Terminate in wakes[i].events
    decreases |wakes|
  {
    if wakes[0].Busy? { TerminateEnds(b.(patience := b.timeout), wakes[0].events); }
    var c := AfterWake(b, wakes[0]);
    if !c.forceful {
      ForcedByTerminate(c, wakes[1..]);
      var i :| 0 <= i < |wakes[1..]| && wakes[1..][i].Busy? && Terminate in wakes[1..][i].events;
      assert wakes[i + 1] == wakes[1..][i];
    }
  }

  // A slot comes alive only for a client, and goes only when it hangs up.
  lemma {:induction false} StaysLive(b: Board, events: seq<Event>, slot: nat)
    requires slot in Live(b.slots) && Hangup(slot) !in events
    ensures slot in Live(AfterEvents(b, events).slots)
    ensures (forall pid, bytes :: Ping(slot, pid, bytes) !in events) ==>
              AfterEvents(b, events).slots[slot] == b.slots[slot]
    decreases |events|
  {
    if events != [] && !b.forceful { StaysLive(AfterEvent(b, events[0]), events[1..], slot); }
  }

  lemma SeatedIs(slots: seq<Client>, fd: int)
    requires fd != -1
    ensures var n := FirstFree(Live(slots)); var u := Seated(slots, fd);
            && n < |u| && u[n] == Opened(fd) && Live(u) == Live(slots) + {n} && n !in Live(slots)
            && forall j | j in Live(slots) :: u[j] == slots[j]
  {
    assert |slots| !in Live(slots);
  }

  // A client that is accepted gets a slot of its own, keeps it until it hangs up, and takes back
  // a leave that was granted.
  lemma AcceptedIsLive(b: Board, pre: seq<Event>, fd: int, post: seq<Event>)
    requires fd != -1 && !b.forceful && Terminate !in pre
    ensures var was := AfterEvents(b, pre).slots; var slot := FirstFree(Live(was));
            var c := AfterEvents(b, pre + [Accept(fd)]);
            && slot !in Live(was) && Live(c.slots) == Live(was) + {slot} && c.slots[slot] == Opened(fd)
            && (forall j | j in Live(was) :: c.slots[j] == was[j]) && !c.peaceful
            && (Hangup(slot) !in post ==> slot in Live(AfterEvents(b, pre + [Accept(fd)] + post).slots))
  {
    TerminateEnds(b, pre);
    var a := AfterEvents(b, pre);
    EventsAppend(b, pre, [Accept(fd)]);
    OneEvent(a, Accept(fd));
    EventsAppend(b, pre + [Accept(fd)], post);
    SeatedIs(a.slots, fd);
    if Hangup(FirstFree(Live(a.slots))) !in post {
      StaysLive(AfterEvent(a, Accept(fd)), post, FirstFree(Live(a.slots)));
    }
  }

  lemma OneEvent(b: Board, e: Event)
    requires !b.forceful
    ensures AfterEvents(b, [e]) == AfterEvent(b, e)
  {
    var c := AfterEvent(b, e);
    assert [e][0] == e && [e][1..] == [];
    assert AfterEvents(c, []) == c;
  }

  // A client that hangs up is gone, and nobody else is.
  lemma HungUpIsGone(b: Board, id: nat)
    requires !b.forceful && 0 < id
    ensures var c := AfterEvents(b, [Hangup(id)]);
            && Live(c.slots) == Live(b.slots) - {id}
            && forall j | j in Live(c.slots) :: j < |b.slots| && c.slots[j] == b.slots[j]
  {
    OneEvent(b, Hangup(id));
  }

  // Whoever tells its process id first thing is named by it when someone else asks the server to
  // leave.
  lemma PingedIsNamed(b: Board, id: nat, pid: int, bytes: string, asks: nat)
    requires !b.forceful && Guest(b.slots, id) && b.slots[id].pid == 0 && Guest(b.slots, asks) && asks != id
    ensures var c := AfterEvents(b, [Ping(id, pid, bytes), Shutdown(asks)]);
            && |c.answers| == |b.answers| + 1
            && (var last := c.answers[|b.answers|];
                last.Nak? && pid in last.pids && c.peaceful == b.peaceful && c.timeout == SHORT_TIMEOUT)
  {
    var one := AfterEvent(b, Ping(id, pid, bytes));
    assert [Ping(id, pid, bytes), Shutdown(asks)] == [Ping(id, pid, bytes)] + [Shutdown(asks)];
    EventsAppend(b, [Ping(id, pid, bytes)], [Shutdown(asks)]);
    OneEvent(b, Ping(id, pid, bytes));
    OneEvent(one, Shutdown(asks));
    assert id in Live(one.slots) - {0, asks};
    ListedHas(one.slots, |one.slots|, asks, id);
  }

  // Shutting down is granted exactly when listener and requester are alone; otherwise as many
  // others are named as there are, and the next idle time is short.
  lemma ShutdownGranted(b: Board, id: nat)
    requires Guest(b.slots, id) && 0 in Live(b.slots)
    ensures var c := AfterEvent(b, Shutdown(id)); var alone := Live(b.slots) == {0, id};
            && c.slots == b.slots && (c.peaceful <==> b.peaceful || alone)
            && c.timeout == (if alone then b.timeout else SHORT_TIMEOUT)
            && |c.answers| == |b.answers| + 1
            && (var last := c.answers[|b.answers|];
                (last.Ack? <==> alone) && (last.Nak? ==> last.others == |last.pids| == |Live(b.slots)| - 2))
  {
    var live := Live(b.slots);
    assert id in live && live - {0, id} == {} <==> live == {0, id};
    SubsetCount(live, 0, id);
    ListedCounts(b.slots, |b.slots|, id);
    assert b.slots[..|b.slots|] == b.slots;
  }

  // ----- boredom -----

  function Quiets(n: nat): seq<Wake> { seq(n, _ => Quiet) }

  // An idle server leaves for boredom at the wake that uses up its patience, and not before;
  // with a client connected it never does.
  lemma {:induction false} BoredExactly(b: Board, n: nat)
    requires !Leaving(b)
    ensures var c := AfterWakes(b, Quiets(n));
            && c.slots == b.slots && c.answers == b.answers && !c.forceful
            && (c.peaceful <==> Live(b.slots) == {0} && n > 0 && b.patience <= LOOP_DELAY * n)
    decreases n
  {
    if n > 0 {
      assert Quiets(n)[1..] == Quiets(n - 1);
      var c := AfterWake(b, Quiet);
      if !Leaving(c) { BoredExactly(c, n - 1); }
    }
  }

  // Whatever wakes the server fills up its patience again.
  lemma BusyRefills(b: Board, events: seq<Event>, n: nat)
    requires !Leaving(b)
    ensures var c := AfterWake(b, Busy(events));
            !Leaving(c) ==>
              (AfterWakes(c, Quiets(n)).peaceful <==> Live(c.slots) == {0} && n > 0 && b.timeout <= LOOP_DELAY * n)
  {
    var c := AfterWake(b, Busy(events));
    PatienceStays(b.(patience := b.timeout), events);
    if !Leaving(c) { BoredExactly(c, n); }
  }

  lemma {:induction false} PatienceStays(b: Board, events: seq<Event>)
    ensures AfterEvents(b, events).patience == b.patience
    decreases |events|
  {
    if events != [] && !b.forceful { PatienceStays(AfterEvent(b, events[0]), events[1..]); }
  }

  // A server nobody ever connects to is up for fifteen idle wakes; one that has refused to shut
  // down is up for two more once everyone has gone.
  lemma IdleServer(b: Board, n: nat)
    requires Live(b.slots) == {0} && !Leaving(b) && b.patience == DEFAULT_TIMEOUT
    ensures AfterWakes(b, Quiets(n)).peaceful <==> n >= 15
  {
    BoredExactly(b, n);
  }

  lemma RefusedServer(b: Board, id: nat, gone: seq<Event>, n: nat)
    requires !Leaving(b) && Guest(b.slots, id) && {0, id} < Live(b.slots)
    requires var c := AfterWake(AfterWake(b, Busy([Shutdown(id)])), Busy(gone)); !Leaving(c) && Live(c.slots) == {0}
    ensures var c := AfterWake(AfterWake(b, Busy([Shutdown(id)])), Busy(gone));
            AfterWakes(c, Quiets(n)).peaceful <==> n >= 2
  {
    var r := AfterWake(b, Busy([Shutdown(id)]));
    var p := b.(patience := b.timeout);
    OneEvent(p, Shutdown(id));
    ShutdownGranted(p, id);
    assert r == AfterEvent(p, Shutdown(id)) && r.timeout == SHORT_TIMEOUT;
    BusyRefills(r, gone, n);
  }
}
