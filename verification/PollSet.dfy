/**
 The poll loop of src/tcp_server.cpp in its Windows branch: a vector of poll entries and a map
 of connections that have to agree, with entries erased while the vector is scanned.
 */
module PollSet {

  type Fd = nat

  /** A TcpConnection, as far as the server looks at it: which handlers are set. */
  datatype Connection = Connection(onMessage: bool, onClose: bool)

  /** A pollfd; readable is the POLLIN bit of revents. */
  datatype Entry = Entry(fd: Fd, readable: bool)

  /** A client waiting in accept; noise is what happens to be in the uninitialised revents. */
  datatype Client = Client(fd: Fd, conn: Connection, noise: bool)

  /** What the server does with the sockets and with the handlers. */
  datatype Action =
    | Accepted(fd: Fd)
    | Received(fd: Fd)
    | Message(fd: Fd, length: nat)
    | CloseHandler(fd: Fd)
    | NotFound(fd: Fd)
    | CloseSocket(fd: Fd)

  const SIZE_MAX: nat := 0xFFFF_FFFF_FFFF_FFFF

  // ---------------------------------------------------------------- what a pass should do

  function Fds(entries: seq<Entry>): (r: seq<Fd>)
    ensures |r| == |entries| && forall i :: 0 <= i < |r| ==> r[i] == entries[i].fd
  {
    seq(|entries|, i requires 0 <= i < |entries| => entries[i].fd)
  }

  predicate Distinct(fds: seq<Fd>) {
    forall i, j :: 0 <= i < j < |fds| ==> fds[i] != fds[j]
  }

  /** recv returns 0: the peer closed the connection. */
  predicate Closes(e: Entry, recv: Fd -> int) {
    e.readable && recv(e.fd) == 0
  }

  /** recv returns -1 and there is a handler for the data. */
  predicate Throws(e: Entry, recv: Fd -> int, conns: map<Fd, Connection>) {
    e.readable && recv(e.fd) < 0 && e.fd in conns && conns[e.fd].onMessage
  }

  /** The actions for one entry that does not throw. */
  function Served(e: Entry, recv: Fd -> int, conns: map<Fd, Connection>): seq<Action> {
    if !e.readable then []
    else if e.fd !in conns then [NotFound(e.fd), CloseSocket(e.fd)]
    else if recv(e.fd) == 0 then
      [Received(e.fd)] + (if conns[e.fd].onClose then [CloseHandler(e.fd)] else []) + [CloseSocket(e.fd)]
    else if recv(e.fd) > 0 && conns[e.fd].onMessage then
      [Received(e.fd), Message(e.fd, recv(e.fd))]
    else
      [Received(e.fd)]
  }

  function AllServed(entries: seq<Entry>, recv: Fd -> int, conns: map<Fd, Connection>): seq<Action> {
    if entries == [] then []
    else AllServed(entries[..|entries| - 1], recv, conns) + Served(entries[|entries| - 1], recv, conns)
  }

  /** The entries whose connection stays open. */
  function Surviving(entries: seq<Entry>, recv: Fd -> int): (r: seq<Entry>)
    ensures |r| <= |entries|
  {
    if entries == [] then []
    else
      Surviving(entries[..|entries| - 1], recv)
      + if Closes(entries[|entries| - 1], recv) then [] else [entries[|entries| - 1]]
  }

  /** The connections after the closed ones among the entries are gone. */
  function Remaining(conns: map<Fd, Connection>, entries: seq<Entry>, recv: Fd -> int): map<Fd, Connection> {
    if entries == [] then conns
    else
      var m := Remaining(conns, entries[..|entries| - 1], recv);
      if Closes(entries[|entries| - 1], recv) then m - {entries[|entries| - 1].fd} else m
  }

  function Listed(clients: seq<Client>): (r: seq<Entry>)
    ensures |r| == |clients| && forall i :: 0 <= i < |r| ==> r[i] == Entry(clients[i].fd, clients[i].noise)
  {
    seq(|clients|, i requires 0 <= i < |clients| => Entry(clients[i].fd, clients[i].noise))
  }

  function Entered(conns: map<Fd, Connection>, clients: seq<Client>): map<Fd, Connection> {
    if clients == [] then conns
    else
      var last := clients[|clients| - 1];
      Entered(conns, clients[..|clients| - 1])[last.fd := last.conn]
  }

  function Greetings(clients: seq<Client>): (r: seq<Action>)
    ensures |r| == |clients|
  {
    seq(|clients|, i requires 0 <= i < |clients| => Accepted(clients[i].fd))
  }

  /** WSAPoll sets revents in every entry. */
  function Polled(entries: seq<Entry>, ready: Fd -> bool): (r: seq<Entry>)
    ensures |r| == |entries| && forall i :: 0 <= i < |r| ==> r[i] == Entry(entries[i].fd, ready(entries[i].fd))
  {
    seq(|entries|, i requires 0 <= i < |entries| => Entry(entries[i].fd, ready(entries[i].fd)))
  }

  /** How many entries come before the first one that throws. */
  function Calm(entries: seq<Entry>, recv: Fd -> int, conns: map<Fd, Connection>): (n: nat)
    ensures n <= |entries|
    ensures n < |entries| ==> Throws(entries[n], recv, conns)
    ensures forall k :: 0 <= k < n ==> !Throws(entries[k], recv, conns)
  {
    if entries == [] || Throws(entries[0], recv, conns) then 0
    else 1 + Calm(entries[1..], recv, conns)
  }

  /** The poll vector without its first entry lists every connection once, and nothing else. */
  ghost predicate Agree(entries: seq<Entry>, conns: map<Fd, Connection>) {
    && Distinct(Fds(entries))
    && forall fd: Fd :: fd in Fds(entries) <==> fd in conns
  }

  lemma AgreeAppend(entries: seq<Entry>, conns: map<Fd, Connection>, e: Entry, c: Connection)
    requires Agree(entries, conns) && e.fd !in conns
    ensures Agree(entries + [e], conns[e.fd := c])
  {
    assert Fds(entries + [e]) == Fds(entries) + [e.fd];
  }

  lemma AgreeErase(entries: seq<Entry>, conns: map<Fd, Connection>, i: nat)
    requires Agree(entries, conns) && i < |entries|
    ensures Agree(entries[..i] + entries[i + 1..], conns - {entries[i].fd})
  {
    var fds := Fds(entries);
    var rest := fds[..i] + fds[i + 1..];
    assert Fds(entries[..i] + entries[i + 1..]) == rest;
    forall fd: Fd ensures fd in rest <==> fd in conns - {entries[i].fd} {
      if fd in fds && fd != fds[i] {
        var j :| 0 <= j < |fds| && fds[j] == fd;
        assert fd == if j < i then rest[j] else rest[j - 1];
      }
    }
  }

  lemma AgreeHas(entries: seq<Entry>, conns: map<Fd, Connection>, i: nat)
    requires Agree(entries, conns) && i < |entries|
    ensures entries[i].fd in conns
  {
    assert Fds(entries)[i] == entries[i].fd;
  }

  /** Accepted descriptors are new: the system does not hand out one that is open. */
  predicate Fresh(clients: seq<Client>, server: Fd, conns: map<Fd, Connection>) {
    && (forall i, j :: 0 <= i < j < |clients| ==> clients[i].fd != clients[j].fd)
    && forall i :: 0 <= i < |clients| ==> clients[i].fd != server && clients[i].fd !in conns
  }

  lemma PolledAgrees(es: seq<Entry>, ready: Fd -> bool, conns: map<Fd, Connection>)
    requires Agree(es, conns)
    ensures Agree(Polled(es, ready), conns)
  {
    assert Fds(Polled(es, ready)) == Fds(es);
  }

  lemma PolledTail(pollFds: seq<Entry>, ready: Fd -> bool)
    requires |pollFds| >= 1
    ensures Polled(pollFds, ready)[1..] == Polled(pollFds[1..], ready)
  {
  }

  lemma NobodyAccepted(conns: map<Fd, Connection>)
    ensures Entered(conns, []) == conns && Listed([]) == [] && Greetings([]) == []
  {
  }

  lemma CalmIs(entries: seq<Entry>, recv: Fd -> int, conns: map<Fd, Connection>, k: nat)
    requires k <= |entries|
    requires forall j :: 0 <= j < k ==> !Throws(entries[j], recv, conns)
    requires k < |entries| ==> Throws(entries[k], recv, conns)
    ensures Calm(entries, recv, conns) == k
  {
    hide Throws;
  }

  /** The scan has served the first k entries es and stands at position i of the poll vector. */
  ghost predicate Scanned(es: seq<Entry>, conns: map<Fd, Connection>, recv: Fd -> int, k: nat, i: nat,
                          tail: seq<Entry>, now: map<Fd, Connection>, done: seq<Action>) {
    && k <= |es| && i == 1 + |Surviving(es[..k], recv)|
    && tail == Surviving(es[..k], recv) + es[k..]
    && now == Remaining(conns, es[..k], recv)
    && done == AllServed(es[..k], recv, conns)
    && (forall fd :: fd in now ==> fd in conns && conns[fd] == now[fd])
    && (forall j :: 0 <= j < k ==> !Throws(es[j], recv, conns))
  }

  lemma ScanStarts(es: seq<Entry>, conns: map<Fd, Connection>, recv: Fd -> int)
    ensures Scanned(es, conns, recv, 0, 1, es, conns, [])
  {
    assert [] + es == es;
  }

  /** Position i holds entry k, and its connection is still the one of the start. */
  lemma ScanIsAt(es: seq<Entry>, conns: map<Fd, Connection>, recv: Fd -> int, k: nat, i: nat,
                 tail: seq<Entry>, now: map<Fd, Connection>, done: seq<Action>)
    requires Scanned(es, conns, recv, k, i, tail, now, done)
    requires i - 1 < |tail| && Agree(tail, now)
    ensures k < |es| && i >= 1 && tail[i - 1] == es[k]
    ensures Throws(es[k], recv, now) <==> Throws(es[k], recv, conns)
    ensures Served(es[k], recv, now) == Served(es[k], recv, conns)
    ensures Throws(es[k], recv, conns) ==> Calm(es, recv, conns) == k
    ensures tail == Surviving(es[..k], recv) + es[k..]
    ensures now == Remaining(conns, es[..k], recv)
    ensures done == AllServed(es[..k], recv, conns)
  {
    hide Surviving, Remaining, AllServed;
    AgreeHas(tail, now, i - 1);
    if Throws(es[k], recv, conns) {
      CalmIs(es, recv, conns, k);
    }
  }

  lemma ScanStep(es: seq<Entry>, conns: map<Fd, Connection>, recv: Fd -> int, k: nat, i: nat,
                 tail: seq<Entry>, now: map<Fd, Connection>, done: seq<Action>,
                 tail': seq<Entry>, now': map<Fd, Connection>)
    requires Scanned(es, conns, recv, k, i, tail, now, done)
    requires k < |es| && 1 <= i <= |tail| && !Throws(es[k], recv, conns)
    requires tail' == if Closes(es[k], recv) then tail[..i - 1] + tail[i..] else tail
    requires now' == if Closes(es[k], recv) then now - {es[k].fd} else now
    ensures Scanned(es, conns, recv, k + 1, if Closes(es[k], recv) then i else i + 1,
                    tail', now', done + Served(es[k], recv, conns))
  {
    hide Throws, Closes, Served;
    assert es[..k + 1][..k] == es[..k];
  }

  lemma ScanEnds(es: seq<Entry>, conns: map<Fd, Connection>, recv: Fd -> int, k: nat, i: nat,
                 tail: seq<Entry>, now: map<Fd, Connection>, done: seq<Action>)
    requires Scanned(es, conns, recv, k, i, tail, now, done)
    requires i - 1 >= |tail|
    ensures k == |es| == Calm(es, recv, conns)
    ensures tail == Surviving(es[..k], recv) + es[k..]
    ensures now == Remaining(conns, es[..k], recv)
    ensures done == AllServed(es[..k], recv, conns)
  {
    CalmIs(es, recv, conns, k);
  }

  class TcpServer {
    const serverFd: Fd
    var connections: map<Fd, Connection>
    var pollFds: seq<Entry>
    var log: seq<Action>

    ghost predicate Valid()
      reads this
    {
      && |pollFds| >= 1 && pollFds[0].fd == serverFd && serverFd !in connections
      && Agree(pollFds[1..], connections)
    }

    constructor (fd: Fd)
      ensures Valid() && serverFd == fd && connections == map[] && log == []
    {
      serverFd := fd;
      connections := map[];
      pollFds := [Entry(fd, false)];
      log := [];
    }

    method HandleAccept(clients: seq<Client>)
      requires Valid() && Fresh(clients, serverFd, connections)
      modifies this
      ensures Valid()
      ensures connections == Entered(old(connections), clients)
      ensures pollFds == old(pollFds) + Listed(clients)
      ensures log == old(log) + Greetings(clients)
    {
      hide Agree;
      var n := 0;
      while n < |clients|
        invariant 0 <= n <= |clients| && Valid()
        invariant Fresh(clients[n..], serverFd, connections)
        invariant connections == Entered(old(connections), clients[..n])
        invariant pollFds == old(pollFds) + Listed(clients[..n])
        invariant log == old(log) + Greetings(clients[..n])
      {
        var client := clients[n];
        AgreeAppend(pollFds[1..], connections, Entry(client.fd, client.noise), client.conn);
        assert clients[..n + 1][..n] == clients[..n];
        log := log + [Accepted(client.fd)];
        connections := connections[client.fd := client.conn];
        assert (pollFds + [Entry(client.fd, client.noise)])[1..] == pollFds[1..] + [Entry(client.fd, client.noise)];
        pollFds := pollFds + [Entry(client.fd, client.noise)];
        n := n + 1;
      }
      assert clients[..n] == clients;
    }

    method CloseConnection(fd: Fd)
      modifies this`connections, this`log
      ensures connections == old(connections) - {fd} && log == old(log) + [CloseSocket(fd)]
    {
      log := log + [CloseSocket(fd)];
      connections := connections - {fd};
    }

    /**
     One read. The result of recv goes into a size_t, so that -1 counts as a very long message:
     building the string for the handler throws, and without a handler nothing happens.
     */
    method HandleRead(fd: Fd, result: int) returns (threw: bool)
      requires -1 <= result <= 1024
      modifies this`connections, this`log
      ensures var e, was := Entry(fd, true), old(connections);
              && (threw <==> Throws(e, _ => result, was))
              && (threw ==> connections == was && log == old(log) + [Received(fd)])
              && (!threw ==> log == old(log) + Served(e, _ => result, was))
              && (!threw ==> connections == if fd !in was || result == 0 then was - {fd} else was)
      ensures fd !in old(connections) ==> log == old(log) + [NotFound(fd), CloseSocket(fd)]
      ensures fd in old(connections) ==> var conn := old(connections)[fd];
        && (result > 0 && conn.onMessage ==> log == old(log) + [Received(fd), Message(fd, result)])
        && (result == 0 && conn.onClose ==> log == old(log) + [Received(fd), CloseHandler(fd), CloseSocket(fd)])
        && (result == 0 && !conn.onClose ==> log == old(log) + [Received(fd), CloseSocket(fd)])
        && (result != 0 && !conn.onMessage ==> log == old(log) + [Received(fd)])
    {
      if fd !in connections {
        log := log + [NotFound(fd)];
        CloseConnection(fd);
        return false;
      }
      var conn := connections[fd];
      log := log + [Received(fd)];
      var bytesRead: nat := if result < 0 then SIZE_MAX else result;
      if bytesRead > 0 {
        if conn.onMessage {
          if bytesRead == SIZE_MAX {
            return true;
          }
          log := log + [Message(fd, bytesRead)];
        }
      } else {
        if bytesRead == SIZE_MAX {
          return false;
        }
        if conn.onClose {
          log := log + [CloseHandler(fd)];
        }
        CloseConnection(fd);
      }
      return false;
    }

    /**
     One round of start: no connection is read twice and none is missing; unless the round
     throws, exactly those that polled readable are read, what recv got goes to their message
     handler, and exactly those of them whose recv gave 0 are closed and gone.
     */
    method Pass(ready: Fd -> bool, clients: seq<Client>, recv: Fd -> int) returns (threw: bool, ghost round: seq<Action>)
      requires Valid() && Fresh(clients, serverFd, connections)
      requires forall fd :: -1 <= recv(fd) <= 1024
      modifies this
      ensures Valid() && log == old(log) + round
      ensures forall fd :: NotFound(fd) !in round && multiset(round)[Received(fd)] <= 1
      ensures !threw ==> forall fd :: fd in old(connections) ==>
        && Treated(round, fd, ready(fd), recv(fd), old(connections)[fd])
        && (fd in connections <==> !(ready(fd) && recv(fd) == 0))
        && (fd in connections ==> connections[fd] == old(connections)[fd])
      ensures ready(serverFd) ==> forall i :: 0 <= i < |clients| ==> Welcomed(round, clients[i].fd)
      ensures !threw && ready(serverFd) ==> forall i :: 0 <= i < |clients| ==> var client := clients[i];
        && Treated(round, client.fd, client.noise, recv(client.fd), client.conn)
        && (client.fd in connections <==> !(client.noise && recv(client.fd) == 0))
        && (client.fd in connections ==> connections[client.fd] == client.conn)
    {
      hide Agree, Polled, Entered, Listed, Calm, Surviving, Remaining, Fresh, Round, Treated, Welcomed;
      ghost var accepted := if ready(serverFd) then clients else [];
      NobodyIsFresh(serverFd, connections);
      RoundIsRight(pollFds[1..], connections, accepted, serverFd, ready, recv);
      ghost var es := Polled(pollFds[1..], ready) + Listed(accepted);
      round := Round(es, recv, Entered(connections, accepted), accepted);
      assert es[..|es|] == es;
      threw := PollAcceptScan(ready, clients, recv);
    }

    /** The round itself: poll, accept, and the scan that erases in place. */
    method PollAcceptScan(ready: Fd -> bool, clients: seq<Client>, recv: Fd -> int) returns (threw: bool)
      requires Valid() && Fresh(clients, serverFd, connections)
      requires forall fd :: -1 <= recv(fd) <= 1024
      modifies this
      ensures Valid()
      ensures var accepted := if ready(serverFd) then clients else [];
              var conns := Entered(old(connections), accepted);
              var es := Polled(old(pollFds)[1..], ready) + Listed(accepted);
              var n := Calm(es, recv, conns);
              && (threw <==> n < |es|)
              && pollFds[1..] == Surviving(es[..n], recv) + es[n..]
              && connections == Remaining(conns, es[..n], recv)
              && log == old(log) + Round(es, recv, conns, accepted)
    {
      hide Agree, Polled, Entered, Listed, Greetings, Calm, Served, Throws, Surviving, Remaining, AllServed, Fresh, Round;
      ghost var accepted := if ready(serverFd) then clients else [];
      Poll(ready);
      ghost var polled := pollFds;
      if pollFds[0].readable {
        HandleAccept(clients);
      } else {
        NobodyAccepted(connections);
      }
      assert pollFds[1..] == polled[1..] + Listed(accepted);
      RoundIs(pollFds[1..], recv, connections, accepted);
      threw := Scan(recv);
    }

    method Poll(ready: Fd -> bool)
      requires Valid()
      modifies this`pollFds
      ensures Valid() && |pollFds| == |old(pollFds)|
      ensures pollFds[0].readable == ready(serverFd)
      ensures pollFds[1..] == Polled(old(pollFds)[1..], ready)
    {
      PolledAgrees(pollFds[1..], ready, connections);
      PolledTail(pollFds, ready);
      pollFds := Polled(pollFds, ready);
    }

    /** The scan. */
    method Scan(recv: Fd -> int) returns (threw: bool)
      requires Valid()
      requires forall fd :: -1 <= recv(fd) <= 1024
      modifies this
      ensures Valid()
      ensures var es, conns := old(pollFds)[1..], old(connections);
              var n := Calm(es, recv, conns);
              && (threw <==> n < |es|)
              && pollFds[1..] == Surviving(es[..n], recv) + es[n..]
              && connections == Remaining(conns, es[..n], recv)
              && log == old(log) + AllServed(es[..n], recv, conns)
                        + if threw then [Received(es[n].fd)] else []
    {
      hide Agree, Calm, Fds, Served, Throws, Closes, Surviving, Remaining, AllServed, Scanned;
      ghost var es, conns := pollFds[1..], connections;
      ghost var k := 0;
      var i: nat := 1;
      threw := false;
      ScanStarts(es, conns, recv);
      ghost var done: seq<Action> := [];
      while i < |pollFds|
        invariant Valid()
        invariant Scanned(es, conns, recv, k, i, pollFds[1..], connections, done)
        invariant log == old(log) + done
        decreases |es| - k
      {
        ghost var tail, now := pollFds[1..], connections;
        ScanIsAt(es, conns, recv, k, i, tail, now, done);
        assert pollFds[i] == tail[i - 1] == es[k];
        ghost var at := i;
        threw, i := Visit(i, recv);
        if threw {
          return;
        }
        ScanStep(es, conns, recv, k, at, tail, now, done, pollFds[1..], connections);
        done := done + Served(es[k], recv, conns);
        k := k + 1;
      }
      ScanEnds(es, conns, recv, k, i, pollFds[1..], connections, done);
    }

    /** The body of the scan, for the entry at i; next is where the scan goes on. */
    method Visit(i: nat, recv: Fd -> int) returns (threw: bool, next: nat)
      requires Valid() && 1 <= i < |pollFds|
      requires forall fd :: -1 <= recv(fd) <= 1024
      modifies this
      ensures Valid()
      ensures var e, conns := old(pollFds[i]), old(connections);
              && (threw <==> Throws(e, recv, conns))
              && log == old(log) + (if threw then [Received(e.fd)] else Served(e, recv, conns))
              && connections == (if Closes(e, recv) then conns - {e.fd} else conns)
              && (threw ==> connections == conns && pollFds == old(pollFds))
      ensures var e, tail := old(pollFds[i]), old(pollFds)[1..];
              && pollFds[1..] == (if Closes(e, recv) then tail[..i - 1] + tail[i..] else tail)
              && (!threw ==> next == if Closes(e, recv) then i else i + 1)
    {
      var e := pollFds[i];
      AgreeHas(pollFds[1..], connections, i - 1);
      AgreeErase(pollFds[1..], connections, i - 1);
      hide Agree;
      next := i;
      threw := false;
      if e.readable {
        threw := HandleRead(e.fd, recv(e.fd));
        if threw {
          return;
        }
      }
      if pollFds[i].fd !in connections {
        ghost var was := pollFds;
        pollFds := pollFds[..i] + pollFds[i + 1..];
        assert pollFds[1..] == was[1..][..i - 1] + was[1..][i..];
      } else {
        next := i + 1;
      }
    }
  }

  // ---------------------------------------------------------------- what a round amounts to

  /** All actions of a round: clients are accepted, entries served up to the first that throws. */
  function Round(es: seq<Entry>, recv: Fd -> int, conns: map<Fd, Connection>, accepted: seq<Client>): seq<Action> {
    var n := Calm(es, recv, conns);
    Greetings(accepted) + AllServed(es[..n], recv, conns) + if n < |es| then [Received(es[n].fd)] else []
  }

  lemma RoundIs(es: seq<Entry>, recv: Fd -> int, conns: map<Fd, Connection>, accepted: seq<Client>)
    ensures var n := Calm(es, recv, conns);
      Round(es, recv, conns, accepted)
      == Greetings(accepted) + AllServed(es[..n], recv, conns) + (if n < |es| then [Received(es[n].fd)] else [])
  {
    hide Calm, AllServed, Greetings;
  }

  lemma NobodyIsFresh(server: Fd, conns: map<Fd, Connection>)
    ensures Fresh([], server, conns)
  {
  }

  /** Wherever both are in a log, x comes before y. */
  ghost predicate Before(log: seq<Action>, x: Action, y: Action) {
    forall i, j :: 0 <= i < |log| && 0 <= j < |log| && log[i] == x && log[j] == y ==> i < j
  }

  /**
   What a connection can rely on, said of a whole log: one recv if it is readable; all that recv
   got, once, to its message handler; and after an end of file its close handler once and then its
   socket closed once. Nothing of it happens otherwise.
   */
  ghost predicate Treated(log: seq<Action>, fd: Fd, readable: bool, got: int, conn: Connection) {
    && multiset(log)[Received(fd)] == (if readable then 1 else 0)
    && (forall n: nat :: multiset(log)[Message(fd, n)] == if readable && got == n && n > 0 && conn.onMessage then 1 else 0)
    && multiset(log)[CloseHandler(fd)] == (if readable && got == 0 && conn.onClose then 1 else 0)
    && multiset(log)[CloseSocket(fd)] == (if readable && got == 0 then 1 else 0)
    && (forall n: nat :: Before(log, Received(fd), Message(fd, n)))
    && Before(log, Received(fd), CloseHandler(fd))
    && Before(log, Received(fd), CloseSocket(fd))
    && Before(log, CloseHandler(fd), CloseSocket(fd))
  }

  /** Accepted once, and read only after that. */
  ghost predicate Welcomed(log: seq<Action>, fd: Fd) {
    multiset(log)[Accepted(fd)] == 1 && Before(log, Accepted(fd), Received(fd))
  }

  /** Nothing but an accept concerns fd. */
  ghost predicate Quiet(log: seq<Action>, fd: Fd) {
    forall i :: 0 <= i < |log| ==> log[i].fd != fd || log[i].Accepted?
  }

  lemma QuietMeansUntouched(log: seq<Action>, fd: Fd, got: int, conn: Connection)
    requires Quiet(log, fd)
    ensures Treated(log, fd, false, got, conn)
  {
  }

  lemma BeforeBeside(a: seq<Action>, b: seq<Action>, x: Action, y: Action)
    requires (x !in a && y !in a && Before(b, x, y)) || (x !in b && y !in b && Before(a, x, y))
    ensures Before(a + b, x, y)
  {
    var log := a + b;
    forall i, j | 0 <= i < |log| && 0 <= j < |log| && log[i] == x && log[j] == y ensures i < j {
      assert log[i] == if i < |a| then a[i] else b[i - |a|];
      assert log[j] == if j < |a| then a[j] else b[j - |a|];
    }
  }

  lemma CountTwo(a: seq<Action>, b: seq<Action>, x: Action)
    ensures multiset(a + b)[x] == multiset(a)[x] + multiset(b)[x]
    ensures x !in a ==> multiset(a)[x] == 0
    ensures x !in b ==> multiset(b)[x] == 0
  {
  }

  /** A quiet log in front or behind changes nothing for fd. */
  lemma TreatedBeside(a: seq<Action>, b: seq<Action>, fd: Fd, readable: bool, got: int, conn: Connection)
    requires (Quiet(a, fd) && Treated(b, fd, readable, got, conn)) || (Treated(a, fd, readable, got, conn) && Quiet(b, fd))
    ensures Treated(a + b, fd, readable, got, conn)
  {
    hide Before;
    CountTwo(a, b, Received(fd));
    CountTwo(a, b, CloseHandler(fd));
    CountTwo(a, b, CloseSocket(fd));
    BeforeBeside(a, b, Received(fd), CloseHandler(fd));
    BeforeBeside(a, b, Received(fd), CloseSocket(fd));
    BeforeBeside(a, b, CloseHandler(fd), CloseSocket(fd));
    forall n: nat
      ensures multiset(a + b)[Message(fd, n)] == if readable && got == n && n > 0 && conn.onMessage then 1 else 0
      ensures Before(a + b, Received(fd), Message(fd, n))
    {
      CountTwo(a, b, Message(fd, n));
      BeforeBeside(a, b, Received(fd), Message(fd, n));
    }
  }

  /** Poll entries whose connections are all there, each once; every part of an agreeing vector is one. */
  ghost predicate Known(es: seq<Entry>, conns: map<Fd, Connection>) {
    && Distinct(Fds(es))
    && forall i :: 0 <= i < |es| ==> es[i].fd in conns
  }

  lemma PrefixKnown(es: seq<Entry>, conns: map<Fd, Connection>, n: nat)
    requires Agree(es, conns) && n <= |es|
    ensures Known(es[..n], conns)
  {
    forall i | 0 <= i < n ensures es[i].fd in conns {
      AgreeHas(es, conns, i);
    }
    assert Fds(es[..n]) == Fds(es)[..n];
  }

  lemma AmongAll(es: seq<Entry>, e: Entry)
    requires es != []
    ensures e in es <==> e in es[..|es| - 1] || e == es[|es| - 1]
  {
    assert es == es[..|es| - 1] + [es[|es| - 1]];
  }

  lemma OtherFds(es: seq<Entry>)
    requires es != [] && Distinct(Fds(es))
    ensures forall e :: e in es[..|es| - 1] ==> e.fd != es[|es| - 1].fd
  {
    forall e | e in es[..|es| - 1] ensures e.fd != es[|es| - 1].fd {
      var i :| 0 <= i < |es| - 1 && es[i] == e;
      assert Fds(es)[i] != Fds(es)[|es| - 1];
    }
  }

  /** Every readable entry is read exactly once and nobody else is, with all that reading brings about. */
  lemma {:induction false} ReadExactlyOnce(es: seq<Entry>, recv: Fd -> int, conns: map<Fd, Connection>, fd: Fd)
    requires Known(es, conns) && fd in conns
    requires forall i :: 0 <= i < |es| ==> !Throws(es[i], recv, conns)
    ensures Treated(AllServed(es, recv, conns), fd, Entry(fd, true) in es, recv(fd), conns[fd])
    decreases |es|
  {
    if es == [] {
      QuietMeansUntouched([], fd, recv(fd), conns[fd]);
    } else {
      var most, last := es[..|es| - 1], es[|es| - 1];
      KnownPart(es, conns);
      ReadExactlyOnce(most, recv, conns, fd);
      OtherFds(es);
      AmongAll(es, Entry(fd, true));
      hide AllServed, Served, Treated, Throws, Quiet, Known;
      AllServedStep(es, recv, conns);
      var a, b := AllServed(most, recv, conns), Served(last, recv, conns);
      if last == Entry(fd, true) {
        QuietUnlessListed(most, recv, conns, fd);
        EntryTreated(fd, recv, conns);
        TreatedBeside(a, b, fd, true, recv(fd), conns[fd]);
      } else {
        OtherEntryIsQuiet(last, recv, conns, fd);
        TreatedBeside(a, b, fd, Entry(fd, true) in most, recv(fd), conns[fd]);
      }
    }
  }

  /** One readable entry. */
  lemma EntryTreated(fd: Fd, recv: Fd -> int, conns: map<Fd, Connection>)
    requires fd in conns && !Throws(Entry(fd, true), recv, conns)
    ensures Treated(Served(Entry(fd, true), recv, conns), fd, true, recv(fd), conns[fd])
  {
    hide Treated;
    if recv(fd) == 0 {
      ClosingTreated(fd, conns[fd]);
    } else {
      ReadingTreated(fd, recv(fd), conns[fd]);
    }
  }

  lemma ClosingTreated(fd: Fd, conn: Connection)
    ensures Treated([Received(fd)] + (if conn.onClose then [CloseHandler(fd)] else []) + [CloseSocket(fd)], fd, true, 0, conn)
  {
    var log := [Received(fd)] + (if conn.onClose then [CloseHandler(fd)] else []) + [CloseSocket(fd)];
    if conn.onClose {
      ThreeTreated(fd, conn);
      assert log == [Received(fd), CloseHandler(fd), CloseSocket(fd)];
    } else {
      TwoTreated(fd, conn);
      assert log == [Received(fd), CloseSocket(fd)];
    }
    hide Treated;
  }

  lemma ThreeTreated(fd: Fd, conn: Connection)
    requires conn.onClose
    ensures Treated([Received(fd), CloseHandler(fd), CloseSocket(fd)], fd, true, 0, conn)
  {
  }

  lemma TwoTreated(fd: Fd, conn: Connection)
    requires !conn.onClose
    ensures Treated([Received(fd), CloseSocket(fd)], fd, true, 0, conn)
  {
  }

  lemma ReadingTreated(fd: Fd, got: int, conn: Connection)
    requires got != 0 && !(got < 0 && conn.onMessage)
    ensures Treated(if got > 0 && conn.onMessage then [Received(fd), Message(fd, got)] else [Received(fd)], fd, true, got, conn)
  {
  }

  lemma OtherEntryIsQuiet(e: Entry, recv: Fd -> int, conns: map<Fd, Connection>, fd: Fd)
    requires e != Entry(fd, true)
    ensures Quiet(Served(e, recv, conns), fd)
  {
  }

  lemma {:induction false} QuietUnlessListed(es: seq<Entry>, recv: Fd -> int, conns: map<Fd, Connection>, fd: Fd)
    requires Entry(fd, true) !in es
    ensures Quiet(AllServed(es, recv, conns), fd)
    decreases |es|
  {
    hide Served;
    if es != [] {
      QuietUnlessListed(es[..|es| - 1], recv, conns, fd);
      OtherEntryIsQuiet(es[|es| - 1], recv, conns, fd);
    }
  }

  /** Whatever an entry holds, its connection is there and read once at most, also before a throw. */
  lemma {:induction false} NeverTwice(es: seq<Entry>, recv: Fd -> int, conns: map<Fd, Connection>, fd: Fd)
    requires Known(es, conns)
    ensures multiset(AllServed(es, recv, conns))[Received(fd)] == if Entry(fd, true) in es then 1 else 0
    ensures NotFound(fd) !in AllServed(es, recv, conns)
    decreases |es|
  {
    if es != [] {
      var most, last := es[..|es| - 1], es[|es| - 1];
      KnownPart(es, conns);
      NeverTwice(most, recv, conns, fd);
      OtherFds(es);
      AmongAll(es, Entry(fd, true));
      hide AllServed, Served;
      AllServedStep(es, recv, conns);
      OneReceived(last, recv, conns, fd);
      NoneMissing(last, recv, conns, fd);
    }
  }

  lemma KnownPart(es: seq<Entry>, conns: map<Fd, Connection>)
    requires es != [] && Known(es, conns)
    ensures Known(es[..|es| - 1], conns) && es[|es| - 1].fd in conns
  {
    assert Fds(es[..|es| - 1]) == Fds(es)[..|es| - 1];
  }

  lemma AllServedStep(es: seq<Entry>, recv: Fd -> int, conns: map<Fd, Connection>)
    requires es != []
    ensures AllServed(es, recv, conns)
         == AllServed(es[..|es| - 1], recv, conns) + Served(es[|es| - 1], recv, conns)
  {
  }

  lemma OneReceived(e: Entry, recv: Fd -> int, conns: map<Fd, Connection>, fd: Fd)
    requires e.fd in conns
    ensures multiset(Served(e, recv, conns))[Received(fd)] == if e == Entry(fd, true) then 1 else 0
  {
  }

  lemma NoneMissing(e: Entry, recv: Fd -> int, conns: map<Fd, Connection>, fd: Fd)
    requires e.fd in conns
    ensures NotFound(fd) !in Served(e, recv, conns)
  {
  }

  /** A connection stays exactly if its entry was not one that closes. */
  lemma {:induction false} WhoRemains(conns: map<Fd, Connection>, es: seq<Entry>, recv: Fd -> int, fd: Fd)
    ensures fd in Remaining(conns, es, recv) <==> fd in conns && !(Entry(fd, true) in es && recv(fd) == 0)
    ensures fd in Remaining(conns, es, recv) ==> Remaining(conns, es, recv)[fd] == conns[fd]
    decreases |es|
  {
    if es != [] {
      WhoRemains(conns, es[..|es| - 1], recv, fd);
      AmongAll(es, Entry(fd, true));
    }
  }

  /**
   The branch for a read that would block is never taken: a pass gets through all entries exactly
   if no read of a connection with a message handler fails.
   */
  lemma PassCompletesIff(es: seq<Entry>, recv: Fd -> int, conns: map<Fd, Connection>)
    ensures Calm(es, recv, conns) == |es|
       <==> forall i :: 0 <= i < |es| && es[i].readable && es[i].fd in conns && conns[es[i].fd].onMessage
              ==> recv(es[i].fd) >= 0
  {
    var n := Calm(es, recv, conns);
    if n == |es| {
      forall i | 0 <= i < |es| && es[i].readable && es[i].fd in conns && conns[es[i].fd].onMessage
        ensures recv(es[i].fd) >= 0
      {
        assert !Throws(es[i], recv, conns);
      }
    }
  }

  /** A client that was just accepted, with noise in its revents and nothing sent yet, ends the server. */
  lemma FreshClientEndsTheServer()
    ensures var conns := Entered(map[], [Client(7, Connection(true, true), true)]);
            var es := Listed([Client(7, Connection(true, true), true)]);
            Agree(es, conns) && Calm(es, _ => -1, conns) < |es|
  {
    var client := Client(7, Connection(true, true), true);
    var none: map<Fd, Connection> := map[];
    assert [client][..0] == [];
    assert Entered(none, []) == none;
    var conns := Entered(none, [client]);
    assert conns == map[7 := client.conn];
    assert Fds(Listed([client])) == [7];
    assert Throws(Listed([client])[0], _ => -1, conns);
  }

  // ---------------------------------------------------------------- a whole round

  lemma {:induction false} EnteredHas(conns: map<Fd, Connection>, clients: seq<Client>, fd: Fd)
    ensures fd in Entered(conns, clients) <==> fd in conns || exists i :: 0 <= i < |clients| && clients[i].fd == fd
    ensures fd in conns && (forall i :: 0 <= i < |clients| ==> clients[i].fd != fd) ==>
      Entered(conns, clients)[fd] == conns[fd]
    decreases |clients|
  {
    if clients != [] {
      var n := |clients| - 1;
      EnteredHas(conns, clients[..n], fd);
      assert clients[n].fd == fd ==> exists i :: 0 <= i < |clients| && clients[i].fd == fd;
      forall i | 0 <= i < |clients| && clients[i].fd == fd ensures fd in Entered(conns, clients) {
        assert i < n ==> clients[..n][i] == clients[i];
      }
    }
  }

  /** Accepting keeps vector and map in agreement. */
  lemma {:induction false} EnteredAgrees(es: seq<Entry>, conns: map<Fd, Connection>, clients: seq<Client>, server: Fd)
    requires Agree(es, conns) && Fresh(clients, server, conns)
    ensures Agree(es + Listed(clients), Entered(conns, clients))
    decreases |clients|
  {
    hide Agree;
    if clients == [] {
      assert es + Listed(clients) == es;
    } else {
      var n := |clients| - 1;
      var last := clients[n];
      EnteredAgrees(es, conns, clients[..n], server);
      EnteredHas(conns, clients[..n], last.fd);
      AgreeAppend(es + Listed(clients[..n]), Entered(conns, clients[..n]), Entry(last.fd, last.noise), last.conn);
      assert Listed(clients) == Listed(clients[..n]) + [Entry(last.fd, last.noise)];
      assert es + Listed(clients) == (es + Listed(clients[..n])) + [Entry(last.fd, last.noise)];
    }
  }

  /** Every client is entered with its own connection. */
  lemma {:induction false} EnteredAs(conns: map<Fd, Connection>, clients: seq<Client>, server: Fd, i: nat)
    requires Fresh(clients, server, conns) && i < |clients|
    ensures clients[i].fd in Entered(conns, clients) && Entered(conns, clients)[clients[i].fd] == clients[i].conn
    decreases |clients|
  {
    var n := |clients| - 1;
    if i < n {
      EnteredAs(conns, clients[..n], server, i);
      assert clients[..n][i] == clients[i];
    }
  }

  /** Which entries of a round are readable. */
  lemma WhoIsReadable(before: seq<Entry>, conns: map<Fd, Connection>, clients: seq<Client>, server: Fd,
                      ready: Fd -> bool, fd: Fd)
    requires Agree(before, conns) && Fresh(clients, server, conns) && fd in conns
    ensures Entry(fd, true) in Polled(before, ready) + Listed(clients) <==> ready(fd)
  {
    assert fd in Fds(before);
    var i :| 0 <= i < |before| && before[i].fd == fd;
    var es := Polled(before, ready) + Listed(clients);
    assert es[i] == Entry(fd, ready(fd));
    forall k | 0 <= k < |es| && es[k] == Entry(fd, true) ensures ready(fd) {
    }
  }

  /** A client's entry still has the noise it was listed with. */
  lemma NoiseIsReadable(before: seq<Entry>, conns: map<Fd, Connection>, clients: seq<Client>, server: Fd,
                        ready: Fd -> bool, i: nat)
    requires Agree(before, conns) && Fresh(clients, server, conns) && i < |clients|
    ensures Entry(clients[i].fd, true) in Polled(before, ready) + Listed(clients) <==> clients[i].noise
  {
    var es, n := Polled(before, ready) + Listed(clients), |before|;
    assert es[n + i] == Entry(clients[i].fd, clients[i].noise);
    forall k | 0 <= k < n ensures es[k].fd != clients[i].fd {
      AgreeHas(before, conns, k);
    }
  }

  /** What the log of a round says about one connection. */
  lemma RoundReads(es: seq<Entry>, conns: map<Fd, Connection>, clients: seq<Client>, recv: Fd -> int, fd: Fd)
    requires Agree(es, conns)
    ensures var round := Round(es, recv, conns, clients);
            && NotFound(fd) !in round && multiset(round)[Received(fd)] <= 1
            && (Calm(es, recv, conns) == |es| && fd in conns ==>
                  Treated(round, fd, Entry(fd, true) in es, recv(fd), conns[fd]))
  {
    hide Agree, Calm, AllServed, Greetings, Round, Treated, Throws, Quiet, Known;
    var n := Calm(es, recv, conns);
    PrefixKnown(es, conns, n);
    NeverTwice(es[..n], recv, conns, fd);
    if n < |es| {
      NotTwice(es, conns, n);
    }
    RoundIs(es, recv, conns, clients);
    var a, b, c := Greetings(clients), AllServed(es[..n], recv, conns), if n < |es| then [Received(es[n].fd)] else [];
    JustGreetings(clients, fd);
    CountThree(a, b, c, Received(fd));
    CountThree(a, b, c, NotFound(fd));
    if n == |es| && fd in conns {
      assert es[..n] == es;
      ReadExactlyOnce(es, recv, conns, fd);
      TreatedBeside(a, b, fd, Entry(fd, true) in es, recv(fd), conns[fd]);
      assert a + b + c == a + b;
    }
  }

  lemma JustGreetings(clients: seq<Client>, fd: Fd)
    ensures Quiet(Greetings(clients), fd)
    ensures Received(fd) !in Greetings(clients) && NotFound(fd) !in Greetings(clients)
  {
  }

  lemma CountThree(a: seq<Action>, b: seq<Action>, c: seq<Action>, x: Action)
    ensures multiset(a + b + c)[x] == multiset(a)[x] + multiset(b)[x] + multiset(c)[x]
    ensures x in a + b + c <==> x in a || x in b || x in c
    ensures x !in a ==> multiset(a)[x] == 0
  {
  }

  lemma NotTwice(es: seq<Entry>, conns: map<Fd, Connection>, n: nat)
    requires Agree(es, conns) && n < |es|
    ensures Entry(es[n].fd, true) !in es[..n]
  {
    forall k | 0 <= k < n ensures es[k].fd != es[n].fd {
      assert Fds(es)[k] != Fds(es)[n];
    }
  }

  /**
   A whole round, polling and accepting included: no connection is read twice or missing, and
   unless the round throws, each connection of its start is treated as it polled, each client
   accepted in it as the noise in its revents says, and a connection of the start is there
   afterwards, unchanged, exactly if it was not closed.
   */
  lemma RoundIsRight(before: seq<Entry>, conns: map<Fd, Connection>, clients: seq<Client>, server: Fd,
                     ready: Fd -> bool, recv: Fd -> int)
    requires Agree(before, conns) && Fresh(clients, server, conns)
    ensures var es, all := Polled(before, ready) + Listed(clients), Entered(conns, clients);
            var n, round := Calm(es, recv, all), Round(es, recv, all, clients);
            && (forall fd :: NotFound(fd) !in round && multiset(round)[Received(fd)] <= 1)
            && (forall i :: 0 <= i < |clients| ==> Welcomed(round, clients[i].fd))
            && (n == |es| ==> var left := Remaining(all, es, recv);
                  && (forall fd :: fd in conns ==>
                        && Treated(round, fd, ready(fd), recv(fd), conns[fd])
                        && (fd in left <==> !(ready(fd) && recv(fd) == 0))
                        && (fd in left ==> left[fd] == conns[fd]))
                  && forall i :: 0 <= i < |clients| ==> var client := clients[i];
                       && Treated(round, client.fd, client.noise, recv(client.fd), client.conn)
                       && (client.fd in left <==> !(client.noise && recv(client.fd) == 0))
                       && (client.fd in left ==> left[client.fd] == client.conn))
  {
    hide Agree, Polled, Entered, Listed, Calm, Round, Remaining, Fresh, Treated, Welcomed;
    var es, all := Polled(before, ready) + Listed(clients), Entered(conns, clients);
    var n, round := Calm(es, recv, all), Round(es, recv, all, clients);
    PolledAgrees(before, ready, conns);
    EnteredAgrees(Polled(before, ready), conns, clients, server);
    forall fd ensures NotFound(fd) !in round && multiset(round)[Received(fd)] <= 1 {
      RoundReads(es, all, clients, recv, fd);
    }
    forall i | 0 <= i < |clients| ensures Welcomed(round, clients[i].fd) {
      EachIsWelcomed(es, all, clients, server, conns, recv, i);
    }
    if n == |es| {
      forall fd | fd in conns
        ensures Treated(round, fd, ready(fd), recv(fd), conns[fd])
        ensures fd in Remaining(all, es, recv) <==> !(ready(fd) && recv(fd) == 0)
        ensures fd in Remaining(all, es, recv) ==> Remaining(all, es, recv)[fd] == conns[fd]
      {
        NotAmongTheFresh(clients, server, conns, fd);
        EnteredHas(conns, clients, fd);
        RoundReads(es, all, clients, recv, fd);
        WhoIsReadable(before, conns, clients, server, ready, fd);
        WhoRemains(all, es, recv, fd);
      }
      forall i | 0 <= i < |clients|
        ensures Treated(round, clients[i].fd, clients[i].noise, recv(clients[i].fd), clients[i].conn)
        ensures var left := Remaining(all, es, recv);
                && (clients[i].fd in left <==> !(clients[i].noise && recv(clients[i].fd) == 0))
                && (clients[i].fd in left ==> left[clients[i].fd] == clients[i].conn)
      {
        EnteredAs(conns, clients, server, i);
        RoundReads(es, all, clients, recv, clients[i].fd);
        WhoRemains(all, es, recv, clients[i].fd);
        NoiseIsReadable(before, conns, clients, server, ready, i);
      }
    }
  }

  lemma EachIsWelcomed(es: seq<Entry>, all: map<Fd, Connection>, clients: seq<Client>, server: Fd,
                       conns: map<Fd, Connection>, recv: Fd -> int, i: nat)
    requires Fresh(clients, server, conns) && i < |clients|
    ensures Welcomed(Round(es, recv, all, clients), clients[i].fd)
  {
    hide Calm, AllServed, Round, Before;
    var n, fd := Calm(es, recv, all), clients[i].fd;
    RoundIs(es, recv, all, clients);
    var a, b, c := Greetings(clients), AllServed(es[..n], recv, all), if n < |es| then [Received(es[n].fd)] else [];
    GreetedOnce(clients, server, conns, i);
    NoneAccepted(es[..n], recv, all, fd);
    assert Accepted(fd) !in b + c;
    CountTwo(a, b + c, Accepted(fd));
    GreetingsFirst(a, b + c, fd);
    assert a + b + c == a + (b + c);
  }

  lemma {:induction false} NoneAccepted(es: seq<Entry>, recv: Fd -> int, conns: map<Fd, Connection>, fd: Fd)
    ensures Accepted(fd) !in AllServed(es, recv, conns)
    decreases |es|
  {
    if es != [] {
      NoneAccepted(es[..|es| - 1], recv, conns, fd);
    }
  }

  lemma GreetedOnce(clients: seq<Client>, server: Fd, conns: map<Fd, Connection>, i: nat)
    requires Fresh(clients, server, conns) && i < |clients|
    ensures multiset(Greetings(clients))[Accepted(clients[i].fd)] == 1
    ensures Received(clients[i].fd) !in Greetings(clients)
  {
    var a, x := Greetings(clients), Accepted(clients[i].fd);
    assert a == a[..i] + [x] + a[i + 1..];
    CountThree(a[..i], [x], a[i + 1..], x);
    CountTwo(a[..i], a[i + 1..], x);
  }

  lemma GreetingsFirst(a: seq<Action>, b: seq<Action>, fd: Fd)
    requires Received(fd) !in a && Accepted(fd) !in b
    ensures Before(a + b, Accepted(fd), Received(fd))
  {
  }

  lemma NotAmongTheFresh(clients: seq<Client>, server: Fd, conns: map<Fd, Connection>, fd: Fd)
    requires Fresh(clients, server, conns) && fd in conns
    ensures forall i :: 0 <= i < |clients| ==> clients[i].fd != fd
  {
  }
}
