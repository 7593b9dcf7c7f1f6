/** tcp_server.cpp: the connection table of the event loop, the set of descriptors that it watches, and the
    callbacks. */
module TcpServer {
  import opened Streams

  const HARD_CONNECTION_LIMIT: nat := 256
  const FD_SETSIZE: nat := 1024

  // ---- What comes from outside ----

  /** The network errors that the loop tells apart, and any other exception. */
  datatype Error = WouldBlock | Closed | Network | Foreign

  /** What the data callback does: whether it disconnects its client, and what it throws. */
  datatype Reaction = Reaction(disconnects: bool, throws: Option<Error>)

  datatype Received = Text(text: string, reaction: Reaction) | Failed(error: Error)

  /** One round: what select finds ready (None when it fails), the descriptor that an accept would be given (None
      when it fails), and what comes from each client. */
  datatype Round = Round(ready: Option<set<nat>>, accepted: Option<nat>, received: nat -> Received)

  /** A callback that throws leaves its client connected. */
  predicate Civil(r: Reaction) {
    r.disconnects ==> r.throws.None?
  }

  ghost predicate CivilRound(r: Round) {
    forall fd :: r.received(fd).Text? ==> Civil(r.received(fd).reaction)
  }

  // ---- The loop on values ----

  /** A connection: which admission it came from, and its descriptor, -1 after a disconnect. */
  datatype Connection = Connection(id: nat, fd: int)

  datatype Callback = OnConnect(id: nat) | OnData(id: nat, text: string) | OnDisconnect(id: nat)

  /** `dead` is set once an exception has left the loop. */
  datatype Table = Table(clients: seq<Connection>, active: set<int>, admitted: nat, calls: seq<Callback>, dead: bool)

  function Start(listener: nat): Table {
    Table([], {listener}, 0, [], false)
  }

  function Descriptors(clients: seq<Connection>): set<int> {
    set c | c in clients :: c.fd
  }

  function Above(fds: set<int>): (n: nat)
    ensures n !in fds
  {
    AnUpperBound(fds);
    var n: nat :| n !in fds && forall m: nat :: m < n ==> m in fds;
    n
  }

  lemma AnUpperBound(fds: set<int>)
    ensures exists n: nat :: n !in fds && forall m: nat :: m < n ==> m in fds
  {
    var n: nat := 0;
    var seen: set<int> := {};
    while n in fds
      invariant forall m: nat :: m < n ==> m in fds
      invariant seen <= fds && forall m :: m in seen ==> m < n
      decreases |fds - seen|
    {
      assert fds - (seen + {n}) < fds - seen;
      seen := seen + {n};
      n := n + 1;
    }
  }

  /** The system never hands out a descriptor that is open. */
  function NewDescriptor(open: set<int>, pick: nat): (fd: nat)
    ensures fd !in open
  {
    if pick in open then Above(open) else pick
  }

  function Accept(t: Table, listener: nat, max: nat, accepted: Option<nat>): Table {
    match accepted
    case None => t.(dead := true)
    case Some(pick) =>
      var fd := NewDescriptor({listener} + Descriptors(t.clients), pick);
      if |t.clients| < max then
        Table(t.clients + [Connection(t.admitted, fd)], t.active + {fd}, t.admitted + 1,
              t.calls + [OnConnect(t.admitted)], false)
      else t
  }

  function Find(clients: seq<Connection>, fd: int): (k: Option<nat>)
    ensures k.Some? ==> k.value < |clients| && clients[k.value].fd == fd
    ensures k.None? ==> fd !in Descriptors(clients)
  {
    if clients == [] then None
    else if clients[0].fd == fd then Some(0)
    else
      match Find(clients[1..], fd)
      case None => None
      case Some(k) => Some(k + 1)
  }

  function Erase(clients: seq<Connection>, k: nat): seq<Connection>
    requires k < |clients|
  {
    clients[..k] + clients[k + 1..]
  }

  /** Takes client `k` out of the table and stops watching `fd`. */
  function Drop(t: Table, k: nat, fd: int): Table
    requires k < |t.clients|
  {
    t.(clients := Erase(t.clients, k), active := t.active - {fd}, calls := t.calls + [OnDisconnect(t.clients[k].id)])
  }

  function Catch(t: Table, k: nat, e: Error): Table
    requires k < |t.clients|
  {
    match e
    case WouldBlock => t
    case Closed => Drop(t, k, t.clients[k].fd)
    case Network => Drop(t, k, t.clients[k].fd)
    case Foreign => t.(dead := true)
  }

  /** Input on the descriptor `fd` of client `k`. */
  function Handle(t: Table, k: nat, fd: int, r: Received): Table
    requires k < |t.clients|
  {
    match r
    case Failed(e) => Catch(t, k, e)
    case Text(text, reaction) =>
      if text == "" then t
      else
        var c := t.clients[k];
        var t' := t.(clients := t.clients[k := c.(fd := if reaction.disconnects then -1 else c.fd)],
                     calls := t.calls + [OnData(c.id, text)]);
        match reaction.throws
        case Some(e) => Catch(t', k, e)
        case None => if reaction.disconnects then Drop(t', k, fd) else t'
  }

  function Serve(t: Table, listener: nat, max: nat, fd: nat, r: Round): Table {
    if fd == listener then Accept(t, listener, max, r.accepted)
    else
      match Find(t.clients, fd)
      case None => t
      case Some(k) => Handle(t, k, fd, r.received(fd))
  }

  /** The descriptors below `n` of the ready ones. */
  function ServeTo(t: Table, listener: nat, max: nat, ready: set<nat>, r: Round, n: nat): Table {
    if n == 0 then t
    else
      var t' := ServeTo(t, listener, max, ready, r, n - 1);
      if t'.dead || n - 1 !in ready then t' else Serve(t', listener, max, n - 1, r)
  }

  function OneRound(t: Table, listener: nat, max: nat, r: Round): Table {
    if t.dead then t
    else
      match r.ready
      case None => t.(dead := true)
      case Some(fds) => ServeTo(t, listener, max, (set fd | fd in fds && fd in t.active), r, FD_SETSIZE)
  }

  function Rounds(listener: nat, max: nat, rounds: seq<Round>): Table {
    if rounds == [] then Start(listener)
    else OneRound(Rounds(listener, max, rounds[..|rounds| - 1]), listener, max, rounds[|rounds| - 1])
  }

  // ---- What holds whenever the loop looks at its table ----

  /** Where a connection stands, judged by the callbacks alone. */
  datatype Phase = Unknown | Connected | Gone | Confused

  function PhaseOf(calls: seq<Callback>, id: nat): Phase {
    if calls == [] then Unknown
    else
      var before := PhaseOf(calls[..|calls| - 1], id);
      var call := calls[|calls| - 1];
      if call.id != id then before
      else
        match call
        case OnConnect(_) => if before.Unknown? then Connected else Confused
        case OnData(_, _) => if before.Connected? then Connected else Confused
        case OnDisconnect(_) => if before.Connected? then Gone else Confused
  }

  predicate Distinct(clients: seq<Connection>) {
    forall i, j :: 0 <= i < j < |clients| ==> clients[i].fd != clients[j].fd && clients[i].id != clients[j].id
  }

  predicate InTable(clients: seq<Connection>, id: nat) {
    exists k :: 0 <= k < |clients| && clients[k].id == id
  }

  /** Each admitted client got its connect callback first and once, data only while it was in the table, and
      one disconnect callback exactly if it has left the table. */
  ghost predicate Called(t: Table) {
    forall id: nat :: PhaseOf(t.calls, id) ==
      if id >= t.admitted then Unknown else if InTable(t.clients, id) then Connected else Gone
  }

  /** The watched descriptors are the listening one and those of the clients, which are pairwise distinct. */
  ghost predicate Sound(t: Table, listener: nat, max: nat) {
    && Distinct(t.clients) && |t.clients| <= max
    && (forall k :: 0 <= k < |t.clients| ==> t.clients[k].fd >= 0 && t.clients[k].id < t.admitted)
    && listener !in Descriptors(t.clients)
    && t.active == {listener} + Descriptors(t.clients)
    && Called(t)
  }

  lemma PhaseSnoc(calls: seq<Callback>, call: Callback, id: nat)
    ensures PhaseOf(calls + [call], id) ==
      var before := PhaseOf(calls, id);
      if call.id != id then before
      else match call
        case OnConnect(_) => if before.Unknown? then Connected else Confused
        case OnData(_, _) => if before.Connected? then Connected else Confused
        case OnDisconnect(_) => if before.Connected? then Gone else Confused
  {
    assert (calls + [call])[..|calls|] == calls;
  }

  lemma AcceptKeeps(t: Table, listener: nat, max: nat, accepted: Option<nat>)
    requires Sound(t, listener, max) && accepted.Some?
    ensures Sound(Accept(t, listener, max, accepted), listener, max)
  {
    var t' := Accept(t, listener, max, accepted);
    if |t.clients| < max {
      var c := t'.clients[|t.clients|];
      forall x ensures x in t'.clients <==> x in t.clients || x == c {
      }
      forall id: nat
        ensures PhaseOf(t'.calls, id) ==
          if id >= t'.admitted then Unknown else if InTable(t'.clients, id) then Connected else Gone
      {
        PhaseSnoc(t.calls, OnConnect(t.admitted), id);
        assert t'.clients[|t.clients|].id == t.admitted;
        assert forall k :: 0 <= k < |t.clients| ==> t'.clients[k] == t.clients[k];
      }
    }
  }

  lemma EraseFacts(clients: seq<Connection>, k: nat)
    requires k < |clients| && Distinct(clients)
    ensures var rest := Erase(clients, k);
      && Distinct(rest) && |rest| == |clients| - 1
      && (forall c :: c in rest ==> c in clients)
      && Descriptors(rest) == Descriptors(clients) - {clients[k].fd}
      && forall id :: InTable(rest, id) <==> InTable(clients, id) && id != clients[k].id
  {
    var rest := Erase(clients, k);
    forall i | 0 <= i < |clients| && i != k ensures clients[i] in rest {
      assert clients[i] == rest[if i < k then i else i - 1];
    }
    forall i | 0 <= i < |rest| ensures rest[i] == clients[if i < k then i else i + 1] {
    }
    forall id | InTable(clients, id) && id != clients[k].id ensures InTable(rest, id) {
      var i :| 0 <= i < |clients| && clients[i].id == id;
      assert rest[if i < k then i else i - 1].id == id;
    }
  }

  /** A client leaves the table and gets its disconnect callback. */
  lemma DropKeeps(t: Table, listener: nat, max: nat, k: nat)
    requires Sound(t, listener, max) && k < |t.clients|
    ensures Sound(Drop(t, k, t.clients[k].fd), listener, max)
  {
    hide Erase;
    var t' := Drop(t, k, t.clients[k].fd);
    EraseFacts(t.clients, k);
    forall i | 0 <= i < |t'.clients| ensures t'.clients[i].fd >= 0 && t'.clients[i].id < t.admitted {
      assert t'.clients[i] in t.clients;
    }
    forall id: nat
      ensures PhaseOf(t'.calls, id) ==
        if id >= t.admitted then Unknown else if InTable(t'.clients, id) then Connected else Gone
    {
      PhaseSnoc(t.calls, OnDisconnect(t.clients[k].id), id);
    }
  }

  lemma DataKeeps(t: Table, listener: nat, max: nat, k: nat, text: string)
    requires Sound(t, listener, max) && k < |t.clients|
    ensures Sound(t.(calls := t.calls + [OnData(t.clients[k].id, text)]), listener, max)
  {
    var t' := t.(calls := t.calls + [OnData(t.clients[k].id, text)]);
    forall id: nat ensures PhaseOf(t'.calls, id) == PhaseOf(t.calls, id) {
      PhaseSnoc(t.calls, OnData(t.clients[k].id, text), id);
    }
  }

  lemma CatchKeeps(t: Table, listener: nat, max: nat, k: nat, e: Error)
    requires Sound(t, listener, max) && k < |t.clients|
    ensures Catch(t, k, e).dead || Sound(Catch(t, k, e), listener, max)
  {
    hide Sound, Drop;
    if e.Closed? || e.Network? {
      DropKeeps(t, listener, max, k);
    }
  }

  /** Input from a client leaves the table sound exactly when the callback did not both disconnect its client and
      throw an error that the loop catches. */
  lemma DataSoundIff(t: Table, listener: nat, max: nat, k: nat, text: string, reaction: Reaction)
    requires Sound(t, listener, max) && !t.dead && k < |t.clients| && text != ""
    ensures var t' := Handle(t, k, t.clients[k].fd, Text(text, reaction));
      && (t'.dead <==> reaction.throws == Some(Foreign))
      && (!t'.dead ==> (Sound(t', listener, max) <==> Civil(reaction)))
  {
    hide Called, Distinct;
    var c := t.clients[k];
    var told := t.(calls := t.calls + [OnData(c.id, text)]);
    DataKeeps(t, listener, max, k, text);
    if !reaction.disconnects {
      assert t.clients[k := c] == t.clients;
      if reaction.throws.Some? {
        CatchKeeps(told, listener, max, k, reaction.throws.value);
      }
    } else {
      var cut := told.(clients := t.clients[k := c.(fd := -1)]);
      assert Erase(cut.clients, k) == Erase(told.clients, k);
      EraseOfSound(t, listener, max, k);
      DropKeeps(told, listener, max, k);
      assert cut.clients[k].fd == -1;
    }
  }

  lemma EraseOfSound(t: Table, listener: nat, max: nat, k: nat)
    requires Sound(t, listener, max) && k < |t.clients|
    ensures t.clients[k].fd in t.active && t.clients[k].fd != listener && t.clients[k].fd >= 0
    ensures t.clients[k].fd !in Descriptors(Erase(t.clients, k))
  {
    EraseFacts(t.clients, k);
  }

  lemma ServeKeeps(t: Table, listener: nat, max: nat, fd: nat, r: Round)
    requires Sound(t, listener, max) && !t.dead && CivilRound(r)
    ensures var t' := Serve(t, listener, max, fd, r); t'.dead || Sound(t', listener, max)
  {
    hide Sound, Civil, Catch;
    if fd == listener {
      if r.accepted.Some? {
        AcceptKeeps(t, listener, max, r.accepted);
      }
    } else if Find(t.clients, fd).Some? {
      var k := Find(t.clients, fd).value;
      match r.received(fd)
      case Failed(e) => CatchKeeps(t, listener, max, k, e);
      case Text(text, reaction) =>
        if text != "" {
          DataSoundIff(t, listener, max, k, text, reaction);
        }
    }
  }

  lemma {:induction false} ServeToKeeps(t: Table, listener: nat, max: nat, ready: set<nat>, r: Round, n: nat)
    requires Sound(t, listener, max) && CivilRound(r)
    ensures var t' := ServeTo(t, listener, max, ready, r, n); t'.dead || Sound(t', listener, max)
  {
    hide Sound, Serve, CivilRound;
    if n > 0 {
      ServeToKeeps(t, listener, max, ready, r, n - 1);
      var t' := ServeTo(t, listener, max, ready, r, n - 1);
      if !t'.dead {
        ServeKeeps(t', listener, max, n - 1, r);
      }
    }
  }

  /** Whatever select reports, is accepted and received, as long as no callback both disconnects and throws: every
      time the loop looks at its table, the table is sound. */
  lemma {:induction false} TableStaysSound(listener: nat, max: nat, rounds: seq<Round>)
    requires forall i :: 0 <= i < |rounds| ==> CivilRound(rounds[i])
    ensures var t := Rounds(listener, max, rounds); t.dead || Sound(t, listener, max)
  {
    hide CivilRound, ServeTo, Sound;
    if rounds == [] {
      StartIsSound(listener, max);
    } else {
      var n := |rounds| - 1;
      TableStaysSound(listener, max, rounds[..n]);
      var t := Rounds(listener, max, rounds[..n]);
      if !t.dead && rounds[n].ready.Some? {
        var ready := set fd | fd in rounds[n].ready.value && fd in t.active;
        ServeToKeeps(t, listener, max, ready, rounds[n], FD_SETSIZE);
      }
    }
  }

  lemma StartIsSound(listener: nat, max: nat)
    ensures Sound(Start(listener), listener, max)
  {
  }

  // ---- What the phases mean ----

  /** Each connection that is not confused is told of once, before all its data, and ended at most once, behind it. */
  ghost predicate Orderly(calls: seq<Callback>, id: nat) {
    && (forall i, j :: 0 <= i < j < |calls| && calls[i].id == id && calls[j].id == id ==>
          !calls[j].OnConnect? && !calls[i].OnDisconnect?)
    && (forall j :: 0 <= j < |calls| && calls[j].id == id && !calls[j].OnConnect? ==> OnConnect(id) in calls[..j])
  }

  /** What a phase says about the calls so far. */
  ghost predicate PhaseTold(calls: seq<Callback>, id: nat) {
    match PhaseOf(calls, id)
    case Unknown => forall i :: 0 <= i < |calls| ==> calls[i].id != id
    case Connected => OnConnect(id) in calls && OnDisconnect(id) !in calls
    case Gone => OnConnect(id) in calls
    case Confused => true
  }

  lemma OrderlySnoc(calls: seq<Callback>, call: Callback, id: nat)
    requires Orderly(calls, id)
    requires call.id == id ==>
      if call.OnConnect? then forall i :: 0 <= i < |calls| ==> calls[i].id != id
      else OnConnect(id) in calls && OnDisconnect(id) !in calls
    ensures Orderly(calls + [call], id)
  {
    var all := calls + [call];
    forall j | 0 <= j < |all| && all[j].id == id && !all[j].OnConnect? ensures OnConnect(id) in all[..j] {
      assert all[..j] == calls[..j];
      assert calls[..|calls|] == calls;
    }
  }

  lemma {:induction false} PhasesAreOrderly(calls: seq<Callback>, id: nat)
    requires !PhaseOf(calls, id).Confused?
    ensures Orderly(calls, id) && PhaseTold(calls, id)
  {
    hide Orderly;
    if calls == [] {
      NoCallsAreOrderly(id);
    } else {
      var n := |calls| - 1;
      PhasesAreOrderly(calls[..n], id);
      assert calls == calls[..n] + [calls[n]];
      OrderlySnoc(calls[..n], calls[n], id);
    }
  }

  lemma NoCallsAreOrderly(id: nat)
    ensures Orderly([], id)
  {
  }

  /** So in every reachable state the callbacks of each client come in order. */
  lemma CallbacksComeInOrder(listener: nat, max: nat, rounds: seq<Round>, id: nat)
    requires forall i :: 0 <= i < |rounds| ==> CivilRound(rounds[i])
    requires !Rounds(listener, max, rounds).dead
    ensures Orderly(Rounds(listener, max, rounds).calls, id)
  {
    hide Rounds, CivilRound, Orderly, PhaseOf;
    TableStaysSound(listener, max, rounds);
    PhasesAreOrderly(Rounds(listener, max, rounds).calls, id);
  }

  // ---- The objects ----

  class Socket {
    ghost const id: nat
    var fd: int

    constructor (ghost id: nat, fd: int)
      ensures this.id == id && this.fd == fd
    {
      this.id, this.fd := id, fd;
    }

    method Disconnect()
      modifies this
      ensures fd == -1
    {
      fd := -1;
    }
  }

  class EventLoop {
    const listener: nat
    const max: nat
    var clients: seq<Socket>
    var active: set<int>
    var dead: bool
    ghost var admitted: nat
    ghost var calls: seq<Callback>

    ghost predicate Valid()
      reads this
    {
      forall i, j :: 0 <= i < j < |clients| ==> clients[i] != clients[j]
    }

    ghost function Contents(): Table
      reads this, clients
    {
      Table(Connections(clients), active, admitted, calls, dead)
    }

    /** Keeps the number of connections below the hard limit. */
    constructor (listener: nat, maxConnections: nat)
      ensures Valid() && Contents() == Start(listener) && this.listener == listener
      ensures max == if maxConnections < HARD_CONNECTION_LIMIT then maxConnections else HARD_CONNECTION_LIMIT - 1
    {
      this.listener := listener;
      max := if maxConnections >= HARD_CONNECTION_LIMIT then HARD_CONNECTION_LIMIT - 1 else maxConnections;
      clients, active, dead, admitted, calls := [], {listener}, false, 0, [];
    }

    /** A connection request; the system picks the descriptor. */
    method AcceptClient(accepted: Option<nat>)
      requires Valid() && !dead
      modifies this
      ensures Valid() && Contents() == Accept(old(Contents()), listener, max, accepted)
      ensures fresh(set c | c in clients && c !in old(clients))
    {
      if accepted.None? {
        dead := true;
        return;
      }
      ghost var before := Contents();
      var fd := NewDescriptor({listener} + OpenDescriptors(), accepted.value);
      var client := new Socket(admitted, fd);
      if |clients| < max {
        active := active + {fd};
        clients := clients + [client];
        calls := calls + [OnConnect(admitted)];
        admitted := admitted + 1;
        assert Connections(clients) == before.clients + [Connection(before.admitted, fd)];
      } else {
        client.Disconnect();
      }
    }

    /** What the system has open. */
    function OpenDescriptors(): (fds: set<int>)
      reads this, clients
      ensures fds == Descriptors(Connections(clients))
    {
      DescriptorsOfSockets(clients);
      set c | c in clients :: c.fd
    }

    /** find_if over the list. */
    method FindClient(fd: int) returns (k: Option<nat>)
      ensures k == Find(Connections(clients), fd)
      ensures k.Some? ==> k.value < |clients| && clients[k.value].fd == fd
    {
      for i := 0 to |clients|
        invariant Find(Connections(clients), fd) ==
          match Find(Connections(clients[i..]), fd)
          case None => None
          case Some(j) => Some(i + j)
      {
        assert Connections(clients[i..])[1..] == Connections(clients[i + 1..]);
        if clients[i].fd == fd {
          return Some(i);
        }
      }
      k := None;
    }

    method DropClient(k: nat, fd: int)
      requires Valid() && k < |clients|
      modifies this, clients[k]
      ensures Valid() && Contents() == Drop(old(Contents()), k, fd)
      ensures forall c :: c in clients ==> c in old(clients)
    {
      var client := clients[k];
      active := active - {fd};
      calls := calls + [OnDisconnect(client.id)];
      clients := clients[..k] + clients[k + 1..];
      client.Disconnect();
      assert Connections(clients) == Erase(old(Contents()).clients, k);
    }

    method CatchError(k: nat, e: Error)
      requires Valid() && k < |clients|
      modifies this, clients[k]
      ensures Valid() && Contents() == Catch(old(Contents()), k, e)
      ensures forall c :: c in clients ==> c in old(clients)
    {
      match e {
        case WouldBlock =>
        case Closed => DropClient(k, clients[k].fd);
        case Network => DropClient(k, clients[k].fd);
        case Foreign => dead := true;
      }
    }

    method HandleClient(k: nat, fd: int, r: Received)
      requires Valid() && k < |clients| && clients[k].fd == fd >= 0
      modifies this, clients[k]
      ensures Valid() && Contents() == Handle(old(Contents()), k, fd, r)
      ensures forall c :: c in clients ==> c in old(clients)
    {
      hide Drop, Catch;
      match r {
        case Failed(e) => CatchError(k, e);
        case Text(text, reaction) =>
          if text == "" {
            return;
          }
          ghost var before := Contents();
          calls := calls + [OnData(clients[k].id, text)];
          if reaction.disconnects {
            clients[k].Disconnect();
          }
          assert Connections(clients)
              == before.clients[k := before.clients[k].(fd := if reaction.disconnects then -1 else fd)];
          if reaction.throws.Some? {
            CatchError(k, reaction.throws.value);
          } else if clients[k].fd == -1 {
            DropClient(k, fd);
          }
      }
    }

    /** Input on one ready descriptor. */
    method ServeDescriptor(fd: nat, r: Round)
      requires Valid() && !dead
      modifies this, clients
      ensures Valid() && Contents() == Serve(old(Contents()), listener, max, fd, r)
      ensures fresh(set c | c in clients && c !in old(clients))
    {
      hide Accept, Handle, Find;
      if fd == listener {
        AcceptClient(r.accepted);
      } else {
        var k := FindClient(fd);
        if k.Some? {
          HandleClient(k.value, fd, r.received(fd));
        }
      }
    }

    /** One round of the loop: the ready descriptors in ascending order, as they were when select returned. */
    method ServeRound(r: Round)
      requires Valid() && !dead
      modifies this, clients
      ensures Valid() && Contents() == OneRound(old(Contents()), listener, max, r)
      ensures fresh(set c | c in clients && c !in old(clients))
    {
      hide Serve;
      if r.ready.None? {
        dead := true;
        return;
      }
      var ready := set fd | fd in r.ready.value && fd in active;
      ghost var before := Contents();
      for fd := 0 to FD_SETSIZE
        invariant Valid() && Contents() == ServeTo(before, listener, max, ready, r, fd)
        invariant fresh(set c | c in clients && c !in old(clients))
      {
        if !dead && fd in ready {
          ServeDescriptor(fd, r);
        }
      }
    }

    /** The thread, until `running` is found cleared or an exception leaves the loop. */
    method ServeRequests(rounds: seq<Round>)
      requires Valid() && Contents() == Start(listener)
      modifies this, clients
      ensures Valid() && Contents() == Rounds(listener, max, rounds)
    {
      hide OneRound;
      ghost var none: seq<Round> := [];
      assert rounds[..0] == none;
      for i := 0 to |rounds|
        invariant Valid() && Contents() == Rounds(listener, max, rounds[..i])
        invariant fresh(set c | c in clients && c !in old(clients))
      {
        assert rounds[..i + 1][..i] == rounds[..i];
        DeadStaysDead(Contents(), listener, max, rounds[i]);
        if !dead {
          ServeRound(rounds[i]);
        }
      }
      assert rounds[..|rounds|] == rounds;
    }
  }

  lemma DeadStaysDead(t: Table, listener: nat, max: nat, r: Round)
    ensures t.dead ==> OneRound(t, listener, max, r) == t
  {
  }

  ghost function Connections(clients: seq<Socket>): seq<Connection>
    reads clients
  {
    seq(|clients|, i requires 0 <= i < |clients| reads clients => Connection(clients[i].id, clients[i].fd))
  }

  lemma DescriptorsOfSockets(clients: seq<Socket>)
    ensures (set c | c in clients :: c.fd) == Descriptors(Connections(clients))
  {
    forall c | c in clients ensures c.fd in Descriptors(Connections(clients)) {
      var i :| 0 <= i < |clients| && clients[i] == c;
      assert Connections(clients)[i].fd == c.fd;
    }
    forall x | x in Connections(clients) ensures x.fd in set c | c in clients :: c.fd {
      var i :| 0 <= i < |clients| && Connections(clients)[i] == x;
      assert clients[i].fd == x.fd;
    }
  }
}
