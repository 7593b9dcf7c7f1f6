/** What the event loop owes to a connection: to be admitted below the limit, and to get its input and nobody else's. */
module ClientService {
  import opened Streams
  import opened TcpServer

  // ---- Admission ----

  /** A connection request below the limit ends in the table, watched under a descriptor of its own, and announced;
      at the limit nothing happens. */
  lemma AdmittedIff(t: Table, listener: nat, max: nat, pick: nat)
    requires Sound(t, listener, max) && !t.dead
    ensures var t' := Accept(t, listener, max, Some(pick));
      && !t'.dead
      && (InTable(t'.clients, t.admitted) <==> |t.clients| < max)
      && (OnConnect(t.admitted) in t'.calls[|t.calls|..] <==> |t.clients| < max)
      && (|t.clients| < max ==>
            exists fd: nat :: Connection(t.admitted, fd) in t'.clients && fd in t'.active && fd !in t.active)
      && (|t.clients| >= max ==> t' == t)
      && forall c :: c in t.clients ==> c in t'.clients
  {
    var t' := Accept(t, listener, max, Some(pick));
    if |t.clients| < max {
      var c := t'.clients[|t.clients|];
      assert c in t'.clients && InTable(t'.clients, t.admitted);
      assert t'.calls[|t.calls|..] == [OnConnect(t.admitted)];
    }
  }

  // ---- One client in one round ----

  /** The callbacks about one connection, in order. */
  function About(calls: seq<Callback>, id: nat): seq<Callback> {
    if calls == [] then []
    else
      var n := |calls| - 1;
      About(calls[..n], id) + if calls[n].id == id then [calls[n]] else []
  }

  /** The client leaves: its connection is closed or broken, or its callback disconnects it or says so. */
  predicate Leaves(r: Received) {
    match r
    case Failed(e) => e.Closed? || e.Network?
    case Text(text, reaction) =>
      text != "" && (reaction.disconnects || reaction.throws == Some(Closed) || reaction.throws == Some(Network))
  }

  /** What the callbacks are told of a client from which that comes. */
  function Tells(id: nat, r: Received): seq<Callback> {
    (if r.Text? && r.text != "" then [OnData(id, r.text)] else []) + (if Leaves(r) then [OnDisconnect(id)] else [])
  }

  lemma AboutSnoc(calls: seq<Callback>, call: Callback, id: nat)
    ensures About(calls + [call], id) == About(calls, id) + if call.id == id then [call] else []
  {
    assert (calls + [call])[..|calls|] == calls;
  }

  lemma DropTells(t: Table, k: nat, fd: int, id: nat)
    requires k < |t.clients|
    ensures About(Drop(t, k, fd).calls, id) ==
      About(t.calls, id) + if t.clients[k].id == id then [OnDisconnect(id)] else []
  {
    AboutSnoc(t.calls, OnDisconnect(t.clients[k].id), id);
  }

  lemma CatchTells(t: Table, k: nat, e: Error, id: nat)
    requires k < |t.clients| && !Catch(t, k, e).dead
    ensures About(Catch(t, k, e).calls, id) ==
      About(t.calls, id) + if t.clients[k].id == id && (e.Closed? || e.Network?) then [OnDisconnect(id)] else []
    ensures Catch(t, k, e).clients == if e.Closed? || e.Network? then Erase(t.clients, k) else t.clients
    ensures Catch(t, k, e).admitted == t.admitted
  {
    if e.Closed? || e.Network? {
      DropTells(t, k, t.clients[k].fd, id);
    }
  }

  /** Input from one client tells of that client and nobody else, and only that client can leave. */
  lemma HandleTells(t: Table, k: nat, r: Received, id: nat)
    requires k < |t.clients| && !t.dead && (r.Text? ==> Civil(r.reaction))
    requires !Handle(t, k, t.clients[k].fd, r).dead
    ensures var (t', c) := (Handle(t, k, t.clients[k].fd, r), t.clients[k]);
      && About(t'.calls, id) == About(t.calls, id) + (if c.id == id then Tells(id, r) else [])
      && t'.clients == (if Leaves(r) then Erase(t.clients, k) else t.clients)
      && t'.admitted == t.admitted
  {
    hide Catch, Drop, About;
    var c := t.clients[k];
    match r
    case Failed(e) => CatchTells(t, k, e, id);
    case Text(text, reaction) =>
      if text != "" {
        AboutSnoc(t.calls, OnData(c.id, text), id);
        var t' := t.(clients := t.clients[k := c.(fd := if reaction.disconnects then -1 else c.fd)],
                     calls := t.calls + [OnData(c.id, text)]);
        assert Erase(t'.clients, k) == Erase(t.clients, k);
        assert !reaction.disconnects ==> t'.clients == t.clients;
        if reaction.throws.Some? {
          CatchTells(t', k, reaction.throws.value, id);
        } else if reaction.disconnects {
          DropTells(t', k, c.fd, id);
          DropErases(t', k, c.fd);
        }
      }
  }

  lemma DropErases(t: Table, k: nat, fd: int)
    requires k < |t.clients|
    ensures Drop(t, k, fd).clients == Erase(t.clients, k) && Drop(t, k, fd).admitted == t.admitted
  {
  }

  // ---- A whole round ----

  /** What one round owes to a connection of the table as it was before: exactly its own input if it was ready, and
      nothing if it was not; and it stays unless it leaves. */
  ghost predicate Treated(t0: Table, t: Table, c: Connection, served: bool, r: Received) {
    && About(t.calls, c.id) == About(t0.calls, c.id) + (if served then Tells(c.id, r) else [])
    && (c in t.clients <==> !(served && Leaves(r)))
  }

  ghost predicate TreatedTo(t0: Table, t: Table, ready: set<nat>, r: Round, n: nat) {
    && t0.admitted <= t.admitted
    && forall c :: c in t0.clients && c.fd >= 0 ==>
        Treated(t0, t, c, c.fd < n && c.fd in ready, r.received(c.fd))
  }

  lemma OneClient(t: Table, listener: nat, max: nat, c: Connection) returns (k: nat)
    requires Sound(t, listener, max) && c in t.clients
    ensures k < |t.clients| && t.clients[k] == c && c.fd >= 0 && c.fd != listener && c.id < t.admitted
    ensures Find(t.clients, c.fd) == Some(k)
    ensures forall d :: d in t.clients && (d.fd == c.fd || d.id == c.id) ==> d == c
  {
    hide Called;
    k :| 0 <= k < |t.clients| && t.clients[k] == c;
    assert c.fd in Descriptors(t.clients);
    assert Find(t.clients, c.fd).Some?;
  }

  lemma OthersStay(clients: seq<Connection>, k: nat, d: Connection)
    requires k < |clients| && Distinct(clients)
    ensures d in Erase(clients, k) <==> d in clients && d != clients[k]
  {
    var rest := Erase(clients, k);
    if d in clients && d != clients[k] {
      var i :| 0 <= i < |clients| && clients[i] == d;
      assert rest[if i < k then i else i - 1] == d;
    }
  }

  /** Input on the descriptor of a client that was there before the round. */
  lemma ServesClient(t0: Table, t: Table, listener: nat, max: nat, ready: set<nat>, r: Round, n: nat, c: Connection)
    requires Sound(t0, listener, max) && Sound(t, listener, max) && !t.dead && CivilRound(r)
    requires TreatedTo(t0, t, ready, r, n) && n in ready && c in t0.clients && c.fd == n
    requires !Serve(t, listener, max, n, r).dead
    ensures TreatedTo(t0, Serve(t, listener, max, n, r), ready, r, n + 1)
  {
    hide Sound, Handle, Find, About, Tells, Leaves, Erase, Civil;
    assert Treated(t0, t, c, false, r.received(n));
    var k := OneClient(t, listener, max, c);
    var k0 := OneClient(t0, listener, max, c);
    var t' := Handle(t, k, n, r.received(n));
    SoundIsDistinct(t, listener, max);
    forall d | d in t0.clients && d.fd >= 0
      ensures Treated(t0, t', d, d.fd < n + 1 && d.fd in ready, r.received(d.fd))
    {
      assert Treated(t0, t, d, d.fd < n && d.fd in ready, r.received(d.fd));
      HandleTells(t, k, r.received(n), d.id);
      OthersStay(t.clients, k, d);
    }
    HandleTells(t, k, r.received(n), 0);
  }

  lemma SoundIsDistinct(t: Table, listener: nat, max: nat)
    requires Sound(t, listener, max)
    ensures Distinct(t.clients)
  {
  }

  /** A connection request tells of nobody who was there before. */
  lemma ServesListener(t0: Table, t: Table, listener: nat, max: nat, ready: set<nat>, r: Round)
    requires Sound(t0, listener, max) && Sound(t, listener, max) && !t.dead && CivilRound(r)
    requires TreatedTo(t0, t, ready, r, listener) && !Serve(t, listener, max, listener, r).dead
    ensures TreatedTo(t0, Serve(t, listener, max, listener, r), ready, r, listener + 1)
  {
    hide Sound, About, Tells, Leaves, NewDescriptor;
    var t' := Serve(t, listener, max, listener, r);
    forall d | d in t0.clients && d.fd >= 0
      ensures Treated(t0, t', d, d.fd < listener + 1 && d.fd in ready, r.received(d.fd))
    {
      assert Treated(t0, t, d, d.fd < listener && d.fd in ready, r.received(d.fd));
      var k := OneClient(t0, listener, max, d);
      AboutSnoc(t.calls, OnConnect(t.admitted), d.id);
      var fd := NewDescriptor({listener} + Descriptors(t.clients), r.accepted.value);
      assert d != Connection(t.admitted, fd);
    }
  }

  lemma {:induction false} ServeToTreats(t: Table, listener: nat, max: nat, ready: set<nat>, r: Round, n: nat)
    requires Sound(t, listener, max) && !t.dead && CivilRound(r)
    requires forall fd :: fd in ready ==> fd in t.active
    ensures var t' := ServeTo(t, listener, max, ready, r, n); t'.dead || TreatedTo(t, t', ready, r, n)
    decreases n
  {
    hide Sound, Serve, CivilRound, About, Tells, Leaves;
    if n == 0 {
      NothingTreated(t, listener, max, ready, r);
    } else {
      var m := n - 1;
      ServeToTreats(t, listener, max, ready, r, m);
      ServeToKeeps(t, listener, max, ready, r, m);
      var before, after := ServeTo(t, listener, max, ready, r, m), ServeTo(t, listener, max, ready, r, n);
      if !after.dead {
        DeadStays(before, listener, max, ready, r, m);
        if m !in ready {
          assert forall c :: c in t.clients && c.fd >= 0 ==>
            Treated(t, before, c, c.fd < m && c.fd in ready, r.received(c.fd));
        } else if m == listener {
          ServesListener(t, before, listener, max, ready, r);
        } else {
          var c := WatchedClient(t, listener, max, m);
          ServesClient(t, before, listener, max, ready, r, m, c);
        }
      }
    }
  }

  lemma DeadStays(t: Table, listener: nat, max: nat, ready: set<nat>, r: Round, m: nat)
    ensures ServeTo(t, listener, max, ready, r, m).dead ==> ServeTo(t, listener, max, ready, r, m + 1).dead
  {
  }

  lemma WatchedClient(t: Table, listener: nat, max: nat, fd: nat) returns (c: Connection)
    requires Sound(t, listener, max) && fd in t.active && fd != listener
    ensures c in t.clients && c.fd == fd
  {
    c :| c in t.clients && c.fd == fd;
  }

  lemma NothingTreated(t: Table, listener: nat, max: nat, ready: set<nat>, r: Round)
    requires Sound(t, listener, max)
    ensures TreatedTo(t, t, ready, r, 0)
  {
    hide About;
  }

  /** In every round that the loop survives: each client in the table whose descriptor is ready gets exactly its own
      input, each other client nothing, and a client leaves the table exactly if its connection ended or its callback
      ended it. */
  lemma RoundTreatsEveryClient(t: Table, listener: nat, max: nat, r: Round, c: Connection)
    requires Sound(t, listener, max) && !t.dead && CivilRound(r) && r.ready.Some?
    requires c in t.clients && c.fd < FD_SETSIZE
    requires !OneRound(t, listener, max, r).dead
    ensures c.fd >= 0 && Treated(t, OneRound(t, listener, max, r), c, c.fd in r.ready.value, r.received(c.fd))
  {
    hide Sound, ServeTo, CivilRound, About, Tells, Leaves;
    var ready := set fd | fd in r.ready.value && fd in t.active;
    var k := OneClient(t, listener, max, c);
    ServeToTreats(t, listener, max, ready, r, FD_SETSIZE);
    ClientIsWatched(t, listener, max, c);
  }

  lemma ClientIsWatched(t: Table, listener: nat, max: nat, c: Connection)
    requires Sound(t, listener, max) && c in t.clients
    ensures c.fd in t.active
  {
    assert c.fd in Descriptors(t.clients);
  }

  // ---- A connection request in a round ----

  /** Until the listening descriptor is served, nobody comes in. */
  lemma {:induction false} NobodyComesBefore(t: Table, listener: nat, max: nat, ready: set<nat>, r: Round, n: nat)
    requires Sound(t, listener, max) && !t.dead && CivilRound(r) && n <= listener
    ensures var t' := ServeTo(t, listener, max, ready, r, n);
      t'.dead || (|t'.clients| <= |t.clients| && t'.admitted == t.admitted)
    decreases n
  {
    hide Sound, CivilRound, Handle, Find, About, Tells, Leaves, Erase;
    if n > 0 {
      NobodyComesBefore(t, listener, max, ready, r, n - 1);
      ServeToKeeps(t, listener, max, ready, r, n - 1);
      var before := ServeTo(t, listener, max, ready, r, n - 1);
      if !before.dead && n - 1 in ready && Find(before.clients, n - 1).Some? {
        ServedSize(before, listener, max, Find(before.clients, n - 1).value, n - 1, r);
      }
    }
  }

  lemma ServedSize(t: Table, listener: nat, max: nat, k: nat, fd: nat, r: Round)
    requires Sound(t, listener, max) && !t.dead && CivilRound(r) && k < |t.clients| && t.clients[k].fd == fd
    ensures var t' := Handle(t, k, fd, r.received(fd));
      t'.dead || (t'.admitted == t.admitted && |t'.clients| <= |t.clients|
                  && forall d :: d in t.clients && d != t.clients[k] ==> d in t'.clients)
  {
    hide Handle, Called, About, Tells, Leaves, Erase;
    if !Handle(t, k, fd, r.received(fd)).dead {
      HandleTells(t, k, r.received(fd), 0);
      EraseFacts(t.clients, k);
      forall d | d in t.clients && d != t.clients[k] ensures d in Erase(t.clients, k) {
        OthersStay(t.clients, k, d);
      }
    }
  }

  /** The connection is in the table, and its descriptor is not served any more in this round. */
  ghost predicate Settled(t: Table, x: Connection, ready: set<nat>, n: nat) {
    x in t.clients && (x.fd < n || x.fd !in ready)
  }

  lemma Comes(t0: Table, t: Table, listener: nat, max: nat, ready: set<nat>, r: Round) returns (x: Connection)
    requires Sound(t0, listener, max) && Sound(t, listener, max) && !t.dead && |t.clients| < max
    requires TreatedTo(t0, t, ready, r, listener) && (forall fd :: fd in ready ==> fd in t0.active)
    requires r.accepted.Some?
    ensures x.id == t.admitted && Settled(Accept(t, listener, max, r.accepted), x, ready, listener + 1)
  {
    hide Called, About, Tells, Leaves, Distinct;
    var fd := NewDescriptor({listener} + Descriptors(t.clients), r.accepted.value);
    x := Connection(t.admitted, fd);
    assert Accept(t, listener, max, r.accepted).clients[|t.clients|] == x;
    forall m | m in ready && m > listener ensures m in Descriptors(t.clients) {
      StillTaken(t0, t, listener, max, ready, r, m);
    }
  }

  /** A descriptor that is still to be served belongs to a client of the table. */
  lemma StillTaken(t0: Table, t: Table, listener: nat, max: nat, ready: set<nat>, r: Round, m: nat)
    requires Sound(t0, listener, max) && TreatedTo(t0, t, ready, r, listener)
    requires m in t0.active && m > listener
    ensures m in Descriptors(t.clients)
  {
    hide Sound, About, Tells, Leaves;
    var c := WatchedClient(t0, listener, max, m);
    assert Treated(t0, t, c, false, r.received(c.fd));
  }

  lemma {:induction false} ComesIn(t: Table, listener: nat, max: nat, ready: set<nat>, r: Round, n: nat)
    returns (x: Connection)
    requires Sound(t, listener, max) && !t.dead && CivilRound(r) && |t.clients| < max && n > listener
    requires (forall fd :: fd in ready ==> fd in t.active) && listener in ready && r.accepted.Some?
    ensures var t' := ServeTo(t, listener, max, ready, r, n);
      t'.dead || (x.id == t.admitted && Settled(t', x, ready, n))
    decreases n
  {
    hide Sound, CivilRound, Accept, Handle, Find, About, Tells, Leaves, Erase;
    var m := n - 1;
    var before := ServeTo(t, listener, max, ready, r, m);
    x := Connection(0, 0);
    ServeToKeeps(t, listener, max, ready, r, m);
    DeadStays(t, listener, max, ready, r, m);
    if m == listener {
      if !before.dead {
        NobodyComesBefore(t, listener, max, ready, r, m);
        ServeToTreats(t, listener, max, ready, r, m);
        x := Comes(t, before, listener, max, ready, r);
      }
    } else {
      x := ComesIn(t, listener, max, ready, r, m);
      if !before.dead && m in ready && Find(before.clients, m).Some? {
        ServedSize(before, listener, max, Find(before.clients, m).value, m, r);
      }
    }
  }

  /** A connection request that meets a table below the limit ends as a client of the table, after whatever else the
      round brings. */
  lemma NewcomerIsAdmitted(t: Table, listener: nat, max: nat, r: Round)
    requires Sound(t, listener, max) && !t.dead && CivilRound(r) && |t.clients| < max && listener < FD_SETSIZE
    requires r.ready.Some? && listener in r.ready.value && r.accepted.Some?
    requires !OneRound(t, listener, max, r).dead
    ensures InTable(OneRound(t, listener, max, r).clients, t.admitted)
    ensures PhaseOf(OneRound(t, listener, max, r).calls, t.admitted) == Connected
  {
    hide ServeTo, CivilRound, Distinct;
    var ready := set fd | fd in r.ready.value && fd in t.active;
    var x := ComesIn(t, listener, max, ready, r, FD_SETSIZE);
    ServeToKeeps(t, listener, max, ready, r, FD_SETSIZE);
  }

  // ---- What ends the loop ----

  /** An error that the loop does not catch, an accept that fails, or a select that fails; nothing else. */
  lemma LoopEndsIff(t: Table, listener: nat, max: nat, fd: nat, r: Round)
    requires Sound(t, listener, max) && !t.dead
    ensures Serve(t, listener, max, fd, r).dead <==>
      if fd == listener then r.accepted.None?
      else
        && (exists c :: c in t.clients && c.fd == fd)
        && match r.received(fd)
           case Failed(e) => e.Foreign?
           case Text(text, reaction) => text != "" && reaction.throws == Some(Foreign)
    ensures r.ready.None? ==> OneRound(t, listener, max, r).dead
  {
    hide Called, Erase;
    assert Find(t.clients, fd).Some? <==> exists c :: c in t.clients && c.fd == fd by {
      if c :| c in t.clients && c.fd == fd {
        assert fd in Descriptors(t.clients);
      }
    }
  }
}
