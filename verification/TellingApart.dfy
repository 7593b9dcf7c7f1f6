/** Trackers and peers are told apart by the hash of their endpoint's text: what that does as long as it tells them
    apart, and what a collision does. */
module TellingApart {
  import opened Streams
  import opened Codec
  import opened Network
  import opened Peers

  /** Different endpoints print differently. */
  lemma EndpointTextIsInjective(a: Endpoint, b: Endpoint)
    requires PlainEndpoint(a) && PlainEndpoint(b) && EndpointText(a) == EndpointText(b)
    ensures a == b
  {
    hide EndpointText, ParseEndpoint;
    EndpointRoundTrip(a);
    EndpointRoundTrip(b);
  }

  /** The hash takes different ones of these texts to different numbers. */
  ghost predicate Separates(hash: string -> Size, endpoints: set<Endpoint>) {
    forall a, b :: a in endpoints && b in endpoints && hash(EndpointText(a)) == hash(EndpointText(b)) ==>
      EndpointText(a) == EndpointText(b)
  }

  lemma SeparatedEndpoints(hash: string -> Size, endpoints: set<Endpoint>, a: Endpoint, b: Endpoint)
    requires Separates(hash, endpoints) && a in endpoints && b in endpoints
    requires PlainEndpoint(a) && PlainEndpoint(b)
    ensures hash(EndpointText(a)) == hash(EndpointText(b)) <==> a == b
  {
    hide EndpointText, PlainEndpoint;
    if hash(EndpointText(a)) == hash(EndpointText(b)) {
      EndpointTextIsInjective(a, b);
    }
  }

  // ---- Trackers ----

  /** One message to each entry that is up and is not this tracker, in the order of the list. */
  function Addressed(trackers: seq<Endpoint>, up: seq<bool>, me: Endpoint, message: string): seq<(Endpoint, string)>
    requires |trackers| == |up|
  {
    if trackers == [] then []
    else
      (if up[0] && trackers[0] != me then [(trackers[0], message)] else [])
      + Addressed(trackers[1..], up[1..], me, message)
  }

  /** No other tracker that is up has this tracker's number. */
  predicate Alone(trackers: seq<Endpoint>, up: seq<bool>, hash: string -> Size, me: Endpoint)
    requires |trackers| == |up|
  {
    forall i :: 0 <= i < |trackers| && up[i] && trackers[i] != me ==>
      hash(EndpointText(trackers[i])) != hash(EndpointText(me))
  }

  lemma AloneStep(trackers: seq<Endpoint>, up: seq<bool>, hash: string -> Size, me: Endpoint)
    requires |trackers| == |up| && trackers != []
    ensures Alone(trackers, up, hash, me) <==>
      && Alone(trackers[1..], up[1..], hash, me)
      && (up[0] && trackers[0] != me ==> hash(EndpointText(trackers[0])) != hash(EndpointText(me)))
  {
    hide EndpointText;
    assert forall i :: 1 <= i < |trackers| ==> trackers[1..][i - 1] == trackers[i] && up[1..][i - 1] == up[i];
  }

  /** Mirrors go to all the others that are up, and only to them, exactly if none of those has this tracker's number;
      otherwise some are missing, and never is one sent to this tracker itself. */
  lemma {:induction false} MirrorsIff(trackers: seq<Endpoint>, up: seq<bool>, hash: string -> Size, me: Endpoint,
                                      message: string)
    requires |trackers| == |up|
    ensures var (sent, all) :=
        (Mirrors(trackers, up, hash, hash(EndpointText(me)), message), Addressed(trackers, up, me, message));
      && (sent == all <==> Alone(trackers, up, hash, me))
      && |sent| <= |all| && (|sent| == |all| ==> sent == all)
      && forall m :: m in sent ==> m in all
  {
    hide EndpointText, Alone;
    if trackers == [] {
      NobodyElse(hash, me);
    } else {
      MirrorsIff(trackers[1..], up[1..], hash, me, message);
      AloneStep(trackers, up, hash, me);
      var (sent, all) := (Mirrors(trackers, up, hash, hash(EndpointText(me)), message),
                          Addressed(trackers, up, me, message));
      var (sent1, all1) := (Mirrors(trackers[1..], up[1..], hash, hash(EndpointText(me)), message),
                            Addressed(trackers[1..], up[1..], me, message));
      if up[0] && trackers[0] != me {
        var first := [(trackers[0], message)];
        assert all == first + all1 && all[1..] == all1;
        if hash(EndpointText(trackers[0])) != hash(EndpointText(me)) {
          assert sent == first + sent1 && sent[1..] == sent1;
        } else {
          assert sent == sent1;
        }
      } else {
        assert all == all1 && sent == sent1;
      }
    }
  }

  lemma NobodyElse(hash: string -> Size, me: Endpoint)
    ensures Alone([], [], hash, me)
  {
  }

  /** In particular if the hash tells the listed trackers apart. */
  lemma MirrorsReachAllOthers(trackers: seq<Endpoint>, up: seq<bool>, hash: string -> Size, me: Endpoint,
                              message: string)
    requires |trackers| == |up| && Separates(hash, (set e | e in trackers) + {me}) && PlainEndpoint(me)
    requires forall i :: 0 <= i < |trackers| ==> PlainEndpoint(trackers[i])
    ensures Mirrors(trackers, up, hash, hash(EndpointText(me)), message) == Addressed(trackers, up, me, message)
  {
    hide EndpointText, PlainEndpoint, Separates, Mirrors, Addressed;
    forall i | 0 <= i < |trackers| && trackers[i] != me
      ensures hash(EndpointText(trackers[i])) != hash(EndpointText(me))
    {
      SeparatedEndpoints(hash, (set e | e in trackers) + {me}, trackers[i], me);
    }
    MirrorsIff(trackers, up, hash, me, message);
  }

  // ---- Peers ----

  /** The endpoints that a table knows. */
  function Endpoints(t: PeerTable): set<Endpoint> {
    set id | id in t :: t[id].endpoint
  }

  /** Every peer is filed under the hash of its endpoint's text. */
  predicate Filed(t: PeerTable, hash: string -> Size) {
    forall id :: id in t ==> id == hash(EndpointText(t[id].endpoint))
  }

  /** None of these endpoints shares its number with another one of them or of the table. */
  ghost predicate Unmistaken(t: PeerTable, hash: string -> Size, all: set<Endpoint>) {
    forall e, x :: e in all && x in Endpoints(t) + all && hash(EndpointText(x)) == hash(EndpointText(e)) ==> x == e
  }

  /** After a reply the holders of its file are those known before and all its seeders, exactly if none of the seeders
      shares its number with another endpoint of the table or of the reply. */
  lemma HoldersIff(t: PeerTable, hash: string -> Size, seeders: seq<Endpoint>, key: FileKey)
    requires Filed(t, hash)
    ensures var (t', all) := (LearnAll(t, hash, seeders, key), set e | e in seeders);
      && Filed(t', hash)
      && (Holders(t', key) == Holders(t, key) + all <==> Unmistaken(t, hash, all))
  {
    hide EndpointText, LearnAll, Holders;
    HoldersAfterReplyIff(t, hash, seeders, key);
    var all := set e | e in seeders;
    if NoClash(t, hash, seeders) {
      forall e, x | e in all && x in Endpoints(t) + all && hash(EndpointText(x)) == hash(EndpointText(e))
        ensures x == e
      {
        var i :| 0 <= i < |seeders| && seeders[i] == e;
        if x in all {
          var j :| 0 <= j < |seeders| && seeders[j] == x;
        }
      }
    }
    if Unmistaken(t, hash, all) {
      forall i | 0 <= i < |seeders| && hash(EndpointText(seeders[i])) in t
        ensures t[hash(EndpointText(seeders[i]))].endpoint == seeders[i]
      {
        var x := t[hash(EndpointText(seeders[i]))].endpoint;
        assert x in Endpoints(t) && seeders[i] in all;
      }
      forall i, j | 0 <= i < |seeders| && 0 <= j < |seeders|
                    && hash(EndpointText(seeders[j])) == hash(EndpointText(seeders[i]))
        ensures seeders[j] == seeders[i]
      {
        assert seeders[j] in all && seeders[i] in all;
      }
    }
  }

  /** In particular if the hash tells all of them apart: every seeder is known as a holder, and nobody else comes in. */
  lemma HoldersAreSeeders(t: PeerTable, hash: string -> Size, seeders: seq<Endpoint>, key: FileKey)
    requires Filed(t, hash) && Separates(hash, Endpoints(t) + set e | e in seeders)
    requires forall e :: e in Endpoints(t) || e in seeders ==> PlainEndpoint(e)
    ensures Holders(LearnAll(t, hash, seeders, key), key) == Holders(t, key) + set e | e in seeders
  {
    hide EndpointText, PlainEndpoint, Separates, LearnAll, Holders, Endpoints, Filed;
    var all := Endpoints(t) + set e | e in seeders;
    forall e, x | e in seeders && x in all && hash(EndpointText(x)) == hash(EndpointText(e)) ensures x == e {
      SeparatedEndpoints(hash, all, x, e);
    }
    HoldersIff(t, hash, seeders, key);
  }
}
