/** peerdb.cpp: which peers are known to have which file. */
module Peers {
  import opened Streams
  import opened Codec
  import opened Network

  /** A group id and the hash of a file. */
  type FileKey = (string, string)

  // ---- The table on values ----

  datatype Known = Known(endpoint: Endpoint, files: set<FileKey>)

  type PeerTable = map<Size, Known>

  function WithPeer(t: PeerTable, id: Size, e: Endpoint): PeerTable {
    if id in t then t else t[id := Known(e, {})]
  }

  function WithFile(t: PeerTable, id: Size, key: FileKey): PeerTable {
    if id in t then t[id := t[id].(files := t[id].files + {key})] else t
  }

  /** What a client does for one seeder of a reply. */
  function Learn(t: PeerTable, hash: string -> Size, e: Endpoint, key: FileKey): PeerTable {
    WithFile(WithPeer(t, GenerateId(hash, e), e), GenerateId(hash, e), key)
  }

  function LearnAll(t: PeerTable, hash: string -> Size, seeders: seq<Endpoint>, key: FileKey): PeerTable {
    if seeders == [] then t
    else Learn(LearnAll(t, hash, seeders[..|seeders| - 1], key), hash, seeders[|seeders| - 1], key)
  }

  /** Who has the file, as far as the table tells. */
  function Holders(t: PeerTable, key: FileKey): set<Endpoint> {
    set id | id in t && key in t[id].files :: t[id].endpoint
  }

  /** Every peer is filed under the id of its own endpoint. */
  predicate Keyed(t: PeerTable, hash: string -> Size) {
    forall id :: id in t ==> GenerateId(hash, t[id].endpoint) == id
  }

  /** A list of peers that `getPeers` may return: every holder once, in any order. */
  predicate Lists(order: seq<Endpoint>, t: PeerTable, key: FileKey) {
    && (forall i, j :: 0 <= i < j < |order| ==> order[i] != order[j])
    && (set e | e in order) == Holders(t, key)
  }

  /** Ids are injective on the endpoints involved: a seeder meets no other endpoint under its id, neither in the
      table nor among the seeders. */
  predicate NoClash(t: PeerTable, hash: string -> Size, seeders: seq<Endpoint>) {
    forall i :: 0 <= i < |seeders| ==>
      var id := GenerateId(hash, seeders[i]);
      && (id in t ==> t[id].endpoint == seeders[i])
      && forall j :: 0 <= j < |seeders| && GenerateId(hash, seeders[j]) == id ==> seeders[j] == seeders[i]
  }

  /** Some seeder has this id. */
  predicate Named(hash: string -> Size, seeders: seq<Endpoint>, id: Size) {
    exists i :: 0 <= i < |seeders| && GenerateId(hash, seeders[i]) == id
  }

  /** What the seeders of one reply change in a table, at one id. */
  predicate LearnedAt(t: PeerTable, t': PeerTable, hash: string -> Size, seeders: seq<Endpoint>, key: FileKey,
                      id: Size)
  {
    var named := Named(hash, seeders, id);
    && (id in t' <==> id in t || named)
    && (id in t' ==>
          && GenerateId(hash, t'[id].endpoint) == id
          && (if id in t then t'[id].endpoint == t[id].endpoint else t'[id].endpoint in seeders)
          && t'[id].files == (if id in t then t[id].files else {}) + if named then {key} else {})
  }

  ghost predicate Learned(t: PeerTable, t': PeerTable, hash: string -> Size, seeders: seq<Endpoint>, key: FileKey) {
    forall id :: LearnedAt(t, t', hash, seeders, key, id)
  }

  lemma NamedSnoc(hash: string -> Size, seeders: seq<Endpoint>, e: Endpoint, id: Size)
    ensures Named(hash, seeders + [e], id) <==> Named(hash, seeders, id) || GenerateId(hash, e) == id
  {
    if Named(hash, seeders, id) {
      var i :| 0 <= i < |seeders| && GenerateId(hash, seeders[i]) == id;
      assert (seeders + [e])[i] == seeders[i];
    } else if GenerateId(hash, e) == id {
      assert (seeders + [e])[|seeders|] == e;
    }
  }

  lemma {:induction false} LearnAllLearns(t: PeerTable, hash: string -> Size, seeders: seq<Endpoint>, key: FileKey)
    requires Keyed(t, hash)
    ensures Learned(t, LearnAll(t, hash, seeders, key), hash, seeders, key)
  {
    hide Named, GenerateId;
    if seeders == [] {
      forall id: Size ensures !Named(hash, [], id) {
        NobodyNamed(hash, id);
      }
    } else {
      var n := |seeders| - 1;
      LearnAllLearns(t, hash, seeders[..n], key);
      assert seeders == seeders[..n] + [seeders[n]];
      forall id ensures LearnedAt(t, LearnAll(t, hash, seeders, key), hash, seeders, key, id) {
        NamedSnoc(hash, seeders[..n], seeders[n], id);
        assert LearnedAt(t, LearnAll(t, hash, seeders[..n], key), hash, seeders[..n], key, id);
      }
    }
  }

  lemma NobodyNamed(hash: string -> Size, id: Size)
    ensures !Named(hash, [], id)
  {
  }

  predicate OwnId(t: PeerTable, hash: string -> Size, e: Endpoint) {
    GenerateId(hash, e) in t && t[GenerateId(hash, e)].endpoint == e
  }

  lemma LearnedKeeps(t: PeerTable, t': PeerTable, hash: string -> Size, seeders: seq<Endpoint>, key: FileKey)
    requires Learned(t, t', hash, seeders, key)
    ensures Keyed(t', hash) && Holders(t, key) <= Holders(t', key)
    ensures forall other :: other != key ==> Holders(t', other) == Holders(t, other)
  {
    hide Named;
    forall id | id in t' ensures GenerateId(hash, t'[id].endpoint) == id {
      assert LearnedAt(t, t', hash, seeders, key, id);
    }
    forall other, e | e in Holders(t, other) ensures e in Holders(t', other) {
      var id :| id in t && other in t[id].files && t[id].endpoint == e;
      assert LearnedAt(t, t', hash, seeders, key, id);
    }
    forall other, e | other != key && e in Holders(t', other) ensures e in Holders(t, other) {
      var id :| id in t' && other in t'[id].files && t'[id].endpoint == e;
      assert LearnedAt(t, t', hash, seeders, key, id);
    }
  }

  lemma NoClashAdds(t: PeerTable, t': PeerTable, hash: string -> Size, seeders: seq<Endpoint>, key: FileKey)
    requires Learned(t, t', hash, seeders, key) && NoClash(t, hash, seeders)
    ensures Holders(t', key) == Holders(t, key) + (set e | e in seeders)
  {
    LearnedKeeps(t, t', hash, seeders, key);
    forall i | 0 <= i < |seeders| ensures seeders[i] in Holders(t', key) {
      var id := GenerateId(hash, seeders[i]);
      assert Named(hash, seeders, id) && LearnedAt(t, t', hash, seeders, key, id);
      assert t'[id].endpoint == seeders[i] && key in t'[id].files;
    }
    forall e | e in Holders(t', key) ensures e in Holders(t, key) || e in seeders {
      var id :| id in t' && key in t'[id].files && t'[id].endpoint == e;
      assert LearnedAt(t, t', hash, seeders, key, id);
      if id in t && key !in t[id].files {
        var i :| 0 <= i < |seeders| && GenerateId(hash, seeders[i]) == id;
        assert seeders[i] == e;
      }
    }
  }

  lemma AddedMeansNoClash(t: PeerTable, t': PeerTable, hash: string -> Size, seeders: seq<Endpoint>, key: FileKey)
    requires Learned(t, t', hash, seeders, key) && (set e | e in seeders) <= Holders(t', key)
    ensures NoClash(t, hash, seeders)
  {
    hide Named, GenerateId;
    LearnedKeeps(t, t', hash, seeders, key);
    forall i | 0 <= i < |seeders| ensures OwnId(t', hash, seeders[i]) {
      assert seeders[i] in Holders(t', key);
    }
    forall id | id in t && id in t' ensures t'[id].endpoint == t[id].endpoint {
      assert LearnedAt(t, t', hash, seeders, key, id);
    }
    forall id | id in t ensures id in t' {
      assert LearnedAt(t, t', hash, seeders, key, id);
    }
  }

  /** After a reply, the holders of its file are the previous ones and the reply's seeders, exactly when no two
      endpoints involved share an id; and for no file does a holder get lost, or come in for another file. */
  lemma {:induction false} HoldersAfterReplyIff(t: PeerTable, hash: string -> Size, seeders: seq<Endpoint>,
                                                key: FileKey)
    requires Keyed(t, hash)
    ensures var t' := LearnAll(t, hash, seeders, key);
      && Keyed(t', hash)
      && (Holders(t', key) == Holders(t, key) + (set e | e in seeders) <==> NoClash(t, hash, seeders))
      && Holders(t, key) <= Holders(t', key)
      && forall other :: other != key ==> Holders(t', other) == Holders(t, other)
  {
    hide LearnAll, Learned, Keyed, NoClash;
    var t' := LearnAll(t, hash, seeders, key);
    LearnAllLearns(t, hash, seeders, key);
    LearnedKeeps(t, t', hash, seeders, key);
    if NoClash(t, hash, seeders) {
      NoClashAdds(t, t', hash, seeders, key);
    }
    if (set e | e in seeders) <= Holders(t', key) {
      AddedMeansNoClash(t, t', hash, seeders, key);
    }
  }

  // ---- The objects ----

  class Peer {
    const id: Size
    const endpoint: Endpoint
    var files: set<FileKey>

    constructor (endpoint: Endpoint, id: Size)
      ensures this.id == id && this.endpoint == endpoint && files == {}
    {
      this.id, this.endpoint, files := id, endpoint, {};
    }
  }

  class PeerDB {
    var peers: map<Size, Peer>

    /** Peers are filed under their own ids, so no object is there twice. */
    ghost predicate Valid()
      reads this, peers.Values
    {
      forall id :: id in peers ==> peers[id].id == id
    }

    ghost function Contents(): PeerTable
      reads this, peers.Values
    {
      map id | id in peers :: Known(peers[id].endpoint, peers[id].files)
    }

    constructor ()
      ensures Valid() && Contents() == map[]
    {
      peers := map[];
    }

    method AddPeer(id: Size, e: Endpoint) returns (done: bool)
      requires Valid()
      modifies this
      ensures Valid() && Contents() == WithPeer(old(Contents()), id, e) && done == (id !in old(Contents()))
      ensures fresh(peers.Values - old(peers.Values))
    {
      if id in peers {
        return false;
      }
      var peer := new Peer(e, id);
      peers := peers[id := peer];
      done := true;
    }

    method RemovePeer(id: Size) returns (done: bool)
      requires Valid()
      modifies this
      ensures Valid() && Contents() == old(Contents()) - {id} && done == (id in old(Contents()))
    {
      if id !in peers {
        return false;
      }
      peers := peers - {id};
      done := true;
    }

    method AddFile(id: Size, key: FileKey) returns (done: bool)
      requires Valid()
      modifies peers.Values
      ensures Valid() && Contents() == WithFile(old(Contents()), id, key) && done == (id in old(Contents()))
    {
      if id !in peers {
        return false;
      }
      peers[id].files := peers[id].files + {key};
      done := true;
    }

    method RemoveFile(id: Size, key: FileKey) returns (done: bool)
      requires Valid()
      modifies peers.Values
      ensures Valid() && done == (id in old(Contents()))
      ensures Contents() == if id in old(Contents()) then
        old(Contents())[id := old(Contents())[id].(files := old(Contents())[id].files - {key})] else old(Contents())
    {
      if id !in peers {
        return false;
      }
      peers[id].files := peers[id].files - {key};
      done := true;
    }

    /** The loop over the seeders of a reply, which come out of their hash set in any order. */
    method LearnSeeders(hash: string -> Size, file: SharedFile) returns (ghost order: seq<Endpoint>)
      requires Valid() && Keyed(Contents(), hash)
      modifies this, peers.Values
      ensures Valid() && Keyed(Contents(), hash) && multiset(order) == file.seeders
      ensures Contents() == LearnAll(old(Contents()), hash, order, (file.groupId, file.info.hash))
      ensures fresh(peers.Values - old(peers.Values))
    {
      hide GenerateId, WithPeer, WithFile, Keyed, PeerDB.Valid, PeerDB.Contents;
      var key := (file.groupId, file.info.hash);
      var left := file.seeders;
      order := [];
      while left != multiset{}
        invariant multiset(order) + left == file.seeders
        invariant Valid() && fresh(peers.Values - old(peers.Values))
        invariant Contents() == LearnAll(old(Contents()), hash, order, key)
        decreases |left|
      {
        var seeder :| seeder in left;
        left := left - multiset{seeder};
        var added := AddPeer(GenerateId(hash, seeder), seeder);
        added := AddFile(GenerateId(hash, seeder), key);
        assert (order + [seeder])[..|order|] == order;
        order := order + [seeder];
      }
      HoldersAfterReplyIff(old(Contents()), hash, order, key);
    }

    /** Goes through the hash map in its own, unspecified order. */
    method GetPeers(key: FileKey, ghost hash: string -> Size) returns (result: seq<Peer>)
      requires Valid()
      ensures forall p :: p in result <==> p.id in peers && peers[p.id] == p && key in p.files
      ensures forall i, j :: 0 <= i < j < |result| ==> result[i] != result[j]
      ensures Keyed(Contents(), hash) ==> Lists(Addresses(result), Contents(), key)
    {
      result := [];
      var left := peers.Keys;
      while left != {}
        invariant left <= peers.Keys
        invariant forall p :: p in result <==> p.id in peers.Keys - left && peers[p.id] == p && key in p.files
        invariant forall i, j :: 0 <= i < j < |result| ==> result[i] != result[j]
        decreases |left|
      {
        var id :| id in left;
        left := left - {id};
        if key in peers[id].files {
          result := result + [peers[id]];
        }
      }
      if Keyed(Contents(), hash) {
        ResultLists(result, key, hash);
      }
    }

    lemma ResultLists(result: seq<Peer>, key: FileKey, hash: string -> Size)
      requires Valid() && Keyed(Contents(), hash)
      requires forall p :: p in result <==> p.id in peers && peers[p.id] == p && key in p.files
      requires forall i, j :: 0 <= i < j < |result| ==> result[i] != result[j]
      ensures Lists(Addresses(result), Contents(), key)
    {
      var t, order := Contents(), Addresses(result);
      forall i | 0 <= i < |result|
        ensures result[i].id in t && t[result[i].id].endpoint == order[i] && key in t[result[i].id].files
      {
        assert result[i] in result;
      }
      forall e | e in Holders(t, key) ensures e in order {
        var id :| id in t && key in t[id].files && t[id].endpoint == e;
        var i :| 0 <= i < |result| && result[i] == peers[id];
        assert order[i] == e;
      }
    }
  }

  function Addresses(result: seq<Peer>): seq<Endpoint> {
    seq(|result|, i requires 0 <= i < |result| => result[i].endpoint)
  }
}
