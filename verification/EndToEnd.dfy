/** One file on its whole way: from the uploader's command over the tracker to the bytes at the downloader. */
module EndToEnd {
  import opened Streams
  import opened Codec
  import opened Requests
  import opened Hashing
  import opened Pieces
  import opened Downloads
  import opened Reconstruction
  import opened Serving
  import opened Peers
  import opened ClientInput
  import opened TellingApart
  import TrackerSpec
  import TrackerInvariants
  import Runs
  import Delivery
  import FileRights
  import TrackerServer

  // ---- What a client's own commands lead to ----

  const NEW_CLIENT := ClientState([], map[], [])

  ghost predicate Possible(inputs: seq<Input>) {
    forall i :: 0 <= i < |inputs| ==> Sized(inputs[i].disk)
  }

  ghost function Client(me: Identity, inputs: seq<Input>): ClientState
    requires Possible(inputs)
  {
    if inputs == [] then NEW_CLIENT else Enter(me, Client(me, inputs[..|inputs| - 1]), inputs[|inputs| - 1]).0
  }

  /** The entries of those additions that came with a download. */
  function DownloadAdds(adds: seq<Add>): seq<Entry> {
    if adds == [] then []
    else
      var n := |adds| - 1;
      DownloadAdds(adds[..n]) + if adds[n].allDownloaded then [] else [adds[n].Entry()]
  }

  function Tail(queue: seq<Entry>): seq<Entry> {
    if queue == [] then [] else queue[1..]
  }

  ghost predicate ClientSound(me: Identity, c: ClientState) {
    && Keyed(c.peers, me.hash)
    && (forall j :: 0 <= j < |c.queue| ==> Unfinished(c.queue[j]))
    && DownloadAdds(c.adds) == Tail(c.queue)
  }

  lemma DownloadAddsSnoc(adds: seq<Add>, a: Add)
    ensures DownloadAdds(adds + [a]) == DownloadAdds(adds) + if a.allDownloaded then [] else [a.Entry()]
  {
    assert (adds + [a])[..|adds|] == adds;
  }

  lemma EnqueueKeeps(me: Identity, c: ClientState, disk: map<string, string>, groupId: string, info: FileInfo,
                     path: string)
    requires ClientSound(me, c)
    ensures ClientSound(me, Enqueue(c, disk, groupId, info, path))
  {
    hide DownloadAdds, Keyed, Tail;
    DownloadAddsSnoc(c.adds, Add(groupId, info, path, false));
    assert c.adds + [] == c.adds;
    TailSnoc(c.queue, NewEntry(groupId, info, path, false));
  }

  lemma TailSnoc(queue: seq<Entry>, e: Entry)
    ensures Tail(queue + [e]) == Tail(queue) + if queue == [] then [] else [e]
  {
  }

  lemma EnterKeeps(me: Identity, c: ClientState, i: Input)
    requires ClientSound(me, c) && Sized(i.disk)
    ensures ClientSound(me, Enter(me, c, i).0)
  {
    hide ReadWord, ReadInt, Describe, Delivery.ParseReply, Enqueue, DownloadAdds, LearnAll, Keyed;
    hide UploadLine, DownloadLine;
    var (command, args) := ReadWord(Open(i.text));
    var (path, s) := ReadWord(args);
    if command == "upload_file" {
      if path in i.disk {
        var info := Describe(me.digest, Basename(path), i.disk[path], BLOCK_SIZE);
        DownloadAddsSnoc(c.adds, Add(ReadWord(s).0, info, path, true));
      }
    } else if command == "download_file" {
      var destination := ReadWord(ReadWord(s).1).0;
      match Delivery.ParseReply(i.response, i.unset)
      case Offered(file) =>
        var key := (file.groupId, file.info.hash);
        HoldersAfterReplyIff(c.peers, me.hash, i.order, key);
        var c' := c.(peers := LearnAll(c.peers, me.hash, i.order, key));
        EnqueueKeeps(me, c', i.disk, file.groupId, file.info, destination);
      case _ =>
    }
  }

  /** Over all commands that a user can enter and all responses of trackers: peers are filed under their own ids,
      the queue is one that the worker's theorems speak of, and the downloads entered among the files to serve are
      exactly those queued, in order, but for the first. */
  lemma {:induction false} ClientStaysSound(me: Identity, inputs: seq<Input>)
    requires Possible(inputs)
    ensures ClientSound(me, Client(me, inputs))
  {
    hide Enter, ClientSound;
    if inputs == [] {
      NewClientIsSound(me);
    } else {
      var n := |inputs| - 1;
      ClientStaysSound(me, inputs[..n]);
      EnterKeeps(me, Client(me, inputs[..n]), inputs[n]);
    }
  }

  /** In particular every known peer is filed under the hash of its endpoint's text. */
  lemma PeersAreFiled(me: Identity, inputs: seq<Input>)
    requires Possible(inputs)
    ensures Filed(Client(me, inputs).peers, me.hash)
  {
    hide Client, EndpointText;
    ClientStaysSound(me, inputs);
  }

  lemma NewClientIsSound(me: Identity)
    ensures ClientSound(me, NEW_CLIENT)
  {
  }

  // ---- Where the queued files go ----

  /** The destination of a download command, if the command queues a file: the response offers one, and nothing is at
      the destination. */
  function Enqueues(i: Input): Option<string> {
    var (command, s1) := ReadWord(Open(i.text));
    var path := ReadWord(ReadWord(ReadWord(s1).1).1).0;
    if command == "download_file" && path != "" && path !in i.disk && Delivery.ParseReply(i.response, i.unset).Offered?
    then Some(path)
    else None
  }

  ghost predicate DistinctPaths(queue: seq<Entry>) {
    forall i, j :: 0 <= i < j < |queue| ==> queue[i].path != queue[j].path
  }

  /** A command queues a file for a path that an earlier one has queued a file for. */
  ghost predicate RepeatsDestination(inputs: seq<Input>) {
    exists i, j :: 0 <= i < j < |inputs| && Enqueues(inputs[i]).Some? && Enqueues(inputs[j]) == Enqueues(inputs[i])
  }

  lemma EnterQueues(me: Identity, c: ClientState, i: Input)
    requires Sized(i.disk)
    ensures var queue := Enter(me, c, i).0.queue;
      if Enqueues(i).None? then queue == c.queue
      else |queue| == |c.queue| + 1 && queue[..|c.queue|] == c.queue && queue[|c.queue|].path == Enqueues(i).value
  {
    hide ReadWord, Describe, Delivery.ParseReply, LearnAll, UploadLine, DownloadLine;
  }

  /** A path is in the queue exactly if some command queued a file for it. */
  lemma {:induction false} QueuedPaths(me: Identity, inputs: seq<Input>, path: string)
    requires Possible(inputs)
    ensures (exists e :: e in Client(me, inputs).queue && e.path == path) <==>
      exists i :: 0 <= i < |inputs| && Enqueues(inputs[i]) == Some(path)
  {
    hide Enter, Enqueues;
    if inputs != [] {
      var n := |inputs| - 1;
      var before, queue := Client(me, inputs[..n]).queue, Client(me, inputs).queue;
      QueuedPaths(me, inputs[..n], path);
      EnterQueues(me, Client(me, inputs[..n]), inputs[n]);
      if e :| e in before && e.path == path {
        assert e in queue;
        var i :| 0 <= i < n && Enqueues(inputs[..n][i]) == Some(path);
        assert Enqueues(inputs[i]) == Some(path);
      }
      if Enqueues(inputs[n]) == Some(path) {
        assert queue[|before|] in queue;
      }
      forall i | 0 <= i < n && Enqueues(inputs[i]) == Some(path) ensures exists e :: e in queue && e.path == path {
        assert Enqueues(inputs[..n][i]) == Some(path);
      }
    }
  }

  lemma DistinctPathsSnoc(queue: seq<Entry>, e: Entry)
    ensures DistinctPaths(queue + [e]) <==> DistinctPaths(queue) && !exists e' :: e' in queue && e'.path == e.path
  {
    var longer := queue + [e];
    assert longer[|queue|] == e;
    assert forall i :: 0 <= i < |queue| ==> longer[i] == queue[i];
  }

  lemma RepeatsSnoc(inputs: seq<Input>)
    requires inputs != []
    ensures var n := |inputs| - 1;
      RepeatsDestination(inputs) <==>
        || RepeatsDestination(inputs[..n])
        || (Enqueues(inputs[n]).Some? && exists i :: 0 <= i < n && Enqueues(inputs[i]) == Enqueues(inputs[n]))
  {
    hide Enqueues;
    var n := |inputs| - 1;
    assert forall i :: 0 <= i < n ==> inputs[..n][i] == inputs[i];
  }

  /** The queued files go to different paths exactly if no command queues a file for a destination that was queued
      before and where still nothing is. */
  lemma {:induction false} QueuedPathsDistinctIff(me: Identity, inputs: seq<Input>)
    requires Possible(inputs)
    ensures DistinctPaths(Client(me, inputs).queue) <==> !RepeatsDestination(inputs)
  {
    hide Enter, Enqueues;
    if inputs != [] {
      var n := |inputs| - 1;
      var before, queue := Client(me, inputs[..n]).queue, Client(me, inputs).queue;
      QueuedPathsDistinctIff(me, inputs[..n]);
      EnterQueues(me, Client(me, inputs[..n]), inputs[n]);
      RepeatsSnoc(inputs);
      if Enqueues(inputs[n]).Some? {
        var path := Enqueues(inputs[n]).value;
        QueuedPaths(me, inputs[..n], path);
        DistinctPathsSnoc(before, queue[|before|]);
        assert queue == before + [queue[|before|]];
        assert forall i :: 0 <= i < n ==> inputs[..n][i] == inputs[i];
      }
    }
  }

  // ---- Asking the peers of the table ----

  /** What each endpoint answers to a request. */
  type Net = (Endpoint, string) -> Answer

  function Key(e: Entry): FileKey {
    (e.groupId, e.info.hash)
  }

  function Ask(net: Net, peer: Endpoint, e: Entry, piece: string): Answer {
    net(peer, GetLine(e.groupId, e.info.name, piece))
  }

  function AskAll(net: Net, order: seq<Endpoint>, e: Entry, piece: string): seq<Answer> {
    seq(|order|, i requires 0 <= i < |order| => Ask(net, order[i], e, piece))
  }

  /** The visit asks what getPeers lists, in some order. */
  ghost predicate Asks(net: Net, peers: PeerTable, e: Entry, v: Visit)
    requires !Complete(e)
  {
    exists order :: Lists(order, peers, Key(e)) && v.answers == AskAll(net, order, e, Wanted(e.remaining, v.piece))
  }

  predicate Serves(digest: string -> Digest, net: Net, peer: Endpoint, e: Entry) {
    forall p :: p in PieceSet(e.info) ==> Good(digest, p, Ask(net, peer, e, p))
  }

  /** Nobody in the table makes the worker throw over the file: no error but a closed connection, and no status 1
      without data. */
  ghost predicate NobodyThrows(net: Net, peers: PeerTable, e: Entry) {
    forall peer, p :: peer in Holders(peers, Key(e)) && p in PieceSet(e.info) ==> !Fatal(Ask(net, peer, e, p))
  }

  /** Somebody in the table serves the file, and nobody there makes the worker throw. */
  ghost predicate Seeded(digest: string -> Digest, net: Net, peers: PeerTable, e: Entry) {
    && (exists peer :: peer in Holders(peers, Key(e)) && Serves(digest, net, peer, e))
    && NobodyThrows(net, peers, e)
  }

  /** A file over which nobody throws, whether or not anybody has it. */
  lemma CivilVisitIsSurvived(digest: string -> Digest, net: Net, peers: PeerTable, e: Entry, v: Visit)
    requires Partitioned(e) && NobodyThrows(net, peers, e)
    requires Complete(e) || Asks(net, peers, e, v)
    ensures Survived(digest, e, v)
  {
    hide Good, Fatal;
    if !Complete(e) {
      var piece := Wanted(e.remaining, v.piece);
      assert piece in e.downloaded + e.remaining;
      var order :| Lists(order, peers, Key(e)) && v.answers == AskAll(net, order, e, piece);
      forall i | 0 <= i < |v.answers| ensures !Fatal(v.answers[i]) {
        assert order[i] in set a | a in order;
      }
    }
  }

  lemma SeededVisitIsServed(digest: string -> Digest, net: Net, peers: PeerTable, e: Entry, v: Visit)
    requires Partitioned(e) && Seeded(digest, net, peers, e)
    requires Complete(e) || Asks(net, peers, e, v)
    ensures Served(digest, e, v)
  {
    hide Good, Fatal, FirstGood;
    if !Complete(e) {
      var piece := Wanted(e.remaining, v.piece);
      assert piece in e.downloaded + e.remaining;
      var order :| Lists(order, peers, Key(e)) && v.answers == AskAll(net, order, e, piece);
      var peer :| peer in Holders(peers, Key(e)) && Serves(digest, net, peer, e);
      assert peer in set a | a in order;
      var k :| 0 <= k < |order| && order[k] == peer;
      forall i | 0 <= i < k ensures !Fatal(v.answers[i]) {
        assert order[i] in set a | a in order;
      }
      OneGoodPeerServes(digest, piece, v.answers, k);
    }
  }

  ghost predicate AskingPass(digest: string -> Digest, bs: BlockSize, net: Net, peers: PeerTable, w: World,
                             visits: seq<Visit>)
    requires |visits| == |w.entries|
  {
    forall k :: 0 <= k < |visits| ==>
      var e := PassTo(digest, bs, w, visits, k).entries[k]; Complete(e) || Asks(net, peers, e, visits[k])
  }

  ghost predicate AskingRounds(digest: string -> Digest, bs: BlockSize, net: Net, peers: PeerTable, w: World,
                               rounds: seq<seq<Visit>>)
    requires Shaped(rounds, |w.entries|)
  {
    rounds == [] ||
    var n := |rounds| - 1;
    && AskingRounds(digest, bs, net, peers, w, rounds[..n])
    && AskingPass(digest, bs, net, peers, Worker(digest, bs, w, rounds[..n]), rounds[n])
  }

  lemma SeededPassIsServed(digest: string -> Digest, bs: BlockSize, net: Net, peers: PeerTable, w0: World, w: World,
                           visits: seq<Visit>, i: nat)
    requires |visits| == |w.entries| && Accounts(w0, w) && AskingPass(digest, bs, net, peers, w, visits)
    requires i < |w0.entries| && Seeded(digest, net, peers, w0.entries[i])
    requires forall j :: 0 <= j < |w0.entries| ==> NobodyThrows(net, peers, w0.entries[j])
    ensures ServedPass(digest, bs, w, visits, i)
  {
    hide Accounts, PassTo, Served, Survived, Asks, NobodyThrows, Seeded;
    AccountsShape(w0, w);
    forall k | 0 <= k < |visits|
      ensures var e := PassTo(digest, bs, w, visits, k).entries[k];
        Survived(digest, e, visits[k]) && (k == i ==> Served(digest, e, visits[k]))
    {
      var e := PassTo(digest, bs, w, visits, k).entries[k];
      PassAccounts(digest, bs, w0, w, visits, k);
      AccountsPartition(w0, PassTo(digest, bs, w, visits, k), k);
      SameFileAsked(digest, net, peers, w0.entries[k], e);
      CivilVisitIsSurvived(digest, net, peers, e, visits[k]);
      if k == i {
        SeededVisitIsServed(digest, net, peers, e, visits[k]);
      }
    }
  }

  lemma AccountsShape(w0: World, w: World)
    requires Accounts(w0, w)
    ensures |w.entries| == |w0.entries|
  {
  }

  lemma SameFileAsked(digest: string -> Digest, net: Net, peers: PeerTable, e: Entry, e': Entry)
    requires SameFile(e', e)
    ensures NobodyThrows(net, peers, e) ==> NobodyThrows(net, peers, e')
    ensures Seeded(digest, net, peers, e) ==> Seeded(digest, net, peers, e')
  {
    hide Good, Fatal;
    assert forall peer, p :: Ask(net, peer, e', p) == Ask(net, peer, e, p);
    if Seeded(digest, net, peers, e) {
      var peer :| peer in Holders(peers, Key(e)) && Serves(digest, net, peer, e);
      assert Serves(digest, net, peer, e');
    }
  }

  lemma {:induction false} SeededRoundsAreServed(digest: string -> Digest, bs: BlockSize, net: Net,
                                                 peers: PeerTable, w: World, rounds: seq<seq<Visit>>, i: nat)
    requires Queued(w) && Shaped(rounds, |w.entries|) && AskingRounds(digest, bs, net, peers, w, rounds)
    requires i < |w.entries| && Seeded(digest, net, peers, w.entries[i])
    requires forall j :: 0 <= j < |w.entries| ==> NobodyThrows(net, peers, w.entries[j])
    ensures ServedRounds(digest, bs, w, rounds, i)
    decreases |rounds|
  {
    hide Queued, Seeded, NobodyThrows, PassTo, AskingPass, ServedPass, Accounts;
    if rounds != [] {
      var n := |rounds| - 1;
      SeededRoundsAreServed(digest, bs, net, peers, w, rounds[..n], i);
      WorkerAccounts(digest, bs, w, rounds[..n]);
      SeededPassIsServed(digest, bs, net, peers, w, Worker(digest, bs, w, rounds[..n]), rounds[n], i);
    }
  }

  /** If a queued file has a serving peer in the table, and no peer there makes the worker throw over any file, then, in
      whatever order the peers are asked and the pieces chosen, and whatever else is queued: the file is complete
      exactly from as many passes on as it has distinct pieces; and then its output is its source exactly when repeated
      blocks do no harm. */
  lemma SeededDownloadsFinish(digest: string -> Digest, bs: BlockSize, net: Net, peers: PeerTable, w: World,
                              rounds: seq<seq<Visit>>, j: nat, content: string)
    requires Queued(w) && Shaped(rounds, |w.entries|) && AskingRounds(digest, bs, net, peers, w, rounds)
    requires j < |w.entries| && Seeded(digest, net, peers, w.entries[j])
    requires forall i :: 0 <= i < |w.entries| ==> NobodyThrows(net, peers, w.entries[i])
    requires var path := w.entries[j].path;
      Destined(digest, bs, w, path, content, Delivered(w.entries, rounds, path))
    ensures var w' := Worker(digest, bs, w, rounds);
      && (Complete(w'.entries[j]) <==> |PieceSet(w.entries[j].info)| <= |rounds|)
      && (Complete(w'.entries[j]) ==>
            (FileAt(w'.disk, w.entries[j].path) == content <==> RepeatsAreHarmless(Blocks(content, bs))))
  {
    hide Worker, Destined, Seeded, NobodyThrows, ServedRounds, AskingRounds, RepeatsAreHarmless;
    hide Delivered, Unfinished;
    SeededRoundsAreServed(digest, bs, net, peers, w, rounds, j);
    ServedRoundsFeed(digest, bs, w, rounds, j);
    WorkerProgress(digest, bs, w, rounds, j);
    if Complete(Worker(digest, bs, w, rounds).entries[j]) {
      CompleteOutputIff(digest, bs, w, rounds, j, content);
    }
  }

  // ---- From the upload to the queue ----

  /** The endpoint answers as a client with these additions and this disk does. */
  ghost predicate AnswersFrom(net: Net, peer: Endpoint, adds: seq<Add>, disk: map<string, string>, bs: BlockSize) {
    forall line :: Serve(AddAll(adds), disk, line, bs).Some? ==>
      net(peer, line).Replied? && net(peer, line).text == Serve(AddAll(adds), disk, line, bs).value
  }

  /** Who first uploaded a file and has not changed its uploads serves every piece of it. */
  lemma HonestSeederServes(digest: string -> Digest, bs: BlockSize, net: Net, peer: Endpoint, adds: seq<Add>,
                           disk: map<string, string>, k: nat, e: Entry)
    requires AnswersFrom(net, peer, adds, disk, bs) && UploadsUnchanged(digest, bs, disk, adds)
    requires IsWord(e.groupId) && IsWord(e.info.name)
    requires k < |adds| && FirstAdd(adds, k, (e.groupId, e.info.name)) && adds[k].allDownloaded
    requires adds[k].info == e.info
    ensures Serves(digest, net, peer, e)
  {
    hide Good, Fatal, Useless, Serve, AddAll, Describe, GetLine;
    assert Unchanged(digest, bs, disk, adds[k]);
    DescriptionsArePlain(digest, e.info.name, disk[adds[k].path], bs);
    forall p | p in PieceSet(e.info) ensures Good(digest, p, Ask(net, peer, e, p)) {
      assert Uploaded(adds, k, (e.groupId, e.info.name), p);
      var a := Ask(net, peer, e, p);
      SeederServesIff(digest, bs, disk, adds, e.groupId, e.info.name, p, if a.Replied? then a.unset else 0);
    }
  }

  function UploadCommand(path: string, groupId: string): string {
    "" + "upload_file" + (" " + path + (" " + groupId + ""))
  }

  function DownloadCommand(groupId: string, name: string, path: string): string {
    "" + "download_file" + (" " + groupId + (" " + name + (" " + path + "")))
  }

  lemma UploadCommandEnters(me: Identity, c: ClientState, i: Input, path: string, groupId: string)
    requires IsWord(path) && IsWord(groupId) && i.text == UploadCommand(path, groupId)
    requires Sized(i.disk) && path in i.disk
    ensures var info := Describe(me.digest, Basename(path), i.disk[path], BLOCK_SIZE);
      Enter(me, c, i) == (c.(adds := c.adds + [Add(groupId, info, path, true)]),
        Entered(Some("1" + UploadLine(me.Id(), groupId, me.endpoint, info)), Some(true)))
  {
    hide ReadWord, Describe, UploadLine, Basename;
    ReadWordBack("", "upload_file", " " + path + (" " + groupId + ""));
    ReadWordBack(" ", path, " " + groupId + "");
    ReadWordBack(" ", groupId, "");
  }

  lemma DownloadCommandEnters(me: Identity, c: ClientState, i: Input, groupId: string, name: string, path: string)
    requires IsWord(groupId) && IsWord(name) && IsWord(path) && i.text == DownloadCommand(groupId, name, path)
    requires Sized(i.disk)
    ensures var (c', result) := TakeReply(me, c, i, path);
      Enter(me, c, i) == (c', Entered(Some("1" + DownloadLine(me.Id(), groupId, name)), result))
  {
    hide ReadWord, TakeReply, DownloadLine;
    ReadWordBack("", "download_file", " " + groupId + (" " + name + (" " + path + "")));
    ReadWordBack(" ", groupId, " " + name + (" " + path + ""));
    ReadWordBack(" ", name, " " + path + "");
    ReadWordBack(" ", path, "");
  }

  /** The same download command entered twice, before the worker has written anything, queues one path twice. */
  lemma QueuedTwice(me: Identity, i: Input, printed: seq<Endpoint>, groupId: string, info: FileInfo, path: string)
    requires IsWord(groupId) && IsWord(path) && IsWord(info.name) && PlainInfo(info)
    requires |printed| < SIZE_LIMIT && forall k :: 0 <= k < |printed| ==> PlainEndpoint(printed[k])
    requires i.text == DownloadCommand(groupId, info.name, path)
    requires i.response == Delivery.ReplyText(printed, groupId, info)
    requires Sized(i.disk) && path !in i.disk
    ensures var e := NewEntry(groupId, info, path, false); Client(me, [i, i]).queue == [e, e]
  {
    hide Enter, Delivery.ParseReply, Delivery.ReplyText, PlainInfo, PlainEndpoint, DownloadCommand, LearnAll;
    var e, once := NewEntry(groupId, info, path, false), [i];
    Delivery.NamedFilesTravel(printed, groupId, info, i.unset);
    DownloadCommandEnters(me, NEW_CLIENT, i, groupId, info.name, path);
    assert once[..0] == [] && [i, i][..1] == once;
    assert Client(me, once) == Enter(me, NEW_CLIENT, i).0;
    assert Client(me, once).queue == [e];
    DownloadCommandEnters(me, Client(me, once), i, groupId, info.name, path);
  }

  /** An upload command of one client, the tracker's run before and after it, and a download command of another
      client, which the tracker answers. */
  datatype Journey = Journey(
    up: Identity, uploader: ClientState, sharing: Input, path: string, groupId: string,
    run: seq<Runs.Event>, pick: TrackerSpec.Pick, told: bool, later: seq<Runs.Event>,
    picked: TrackerSpec.Pick,
    down: Identity, downloader: ClientState, fetching: Input, destination: string)
  {
    predicate Readable() {
      Sized(sharing.disk) && path in sharing.disk
    }

    function Info(): FileInfo
      requires Readable()
    {
      Describe(up.digest, Basename(path), sharing.disk[path], BLOCK_SIZE)
    }

    function Line(): string
      requires Readable()
    {
      UploadLine(up.Id(), groupId, up.endpoint, Info())
    }

    ghost function Answering(): TrackerSpec.State
      requires Readable()
    {
      Runs.After(run + [Runs.Event(Line(), pick, told)] + later)
    }

    /** What the downloader queues. */
    function Wanted(): Entry
      requires Readable()
    {
      NewEntry(groupId, Info(), destination, false)
    }

    /** Words where the line protocol needs words; an endpoint without white space or a colon in its ip. */
    predicate Plain() {
      && IsWord(path) && IsWord(groupId) && IsWord(destination) && IsWord(Basename(path))
      && PlainEndpoint(up.endpoint)
    }

    /** The uploader is logged in, and owner or member of the group, which does not have the file yet. */
    ghost predicate Admitted()
      requires Readable()
    {
      && FileRights.Entitled(Runs.After(run), up.Id(), groupId)
      && Info().hash !in Runs.After(run).groups[groupId].files
    }

    /** What the tracker does with the downloader's line. */
    ghost function Outcome(): TrackerSpec.Outcome
      requires Readable()
    {
      Runs.StepLine(Answering(), Runs.Event(DownloadLine(down.Id(), groupId, Info().name), picked, true)).1
    }

    /** Of the group's files with that name the tracker picks this one, and what it answers a client goes out, with the
        seeders in some order. */
    ghost predicate Answered()
      requires Readable()
    {
      && Outcome().Done? && Outcome().reply.Found? && Outcome().reply.file.info.hash == Info().hash
      && match ParseRequest(DownloadLine(down.Id(), groupId, Info().name))
         case None => false
         case Some(t) =>
           var answer := TrackerServer.Answered(t, Outcome(), true, TrackerServer.Fine);
           answer.Some? && Delivery.Renders(answer.value, fetching.response)
    }

    /** The endpoints in the tracker's answer. */
    ghost function Seeders(): multiset<Endpoint>
      requires Readable() && Answered()
    {
      Outcome().reply.file.seeders
    }

    ghost predicate Travels() {
      && Plain() && Readable() && Admitted() && Answered() && |Seeders()| < SIZE_LIMIT
      && sharing.text == UploadCommand(path, groupId)
      && fetching.text == DownloadCommand(groupId, Info().name, destination)
      && multiset(fetching.order) == Seeders()
      && Sized(fetching.disk) && destination !in fetching.disk
      && Filed(downloader.peers, down.hash)
      && Unmistaken(downloader.peers, down.hash, set e | e in fetching.order)
    }
  }

  /** The response is the printed file, with its seeders in some order. */
  lemma ResponseIsPrinted(j: Journey) returns (printed: seq<Endpoint>)
    requires j.Readable() && j.Answered()
    ensures multiset(printed) == j.Seeders() && |printed| == |j.Seeders()|
    ensures j.fetching.response == Delivery.ReplyText(printed, j.Outcome().reply.groupId, j.Outcome().reply.file.info)
  {
    hide Describe, Basename, Runs.After, Runs.StepLine, Delivery.ReplyText, DownloadLine, ParseRequest;
    var reply := j.Outcome().reply;
    printed :| multiset(printed) == reply.file.seeders
               && j.fetching.response == Delivery.ReplyText(printed, reply.groupId, reply.file.info);
  }

  lemma FoundFileIsHeld(s: TrackerSpec.State, id: Size, groupId: string, name: string, pick: TrackerSpec.Pick)
    requires IsWord(groupId) && IsWord(name) && TrackerInvariants.Sound(s)
    ensures var out := Runs.StepLine(s, Runs.Event(DownloadLine(id, groupId, name), pick, true)).1;
      out.Done? && out.reply.Found? ==>
        var h := out.reply.file.info.hash;
        && out.reply.groupId == groupId && groupId in s.groups && h in s.groups[groupId].files
        && out.reply.file == s.groups[groupId].files[h]
  {
    hide DownloadLine, DecodeLine;
    DownloadLineRoundTrip(id, groupId, name);
  }

  /** Both clients send what the tracker reads; from any later state of the tracker, its reply puts exactly the
      described file into the downloader's queue and all seeders, the uploader among them, into its peer table. */
  lemma UploadReachesQueue(j: Journey)
    requires j.Travels()
    ensures var down' := Enter(j.down, j.downloader, j.fetching).0;
      && Enter(j.up, j.uploader, j.sharing).1.sent == Some("1" + j.Line())
      && Enter(j.down, j.downloader, j.fetching).1.sent ==
           Some("1" + DownloadLine(j.down.Id(), j.groupId, j.Info().name))
      && down'.queue == j.downloader.queue + [j.Wanted()]
      && Holders(down'.peers, Key(j.Wanted())) ==
           Holders(j.downloader.peers, Key(j.Wanted())) + (set s | s in j.Seeders())
      && j.up.endpoint in Holders(down'.peers, Key(j.Wanted()))
  {
    hide Describe, Basename, UploadLine, Delivery.ParseReply, Delivery.ReplyText, Runs.After, FileRights.Entitled;
    hide LearnAll, Unmistaken, Filed, Holders, Enter, PlainInfo, PlainEndpoint, DownloadCommand, Runs.StepLine;
    hide DownloadLine, TrackerInvariants.Sound, ParseRequest, Delivery.Renders, TrackerServer.Answered;
    var info := j.Info();
    var printed := ResponseIsPrinted(j);
    UploadCommandEnters(j.up, j.uploader, j.sharing, j.path, j.groupId);
    DescriptionsArePlain(j.up.digest, Basename(j.path), j.sharing.disk[j.path], BLOCK_SIZE);
    DescribedName(j.up.digest, Basename(j.path), j.sharing.disk[j.path]);
    Runs.RunIsSound(j.run + [Runs.Event(j.Line(), j.pick, j.told)] + j.later);
    FoundFileIsHeld(j.Answering(), j.down.Id(), j.groupId, info.name, j.picked);
    Delivery.UploadReachesDownloader(j.run, j.up.Id(), j.groupId, j.up.endpoint, info, j.pick, j.told, j.later,
                                     printed, j.fetching.unset);
    DownloadCommandEnters(j.down, j.downloader, j.fetching, j.groupId, info.name, j.destination);
    HoldersIff(j.downloader.peers, j.down.hash, j.fetching.order, (j.groupId, info.hash));
    SameElements(j.fetching.order, j.Seeders());
  }

  /** The uploader after its command. */
  ghost function Shared(j: Journey): ClientState
    requires j.Readable()
  {
    Enter(j.up, j.uploader, j.sharing).0
  }

  /** The downloader after its command. */
  ghost function Fetched(j: Journey): ClientState
    requires Sized(j.fetching.disk)
  {
    Enter(j.down, j.downloader, j.fetching).0
  }

  /** Whatever else the uploader has shared by now: it had not added that group and name before, has not changed what it
      uploaded, and answers the network as it does from its own table. */
  ghost predicate KeepsSharing(j: Journey, net: Net, adds: seq<Add>, disk: map<string, string>)
    requires j.Readable()
  {
    && (forall i :: 0 <= i < |j.uploader.adds| ==> j.uploader.adds[i].Id() != (j.groupId, j.Info().name))
    && Shared(j).adds <= adds && UploadsUnchanged(j.up.digest, BLOCK_SIZE, disk, adds)
    && AnswersFrom(net, j.up.endpoint, adds, disk, BLOCK_SIZE)
  }

  /** Then the file is seeded for the downloader, provided that no peer in the table makes the worker throw over it. */
  lemma UploadedFileIsSeeded(j: Journey, net: Net, adds: seq<Add>, disk: map<string, string>)
    requires j.Travels() && j.up.digest == j.down.digest && KeepsSharing(j, net, adds, disk)
    requires NobodyThrows(net, Fetched(j).peers, j.Wanted())
    ensures Seeded(j.down.digest, net, Fetched(j).peers, j.Wanted())
  {
    hide Describe, Basename, UploadLine, Runs.After, FileRights.Entitled, Delivery.ReplyText, NobodyThrows, Serves;
    hide Unmistaken, Filed, Holders, Enter, PlainEndpoint, DownloadCommand, UploadCommand, AnswersFrom;
    hide UploadsUnchanged;
    UploadReachesQueue(j);
    UploadCommandEnters(j.up, j.uploader, j.sharing, j.path, j.groupId);
    DescribedName(j.up.digest, Basename(j.path), j.sharing.disk[j.path]);
    HonestSeederServes(j.up.digest, BLOCK_SIZE, net, j.up.endpoint, adds, disk, |j.uploader.adds|, j.Wanted());
  }

  /** Where the worker starts: with what the client has queued. */
  function WorkerStart(c: ClientState, disk: map<string, string>): World {
    World(c.queue, disk, [], [], false)
  }

  /** A new download behind a queue that has its path, if at all, for the same content. */
  lemma QueueWithDownload(digest: string -> Digest, bs: BlockSize, queue: seq<Entry>, e: Entry,
                          disk: map<string, string>, content: string, texts: set<string>)
    requires forall i :: 0 <= i < |queue| ==>
      Unfinished(queue[i]) && (queue[i].path == e.path ==> Describes(digest, bs, queue[i], content))
    requires Unfinished(e) && e.path !in disk && Source(digest, bs, e, content, texts)
    ensures var w := World(queue + [e], disk, [], [], false);
      Queued(w) && Destined(digest, bs, w, e.path, content, texts)
  {
    hide Unfinished, Describes, NoCollision;
  }

  /** From the uploader's command to the bytes at the downloader, whatever else is in its queue for other paths, also
      if the same is queued for this path already, and as long as nobody makes its worker throw: the download is
      complete exactly from as many passes on as the file has distinct pieces, and its output is then the uploaded
      content exactly when repeated blocks do no harm. */
  lemma UploadedFileArrives(j: Journey, net: Net, adds: seq<Add>, disk: map<string, string>,
                            rounds: seq<seq<Visit>>)
    requires j.Travels() && j.up.digest == j.down.digest && KeepsSharing(j, net, adds, disk)
    requires forall i :: 0 <= i < |j.downloader.queue| ==>
      var e := j.downloader.queue[i];
      && Unfinished(e)
      && (e.path == j.destination ==> Describes(j.down.digest, BLOCK_SIZE, e, j.sharing.disk[j.path]))
    requires forall i :: 0 <= i < |Fetched(j).queue| ==>
      NobodyThrows(net, Fetched(j).peers, Fetched(j).queue[i])
    requires var w := WorkerStart(Fetched(j), j.fetching.disk);
      Shaped(rounds, |w.entries|) && AskingRounds(j.down.digest, BLOCK_SIZE, net, Fetched(j).peers, w, rounds)
    requires NoCollision(j.down.digest, Blocks(j.sharing.disk[j.path], BLOCK_SIZE),
                         Delivered(Fetched(j).queue, rounds, j.destination))
    ensures var (w, content) := (WorkerStart(Fetched(j), j.fetching.disk), j.sharing.disk[j.path]);
      var (w', n) := (Worker(j.down.digest, BLOCK_SIZE, w, rounds), |j.downloader.queue|);
      && |w'.entries| == n + 1
      && (Complete(w'.entries[n]) <==> |PieceSet(j.Info())| <= |rounds|)
      && (Complete(w'.entries[n]) ==>
            (FileAt(w'.disk, j.destination) == content <==> RepeatsAreHarmless(Blocks(content, BLOCK_SIZE))))
  {
    hide Enter, Holders, NobodyThrows, KeepsSharing, NoCollision, Delivered, Worker, AskingRounds, Seeded;
    hide RepeatsAreHarmless, Queued, Destined, Describe, Basename, FileRights.Entitled, Runs.After, Blocks;
    var w, content, n := WorkerStart(Fetched(j), j.fetching.disk), j.sharing.disk[j.path], |j.downloader.queue|;
    UploadReachesQueue(j);
    DescribedName(j.up.digest, Basename(j.path), content);
    QueueWithDownload(j.down.digest, BLOCK_SIZE, j.downloader.queue, j.Wanted(), j.fetching.disk, content,
                      Delivered(Fetched(j).queue, rounds, j.destination));
    assert Fetched(j).queue == j.downloader.queue + [j.Wanted()];
    assert w.entries[n] == j.Wanted();
    assert NobodyThrows(net, Fetched(j).peers, Fetched(j).queue[n]);
    UploadedFileIsSeeded(j, net, adds, disk);
    SeededDownloadsFinish(j.down.digest, BLOCK_SIZE, net, Fetched(j).peers, w, rounds, n, content);
  }

  lemma DescribedName(digest: string -> Digest, name: string, content: string)
    requires |content| < SIZE_LIMIT
    ensures Describe(digest, name, content, BLOCK_SIZE).name == name
  {
  }

  lemma SameElements(a: seq<Endpoint>, b: multiset<Endpoint>)
    requires multiset(a) == b
    ensures (set x | x in a) == (set x | x in b)
  {
    forall x ensures x in a <==> x in b {
      assert x in a <==> x in multiset(a);
    }
  }
}
