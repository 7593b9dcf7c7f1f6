/** process_input.cpp: what a client does with a line that its user enters. */
module ClientInput {
  import opened Streams
  import opened Codec
  import opened Requests
  import opened Network
  import opened Hashing
  import opened Pieces
  import opened Downloads
  import opened DownloadObjects
  import opened Serving
  import opened Peers
  import Delivery

  // ---- On values ----

  /** The calls of add_partfile so far, the peer table, and the download queue. */
  datatype ClientState = ClientState(adds: seq<Add>, peers: PeerTable, queue: seq<Entry>)

  /** Who the client is: its endpoint, and the hash functions that it computes with. */
  datatype Identity = Identity(endpoint: Endpoint, hash: string -> Size, digest: string -> Digest) {
    function Id(): Size {
      GenerateId(hash, endpoint)
    }
  }

  /** A line, the disk when it is entered, what the tracker responds if it is asked, what the parser's unset
      variables hold, and the order in which the seeders of the response come out of their hash set. */
  datatype Input = Input(text: string, disk: map<string, string>, response: string, unset: Unset, order: seq<Endpoint>)

  /** File sizes fit the type that holds them. */
  predicate Sized(disk: map<string, string>) {
    forall path :: path in disk ==> |disk[path]| < SIZE_LIMIT
  }

  /** What was sent to the tracker, and what the handler returned; None when an exception leaves it. */
  datatype Entered = Entered(sent: Option<string>, result: Option<bool>)

  /** The part after the last slash. */
  function Basename(path: string): string {
    if path == "" || path[|path| - 1] == '/' then ""
    else Basename(path[..|path| - 1]) + [path[|path| - 1]]
  }

  lemma {:induction false} BasenameIsTheTail(path: string)
    ensures var name := Basename(path);
      && '/' !in name && |name| <= |path| && path[|path| - |name|..] == name
      && (|name| < |path| ==> path[|path| - |name| - 1] == '/')
  {
    if path != "" && path[|path| - 1] != '/' {
      BasenameIsTheTail(path[..|path| - 1]);
    }
  }

  function EnterUpload(me: Identity, c: ClientState, args: Stream, disk: map<string, string>): (ClientState, Entered)
    requires Sized(disk)
  {
    var (path, s) := ReadWord(args);
    var groupId := ReadWord(s).0;
    if path !in disk then (c, Entered(None, Some(false)))
    else
      var info := Describe(me.digest, Basename(path), disk[path], BLOCK_SIZE);
      (c.(adds := c.adds + [Add(groupId, info, path, true)]),
       Entered(Some("1" + UploadLine(me.Id(), groupId, me.endpoint, info)), Some(true)))
  }

  /** enqueue_download with its two tables: the first download is not entered among the files to serve. */
  function Enqueue(c: ClientState, disk: map<string, string>, groupId: string, info: FileInfo, path: string)
    : ClientState
  {
    if path in disk then c
    else
      c.(queue := c.queue + [NewEntry(groupId, info, path, false)],
         adds := c.adds + if c.queue == [] then [] else [Add(groupId, info, path, false)])
  }

  function TakeReply(me: Identity, c: ClientState, i: Input, path: string): (ClientState, Option<bool>) {
    match Delivery.ParseReply(i.response, i.unset)
    case Unreadable => (c, Some(true))
    case Absent => (c, if ReadInt(Open(i.response)).1.Good() then Some(true) else None)
    case Throws => (c, None)
    case Offered(file) =>
      var peers := LearnAll(c.peers, me.hash, i.order, (file.groupId, file.info.hash));
      (Enqueue(c.(peers := peers), i.disk, file.groupId, file.info, path), Some(true))
  }

  function EnterDownload(me: Identity, c: ClientState, args: Stream, i: Input): (ClientState, Entered) {
    var (groupId, s1) := ReadWord(args);
    var (name, s2) := ReadWord(s1);
    var path := ReadWord(s2).0;
    if path == "" then (c, Entered(None, Some(false)))
    else
      var (c', result) := TakeReply(me, c, i, path);
      (c', Entered(Some("1" + DownloadLine(me.Id(), groupId, name)), result))
  }

  function Enter(me: Identity, c: ClientState, i: Input): (ClientState, Entered)
    requires Sized(i.disk)
  {
    var (command, args) := ReadWord(Open(i.text));
    if command == "upload_file" then EnterUpload(me, c, args, i.disk)
    else if command == "download_file" then EnterDownload(me, c, args, i)
    else if command == "show_downloads" then (c, Entered(None, Some(true)))
    else (c, Entered(Some("1" + (Decimal(me.Id()) + " " + i.text)), Some(true)))
  }

  /** Reads the first number of a response, and the file behind it if the number is 1. */
  method ReadResponse(response: string) returns (answer: Delivery.Answer, read: Stream, ghost unset: Unset)
    ensures answer == Delivery.ParseReply(response, unset) && read == ReadInt(Open(response)).1
  {
    hide ReadNumber, ParseFile;
    var ss := new StringStream(response);
    var found := ss.NextInt(0);
    unset := Unset(0, 0);
    read := ss.state;
    if read.fail {
      return Delivery.Unreadable, read, unset;
    }
    if !Reaches(Open(response)) {
      UnreachedFails(Open(response));
    }
    if found != 1 {
      return Delivery.Absent, read, unset;
    }
    match Remainder(read) {
      case Parsed(rest) =>
        var file;
        file, unset := FileFromString(rest);
        answer := if file.Parsed? then Delivery.Offered(file.value) else Delivery.Throws;
      case _ => answer := Delivery.Throws;
    }
  }

  /** The order is one of the seeders that the response offers, if it offers a file. */
  ghost predicate Ordered(response: string, unset: Unset, order: seq<Endpoint>) {
    var answer := Delivery.ParseReply(response, unset);
    answer.Offered? ==> multiset(order) == answer.file.seeders
  }

  // ---- The object ----

  /** The locals of `loop` in client.cpp, which its handlers share. */
  class Client {
    const me: Identity
    const disk: Disk
    const files: FilesDB
    const peerDB: PeerDB
    const manager: DownloadManager
    ghost var adds: seq<Add>

    ghost predicate Valid()
      reads this, files, files.files.Values, peerDB, peerDB.peers.Values, manager, manager.downloads
    {
      && files.Valid() && files.Contents() == AddAll(adds)
      && peerDB.Valid() && Keyed(peerDB.Contents(), me.hash)
      && manager.Valid() && manager.disk == disk && manager.digest == me.digest
    }

    ghost function Contents(): ClientState
      reads this, files, peerDB, peerDB.peers.Values, manager, manager.downloads
    {
      ClientState(adds, peerDB.Contents(), manager.Entries())
    }

    constructor (me: Identity, disk: Disk)
      ensures Valid() && Contents() == ClientState([], map[], [])
      ensures this.me == me && this.disk == disk && fresh(files) && fresh(peerDB) && fresh(manager)
    {
      this.me, this.disk, adds := me, disk, [];
      files := new FilesDB();
      peerDB := new PeerDB();
      manager := new DownloadManager(me.digest, disk);
    }

    method UploadFile(ss: StringStream) returns (sent: Option<string>, result: Option<bool>)
      requires Valid() && Sized(disk.files)
      modifies ss, files, this`adds
      ensures Valid()
      ensures (Contents(), Entered(sent, result)) == EnterUpload(me, old(Contents()), old(ss.state), disk.files)
    {
      hide ReadWord, Describe, UploadLine, Basename, AddTo, AddAll;
      hide Keyed, FilesDB.Contents, FilesDB.Valid, PeerDB.Contents, PeerDB.Valid;
      hide DownloadManager.Valid, DownloadManager.Entries;
      var path := ss.NextWord();
      var groupId := ss.NextWord();
      if path !in disk.files {
        return None, Some(false);
      }
      var info := GetFileInfo(me.digest, Basename(path), disk.files[path], BLOCK_SIZE);
      ghost var before := adds;
      adds := adds + [Add(groupId, info, path, true)];
      AddAllSnoc(before, Add(groupId, info, path, true));
      var added := files.AddPartfile(Add(groupId, info, path, true));
      sent := Some("1" + UploadLine(me.Id(), groupId, me.endpoint, info));
      result := Some(true);
    }

    /** enqueue_download. */
    method EnqueueDownload(groupId: string, info: FileInfo, path: string)
      requires Valid()
      modifies manager`downloads, files, this`adds
      ensures Valid() && Contents() == Enqueue(old(Contents()), disk.files, groupId, info, path)
    {
      hide Keyed, NewEntry, AddTo, AddAll, FilesDB.Contents, FilesDB.Valid, PeerDB.Contents, PeerDB.Valid;
      hide DownloadManager.Valid, DownloadManager.Entries;
      var first := |manager.downloads| == 0;
      assert first == (Contents().queue == []);
      var done := manager.EnqueueDownload(groupId, info, path);
      if done && !first {
        ghost var before := adds;
        adds := adds + [Add(groupId, info, path, false)];
        AddAllSnoc(before, Add(groupId, info, path, false));
        var added := files.AddPartfile(Add(groupId, info, path, false));
      }
    }

    method TakeResponse(response: string, path: string)
      returns (result: Option<bool>, ghost order: seq<Endpoint>, ghost unset: Unset)
      requires Valid()
      modifies manager`downloads, files, this`adds, peerDB, peerDB.peers.Values
      ensures Valid()
      ensures (Contents(), result)
           == TakeReply(me, old(Contents()), Input("", disk.files, response, unset, order), path)
      ensures Ordered(response, unset, order)
    {
      hide ReadInt, Delivery.ParseReply, LearnAll, Enqueue, Keyed, AddAll;
      hide FilesDB.Contents, FilesDB.Valid, PeerDB.Contents, PeerDB.Valid;
      hide DownloadManager.Valid, DownloadManager.Entries;
      order := [];
      var answer, read;
      answer, read, unset := ReadResponse(response);
      match answer {
        case Unreadable => result := Some(true);
        case Absent => result := if read.Good() then Some(true) else None;
        case Throws => result := None;
        case Offered(file) =>
          order := peerDB.LearnSeeders(me.hash, file);
          EnqueueDownload(file.groupId, file.info, path);
          result := Some(true);
      }
    }

    method DownloadFile(ss: StringStream, response: string)
      returns (sent: Option<string>, result: Option<bool>, ghost order: seq<Endpoint>, ghost unset: Unset)
      requires Valid()
      modifies ss, manager`downloads, files, this`adds, peerDB, peerDB.peers.Values
      ensures Valid()
      ensures (Contents(), Entered(sent, result))
           == EnterDownload(me, old(Contents()), old(ss.state), Input("", disk.files, response, unset, order))
      ensures sent.Some? ==> Ordered(response, unset, order)
    {
      hide ReadWord, TakeReply, Ordered, DownloadLine, AddAll, Keyed;
      hide FilesDB.Contents, FilesDB.Valid, PeerDB.Contents, PeerDB.Valid;
      hide DownloadManager.Valid, DownloadManager.Entries;
      order, unset := [], Unset(0, 0);
      var groupId := ss.NextWord();
      var name := ss.NextWord();
      var path := ss.NextWord();
      if path == "" {
        return None, Some(false), order, unset;
      }
      sent := Some("1" + DownloadLine(me.Id(), groupId, name));
      result, order, unset := TakeResponse(response, path);
    }

    /** One line of the user; `response` is what the tracker sends back if the line makes the client ask it. */
    method ProcessInput(text: string, response: string)
      returns (sent: Option<string>, result: Option<bool>, ghost order: seq<Endpoint>, ghost unset: Unset)
      requires Valid() && Sized(disk.files)
      modifies manager`downloads, files, this`adds, peerDB, peerDB.peers.Values
      ensures Valid()
      ensures (Contents(), Entered(sent, result))
           == Enter(me, old(Contents()), Input(text, disk.files, response, unset, order))
      ensures ReadWord(Open(text)).0 == "download_file" && sent.Some? ==> Ordered(response, unset, order)
    {
      hide ReadWord, TakeReply, EnterUpload, Ordered, Decimal, AddAll, Keyed;
      hide FilesDB.Contents, FilesDB.Valid, PeerDB.Contents, PeerDB.Valid;
      hide DownloadManager.Valid, DownloadManager.Entries;
      order, unset := [], Unset(0, 0);
      var ss := new StringStream(text);
      var command := ss.NextWord();
      if command == "upload_file" {
        sent, result := UploadFile(ss);
      } else if command == "download_file" {
        ghost var before, args := Contents(), ss.state;
        sent, result, order, unset := DownloadFile(ss, response);
        SameReply(me, before, args, Input("", disk.files, response, unset, order), text);
      } else if command == "show_downloads" {
        result, sent := Some(true), None;
      } else {
        sent := Some("1" + (Decimal(me.Id()) + " " + text));
        result := Some(true);
      }
    }
  }

  lemma SameReply(me: Identity, c: ClientState, args: Stream, i: Input, text: string)
    ensures EnterDownload(me, c, args, i) == EnterDownload(me, c, args, i.(text := text))
  {
  }
}
