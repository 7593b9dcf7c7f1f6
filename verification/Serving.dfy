/** The uploading side of a client: filesdb.cpp and the client's process_request.cpp. */
module Serving {
  import opened Streams
  import opened Codec
  import opened Hashing
  import opened Pieces
  import opened Downloads
  import opened DownloadObjects
  import TcpServer

  /** `file_id`: group and file name. */
  type FileId = (string, string)

  type Table = map<FileId, Entry>

  // ---- The database on values ----

  /** add_partfile: the first entry for a group and name stays. */
  datatype Add = Add(groupId: string, info: FileInfo, path: string, allDownloaded: bool) {
    function Id(): FileId {
      (groupId, info.name)
    }

    function Entry(): Entry {
      NewEntry(groupId, info, path, allDownloaded)
    }
  }

  function AddTo(table: Table, a: Add): Table {
    if a.Id() in table then table else table[a.Id() := a.Entry()]
  }

  function AddAll(adds: seq<Add>): Table {
    if adds == [] then map[] else AddTo(AddAll(adds[..|adds| - 1]), adds[|adds| - 1])
  }

  lemma AddAllSnoc(adds: seq<Add>, a: Add)
    ensures AddAll(adds + [a]) == AddTo(AddAll(adds), a)
  {
    assert (adds + [a])[..|adds|] == adds;
  }

  /** The first addition for an id. */
  predicate FirstAdd(adds: seq<Add>, k: nat, id: FileId)
    requires k < |adds|
  {
    adds[k].Id() == id && forall i :: 0 <= i < k ==> adds[i].Id() != id
  }

  lemma {:induction false} TableHoldsFirstAdds(adds: seq<Add>, id: FileId)
    ensures id in AddAll(adds) <==> exists k :: 0 <= k < |adds| && FirstAdd(adds, k, id)
    ensures forall k :: 0 <= k < |adds| && FirstAdd(adds, k, id) ==>
      id in AddAll(adds) && AddAll(adds)[id] == adds[k].Entry()
  {
    if adds != [] {
      var n := |adds| - 1;
      var before := adds[..n];
      TableHoldsFirstAdds(before, id);
      forall k | 0 <= k < n ensures FirstAdd(before, k, id) <==> FirstAdd(adds, k, id) {
      }
      if id in AddAll(before) {
        var k :| 0 <= k < n && FirstAdd(before, k, id);
        assert FirstAdd(adds, k, id);
      } else if adds[n].Id() == id {
        NoEarlierAdd(before, id);
        assert FirstAdd(adds, n, id);
      }
    }
  }

  lemma {:induction false} NoEarlierAdd(adds: seq<Add>, id: FileId)
    requires id !in AddAll(adds)
    ensures forall i :: 0 <= i < |adds| ==> adds[i].Id() != id
  {
    if adds != [] {
      NoEarlierAdd(adds[..|adds| - 1], id);
    }
  }

  // ---- Serving one piece ----

  function GetLine(groupId: string, name: string, piece: string): string {
    "get " + groupId + " " + name + " " + piece
  }

  /** What is sent back; None when the handler throws because the file cannot be opened. */
  function Serve(table: Table, disk: map<string, string>, request: string, bs: BlockSize): Option<string> {
    var (command, s1) := ReadWord(Open(request));
    if command != "get" then Some("0 Invalid command")
    else
      var (groupId, s2) := ReadWord(s1);
      var (name, s3) := ReadWord(s2);
      var (piece, s4) := ReadWord(s3);
      ServePiece(table, disk, (groupId, name), piece, bs)
  }

  function ServePiece(table: Table, disk: map<string, string>, id: FileId, piece: string, bs: BlockSize)
    : Option<string>
  {
    if id !in table || piece !in table[id].downloaded then Some("0 Piece not found")
    else
      var e := table[id];
      if e.path !in disk then None
      else Some("1 " + ReadAt(disk[e.path], PieceIndex(e.info, piece), bs))
  }

  lemma GetLineIsRead(table: Table, disk: map<string, string>, groupId: string, name: string, piece: string,
                      bs: BlockSize)
    requires IsWord(groupId) && IsWord(name) && IsWord(piece)
    ensures Serve(table, disk, GetLine(groupId, name, piece), bs) == ServePiece(table, disk, (groupId, name), piece, bs)
  {
    hide ReadWord, ServePiece;
    var t3 := " " + piece;
    var t2 := " " + name + t3;
    var t1 := " " + groupId + t2;
    assert "get " == "get" + " ";
    assert GetLine(groupId, name, piece) == "" + "get" + t1;
    ReadWordBack("", "get", t1);
    ReadWordBack(" ", groupId, t2);
    ReadWordBack(" ", name, t3);
    assert t3 == " " + piece + "";
    ReadWordBack(" ", piece, "");
  }

  /** A block behind its framing is good for the piece that it belongs to. */
  lemma FramedReply(digest: string -> Digest, piece: string, data: string, unset: int)
    requires IsPieceValid(digest, piece, data)
    ensures Good(digest, piece, Replied("1 " + data, unset)) && ("1 " + data)[2..] == data
  {
    hide Sha1;
    assert "1 " == "1" + " ";
    assert Decimal(1) == "1";
    assert "1 " + data == "" + Decimal(1) + (" " + data);
    ReadNumberBack("", 1, " " + data);
    assert ("1 " + data)[2..] == data;
  }

  /** A text that begins with status 0 is no use to anybody, and harms nobody. */
  lemma RefusalIsUseless(digest: string -> Digest, piece: string, tail: string, unset: int)
    requires tail != "" && !IsDigit(tail[0])
    ensures Useless(digest, piece, Replied("0" + tail, unset))
    ensures !Good(digest, piece, Replied("0" + tail, unset)) && !Fatal(Replied("0" + tail, unset))
  {
    hide Sha1;
    assert Decimal(0) == "0";
    assert "0" + tail == "" + Decimal(0) + tail;
    ReadNumberBack("", 0, tail);
  }

  lemma RefusalsAreUseless(digest: string -> Digest, piece: string, unset: int)
    ensures Useless(digest, piece, Replied("0 Piece not found", unset))
    ensures !Good(digest, piece, Replied("0 Piece not found", unset)) && !Fatal(Replied("0 Piece not found", unset))
    ensures Useless(digest, piece, Replied("0 Invalid command", unset))
  {
    hide Good, Fatal, Useless;
    var missing, invalid := " Piece not found", " Invalid command";
    assert "0 Piece not found" == "0" + missing && "0 Invalid command" == "0" + invalid;
    RefusalIsUseless(digest, piece, missing, unset);
    RefusalIsUseless(digest, piece, invalid, unset);
  }

  /** The content that an addition describes is still at its path. */
  predicate Unchanged(digest: string -> Digest, bs: BlockSize, disk: map<string, string>, a: Add) {
    && a.path in disk && |disk[a.path]| < SIZE_LIMIT
    && a.info == Describe(digest, a.info.name, disk[a.path], bs)
  }

  /** A listed piece of an unchanged, fully downloaded file is served as exactly the block that it names. */
  lemma HonestBlock(digest: string -> Digest, bs: BlockSize, disk: map<string, string>, a: Add, piece: string)
    requires Unchanged(digest, bs, disk, a) && piece in a.info.pieces
    ensures var i := FirstIndex(a.info.pieces, piece);
      && i < |Blocks(disk[a.path], bs)|
      && ReadAt(disk[a.path], i, bs) == Blocks(disk[a.path], bs)[i]
      && IsPieceValid(digest, piece, Blocks(disk[a.path], bs)[i])
  {
    ReadAtGivesBlocks(disk[a.path], bs, FirstIndex(a.info.pieces, piece));
  }

  /** The block of an unchanged file that a listed piece names: the one at the piece's first index. */
  function NamedBlock(digest: string -> Digest, bs: BlockSize, disk: map<string, string>, a: Add, piece: string): string
    requires Unchanged(digest, bs, disk, a) && piece in a.info.pieces
  {
    Blocks(disk[a.path], bs)[FirstIndex(a.info.pieces, piece)]
  }

  /** The first addition for the id was an upload, and it lists the piece. */
  predicate Uploaded(adds: seq<Add>, k: nat, id: FileId, piece: string) {
    k < |adds| && FirstAdd(adds, k, id) && adds[k].allDownloaded && piece in adds[k].info.pieces
  }

  predicate UploadsUnchanged(digest: string -> Digest, bs: BlockSize, disk: map<string, string>, adds: seq<Add>) {
    forall k :: 0 <= k < |adds| && adds[k].allDownloaded ==> Unchanged(digest, bs, disk, adds[k])
  }

  /** A seeder whose uploaded files are unchanged gives a downloader a valid piece exactly when its first
      addition for that group and name was an upload that lists the piece; the data is then the block at the
      piece's first index, and otherwise the reply is of no use. An entry made by a download of that name is never
      completed and so never serves, also when the file is uploaded later. */
  lemma {:induction false} SeederServesIff(digest: string -> Digest, bs: BlockSize, disk: map<string, string>,
                                           adds: seq<Add>, groupId: string, name: string, piece: string,
                                           unset: int)
    requires IsWord(groupId) && IsWord(name) && IsWord(piece)
    requires UploadsUnchanged(digest, bs, disk, adds)
    ensures var reply := Serve(AddAll(adds), disk, GetLine(groupId, name, piece), bs);
      && reply.Some?
      && (Good(digest, piece, Replied(reply.value, unset)) <==>
            exists k: nat :: Uploaded(adds, k, (groupId, name), piece))
      && (Good(digest, piece, Replied(reply.value, unset)) || Useless(digest, piece, Replied(reply.value, unset)))
      && forall k: nat :: Uploaded(adds, k, (groupId, name), piece) ==>
          |reply.value| >= 2 && reply.value[2..] == NamedBlock(digest, bs, disk, adds[k], piece)
  {
    hide Good, Fatal, Useless, Serve, AddAll, IsPieceValid, Describe, ReadAt;
    var id := (groupId, name);
    var table := AddAll(adds);
    GetLineIsRead(table, disk, groupId, name, piece, bs);
    TableHoldsFirstAdds(adds, id);
    RefusalsAreUseless(digest, piece, unset);
    if id in table {
      var k :| 0 <= k < |adds| && FirstAdd(adds, k, id);
      OneFirstAdd(adds, id, k);
      if Uploaded(adds, k, id, piece) {
        HonestBlock(digest, bs, disk, adds[k], piece);
        FramedReply(digest, piece, NamedBlock(digest, bs, disk, adds[k], piece), unset);
      }
    }
  }

  /** A request with any other command gets a reply that is no use to anybody. */
  lemma OtherRequests(digest: string -> Digest, bs: BlockSize, disk: map<string, string>, adds: seq<Add>,
                      request: string, piece: string, unset: int)
    ensures ReadWord(Open(request)).0 != "get" ==>
      var reply := Serve(AddAll(adds), disk, request, bs);
      reply.Some? && Useless(digest, piece, Replied(reply.value, unset))
  {
    hide ReadWord, AddAll, Useless;
    RefusalsAreUseless(digest, piece, unset);
  }

  /** A piece of an uploaded file that has disappeared makes the handler throw. */
  lemma MissingFileThrows(bs: BlockSize, disk: map<string, string>, adds: seq<Add>, groupId: string, name: string,
                          piece: string, k: nat)
    requires IsWord(groupId) && IsWord(name) && IsWord(piece)
    requires Uploaded(adds, k, (groupId, name), piece) && adds[k].path !in disk
    ensures Serve(AddAll(adds), disk, GetLine(groupId, name, piece), bs) == None
  {
    hide AddAll, GetLine, Serve;
    GetLineIsRead(AddAll(adds), disk, groupId, name, piece, bs);
    TableHoldsFirstAdds(adds, (groupId, name));
  }

  lemma OneFirstAdd(adds: seq<Add>, id: FileId, k: nat)
    requires k < |adds| && FirstAdd(adds, k, id)
    ensures forall i :: 0 <= i < |adds| && FirstAdd(adds, i, id) ==> i == k
  {
  }

  /** One honest peer is enough, unless an earlier one makes the worker throw. */
  lemma OneGoodPeerServes(digest: string -> Digest, piece: string, answers: seq<Answer>, k: nat)
    requires k < |answers| && Good(digest, piece, answers[k])
    requires forall i :: 0 <= i < k ==> !Fatal(answers[i])
    ensures FirstGood(digest, piece, answers).Got? && Delivers(digest, piece, answers)
  {
    hide FirstGood, Good, Fatal;
    FirstGoodIff(digest, piece, answers);
  }

  // ---- What the event loop sees ----

  /** A client's data callback never disconnects; it throws what leaves it, or what sending throws. */
  function PeerReacts(reply: Option<string>, failing: Option<TcpServer.Error>): TcpServer.Reaction {
    TcpServer.Reaction(false, if reply.None? then Some(TcpServer.Foreign) else failing)
  }

  ghost predicate PeerRound(r: TcpServer.Round) {
    forall fd :: r.received(fd).Text? ==>
      exists reply, failing :: r.received(fd).reaction == PeerReacts(reply, failing)
  }

  /** So the table of a client's event loop is sound whenever the loop looks at it. */
  lemma PeerTableStaysSound(listener: nat, max: nat, rounds: seq<TcpServer.Round>)
    requires forall i :: 0 <= i < |rounds| ==> PeerRound(rounds[i])
    ensures var t := TcpServer.Rounds(listener, max, rounds); t.dead || TcpServer.Sound(t, listener, max)
  {
    hide TcpServer.Rounds, TcpServer.Sound;
    forall i | 0 <= i < |rounds| ensures TcpServer.CivilRound(rounds[i]) {
      assert PeerRound(rounds[i]);
    }
    TcpServer.TableStaysSound(listener, max, rounds);
  }

  // ---- The objects ----

  class FilesDB {
    var files: map<FileId, PartFile>

    ghost function Contents(): Table
      reads this, files.Values
    {
      map id | id in files :: files[id].Contents()
    }

    /** Every piece that is offered belongs to its file. */
    ghost predicate Valid()
      reads this, files.Values
    {
      forall id :: id in files ==> Partitioned(files[id].Contents())
    }

    constructor ()
      ensures Valid() && Contents() == map[]
    {
      files := map[];
    }

    method AddPartfile(a: Add) returns (done: bool)
      requires Valid()
      modifies this
      ensures Valid() && Contents() == AddTo(old(Contents()), a) && done == (a.Id() !in old(Contents()))
    {
      if a.Id() in files {
        return false;
      }
      ghost var before := Contents();
      var part := new PartFile(a.groupId, a.info, a.path, a.allDownloaded);
      files := files[a.Id() := part];
      assert Contents() == before[a.Id() := a.Entry()];
      done := true;
    }

    method HasPiece(id: FileId, piece: string) returns (found: bool)
      ensures found == (id in Contents() && piece in Contents()[id].downloaded)
    {
      if id !in files {
        return false;
      }
      found := files[id].HasPiece(piece);
    }

    /** process_request of the client, its data callback: what it sends for one request of a peer, None when it
        throws before; and what the event loop sees if sending fails like that. */
    method ProcessRequest(disk: Disk, request: string, failing: Option<TcpServer.Error>)
      returns (reply: Option<string>, reaction: TcpServer.Reaction)
      requires Valid() && forall id :: id in files ==> |files[id].info.pieces| < NOT_FOUND
      ensures reply == Serve(Contents(), disk.files, request, BLOCK_SIZE)
      ensures reaction == PeerReacts(reply, failing) && !reaction.disconnects
      ensures reaction.throws == if reply.Some? then failing else Some(TcpServer.Foreign)
    {
      hide ReadWord, ReadAt;
      var ss := new StringStream(request);
      var command := ss.NextWord();
      if command != "get" {
        return Some("0 Invalid command"), TcpServer.Reaction(false, failing);
      }
      var groupId := ss.NextWord();
      var name := ss.NextWord();
      var piece := ss.NextWord();
      var id := (groupId, name);
      var found := HasPiece(id, piece);
      if !found {
        return Some("0 Piece not found"), TcpServer.Reaction(false, failing);
      }
      var part := files[id];
      assert Partitioned(part.Contents());
      assert piece in part.downloaded + part.remaining;
      var index := GetPieceIndex(part.info.pieces, piece);
      FirstIndexIsUnique(part.info.pieces, piece, index);
      var data := disk.ReadPiece(part.path, index, BLOCK_SIZE);
      if data.None? {
        return None, TcpServer.Reaction(false, Some(TcpServer.Foreign));
      }
      reply := Some("1 " + data.value);
      reaction := TcpServer.Reaction(false, failing);
    }
  }
}
