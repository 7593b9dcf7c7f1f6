/** The client's mutable objects for downloads: partfile.cpp, the files on disk, and downloadmanager.cpp. */
module DownloadObjects {
  import opened Streams
  import opened Codec
  import opened Hashing
  import opened Pieces
  import opened Downloads

  class PartFile {
    const groupId: string
    const info: FileInfo
    const path: string
    var downloaded: set<string>
    var remaining: set<string>

    ghost function Contents(): Entry
      reads this
    {
      Entry(groupId, info, path, downloaded, remaining)
    }

    constructor (groupId: string, info: FileInfo, path: string, allDownloaded: bool)
      ensures Contents() == NewEntry(groupId, info, path, allDownloaded)
      ensures Partitioned(Contents())
    {
      this.groupId, this.info, this.path := groupId, info, path;
      downloaded, remaining := {}, {};
      new;
      if allDownloaded {
        for i := 0 to |info.pieces|
          invariant downloaded == (set p | p in info.pieces[..i]) && remaining == {}
        {
          downloaded := downloaded + {info.pieces[i]};
          assert info.pieces[..i + 1] == info.pieces[..i] + [info.pieces[i]];
        }
      } else {
        for i := 0 to |info.pieces|
          invariant remaining == (set p | p in info.pieces[..i]) && downloaded == {}
        {
          remaining := remaining + {info.pieces[i]};
          assert info.pieces[..i + 1] == info.pieces[..i] + [info.pieces[i]];
        }
      }
      assert info.pieces[..|info.pieces|] == info.pieces;
    }

    predicate IsComplete()
      reads this
    {
      remaining == {}
    }

    predicate HasPiece(piece: string)
      reads this
    {
      piece in downloaded
    }

    /** Keeps the partition for every piece that the download and serve paths pass. */
    method MarkDownloaded(piece: string) returns (done: bool)
      modifies this`downloaded, this`remaining
      ensures Contents() == Mark(old(Contents()), piece) && done == (piece !in old(downloaded))
      ensures old(Partitioned(Contents())) && piece in info.pieces ==> Partitioned(Contents())
    {
      if piece in downloaded {
        return false;
      }
      downloaded := downloaded + {piece};
      remaining := remaining - {piece};
      done := true;
    }
  }

  /** The client's file system: writes create files, and a gap before a write reads as zeros. */
  class Disk {
    var files: map<string, string>

    method WritePiece(path: string, index: nat, bs: BlockSize, data: string)
      modifies this
      ensures files == PutBlock(old(files), path, index, bs, data)
    {
      var file := FileAt(files, path);
      files := files[path := WriteAt(file, index * bs, data)];
    }

    /** None where opening the file throws. */
    function ReadPiece(path: string, index: nat, bs: BlockSize): Option<string>
      reads this
    {
      if path in files then Some(ReadAt(files[path], index, bs)) else None
    }
  }

  class DownloadManager {
    const digest: string -> Digest
    const disk: Disk
    var downloads: seq<PartFile>
    /** The calls of the completion callback, by queue index, and the writes, in order. */
    var finished: seq<nat>
    ghost var writes: seq<(nat, string)>
    var crashed: bool

    /** The queue holds distinct objects, each with its pieces partitioned. */
    ghost predicate Valid()
      reads this, downloads
    {
      && (forall i, j :: 0 <= i < j < |downloads| ==> downloads[i] != downloads[j])
      && (forall j :: 0 <= j < |downloads| ==> Partitioned(downloads[j].Contents()))
    }

    ghost function Entries(): (entries: seq<Entry>)
      reads this, downloads
      ensures |entries| == |downloads|
    {
      seq(|downloads|, j requires 0 <= j < |downloads| reads this, downloads => downloads[j].Contents())
    }

    ghost function Contents(): World
      reads this, downloads, disk
    {
      World(Entries(), disk.files, finished, writes, crashed)
    }

    constructor (digest: string -> Digest, disk: Disk)
      ensures Valid() && this.digest == digest && this.disk == disk
      ensures downloads == [] && finished == [] && writes == [] && !crashed
    {
      this.digest, this.disk := digest, disk;
      downloads, finished, writes, crashed := [], [], [], false;
    }

    /** Refuses a path that exists. The test for a queued duplicate compares the addresses of the two
        descriptions, and every parsed reply has its own, so it never fires. */
    method EnqueueDownload(groupId: string, info: FileInfo, path: string) returns (done: bool)
      requires Valid()
      modifies this`downloads
      ensures Valid() && done == (path !in disk.files)
      ensures Entries() == if done then old(Entries()) + [NewEntry(groupId, info, path, false)] else old(Entries())
    {
      if path in disk.files {
        return false;
      }
      var part := new PartFile(groupId, info, path, false);
      ghost var before := Entries();
      downloads := downloads + [part];
      assert Entries() == before + [part.Contents()];
      done := true;
    }

    /** Asks the peers in turn: a closed connection is caught and the next one asked, another error leaves the loop.
        Says whether the piece was stored. */
    method DownloadPiece(j: nat, piece: string, answers: seq<Answer>) returns (stored: bool)
      requires Valid() && j < |downloads| && !crashed && piece in downloads[j].remaining
      requires |downloads[j].info.pieces| < NOT_FOUND
      modifies downloads[j], disk, this`writes, this`crashed
      ensures Valid()
      ensures stored == Delivers(digest, piece, answers) && crashed == Fails(digest, piece, answers)
      ensures match FirstGood(digest, piece, answers)
        case Nobody => !stored && Contents() == old(Contents())
        case Threw => !stored && Contents() == old(Contents()).(crashed := true)
        case Got(data) =>
          && stored
          && Contents().(finished := []) == Store(old(Contents()), j, piece, data, BLOCK_SIZE).(finished := [])
    {
      hide Delivers, Fails, Good, Fatal, Useless, Judge, Store;
      hide DownloadManager.Valid, DownloadManager.Contents, DownloadManager.Entries;
      FirstGoodIff(digest, piece, answers);
      stored := false;
      var part := downloads[j];
      for i := 0 to |answers|
        invariant FirstGood(digest, piece, answers) == FirstGood(digest, piece, answers[i..])
        invariant Valid() && Contents() == old(Contents()) && !crashed && part.remaining == old(part.remaining)
      {
        NextAnswer(digest, piece, answers, i);
        match answers[i] {
          case Refused =>
            continue;
          case Broken =>
            Crash();
            return;
          case Replied(text, unset) =>
            var verdict := ReadReply(piece, text, unset);
            match verdict {
              case Nobody =>
                continue;
              case Threw =>
                Crash();
                return;
              case Got(data) =>
                StoreData(j, piece, data);
                return true;
            }
        }
      }
    }

    /** An error leaves the thread's function. */
    method Crash()
      requires Valid()
      modifies this`crashed
      ensures Valid() && crashed && Contents() == old(Contents()).(crashed := true)
    {
      crashed := true;
    }

    /** The status in front of a reply, and the check of the data behind it. */
    method ReadReply(piece: string, text: string, unset: int) returns (v: Verdict)
      ensures v.Threw? <==> Fatal(Replied(text, unset))
      ensures v.Got? <==> Good(digest, piece, Replied(text, unset))
      ensures v.Got? ==> v.data == text[2..]
    {
      var ss := new StringStream(text);
      var status := ss.NextInt(unset);
      if status != 1 {
        return Nobody;
      }
      if |text| < 2 {
        return Threw;
      }
      var data := text[2..];
      var hash := GetSha1(digest, data);
      v := if hash == piece then Got(data) else Nobody;
    }

    method StoreData(j: nat, piece: string, data: string)
      requires Valid() && j < |downloads| && piece in downloads[j].remaining
      requires |downloads[j].info.pieces| < NOT_FOUND
      modifies downloads[j], disk, this`writes
      ensures Valid()
      ensures Contents().(finished := []) == Store(old(Contents()), j, piece, data, BLOCK_SIZE).(finished := [])
      ensures crashed == old(crashed)
    {
      var part := downloads[j];
      ghost var before := Entries();
      assert Partitioned(part.Contents());
      assert piece in part.downloaded + part.remaining;
      var index := GetPieceIndex(part.info.pieces, piece);
      FirstIndexIsUnique(part.info.pieces, piece, index);
      disk.WritePiece(part.path, index, BLOCK_SIZE, data);
      var marked := part.MarkDownloaded(piece);
      writes := writes + [(j, piece)];
      assert Entries() == before[j := part.Contents()];
    }

    /** The body of the worker's loop for one entry; any remaining piece may come first out of the hash set. */
    method VisitEntry(j: nat, answers: seq<Answer>) returns (ghost pick: string)
      requires Valid() && j < |downloads| && |downloads[j].info.pieces| < NOT_FOUND
      modifies downloads[j], disk, this`writes, this`crashed, this`finished
      ensures Valid()
      ensures Contents() == Turn(digest, BLOCK_SIZE, old(Contents()), j, Visit(pick, answers))
    {
      hide Delivers, Fails;
      pick := "";
      if crashed || downloads[j].IsComplete() {
        return;
      }
      var piece :| piece in downloads[j].remaining;
      pick := piece;
      ghost var w := Contents();
      var stored := DownloadPiece(j, piece, answers);
      hide FirstGood, WriteAt, PieceIndex, Mark;
      if stored {
        ghost var stored' := Store(w, j, piece, FirstGood(digest, piece, answers).data, BLOCK_SIZE);
        assert Contents().entries[j] == stored'.entries[j] == downloads[j].Contents();
        if downloads[j].IsComplete() {
          finished := finished + [j];
        }
        assert Contents() == stored';
      }
    }

    /** One pass over the queue; `answers` holds what the peers say at each entry. */
    method Pass(answers: seq<seq<Answer>>) returns (ghost visits: seq<Visit>)
      requires Valid() && |answers| == |downloads|
      requires forall j :: 0 <= j < |downloads| ==> |downloads[j].info.pieces| < NOT_FOUND
      modifies downloads, disk, this`writes, this`crashed, this`finished
      ensures Valid() && |visits| == |downloads|
      ensures Contents() == PassTo(digest, BLOCK_SIZE, old(Contents()), visits, |downloads|)
    {
      hide Turn;
      ghost var w := Contents();
      visits := seq(|downloads|, j => Visit("", []));
      for j := 0 to |downloads|
        invariant Valid() && |visits| == |downloads|
        invariant Contents() == PassTo(digest, BLOCK_SIZE, w, visits, j)
      {
        ghost var pick := VisitEntry(j, answers[j]);
        ghost var before := visits;
        visits := visits[j := Visit(pick, answers[j])];
        SamePass(digest, BLOCK_SIZE, w, before, visits, j);
      }
    }

    /** The thread: a pass for each time that `running` is found set. */
    method DownloadThread(rounds: seq<seq<seq<Answer>>>) returns (ghost visits: seq<seq<Visit>>)
      requires Valid() && forall r :: 0 <= r < |rounds| ==> |rounds[r]| == |downloads|
      requires forall j :: 0 <= j < |downloads| ==> |downloads[j].info.pieces| < NOT_FOUND
      modifies downloads, disk, this`writes, this`crashed, this`finished
      ensures Valid() && Shaped(visits, |downloads|)
      ensures Contents() == Worker(digest, BLOCK_SIZE, old(Contents()), visits)
      ensures downloads != [] ==> |visits| == |rounds|
    {
      hide PassTo;
      ghost var w := Contents();
      visits := [];
      for r := 0 to |rounds|
        invariant Valid() && Shaped(visits, |downloads|) && |visits| == r
        invariant Contents() == Worker(digest, BLOCK_SIZE, w, visits)
      {
        if |downloads| == 0 {
          break;
        }
        ghost var pass := Pass(rounds[r]);
        assert (visits + [pass])[..r] == visits;
        visits := visits + [pass];
      }
    }
  }

  lemma NextAnswer(digest: string -> Digest, piece: string, answers: seq<Answer>, i: nat)
    requires i < |answers|
    ensures var (a, v) := (answers[i], FirstGood(digest, piece, answers[i..]));
      && (a.Broken? ==> v == Threw)
      && (a.Replied? && Fatal(a) ==> v == Threw)
      && (a.Replied? && Good(digest, piece, a) ==> v == Got(a.text[2..]))
      && (a.Refused? || (a.Replied? && !Fatal(a) && !Good(digest, piece, a)) ==>
            v == FirstGood(digest, piece, answers[i + 1..]))
  {
    hide ReadIntOr, Sha1;
    assert answers[i..][1..] == answers[i + 1..];
    JudgeIs(digest, piece, answers[i]);
  }

  /** A pass up to entry `k` does not depend on the visits from there on. */
  lemma {:induction false} SamePass(digest: string -> Digest, bs: BlockSize, w: World,
                                    a: seq<Visit>, b: seq<Visit>, k: nat)
    requires k <= |a| == |b| == |w.entries|
    requires forall i :: 0 <= i < k ==> a[i] == b[i]
    ensures PassTo(digest, bs, w, a, k) == PassTo(digest, bs, w, b, k)
  {
    hide Turn;
    if k > 0 {
      SamePass(digest, bs, w, a, b, k - 1);
    }
  }
}
