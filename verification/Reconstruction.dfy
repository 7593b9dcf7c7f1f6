/** What the downloaded files contain: end to end from the blocks of the source to the bytes of the output. */
module Reconstruction {
  import opened Streams
  import opened Hashing
  import opened Pieces
  import opened Images
  import opened Downloads

  /** The data that peers deliver at one visit. */
  function Texts(v: Visit): set<string> {
    set a | a in v.answers && a.Replied? && |a.text| >= 2 :: a.text[2..]
  }

  /** The data that peers deliver in some passes at the visits to the entries for a path. */
  function Delivered(entries: seq<Entry>, rounds: seq<seq<Visit>>, path: string): set<string> {
    set r, k, text | 0 <= r < |rounds| && 0 <= k < |rounds[r]| && k < |entries| && entries[k].path == path
                     && text in Texts(rounds[r][k]) :: text
  }

  /** Among the blocks and the delivered texts, nothing but a block itself has its hash. */
  predicate NoCollision(digest: string -> Digest, blocks: seq<string>, texts: set<string>) {
    && (forall i, j :: 0 <= i < |blocks| && 0 <= j < |blocks| && Sha1(digest, blocks[j]) == Sha1(digest, blocks[i]) ==>
          blocks[j] == blocks[i])
    && (forall i, text :: 0 <= i < |blocks| && text in texts && Sha1(digest, text) == Sha1(digest, blocks[i]) ==>
          text == blocks[i])
  }

  predicate Describes(digest: string -> Digest, bs: BlockSize, e: Entry, content: string) {
    |content| < SIZE_LIMIT && e.info == Describe(digest, e.info.name, content, bs)
  }

  predicate Source(digest: string -> Digest, bs: BlockSize, e: Entry, content: string, texts: set<string>) {
    Describes(digest, bs, e, content) && NoCollision(digest, Blocks(content, bs), texts)
  }

  /** Nothing is at the path yet, and whatever is queued for it describes that content. */
  predicate Destined(digest: string -> Digest, bs: BlockSize, w: World, path: string, content: string,
                     texts: set<string>)
  {
    && path !in w.disk
    && forall i :: 0 <= i < |w.entries| && w.entries[i].path == path ==>
        Source(digest, bs, w.entries[i], content, texts)
  }

  /** Of equal blocks only the first is ever written. */
  function Written(pieces: seq<string>, downloaded: set<string>): (flags: seq<bool>)
    ensures |flags| == |pieces|
  {
    seq(|pieces|, i requires 0 <= i < |pieces| => pieces[i] in downloaded && IsFirst(pieces, i))
  }

  /** The pieces that the entries for a path have; as a rule there is one such entry. */
  function Have(entries: seq<Entry>, path: string): set<string> {
    set i, p | 0 <= i < |entries| && entries[i].path == path && p in entries[i].downloaded :: p
  }

  lemma OnlyEntryHas(entries: seq<Entry>, j: nat)
    requires j < |entries| && forall i :: 0 <= i < |entries| && i != j ==> entries[i].path != entries[j].path
    ensures Have(entries, entries[j].path) == entries[j].downloaded
  {
  }

  /** The output is the image of the blocks of those pieces. */
  predicate Placed(digest: string -> Digest, bs: BlockSize, disk: map<string, string>, path: string, content: string,
                   have: set<string>)
  {
    var blocks := Blocks(content, bs);
    FileAt(disk, path) == Image(blocks, Written(PiecesOf(digest, blocks), have))
  }

  ghost predicate Reconstructs(digest: string -> Digest, bs: BlockSize, w0: World, w: World, path: string,
                               content: string)
  {
    Accounts(w0, w) && Placed(digest, bs, w.disk, path, content, Have(w.entries, path))
  }

  lemma WrittenGrows(pieces: seq<string>, downloaded: set<string>, piece: string)
    requires piece in pieces
    ensures Written(pieces, downloaded + {piece}) ==
      Written(pieces, downloaded)[FirstIndex(pieces, piece) := true]
  {
    var a, b := Written(pieces, downloaded + {piece}), Written(pieces, downloaded);
    var k := FirstIndex(pieces, piece);
    forall i | 0 <= i < |pieces| ensures a[i] == b[k := true][i] {
      if pieces[i] == piece && IsFirst(pieces, i) {
        FirstIndexIsUnique(pieces, piece, i);
      }
    }
  }

  /** Valid data for a piece is the block, and writing it at its index extends the image, whether or not it was there
      already. */
  lemma StorePlaces(digest: string -> Digest, bs: BlockSize, disk: map<string, string>, e: Entry, content: string,
                    texts: set<string>, have: set<string>, piece: string, data: string)
    requires Source(digest, bs, e, content, texts) && Placed(digest, bs, disk, e.path, content, have) && data in texts
    requires piece in e.info.pieces && IsPieceValid(digest, piece, data)
    ensures Placed(digest, bs, PutBlock(disk, e.path, PieceIndex(e.info, piece), bs, data), e.path, content,
                   have + {piece})
  {
    hide NoCollision, WriteAt, Image, Written;
    var blocks, pieces := Blocks(content, bs), e.info.pieces;
    var i := FirstIndex(pieces, piece);
    BlockOfPiece(digest, blocks, texts, i, data);
    BlocksAreWellCut(content, bs);
    WriteExtendsImage(blocks, bs, Written(pieces, have), i);
    WrittenGrows(pieces, have, piece);
  }

  lemma BlockOfPiece(digest: string -> Digest, blocks: seq<string>, texts: set<string>, i: nat, data: string)
    requires NoCollision(digest, blocks, texts) && (data in texts || data in blocks)
    requires i < |blocks| && Sha1(digest, data) == Sha1(digest, blocks[i])
    ensures data == blocks[i]
  {
  }

  lemma HaveAfterMark(entries: seq<Entry>, k: nat, piece: string, path: string)
    requires k < |entries| && Partitioned(entries[k]) && piece in entries[k].remaining
    ensures var (before, after) := (Have(entries, path), Have(entries[k := Mark(entries[k], piece)], path));
      after == if entries[k].path == path then before + {piece} else before
  {
    hide Partitioned, Mark;
    MarkKeeps(entries[k], piece);
    var marked := entries[k := Mark(entries[k], piece)];
    forall p ensures p in Have(marked, path) <==> p in Have(entries, path) || (entries[k].path == path && p == piece) {
      if i :| 0 <= i < |entries| && entries[i].path == path && p in entries[i].downloaded {
        assert marked[i].path == path && p in marked[i].downloaded;
      }
      if i :| 0 <= i < |marked| && marked[i].path == path && p in marked[i].downloaded {
        assert entries[i].path == path;
      }
      assert entries[k].path == path ==> marked[k].path == path && piece in marked[k].downloaded;
    }
  }

  /** A visit to any entry, whatever that is, leaves the output at the path an image of the blocks that are there. */
  lemma TurnReconstructs(digest: string -> Digest, bs: BlockSize, w0: World, w: World, path: string, content: string,
                         texts: set<string>, k: nat, v: Visit)
    requires Destined(digest, bs, w0, path, content, texts) && Reconstructs(digest, bs, w0, w, path, content)
    requires k < |w.entries| == |w0.entries| && (w0.entries[k].path == path ==> Texts(v) <= texts)
    ensures Reconstructs(digest, bs, w0, Turn(digest, bs, w, k, v), path, content)
  {
    hide FirstGood, Source, Written, Image, CountedEntry, WriteAt, PieceIndex, Mark, Texts, Accounts, Have;
    TurnAccounts(digest, bs, w0, w, k, v);
    var e := w.entries[k];
    if !w.crashed && !Complete(e) {
      var piece := Wanted(e.remaining, v.piece);
      var verdict := FirstGood(digest, piece, v.answers);
      if verdict.Got? {
        AccountsPartition(w0, w, k);
        HaveAfterMark(w.entries, k, piece, path);
        if e.path == path {
          FirstGoodIsDelivered(digest, piece, v);
          SameFileIsSource(digest, bs, w0.entries[k], e, content, texts);
          MarkKeeps(e, piece);
          StorePlaces(digest, bs, w.disk, e, content, texts, Have(w.entries, path), piece, verdict.data);
        }
      }
    }
  }

  lemma SameFileIsSource(digest: string -> Digest, bs: BlockSize, e: Entry, e': Entry, content: string,
                         texts: set<string>)
    requires Source(digest, bs, e, content, texts) && SameFile(e', e)
    ensures Source(digest, bs, e', content, texts)
  {
  }

  lemma {:induction false} GoodAnswerIsDelivered(digest: string -> Digest, piece: string, answers: seq<Answer>)
    requires FirstGood(digest, piece, answers).Got?
    ensures exists a :: a in answers && a.Replied? && |a.text| >= 2
                        && a.text[2..] == FirstGood(digest, piece, answers).data
  {
    if Judge(digest, piece, answers[0]) == Nobody {
      GoodAnswerIsDelivered(digest, piece, answers[1..]);
    } else {
      assert answers[0] in answers;
    }
  }

  lemma FirstGoodIsDelivered(digest: string -> Digest, piece: string, v: Visit)
    requires FirstGood(digest, piece, v.answers).Got?
    ensures FirstGood(digest, piece, v.answers).data in Texts(v)
  {
    GoodAnswerIsDelivered(digest, piece, v.answers);
  }

  lemma {:induction false} PassReconstructs(digest: string -> Digest, bs: BlockSize, w0: World, w: World, path: string,
                                            content: string, texts: set<string>, visits: seq<Visit>, k: nat)
    requires Destined(digest, bs, w0, path, content, texts) && Reconstructs(digest, bs, w0, w, path, content)
    requires k <= |visits| == |w.entries| == |w0.entries|
    requires forall i :: 0 <= i < k && w0.entries[i].path == path ==> Texts(visits[i]) <= texts
    ensures Reconstructs(digest, bs, w0, PassTo(digest, bs, w, visits, k), path, content)
  {
    hide Destined, Reconstructs, Turn, Texts;
    if k > 0 {
      PassReconstructs(digest, bs, w0, w, path, content, texts, visits, k - 1);
      var before := PassTo(digest, bs, w, visits, k - 1);
      TurnReconstructs(digest, bs, w0, before, path, content, texts, k - 1, visits[k - 1]);
    }
  }

  lemma QueueReconstructs(digest: string -> Digest, bs: BlockSize, w: World, path: string, content: string,
                          texts: set<string>)
    requires Queued(w) && Destined(digest, bs, w, path, content, texts)
    ensures Reconstructs(digest, bs, w, w, path, content)
  {
    hide Source, Accounts;
    QueuedAccounts(w);
    assert Have(w.entries, path) == {};
    NothingWritten(Blocks(content, bs), Written(PiecesOf(digest, Blocks(content, bs)), {}));
  }

  /** In every state of every run, for any peers, any order of choosing pieces and whatever else is queued, the output
      at the path of a download is exactly the image of the blocks that it has. Only what is delivered at the visits for
      that path matters. */
  lemma {:induction false} WorkerReconstructs(digest: string -> Digest, bs: BlockSize, w: World,
                                              rounds: seq<seq<Visit>>, path: string, content: string,
                                              texts: set<string>)
    requires Queued(w) && Shaped(rounds, |w.entries|) && Destined(digest, bs, w, path, content, texts)
    requires Delivered(w.entries, rounds, path) <= texts
    ensures Reconstructs(digest, bs, w, Worker(digest, bs, w, rounds), path, content)
    decreases |rounds|
  {
    hide Queued, Destined, Reconstructs, PassTo, Texts, Delivered;
    if rounds == [] {
      QueueReconstructs(digest, bs, w, path, content, texts);
    } else {
      var n := |rounds| - 1;
      LastRoundDelivers(w.entries, rounds, path);
      WorkerReconstructs(digest, bs, w, rounds[..n], path, content, texts);
      PassReconstructs(digest, bs, w, Worker(digest, bs, w, rounds[..n]), path, content, texts, rounds[n],
                       |w.entries|);
    }
  }

  lemma LastRoundDelivers(entries: seq<Entry>, rounds: seq<seq<Visit>>, path: string)
    requires rounds != [] && |rounds[|rounds| - 1]| == |entries|
    ensures var n := |rounds| - 1;
      && Delivered(entries, rounds[..n], path) <= Delivered(entries, rounds, path)
      && forall k :: 0 <= k < |entries| && entries[k].path == path ==>
          Texts(rounds[n][k]) <= Delivered(entries, rounds, path)
  {
  }

  // ---- Other files ----

  predicate SameAt(disk: map<string, string>, disk': map<string, string>, path: string) {
    (path in disk <==> path in disk') && FileAt(disk, path) == FileAt(disk', path)
  }

  lemma TurnLeavesOthers(digest: string -> Digest, bs: BlockSize, w: World, j: nat, v: Visit, path: string)
    requires j < |w.entries| && w.entries[j].path != path
    ensures SameAt(w.disk, Turn(digest, bs, w, j, v).disk, path)
  {
    hide FirstGood, PieceIndex, WriteAt, Mark, Wanted;
  }

  lemma {:induction false} PassLeavesOthers(digest: string -> Digest, bs: BlockSize, w0: World, w: World,
                                            visits: seq<Visit>, k: nat, path: string)
    requires k <= |visits| == |w.entries| == |w0.entries| && Accounts(w0, w)
    requires forall i :: 0 <= i < |w0.entries| ==> w0.entries[i].path != path
    ensures SameAt(w.disk, PassTo(digest, bs, w, visits, k).disk, path)
  {
    hide Accounts, Turn;
    if k > 0 {
      var before := PassTo(digest, bs, w, visits, k - 1);
      PassLeavesOthers(digest, bs, w0, w, visits, k - 1, path);
      PassAccounts(digest, bs, w0, w, visits, k - 1);
      AccountsPartition(w0, before, k - 1);
      TurnLeavesOthers(digest, bs, before, k - 1, visits[k - 1], path);
    }
  }

  /** A path that no entry is written to has in every run the file that it had, or none. */
  lemma {:induction false} OtherFilesStay(digest: string -> Digest, bs: BlockSize, w: World,
                                          rounds: seq<seq<Visit>>, path: string)
    requires Queued(w) && Shaped(rounds, |w.entries|)
    requires forall i :: 0 <= i < |w.entries| ==> w.entries[i].path != path
    ensures SameAt(w.disk, Worker(digest, bs, w, rounds).disk, path)
    decreases |rounds|
  {
    hide Queued, Accounts, PassTo;
    if rounds != [] {
      var n := |rounds| - 1;
      OtherFilesStay(digest, bs, w, rounds[..n], path);
      WorkerAccounts(digest, bs, w, rounds[..n]);
      PassLeavesOthers(digest, bs, w, Worker(digest, bs, w, rounds[..n]), rounds[n], |w.entries|, path);
    }
  }

  // ---- When the output is the source ----

  /** Every repeated block is zeros, and some block behind it occurs there for the first time. */
  predicate RepeatsAreHarmless(blocks: seq<string>) {
    forall i :: 0 <= i < |blocks| && blocks[i] in blocks[..i] ==>
      AllZero(blocks[i]) && exists j :: i < j < |blocks| && blocks[j] !in blocks[..j]
  }

  lemma FirstPiecesAreFirstBlocks(digest: string -> Digest, blocks: seq<string>, texts: set<string>, i: nat)
    requires NoCollision(digest, blocks, texts) && i < |blocks|
    ensures IsFirst(PiecesOf(digest, blocks), i) <==> blocks[i] !in blocks[..i]
  {
    var pieces := PiecesOf(digest, blocks);
    forall k | 0 <= k < i ensures pieces[k] == pieces[i] <==> blocks[k] == blocks[i] {
      if pieces[k] == pieces[i] {
        BlockOfPiece(digest, blocks, texts, k, blocks[i]);
      }
    }
    assert pieces[i] in pieces[..i] <==> exists k :: 0 <= k < i && pieces[k] == pieces[i];
    assert blocks[i] in blocks[..i] <==> exists k :: 0 <= k < i && blocks[k] == blocks[i];
  }

  lemma HarmlessRepeats(digest: string -> Digest, blocks: seq<string>, texts: set<string>)
    requires NoCollision(digest, blocks, texts)
    ensures var pieces := PiecesOf(digest, blocks);
      Harmless(blocks, Written(pieces, set p | p in pieces)) <==> RepeatsAreHarmless(blocks)
  {
    hide NoCollision, AllZero;
    var pieces := PiecesOf(digest, blocks);
    var flags := Written(pieces, set p | p in pieces);
    forall i | 0 <= i < |blocks| ensures flags[i] <==> blocks[i] !in blocks[..i] {
      FirstPiecesAreFirstBlocks(digest, blocks, texts, i);
    }
  }

  /** When one of the entries for the path is complete, all its pieces are there. */
  lemma CompleteHasAll(digest: string -> Digest, bs: BlockSize, w0: World, w: World, j: nat, content: string,
                       texts: set<string>)
    requires Accounts(w0, w) && j < |w.entries| && Complete(w.entries[j])
    requires Destined(digest, bs, w0, w0.entries[j].path, content, texts)
    ensures Have(w.entries, w0.entries[j].path) == set p | p in PiecesOf(digest, Blocks(content, bs))
  {
    hide NoCollision, CountedEntry, Blocks;
    var path, pieces := w0.entries[j].path, PiecesOf(digest, Blocks(content, bs));
    forall i | 0 <= i < |w.entries| && w.entries[i].path == path
      ensures w.entries[i].downloaded <= set p | p in pieces
    {
      AccountsPartition(w0, w, i);
      assert w0.entries[i].info.pieces == pieces;
    }
    AccountsPartition(w0, w, j);
    assert w0.entries[j].info.pieces == pieces;
    assert w.entries[j].downloaded == set p | p in pieces;
    assert forall p :: p in w.entries[j].downloaded ==> p in Have(w.entries, path);
  }

  /** Whatever else is queued, a complete output equals its source byte for byte exactly when repeated blocks do no
      harm. */
  lemma CompleteOutputIff(digest: string -> Digest, bs: BlockSize, w: World, rounds: seq<seq<Visit>>, j: nat,
                          content: string)
    requires Queued(w) && Shaped(rounds, |w.entries|) && j < |w.entries|
    requires var path := w.entries[j].path;
      Destined(digest, bs, w, path, content, Delivered(w.entries, rounds, path))
    requires Complete(Worker(digest, bs, w, rounds).entries[j])
    ensures FileAt(Worker(digest, bs, w, rounds).disk, w.entries[j].path) == content
      <==> RepeatsAreHarmless(Blocks(content, bs))
  {
    hide Worker, Image, Harmless, RepeatsAreHarmless, NoCollision, Accounts, Delivered, Queued, Have, Written;
    var w', path := Worker(digest, bs, w, rounds), w.entries[j].path;
    var texts, blocks := Delivered(w.entries, rounds, path), Blocks(content, bs);
    WorkerReconstructs(digest, bs, w, rounds, path, content, texts);
    CompleteHasAll(digest, bs, w, w', j, content, texts);
    BlocksAreWellCut(content, bs);
    ImageIsFileIff(blocks, Written(PiecesOf(digest, blocks), Have(w'.entries, path)));
    assert Source(digest, bs, w.entries[j], content, texts);
    HarmlessRepeats(digest, blocks, texts);
  }

  /** In particular: with pairwise distinct blocks, the short last one included, the output is the source. */
  lemma DistinctBlocksAreReconstructed(digest: string -> Digest, bs: BlockSize, w: World, rounds: seq<seq<Visit>>,
                                       j: nat, content: string)
    requires Queued(w) && Shaped(rounds, |w.entries|) && j < |w.entries|
    requires var path := w.entries[j].path;
      Destined(digest, bs, w, path, content, Delivered(w.entries, rounds, path))
    requires Complete(Worker(digest, bs, w, rounds).entries[j])
    requires var blocks := Blocks(content, bs); forall i, k :: 0 <= i < k < |blocks| ==> blocks[i] != blocks[k]
    ensures FileAt(Worker(digest, bs, w, rounds).disk, w.entries[j].path) == content
  {
    hide Worker, Queued, Destined, Delivered;
    var blocks := Blocks(content, bs);
    CompleteOutputIff(digest, bs, w, rounds, j, content);
    assert forall i :: 0 <= i < |blocks| ==> blocks[i] !in blocks[..i];
  }

  // ---- First occurrences ----

  /** The block stands at its place in a file. */
  predicate Has(file: string, i: nat, bs: BlockSize, block: string) {
    var offset: nat := i * bs;
    offset + |block| <= |file| && file[offset..offset + |block|] == block
  }

  /** A written block can be read back from the image at its place. */
  lemma {:induction false} WrittenBlocksAreThere(blocks: seq<string>, bs: BlockSize, written: seq<bool>, i: nat)
    requires |blocks| == |written| && i < |blocks| && WellCut(blocks, bs) && written[i]
    ensures Has(Image(blocks, written), i, bs, blocks[i])
  {
    WriteExtendsImage(blocks, bs, written, i);
    assert written[i := true] == written;
    WriteIsLocal(Image(blocks, written), i * bs, blocks[i], 0);
  }

  lemma FirstOccurrenceIsPlaced(digest: string -> Digest, bs: BlockSize, disk: map<string, string>, path: string,
                                content: string, texts: set<string>, i: nat)
    requires |content| < SIZE_LIMIT && NoCollision(digest, Blocks(content, bs), texts)
    requires var blocks := Blocks(content, bs);
      && Placed(digest, bs, disk, path, content, set p | p in PiecesOf(digest, blocks))
      && i < |blocks| && blocks[i] !in blocks[..i]
    ensures Has(FileAt(disk, path), i, bs, Blocks(content, bs)[i])
  {
    hide Image, NoCollision, FileAt, Blocks, Has;
    var blocks := Blocks(content, bs);
    var pieces := PiecesOf(digest, blocks);
    BlocksAreWellCut(content, bs);
    FirstPiecesAreFirstBlocks(digest, blocks, texts, i);
    assert pieces[i] in set p | p in pieces;
    WrittenBlocksAreThere(blocks, bs, Written(pieces, set p | p in pieces), i);
  }

  /** Whatever repeats: a complete output agrees with the source on every first occurrence of a block. */
  lemma {:induction false} FirstOccurrencesAgree(digest: string -> Digest, bs: BlockSize, w: World,
                                                 rounds: seq<seq<Visit>>, j: nat, content: string, i: nat)
    requires Queued(w) && Shaped(rounds, |w.entries|) && j < |w.entries|
    requires var path := w.entries[j].path;
      Destined(digest, bs, w, path, content, Delivered(w.entries, rounds, path))
    requires Complete(Worker(digest, bs, w, rounds).entries[j])
    requires i < |Blocks(content, bs)| && Blocks(content, bs)[i] !in Blocks(content, bs)[..i]
    ensures Has(FileAt(Worker(digest, bs, w, rounds).disk, w.entries[j].path), i, bs, Blocks(content, bs)[i])
  {
    hide Worker, Accounts, Queued, NoCollision, Placed, Has, Have, Delivered;
    var w', path := Worker(digest, bs, w, rounds), w.entries[j].path;
    var texts := Delivered(w.entries, rounds, path);
    WorkerReconstructs(digest, bs, w, rounds, path, content, texts);
    CompleteHasAll(digest, bs, w, w', j, content, texts);
    assert Source(digest, bs, w.entries[j], content, texts);
    FirstOccurrenceIsPlaced(digest, bs, w'.disk, path, content, texts, i);
  }
}
