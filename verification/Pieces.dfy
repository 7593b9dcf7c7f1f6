/** file_io.cpp: cutting a file into blocks, finding a piece, reading and writing one block. */
module Pieces {
  import opened Streams
  import opened Codec
  import opened Hashing

  /** `block_size` of fileinfo.hpp, and block sizes in general. */
  type BlockSize = n: nat | n > 0 witness 1

  const BLOCK_SIZE: BlockSize := 512 * 1024

  // ---- Blocks ----

  /** The successive results of `read(fd, buffer, block_size)`. */
  function Blocks(content: string, bs: BlockSize): (blocks: seq<string>)
    decreases |content|
  {
    if content == "" then []
    else if |content| <= bs then [content]
    else [content[..bs]] + Blocks(content[bs..], bs)
  }

  function Join(blocks: seq<string>): string {
    if blocks == [] then "" else blocks[0] + Join(blocks[1..])
  }

  /** All blocks are full but possibly the last, and none is empty. */
  predicate WellCut(blocks: seq<string>, bs: BlockSize) {
    && (forall i :: 0 <= i < |blocks| ==> 0 < |blocks[i]| <= bs)
    && (forall i :: 0 <= i < |blocks| - 1 ==> |blocks[i]| == bs)
  }

  lemma {:induction false} BlocksAreWellCut(content: string, bs: BlockSize)
    ensures WellCut(Blocks(content, bs), bs) && Join(Blocks(content, bs)) == content
    decreases |content|
  {
    if |content| > bs {
      BlocksAreWellCut(content[bs..], bs);
      var rest := Blocks(content[bs..], bs);
      assert Blocks(content, bs)[1..] == rest;
      assert content == content[..bs] + content[bs..];
    } else if content != "" {
      assert [content][1..] == [];
      assert Join([content]) == content + Join([]);
    }
  }

  function PiecesOf(digest: string -> Digest, blocks: seq<string>): (pieces: seq<string>)
    ensures |pieces| == |blocks|
    ensures forall i :: 0 <= i < |blocks| ==> pieces[i] == Sha1(digest, blocks[i])
  {
    seq(|blocks|, i requires 0 <= i < |blocks| => Sha1(digest, blocks[i]))
  }

  /** The description that get_file_info gives to a file. */
  function Describe(digest: string -> Digest, name: string, content: string, bs: BlockSize): FileInfo
    requires |content| < SIZE_LIMIT
  {
    var pieces := PiecesOf(digest, Blocks(content, bs));
    FileInfo(name, |content|, pieces, Concat(pieces))
  }

  /** It tells the length, one hash per block in order, and all hashes in a row. */
  lemma DescriptionSays(digest: string -> Digest, name: string, content: string, bs: BlockSize)
    requires |content| < SIZE_LIMIT
    ensures var (info, blocks) := (Describe(digest, name, content, bs), Blocks(content, bs));
      && info.name == name && info.size == |content| && |info.pieces| == |blocks|
      && (forall i :: 0 <= i < |blocks| ==> info.pieces[i] == Sha1(digest, blocks[i]))
      && info.hash == Concat(info.pieces)
  {
  }

  lemma FirstBlock(content: string, bs: BlockSize, buffer: string)
    requires content != "" && buffer == if |content| <= bs then content else content[..bs]
    ensures Blocks(content, bs) == [buffer] + Blocks(content[|buffer|..], bs)
  {
  }

  lemma PiecesSnoc(digest: string -> Digest, blocks: seq<string>, block: string)
    ensures PiecesOf(digest, blocks + [block]) == PiecesOf(digest, blocks) + [Sha1(digest, block)]
  {
  }

  method GetFileInfo(digest: string -> Digest, name: string, content: string, bs: BlockSize) returns (info: FileInfo)
    requires |content| < SIZE_LIMIT
    ensures info == Describe(digest, name, content, bs)
  {
    hide Blocks, PiecesOf, Concat;
    var pieces: seq<string>, hash, rest := [], "", content;
    ghost var done: seq<string> := [];
    NothingCut(digest, bs);
    while rest != ""
      invariant done + Blocks(rest, bs) == Blocks(content, bs)
      invariant pieces == PiecesOf(digest, done) && hash == Concat(pieces)
      decreases |rest|
    {
      var buffer := if |rest| <= bs then rest else rest[..bs];
      var piece := GetSha1(digest, buffer);
      FirstBlock(rest, bs, buffer);
      PiecesSnoc(digest, done, buffer);
      ConcatSnoc(pieces, piece);
      pieces := pieces + [piece];
      assert done + ([buffer] + Blocks(rest[|buffer|..], bs)) == (done + [buffer]) + Blocks(rest[|buffer|..], bs);
      done := done + [buffer];
      hash := hash + piece;
      rest := rest[|buffer|..];
    }
    assert done + [] == done;
    info := FileInfo(name, |content|, pieces, hash);
  }

  lemma NothingCut(digest: string -> Digest, bs: BlockSize)
    ensures Blocks("", bs) == [] && PiecesOf(digest, []) == [] && Concat([]) == ""
  {
  }

  /** Every description of a file on disk survives the codec, once it has a name. */
  lemma DescriptionsArePlain(digest: string -> Digest, name: string, content: string, bs: BlockSize)
    requires |content| < SIZE_LIMIT && IsWord(name)
    ensures PlainInfo(Describe(digest, name, content, bs))
    ensures forall i :: 0 <= i < |Describe(digest, name, content, bs).pieces| ==>
      |Describe(digest, name, content, bs).pieces[i]| == 40
  {
    var blocks := Blocks(content, bs);
    forall i | 0 <= i < |blocks| ensures IsWord(PiecesOf(digest, blocks)[i]) && |PiecesOf(digest, blocks)[i]| == 40 {
      HashesAreWords(digest, blocks[i]);
    }
  }

  // ---- Finding a piece ----

  /** `size_t(-1)`. */
  const NOT_FOUND: Size := SIZE_LIMIT - 1

  method GetPieceIndex(pieces: seq<string>, piece: string) returns (index: Size)
    requires |pieces| < NOT_FOUND
    ensures piece in pieces ==> index < |pieces| && pieces[index] == piece && piece !in pieces[..index]
    ensures piece !in pieces ==> index == NOT_FOUND
  {
    index := NOT_FOUND;
    for i := 0 to |pieces|
      invariant index == NOT_FOUND && piece !in pieces[..i]
    {
      if pieces[i] == piece {
        return i;
      }
    }
  }

  /** The index of the first occurrence. */
  function FirstIndex(pieces: seq<string>, piece: string): (i: nat)
    requires piece in pieces
    ensures i < |pieces| && pieces[i] == piece && piece !in pieces[..i]
  {
    if pieces[0] == piece then 0
    else
      var i := FirstIndex(pieces[1..], piece);
      assert pieces[..i + 1] == [pieces[0]] + pieces[1..][..i];
      i + 1
  }

  predicate IsFirst(pieces: seq<string>, i: nat)
    requires i < |pieces|
  {
    pieces[i] !in pieces[..i]
  }

  lemma FirstIndexIsUnique(pieces: seq<string>, piece: string, i: nat)
    requires i < |pieces| && pieces[i] == piece && piece !in pieces[..i]
    ensures FirstIndex(pieces, piece) == i
  {
    var j := FirstIndex(pieces, piece);
    assert forall k :: 0 <= k < i ==> pieces[..i][k] == pieces[k];
    assert forall k :: 0 <= k < j ==> pieces[..j][k] == pieces[k];
  }

  predicate IsPieceValid(digest: string -> Digest, piece: string, data: string) {
    piece == Sha1(digest, data)
  }

  // ---- Reading and writing one block ----

  function Min(a: int, b: int): int {
    if a < b then a else b
  }

  function Zeros(n: nat): (z: string)
    ensures |z| == n && forall i :: 0 <= i < n ==> z[i] == '\0'
  {
    seq(n, i => '\0')
  }

  /** Seek and read at most one block. */
  function ReadAt(file: string, index: nat, bs: BlockSize): string {
    file[Min(index * bs, |file|)..Min(index * bs + bs, |file|)]
  }

  /** Seek and write: a gap before the offset reads as zeros, and writing nothing changes nothing. */
  function WriteAt(file: string, offset: nat, data: string): string {
    if data == "" then file
    else
      var padded := if |file| < offset then file + Zeros(offset - |file|) else file;
      padded[..offset] + data + padded[Min(offset + |data|, |padded|)..]
  }

  /** Reading block `i` of a file gives the block that the hash was computed from. */
  lemma {:induction false} ReadAtGivesBlocks(content: string, bs: BlockSize, i: nat)
    requires i < |Blocks(content, bs)|
    ensures ReadAt(content, i, bs) == Blocks(content, bs)[i]
    decreases |content|
  {
    if i == 0 {
      assert 0 * bs == 0;
    } else {
      ReadAtGivesBlocks(content[bs..], bs, i - 1);
      BlocksReach(content[bs..], bs, i - 1);
      ReadBehind(content[..bs], content[bs..], bs, i);
      assert content == content[..bs] + content[bs..];
    }
  }

  /** Reads behind a full first block do not see it. */
  lemma ReadBehind(head: string, rest: string, bs: BlockSize, i: nat)
    requires |head| == bs && i > 0
    ensures ReadAt(head + rest, i, bs) == ReadAt(rest, i - 1, bs)
  {
    assert i * bs == (i - 1) * bs + bs;
    var from, to := Min((i - 1) * bs, |rest|), Min((i - 1) * bs + bs, |rest|);
    SliceBehind(head, rest, from, to);
  }

  lemma SliceBehind(head: string, rest: string, from: nat, to: nat)
    requires from <= to <= |rest|
    ensures (head + rest)[|head| + from..|head| + to] == rest[from..to]
  {
  }

  lemma {:induction false} BlocksReach(content: string, bs: BlockSize, i: nat)
    requires i < |Blocks(content, bs)|
    ensures i * bs < |content|
    decreases |content|
  {
    if i > 0 {
      BlocksReach(content[bs..], bs, i - 1);
      assert i * bs == (i - 1) * bs + bs;
    } else {
      assert i * bs == 0;
    }
  }

  /** Writes behind a full first block do not see it. */
  lemma WriteBehind(head: string, rest: string, offset: nat, data: string)
    requires data != ""
    ensures WriteAt(head + rest, |head| + offset, data) == head + WriteAt(rest, offset, data)
  {
    hide Zeros;
    var padded := if |rest| < offset then rest + Zeros(offset - |rest|) else rest;
    if |rest| < offset {
      Regroup(head, rest, Zeros(offset - |rest|));
    }
    var end := Min(offset + |data|, |padded|);
    CutBehind(head, padded, offset);
    CutBehind(head, padded, end);
    Regroup(head, padded[..offset], data);
    Regroup(head, padded[..offset] + data, padded[end..]);
  }

  lemma Regroup(a: string, b: string, c: string)
    ensures (a + b) + c == a + (b + c)
  {
  }

  lemma CutBehind(head: string, s: string, k: nat)
    requires k <= |s|
    ensures (head + s)[..|head| + k] == head + s[..k] && (head + s)[|head| + k..] == s[k..]
  {
  }

  lemma WriteBehindNothing(n: nat, offset: nat, data: string)
    requires data != ""
    ensures WriteAt("", n + offset, data) == Zeros(n) + WriteAt("", offset, data)
  {
    hide WriteAt;
    WriteToNothing(n + offset, data);
    WriteToNothing(offset, data);
    assert Zeros(n + offset) == Zeros(n) + Zeros(offset);
    assert (Zeros(n) + Zeros(offset)) + data == Zeros(n) + (Zeros(offset) + data);
  }

  lemma WriteToNothing(offset: nat, data: string)
    requires data != ""
    ensures WriteAt("", offset, data) == Zeros(offset) + data
  {
    var padded := if 0 < offset then "" + Zeros(offset) else "";
    assert padded == Zeros(offset) && padded[..offset] == padded && padded[|padded|..] == "";
  }

  /** A write does not disturb what lies before its offset or behind its data. */
  lemma WriteIsLocal(file: string, offset: nat, data: string, k: nat)
    ensures var out := WriteAt(file, offset, data);
      && (data != "" ==> offset + |data| <= |out| && out[offset..offset + |data|] == data)
      && (k < |file| && (k < offset || k >= offset + |data|) ==> k < |out| && out[k] == file[k])
  {
  }
}
