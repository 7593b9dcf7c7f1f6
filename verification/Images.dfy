/** What an output file holds after some of its blocks were written, in any order. */
module Images {
  import opened Pieces

  /** The written blocks in place, zeros for the blocks skipped before them, nothing behind the last one. */
  function Image(blocks: seq<string>, written: seq<bool>): string
    requires |blocks| == |written|
  {
    if blocks == [] then ""
    else
      var rest := Image(blocks[1..], written[1..]);
      if rest == "" then (if written[0] then blocks[0] else "")
      else (if written[0] then blocks[0] else Zeros(|blocks[0]|)) + rest
  }

  lemma WellCutTail(blocks: seq<string>, bs: BlockSize)
    requires WellCut(blocks, bs) && blocks != []
    ensures WellCut(blocks[1..], bs)
  {
  }

  /** Writing block `i` at its place turns the image into the one with block `i` written. */
  lemma {:induction false} WriteExtendsImage(blocks: seq<string>, bs: BlockSize, written: seq<bool>, i: nat)
    requires |blocks| == |written| && i < |blocks| && WellCut(blocks, bs)
    ensures WriteAt(Image(blocks, written), i * bs, blocks[i]) == Image(blocks, written[i := true])
    decreases |blocks|
  {
    hide WellCut, WriteAt;
    BlockLengths(blocks, bs, i);
    var rest := Image(blocks[1..], written[1..]);
    if i == 0 {
      assert 0 * bs == 0;
      assert written[0 := true][1..] == written[1..];
      WriteFirst(Image(blocks, written), blocks[0], rest);
    } else {
      WellCutTail(blocks, bs);
      WriteExtendsImage(blocks[1..], bs, written[1..], i - 1);
      assert written[i := true][1..] == written[1..][i - 1 := true];
      OffsetBehind(bs, i);
      WriteLater(if written[0] then blocks[0] else Zeros(|blocks[0]|), written[0], rest, (i - 1) * bs, blocks[i]);
    }
  }

  lemma OffsetBehind(bs: BlockSize, i: nat)
    requires i > 0
    ensures i * bs == bs + (i - 1) * bs && (i - 1) * bs >= 0
  {
  }

  /** A write behind the first block, which stands there (`there`) or is a gap, goes to the rest. */
  lemma WriteLater(head: string, there: bool, rest: string, offset: nat, data: string)
    requires data != "" && (there || head == Zeros(|head|))
    ensures var rest' := WriteAt(rest, offset, data);
      && rest' != ""
      && WriteAt(if rest == "" then (if there then head else "") else head + rest, |head| + offset, data)
         == head + rest'
  {
    hide WriteAt;
    WriteIsNotEmpty(rest, offset, data);
    if rest == "" && !there {
      WriteBehindNothing(|head|, offset, data);
    } else {
      assert rest == "" ==> head + rest == head;
      WriteBehind(head, rest, offset, data);
    }
  }

  lemma BlockLengths(blocks: seq<string>, bs: BlockSize, i: nat)
    requires WellCut(blocks, bs) && i < |blocks|
    ensures blocks[i] != "" && (i > 0 ==> |blocks[0]| == bs)
  {
  }

  lemma WriteIsNotEmpty(file: string, offset: nat, data: string)
    requires data != ""
    ensures WriteAt(file, offset, data) != ""
  {
  }

  /** The first block has the length of whatever stood there. */
  lemma WriteFirst(img: string, block: string, rest: string)
    requires block != ""
    requires |img| == 0 || |img| == |block| + |rest|
    requires |img| == |block| + |rest| ==> img[|block|..] == rest
    requires img == "" ==> rest == ""
    ensures WriteAt(img, 0, block) == block + rest
  {
  }

  lemma {:induction false} NothingWritten(blocks: seq<string>, written: seq<bool>)
    requires |blocks| == |written| && forall i :: 0 <= i < |written| ==> !written[i]
    ensures Image(blocks, written) == ""
  {
    if blocks != [] {
      NothingWritten(blocks[1..], written[1..]);
    }
  }

  lemma {:induction false} SomethingWritten(blocks: seq<string>, written: seq<bool>, i: nat)
    requires |blocks| == |written| && i < |blocks| && written[i]
    requires forall k :: 0 <= k < |blocks| ==> blocks[k] != ""
    ensures Image(blocks, written) != ""
    decreases |blocks|
  {
    if i > 0 {
      SomethingWritten(blocks[1..], written[1..], i - 1);
    }
  }

  // ---- When the image is the whole file ----

  predicate AllZero(s: string) {
    s == Zeros(|s|)
  }

  /** Every block that was never written is zeros and has a written block behind it. */
  predicate Harmless(blocks: seq<string>, written: seq<bool>)
    requires |blocks| == |written|
  {
    forall i :: 0 <= i < |blocks| && !written[i] ==>
      AllZero(blocks[i]) && exists j :: i < j < |blocks| && written[j]
  }

  lemma HarmlessTail(blocks: seq<string>, written: seq<bool>)
    requires |blocks| == |written| && blocks != []
    ensures Harmless(blocks, written) <==>
      && Harmless(blocks[1..], written[1..])
      && (!written[0] ==> AllZero(blocks[0]) && exists j :: 0 < j < |blocks| && written[j])
  {
    var bs, ws := blocks[1..], written[1..];
    if Harmless(blocks, written) {
      forall i | 0 <= i < |bs| && !ws[i] ensures AllZero(bs[i]) && exists j :: i < j < |bs| && ws[j] {
        assert !written[i + 1];
        var j :| i + 1 < j < |blocks| && written[j];
        assert ws[j - 1];
      }
    }
    if Harmless(bs, ws) && (!written[0] ==> AllZero(blocks[0]) && exists j :: 0 < j < |blocks| && written[j]) {
      forall i | 0 <= i < |blocks| && !written[i]
        ensures AllZero(blocks[i]) && exists j :: i < j < |blocks| && written[j]
      {
        if i > 0 {
          assert !ws[i - 1] && bs[i - 1] == blocks[i];
          var j :| i - 1 < j < |bs| && ws[j];
          assert written[j + 1];
        }
      }
    }
  }

  /** The image is the file exactly when the blocks that were never written do no harm. */
  lemma {:induction false} ImageIsFileIff(blocks: seq<string>, written: seq<bool>)
    requires |blocks| == |written| && forall i :: 0 <= i < |blocks| ==> blocks[i] != ""
    ensures Image(blocks, written) == Join(blocks) <==> Harmless(blocks, written)
    decreases |blocks|
  {
    if blocks != [] {
      var bs, ws := blocks[1..], written[1..];
      ImageIsFileIff(bs, ws);
      HarmlessTail(blocks, written);
      var rest, tail := Image(bs, ws), Join(bs);
      if i :| 0 <= i < |ws| && ws[i] {
        SomethingWritten(bs, ws, i);
        assert written[i + 1];
        var head := if written[0] then blocks[0] else Zeros(|blocks[0]|);
        assert Image(blocks, written) == head + rest;
        HeadAndTail(head, blocks[0], rest, tail);
      } else {
        NothingWritten(bs, ws);
        if bs == [] {
          assert tail == "";
        } else {
          assert tail != "" by {
            assert tail == bs[0] + Join(bs[1..]);
          }
          assert !ws[|ws| - 1];
          assert !Harmless(bs, ws);
        }
      }
    }
  }

  lemma HeadAndTail(a: string, b: string, s: string, t: string)
    requires |a| == |b|
    ensures a + s == b + t <==> a == b && s == t
  {
    if a + s == b + t {
      assert (a + s)[..|a|] == a && (b + t)[..|b|] == b;
      assert (a + s)[|a|..] == s && (b + t)[|b|..] == t;
    }
  }
}
