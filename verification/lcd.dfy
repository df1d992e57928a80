/** One pass of the scrolling display on the 16-column character LCD: the
    message is shown through a 16-character window that advances by one
    character per frame, each frame drawn after clearing the screen. */
module Lcd {

  /** The number of columns of the display. */
  const Width: nat := 16

  /** The windows of one pass, built from the front of the message: the
      first 16 characters, then the windows of the message without its first
      character. */
  function Frames(message: string): (r: seq<string>)
    ensures |message| < Width ==> r == []
    ensures |message| >= Width ==> |r| == |message| - Width + 1
    ensures forall i :: 0 <= i < |r| ==> r[i] == message[i..i + Width]
    decreases |message|
  {
    if |message| < Width then []
    else
      [message[..Width]] + Frames(message[1..])
  }

  /** Every frame fills the display exactly. */
  lemma FrameWidth(message: string, i: nat)
    requires i < |Frames(message)|
    ensures |Frames(message)[i]| == Width
  {
  }

  /** A message of exactly the display's width gives one frame, the message. */
  lemma ExactWidthOneFrame(message: string)
    requires |message| == Width
    ensures Frames(message) == [message]
  {
    assert Frames(message)[0] == message[0..Width];
    assert message[0..Width] == message;
  }

  /** Consecutive frames overlap in all but one character: the window moves
      one position to the right. */
  lemma FramesOverlap(message: string, i: nat)
    requires i + 1 < |Frames(message)|
    ensures Frames(message)[i][1..] == Frames(message)[i + 1][..Width - 1]
  {
    var f := Frames(message);
    assert f[i] == message[i..i + Width];
    assert f[i + 1] == message[i + 1..i + 1 + Width];
  }

  /** The first frame starts the message and the last frame ends it. */
  lemma FramesCoverMessage(message: string)
    requires |message| >= Width
    ensures Frames(message)[0] == message[..Width]
    ensures Frames(message)[|Frames(message)| - 1] == message[|message| - Width..]
  {
  }

  /** An operation on the display. */
  datatype LcdOp = Clear | Write(text: string)

  /** One pass of `display` with `loop=False`, as the operations it issues:
      for each window start `i` from 0 while `i < len(message) - 16 + 1`, a
      clear followed by a write of `message[i:i+16]`. */
  method DisplayOnce(message: string) returns (ops: seq<LcdOp>)
    ensures |ops| == 2 * |Frames(message)|
    ensures forall i :: 0 <= i < |Frames(message)| ==>
      ops[2 * i] == Clear && ops[2 * i + 1] == Write(Frames(message)[i])
  {
    ops := [];
    var i := 0;
    while i < |message| - Width + 1
      invariant 0 <= i
      invariant i <= |message| - Width + 1 || i == 0
      invariant |ops| == 2 * i
      invariant forall j :: 0 <= j < i ==>
        ops[2 * j] == Clear && ops[2 * j + 1] == Write(message[j..j + Width])
    {
      ops := ops + [Clear, Write(message[i..i + Width])];
      i := i + 1;
    }
  }

  /** In the operations of a pass, every write is immediately preceded by a
      clear, and nothing but frames of the message is written. */
  lemma WritesFollowClears(message: string, ops: seq<LcdOp>)
    requires |ops| == 2 * |Frames(message)|
    requires forall i :: 0 <= i < |Frames(message)| ==>
      ops[2 * i] == Clear && ops[2 * i + 1] == Write(Frames(message)[i])
    ensures forall k :: 0 <= k < |ops| && ops[k].Write? ==>
      k > 0 && ops[k - 1] == Clear && ops[k].text in Frames(message)
  {
    var f := Frames(message);
    forall k | 0 <= k < |ops| && ops[k].Write?
      ensures k > 0 && ops[k - 1] == Clear && ops[k].text in f
    {
      var i := k / 2;
      assert 2 * i <= k <= 2 * i + 1 && i < |f|;
      assert ops[2 * i] == Clear && ops[2 * i + 1] == Write(f[i]);
      if k == 2 * i {
        assert false;
      }
      assert k == 2 * i + 1;
    }
  }
}
