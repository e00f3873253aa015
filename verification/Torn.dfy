/** A frame whose write stopped part-way, and what the receiver makes of the frames that follow it. */
module Torn {
  import opened Text
  import opened Frames
  import opened Tunnel

  /** What other threads can still write after a torn frame: frames of the bridge, but after a torn chunk only pings and
      pongs, because the upload loop stops at its own failed write. */
  predicate Follows(f: Frame, frames: seq<Frame>) {
    forall i :: 0 <= i < |frames| ==>
      Bridged(frames[i]) && Sendable(frames[i]) && (f.opcode == BINARY ==> frames[i].opcode != BINARY)
  }

  /** The tear lets later frames pass for the torn one's bytes. Not so when the receiver is sure to refuse what follows:
      in the server's role after one byte, because the next one has the mask bit; inside an eight-byte length, because
      the length grows beyond the limit; and, in the server's role, when one byte of a control frame is missing,
      because the frame after it then starts with a length. */
  predicate Hazard(client: bool, f: Frame, k: nat) {
    && 0 < k < FrameSize(client, f)
    && if f.opcode == BINARY then (client || k >= 2) && !(|f.payload| >= 65536 && 2 <= k < 10)
       else client || (k >= 2 && FrameSize(client, f) - k >= 2)
  }

  function Tear(client: bool, mask: Mask, f: Frame, k: nat, masks: nat -> Mask, frames: seq<Frame>): Bytes
    requires Sendable(f) && k <= FrameSize(client, f) && AllSendable(frames)
  {
    EncodeSize(client, mask, f);
    Encode(client, mask, f)[..k] + EncodeAll(client, masks, 0, frames)
  }

  /** The receiver bridges bytes that were never read, or skips some. */
  predicate Harmed(client: bool, mask: Mask, f: Frame, k: nat, masks: nat -> Mask, frames: seq<Frame>)
    requires Sendable(f) && k <= FrameSize(client, f)
  {
    Follows(f, frames) && !(Written(Received(!client, Tear(client, mask, f, k, masks, frames))) <= Written(Data([f] + frames)))
  }

  // ---- Harmless tears ----

  lemma FirstBytes(client: bool, masks: nat -> Mask, drawn: nat, frames: seq<Frame>)
    requires AllSendable(frames)
    ensures var w := EncodeAll(client, masks, drawn, frames);
            if frames == [] then w == []
            else |w| >= 2 && w[0] == 128 + frames[0].opcode && (w[1] >= 128) == client
  {
  }

  lemma Value8(b: Bytes)
    requires |b| == 8
    ensures Value(b) == 256 * (256 * (256 * (256 * (256 * (256 * (256 * (b[0] as int) + b[1]) + b[2]) + b[3]) + b[4]) + b[5]) + b[6]) + b[7]
  {
    assert b[..7][..6] == b[..6] && b[..6][..5] == b[..5] && b[..5][..4] == b[..4];
    assert b[..4][..3] == b[..3] && b[..3][..2] == b[..2] && b[..2][..1] == b[..1] && b[..1][..0] == [];
    assert Value(b[..1]) == b[0];
    assert Value(b[..2]) == 256 * Value(b[..1]) + b[1];
    assert Value(b[..3]) == 256 * Value(b[..2]) + b[2];
    assert Value(b[..4]) == 256 * Value(b[..3]) + b[3];
    assert Value(b[..5]) == 256 * Value(b[..4]) + b[4];
    assert Value(b[..6]) == 256 * Value(b[..5]) + b[5];
    assert Value(b[..7]) == 256 * Value(b[..6]) + b[6];
  }

  lemma Value2(b: Bytes)
    requires |b| == 2
    ensures Value(b) == 256 * (b[0] as int) + b[1]
  {
    assert b[..1][..0] == [];
    assert Value(b[..1]) == b[0];
  }

  lemma LongLength()
    ensures |Extended(65536)| == 8 && Extended(65536)[5] == 1
  {
    var b := BigEndian(65536, 8);
    assert b == BigEndian(256, 7) + [0];
    assert BigEndian(256, 7) == BigEndian(1, 6) + [0];
    assert BigEndian(1, 6) == BigEndian(0, 5) + [1];
  }

  /** A length cut among its eight bytes and continued by the start of a frame is beyond the limit. */
  lemma LengthTooLarge(b: Bytes, j: nat)
    requires |b| == 8 && j < 8 && b[j] >= 128 && (j > 5 ==> b[5] == 1)
    ensures Value(b) > MAX_FRAME
  {
    Value8(b);
  }

  /** A control frame cut behind its header takes exactly the missing bytes from what follows. */
  lemma Swallowed(client: bool, mask: Mask, f: Frame, k: nat, after: Bytes)
    requires Bridged(f) && f.opcode != BINARY && 2 <= k <= FrameSize(client, f) && |after| >= FrameSize(client, f) - k
    ensures |Encode(client, mask, f)| == FrameSize(client, f)
    ensures Received(!client, Encode(client, mask, f)[..k] + after) == Received(!client, after[FrameSize(client, f) - k..])
  {
    hide Encode, Parse, Masked;
    EncodeSize(client, mask, f);
    var size, missing := |f.payload|, FrameSize(client, f) - k;
    var input := Encode(client, mask, f)[..k] + after;
    var head := Head(client, f.opcode, size);
    EncodeHead(client, mask, f);
    var body := input[2..];
    assert input == head + body;
    ParseHead(client, f.opcode, size, body);
    assert body[if client then 4 + size else size..] == after[missing..];
    ReceivedStep(!client, input);
    assert Parse(!client, input).rest == after[missing..];
  }

  lemma EncodeHead(client: bool, mask: Mask, f: Frame)
    requires Sendable(f)
    ensures Head(client, f.opcode, |f.payload|) <= Encode(client, mask, f) && |Head(client, f.opcode, |f.payload|)| == 2 + |Extended(|f.payload|)|
  {
  }

  lemma TooShort(client: bool, input: Bytes)
    requires |input| < 2
    ensures Received(client, input) == []
  {
  }

  lemma Refused(client: bool, input: Bytes)
    requires |input| >= 2 && !HeaderAllowed(client, input[0], input[1])
    ensures Received(client, input) == []
  {
  }

  /** Nothing is received behind a harmless tear, whatever follows it. */
  lemma Silent(client: bool, mask: Mask, f: Frame, k: nat, after: Bytes)
    requires Bridged(f) && 0 < k < FrameSize(client, f) && !Hazard(client, f, k)
    requires after != [] ==> |after| >= 2 && after[0] >= 128 && (after[1] >= 128) == client
    ensures |Encode(client, mask, f)| == FrameSize(client, f)
    ensures Received(!client, Encode(client, mask, f)[..k] + after) == []
  {
    hide Parse, Encode;
    EncodeSize(client, mask, f);
    EncodeHead(client, mask, f);
    var input := Encode(client, mask, f)[..k] + after;
    if after == [] {
      assert input == Encode(client, mask, f)[..k];
      CutReceived(client, mask, f, k);
    } else if k == 1 {
      assert input[1] == after[0];
      Refused(!client, input);
    } else if f.opcode == BINARY {
      LengthRefused(client, mask, f, k, after);
    } else {
      Swallowed(client, mask, f, k, after);
      if |after| == 2 {
        TooShort(!client, after[1..]);
      } else {
        assert after[1..][0] == after[1];
        Refused(!client, after[1..]);
      }
    }
  }

  /** A tear inside an eight-byte length. */
  lemma LengthRefused(client: bool, mask: Mask, f: Frame, k: nat, after: Bytes)
    requires Acceptable(f) && f.opcode == BINARY && |f.payload| == 65536 && 2 <= k < 10 && after != [] && after[0] >= 128
    ensures |Encode(client, mask, f)| >= k && Received(!client, Encode(client, mask, f)[..k] + after) == []
  {
    hide Encode, Value, BigEndian, Received, Extended, Head;
    EncodeHead(client, mask, f);
    LongLength();
    HeadFlags(client, BINARY, 65536);
    var head := Head(client, BINARY, 65536);
    assert head[7] == head[2..][5];
    assert Encode(client, mask, f)[..k] == head[..k];
    LengthCut(head, k, after);
    TooLarge(!client, head[..k] + after);
  }

  lemma LengthCut(head: Bytes, k: nat, after: Bytes)
    requires |head| == 10 && head[7] == 1 && 2 <= k < 10 && after != [] && after[0] >= 128
    ensures var input := head[..k] + after;
            && |input| >= 2 && input[1] == head[1] && (|input| >= 10 ==> Value(input[2..10]) > MAX_FRAME)
  {
    hide Value;
    var input := head[..k] + after;
    if |input| >= 10 {
      var length := input[2..10];
      assert length[k - 2] == after[0];
      if k > 7 {
        assert length[5] == head[7];
      }
      LengthTooLarge(length, k - 2);
    }
  }

  lemma TooLarge(client: bool, input: Bytes)
    requires |input| >= 2 && ExtendedWidth(input[1]) == 8 && (|input| >= 10 ==> Value(input[2..10]) > MAX_FRAME)
    ensures Received(client, input) == []
  {
    hide Value;
  }

  /** Behind a harmless tear the receiver sees nothing of the torn frame and nothing of what follows, wherever the
      stream ends. */
  lemma HarmlessTear(client: bool, mask: Mask, f: Frame, k: nat, masks: nat -> Mask, frames: seq<Frame>)
    requires Bridged(f) && 0 < k < FrameSize(client, f) && !Hazard(client, f, k) && Follows(f, frames) && Sendable(f)
    ensures Received(!client, Tear(client, mask, f, k, masks, frames)) == []
  {
    hide Encode, EncodeAll, Hazard, Bridged;
    FirstBytes(client, masks, 0, frames);
    Silent(client, mask, f, k, EncodeAll(client, masks, 0, frames));
  }

  // ---- Harmful tears of a control frame ----

  const ZEROS: Mask := [0, 0, 0, 0]
  const ONES: Mask := [1, 1, 1, 1]

  function Same(mask: Mask): nat -> Mask {
    n => mask
  }

  /** Two bytes masked alike stay different. */
  lemma XorApart(a: Byte, b: Byte, m: Byte)
    requires a != b
    ensures Xor(a, m) != Xor(b, m)
  {
    assert Power(2, 8) == 256;
    XorTwice(a, m, 8);
    XorTwice(b, m, 8);
  }

  lemma DataFrames(chunks: seq<Bytes>)
    ensures Data(Binary(chunks)) == Binary(chunks)
    decreases |chunks|
  {
    if chunks != [] {
      DataFrames(chunks[1..]);
      assert Binary(chunks)[1..] == Binary(chunks[1..]);
    }
  }

  lemma ChunksFollow(f: Frame, chunks: seq<Bytes>)
    requires f.opcode != BINARY && forall i :: 0 <= i < |chunks| ==> 1 <= |chunks[i]| <= MAX_FRAME
    ensures Follows(f, Binary(chunks))
  {
    forall i | 0 <= i < |chunks| ensures Bridged(Binary(chunks)[i]) && Sendable(Binary(chunks)[i]) {
      ChunkBridged(Binary(chunks)[i]);
    }
    hide Bridged;
  }

  /** The harm shown: `chunks` were written behind a torn control frame, and something else comes out. */
  lemma ShowHarm(client: bool, mask: Mask, f: Frame, k: nat, masks: nat -> Mask, chunks: seq<Bytes>, out: Bytes)
    requires Bridged(f) && f.opcode != BINARY && Sendable(f) && k <= FrameSize(client, f)
    requires forall i :: 0 <= i < |chunks| ==> 1 <= |chunks[i]| <= MAX_FRAME
    requires AllSendable(Binary(chunks)) && Written(Received(!client, Tear(client, mask, f, k, masks, Binary(chunks)))) == out
    requires !(out <= Flatten(chunks))
    ensures Harmed(client, mask, f, k, masks, Binary(chunks))
  {
    ChunksFollow(f, chunks);
    hide Received, Tear, Written, Flatten, Follows;
    var frames := Binary(chunks);
    DataJoin([f], frames);
    assert Data([f]) == [];
    assert [] + Data(frames) == Data(frames);
    DataFrames(chunks);
    WrittenBinary(chunks);
  }

  /** Behind a torn control frame whose missing bytes the frame `chunks[0]` provides up to its last one, the receiver
      finds the frame `chunks[1]`. */
  lemma SkippedChunk(client: bool, mask: Mask, f: Frame, k: nat, chunk: Bytes)
    requires Bridged(f) && f.opcode != BINARY && Sendable(f) && 1 <= |chunk| <= MAX_FRAME && chunk[0] == 0
    requires 2 <= k < FrameSize(client, f) && FrameSize(client, f) - k == FrameSize(client, Frame(BINARY, chunk))
    ensures Harmed(client, mask, f, k, Same(ZEROS), Binary([chunk, [1]]))
  {
    hide Encode, Received, FrameSize, Bridged;
    var first, second := Frame(BINARY, chunk), Frame(BINARY, [1]);
    var frames := Binary([chunk, [1]]);
    assert frames == [first, second];
    TwoFrames(client, Same(ZEROS), first, second);
    var head, tail := Encode(client, ZEROS, first), Encode(client, ZEROS, second);
    EncodeSize(client, ZEROS, first);
    Swallowed(client, mask, f, k, head + tail);
    assert (head + tail)[|head|..] == tail;
    LastFrame(client, ZEROS, [1]);
    assert Flatten([chunk, [1]])[0] == chunk[0];
    ShowHarm(client, mask, f, k, Same(ZEROS), [chunk, [1]], [1]);
  }

  lemma TwoFrames(client: bool, masks: nat -> Mask, first: Frame, second: Frame)
    requires Sendable(first) && Sendable(second)
    ensures AllSendable([first, second])
    ensures EncodeAll(client, masks, 0, [first, second]) == Encode(client, masks(0), first) + Encode(client, masks(1), second)
  {
    hide Encode;
    assert [first, second][1..] == [second] && [second][1..] == [];
    assert EncodeAll(client, masks, 1, [second]) == Encode(client, masks(1), second) + EncodeAll(client, masks, 2, []);
  }

  lemma OneFrame(client: bool, masks: nat -> Mask, f: Frame)
    requires Sendable(f)
    ensures AllSendable([f]) && EncodeAll(client, masks, 0, [f]) == Encode(client, masks(0), f)
  {
    hide Encode;
    assert [f][1..] == [];
  }

  /** What a last chunk comes to. */
  lemma LastFrame(client: bool, mask: Mask, chunk: Bytes)
    requires |chunk| <= MAX_FRAME
    ensures Written(Received(!client, Encode(client, mask, Frame(BINARY, chunk)))) == chunk
  {
    var f := Frame(BINARY, chunk);
    var wire := Encode(client, mask, f);
    assert wire + [] == wire;
    FirstReceived(client, mask, f, []);
    NothingReceived(!client);
    assert Received(!client, wire) == [f];
    assert [f][1..] == [];
    assert Written([f]) == chunk + Written([]);
  }

  /** In the server's role two missing bytes are the header of the next chunk, which may look like a frame. */
  lemma ServerTwo(mask: Mask, f: Frame, k: nat)
    requires Bridged(f) && f.opcode != BINARY && Sendable(f) && 2 <= k && FrameSize(false, f) - k == 2
    ensures Harmed(false, mask, f, k, Same(ZEROS), Binary([[130, 1, 7]]))
  {
    hide Received, Bridged;
    var chunk: Bytes := [130, 1, 7];
    var only := Frame(BINARY, chunk);
    assert Binary([chunk]) == [only];
    OneFrame(false, Same(ZEROS), only);
    var wire := Encode(false, ZEROS, only);
    assert wire == [130, 3, 130, 1, 7];
    Swallowed(false, mask, f, k, wire);
    assert wire[2..] == Encode(false, ZEROS, Frame(BINARY, [7]));
    LastFrame(false, ZEROS, [7]);
    assert Flatten([chunk])[0] == 130;
    ShowHarm(false, mask, f, k, Same(ZEROS), [chunk], [7]);
  }

  function Zeros(n: nat): (r: Bytes)
    ensures |r| == n && forall i :: 0 <= i < n ==> r[i] == 0
  {
    seq(n, i => 0)
  }

  /** In the client's role: mask and masked payload of a chunk whose frame ends in the frame of another chunk, and leaves
      exactly that one when `missing` bytes are taken off it. */
  function Hidden(missing: nat, v: Byte): (r: Bytes)
    requires 1 <= missing <= 6
    ensures |r| == 5 + missing
  {
    var inner := Encode(true, ZEROS, Frame(BINARY, [v]));
    if missing == 1 then inner[1..] else Zeros(missing - 2) + inner
  }

  function HiddenChunk(missing: nat, v: Byte): (r: Bytes)
    requires 1 <= missing <= 6
    ensures |r| == 1 + missing
  {
    Masked(Hidden(missing, v)[4..], Hidden(missing, v)[..4])
  }

  lemma HiddenWire(missing: nat, v: Byte)
    requires 1 <= missing <= 6
    ensures var wire := Encode(true, Hidden(missing, v)[..4], Frame(BINARY, HiddenChunk(missing, v)));
            |wire| >= missing && wire[missing..] == Encode(true, ZEROS, Frame(BINARY, [v]))
  {
    var inner, tail := Encode(true, ZEROS, Frame(BINARY, [v])), Hidden(missing, v);
    MaskedTwice(tail[4..], tail[..4]);
    hide Masked;
    var wire := Encode(true, tail[..4], Frame(BINARY, HiddenChunk(missing, v)));
    assert wire == [130, 128 + |HiddenChunk(missing, v)|] + tail;
    if missing == 1 {
      assert wire[1..] == inner;
    } else {
      assert wire[missing..] == inner;
    }
  }

  lemma HiddenFirst(missing: nat, v: Byte)
    requires 1 <= missing <= 6
    ensures HiddenChunk(missing, v)[0] == HiddenChunk(missing, 0)[0]
  {
    hide Xor;
    assert Hidden(missing, v)[4] == Hidden(missing, 0)[4];
    assert Hidden(missing, v)[0] == Hidden(missing, 0)[0];
  }

  lemma ClientFew(mask: Mask, f: Frame, k: nat) returns (masks: nat -> Mask, chunks: seq<Bytes>)
    requires Bridged(f) && f.opcode != BINARY && Sendable(f) && 2 <= k && 1 <= FrameSize(true, f) - k <= 6
    ensures Harmed(true, mask, f, k, masks, Binary(chunks))
  {
    hide Received, Bridged, Masked, Encode, Hidden, HiddenChunk;
    var missing := FrameSize(true, f) - k;
    var v := if HiddenChunk(missing, 0)[0] == 0 then 1 else 0;
    HiddenFirst(missing, v);
    HiddenWire(missing, v);
    var chunk := HiddenChunk(missing, v);
    masks, chunks := Same(Hidden(missing, v)[..4]), [chunk];
    assert Binary(chunks) == [Frame(BINARY, chunk)];
    OneFrame(true, masks, Frame(BINARY, chunk));
    Swallowed(true, mask, f, k, Encode(true, masks(0), Frame(BINARY, chunk)));
    LastFrame(true, ZEROS, [v]);
    assert Flatten(chunks)[0] == chunk[0];
    ShowHarm(true, mask, f, k, masks, chunks, [v]);
  }

  /** In the client's role a frame torn after its first byte takes a later first byte for its length. */
  lemma ClientOne(mask: Mask, f: Frame)
    requires Bridged(f) && f.opcode != BINARY && Sendable(f)
    ensures Harmed(true, mask, f, 1, Same(ZEROS), Binary([[0], [1]]))
  {
    hide Received, Parse, Encode, Masked, Bridged;
    var first, second := Frame(BINARY, [0]), Frame(BINARY, [1]);
    assert Binary([[0], [1]]) == [first, second];
    TwoFrames(true, Same(ZEROS), first, second);
    EncodeSize(true, mask, f);
    TakenForLength(mask, f, Encode(true, ZEROS, first), Encode(true, ZEROS, second));
    LastFrame(true, ZEROS, [1]);
    assert Flatten([[0], [1]])[0] == 0;
    ShowHarm(true, mask, f, 1, Same(ZEROS), [[0], [1]], [1]);
  }

  lemma TakenForLength(mask: Mask, f: Frame, first: Bytes, second: Bytes)
    requires Bridged(f) && f.opcode != BINARY && Sendable(f) && first == Encode(true, ZEROS, Frame(BINARY, [0]))
    ensures |Encode(true, mask, f)| >= 1 && Received(false, Encode(true, mask, f)[..1] + (first + second)) == Received(false, second)
  {
    hide Received, Masked;
    var input := Encode(true, mask, f)[..1] + (first + second);
    assert input[0] == 128 + f.opcode && input[1] == 130;
    assert input[2..][6..] == second;
    hide Encode, Extended, Value;
    var p := Parse(false, input);
    assert p == Body(f.opcode, 2, true, input[2..]);
    hide Parse;
    assert p.Got? && p.frame.opcode == f.opcode && p.rest == second;
    ReceivedStep(false, input);
  }

  lemma HarmfulControl(client: bool, mask: Mask, f: Frame, k: nat) returns (masks: nat -> Mask, frames: seq<Frame>)
    requires Bridged(f) && f.opcode != BINARY && Sendable(f) && Hazard(client, f, k)
    ensures Harmed(client, mask, f, k, masks, frames)
  {
    hide Harmed;
    var missing := FrameSize(client, f) - k;
    if k == 1 {
      ClientOne(mask, f);
      masks, frames := Same(ZEROS), Binary([[0], [1]]);
    } else if missing <= if client then 6 else 2 {
      if client {
        var chunks;
        masks, chunks := ClientFew(mask, f, k);
        frames := Binary(chunks);
      } else {
        ServerTwo(mask, f, k);
        masks, frames := Same(ZEROS), Binary([[130, 1, 7]]);
      }
    } else {
      var chunk := Zeros(missing - if client then 6 else 2);
      SkippedChunk(client, mask, f, k, chunk);
      masks, frames := Same(ZEROS), Binary([chunk, [1]]);
    }
  }

  // ---- Harmful tears of a chunk ----

  /** The control frame that follows a torn chunk; enough pings come after it to fill any length. */
  datatype Lead = Lead(opcode: nat, payload: Bytes, mask: Mask) {
    predicate Control() {
      opcode in {PING, PONG} && |payload| <= MAX_CONTROL
    }

    function Frames(): (r: seq<Frame>)
      ensures r != []
    {
      [Frame(opcode, payload)] + seq(40000, i => Frame(PING, []))
    }

    function Masks(): nat -> Mask {
      n => if n == 0 then mask else ZEROS
    }
  }

  lemma {:induction false} EncodeAllLong(client: bool, masks: nat -> Mask, drawn: nat, frames: seq<Frame>)
    requires AllSendable(frames)
    ensures |EncodeAll(client, masks, drawn, frames)| >= 2 * |frames|
    decreases |frames|
  {
    if frames != [] {
      EncodeAllLong(client, masks, drawn + 1, frames[1..]);
    }
  }

  lemma LeadFollows(f: Frame, lead: Lead)
    requires lead.Control()
    ensures Follows(f, lead.Frames()) && AllSendable(lead.Frames()) && Data(lead.Frames()) == []
  {
    NoData(lead.Frames());
  }

  lemma LeadWire(client: bool, lead: Lead)
    requires lead.Control() && AllSendable(lead.Frames())
    ensures var w := EncodeAll(client, lead.Masks(), 0, lead.Frames());
            && |w| >= 80000 && w[0] == 128 + lead.opcode && w[1] == (if client then 128 else 0) + |lead.payload|
            && (client ==> w[2..6] == lead.mask && forall i :: 0 <= i < |lead.payload| ==> w[6 + i] == Xor(lead.payload[i], lead.mask[i % 4]))
            && (!client ==> forall i :: 0 <= i < |lead.payload| ==> w[2 + i] == lead.payload[i])
  {
    var frames := lead.Frames();
    var first := Encode(client, lead.mask, frames[0]);
    EncodeAllLong(client, lead.Masks(), 0, frames);
    var w := EncodeAll(client, lead.Masks(), 0, frames);
    assert first <= w;
    hide EncodeAll, Lead.Frames;
    assert first[0] == 128 + lead.opcode && first[1] == (if client then 128 else 0) + |lead.payload|;
    if client {
      assert first[2..6] == lead.mask;
    }
  }

  /** The byte that a binary frame at the head of the input carries at a position. */
  function ByteAt(client: bool, input: Bytes, width: nat, i: nat): Byte
    requires |input| > 2 + width + (if client then 4 else 0) + i
  {
    if client then Xor(input[6 + width + i], input[2 + width + i % 4]) else input[2 + width + i]
  }

  lemma BinaryRead(client: bool, input: Bytes, width: nat, size: nat, i: nat)
    requires |input| >= 2 && input[0] == 130 && (input[1] >= 128) == client && width == ExtendedWidth(input[1])
    requires |input| >= 2 + width + (if client then 4 else 0) + size && i < size <= MAX_FRAME
    requires size == if width == 0 then input[1] % 128 else Value(input[2..2 + width])
    ensures var w := Written(Received(!client, input));
            i < |w| && w[i] == ByteAt(client, input, width, i)
  {
    hide Value, Xor;
    var body := input[2 + width..];
    var p := Parse(!client, input);
    assert p == Body(BINARY, size, client, body);
    hide Parse, Written, Received;
    assert p.Got? && p.frame.opcode == BINARY && p.frame.payload[i] == ByteAt(client, input, width, i);
    ReceivedStep(!client, input);
    WrittenFirst(p.frame, Received(!client, p.rest));
  }

  lemma WrittenFirst(f: Frame, rest: seq<Frame>)
    requires f.opcode == BINARY
    ensures Written(DataOf(f) + rest) == f.payload + Written(rest)
  {
    assert ([f] + rest)[1..] == rest;
  }

  /** The harm shown: a byte comes out that the torn chunk does not have there. */
  lemma ShowByte(client: bool, mask: Mask, f: Frame, k: nat, lead: Lead, width: nat, size: nat, i: nat)
    requires Bridged(f) && f.opcode == BINARY && Sendable(f) && k <= FrameSize(client, f) && lead.Control() && AllSendable(lead.Frames())
    requires var input := Tear(client, mask, f, k, lead.Masks(), lead.Frames());
             && |input| >= 2 && input[0] == 130 && (input[1] >= 128) == client && width == ExtendedWidth(input[1])
             && |input| >= 2 + width + (if client then 4 else 0) + size && i < size <= MAX_FRAME
             && size == (if width == 0 then input[1] % 128 else Value(input[2..2 + width]))
             && i < |f.payload| && ByteAt(client, input, width, i) != f.payload[i]
    ensures Harmed(client, mask, f, k, lead.Masks(), lead.Frames())
  {
    hide Tear, Lead.Frames, Received, ByteAt, Value;
    BinaryRead(client, Tear(client, mask, f, k, lead.Masks(), lead.Frames()), width, size, i);
    LeadFollows(f, lead);
    DataJoin([f], lead.Frames());
    assert [f][1..] == [];
    assert Data([f]) == [f] && [f] + [] == [f];
    assert Written([f]) == f.payload + Written([]);
  }

  lemma HeadKept(client: bool, mask: Mask, f: Frame, k: nat, input: Bytes)
    requires Acceptable(f) && f.opcode == BINARY && 2 + |Extended(|f.payload|)| <= k <= |Encode(client, mask, f)|
    requires Encode(client, mask, f)[..k] <= input
    ensures var width := |Extended(|f.payload|)|;
            && |input| >= 2 + width && input[0] == 130 && (input[1] >= 128) == client && width == ExtendedWidth(input[1])
            && |f.payload| == (if width == 0 then input[1] % 128 else Value(input[2..2 + width]))
  {
    hide Value, BigEndian, Masked, Extended;
    EncodeHead(client, mask, f);
    HeadFlags(client, BINARY, |f.payload|);
    var head := Head(client, BINARY, |f.payload|);
    var width := |Extended(|f.payload|)|;
    assert Encode(client, mask, f)[..k][..|head|] == head;
    assert input[..|head|] == head;
    assert input[2..2 + width] == head[2..] == Extended(|f.payload|);
    ExtendedValue(|f.payload|);
    WideEnough(|f.payload|);
  }

  lemma WideEnough(size: nat)
    ensures size < 126 <==> Extended(size) == []
  {
  }

  lemma TearBytes(client: bool, mask: Mask, f: Frame, k: nat, lead: Lead)
    requires Sendable(f) && k <= FrameSize(client, f) && AllSendable(lead.Frames())
    ensures |Encode(client, mask, f)| == FrameSize(client, f)
    ensures var w, input := EncodeAll(client, lead.Masks(), 0, lead.Frames()), Tear(client, mask, f, k, lead.Masks(), lead.Frames());
            && |input| == k + |w| && Encode(client, mask, f)[..k] <= input
            && (forall i :: 0 <= i < k ==> input[i] == Encode(client, mask, f)[i])
            && (forall i :: k <= i < |input| ==> input[i] == w[i - k])
  {
    hide Encode, EncodeAll, Lead.Frames, FrameSize;
    EncodeSize(client, mask, f);
    CutJoin(Encode(client, mask, f), k, EncodeAll(client, lead.Masks(), 0, lead.Frames()));
  }

  lemma CutJoin(a: Bytes, k: nat, w: Bytes)
    requires k <= |a|
    ensures var input := a[..k] + w;
            && |input| == k + |w| && a[..k] <= input
            && (forall i :: 0 <= i < k ==> input[i] == a[i])
            && (forall i :: k <= i < |input| ==> input[i] == w[i - k])
  {
  }

  /** Torn within the payload: the first later byte stands for a byte of the chunk. */
  lemma TornPayload(client: bool, mask: Mask, f: Frame, k: nat) returns (lead: Lead)
    requires Bridged(f) && f.opcode == BINARY && Sendable(f) && k < FrameSize(client, f)
    requires k >= 2 + |Extended(|f.payload|)| + if client then 4 else 0
    ensures lead.Control() && Harmed(client, mask, f, k, lead.Masks(), lead.Frames())
  {
    hide EncodeAll, Lead.Frames, Tear, Harmed, Value, Xor, Extended;
    var width := |Extended(|f.payload|)|;
    var i := k - (2 + width + if client then 4 else 0);
    XorApart(137, 138, mask[i % 4]);
    lead := Lead(if (if client then Xor(137, mask[i % 4]) else 137) == f.payload[i] then PONG else PING, [], ZEROS);
    LeadFollows(f, lead);
    LeadWire(client, lead);
    TearBytes(client, mask, f, k, lead);
    var input := Tear(client, mask, f, k, lead.Masks(), lead.Frames());
    HeadKept(client, mask, f, k, input);
    if client {
      MaskBytes(mask, f);
      assert input[2 + width + i % 4] == mask[i % 4];
    }
    hide Encode;
    ShowByte(client, mask, f, k, lead, width, |f.payload|, i);
  }

  lemma MaskBytes(mask: Mask, f: Frame)
    requires Sendable(f)
    ensures var h := 2 + |Extended(|f.payload|)|;
            |Encode(true, mask, f)| >= h + 4 && Encode(true, mask, f)[h..h + 4] == mask
            && forall j :: 0 <= j < 4 ==> Encode(true, mask, f)[h + j] == mask[j]
  {
    hide Masked, Extended;
    var h := 2 + |Extended(|f.payload|)|;
    assert Encode(true, mask, f)[h..h + 4] == mask;
    forall j | 0 <= j < 4 ensures Encode(true, mask, f)[h + j] == mask[j] {
      assert Encode(true, mask, f)[h..h + 4][j] == mask[j];
    }
  }

  /** Torn within the mask: the chunk is unmasked with bytes of a later frame. */
  lemma TornMask(mask: Mask, f: Frame, k: nat) returns (lead: Lead)
    requires Bridged(f) && f.opcode == BINARY && Sendable(f)
    requires 2 + |Extended(|f.payload|)| <= k < 6 + |Extended(|f.payload|)|
    ensures lead.Control() && Harmed(true, mask, f, k, lead.Masks(), lead.Frames())
  {
    hide EncodeAll, Lead.Frames, Tear, Harmed, Value, Xor, Extended, Encode;
    assert f.payload != [] && Acceptable(f);
    hide Bridged;
    var width := |Extended(|f.payload|)|;
    var j := k - (2 + width);
    var key: Byte := if j == 0 then 137 else mask[0];
    var x: Byte := if j == 3 then 128 else 0;
    XorApart(x, x + 1, key);
    lead := if Xor(x, key) == f.payload[0] then Lead(PING, [0], ONES) else Lead(PING, [], ZEROS);
    LeadFollows(f, lead);
    LeadWire(true, lead);
    TearBytes(true, mask, f, k, lead);
    HeadKept(true, mask, f, k, Tear(true, mask, f, k, lead.Masks(), lead.Frames()));
    MaskTorn(mask, f, k, lead);
    hide ByteAt;
    ShowByte(true, mask, f, k, lead, width, |f.payload|, 0);
  }

  /** The first byte of the chunk that comes out: a mask byte of the later frame, or its length, under a mask byte. */
  lemma MaskTorn(mask: Mask, f: Frame, k: nat, lead: Lead)
    requires Sendable(f) && lead.Control() && lead.opcode == PING && AllSendable(lead.Frames())
    requires 2 + |Extended(|f.payload|)| <= k < 6 + |Extended(|f.payload|)| && k < FrameSize(true, f)
    ensures var width := |Extended(|f.payload|)|; var j := k - (2 + width);
            var input := Tear(true, mask, f, k, lead.Masks(), lead.Frames());
            |input| > 6 + width
            && ByteAt(true, input, width, 0) == Xor(if j == 3 then 128 + |lead.payload| else lead.mask[2 - j], if j == 0 then 137 else mask[0])
  {
    hide EncodeAll, Lead.Frames, Tear, Value, Xor, Extended;
    var width := |Extended(|f.payload|)|;
    var j := k - (2 + width);
    MaskBytes(mask, f);
    LeadWire(true, lead);
    TearBytes(true, mask, f, k, lead);
    hide Encode;
    var input, w := Tear(true, mask, f, k, lead.Masks(), lead.Frames()), EncodeAll(true, lead.Masks(), 0, lead.Frames());
    assert input[2 + width] == if j == 0 then 137 else mask[0];
    assert input[6 + width] == w[4 - j];
    if j < 3 {
      assert w[4 - j] == w[2..6][2 - j] == lead.mask[2 - j];
    }
  }

  lemma FirstTwo(client: bool, mask: Mask, f: Frame)
    requires Acceptable(f) && f.opcode == BINARY
    ensures var all := Encode(client, mask, f);
            |all| >= 2 && all[0] == 130 && (all[1] >= 128) == client && ExtendedWidth(all[1]) == |Extended(|f.payload|)|
  {
    hide Masked, Extended;
    EncodeHead(client, mask, f);
    HeadFlags(client, BINARY, |f.payload|);
  }

  /** In the client's role a chunk torn after its first byte takes a later first byte for its length. */
  lemma TornFirst(mask: Mask, f: Frame) returns (lead: Lead)
    requires Bridged(f) && f.opcode == BINARY && Sendable(f)
    ensures lead.Control() && Harmed(true, mask, f, 1, lead.Masks(), lead.Frames())
  {
    assert f.payload != [] && Acceptable(f);
    hide EncodeAll, Lead.Frames, Tear, Harmed, Value, Xor, Encode, ByteAt, Bridged;
    XorApart(0, 1, 128);
    lead := Lead(PING, [], if Xor(0, 128) == f.payload[0] then ONES else ZEROS);
    LeadFollows(f, lead);
    FirstTornByte(mask, f, lead);
    ShowByte(true, mask, f, 1, lead, 0, 9, 0);
  }

  lemma FirstTornByte(mask: Mask, f: Frame, lead: Lead)
    requires Acceptable(f) && f.opcode == BINARY && Sendable(f) && lead.Control() && lead.opcode == PING && AllSendable(lead.Frames())
    ensures 1 < FrameSize(true, f)
    ensures var input := Tear(true, mask, f, 1, lead.Masks(), lead.Frames());
            |input| >= 80000 && input[0] == 130 && input[1] == 137 && ByteAt(true, input, 0, 0) == Xor(lead.mask[3], 128 + |lead.payload|)
  {
    hide EncodeAll, Lead.Frames, Tear, Value, Xor;
    LeadWire(true, lead);
    TearBytes(true, mask, f, 1, lead);
    FirstTwo(true, mask, f);
    hide Encode;
    var w := EncodeAll(true, lead.Masks(), 0, lead.Frames());
    assert w[5] == w[2..6][3] == lead.mask[3];
  }

  /** Torn within a two-byte length, which later bytes complete. */
  lemma TornLength(client: bool, mask: Mask, f: Frame, k: nat) returns (lead: Lead)
    requires Bridged(f) && f.opcode == BINARY && Sendable(f) && 126 <= |f.payload| < 65536 && 2 <= k <= 3
    ensures k < FrameSize(client, f) && lead.Control() && Harmed(client, mask, f, k, lead.Masks(), lead.Frames())
  {
    hide EncodeAll, Lead.Frames, Tear, Harmed, Value, Xor, BigEndian, Encode, ByteAt;
    XorApart(0, 1, 128);
    var v: Byte := if f.payload[0] == 0 then 1 else 0;
    lead := if k == 2 then Lead(PING, [v], ZEROS)
    else if !client then Lead(PING, if v == 1 then [0] else [], ZEROS)
    else Lead(PING, [], if Xor(0, 128) == f.payload[0] then ONES else ZEROS);
    LeadFollows(f, lead);
    LengthTornByte(client, mask, f, k, lead);
    ShowByte(client, mask, f, k, lead, 2, Value(Tear(client, mask, f, k, lead.Masks(), lead.Frames())[2..4]), 0);
  }

  /** The first byte of the chunk that comes out: payload of the later frame, or its length, or its mask under its length. */
  lemma LengthTornByte(client: bool, mask: Mask, f: Frame, k: nat, lead: Lead)
    requires Acceptable(f) && f.opcode == BINARY && Sendable(f) && 126 <= |f.payload| < 65536 && 2 <= k <= 3
    requires lead.Control() && lead.opcode == PING && AllSendable(lead.Frames()) && (k == 2 ==> lead.payload != [])
    ensures k < FrameSize(client, f)
    ensures var input := Tear(client, mask, f, k, lead.Masks(), lead.Frames());
            && |input| >= 80000 && input[0] == 130 && (input[1] >= 128) == client && ExtendedWidth(input[1]) == 2
            && 1 <= Value(input[2..4]) <= 65536
            && ByteAt(client, input, 2, 0)
               == if k == 2 then lead.payload[0] else if client then Xor(lead.mask[3], 128 + |lead.payload|) else |lead.payload|
  {
    hide EncodeAll, Lead.Frames, Tear, Value, Xor, BigEndian;
    LeadWire(client, lead);
    TearBytes(client, mask, f, k, lead);
    FirstTwo(client, mask, f);
    hide Encode;
    var w := EncodeAll(client, lead.Masks(), 0, lead.Frames());
    var input := Tear(client, mask, f, k, lead.Masks(), lead.Frames());
    Value2(input[2..4]);
    if client {
      assert w[2] == w[2..6][0] == lead.mask[0];
      assert w[5] == w[2..6][3] == lead.mask[3];
      if k == 2 {
        assert w[6 + 0] == Xor(lead.payload[0], lead.mask[0 % 4]);
        XorBack(lead.payload[0], lead.mask[0]);
      }
    } else if k == 2 {
      assert w[2 + 0] == lead.payload[0];
    }
  }

  lemma XorBack(v: Byte, m: Byte)
    ensures Xor(Xor(v, m), m) == v
  {
    assert Power(2, 8) == 256;
    XorTwice(v, m, 8);
  }

  lemma HarmfulChunk(client: bool, mask: Mask, f: Frame, k: nat) returns (masks: nat -> Mask, frames: seq<Frame>)
    requires Bridged(f) && f.opcode == BINARY && Sendable(f) && Hazard(client, f, k)
    ensures Harmed(client, mask, f, k, masks, frames)
  {
    hide Harmed, Lead.Frames, BigEndian;
    var lead;
    if k == 1 {
      lead := TornFirst(mask, f);
    } else if k < 2 + |Extended(|f.payload|)| {
      lead := TornLength(client, mask, f, k);
    } else if client && k < 6 + |Extended(|f.payload|)| {
      lead := TornMask(mask, f, k);
    } else {
      lead := TornPayload(client, mask, f, k);
    }
    masks, frames := lead.Masks(), lead.Frames();
  }

  // ---- The exact condition ----

  /** A tear can do harm exactly if it is a hazard: some frames, masked somehow, then make the receiver bridge bytes that
      were never read or skip some; otherwise none do, whatever the masks. */
  lemma TearExactly(client: bool, mask: Mask, f: Frame, k: nat)
    requires Bridged(f) && Sendable(f) && k < FrameSize(client, f)
    ensures Hazard(client, f, k) <==> exists masks: nat -> Mask, frames :: Harmed(client, mask, f, k, masks, frames)
  {
    hide Harmed, Bridged, Hazard;
    if Hazard(client, f, k) {
      var masks, frames;
      if f.opcode == BINARY {
        masks, frames := HarmfulChunk(client, mask, f, k);
      } else {
        masks, frames := HarmfulControl(client, mask, f, k);
      }
      assert Harmed(client, mask, f, k, masks, frames);
    } else {
      forall masks: nat -> Mask, frames ensures !Harmed(client, mask, f, k, masks, frames) {
        NoHarm(client, mask, f, k, masks, frames);
      }
    }
  }

  /** A frame of which nothing went out is simply missing; behind any other harmless tear nothing comes out. */
  lemma NoHarm(client: bool, mask: Mask, f: Frame, k: nat, masks: nat -> Mask, frames: seq<Frame>)
    requires Bridged(f) && Sendable(f) && k < FrameSize(client, f) && !Hazard(client, f, k)
    ensures !Harmed(client, mask, f, k, masks, frames)
  {
    hide Received, Written, Data, EncodeAll, Hazard;
    if Follows(f, frames) {
      var wire := Tear(client, mask, f, k, masks, frames);
      assert AllSendable(frames);
      if k == 0 {
        Unsent(client, masks, 0, f, frames);
        WrittenPrefix(Data(frames), Data([f] + frames));
        assert wire == EncodeAll(client, masks, 0, frames);
      } else {
        HarmlessTear(client, mask, f, k, masks, frames);
        NothingWritten();
      }
    }
  }

  lemma NothingWritten()
    ensures Written([]) == []
  {
  }

  lemma Unsent(client: bool, masks: nat -> Mask, drawn: nat, f: Frame, frames: seq<Frame>)
    requires Bridged(f) && Follows(f, frames) && AllSendable(frames)
    ensures Received(!client, EncodeAll(client, masks, drawn, frames)) == Data(frames)
    ensures Data(frames) <= Data([f] + frames)
  {
    FollowsOpen(f, frames);
    hide Received, EncodeAll, Follows;
    var wire := EncodeAll(client, masks, drawn, frames);
    assert wire + [] == wire;
    Conversation(client, masks, drawn, frames, []);
    NothingReceived(!client);
    assert Data(frames) + [] == Data(frames);
    DataJoin([f], frames);
    if f.opcode == BINARY {
      NoData(frames);
    } else {
      NotData(f, frames);
    }
  }

  lemma NotData(f: Frame, frames: seq<Frame>)
    ensures Data(frames) == [] || f.opcode in {PING, PONG} ==> Data(frames) <= Data([f] + frames)
  {
    DataJoin([f], frames);
    assert Data([f]) == DataOf(f) + Data([]);
    assert [] + Data(frames) == Data(frames);
  }

  lemma FollowsOpen(f: Frame, frames: seq<Frame>)
    requires Follows(f, frames)
    ensures Open(frames) && (f.opcode == BINARY ==> forall i :: 0 <= i < |frames| ==> frames[i].opcode in {PING, PONG})
  {
  }

  // ---- End to end ----

  /** At most one write failed, and it was the last one or its tear is no hazard. */
  predicate Safe(client: bool, attempts: seq<Attempt>) {
    forall i :: 0 <= i < |attempts| && !Whole(client, attempts[i]) ==>
      && (forall j :: 0 <= j < |attempts| && j != i ==> Whole(client, attempts[j]))
      && (i + 1 == |attempts| || !Hazard(client, attempts[i].frame, attempts[i].room))
  }

  /** What the receiver makes of a torn frame and the frames behind it. */
  lemma Resumed(client: bool, masks: nat -> Mask, drawn: nat, t: Attempt, frames: seq<Frame>)
    requires Bridged(t.frame) && Sendable(t.frame) && !Whole(client, t) && Follows(t.frame, frames) && AllSendable(frames)
    requires frames == [] || !Hazard(client, t.frame, t.room)
    ensures Received(!client, Piece(client, masks(drawn), t) + EncodeAll(client, masks, drawn + 1, frames)) <= Data([t.frame] + frames)
  {
    hide Encode, EncodeAll, Received, Hazard, FrameSize, Data, Bridged, Follows, Piece;
    if frames == [] {
      Unfinished(client, masks(drawn), t);
      NothingEncoded(client, masks, drawn + 1);
      assert Piece(client, masks(drawn), t) + [] == Piece(client, masks(drawn), t);
    } else if t.room == 0 {
      PieceOf(client, masks(drawn), t);
      assert Piece(client, masks(drawn), t) + EncodeAll(client, masks, drawn + 1, frames) == EncodeAll(client, masks, drawn + 1, frames);
      Unsent(client, masks, drawn + 1, t.frame, frames);
    } else {
      PieceOf(client, masks(drawn), t);
      FirstBytes(client, masks, drawn + 1, frames);
      assert Sendable(frames[0]);
      Silent(client, masks(drawn), t.frame, t.room, EncodeAll(client, masks, drawn + 1, frames));
    }
  }

  lemma PieceOf(client: bool, mask: Mask, t: Attempt)
    requires Sendable(t.frame) && !Whole(client, t)
    ensures t.room < |Encode(client, mask, t.frame)| == FrameSize(client, t.frame) && Piece(client, mask, t) == Encode(client, mask, t.frame)[..t.room]
  {
    hide Encode;
    EncodeSize(client, mask, t.frame);
  }

  lemma Unfinished(client: bool, mask: Mask, t: Attempt)
    requires Bridged(t.frame) && Sendable(t.frame) && !Whole(client, t)
    ensures Received(!client, Piece(client, mask, t)) == []
  {
    hide Encode, Received;
    PieceOf(client, mask, t);
    CutReceived(client, mask, t.frame, t.room);
  }

  /** What a safe run of writes makes the receiver see is a prefix of the data handed to the socket. */
  lemma SafeReceived(client: bool, masks: nat -> Mask, drawn: nat, attempts: seq<Attempt>, chunks: seq<Bytes>, handed: nat)
    requires Carries(client, attempts, chunks, handed) && Safe(client, attempts) && AllSendable(FramesOf(attempts))
    ensures Received(!client, Wire(client, masks, drawn, attempts)) <= Data(FramesOf(attempts))
    ensures AllWhole(client, attempts) ==> Received(!client, Wire(client, masks, drawn, attempts)) == Data(FramesOf(attempts))
  {
    hide Received, Data, Whole, Wire, Carries, Safe, Hazard, Bridged, FramesOf, AllSendable, Follows;
    if AllWhole(client, attempts) {
      CarriesBridged(client, attempts, chunks, handed);
      WholeReceived(client, masks, drawn, attempts, []);
      NothingReceived(!client);
      assert Wire(client, masks, drawn, attempts) + [] == Wire(client, masks, drawn, attempts);
      assert Data(FramesOf(attempts)) + [] == Data(FramesOf(attempts));
    } else {
      var p :| 0 <= p < |attempts| && !Whole(client, attempts[p]);
      var a, t, b := attempts[..p], attempts[p], attempts[p + 1..];
      assert attempts == a + ([t] + b);
      TornApart(client, a, t, b, chunks, handed);
      TornReceived(client, masks, drawn, a, t, b);
    }
  }

  lemma CarriesBridged(client: bool, attempts: seq<Attempt>, chunks: seq<Bytes>, handed: nat)
    requires Carries(client, attempts, chunks, handed)
    ensures Follows(Frame(PING, []), FramesOf(attempts))
  {
  }

  lemma TornApart(client: bool, a: seq<Attempt>, t: Attempt, b: seq<Attempt>, chunks: seq<Bytes>, handed: nat)
    requires Carries(client, a + ([t] + b), chunks, handed) && Safe(client, a + ([t] + b)) && !Whole(client, t)
    ensures AllWhole(client, a) && AllWhole(client, b) && (b == [] || !Hazard(client, t.frame, t.room))
    ensures Follows(Frame(PING, []), FramesOf(a)) && Follows(t.frame, FramesOf(b)) && Bridged(t.frame) && Sendable(t.frame)
  {
    hide Whole, Hazard, Bridged, Carries, Safe, AllWhole, Follows, FramesOf;
    var all := a + ([t] + b);
    assert all[|a|] == t;
    assert forall i :: 0 <= i < |a| ==> all[i] == a[i];
    assert forall i :: 0 <= i < |b| ==> all[|a| + 1 + i] == b[i];
    SafeApart(client, all, a, t, b);
    CarriesApart(client, all, a, t, b, chunks, handed);
  }

  lemma SafeApart(client: bool, all: seq<Attempt>, a: seq<Attempt>, t: Attempt, b: seq<Attempt>)
    requires Safe(client, all) && !Whole(client, t)
    requires |all| == |a| + 1 + |b| && all[|a|] == t
    requires (forall i :: 0 <= i < |a| ==> all[i] == a[i]) && forall i :: 0 <= i < |b| ==> all[|a| + 1 + i] == b[i]
    ensures AllWhole(client, a) && AllWhole(client, b) && (b == [] || !Hazard(client, t.frame, t.room))
  {
    hide Whole, Hazard;
  }

  lemma CarriesApart(client: bool, all: seq<Attempt>, a: seq<Attempt>, t: Attempt, b: seq<Attempt>, chunks: seq<Bytes>, handed: nat)
    requires Carries(client, all, chunks, handed) && !Whole(client, t)
    requires |all| == |a| + 1 + |b| && all[|a|] == t
    requires (forall i :: 0 <= i < |a| ==> all[i] == a[i]) && forall i :: 0 <= i < |b| ==> all[|a| + 1 + i] == b[i]
    ensures Follows(Frame(PING, []), FramesOf(a)) && Follows(t.frame, FramesOf(b)) && Bridged(t.frame) && Sendable(t.frame)
  {
    hide Whole, Bridged, Data, Binary, Sendable;
    forall i | 0 <= i < |b| ensures Bridged(b[i].frame) && Sendable(b[i].frame) && (t.frame.opcode == BINARY ==> b[i].frame.opcode != BINARY) {
      assert all[|a| + 1 + i] == b[i];
    }
    forall i | 0 <= i < |a| ensures Bridged(a[i].frame) && Sendable(a[i].frame) {
      assert all[i] == a[i];
    }
  }

  /** The same around the one torn frame. */
  lemma TornReceived(client: bool, masks: nat -> Mask, drawn: nat, a: seq<Attempt>, t: Attempt, b: seq<Attempt>)
    requires AllWhole(client, a) && !Whole(client, t) && AllWhole(client, b)
    requires Follows(Frame(PING, []), FramesOf(a)) && Follows(t.frame, FramesOf(b))
    requires Bridged(t.frame) && Sendable(t.frame) && (b == [] || !Hazard(client, t.frame, t.room))
    ensures AllSendable(FramesOf(a + ([t] + b)))
    ensures Received(!client, Wire(client, masks, drawn, a + ([t] + b))) <= Data(FramesOf(a + ([t] + b)))
  {
    hide Received, Data, EncodeAll, Hazard, Bridged, Whole, Wire, Piece;
    assert FramesOf([t]) == [t.frame];
    WireOne(client, masks, drawn + |a|, t);
    WireJoin(client, masks, drawn + |a|, [t], b);
    WireJoin(client, masks, drawn, a, [t] + b);
    WireWhole(client, masks, drawn + |a| + 1, b);
    Resumed(client, masks, drawn + |a|, t, FramesOf(b));
    hide FramesOf;
    WholeReceived(client, masks, drawn, a, Wire(client, masks, drawn + |a|, [t] + b));
    DataJoin(FramesOf(a), FramesOf([t] + b));
  }

  lemma WholeReceived(client: bool, masks: nat -> Mask, drawn: nat, attempts: seq<Attempt>, tail: Bytes)
    requires AllSendable(FramesOf(attempts)) && AllWhole(client, attempts)
    requires Follows(Frame(PING, []), FramesOf(attempts))
    ensures Received(!client, Wire(client, masks, drawn, attempts) + tail) == Data(FramesOf(attempts)) + Received(!client, tail)
  {
    hide Received, Data, EncodeAll, Wire;
    WireWhole(client, masks, drawn, attempts);
    Conversation(client, masks, drawn, FramesOf(attempts), tail);
  }

  /** End to end: one side read chunks from its TCP connection and wrote them as frames, among the pings and pongs of
      its other threads; the other side has received any `n` bytes of that. After a safe run of writes what it writes to
      its TCP connection is a prefix of what was read, and all of it once every write went out whole and arrived. */
  lemma BridgePrefix(client: bool, masks: nat -> Mask, drawn: nat, attempts: seq<Attempt>, chunks: seq<Bytes>, handed: nat, n: nat)
    requires Carries(client, attempts, chunks, handed) && Safe(client, attempts) && AllSendable(FramesOf(attempts))
    requires n <= |Wire(client, masks, drawn, attempts)|
    ensures var wire := Wire(client, masks, drawn, attempts);
            && Written(Received(!client, wire[..n])) <= Flatten(chunks)
            && (AllWhole(client, attempts) && n == |wire| ==> Written(Received(!client, wire[..n])) == Flatten(chunks[..handed]))
  {
    hide Received, Data, Written, Wire, Safe, AllWhole, Flatten, AllSendable;
    var wire := Wire(client, masks, drawn, attempts);
    SafeReceived(client, masks, drawn, attempts, chunks, handed);
    ReceivedPrefix(!client, wire[..n], wire);
    WrittenPrefix(Received(!client, wire[..n]), Data(FramesOf(attempts)));
    WrittenBinary(chunks[..handed]);
    FlattenPrefix(chunks, handed);
    assert n == |wire| ==> wire[..n] == wire;
  }

  lemma NoneTorn(client: bool, attempts: seq<Attempt>)
    requires AllWhole(client, attempts)
    ensures Safe(client, attempts) && ChunksWhole(client, attempts)
  {
  }

  /** Both ends of one direction of the bridge; `arrived` bytes get across. */
  method Bridge(client: bool, masks: nat -> Mask, chunks: seq<Bytes>, arrived: nat)
    returns (written: Bytes, interrupted: bool, sent: nat, ghost handed: nat, ghost attempts: seq<Attempt>)
    requires forall i :: 0 <= i < |chunks| ==> |chunks[i]| <= 32768
    ensures Carries(client, attempts, chunks, handed) && sent <= handed <= sent + 1 && AllSendable(FramesOf(attempts))
    ensures sent <= |chunks|
    ensures Safe(client, attempts) ==> written <= Flatten(chunks)
    ensures AllWhole(client, attempts) && arrived >= |Wire(client, masks, 0, attempts)| && !interrupted ==> written == Flatten(chunks[..sent])
  {
    hide Received, Written, Wire, Safe, Flatten, AllSendable, Carries, AllWhole, ChunksWhole;
    var sender := new WebSocket(client, masks, []);
    sent, handed, attempts := sender.Upload(chunks);
    var n := if arrived < |sender.output| then arrived else |sender.output|;
    var receiver := new WebSocket(!client, masks, sender.output[..n]);
    written, interrupted := receiver.Download();
    ghost var wire := Wire(client, masks, 0, attempts);
    assert sender.output == wire;
    if AllWhole(client, attempts) {
      NoneTorn(client, attempts);
    }
    if Safe(client, attempts) {
      BridgePrefix(client, masks, 0, attempts, chunks, handed, n);
    }
  }

  /** A heartbeat torn after two bytes, then the data 130, 1, 7: the receiver bridges a byte that was never read first. */
  lemma TornWriteCorrupts(mask: Mask)
    ensures var ping, data := Encode(false, mask, Frame(PING, [97, 103])), Encode(false, mask, Frame(BINARY, [130, 1, 7]));
            Written(Received(true, ping[..2] + data)) == [7]
  {
    var ping, data := Encode(false, mask, Frame(PING, [97, 103])), Encode(false, mask, Frame(BINARY, [130, 1, 7]));
    TornParse(ping[..2] + data);
    NothingReceived(true);
    assert Received(true, [130, 1, 7]) == DataOf(Frame(BINARY, [7]));
    assert Received(true, ping[..2] + data) == DataOf(Frame(BINARY, [7]));
    assert Written([Frame(BINARY, [7])]) == [7];
  }

  lemma TornParse(wire: Bytes)
    requires wire == [137, 2, 130, 3, 130, 1, 7]
    ensures Parse(true, wire) == Got(Frame(PING, [130, 3]), [130, 1, 7])
    ensures Parse(true, [130, 1, 7]) == Got(Frame(BINARY, [7]), [])
  {
    assert wire[2..][..2] == [130, 3] && wire[2..][2..] == [130, 1, 7];
    var rest: Bytes := [130, 1, 7];
    assert rest[2..][..1] == [7] && rest[2..][1..] == [];
  }

  /** The same as a run of the two ends: the heartbeat's write fails behind its header, and before it has closed the
      connection the upload gets its chunk through. */
  method TornRun() returns (written: Bytes, interrupted: bool, ghost attempts: seq<Attempt>)
    ensures attempts == [Attempt(Frame(PING, [97, 103]), 2), Attempt(Frame(BINARY, [130, 1, 7]), 100)]
    ensures Carries(false, attempts, [[130, 1, 7]], 1) && !Safe(false, attempts)
    ensures !interrupted ==> written == [7]
  {
    hide Encode, Parse, Received, Written, Carries;
    var ping, data := Frame(PING, [97, 103]), Frame(BINARY, [130, 1, 7]);
    EncodeSize(false, ZEROS, ping);
    EncodeSize(false, ZEROS, data);
    var sender := new WebSocket(false, Same(ZEROS), []);
    var ok := sender.Send(ping.payload, PING, 2);
    ok := sender.Send(data.payload, BINARY, 100);
    var wire := Encode(false, ZEROS, ping)[..2] + Encode(false, ZEROS, data);
    assert sender.output == wire;
    TornWriteCorrupts(ZEROS);
    var receiver := new WebSocket(true, Same(ZEROS), wire);
    written, interrupted := receiver.Download();
    attempts := [Attempt(ping, 2), Attempt(data, 100)];
    var chunks: seq<Bytes> := [[130, 1, 7]];
    NothingCarried(false, chunks);
    CarriesControls(false, [], chunks, 0, [Attempt(ping, 2)]);
    assert [] + [Attempt(ping, 2)] == [Attempt(ping, 2)];
    CarriesChunk(false, [Attempt(ping, 2)], chunks, 0, Attempt(data, 100));
    assert [Attempt(ping, 2)] + [Attempt(data, 100)] == attempts;
    assert !Whole(false, attempts[0]) && Hazard(false, attempts[0].frame, attempts[0].room);
  }
}
