/** One tunnel connection: the WebSocket object, its receive loop, and the two loops of the byte bridge. */
module Tunnel {
  import opened Text
  import opened Frames

  // ---- Streams of frames ----

  predicate AllSendable(frames: seq<Frame>) {
    forall i :: 0 <= i < |frames| ==> Sendable(frames[i])
  }

  /** Frames put on the wire one after another; the mask of each is drawn at random, here a stream of draws. */
  function EncodeAll(client: bool, masks: nat -> Mask, drawn: nat, frames: seq<Frame>): Bytes
    requires AllSendable(frames)
    decreases |frames|
  {
    if frames == [] then [] else Encode(client, masks(drawn), frames[0]) + EncodeAll(client, masks, drawn + 1, frames[1..])
  }

  /** What a frame gives the receiver's caller, and what it makes the receiver send back. */
  function DataOf(f: Frame): seq<Frame> {
    if f.opcode in {PING, PONG} then [] else [f]
  }

  function EchoOf(f: Frame): seq<Frame> {
    if f.opcode == PING then [Frame(PONG, f.payload)] else []
  }

  /** The frames a receiver hands to its caller, up to whatever ends the stream. */
  function Received(client: bool, input: Bytes): seq<Frame>
    decreases |input|
  {
    var p := Parse(client, input);
    if !p.Got? || p.frame.opcode == CLOSE then []
    else
      ParseConsumes(client, input);
      DataOf(p.frame) + Received(client, p.rest)
  }

  /** The frames a receiver sends back meanwhile. */
  function Echoes(client: bool, input: Bytes): seq<Frame>
    decreases |input|
  {
    var p := Parse(client, input);
    if !p.Got? || p.frame.opcode == CLOSE then []
    else
      ParseConsumes(client, input);
      EchoOf(p.frame) + Echoes(client, p.rest)
  }

  function Data(frames: seq<Frame>): seq<Frame> {
    if frames == [] then [] else DataOf(frames[0]) + Data(frames[1..])
  }

  function Pongs(frames: seq<Frame>): seq<Frame> {
    if frames == [] then [] else EchoOf(frames[0]) + Pongs(frames[1..])
  }

  /** Frames an open connection carries: all acceptable, none of them a close. */
  predicate Open(frames: seq<Frame>) {
    forall i :: 0 <= i < |frames| ==> Acceptable(frames[i]) && frames[i].opcode != CLOSE
  }

  lemma FirstReceived(client: bool, mask: Mask, f: Frame, rest: Bytes)
    requires Acceptable(f) && f.opcode != CLOSE
    ensures Received(!client, Encode(client, mask, f) + rest) == DataOf(f) + Received(!client, rest)
    ensures Echoes(!client, Encode(client, mask, f) + rest) == EchoOf(f) + Echoes(!client, rest)
  {
    hide Encode, Parse;
    RoundTrip(client, mask, f, rest);
  }

  /** Whatever pings and pongs are interleaved, the receiver yields exactly the data frames in order, echoes
      exactly the pings in order, and is then ready for what follows. */
  lemma Conversation(client: bool, masks: nat -> Mask, drawn: nat, frames: seq<Frame>, tail: Bytes)
    requires Open(frames)
    ensures Received(!client, EncodeAll(client, masks, drawn, frames) + tail) == Data(frames) + Received(!client, tail)
    ensures Echoes(!client, EncodeAll(client, masks, drawn, frames) + tail) == Pongs(frames) + Echoes(!client, tail)
  {
    ConversationData(client, masks, drawn, frames, tail);
    ConversationEchoes(client, masks, drawn, frames, tail);
  }

  lemma {:induction false} ConversationData(client: bool, masks: nat -> Mask, drawn: nat, frames: seq<Frame>, tail: Bytes)
    requires Open(frames)
    ensures Received(!client, EncodeAll(client, masks, drawn, frames) + tail) == Data(frames) + Received(!client, tail)
    decreases |frames|
  {
    hide Encode, Parse, Received, Echoes, DataOf, EchoOf;
    var wire := EncodeAll(client, masks, drawn, frames);
    if frames == [] {
      assert wire + tail == tail;
    } else {
      var first, after := Encode(client, masks(drawn), frames[0]), EncodeAll(client, masks, drawn + 1, frames[1..]);
      FirstReceived(client, masks(drawn), frames[0], after + tail);
      assert wire + tail == first + (after + tail);
      ConversationData(client, masks, drawn + 1, frames[1..], tail);
    }
  }

  lemma {:induction false} ConversationEchoes(client: bool, masks: nat -> Mask, drawn: nat, frames: seq<Frame>, tail: Bytes)
    requires Open(frames)
    ensures Echoes(!client, EncodeAll(client, masks, drawn, frames) + tail) == Pongs(frames) + Echoes(!client, tail)
    decreases |frames|
  {
    hide Encode, Parse, Received, Echoes, DataOf, EchoOf;
    var wire := EncodeAll(client, masks, drawn, frames);
    if frames == [] {
      assert wire + tail == tail;
    } else {
      var first, after := Encode(client, masks(drawn), frames[0]), EncodeAll(client, masks, drawn + 1, frames[1..]);
      FirstReceived(client, masks(drawn), frames[0], after + tail);
      assert wire + tail == first + (after + tail);
      ConversationEchoes(client, masks, drawn + 1, frames[1..], tail);
    }
  }

  lemma CutReceived(client: bool, mask: Mask, f: Frame, k: nat)
    requires Acceptable(f) && k < |Encode(client, mask, f)|
    ensures Received(!client, Encode(client, mask, f)[..k]) == [] && Echoes(!client, Encode(client, mask, f)[..k]) == []
  {
    CutFrame(client, mask, f, k);
  }

  /** A stream cut anywhere, even inside a frame, yields and echoes a prefix of what the whole would. */
  lemma {:induction false} Truncation(client: bool, masks: nat -> Mask, drawn: nat, frames: seq<Frame>, k: nat)
    requires Open(frames) && k <= |EncodeAll(client, masks, drawn, frames)|
    ensures Received(!client, EncodeAll(client, masks, drawn, frames)[..k]) <= Data(frames)
    ensures Echoes(!client, EncodeAll(client, masks, drawn, frames)[..k]) <= Pongs(frames)
    decreases |frames|
  {
    if frames == [] {
      NothingReceived(!client);
    } else {
      hide Encode, Parse, Received, Echoes, DataOf, EchoOf, Acceptable;
      var first := Encode(client, masks(drawn), frames[0]);
      var after := EncodeAll(client, masks, drawn + 1, frames[1..]);
      var cut := EncodeAll(client, masks, drawn, frames)[..k];
      if k < |first| {
        assert cut == first[..k];
        CutReceived(client, masks(drawn), frames[0], k);
      } else {
        assert cut == first + after[..k - |first|];
        FirstReceived(client, masks(drawn), frames[0], after[..k - |first|]);
        Truncation(client, masks, drawn + 1, frames[1..], k - |first|);
      }
    }
  }

  lemma ParsePrefix(client: bool, a: Bytes, b: Bytes)
    requires a <= b && Parse(client, a).Got?
    ensures Parse(client, b).Got? && Parse(client, b).frame == Parse(client, a).frame && Parse(client, a).rest <= Parse(client, b).rest
  {
    hide Value, Body;
    var width := ExtendedWidth(a[1]);
    assert a[0] == b[0] && a[1] == b[1];
    assert a[2..2 + width] == b[2..2 + width];
    var size := if width == 0 then a[1] % 128 else Value(a[2..2 + width]);
    assert a[2 + width..] <= b[2 + width..];
    BodyPrefix(a[0] % 16, size, a[1] >= 128, a[2 + width..], b[2 + width..]);
  }

  lemma BodyPrefix(opcode: nat, size: nat, masked: bool, a: Bytes, b: Bytes)
    requires a <= b && Body(opcode, size, masked, a).Got?
    ensures var p, q := Body(opcode, size, masked, a), Body(opcode, size, masked, b);
            q.Got? && q.frame == p.frame && p.rest <= q.rest
  {
    hide Masked;
    if masked {
      assert a[4..4 + size] == b[4..4 + size] && a[..4] == b[..4];
    } else {
      assert a[..size] == b[..size];
    }
  }

  /** More input never takes back what was received. */
  lemma {:induction false} ReceivedPrefix(client: bool, a: Bytes, b: Bytes)
    requires a <= b
    ensures Received(client, a) <= Received(client, b)
    decreases |a|
  {
    hide Parse, DataOf;
    var p := Parse(client, a);
    if p.Got? && p.frame.opcode != CLOSE {
      ParseConsumes(client, a);
      ParsePrefix(client, a, b);
      ReceivedPrefix(client, p.rest, Parse(client, b).rest);
    }
  }

  // ---- What goes out when writes can fail ----

  /** A frame handed to the socket, and how many of its bytes the connection takes before it fails. */
  datatype Attempt = Attempt(frame: Frame, room: nat)

  function FrameSize(client: bool, f: Frame): nat {
    2 + |Extended(|f.payload|)| + (if client then 4 else 0) + |f.payload|
  }

  predicate Whole(client: bool, a: Attempt) {
    FrameSize(client, a.frame) <= a.room
  }

  predicate AllWhole(client: bool, attempts: seq<Attempt>) {
    forall i :: 0 <= i < |attempts| ==> Whole(client, attempts[i])
  }

  function FramesOf(attempts: seq<Attempt>): (r: seq<Frame>)
    ensures |r| == |attempts| && forall i :: 0 <= i < |r| ==> r[i] == attempts[i].frame
  {
    seq(|attempts|, i requires 0 <= i < |attempts| => attempts[i].frame)
  }

  function Piece(client: bool, mask: Mask, a: Attempt): Bytes
    requires Sendable(a.frame)
  {
    var all := Encode(client, mask, a.frame);
    if a.room < |all| then all[..a.room] else all
  }

  /** The bytes of a run of attempts; the socket's lock keeps them apart. */
  function Wire(client: bool, masks: nat -> Mask, drawn: nat, attempts: seq<Attempt>): Bytes
    requires AllSendable(FramesOf(attempts))
    decreases |attempts|
  {
    if attempts == [] then []
    else
      assert FramesOf(attempts)[1..] == FramesOf(attempts[1..]);
      Piece(client, masks(drawn), attempts[0]) + Wire(client, masks, drawn + 1, attempts[1..])
  }

  lemma EncodeSize(client: bool, mask: Mask, f: Frame)
    requires Sendable(f)
    ensures |Encode(client, mask, f)| == FrameSize(client, f)
  {
  }

  lemma {:induction false} WireJoin(client: bool, masks: nat -> Mask, drawn: nat, a: seq<Attempt>, b: seq<Attempt>)
    requires AllSendable(FramesOf(a)) && AllSendable(FramesOf(b))
    ensures AllSendable(FramesOf(a + b)) && FramesOf(a + b) == FramesOf(a) + FramesOf(b)
    ensures Wire(client, masks, drawn, a + b) == Wire(client, masks, drawn, a) + Wire(client, masks, drawn + |a|, b)
    decreases |a|
  {
    hide Piece;
    assert FramesOf(a + b) == FramesOf(a) + FramesOf(b);
    if a == [] {
      assert a + b == b;
    } else {
      assert (a + b)[1..] == a[1..] + b;
      assert FramesOf(a)[1..] == FramesOf(a[1..]);
      hide FramesOf;
      WireJoin(client, masks, drawn + 1, a[1..], b);
      var first, mid, last := Piece(client, masks(drawn), a[0]), Wire(client, masks, drawn + 1, a[1..]), Wire(client, masks, drawn + |a|, b);
      assert first + (mid + last) == (first + mid) + last;
    }
  }

  lemma WireOne(client: bool, masks: nat -> Mask, drawn: nat, a: Attempt)
    requires Sendable(a.frame)
    ensures AllSendable(FramesOf([a])) && Wire(client, masks, drawn, [a]) == Piece(client, masks(drawn), a)
  {
    hide Piece;
    assert Wire(client, masks, drawn + 1, [a][1..]) == [];
  }

  lemma WireAppend(client: bool, masks: nat -> Mask, drawn: nat, attempts: seq<Attempt>, a: Attempt)
    requires AllSendable(FramesOf(attempts)) && Sendable(a.frame)
    ensures FramesOf(attempts + [a]) == FramesOf(attempts) + [a.frame] && AllSendable(FramesOf(attempts + [a]))
    ensures Wire(client, masks, drawn, attempts + [a]) == Wire(client, masks, drawn, attempts) + Piece(client, masks(drawn + |attempts|), a)
  {
    hide Piece;
    WireOne(client, masks, drawn + |attempts|, a);
    WireJoin(client, masks, drawn, attempts, [a]);
  }

  /** Without a failure the wire carries the frames one after another. */
  lemma {:induction false} WireWhole(client: bool, masks: nat -> Mask, drawn: nat, attempts: seq<Attempt>)
    requires AllSendable(FramesOf(attempts)) && AllWhole(client, attempts)
    ensures Wire(client, masks, drawn, attempts) == EncodeAll(client, masks, drawn, FramesOf(attempts))
    decreases |attempts|
  {
    hide Encode;
    if attempts != [] {
      assert FramesOf(attempts)[1..] == FramesOf(attempts[1..]);
      EncodeSize(client, masks(drawn), attempts[0].frame);
      assert Whole(client, attempts[0]);
      WireWhole(client, masks, drawn + 1, attempts[1..]);
    }
  }

  // ---- One receive call ----

  /** What one `receive` comes to: the frame it returns, the input left, and the pongs it sent. */
  datatype Turn = Turn(got: Option<Frame>, rest: Bytes, pongs: seq<Frame>)

  function Next(client: bool, input: Bytes): Turn
    decreases |input|
  {
    var p := Parse(client, input);
    if !p.Got? || p.frame.opcode == CLOSE then Turn(None, [], [])
    else
      ParseConsumes(client, input);
      if p.frame.opcode !in {PING, PONG} then Turn(Some(p.frame), p.rest, [])
      else
        var t := Next(client, p.rest);
        t.(pongs := EchoOf(p.frame) + t.pongs)
  }

  /** One receive call, frame by frame: it ends at a close or at the end of the input, answers a ping with a pong of its
      payload, skips a pong, and returns any other frame. */
  lemma NextFirst(client: bool, input: Bytes)
    ensures var p, t := Parse(client, input), Next(client, input);
            && (!p.Got? || p.frame.opcode == 8 ==> t == Turn(None, [], []))
            && (p.Got? ==> |p.rest| < |input| && Acceptable(p.frame))
            && (p.Got? && p.frame.opcode == 9 ==>
                  t == Next(client, p.rest).(pongs := [Frame(10, p.frame.payload)] + Next(client, p.rest).pongs))
            && (p.Got? && p.frame.opcode == 10 ==> t == Next(client, p.rest))
            && (p.Got? && p.frame.opcode !in {8, 9, 10} ==> t == Turn(Some(p.frame), p.rest, []))
  {
    hide Parse;
    ParseConsumes(client, input);
    var p := Parse(client, input);
    if p.Got? && p.frame.opcode == PONG {
      assert EchoOf(p.frame) + Next(client, p.rest).pongs == Next(client, p.rest).pongs;
    }
  }

  lemma NothingEncoded(client: bool, masks: nat -> Mask, drawn: nat)
    ensures EncodeAll(client, masks, drawn, []) == []
  {
  }

  lemma ReceivedStep(client: bool, input: Bytes)
    ensures var p := Parse(client, input);
            if !p.Got? || p.frame.opcode == CLOSE then Received(client, input) == [] && Echoes(client, input) == []
            else Received(client, input) == DataOf(p.frame) + Received(client, p.rest)
                 && Echoes(client, input) == EchoOf(p.frame) + Echoes(client, p.rest)
  {
    hide Parse, DataOf, EchoOf;
  }

  /** Receiving a stream is receiving call by call. */
  lemma {:induction false} NextReceives(client: bool, input: Bytes)
    ensures var t := Next(client, input);
            && (t.got.Some? ==> |t.rest| < |input| && t.got.value.opcode in {TEXT, BINARY})
            && Received(client, input) == (if t.got.Some? then [t.got.value] + Received(client, t.rest) else [])
            && Echoes(client, input) == t.pongs + (if t.got.Some? then Echoes(client, t.rest) else [])
            && AllSendable(t.pongs)
    decreases |input|
  {
    hide Parse, Next, Received, Echoes;
    ReceivedStep(client, input);
    NextFirst(client, input);
    var p := Parse(client, input);
    if p.Got? && p.frame.opcode in {PING, PONG} {
      NextReceives(client, p.rest);
      var t := Next(client, p.rest);
      var echoes := if t.got.Some? then Echoes(client, t.rest) else [];
      assert EchoOf(p.frame) + (t.pongs + echoes) == (EchoOf(p.frame) + t.pongs) + echoes;
    }
  }

  // ---- The bytes bridged ----

  /** What the bridge writes out for the frames it receives: it stops at the first that is not binary. */
  function Written(frames: seq<Frame>): Bytes {
    if frames == [] || frames[0].opcode != BINARY then [] else frames[0].payload + Written(frames[1..])
  }

  function Flatten(chunks: seq<Bytes>): Bytes {
    if chunks == [] then [] else chunks[0] + Flatten(chunks[1..])
  }

  function Binary(chunks: seq<Bytes>): (r: seq<Frame>)
    ensures |r| == |chunks|
  {
    seq(|chunks|, i requires 0 <= i < |chunks| => Frame(BINARY, chunks[i]))
  }

  lemma {:induction false} WrittenPrefix(a: seq<Frame>, b: seq<Frame>)
    requires a <= b
    ensures Written(a) <= Written(b)
    decreases |a|
  {
    if a != [] && a[0].opcode == BINARY {
      WrittenPrefix(a[1..], b[1..]);
    }
  }

  /** One received frame's share of what is written. */
  lemma NextWritten(client: bool, input: Bytes)
    ensures var t := Next(client, input);
            && (t.got.Some? && t.got.value.opcode == 2 ==>
                  |t.rest| < |input| && Written(Received(client, input)) == t.got.value.payload + Written(Received(client, t.rest)))
            && (t.got.None? || t.got.value.opcode != 2 ==> Written(Received(client, input)) == [])
  {
    hide Received, Next, Echoes;
    NextReceives(client, input);
  }

  lemma {:induction false} WrittenBinary(chunks: seq<Bytes>)
    ensures Written(Binary(chunks)) == Flatten(chunks)
    ensures forall i :: 0 <= i < |chunks| ==> Binary(chunks)[i] == Frame(2, chunks[i])
    decreases |chunks|
  {
    if chunks != [] {
      WrittenBinary(chunks[1..]);
      assert Binary(chunks)[1..] == Binary(chunks[1..]);
    }
  }

  lemma {:induction false} FlattenPrefix(chunks: seq<Bytes>, n: nat)
    requires n <= |chunks|
    ensures Flatten(chunks[..n]) <= Flatten(chunks)
    decreases n
  {
    if n > 0 {
      FlattenPrefix(chunks[1..], n - 1);
      assert chunks[..n][1..] == chunks[1..][..n - 1];
    }
  }

  lemma NothingReceived(client: bool)
    ensures Received(client, []) == [] && Echoes(client, []) == []
  {
  }

  // ---- What the sending side of a bridge writes ----

  predicate Controls(attempts: seq<Attempt>) {
    forall i :: 0 <= i < |attempts| ==> attempts[i].frame.opcode in {PING, PONG} && |attempts[i].frame.payload| <= MAX_CONTROL
  }

  /** The frames a bridge puts on the wire. */
  predicate Bridged(f: Frame) {
    f.opcode in {BINARY, PING, PONG} && Acceptable(f) && (f.opcode == BINARY ==> f.payload != [])
  }

  /** Only frames of the bridge, and their data are the first `handed` chunks; no chunk follows a torn one. */
  predicate Carries(client: bool, attempts: seq<Attempt>, chunks: seq<Bytes>, handed: nat) {
    && handed <= |chunks| && Data(FramesOf(attempts)) == Binary(chunks[..handed])
    && (forall i :: 0 <= i < |attempts| ==> Bridged(attempts[i].frame) && Sendable(attempts[i].frame))
    && (forall i, j :: 0 <= i < j < |attempts| && attempts[i].frame.opcode == BINARY && !Whole(client, attempts[i]) ==>
          attempts[j].frame.opcode != BINARY)
  }

  predicate ChunksWhole(client: bool, attempts: seq<Attempt>) {
    forall i :: 0 <= i < |attempts| && attempts[i].frame.opcode == BINARY ==> Whole(client, attempts[i])
  }

  /** One turn: control frames, then the chunk, whole exactly if `ok`; or control frames only, and then not `ok`. */
  predicate Turns(client: bool, turn: seq<Attempt>, chunk: Bytes, ok: bool) {
    if turn != [] && turn[|turn| - 1].frame == Frame(BINARY, chunk)
    then Controls(turn[..|turn| - 1]) && ok == Whole(client, turn[|turn| - 1])
    else Controls(turn) && !ok
  }

  lemma {:induction false} DataJoin(a: seq<Frame>, b: seq<Frame>)
    ensures Data(a + b) == Data(a) + Data(b)
    decreases |a|
  {
    if a == [] {
      assert a + b == b;
    } else {
      assert (a + b)[1..] == a[1..] + b;
      DataJoin(a[1..], b);
    }
  }

  lemma {:induction false} PongsJoin(a: seq<Frame>, b: seq<Frame>)
    ensures Pongs(a + b) == Pongs(a) + Pongs(b)
    decreases |a|
  {
    if a == [] {
      assert a + b == b;
    } else {
      assert (a + b)[1..] == a[1..] + b;
      PongsJoin(a[1..], b);
    }
  }

  /** What one more frame is to its receiver: a pong is skipped, a ping answered by a pong, and any other handed on. */
  lemma FrameStep(frames: seq<Frame>, f: Frame)
    ensures Data(frames + [f]) == if f.opcode == 9 || f.opcode == 10 then Data(frames) else Data(frames) + [f]
    ensures Pongs(frames + [f]) == if f.opcode == 9 then Pongs(frames) + [Frame(10, f.payload)] else Pongs(frames)
  {
    DataJoin(frames, [f]);
    PongsJoin(frames, [f]);
    assert [f][1..] == [];
    assert Data([]) == [] && Pongs([]) == [];
  }

  lemma {:induction false} NoData(frames: seq<Frame>)
    requires forall i :: 0 <= i < |frames| ==> frames[i].opcode in {PING, PONG}
    ensures Data(frames) == []
    decreases |frames|
  {
    if frames != [] {
      NoData(frames[1..]);
    }
  }

  lemma NothingWired(client: bool, masks: nat -> Mask, drawn: nat)
    ensures AllSendable(FramesOf([])) && Wire(client, masks, drawn, []) == []
  {
  }

  lemma NothingCarried(client: bool, chunks: seq<Bytes>)
    ensures Carries(client, [], chunks, 0) && ChunksWhole(client, [])
  {
  }

  lemma CarriesControls(client: bool, attempts: seq<Attempt>, chunks: seq<Bytes>, handed: nat, controls: seq<Attempt>)
    requires Carries(client, attempts, chunks, handed) && Controls(controls)
    ensures Carries(client, attempts + controls, chunks, handed)
  {
    hide Whole, Bridged, Data, Binary;
    assert Data(FramesOf(attempts + controls)) == Data(FramesOf(attempts)) by {
      assert FramesOf(attempts + controls) == FramesOf(attempts) + FramesOf(controls);
      DataJoin(FramesOf(attempts), FramesOf(controls));
      NoData(FramesOf(controls));
    }
    forall i | 0 <= i < |controls| ensures Bridged(controls[i].frame) && Sendable(controls[i].frame) {
      ControlBridged(controls[i].frame);
    }
  }

  lemma ChunkBridged(f: Frame)
    requires f.opcode == BINARY && 1 <= |f.payload| <= MAX_FRAME
    ensures Bridged(f) && Sendable(f)
  {
  }

  lemma ControlBridged(f: Frame)
    requires f.opcode in {PING, PONG} && |f.payload| <= MAX_CONTROL
    ensures Bridged(f) && Sendable(f)
  {
  }

  lemma CarriesChunk(client: bool, attempts: seq<Attempt>, chunks: seq<Bytes>, handed: nat, a: Attempt)
    requires Carries(client, attempts, chunks, handed) && handed < |chunks|
    requires a.frame == Frame(BINARY, chunks[handed]) && 1 <= |chunks[handed]| <= MAX_FRAME
    requires ChunksWhole(client, attempts)
    ensures Carries(client, attempts + [a], chunks, handed + 1)
  {
    ChunkData(FramesOf(attempts), chunks, handed);
    assert FramesOf(attempts + [a]) == FramesOf(attempts) + [a.frame];
    ChunkBridged(a.frame);
    hide Whole, Bridged, Data, Binary, FramesOf;
  }

  lemma ChunkData(frames: seq<Frame>, chunks: seq<Bytes>, handed: nat)
    requires handed < |chunks| && Data(frames) == Binary(chunks[..handed])
    ensures Data(frames + [Frame(BINARY, chunks[handed])]) == Binary(chunks[..handed + 1])
  {
    var f := Frame(BINARY, chunks[handed]);
    DataJoin(frames, [f]);
    assert Data([f]) == [f];
    assert Binary(chunks[..handed + 1]) == Binary(chunks[..handed]) + [f];
  }

  lemma ChunksJoin(client: bool, a: seq<Attempt>, b: seq<Attempt>)
    ensures ChunksWhole(client, a + b) <==> ChunksWhole(client, a) && ChunksWhole(client, b)
  {
    hide Whole;
    assert forall i :: 0 <= i < |a| ==> (a + b)[i] == a[i];
    assert forall i :: 0 <= i < |b| ==> (a + b)[|a| + i] == b[i];
  }

  lemma ControlsWhole(client: bool, controls: seq<Attempt>)
    requires Controls(controls)
    ensures ChunksWhole(client, controls)
  {
  }

  lemma TurnWhole(client: bool, turn: seq<Attempt>, chunk: Bytes, ok: bool)
    requires Turns(client, turn, chunk, ok)
    ensures ChunksWhole(client, turn) <==> ok || Controls(turn)
    ensures turn != [] && turn[|turn| - 1].frame == Frame(BINARY, chunk) ==> !Controls(turn)
  {
    if turn != [] && turn[|turn| - 1].frame == Frame(BINARY, chunk) {
      var last := |turn| - 1;
      ControlsWhole(client, turn[..last]);
      ChunksJoin(client, turn[..last], [turn[last]]);
      assert turn == turn[..last] + [turn[last]];
      assert ChunksWhole(client, [turn[last]]) <==> Whole(client, turn[last]);
    } else {
      ControlsWhole(client, turn);
    }
  }

  lemma CarriesTurn(client: bool, attempts: seq<Attempt>, chunks: seq<Bytes>, handed: nat, turn: seq<Attempt>, ok: bool) returns (next: nat)
    requires Carries(client, attempts, chunks, handed) && ChunksWhole(client, attempts) && handed < |chunks|
    requires 1 <= |chunks[handed]| <= MAX_FRAME && Turns(client, turn, chunks[handed], ok)
    ensures Carries(client, attempts + turn, chunks, next) && handed <= next <= handed + 1
    ensures ok ==> next == handed + 1
    ensures ChunksWhole(client, attempts + turn) <==> ok || next == handed
  {
    hide Carries, ChunksWhole, Controls, Whole;
    TurnWhole(client, turn, chunks[handed], ok);
    ChunksJoin(client, attempts, turn);
    var last := |turn| - 1;
    if turn != [] && turn[last].frame == Frame(BINARY, chunks[handed]) {
      CarriesControls(client, attempts, chunks, handed, turn[..last]);
      ControlsWhole(client, turn[..last]);
      ChunksJoin(client, attempts, turn[..last]);
      CarriesChunk(client, attempts + turn[..last], chunks, handed, turn[last]);
      assert attempts + turn == (attempts + turn[..last]) + [turn[last]];
      next := handed + 1;
    } else {
      CarriesControls(client, attempts, chunks, handed, turn);
      next := handed;
    }
  }

  lemma WrittenPart(written: Bytes, payload: Bytes, rest: Bytes, n: nat)
    requires n <= |payload|
    ensures written + payload[..n] <= written + (payload + rest)
    ensures n == |payload| ==> (written + payload[..n]) + rest == written + (payload + rest)
  {
  }

  /** Only the last of some writes may have failed: its thread stops there. */
  predicate WholeButLast(client: bool, attempts: seq<Attempt>) {
    forall i :: 0 <= i < |attempts| - 1 ==> Whole(client, attempts[i])
  }

  lemma NothingBroken(client: bool)
    ensures AllWhole(client, []) && WholeButLast(client, []) && FramesOf([]) == []
    ensures forall frames: seq<Frame> :: [] + frames == frames
  {
  }

  lemma WholeMore(client: bool, attempts: seq<Attempt>, more: seq<Attempt>)
    requires AllWhole(client, attempts) && |more| <= 1
    ensures WholeButLast(client, attempts + more)
    ensures AllWhole(client, attempts + more) <==> AllWhole(client, more)
    ensures |more| == 1 ==> (AllWhole(client, more) <==> Whole(client, more[0]))
    ensures more == [] ==> attempts + more == attempts
  {
    assert more != [] ==> (attempts + more)[|attempts|] == more[0];
  }

  lemma JoinBefore(a: seq<Frame>, b: seq<Frame>, c: seq<Frame>)
    ensures a + (b + c) == (a + b) + c && a <= a + (b + c) && a + b <= a + (b + c)
  {
  }

  // ---- The connection ----

  class WebSocket {
    const client: bool
    const masks: nat -> Mask
    var drawn: nat
    var input: Bytes
    var output: Bytes
    var closed: bool

    constructor (client: bool, masks: nat -> Mask, input: Bytes)
      ensures this.client == client && this.masks == masks && this.input == input
      ensures drawn == 0 && output == [] && !closed
    {
      this.client, this.masks, this.input := client, masks, input;
      drawn, output, closed := 0, [], false;
    }

    /** Exactly `size` bytes of input; at its end whatever is left is gone. */
    method Exact(size: nat) returns (data: Option<Bytes>)
      modifies `input
      ensures data == if |old(input)| < size then None else Some(old(input)[..size])
      ensures input == if |old(input)| < size then [] else old(input)[size..]
    {
      if |input| < size {
        data, input := None, [];
      } else {
        data, input := Some(input[..size]), input[size..];
      }
    }

    /** One frame, of which the connection takes `room` bytes before it fails; nothing when the frame is too large or
        the connection closed. */
    method Send(payload: Bytes, opcode: nat, room: nat) returns (ok: bool)
      requires opcode < 16
      modifies `output, `drawn
      ensures ok == (|payload| <= MAX_FRAME && !closed && Whole(client, Attempt(Frame(opcode, payload), room)))
      ensures if |payload| > MAX_FRAME || closed then output == old(output) && drawn == old(drawn)
              else output == old(output) + Piece(client, masks(old(drawn)), Attempt(Frame(opcode, payload), room)) && drawn == old(drawn) + 1
    {
      if |payload| > MAX_FRAME || closed {
        return false;
      }
      var mask := masks(drawn);
      var frame := Head(client, opcode, |payload|);
      if client {
        var body: Bytes := [];
        var i := 0;
        while i < |payload|
          invariant 0 <= i <= |payload|
          invariant body == Masked(payload, mask)[..i]
        {
          body := body + [Xor(payload[i], mask[i % 4])];
          i := i + 1;
        }
        frame := frame + (mask + body);
      } else {
        frame := frame + payload;
      }
      EncodeSize(client, mask, Frame(opcode, payload));
      output := output + if room < |frame| then frame[..room] else frame;
      drawn := drawn + 1;
      ok := |frame| <= room;
    }

    /** The mask and the payload of a frame whose header announced `size`. */
    method ReadBody(opcode: nat, size: nat, masked: bool) returns (p: Parsed)
      modifies `input
      ensures var q := Body(opcode, size, masked, old(input));
              p == q && (q.Got? ==> input == q.rest)
    {
      if size > MAX_FRAME || (opcode >= 8 && size > MAX_CONTROL) {
        return Bad;
      }
      ghost var start := input;
      var mask: Mask := [0, 0, 0, 0];
      if masked {
        var m := Exact(4);
        if m.None? {
          return Short;
        }
        mask := m.value;
      }
      var payload := Exact(size);
      if payload.None? {
        return Short;
      }
      if masked {
        assert start[4..][..size] == start[4..4 + size] && start[4..][size..] == start[4 + size..];
        return Got(Frame(opcode, Masked(payload.value, mask)), input);
      }
      return Got(Frame(opcode, payload.value), input);
    }

    /** One frame off the input, read piece by piece. */
    method ReadFrame() returns (p: Parsed)
      modifies `input
      ensures var q := Parse(client, old(input));
              p == q && (q.Got? ==> input == q.rest)
    {
      hide Body, Value;
      ghost var start := input;
      var head := Exact(2);
      if head.None? {
        return Short;
      }
      var first, second := head.value[0], head.value[1];
      if !HeaderAllowed(client, first, second) {
        return Bad;
      }
      var size := second % 128;
      if size == 126 {
        var b := Exact(2);
        if b.None? {
          return Short;
        }
        assert b.value == start[2..4];
        size := Value(b.value);
      } else if size == 127 {
        var b := Exact(8);
        if b.None? {
          return Short;
        }
        assert b.value == start[2..10];
        size := Value(b.value);
      }
      assert input == start[2 + ExtendedWidth(second)..];
      p := ReadBody(first % 16, size, second >= 128);
    }

    /** One pong, unless the connection is closed by then. */
    method Answer(payload: Bytes) returns (ok: bool, ghost pong: seq<Attempt>)
      requires |payload| <= MAX_CONTROL
      modifies `output, `drawn, `closed
      ensures AllSendable(FramesOf(pong)) && output == old(output) + Wire(client, masks, old(drawn), pong) && drawn == old(drawn) + |pong|
      ensures if pong == [] then closed && !ok
              else |pong| == 1 && FramesOf(pong) == [Frame(PONG, payload)] && !closed && ok == Whole(client, pong[0])
      ensures old(closed) ==> closed
    {
      hide Piece, Whole, Wire;
      pong := [];
      NothingWired(client, masks, drawn);
      if * {
        closed := true;
      }
      var room: nat := *;
      ok := Send(payload, PONG, room);
      if !closed {
        WireAppend(client, masks, old(drawn), pong, Attempt(Frame(PONG, payload), room));
        pong := [Attempt(Frame(PONG, payload), room)];
        assert [] + pong == pong;
      }
    }

    /** `receive`: answer pings, skip pongs, return the first data frame; nothing once the stream ends. It breaks off when a
        pong cannot be written whole, or when another thread closes the connection; `sent` are the pongs it wrote. */
    method Receive() returns (got: Option<Frame>, broken: bool, ghost sent: seq<Attempt>)
      modifies `input, `output, `drawn, `closed
      ensures AllSendable(FramesOf(sent)) && FramesOf(sent) <= Next(client, old(input)).pongs
      ensures output == old(output) + Wire(client, masks, old(drawn), sent) && drawn == old(drawn) + |sent|
      ensures WholeButLast(client, sent)
      ensures broken ==> got.None? && (closed || !AllWhole(client, sent))
      ensures !broken ==> var t := Next(client, old(input));
                          && !closed && got == t.got && (got.Some? ==> input == t.rest)
                          && FramesOf(sent) == t.pongs && AllWhole(client, sent)
      ensures old(closed) ==> closed && broken && sent == [] && input == old(input)
    {
      hide Parse, Wire, Next, Whole, AllWhole, WholeButLast, FramesOf, AllSendable;
      got, broken, sent := None, false, [];
      NothingWired(client, masks, drawn);
      NothingBroken(client);
      while !closed
        invariant AllSendable(FramesOf(sent)) && AllWhole(client, sent) && WholeButLast(client, sent)
        invariant output == old(output) + Wire(client, masks, old(drawn), sent) && drawn == old(drawn) + |sent|
        invariant Next(client, old(input)) == Next(client, input).(pongs := FramesOf(sent) + Next(client, input).pongs)
        invariant old(closed) ==> closed && sent == [] && input == old(input)
        decreases |input|
      {
        NextFirst(client, input);
        var p := ReadFrame();
        if !p.Got? || p.frame.opcode == CLOSE {
          assert FramesOf(sent) + [] == FramesOf(sent);
          return;
        }
        if p.frame.opcode == PING {
          var ok;
          ghost var pong;
          ok, pong := Answer(p.frame.payload);
          WireJoin(client, masks, old(drawn), sent, pong);
          WholeMore(client, sent, pong);
          JoinBefore(FramesOf(sent), [Frame(PONG, p.frame.payload)], Next(client, input).pongs);
          sent := sent + pong;
          if !ok {
            broken := true;
            return;
          }
        } else if p.frame.opcode != PONG {
          assert FramesOf(sent) + [] == FramesOf(sent);
          got := Some(p.frame);
          return;
        }
        if * {
          closed := true;
        }
      }
      broken := true;
    }

    /** Pings and pongs of the other threads, any number of them, each whole or not, and maybe a close. */
    method Others() returns (ghost attempts: seq<Attempt>)
      modifies `output, `drawn, `closed
      ensures Controls(attempts) && AllSendable(FramesOf(attempts))
      ensures output == old(output) + Wire(client, masks, old(drawn), attempts) && drawn == old(drawn) + |attempts|
      ensures old(closed) ==> closed && attempts == []
    {
      hide Piece, Wire;
      attempts := [];
      NothingWired(client, masks, drawn);
      var many :| 0 <= many;
      for n := 0 to many
        invariant Controls(attempts) && AllSendable(FramesOf(attempts))
        invariant output == old(output) + Wire(client, masks, old(drawn), attempts) && drawn == old(drawn) + |attempts|
        invariant old(closed) ==> closed && attempts == []
      {
        var ping: bool, payload: Bytes, room: nat := *, *, *;
        if |payload| <= MAX_CONTROL && !closed {
          var f := Frame(if ping then PING else PONG, payload);
          var ok := Send(f.payload, f.opcode, room);
          WireAppend(client, masks, old(drawn), attempts, Attempt(f, room));
          attempts := attempts + [Attempt(f, room)];
        }
      }
      if * {
        closed := true;
      }
    }

    /** One turn of the upload loop: whatever the other threads write, then the chunk, unless the connection is closed. */
    method Hand(chunk: Bytes) returns (ok: bool, ghost turn: seq<Attempt>)
      requires 1 <= |chunk| <= 32768
      modifies `output, `drawn, `closed
      ensures Turns(client, turn, chunk, ok)
      ensures AllSendable(FramesOf(turn)) && output == old(output) + Wire(client, masks, old(drawn), turn) && drawn == old(drawn) + |turn|
      ensures old(closed) ==> closed && turn == []
    {
      hide Piece, Wire, Whole;
      turn := Others();
      var room: nat := *;
      ok := Send(chunk, BINARY, room);
      if !closed {
        var a := Attempt(Frame(BINARY, chunk), room);
        WireAppend(client, masks, old(drawn), turn, a);
        turn := turn + [a];
      }
    }

    /** The upload loop of the bridge: every chunk read becomes one binary frame, until the connection ends, the
        websocket is closed from elsewhere, or a send fails. `sent` counts the chunks that went out whole, `handed`
        those handed to the socket, and `attempts` are all writes until the websocket is closed, those of the other
        threads among them. */
    method Upload(chunks: seq<Bytes>) returns (sent: nat, ghost handed: nat, ghost attempts: seq<Attempt>)
      requires forall i :: 0 <= i < |chunks| ==> |chunks[i]| <= 32768
      modifies this
      ensures closed && input == old(input)
      ensures Carries(client, attempts, chunks, handed) && sent <= handed <= sent + 1 && sent <= |chunks|
      ensures handed == sent <==> ChunksWhole(client, attempts)
      ensures AllSendable(FramesOf(attempts)) && output == old(output) + Wire(client, masks, old(drawn), attempts)
      ensures old(closed) ==> attempts == []
    {
      hide Wire, Carries, ChunksWhole, Turns, FramesOf, AllSendable;
      sent, handed, attempts := 0, 0, [];
      NothingWired(client, masks, drawn);
      NothingCarried(client, chunks);
      while sent < |chunks| && !closed
        invariant sent == handed <= |chunks| && input == old(input)
        invariant Carries(client, attempts, chunks, handed) && ChunksWhole(client, attempts)
        invariant AllSendable(FramesOf(attempts)) && output == old(output) + Wire(client, masks, old(drawn), attempts)
        invariant drawn == old(drawn) + |attempts|
        invariant old(closed) ==> closed && attempts == []
      {
        if chunks[sent] == [] {
          break;
        }
        var ok;
        ghost var turn;
        ok, turn := Hand(chunks[sent]);
        WireJoin(client, masks, old(drawn), attempts, turn);
        handed := CarriesTurn(client, attempts, chunks, handed, turn, ok);
        attempts := attempts + turn;
        if !ok {
          break;
        }
        sent := sent + 1;
      }
      ghost var controls := Others();
      CarriesControls(client, attempts, chunks, handed, controls);
      ControlsWhole(client, controls);
      ChunksJoin(client, attempts, controls);
      WireJoin(client, masks, old(drawn), attempts, controls);
      attempts := attempts + controls;
      closed := true;
    }

    /** The download loop of the bridge: the bytes of binary frames go to the TCP connection, until the stream
        ends, something else arrives, the websocket is closed from elsewhere, or a write stops part-way. */
    method Download() returns (written: Bytes, interrupted: bool)
      modifies this
      ensures closed
      ensures written <= Written(Received(client, old(input)))
      ensures !interrupted ==> written == Written(Received(client, old(input)))
    {
      hide Parse, Received, Echoes, EncodeAll, Next, Written, AllSendable, FramesOf, Wire, Whole, AllWhole;
      written, interrupted := [], closed;
      while !closed
        invariant interrupted ==> closed && written <= Written(Received(client, old(input)))
        invariant !interrupted && !closed ==> Written(Received(client, old(input))) == written + Written(Received(client, input))
        invariant !interrupted && closed ==> Written(Received(client, old(input))) == written
        decreases if closed then 0 else 1 + |input|
      {
        if * {
          closed, interrupted := true, true;
        } else {
          NextWritten(client, input);
          var got, broken, _ := Receive();
          if broken {
            closed, interrupted := true, true;
          } else if got.None? || got.value.opcode != BINARY {
            closed := true;
          } else {
            var n :| 0 <= n <= |got.value.payload|;
            WrittenPart(written, got.value.payload, Written(Received(client, input)), n);
            written := written + got.value.payload[..n];
            if n < |got.value.payload| {
              closed, interrupted := true, true;
            }
          }
        }
      }
    }
  }
}
