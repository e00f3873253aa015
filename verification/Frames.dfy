/** The tunnel's subset of the WebSocket framing of RFC 6455 (sections 5.2, 5.3 and 5.5), as functions on bytes. */
module Frames {
  type Byte = x: int | 0 <= x < 256
  type Bytes = seq<Byte>
  type Mask = m: Bytes | |m| == 4 witness [0, 0, 0, 0]

  const MAX_FRAME := 65536
  const MAX_CONTROL := 125

  const TEXT := 1
  const BINARY := 2
  const CLOSE := 8
  const PING := 9
  const PONG := 10

  datatype Frame = Frame(opcode: nat, payload: Bytes)

  /** One frame off the front of the input; the end of the input inside a frame; or a frame the tunnel refuses. */
  datatype Parsed = Got(frame: Frame, rest: Bytes) | Short | Bad

  // ---- Exclusive or, bit by bit ----

  function Power(base: nat, width: nat): nat {
    if width == 0 then 1 else base * Power(base, width - 1)
  }

  function XorBits(a: nat, b: nat, bits: nat): (r: nat)
    ensures r < Power(2, bits)
    decreases bits
  {
    if bits == 0 then 0 else 2 * XorBits(a / 2, b / 2, bits - 1) + (a + b) % 2
  }

  function Xor(a: Byte, b: Byte): Byte {
    assert Power(2, 8) == 256;
    XorBits(a, b, 8)
  }

  /** Applying a mask byte twice gives the byte back. */
  lemma {:induction false} XorTwice(a: nat, b: nat, bits: nat)
    requires a < Power(2, bits)
    ensures XorBits(XorBits(a, b, bits), b, bits) == a
    decreases bits
  {
    if bits > 0 {
      XorTwice(a / 2, b / 2, bits - 1);
      var r, x := XorBits(a / 2, b / 2, bits - 1), XorBits(a, b, bits);
      XorStep(r, a, b, x);
      assert XorBits(x, b, bits) == 2 * XorBits(r, b / 2, bits - 1) + (x + b) % 2;
    }
  }

  lemma XorStep(r: nat, a: nat, b: nat, x: nat)
    requires x == 2 * r + (a + b) % 2
    ensures x / 2 == r && (x + b) % 2 == a % 2 && 2 * (a / 2) + a % 2 == a
  {
  }

  /** Each bit of the result says whether the bits of the operands differ. */
  lemma XorExactly(a: Byte, b: Byte, d: nat)
    requires d in {1, 2, 4, 8, 16, 32, 64, 128}
    ensures Xor(a, b) / d % 2 == 1 <==> a / d % 2 != b / d % 2
  {
    assert Power(2, 8) == 256;
    assert Power(2, 0) == 1 && Power(2, 1) == 2 && Power(2, 2) == 4 && Power(2, 3) == 8;
    assert Power(2, 4) == 16 && Power(2, 5) == 32 && Power(2, 6) == 64 && Power(2, 7) == 128;
    var n := if d == 1 then 0 else if d == 2 then 1 else if d == 4 then 2 else if d == 8 then 3
             else if d == 16 then 4 else if d == 32 then 5 else if d == 64 then 6 else 7;
    assert Power(2, n) == d;
    XorBit(a, b, 8, n);
  }

  lemma {:induction false} XorBit(a: nat, b: nat, bits: nat, n: nat)
    requires n < bits && Power(2, n) > 0
    ensures XorBits(a, b, bits) / Power(2, n) % 2 == 1 <==> a / Power(2, n) % 2 != b / Power(2, n) % 2
    decreases bits
  {
    XorHalves(a, b, bits);
    hide XorBits;
    if n == 0 {
      assert Power(2, 0) == 1;
    } else {
      var d := Power(2, n - 1);
      assert Power(2, n) == 2 * d;
      hide Power;
      XorBit(a / 2, b / 2, bits - 1, n - 1);
      BitAbove(a, b, XorBits(a, b, bits), d);
    }
  }

  lemma XorHalves(a: nat, b: nat, bits: nat)
    requires bits > 0
    ensures XorBits(a, b, bits) / 2 == XorBits(a / 2, b / 2, bits - 1)
    ensures XorBits(a, b, bits) % 2 == 1 <==> a % 2 != b % 2
  {
  }

  lemma BitAbove(a: nat, b: nat, x: nat, d: nat)
    requires d > 0 && (x / 2 / d % 2 == 1 <==> a / 2 / d % 2 != b / 2 / d % 2)
    ensures x / (2 * d) % 2 == 1 <==> a / (2 * d) % 2 != b / (2 * d) % 2
  {
    Halve(a, d);
    Halve(b, d);
    Halve(x, d);
  }

  lemma Halve(a: nat, d: nat)
    requires d > 0
    ensures a / (2 * d) == a / 2 / d
  {
    var q, r := a / 2 / d, a / 2 % d;
    var low := a % 2 + 2 * r;
    assert a == q * (2 * d) + low && 0 <= low < 2 * d;
    Quotient(a, 2 * d, q, low);
  }

  lemma Quotient(a: nat, d: nat, q: nat, r: nat)
    requires d > 0 && a == q * d + r && r < d
    ensures a / d == q
  {
    assert (a / d - q) * d == r - a % d;
    Multiple(a / d - q, d);
  }

  lemma Multiple(x: int, d: nat)
    ensures x == 0 || x * d >= d || x * d <= 0 - d
  {
    if x > 0 {
      AtLeast(x, d);
    } else if x < 0 {
      AtLeast(-x, d);
      assert x * d == 0 - (-x) * d;
    }
  }

  lemma {:induction false} AtLeast(x: nat, d: nat)
    requires x > 0
    ensures x * d >= d
  {
    if x > 1 {
      AtLeast(x - 1, d);
      assert x * d == (x - 1) * d + d;
    }
  }

  function Masked(payload: Bytes, mask: Mask): (r: Bytes)
    ensures |r| == |payload|
  {
    seq(|payload|, i requires 0 <= i < |payload| => Xor(payload[i], mask[i % 4]))
  }

  /** Section 5.3: masking is its own inverse. */
  lemma MaskedTwice(payload: Bytes, mask: Mask)
    ensures Masked(Masked(payload, mask), mask) == payload
  {
    forall i | 0 <= i < |payload| ensures Masked(Masked(payload, mask), mask)[i] == payload[i] {
      assert Power(2, 8) == 256;
      XorTwice(payload[i], mask[i % 4], 8);
    }
  }

  // ---- Numbers in network order ----

  function BigEndian(n: nat, width: nat): (r: Bytes)
    ensures |r| == width
    decreases width
  {
    if width == 0 then [] else BigEndian(n / 256, width - 1) + [n % 256]
  }

  function Value(b: Bytes): nat
    decreases |b|
  {
    if b == [] then 0 else 256 * Value(b[..|b| - 1]) + b[|b| - 1]
  }

  lemma {:induction false} BigEndianValue(n: nat, width: nat)
    requires n < Power(256, width)
    ensures Value(BigEndian(n, width)) == n
    decreases width
  {
    if width > 0 {
      BigEndianValue(n / 256, width - 1);
      var b := BigEndian(n, width);
      assert b[..|b| - 1] == BigEndian(n / 256, width - 1);
    }
  }

  // ---- One frame ----

  function Extended(size: nat): Bytes {
    if size < 126 then [] else if size < 65536 then BigEndian(size, 2) else BigEndian(size, 8)
  }

  function Head(client: bool, opcode: nat, size: nat): Bytes
    requires opcode < 16
  {
    [128 + opcode, (if client then 128 else 0) + if size < 126 then size else if size < 65536 then 126 else 127] + Extended(size)
  }

  predicate Sendable(f: Frame) {
    f.opcode < 16 && |f.payload| <= MAX_FRAME
  }

  /** Section 5.2: the bytes of one frame. A client masks its payload, a server does not. */
  function Encode(client: bool, mask: Mask, f: Frame): Bytes
    requires Sendable(f)
  {
    Head(client, f.opcode, |f.payload|) + if client then mask + Masked(f.payload, mask) else f.payload
  }

  predicate Known(opcode: nat) {
    opcode in {TEXT, BINARY, CLOSE, PING, PONG}
  }

  /** Section 5.5: the frames the tunnel accepts. */
  predicate Acceptable(f: Frame) {
    Known(f.opcode) && |f.payload| <= if f.opcode >= 8 then MAX_CONTROL else MAX_FRAME
  }

  function ExtendedWidth(second: Byte): nat {
    if second % 128 == 126 then 2 else if second % 128 == 127 then 8 else 0
  }

  predicate HeaderAllowed(client: bool, first: Byte, second: Byte) {
    first >= 128 && first / 16 % 8 == 0 && (second >= 128) != client && Known(first % 16)
  }

  function Parse(client: bool, input: Bytes): Parsed {
    if |input| < 2 then Short
    else if !HeaderAllowed(client, input[0], input[1]) then Bad
    else
      var width := ExtendedWidth(input[1]);
      if |input| < 2 + width then Short
      else
        var size := if width == 0 then input[1] % 128 else Value(input[2..2 + width]);
        var body := Body(input[0] % 16, size, input[1] >= 128, input[2 + width..]);
        body
  }

  /** What follows the length: the size check, the mask and the payload. */
  function Body(opcode: nat, size: nat, masked: bool, input: Bytes): Parsed {
    if size > MAX_FRAME || (opcode >= 8 && size > MAX_CONTROL) then Bad
    else if !masked then
      if |input| < size then Short else Got(Frame(opcode, input[..size]), input[size..])
    else if |input| < 4 + size then Short
    else Got(Frame(opcode, Masked(input[4..4 + size], input[..4])), input[4 + size..])
  }

  lemma ParseConsumes(client: bool, input: Bytes)
    ensures Parse(client, input).Got? ==> |Parse(client, input).rest| < |input| && Acceptable(Parse(client, input).frame)
  {
  }

  lemma ExtendedValue(size: nat)
    requires size <= MAX_FRAME
    ensures size >= 126 ==> Value(Extended(size)) == size
  {
    if 126 <= size < 65536 {
      assert Power(256, 2) == 65536;
      BigEndianValue(size, 2);
    } else if size >= 65536 {
      assert Power(256, 8) == 0x1_0000_0000_0000_0000;
      BigEndianValue(size, 8);
    }
  }

  /** A header is read back from any stream it starts. */
  lemma ParseHead(client: bool, opcode: nat, size: nat, after: Bytes)
    requires opcode < 16 && size <= MAX_FRAME && Known(opcode)
    ensures Parse(!client, Head(client, opcode, size) + after) == Body(opcode, size, client, after)
  {
    hide Body, Value, BigEndian, Power;
    var head := Head(client, opcode, size);
    var input := head + after;
    HeadFlags(client, opcode, size);
    assert input[0] == head[0] && input[1] == head[1];
    var width := ExtendedWidth(input[1]);
    assert input[2..2 + width] == Extended(size);
    assert input[2 + width..] == after;
    ExtendedValue(size);
  }

  lemma HeadFlags(client: bool, opcode: nat, size: nat)
    requires opcode < 16 && size <= MAX_FRAME && Known(opcode)
    ensures var head := Head(client, opcode, size);
            && |head| == 2 + |Extended(size)| && head[2..] == Extended(size)
            && HeaderAllowed(!client, head[0], head[1]) && head[0] % 16 == opcode && (head[1] >= 128) == client
            && ExtendedWidth(head[1]) == |Extended(size)| && (size < 126 ==> head[1] % 128 == size)
  {
    hide Value, BigEndian, Power;
  }

  /** Encoder and decoder undo each other, for any mask and any following bytes, exactly for the frames the
      tunnel accepts; any other frame is refused. */
  lemma RoundTrip(client: bool, mask: Mask, f: Frame, rest: Bytes)
    requires Sendable(f)
    ensures Acceptable(f) <==> Parse(!client, Encode(client, mask, f) + rest) == Got(f, rest)
    ensures !Acceptable(f) ==> Parse(!client, Encode(client, mask, f) + rest) == Bad
  {
    hide Masked, Extended, Value;
    var head := Head(client, f.opcode, |f.payload|);
    var body := if client then mask + Masked(f.payload, mask) else f.payload;
    assert Encode(client, mask, f) + rest == head + (body + rest);
    if Known(f.opcode) {
      ParseHead(client, f.opcode, |f.payload|, body + rest);
      if Acceptable(f) {
        BodyRead(client, mask, f, rest);
      }
    }
  }

  lemma BodyRead(client: bool, mask: Mask, f: Frame, rest: Bytes)
    requires Acceptable(f)
    ensures Body(f.opcode, |f.payload|, client, (if client then mask + Masked(f.payload, mask) else f.payload) + rest) == Got(f, rest)
  {
    var size := |f.payload|;
    if client {
      var input := mask + Masked(f.payload, mask) + rest;
      assert input[..4] == mask;
      assert input[4..4 + size] == Masked(f.payload, mask);
      assert input[4 + size..] == rest;
      MaskedTwice(f.payload, mask);
    } else {
      var input := f.payload + rest;
      assert input[..size] == f.payload;
      assert input[size..] == rest;
    }
  }

  /** A frame from one's own role is refused (section 5.1 of RFC 6455: a client masks, a server does not). */
  lemma SameRoleRefused(client: bool, mask: Mask, f: Frame, rest: Bytes)
    requires Sendable(f)
    ensures Parse(client, Encode(client, mask, f) + rest) == Bad
  {
    var input := Encode(client, mask, f) + rest;
    assert input[1] == Head(client, f.opcode, |f.payload|)[1];
  }

  /** A frame cut short is never taken for another one. */
  lemma CutFrame(client: bool, mask: Mask, f: Frame, k: nat)
    requires Acceptable(f) && k < |Encode(client, mask, f)|
    ensures Parse(!client, Encode(client, mask, f)[..k]) == Short
  {
    var size := |f.payload|;
    var all := Encode(client, mask, f);
    var head := Head(client, f.opcode, size);
    var cut := all[..k];
    if k >= |head| {
      var body := if client then mask + Masked(f.payload, mask) else f.payload;
      assert all == head + body;
      assert cut == head + body[..k - |head|];
      ParseHead(client, f.opcode, size, body[..k - |head|]);
    } else if k >= 2 {
      assert cut[0] == head[0] && cut[1] == head[1];
      assert ExtendedWidth(cut[1]) == |Extended(size)|;
    }
  }

  // ---- The wire format, byte by byte ----

  lemma NetworkOrder(n: nat)
    requires n < 65536
    ensures BigEndian(n, 2) == [n / 256, n % 256]
  {
    assert BigEndian(n / 256, 1) == BigEndian(0, 0) + [n / 256];
  }

  lemma LargestLength()
    ensures BigEndian(65536, 8) == [0, 0, 0, 0, 0, 1, 0, 0]
  {
    assert BigEndian(0, 0) == [] && BigEndian(0, 1) == [0] && BigEndian(0, 2) == [0, 0] && BigEndian(0, 3) == [0, 0, 0];
    assert BigEndian(0, 4) == [0, 0, 0, 0] && BigEndian(0, 5) == [0, 0, 0, 0, 0];
    assert BigEndian(1, 6) == [0, 0, 0, 0, 0, 1];
    assert BigEndian(256, 7) == [0, 0, 0, 0, 0, 1, 0];
  }

  /** What a receiver makes of its input, byte by byte. It refuses anything but whole frames of the five opcodes, masked
      exactly if it is the server, and announced lengths above 65536 bytes, or 125 for a close, ping or pong. */
  lemma ParseExactly(client: bool, input: Bytes)
    ensures var r := Parse(client, input);
            if |input| < 2 then r == Short
            else if input[0] !in {129, 130, 136, 137, 138} || (input[1] >= 128) == client then r == Bad
            else
              var head := if input[1] % 128 < 126 then 2 else if input[1] % 128 == 126 then 4 else 10;
              if |input| < head then r == Short
              else
                var size: nat := if head == 2 then input[1] % 128 else if head == 4 then 256 * (input[2] as nat) + input[3] else Value(input[2..10]);
                if size > 65536 || (input[0] >= 136 && size > 125) then r == Bad
                else if |input| < head + (if client then 0 else 4) + size then r == Short
                else
                  && r.Got? && r.frame.opcode == input[0] - 128 && |r.frame.payload| == size
                  && r.rest == input[head + (if client then 0 else 4) + size..]
                  && (client ==> r.frame.payload == input[head..head + size])
                  && (!client ==> forall i :: 0 <= i < size ==> r.frame.payload[i] == Xor(input[head + 4 + i], input[head + i % 4]))
  {
    hide *;
    HeaderExactly(client, input);
    if |input| >= 4 {
      TwoBytes(input[2..4]);
    }
    if |input| >= 2 {
      var head := if input[1] % 128 < 126 then 2 else if input[1] % 128 == 126 then 4 else 10;
      if |input| >= head && input[0] in {129, 130, 136, 137, 138} {
        var size := if head == 2 then input[1] % 128 else Value(input[2..head]);
        BodyExactly(input[0] - 128, size, !client, input, head);
      }
    }
  }

  lemma HeaderExactly(client: bool, input: Bytes)
    ensures var r := Parse(client, input);
            if |input| < 2 then r == Short
            else if input[0] !in {129, 130, 136, 137, 138} || (input[1] >= 128) == client then r == Bad
            else
              var head := if input[1] % 128 < 126 then 2 else if input[1] % 128 == 126 then 4 else 10;
              if |input| < head then r == Short
              else r == Body(input[0] - 128, if head == 2 then input[1] % 128 else Value(input[2..head]), !client, input[head..])
  {
    if |input| >= 2 {
      FirstByte(input[0]);
    }
    hide Known, Value, Body;
  }

  lemma BodyExactly(opcode: nat, size: nat, masked: bool, input: Bytes, head: nat)
    requires head <= |input|
    ensures var r := Body(opcode, size, masked, input[head..]);
            if size > 65536 || (opcode >= 8 && size > 125) then r == Bad
            else if |input| < head + (if masked then 4 else 0) + size then r == Short
            else
              && r.Got? && r.frame.opcode == opcode && |r.frame.payload| == size
              && r.rest == input[head + (if masked then 4 else 0) + size..]
              && (!masked ==> r.frame.payload == input[head..head + size])
              && (masked ==> forall i :: 0 <= i < size ==> r.frame.payload[i] == Xor(input[head + 4 + i], input[head + i % 4]))
  {
    hide Xor, Power;
  }

  lemma TwoBytes(b: Bytes)
    requires |b| == 2
    ensures Value(b) == 256 * (b[0] as nat) + b[1]
  {
    assert b[..1] == [b[0]] && [b[0]][..0] == [];
    assert Value([b[0]]) == b[0];
  }

  lemma FirstByte(first: Byte)
    ensures first in {129, 130, 136, 137, 138} <==> first >= 128 && first / 16 % 8 == 0 && Known(first % 16)
  {
  }

  /** The length of eight bytes. */
  lemma LongLength(b: Bytes)
    requires |b| == 8
    ensures Value(b) <= 65536 <==>
            b[0] == b[1] == b[2] == b[3] == b[4] == 0 && (b[5] == 0 || (b[5] == 1 && b[6] == b[7] == 0))
    ensures b[0] == b[1] == b[2] == b[3] == b[4] == 0 ==> Value(b) == 65536 * (b[5] as nat) + 256 * (b[6] as nat) + b[7]
  {
    Lengths(b);
    var v := Value(b[..5]);
    assert b[..6][..5] == b[..5] && b[..7][..6] == b[..6];
    LastByte(b[..6]);
    LastByte(b[..7]);
    LastByte(b);
    hide Value;
  }

  lemma Lengths(b: Bytes)
    requires |b| == 8
    ensures Value(b[..5]) == 0 <==> b[0] == b[1] == b[2] == b[3] == b[4] == 0
  {
    assert b[..5][..4] == b[..4] && b[..4][..3] == b[..3] && b[..3][..2] == b[..2] && b[..2][..1] == b[..1] && b[..1][..0] == [];
    LastByte(b[..5]);
    LastByte(b[..4]);
    LastByte(b[..3]);
    LastByte(b[..2]);
    LastByte(b[..1]);
    hide Value;
    assert Value([]) == 0;
  }

  lemma LastByte(b: Bytes)
    requires b != []
    ensures Value(b) == 256 * Value(b[..|b| - 1]) + b[|b| - 1]
  {
  }

  /** Section 5.2: the final flag and the opcode; the mask flag and the length, extended by two or eight bytes in network
      order; the mask of a client; and the payload, masked by a client. */
  lemma EncodeExactly(client: bool, mask: Mask, f: Frame)
    requires Sendable(f)
    ensures var out, size := Encode(client, mask, f), |f.payload|;
            var head := if size < 126 then 2 else if size < 65536 then 4 else 10;
            && |out| == head + (if client then 4 else 0) + size
            && out[0] == 128 + f.opcode
            && out[1] == (if client then 128 else 0) + (if size < 126 then size else if size < 65536 then 126 else 127)
            && (head == 4 ==> out[2] == size / 256 && out[3] == size % 256)
            && (head == 10 ==> out[2..10] == [0, 0, 0, 0, 0, 1, 0, 0])
            && (client ==> out[head..head + 4] == mask && forall i :: 0 <= i < size ==> out[head + 4 + i] == Xor(f.payload[i], mask[i % 4]))
            && (!client ==> out[head..] == f.payload)
  {
    var size := |f.payload|;
    if 126 <= size < 65536 {
      NetworkOrder(size);
    } else if size >= 65536 {
      LargestLength();
    }
    hide Xor, BigEndian;
  }
}
