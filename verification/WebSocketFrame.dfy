/** Text frames of the run stream: header, three length encodings and masking (sections 5.2
    and 5.3 of RFC 6455). */
module WebSocketFrame {
  import opened Options

  type Byte = i: int | 0 <= i < 256

  /* ---- exclusive or, bit by bit ---- */

  function XorBits(a: nat, b: nat, bits: nat): (r: nat) {
    if bits == 0 then 0
    else 2 * XorBits(a / 2, b / 2, bits - 1) + (if a % 2 != b % 2 then 1 else 0)
  }

  function Pow2(n: nat): (r: nat)
    ensures r > 0
  {
    if n == 0 then 1 else 2 * Pow2(n - 1)
  }

  lemma {:induction false} XorBounded(a: nat, b: nat, bits: nat)
    ensures XorBits(a, b, bits) < Pow2(bits)
  {
    if bits > 0 { XorBounded(a / 2, b / 2, bits - 1); }
  }

  lemma {:induction false} XorTwice(a: nat, b: nat, bits: nat)
    requires a < Pow2(bits)
    ensures XorBits(XorBits(a, b, bits), b, bits) == a
  {
    if bits > 0 {
      XorTwice(a / 2, b / 2, bits - 1);
      var r := XorBits(a, b, bits);
      assert r / 2 == XorBits(a / 2, b / 2, bits - 1);
    }
  }

  function Bit(n: nat, i: nat): nat { if i == 0 then n % 2 else Bit(n / 2, i - 1) }

  /** Bit by bit: set exactly where the two differ. */
  lemma {:induction false} XorIsBitwise(a: nat, b: nat, bits: nat, i: nat)
    requires i < bits
    ensures Bit(XorBits(a, b, bits), i) == if Bit(a, i) != Bit(b, i) then 1 else 0
  {
    var r := XorBits(a, b, bits);
    assert r / 2 == XorBits(a / 2, b / 2, bits - 1) && r % 2 == if a % 2 != b % 2 then 1 else 0;
    if i > 0 { XorIsBitwise(a / 2, b / 2, bits - 1, i - 1); }
  }

  lemma Pow2Of8()
    ensures Pow2(8) == 256
  {
    assert Pow2(4) == 16;
  }

  function Xor(a: Byte, b: Byte): Byte {
    XorBounded(a, b, 8);
    Pow2Of8();
    XorBits(a, b, 8)
  }

  /** `key` is used cyclically. */
  function Mask(data: seq<Byte>, key: seq<Byte>): seq<Byte>
    requires |key| == 4
  {
    seq(|data|, i requires 0 <= i < |data| => Xor(data[i], key[i % 4]))
  }

  /** Every bit of a masked byte is the bit of the data, flipped by the key used cyclically. */
  lemma MaskIsBitwise(data: seq<Byte>, key: seq<Byte>, k: nat, i: nat)
    requires |key| == 4 && k < |data| && i < 8
    ensures |Mask(data, key)| == |data|
    ensures Bit(Mask(data, key)[k], i) == if Bit(data[k], i) != Bit(key[k % 4], i) then 1 else 0
  {
    hide XorBits, Bit;
    XorIsBitwise(data[k], key[k % 4], 8, i);
  }

  lemma MaskTwice(data: seq<Byte>, key: seq<Byte>)
    requires |key| == 4
    ensures Mask(Mask(data, key), key) == data && |Mask(data, key)| == |data|
  {
    Pow2Of8();
    var once := Mask(data, key);
    forall i | 0 <= i < |data| ensures Mask(once, key)[i] == data[i] {
      assert once[i] == Xor(data[i], key[i % 4]);
      XorTwice(data[i], key[i % 4], 8);
    }
  }

  /* ---- network byte order ---- */

  function Pow256(n: nat): (r: nat)
    ensures r > 0
  {
    if n == 0 then 1 else 256 * Pow256(n - 1)
  }

  function Pack(n: nat, width: nat): (r: seq<Byte>)
    ensures |r| == width
  {
    if width == 0 then [] else Pack(n / 256, width - 1) + [n % 256]
  }

  function Unpack(bytes: seq<Byte>): nat {
    if bytes == [] then 0 else 256 * Unpack(bytes[..|bytes| - 1]) + bytes[|bytes| - 1]
  }

  lemma {:induction false} UnpackPack(n: nat, width: nat)
    requires n < Pow256(width)
    ensures Unpack(Pack(n, width)) == n
  {
    if width > 0 {
      UnpackPack(n / 256, width - 1);
      var r := Pack(n, width);
      assert r[..|r| - 1] == Pack(n / 256, width - 1);
    }
  }

  lemma {:induction false} PackUnpack(bytes: seq<Byte>)
    ensures Pack(Unpack(bytes), |bytes|) == bytes && Unpack(bytes) < Pow256(|bytes|)
  {
    if bytes != [] {
      PackUnpack(bytes[..|bytes| - 1]);
      assert Unpack(bytes) / 256 == Unpack(bytes[..|bytes| - 1]);
      assert bytes == bytes[..|bytes| - 1] + [bytes[|bytes| - 1]];
    }
  }

  /* ---- frames ---- */

  /** How many extra bytes carry the length. */
  datatype Form = Short | Medium | Long

  function Width(form: Form): nat {
    match form case Short => 0 case Medium => 2 case Long => 8
  }

  predicate Fits(form: Form, n: nat) { if form.Short? then n < 126 else n < Pow256(Width(form)) }

  function LengthCode(form: Form, n: nat): Byte
    requires Fits(form, n)
  {
    match form case Short => n case Medium => 126 case Long => 127
  }

  predicate ValidKey(key: Option<seq<Byte>>) { key.Some? ==> |key.value| == 4 }

  function KeyBytes(key: Option<seq<Byte>>): seq<Byte> { if key.Some? then key.value else [] }

  /** The masked payload of a client, the plain payload of a server. */
  function Body(key: Option<seq<Byte>>, data: seq<Byte>): seq<Byte>
    requires ValidKey(key)
  {
    if key.Some? then Mask(data, key.value) else data
  }

  /** One frame: any first byte with the text opcode, any length form that fits. */
  function Frame(first: Byte, form: Form, key: Option<seq<Byte>>, data: seq<Byte>): seq<Byte>
    requires ValidKey(key) && Fits(form, |data|)
  {
    [first, LengthCode(form, |data|) + (if key.Some? then 128 else 0)] +
    (if form.Short? then [] else Pack(|data|, Width(form))) + KeyBytes(key) + Body(key, data)
  }

  /** `Nothing` is the source's `None`: closed, truncated or not a text frame.  `Broken` is
      the error of unpacking a truncated length. */
  datatype Received = Payload(data: seq<Byte>) | Nothing | Broken

  function Take(s: seq<Byte>, n: nat): seq<Byte> { if n <= |s| then s[..n] else s }
  function Drop(s: seq<Byte>, n: nat): seq<Byte> { if n <= |s| then s[n..] else [] }

  /** What is received from a stream and what is left of it. */
  function Receive(stream: seq<Byte>): (Received, seq<Byte>) {
    if |stream| < 2 then (Nothing, [])
    else if stream[0] % 16 != 1 then (Nothing, stream[2..])
    else ReceiveLength(stream[1] % 128, stream[1] >= 128, stream[2..])
  }

  function ReceiveLength(code: Byte, masked: bool, stream: seq<Byte>): (Received, seq<Byte>) {
    var width := if code == 126 then 2 else if code == 127 then 8 else 0;
    if |stream| < width then (Broken, [])
    else ReceiveBody(if width == 0 then code else Unpack(stream[..width]), masked, stream[width..])
  }

  function ReceiveBody(length: nat, masked: bool, stream: seq<Byte>): (Received, seq<Byte>) {
    var key := if masked then Take(stream, 4) else [];
    var rest := if masked then Drop(stream, 4) else stream;
    if |rest| < length then (Nothing, [])
    else if masked && length > 0 then (Payload(Mask(rest[..length], key)), rest[length..])
    else (Payload(rest[..length]), rest[length..])
  }

  /* ---- the connection ---- */

  function MinimalForm(n: nat): Form {
    if n < 126 then Short else if n <= 0xFFFF then Medium else Long
  }

  class Connection {
    var input: seq<Byte>
    var output: seq<Byte>

    constructor (input: seq<Byte>)
      ensures this.input == input && output == []
    {
      this.input, output := input, [];
    }

    /** A blocking read: short only at the end of the stream. */
    method Read(n: nat) returns (bytes: seq<Byte>)
      modifies `input
      ensures bytes == Take(old(input), n) && input == Drop(old(input), n)
    {
      if n <= |input| {
        bytes, input := input[..n], input[n..];
      } else {
        bytes, input := input, [];
      }
    }

    method ReceiveFrame() returns (r: Received)
      modifies `input
      ensures (r, input) == Receive(old(input))
    {
      var header := Read(2);
      if |header| != 2 { return Nothing; }
      var opcode, lengthByte := header[0] % 16, header[1];
      if opcode == 8 { return Nothing; }
      if opcode != 1 { return Nothing; }
      var length: nat := lengthByte % 128;
      if length == 126 {
        var bytes := Read(2);
        if |bytes| != 2 { return Broken; }
        length := Unpack(bytes);
      } else if length == 127 {
        var bytes := Read(8);
        if |bytes| != 8 { return Broken; }
        length := Unpack(bytes);
      }
      var masked := lengthByte >= 128;
      var key := [];
      if masked { key := Read(4); }
      var data := Read(length);
      if |data| != length { return Nothing; }
      if masked && length > 0 { data := Mask(data, key); }
      return Payload(data);
    }

    /** The frame of `data` in the shortest form, unmasked and final. */
    method SendFrame(data: seq<Byte>)
      requires |data| < Pow256(8)
      modifies `output
      ensures Fits(MinimalForm(|data|), |data|)
      ensures output == old(output) + Frame(0x81, MinimalForm(|data|), None, data)
    {
      MinimalFits(|data|);
      var header;
      if |data| < 126 {
        header := [0x81, |data|];
      } else if |data| <= 0xFFFF {
        header := [0x81, 126] + Pack(|data|, 2);
      } else {
        header := [0x81, 127] + Pack(|data|, 8);
      }
      output := output + (header + data);
    }
  }

  lemma MinimalFits(n: nat)
    requires n < Pow256(8)
    ensures Fits(MinimalForm(n), n)
  {
    assert Pow256(2) == 256 * Pow256(1) == 65536;
  }

  /** No other form that fits is shorter. */
  lemma MinimalIsShortest(n: nat, form: Form)
    requires Fits(form, n)
    ensures Width(MinimalForm(n)) <= Width(form)
  {
    assert Pow256(2) == 256 * Pow256(1) == 65536;
  }

  /* ---- the theorems ---- */

  lemma BodyArrives(key: Option<seq<Byte>>, data: seq<Byte>, rest: seq<Byte>)
    requires ValidKey(key)
    ensures ReceiveBody(|data|, key.Some?, KeyBytes(key) + Body(key, data) + rest) == (Payload(data), rest)
  {
    hide Mask;
    var body := Body(key, data);
    var stream := KeyBytes(key) + body + rest;
    if key.Some? {
      MaskTwice(data, key.value);
      assert stream[..4] == key.value && stream[4..] == body + rest;
    } else {
      assert stream == body + rest;
    }
    assert (body + rest)[..|body|] == body && (body + rest)[|body|..] == rest;
  }

  lemma LengthArrives(form: Form, key: Option<seq<Byte>>, data: seq<Byte>, rest: seq<Byte>)
    requires ValidKey(key) && Fits(form, |data|)
    ensures var packed := if form.Short? then [] else Pack(|data|, Width(form));
            ReceiveLength(LengthCode(form, |data|), key.Some?, packed + (KeyBytes(key) + Body(key, data) + rest))
            == (Payload(data), rest)
  {
    hide Body, ReceiveBody, Unpack, Pack, Pow256;
    var tail := KeyBytes(key) + Body(key, data) + rest;
    BodyArrives(key, data, rest);
    if form.Short? {
      assert [] + tail == tail && tail[0..] == tail;
    } else {
      var packed := Pack(|data|, Width(form));
      UnpackPack(|data|, Width(form));
      assert (packed + tail)[..Width(form)] == packed && (packed + tail)[Width(form)..] == tail;
    }
  }

  /** A text frame, plain or masked with any key, in any length form that fits, delivers
      exactly its payload and consumes exactly itself. */
  lemma FrameArrives(first: Byte, form: Form, key: Option<seq<Byte>>, data: seq<Byte>, rest: seq<Byte>)
    requires first % 16 == 1 && ValidKey(key) && Fits(form, |data|)
    ensures Receive(Frame(first, form, key, data) + rest) == (Payload(data), rest)
  {
    hide Body, ReceiveLength, Pack, Pow256;
    var packed := if form.Short? then [] else Pack(|data|, Width(form));
    var tail := packed + (KeyBytes(key) + Body(key, data) + rest);
    var stream := Frame(first, form, key, data) + rest;
    assert stream[2..] == tail;
    assert stream[0] == first && stream[1] % 128 == LengthCode(form, |data|) && (stream[1] >= 128 <==> key.Some?);
    LengthArrives(form, key, data, rest);
  }

  datatype Sent = Sent(first: Byte, form: Form, key: Option<seq<Byte>>, data: seq<Byte>)

  predicate Legal(f: Sent) { f.first % 16 == 1 && ValidKey(f.key) && Fits(f.form, |f.data|) }

  function Wire(frames: seq<Sent>): seq<Byte>
    requires forall i :: 0 <= i < |frames| ==> Legal(frames[i])
  {
    if frames == [] then []
    else
      assert Legal(frames[0]);
      Frame(frames[0].first, frames[0].form, frames[0].key, frames[0].data) + Wire(frames[1..])
  }

  /** The results of reading `n` times. */
  function ReceiveMany(stream: seq<Byte>, n: nat): (seq<Received>, seq<Byte>)
    decreases n
  {
    if n == 0 then ([], stream)
    else
      var (r, rest) := Receive(stream);
      var (more, left) := ReceiveMany(rest, n - 1);
      ([r] + more, left)
  }

  /** Frames sent back to back are received one by one, in order, with nothing left over. */
  lemma {:induction false} FramesArriveInOrder(frames: seq<Sent>, rest: seq<Byte>)
    requires forall i :: 0 <= i < |frames| ==> Legal(frames[i])
    ensures ReceiveMany(Wire(frames) + rest, |frames|) ==
            (seq(|frames|, i requires 0 <= i < |frames| => Payload(frames[i].data)), rest)
    decreases |frames|
  {
    hide Frame, Receive;
    if frames == [] {
      assert Wire(frames) + rest == rest;
    } else {
      var f := frames[0];
      var bytes := Frame(f.first, f.form, f.key, f.data);
      assert Wire(frames) + rest == bytes + (Wire(frames[1..]) + rest);
      FrameArrives(f.first, f.form, f.key, f.data, Wire(frames[1..]) + rest);
      FramesArriveInOrder(frames[1..], rest);
      assert [Payload(f.data)] + seq(|frames[1..]|, i requires 0 <= i < |frames[1..]| => Payload(frames[1..][i].data))
          == seq(|frames|, i requires 0 <= i < |frames| => Payload(frames[i].data));
    }
  }

  function FormOf(code: Byte): Form {
    if code == 126 then Medium else if code == 127 then Long else Short
  }

  /** The only stream that delivers a payload without holding a whole frame: an empty
      masked payload whose key is cut off by the end of the stream. */
  predicate KeyCutOff(stream: seq<Byte>) {
    |stream| >= 2 && stream[1] >= 128 && |stream| < 2 + Width(FormOf(stream[1] % 128)) + 4
  }

  lemma MaskedBodyAccepted(key: seq<Byte>, body: seq<Byte>)
    requires |key| == 4
    ensures Body(Some(key), if |body| > 0 then Mask(body, key) else body) == body
  {
    hide Mask;
    MaskTwice(body, key);
  }

  lemma BodyAccepted(length: nat, masked: bool, stream: seq<Byte>)
    requires ReceiveBody(length, masked, stream).0.Payload?
    requires masked ==> |stream| >= 4
    ensures var (r, rest) := ReceiveBody(length, masked, stream);
            var key := if masked then Some(stream[..4]) else None;
            |r.data| == length && stream == KeyBytes(key) + Body(key, r.data) + rest
  {
    hide Mask;
    var tail := if masked then stream[4..] else stream;
    var body := tail[..length];
    assert tail == body + tail[length..];
    if masked {
      assert stream == stream[..4] + tail;
      MaskTwice(body, stream[..4]);
      MaskedBodyAccepted(stream[..4], body);
      assert stream == stream[..4] + body + tail[length..];
    } else {
      assert [] + stream == stream;
    }
  }

  lemma LengthAccepted(code: Byte, masked: bool, stream: seq<Byte>)
    requires code < 128 && ReceiveLength(code, masked, stream).0.Payload?
    requires masked ==> |stream| >= Width(FormOf(code)) + 4
    ensures var (r, rest) := ReceiveLength(code, masked, stream);
            var form := FormOf(code);
            var w := Width(form);
            var key := if masked then Some(stream[w..w + 4]) else None;
            Fits(form, |r.data|) && code == LengthCode(form, |r.data|) &&
            stream == (if form.Short? then [] else Pack(|r.data|, w)) + KeyBytes(key) + Body(key, r.data) + rest
  {
    hide Body, Unpack, Pack, Pow256, ReceiveBody;
    var w := Width(FormOf(code));
    var packed, tail := stream[..w], stream[w..];
    assert stream == packed + tail;
    PackUnpack(packed);
    BodyAccepted(if w == 0 then code else Unpack(packed), masked, tail);
    assert masked ==> stream[w..w + 4] == tail[..4];
  }

  /** An empty masked payload is delivered even when its key is cut off. */
  lemma CutOffIsEmpty(stream: seq<Byte>)
    requires Receive(stream).0.Payload? && KeyCutOff(stream)
    ensures Receive(stream) == (Payload([]), [])
  {
    hide Unpack, Pow256, Mask;
  }

  /** Conversely, whatever delivers a payload starts with a text frame of that payload,
      and what is left is what follows the frame; but for the cut-off key. */
  lemma DeliveredIsAFrame(stream: seq<Byte>)
    requires Receive(stream).0.Payload?
    ensures stream[0] % 16 == 1
    ensures if KeyCutOff(stream) then Receive(stream) == (Payload([]), [])
            else
              var (r, rest) := Receive(stream);
              var form := FormOf(stream[1] % 128);
              var at := 2 + Width(form);
              var key := if stream[1] >= 128 then Some(stream[at..at + 4]) else None;
              Fits(form, |r.data|) && stream == Frame(stream[0], form, key, r.data) + rest
  {
    hide Body, Pack, Pow256, ReceiveLength, Fits;
    if KeyCutOff(stream) {
      CutOffIsEmpty(stream);
    } else {
      LengthAccepted(stream[1] % 128, stream[1] >= 128, stream[2..]);
      assert stream == [stream[0], stream[1]] + stream[2..];
      var at := 2 + Width(FormOf(stream[1] % 128));
      assert stream[1] >= 128 ==> stream[at..at + 4] == stream[2..][at - 2..at + 2];
    }
  }

  ghost predicate StartsWithFrame(stream: seq<Byte>) {
    exists f: Sent, rest: seq<Byte> :: Legal(f) && stream == Frame(f.first, f.form, f.key, f.data) + rest
  }

  lemma FrameIsLongEnough(f: Sent, rest: seq<Byte>)
    requires Legal(f)
    ensures !KeyCutOff(Frame(f.first, f.form, f.key, f.data) + rest)
  {
    hide Body, Pack, Pow256;
    var stream := Frame(f.first, f.form, f.key, f.data) + rest;
    assert stream[1] == LengthCode(f.form, |f.data|) + if f.key.Some? then 128 else 0;
    if f.key.Some? { assert FormOf(stream[1] % 128) == f.form; }
  }

  /** A stream that delivers a payload starts with a whole frame exactly when its key is
      not cut off. */
  lemma DeliveredWholeIff(stream: seq<Byte>)
    requires Receive(stream).0.Payload?
    ensures StartsWithFrame(stream) <==> !KeyCutOff(stream)
  {
    hide Frame, ReceiveLength, Pow256;
    if StartsWithFrame(stream) {
      var f: Sent, rest: seq<Byte> :| Legal(f) && stream == Frame(f.first, f.form, f.key, f.data) + rest;
      FrameIsLongEnough(f, rest);
    }
    DeliveredIsAFrame(stream);
    if !KeyCutOff(stream) {
      var (r, rest) := Receive(stream);
      var form := FormOf(stream[1] % 128);
      var at := 2 + Width(form);
      var key := if stream[1] >= 128 then Some(stream[at..at + 4]) else None;
      var f := Sent(stream[0], form, key, r.data);
      assert Legal(f) && stream == Frame(f.first, f.form, f.key, f.data) + rest;
    }
  }

  /** A masked empty frame whose key never arrives. */
  lemma CutOffKeyIsDelivered()
    ensures Receive([0x81, 0x80]) == (Payload([]), []) && !StartsWithFrame([0x81, 0x80])
  {
    var stream := [0x81, 0x80];
    assert stream[2..] == [];
    DeliveredWholeIff(stream);
  }

  /** What does not deliver: nothing at all, another opcode, a cut length or a cut payload. */
  lemma NotDelivered(stream: seq<Byte>)
    ensures |stream| < 2 ==> Receive(stream) == (Nothing, [])
    ensures |stream| >= 2 && stream[0] % 16 != 1 ==> Receive(stream) == (Nothing, stream[2..])
    ensures |stream| >= 2 && stream[0] % 16 == 1 && |stream| < 2 + Width(FormOf(stream[1] % 128)) ==>
              Receive(stream) == (Broken, [])
    ensures Receive(stream).0 == Broken ==>
              |stream| >= 2 && stream[0] % 16 == 1 && |stream| < 2 + Width(FormOf(stream[1] % 128))
  {
    hide Unpack, Mask, Pow256;
  }

  /** A frame cut anywhere after its length delivers nothing, unless nothing but the key of
      an empty payload is missing. */
  lemma CutFrameIsNotDelivered(f: Sent, n: nat)
    requires Legal(f) && n < |Frame(f.first, f.form, f.key, f.data)| && n >= 2 + Width(f.form) && f.data != []
    ensures Receive(Frame(f.first, f.form, f.key, f.data)[..n]).0 == Nothing
  {
    hide Body, Pack, Pow256, Unpack;
    var frame := Frame(f.first, f.form, f.key, f.data);
    var stream := frame[..n];
    var w := Width(f.form);
    assert stream[0] == f.first && stream[1] == frame[1];
    assert frame[1] % 128 == LengthCode(f.form, |f.data|) && (frame[1] >= 128 <==> f.key.Some?);
    BodyLength(f.key, f.data);
    var packed := if f.form.Short? then [] else Pack(|f.data|, w);
    assert stream[2..][..w] == packed by {
      assert frame[2..][..w] == packed;
      assert stream[2..][..w] == frame[2..][..w];
    }
    if !f.form.Short? { UnpackPack(|f.data|, w); }
  }

  lemma BodyLength(key: Option<seq<Byte>>, data: seq<Byte>)
    requires ValidKey(key)
    ensures |Body(key, data)| == |data|
  {}
}
