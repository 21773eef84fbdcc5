/** WebSocket framing: the wire format of section 5.2 of RFC 6455, and the server's parser and printer against it. */
module WireFormat {
  import opened Bits
  import opened Bytes
  import opened Options

  // ---- The wire format ----

  /** How the payload's length is written: in seven bits, in two further bytes, or in eight. */
  datatype Form = Short | Medium | Long

  const SIZES: nat := 0x1_0000_0000_0000_0000

  function Extra(form: Form): nat { match form case Short => 0 case Medium => 2 case Long => 8 }

  predicate Fits(form: Form, len: nat) {
    match form
    case Short => len <= 125
    case Medium => len < 0x1_0000
    case Long => len < SIZES
  }

  function Code(form: Form, len: nat): Byte
    requires Fits(form, len)
  {
    match form case Short => len case Medium => 126 case Long => 127
  }

  predicate KeyOk(key: Option<seq<Byte>>) { key.Some? ==> |key.value| == 4 }

  lemma XorByte(a: Byte, b: Byte)
    ensures Xor(a, b) < 256
  {
    assert Shl(1, 8) == 256;
    XorBelow(a, b, 8);
  }

  function MaskByte(b: Byte, k: Byte): Byte { XorByte(b, k); Xor(b, k) }

  /** Section 5.3: each byte exclusive-ored with the key byte at its index modulo four. */
  function Masked(key: Option<seq<Byte>>, payload: seq<Byte>): (r: seq<Byte>)
    requires KeyOk(key)
    ensures |r| == |payload|
  {
    if key.None? then payload else MaskWith(key.value, payload)
  }

  function MaskWith(k: seq<Byte>, payload: seq<Byte>): (r: seq<Byte>)
    requires |k| == 4
    ensures |r| == |payload| && forall i :: 0 <= i < |r| ==> r[i] == MaskByte(payload[i], k[i % 4])
  {
    seq(|payload|, i requires 0 <= i < |payload| => MaskByte(payload[i], k[i % 4]))
  }

  /** Masking with the same key twice changes nothing. */
  lemma MaskedTwice(key: Option<seq<Byte>>, payload: seq<Byte>)
    requires KeyOk(key)
    ensures Masked(key, Masked(key, payload)) == payload
  {
    if key.Some? {
      forall i | 0 <= i < |payload| ensures Masked(key, Masked(key, payload))[i] == payload[i] {
        XorTwice(payload[i], key.value[i % 4]);
      }
    }
  }

  function Key(key: Option<seq<Byte>>): seq<Byte> { if key.Some? then key.value else [] }

  function Head(first: Byte, form: Form, key: Option<seq<Byte>>, len: nat): (r: seq<Byte>)
    requires Fits(form, len) && KeyOk(key)
    ensures |r| == 2 + Extra(form) + |Key(key)|
  {
    [first, (if key.Some? then 128 else 0) + Code(form, len)] + ToBytes(len, Extra(form)) + Key(key)
  }

  /** A whole frame. The first byte carries FIN, three reserved bits and the opcode. */
  function Encode(first: Byte, form: Form, key: Option<seq<Byte>>, payload: seq<Byte>): seq<Byte>
    requires Fits(form, |payload|) && KeyOk(key)
  {
    Head(first, form, key, |payload|) + Masked(key, payload)
  }

  lemma LengthReads(form: Form, len: nat)
    requires Fits(form, len)
    ensures !form.Short? ==> BigEndian(ToBytes(len, Extra(form))) == len
  {
    Limits();
    ReadBytes(len, Extra(form));
  }

  /** Length code and length bytes, as section 5.2 lays them out. */
  lemma LengthBytes(form: Form, len: nat)
    requires Fits(form, len)
    ensures var code, bytes := Code(form, len), ToBytes(len, Extra(form));
      match form
      case Short => code == len < 126 && bytes == []
      case Medium => code == 126 && |bytes| == 2 && bytes[0] as nat * 256 + bytes[1] == len
      case Long =>
        && code == 127 && |bytes| == 8
        && (((((((bytes[0] as nat * 256 + bytes[1]) * 256 + bytes[2]) * 256 + bytes[3]) * 256 + bytes[4]) * 256 + bytes[5])
            * 256 + bytes[6]) * 256 + bytes[7]) == len
  {
    LengthReads(form, len);
    var bytes := ToBytes(len, Extra(form));
    match form
    case Short =>
    case Medium => BigEndianOn(bytes, 2);
    case Long => BigEndianOn(bytes, 8);
  }

  lemma BigEndianOn(bs: seq<Byte>, n: nat)
    requires n <= |bs|
    ensures forall k :: 0 < k <= n ==> BigEndian(bs[..k]) == 256 * BigEndian(bs[..k - 1]) + bs[k - 1]
    ensures BigEndian(bs[..0]) == 0 && bs[..|bs|] == bs
  {
    forall k | 0 < k <= n ensures BigEndian(bs[..k]) == 256 * BigEndian(bs[..k - 1]) + bs[k - 1] {
      assert bs[..k][..k - 1] == bs[..k - 1];
    }
  }

  /** Every bit of a byte is turned over exactly where the key byte at its index modulo four has one. */
  ghost predicate TurnedOver(k: seq<Byte>, payload: seq<Byte>, body: seq<Byte>)
    requires |k| == 4
  {
    && |body| == |payload|
    && forall i, j: nat :: 0 <= i < |payload| ==> (Bit(body[i], j) <==> Bit(payload[i], j) != Bit(k[i % 4], j))
  }

  /**
   * A frame byte by byte: first byte, mask bit and length code, length bytes, key, and the payload, each byte of it with
   * the bits of one key byte turned over.
   */
  lemma FrameBytes(first: Byte, form: Form, key: Option<seq<Byte>>, payload: seq<Byte>)
    requires Fits(form, |payload|) && KeyOk(key)
    ensures var f, n := Encode(first, form, key, payload), ToBytes(|payload|, Extra(form));
      var at := 2 + |n| + if key.Some? then 4 else 0;
      && |f| == at + |payload| && f[0] == first && f[1] == Code(form, |payload|) + (if key.Some? then 128 else 0)
      && f[2..2 + |n|] == n && (key.Some? ==> f[2 + |n|..at] == key.value)
      && (key.None? ==> f[at..] == payload)
      && (key.Some? ==> TurnedOver(key.value, payload, f[at..]))
  {
    FrameHead(first, form, key, payload);
    if key.Some? { MaskTurns(key.value, payload); }
  }

  lemma FrameHead(first: Byte, form: Form, key: Option<seq<Byte>>, payload: seq<Byte>)
    requires Fits(form, |payload|) && KeyOk(key)
    ensures var f, n := Encode(first, form, key, payload), ToBytes(|payload|, Extra(form));
      var at := 2 + |n| + if key.Some? then 4 else 0;
      && |f| == at + |payload| && f[0] == first && f[1] == Code(form, |payload|) + (if key.Some? then 128 else 0)
      && f[2..2 + |n|] == n && (key.Some? ==> f[2 + |n|..at] == key.value) && f[at..] == Masked(key, payload)
  {
    var start: seq<Byte> := [first, (if key.Some? then 128 else 0) + Code(form, |payload|)];
    FourParts(start, ToBytes(|payload|, Extra(form)), Key(key), Masked(key, payload));
    assert Encode(first, form, key, payload)[..2] == start;
  }

  lemma FourParts<T>(a: seq<T>, b: seq<T>, c: seq<T>, d: seq<T>)
    ensures var f, i, j, k := a + b + c + d, |a|, |a| + |b|, |a| + |b| + |c|;
      |f| == k + |d| && f[..i] == a && f[i..j] == b && f[j..k] == c && f[k..] == d
  {}

  lemma MaskTurns(k: seq<Byte>, payload: seq<Byte>)
    requires |k| == 4
    ensures TurnedOver(k, payload, MaskWith(k, payload))
  {
    forall i, j: nat | 0 <= i < |payload|
      ensures Bit(MaskWith(k, payload)[i], j) <==> Bit(payload[i], j) != Bit(k[i % 4], j)
    {
      XorBit(payload[i], k[i % 4], j);
    }
  }

  // ---- What the parser computes ----

  datatype Packet = Packet(fin: bool, opcode: nat, mask: bool, payload: seq<Byte>, failedParse: bool)

  /** Throws: the resize of the payload to a length no vector can have. */
  datatype Outcome = Parsed(packet: Packet) | Throws

  function FormOf(code: nat): Form { if code <= 125 then Short else if code == 126 then Medium else Long }

  /** The parser's view of the bytes once there are two of them. */
  function FormIn(bytes: seq<Byte>): Form
    requires |bytes| >= 2
  {
    FormOf(bytes[1] % 128)
  }

  function KeyAt(bytes: seq<Byte>): nat
    requires |bytes| >= 2
  {
    2 + Extra(FormIn(bytes))
  }

  function Start(bytes: seq<Byte>): nat
    requires |bytes| >= 2
  {
    KeyAt(bytes) + if bytes[1] >= 128 then 4 else 0
  }

  function Length(bytes: seq<Byte>): nat
    requires |bytes| >= 2 && |bytes| >= KeyAt(bytes)
  {
    if FormIn(bytes).Short? then bytes[1] % 128 else BigEndian(bytes[2..KeyAt(bytes)])
  }

  function KeyIn(bytes: seq<Byte>): Option<seq<Byte>>
    requires |bytes| >= 2 && |bytes| >= Start(bytes)
  {
    if bytes[1] >= 128 then Some(bytes[KeyAt(bytes)..Start(bytes)]) else None
  }

  /** The sum of offset and length is taken in 64 bits. */
  function Parse(bytes: seq<Byte>): Outcome {
    if |bytes| < 2 then Parsed(Packet(false, 0, false, [], true))
    else
      var fin, opcode, mask := bytes[0] >= 128, bytes[0] % 16, bytes[1] >= 128;
      if |bytes| < Start(bytes) || |bytes| < (Start(bytes) + Length(bytes)) % SIZES then
        Parsed(Packet(fin, opcode, mask, [], true))
      else if Start(bytes) + Length(bytes) >= SIZES then Throws
      else
        var body := bytes[Start(bytes)..Start(bytes) + Length(bytes)];
        Parsed(Packet(fin, opcode, mask, Masked(KeyIn(bytes), body), false))
  }

  // ---- The parser inverts the format ----

  /** The fields of a header, whatever follows it. */
  lemma HeadFields(first: Byte, form: Form, key: Option<seq<Byte>>, len: nat, rest: seq<Byte>)
    requires Fits(form, len) && KeyOk(key)
    ensures var bytes := Head(first, form, key, len) + rest;
      && |bytes| >= 2 && FormIn(bytes) == form && (bytes[1] >= 128) == key.Some? && bytes[0] == first
      && Start(bytes) == |Head(first, form, key, len)| && Length(bytes) == len && KeyIn(bytes) == key
  {
    var bytes := Head(first, form, key, len) + rest;
    LengthReads(form, len);
    assert bytes[1] % 128 == Code(form, len);
    assert bytes[2..KeyAt(bytes)] == ToBytes(len, Extra(form));
    if key.Some? { assert bytes[KeyAt(bytes)..Start(bytes)] == key.value; }
  }

  /** The body after a header that the bytes hold whole. */
  lemma ParseBody(bytes: seq<Byte>)
    requires |bytes| >= 2 && |bytes| >= Start(bytes) && Start(bytes) + Length(bytes) <= |bytes|
    requires Start(bytes) + Length(bytes) < SIZES
    ensures var body := bytes[Start(bytes)..Start(bytes) + Length(bytes)];
      Parse(bytes) == Parsed(Packet(bytes[0] >= 128, bytes[0] % 16, bytes[1] >= 128, Masked(KeyIn(bytes), body), false))
  {}

  /** Any frame in any length form, masked or not, with anything after it, parses to its own fields and payload. */
  lemma ParseEncode(first: Byte, form: Form, key: Option<seq<Byte>>, payload: seq<Byte>, rest: seq<Byte>)
    requires Fits(form, |payload|) && KeyOk(key) && |Encode(first, form, key, payload)| < SIZES
    ensures Parse(Encode(first, form, key, payload) + rest)
         == Parsed(Packet(first >= 128, first % 16, key.Some?, payload, false))
  {
    HeadFields(first, form, key, |payload|, Masked(key, payload) + rest);
    EncodedParts(first, form, key, payload, rest);
    MaskedTwice(key, payload);
    ParseBody(Encode(first, form, key, payload) + rest);
  }

  lemma EncodedParts(first: Byte, form: Form, key: Option<seq<Byte>>, payload: seq<Byte>, rest: seq<Byte>)
    requires Fits(form, |payload|) && KeyOk(key)
    ensures var head, body := Head(first, form, key, |payload|), Masked(key, payload);
      var bytes := Encode(first, form, key, payload) + rest;
      bytes == head + (body + rest) && |bytes| >= |head| + |payload| && bytes[|head|..|head| + |payload|] == body
  {}

  /** Any header the parser can read is the header of its own fields. */
  lemma HeadRead(bytes: seq<Byte>)
    requires |bytes| >= 2 && |bytes| >= Start(bytes)
    ensures KeyOk(KeyIn(bytes)) && Fits(FormIn(bytes), Length(bytes))
    ensures Head(bytes[0], FormIn(bytes), KeyIn(bytes), Length(bytes)) == bytes[..Start(bytes)]
  {
    Limits();
    var form, at := FormIn(bytes), KeyAt(bytes);
    WriteBytes(bytes[2..at]);
    assert bytes[..Start(bytes)] == bytes[..2] + bytes[2..at] + Key(KeyIn(bytes));
    assert bytes[..2] == [bytes[0], (if bytes[1] >= 128 then 128 else 0) + Code(form, Length(bytes))];
  }

  /** Conversely, whatever the parser accepts is such a frame followed by bytes it ignores. */
  lemma ParseSound(bytes: seq<Byte>)
    requires Parse(bytes).Parsed? && !Parse(bytes).packet.failedParse
    ensures |bytes| >= 2 && |bytes| >= Start(bytes) && KeyOk(KeyIn(bytes))
    ensures var p := Parse(bytes).packet;
      && Fits(FormIn(bytes), |p.payload|) && |bytes| >= Start(bytes) + |p.payload|
      && Encode(bytes[0], FormIn(bytes), KeyIn(bytes), p.payload) + bytes[Start(bytes) + |p.payload|..] == bytes
  {
    HeadRead(bytes);
    var start, end := Start(bytes), Start(bytes) + Length(bytes);
    MaskedTwice(KeyIn(bytes), bytes[start..end]);
    assert bytes == bytes[..start] + bytes[start..end] + bytes[end..];
  }

  lemma CutFields(bytes: seq<Byte>, n: nat)
    requires 2 <= n <= |bytes|
    ensures var cut := bytes[..n];
      Start(cut) == Start(bytes) && (n >= Start(bytes) ==> Length(cut) == Length(bytes))
  {
    var cut := bytes[..n];
    assert cut[1] == bytes[1];
    if n >= Start(bytes) { assert cut[2..KeyAt(cut)] == bytes[2..KeyAt(bytes)]; }
  }

  /** A frame cut short anywhere is a failed parse with no payload. */
  lemma ParseTruncated(first: Byte, form: Form, key: Option<seq<Byte>>, payload: seq<Byte>, n: nat)
    requires Fits(form, |payload|) && KeyOk(key) && n < |Encode(first, form, key, payload)| < SIZES
    ensures var out := Parse(Encode(first, form, key, payload)[..n]);
      out.Parsed? && out.packet.failedParse && out.packet.payload == []
  {
    var whole := Encode(first, form, key, payload);
    HeadFields(first, form, key, |payload|, Masked(key, payload));
    assert |whole| == Start(whole) + Length(whole);
    if n >= 2 { CutFields(whole, n); }
    CutFails(whole[..n], |whole|);
  }

  lemma CutFails(cut: seq<Byte>, size: nat)
    requires |cut| < size < SIZES
    requires |cut| >= 2 && |cut| >= Start(cut) ==> Start(cut) + Length(cut) == size
    ensures Parse(cut).Parsed? && Parse(cut).packet.failedParse && Parse(cut).packet.payload == []
  {}

  /** The parser throws exactly on a 64-bit length that takes the frame's size past 64 bits, with a whole header there. */
  lemma ParseThrows(bytes: seq<Byte>)
    ensures Parse(bytes) == Throws <==> |bytes| >= 2 && |bytes| >= Start(bytes) && Start(bytes) + Length(bytes) >= SIZES
    ensures Parse(bytes) == Throws ==> FormIn(bytes).Long?
  {
    Limits();
    if |bytes| >= 2 && |bytes| >= Start(bytes) { WriteBytes(bytes[2..KeyAt(bytes)]); }
  }

  // ---- The printer ----

  function Minimal(len: nat): Form { if len <= 125 then Short else if len <= 0xFFFF then Medium else Long }

  const TEXT_FRAME: nat := 1

  /** The form the printer picks is the shortest one that fits, as section 5.2 asks. */
  lemma MinimalShortest(len: nat, form: Form)
    requires len < SIZES && Fits(form, len)
    ensures Fits(Minimal(len), len) && Extra(Minimal(len)) <= Extra(form)
  {}

  /** What the server prints, its own parser reads back: same payload, final, text, not masked. */
  lemma RoundTrip(str: seq<Byte>)
    requires |str| + 10 < SIZES
    ensures Parse(Encode(128 + TEXT_FRAME, Minimal(|str|), None, str))
         == Parsed(Packet(true, TEXT_FRAME, false, str, false))
  {
    var frame := Encode(128 + TEXT_FRAME, Minimal(|str|), None, str);
    ParseEncode(128 + TEXT_FRAME, Minimal(|str|), None, str, []);
    assert frame + [] == frame;
  }
}

module WebSocket {
  import opened Bytes
  import opened WireFormat
  import opened Options

  lemma NextByte(q: nat, q': nat, w: nat)
    requires q' == q / 256
    ensures ToBytes(q, w + 1) == ToBytes(q', w) + [q % 256]
  {}

  lemma HighBytes(n: nat)
    ensures ToBytes(n / 0x1_0000_0000, 4) == [n / 0x100_0000_0000_0000 % 256, n / 0x1_0000_0000_0000 % 256,
      n / 0x100_0000_0000 % 256, n / 0x1_0000_0000 % 256]
  {
    NextByte(n / 0x1_0000_0000, n / 0x100_0000_0000, 3);
    NextByte(n / 0x100_0000_0000, n / 0x1_0000_0000_0000, 2);
    NextByte(n / 0x1_0000_0000_0000, n / 0x100_0000_0000_0000, 1);
    NextByte(n / 0x100_0000_0000_0000, n / 0x1_0000_0000_0000_0000, 0);
  }

  function EightOf(n: nat): seq<Byte> {
    [n / 0x100_0000_0000_0000 % 256, n / 0x1_0000_0000_0000 % 256, n / 0x100_0000_0000 % 256, n / 0x1_0000_0000 % 256,
     n / 0x100_0000 % 256, n / 0x1_0000 % 256, n / 256 % 256, n % 256]
  }

  lemma EightBytes(n: nat)
    ensures ToBytes(n, 8) == EightOf(n)
  {
    HighBytes(n);
    NextByte(n, n / 256, 7);
    NextByte(n / 256, n / 0x1_0000, 6);
    NextByte(n / 0x1_0000, n / 0x100_0000, 5);
    NextByte(n / 0x100_0000, n / 0x1_0000_0000, 4);
  }

  /** The eight length bytes, pushed one by one. */
  method PushLong(start: seq<Byte>, size: nat) returns (res: seq<Byte>)
    requires size < SIZES
    ensures res == start + EightOf(size)
  {
    res := start + [size / 0x100_0000_0000_0000];
    res := res + [size / 0x1_0000_0000_0000 % 256];
    res := res + [size / 0x100_0000_0000 % 256];
    res := res + [size / 0x1_0000_0000 % 256];
    res := res + [size / 0x100_0000 % 256];
    res := res + [size / 0x1_0000 % 256];
    res := res + [size / 256 % 256];
    res := res + [size % 256];
  }

  lemma MaskedNext(key: Option<seq<Byte>>, body: seq<Byte>, b: Byte)
    requires KeyOk(key)
    ensures Masked(key, body + [b])
         == Masked(key, body) + [if key.Some? then MaskByte(b, key.value[|body| % 4]) else b]
  {
    if key.Some? { MaskNext(key.value, body, b); }
  }

  lemma MaskNext(k: seq<Byte>, body: seq<Byte>, b: Byte)
    requires |k| == 4
    ensures MaskWith(k, body + [b]) == MaskWith(k, body) + [MaskByte(b, k[|body| % 4])]
  {
    var whole, parts := MaskWith(k, body + [b]), MaskWith(k, body) + [MaskByte(b, k[|body| % 4])];
    forall i | 0 <= i < |whole| ensures whole[i] == parts[i] {}
  }

  method ConvertToPacket(str: seq<Byte>) returns (res: seq<Byte>)
    requires |str| < SIZES
    ensures res == Encode(128 + TEXT_FRAME, Minimal(|str|), None, str)
  {
    var size := |str|;
    res := [128 + TEXT_FRAME, 0];
    if size <= 125 {
      res := res[1 := size];
    } else if size <= 0xFFFF {
      res := res + [size / 256];
      res := res + [size % 256];
      res := res[1 := 126];
      assert ToBytes(size, 1) == [size % 256] && ToBytes(size, 2) == [size / 256, size % 256];
    } else {
      res := PushLong(res, size);
      EightBytes(size);
      res := res[1 := 127];
    }
    assert res == Head(128 + TEXT_FRAME, Minimal(size), None, size);
    res := res + str;
  }

  method ReadLength(bytes: seq<Byte>) returns (ok: bool, payloadLen: nat, offset: nat)
    requires |bytes| >= 2
    ensures ok == (|bytes| >= KeyAt(bytes))
    ensures ok ==> offset == KeyAt(bytes) && payloadLen == Length(bytes)
  {
    ok, payloadLen, offset := true, 0, 2;
    var tpayload := bytes[1] % 128;
    if tpayload <= 125 {
      payloadLen := tpayload;
    } else if tpayload == 126 {
      if |bytes| < 4 { return false, 0, 2; }
      payloadLen := BigEndian(bytes[2..4]);
      offset := 4;
    } else {
      if |bytes| < 10 { return false, 0, 2; }
      payloadLen := BigEndian(bytes[2..10]);
      offset := 10;
    }
  }

  method ReadKey(bytes: seq<Byte>, offset: nat) returns (maskKey: seq<Byte>)
    requires offset + 4 <= |bytes|
    ensures maskKey == bytes[offset..offset + 4]
  {
    maskKey := [0, 0, 0, 0];
    for i := 0 to 4
      invariant |maskKey| == 4 && forall k :: 0 <= k < i ==> maskKey[k] == bytes[offset + k]
    {
      maskKey := maskKey[i := bytes[offset + i]];
    }
  }

  method ReadPayload(bytes: seq<Byte>, offset: nat, payloadLen: nat, mask: bool, maskKey: seq<Byte>) returns (payload: seq<Byte>)
    requires offset + payloadLen <= |bytes| && |maskKey| == 4
    ensures payload == Masked(if mask then Some(maskKey) else None, bytes[offset..offset + payloadLen])
  {
    payload := [];
    ghost var key := if mask then Some(maskKey) else None;
    for i := 0 to payloadLen
      invariant payload == Masked(key, bytes[offset..offset + i])
    {
      MaskedNext(key, bytes[offset..offset + i], bytes[offset + i]);
      assert bytes[offset..offset + i + 1] == bytes[offset..offset + i] + [bytes[offset + i]];
      payload := payload + [if mask then MaskByte(bytes[offset + i], maskKey[i % 4]) else bytes[offset + i]];
    }
  }

  /** Length and mask key; failure when the bytes stop before the payload starts. */
  method ReadHead(bytes: seq<Byte>) returns (ok: bool, payloadLen: nat, offset: nat, maskKey: seq<Byte>)
    requires |bytes| >= 2
    ensures ok == (|bytes| >= Start(bytes)) && |maskKey| == 4
    ensures ok ==> offset == Start(bytes) && payloadLen == Length(bytes)
    ensures ok ==> KeyIn(bytes) == if bytes[1] >= 128 then Some(maskKey) else None
  {
    maskKey := [0, 0, 0, 0];
    ok, payloadLen, offset := ReadLength(bytes);
    if ok && bytes[1] >= 128 {
      if |bytes| < offset + 4 { return false, payloadLen, offset, maskKey; }
      maskKey := ReadKey(bytes, offset);
      offset := offset + 4;
    }
  }

  /** The server's parser of a client frame: its result is Parse's. */
  method ParsePacket(bytes: seq<Byte>) returns (out: Outcome)
    ensures out == Parse(bytes)
  {
    var packet := Packet(false, 0, false, [], false);
    if |bytes| < 2 { return Parsed(packet.(failedParse := true)); }
    packet := packet.(fin := bytes[0] >= 128, opcode := bytes[0] % 16, mask := bytes[1] >= 128);
    var ok, payloadLen, offset, maskKey := ReadHead(bytes);
    if !ok { return Parsed(packet.(failedParse := true)); }
    if |bytes| < (offset + payloadLen) % SIZES { return Parsed(packet.(failedParse := true)); }
    if offset + payloadLen >= SIZES { return Throws; }
    var payload := ReadPayload(bytes, offset, payloadLen, packet.mask, maskKey);
    out := Parsed(packet.(payload := payload));
  }
}
