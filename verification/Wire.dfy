/** The wire stack: options printed to little-endian 16-bit words, and the PDU
    frame around them with its 8+24-bit header.

    A uint8_t is a `byte`, a uint16_t word is the pair of bytes it occupies in
    memory (low byte first), so a shift by whole bytes is a multiplication.  The
    functions say what the bytes are; module Codec has the in-place routines that
    write exactly those bytes. */
module Wire {

  type byte = x: int | 0 <= x < 256

  type uint32 = x: int | 0 <= x < 0x1_0000_0000

  const MAX_STRING_LENGTH := 1000
  const MAX_SESSION_ID := 0xFF_FFFF
  const OPTION_HEADER := 4
  const OBJECTIVE_HEADER := 6

  function Zeros(n: nat): (z: seq<byte>)
    ensures |z| == n
    ensures forall i | 0 <= i < n :: z[i] == 0
  {
    seq(n, (_: int) => 0)
  }

  /** `char buffer[MAXSTRINGLENGTH]`. */
  type Buffer = s: seq<byte> | |s| == MAX_STRING_LENGTH witness Zeros(MAX_STRING_LENGTH)

  /** An objective value: a C string that fits one PDU behind the objective header. */
  type Value = s: seq<byte> | |s| <= MAX_STRING_LENGTH - OBJECTIVE_HEADER && 0 !in s witness []

  datatype Maybe<T> = None | Some(value: T)

  datatype Result<T> = Ok(value: T) | Err(errno: Errno)

  datatype Errno =
    | SUCCESS
    | ERROR
    | TIMEOUT
    | SEND_ERR
    | OPTIONS_TOO_LONG_ERR
    | SESSION_ID_TOO_LONG_ERR
    | MSG_TYPE_ERR
    | NULL_POINT_ERR
    | RECV_ERR
    | SELECT_ERR
    | SERVER_SEND_UNEXPECTED_MSG_TYPE_ERR
    | SERVER_RECV_UNEXPECTED_MSG_TYPE_ERR
    | CLIENT_SEND_UNEXPECTED_MSG_TYPE_ERR
    | CLIENT_RECV_NOTHING_ERR
    | CLIENT_RECV_UNEXPECTED_MSG_TYPE_ERR
    | CLIENT_RECV_NOMATCHED_SESSION_ID_ERR
    | CLIENT_UNEXPECTED_STATE_ERR

  datatype MsgType = DISCOVERY_MSG | RESPONSE_MSG | REQUEST_MSG | NEGO_MSG | NEGO_END_MSG | WAIT_MSG

  /** `enum client_states`. */
  datatype ClientState = OFF | WAIT_RESPONSE | WAIT | INFORMED | END | NEGOING

  datatype OptionType =
    | Divert | Accept | Decline | WaitingTime | Locator | Discovery | Negotiation | Synchronization

  /** Class `Option`. */
  datatype Opt = Opt(kind: OptionType, value: seq<byte>)

  /** Class `Objective_Option`. */
  datatype Objective = Objective(kind: OptionType, value: seq<byte>, loopCount: byte, flag: byte)

  // ---------- options ----------

  function TypeNum(t: OptionType): (n: byte)
    ensures n < 8 && TypeOf(n) == t
  {
    match t
    case Divert => 0
    case Accept => 1
    case Decline => 2
    case WaitingTime => 3
    case Locator => 4
    case Discovery => 5
    case Negotiation => 6
    case Synchronization => 7
  }

  /** The switch of both `parse_bits`.  The source leaves `type` unset for a number
      above 7; the model then answers Divert. */
  function TypeOf(n: int): OptionType {
    if n == 1 then Accept
    else if n == 2 then Decline
    else if n == 3 then WaitingTime
    else if n == 4 then Locator
    else if n == 5 then Discovery
    else if n == 6 then Negotiation
    else if n == 7 then Synchronization
    else Divert
  }

  function WordBytes(w: int): (b: seq<byte>)
    requires 0 <= w < 0x1_0000
    ensures |b| == 2
  {
    [w % 256, w / 256]
  }

  function Word(data: seq<byte>, i: nat): (w: int)
    requires 2 * i + 1 < |data|
    ensures 0 <= w < 0x1_0000
  {
    var lo: int := data[2 * i];
    var hi: int := data[2 * i + 1];
    lo + 256 * hi
  }

  function OptionBits(o: Opt): (bits: seq<byte>)
    requires |o.value| < 0x1_0000
    ensures |bits| == OPTION_HEADER + |o.value|
  {
    WordBytes(TypeNum(o.kind)) + WordBytes(|o.value|) + o.value
  }

  /** The third word is `(loop_count << 8) | flag`: the two halves do not overlap,
      so it is a sum (see OrIsSum). */
  function ObjectiveBits(o: Objective): (bits: seq<byte>)
    requires |o.value| < 0x1_0000
    ensures |bits| == OBJECTIVE_HEADER + |o.value|
  {
    WordBytes(TypeNum(o.kind)) + WordBytes(|o.value|) + WordBytes(256 * o.loopCount + o.flag) + o.value
  }

  lemma OrIsSum(count: bv16, flag: bv16)
    requires count < 256 && flag < 256
    ensures (count << 8) | flag == (count << 8) + flag
    ensures ((count << 8) | flag) >> 8 == count
    ensures ((count << 8) | flag) & 0xFF == flag
  {
  }

  /** The C string at the start of `s`: what strncpy leaves readable. */
  function CString(s: seq<byte>): (r: seq<byte>)
    ensures r <= s
    ensures 0 !in r
    ensures |r| < |s| ==> s[|r|] == 0
    ensures 0 !in s ==> r == s
  {
    if s == [] || s[0] == 0 then [] else [s[0]] + CString(s[1..])
  }

  /** `len` bytes from `offset`, as far as the buffer goes. */
  function Window(data: seq<byte>, offset: nat, len: nat): seq<byte>
    requires offset <= |data|
  {
    data[offset..if offset + len <= |data| then offset + len else |data|]
  }

  function ParseOption(data: seq<byte>): (o: Opt)
    requires |data| >= OPTION_HEADER
    ensures 0 !in o.value
  {
    Opt(TypeOf(Word(data, 0)), CString(Window(data, OPTION_HEADER, Word(data, 1))))
  }

  function ParseObjective(data: seq<byte>): (o: Objective)
    requires |data| >= OBJECTIVE_HEADER
    ensures 0 !in o.value && |o.value| <= |data| - OBJECTIVE_HEADER
  {
    Objective(TypeOf(Word(data, 0)), CString(Window(data, OBJECTIVE_HEADER, Word(data, 1))),
              Word(data, 2) / 256, Word(data, 2) % 256)
  }

  /** `memcpy(pad, bits, |bits|)`: the bytes of `pad` behind `bits` stay. */
  function Overlay(bits: seq<byte>, pad: Buffer): (d: Buffer)
    requires |bits| <= MAX_STRING_LENGTH
    ensures bits <= d
  {
    bits + pad[|bits|..]
  }

  /** Printing is undone by parsing, whatever bytes lie behind the option. */
  lemma ObjectiveRoundTrip(o: Objective, data: seq<byte>)
    requires 0 !in o.value && |o.value| < 0x1_0000
    requires ObjectiveBits(o) <= data
    ensures ParseObjective(data) == o
    ensures Word(data, 0) == TypeNum(o.kind) && Word(data, 1) == |o.value|
  {
    var bits := ObjectiveBits(o);
    assert data[..|bits|] == bits;
    assert forall i | 0 <= i < 6 :: data[i] == bits[i];
    assert Word(data, 2) == 256 * o.loopCount + o.flag;
    assert Window(data, 6, |o.value|) == o.value by {
      assert data[6..|bits|] == bits[6..];
    }
  }

  lemma OptionRoundTrip(o: Opt, data: seq<byte>)
    requires 0 !in o.value && |o.value| < 0x1_0000
    requires OptionBits(o) <= data
    ensures ParseOption(data) == o
  {
    var bits := OptionBits(o);
    assert data[..|bits|] == bits;
    assert forall i | 0 <= i < 4 :: data[i] == bits[i];
    assert Window(data, 4, |o.value|) == o.value by {
      assert data[4..|bits|] == bits[4..];
    }
  }

  /** Every message is parsed both ways before its type is looked at.  Of an
      objective option, the plain parser gets type and length right and finds the
      value two bytes early, behind flag and loop count. */
  lemma ObjectiveReadAsOption(o: Objective, data: seq<byte>)
    requires 0 !in o.value && |o.value| < 0x1_0000
    requires ObjectiveBits(o) <= data
    ensures ParseOption(data).kind == ParseObjective(data).kind == o.kind
    ensures ParseOption(data).value == CString(([o.flag, o.loopCount] + o.value)[..|o.value|])
  {
    ObjectiveRoundTrip(o, data);
    var bits := ObjectiveBits(o);
    assert data[..|bits|] == bits;
    assert Window(data, 4, |o.value|) == ([o.flag, o.loopCount] + o.value)[..|o.value|] by {
      assert data[4..|bits|] == bits[4..] == [o.flag, o.loopCount] + o.value;
    }
  }

  /** Of a plain option, the objective parser gets the type right and takes the
      two bytes behind the length as flag and loop count. */
  lemma OptionReadAsObjective(o: Opt, data: seq<byte>)
    requires |o.value| < 0x1_0000
    requires OptionBits(o) <= data && |data| >= OBJECTIVE_HEADER
    ensures ParseObjective(data).kind == ParseOption(data).kind == o.kind
    ensures ParseObjective(data).flag == data[4] && ParseObjective(data).loopCount == data[5]
  {
    hide CString;
    var bits := OptionBits(o);
    assert data[..|bits|] == bits;
    assert forall i | 0 <= i < 2 :: data[i] == bits[i];
  }

  // ---------- the buffers that travel ----------

  /** An objective option at the head of a buffer whose other bytes are `pad`. */
  function ObjectiveData(kind: OptionType, v: Value, count: byte, flag: byte, pad: Buffer): (d: Buffer)
    ensures ParseObjective(d) == Objective(kind, v, count, flag)
    ensures ParseOption(d).kind == kind
    ensures d[0] == TypeNum(kind) && d[1] == 0
  {
    var o := Objective(kind, v, count, flag);
    var d := Overlay(ObjectiveBits(o), pad);
    ObjectiveReadAsOption(o, d);
    ObjectiveRoundTrip(o, d);
    d
  }

  /** An option without a value, as encode pads it. */
  function BareData(kind: OptionType): (d: Buffer)
    ensures ParseOption(d).kind == kind
    ensures d[0] == TypeNum(kind) && d[1] == 0
  {
    var d := Overlay(OptionBits(Opt(kind, [])), Zeros(MAX_STRING_LENGTH));
    OptionRoundTrip(Opt(kind, []), d);
    d
  }

  /** The waiting-time option: WAIT_TIMEOUT_SECOND * 1000 as four bytes. */
  function WaitData(): (d: Buffer)
    ensures ParseOption(d).kind == WaitingTime
  {
    var o := Opt(WaitingTime, [0x10, 0x27, 0, 0]);
    OptionReadAsObjective(o, Overlay(OptionBits(o), Zeros(MAX_STRING_LENGTH)));
    Overlay(OptionBits(o), Zeros(MAX_STRING_LENGTH))
  }

  // ---------- frames ----------

  /** `struct msg`. */
  datatype Frame = Frame(header: uint32, device: uint32, data: seq<byte>)

  /** What decode hands to its caller. */
  datatype Pdu = Pdu(mtype: MsgType, sid: uint32, data: Buffer)

  function MsgCode(t: MsgType): (n: int)
    ensures 1 <= n <= 6 && MsgTypeOf(n) == Some(t)
  {
    match t
    case DISCOVERY_MSG => 1
    case RESPONSE_MSG => 2
    case REQUEST_MSG => 3
    case NEGO_MSG => 4
    case NEGO_END_MSG => 5
    case WAIT_MSG => 6
  }

  function MsgTypeOf(n: int): (t: Maybe<MsgType>)
    ensures t.Some? <==> 1 <= n <= 6
  {
    if n == 1 then Some(DISCOVERY_MSG)
    else if n == 2 then Some(RESPONSE_MSG)
    else if n == 3 then Some(REQUEST_MSG)
    else if n == 4 then Some(NEGO_MSG)
    else if n == 5 then Some(NEGO_END_MSG)
    else if n == 6 then Some(WAIT_MSG)
    else None
  }

  /** `(type << 24) | session_id`, a sum because the id stays below bit 24
      (see HeaderOrIsSum). */
  function Header(t: MsgType, sid: uint32): uint32
    requires sid <= MAX_SESSION_ID
  {
    0x100_0000 * MsgCode(t) + sid
  }

  lemma HeaderOrIsSum(code: bv32, sid: bv32)
    requires code < 256 && sid <= 0xFF_FFFF
    ensures (code << 24) | sid == (code << 24) + sid
    ensures ((code << 24) | sid) >> 24 == code
    ensures ((code << 24) | sid) - (code << 24) == sid
  {
  }

  /** `encode`: the bytes that write_pdu and send_pdu put on the socket. */
  function EncodeFrame(t: MsgType, sid: uint32, device: uint32, data: seq<byte>): Result<Frame> {
    if |data| > MAX_STRING_LENGTH then Err(OPTIONS_TOO_LONG_ERR)
    else if sid > MAX_SESSION_ID then Err(SESSION_ID_TOO_LONG_ERR)
    else Ok(Frame(Header(t, sid), device, data + Zeros(MAX_STRING_LENGTH + 1 - |data|)))
  }

  /** `decode`. */
  function DecodeFrame(f: Frame): Result<Pdu>
    requires |f.data| == MAX_STRING_LENGTH + 1
  {
    match MsgTypeOf(f.header / 0x100_0000)
    case None => Err(MSG_TYPE_ERR)
    case Some(t) => Ok(Pdu(t, f.header - 0x100_0000 * MsgCode(t), f.data[..MAX_STRING_LENGTH]))
  }

  /** decode after encode: type, session id and data survive; the data comes back
      padded with zeros to the buffer length. */
  lemma DecodeOfEncode(t: MsgType, sid: uint32, device: uint32, data: seq<byte>)
    ensures EncodeFrame(t, sid, device, data).Ok? <==> |data| <= MAX_STRING_LENGTH && sid <= MAX_SESSION_ID
    ensures EncodeFrame(t, sid, device, data) == Err(OPTIONS_TOO_LONG_ERR) <==> |data| > MAX_STRING_LENGTH
    ensures EncodeFrame(t, sid, device, data).Ok? ==>
              && |EncodeFrame(t, sid, device, data).value.data| == MAX_STRING_LENGTH + 1
              && DecodeFrame(EncodeFrame(t, sid, device, data).value)
                 == Ok(Pdu(t, sid, Overlay(data, Zeros(MAX_STRING_LENGTH))))
  {
    if |data| <= MAX_STRING_LENGTH && sid <= MAX_SESSION_ID {
      assert Header(t, sid) / 0x100_0000 == MsgCode(t);
      var f := EncodeFrame(t, sid, device, data).value;
      assert f.data[..MAX_STRING_LENGTH] == Overlay(data, Zeros(MAX_STRING_LENGTH));
    }
  }

  /** encode after decode: every accepted frame is rebuilt from its parts, except
      for its 1001st byte, which decode never copies.  A frame is refused exactly
      when its top byte is no message type. */
  lemma EncodeOfDecode(f: Frame)
    requires |f.data| == MAX_STRING_LENGTH + 1
    ensures DecodeFrame(f).Ok? <==> 0x100_0000 <= f.header < 0x700_0000
    ensures DecodeFrame(f).Err? ==> DecodeFrame(f).errno == MSG_TYPE_ERR
    ensures DecodeFrame(f).Ok? ==>
              var p := DecodeFrame(f).value;
              EncodeFrame(p.mtype, p.sid, f.device, p.data)
              == Ok(Frame(f.header, f.device, f.data[..MAX_STRING_LENGTH] + [0]))
  {
    if DecodeFrame(f).Ok? {
      var p := DecodeFrame(f).value;
      assert MsgCode(p.mtype) == f.header / 0x100_0000;
      assert Zeros(1) == [0];
    }
  }

  /** The whole stack.  The option printed by `to_bits`, laid over any buffer
      contents (`pad`, cut off after `size` bytes as the sender chooses), framed,
      unframed and parsed, is the option that went in. */
  lemma FullStackRoundTrip(o: Objective, pad: Buffer, size: nat, t: MsgType, sid: uint32, device: uint32)
    requires 0 !in o.value && |o.value| <= 994
    requires 6 + |o.value| <= size <= 1000
    requires sid <= 0xFF_FFFF
    ensures var sent := EncodeFrame(t, sid, device, Overlay(ObjectiveBits(o), pad)[..size]);
            && sent.Ok? && |sent.value.data| == 1001
            && var got := DecodeFrame(sent.value);
            && got.Ok? && got.value.mtype == t && got.value.sid == sid
            && ParseObjective(got.value.data) == o
            && Word(got.value.data, 1) == |o.value|
  {
    var data := Overlay(ObjectiveBits(o), pad)[..size];
    DecodeOfEncode(t, sid, device, data);
    assert ObjectiveBits(o) <= data <= Overlay(data, Zeros(MAX_STRING_LENGTH));
    ObjectiveRoundTrip(o, Overlay(data, Zeros(MAX_STRING_LENGTH)));
  }

  /** The format on the wire, byte by byte: the numbers of options and messages, and where
      they stand. */
  lemma OptionLayout(v: byte, count: byte, flag: byte)
    ensures ObjectiveBits(Objective(Negotiation, [v], count, flag)) == [6, 0, 1, 0, flag, count, v]
    ensures ObjectiveBits(Objective(Synchronization, [v], count, flag)) == [7, 0, 1, 0, flag, count, v]
    ensures OptionBits(Opt(Divert, [])) == [0, 0, 0, 0] && OptionBits(Opt(Accept, [])) == [1, 0, 0, 0]
    ensures OptionBits(Opt(Decline, [])) == [2, 0, 0, 0] && OptionBits(Opt(WaitingTime, [])) == [3, 0, 0, 0]
    ensures OptionBits(Opt(Locator, [v])) == [4, 0, 1, 0, v] && OptionBits(Opt(Discovery, [v])) == [5, 0, 1, 0, v]
  {
  }

  lemma HeaderLayout(sid: uint32, device: uint32)
    requires sid <= 0xFF_FFFF
    ensures forall t :: EncodeFrame(t, sid, device, []).Ok?
    ensures EncodeFrame(DISCOVERY_MSG, sid, device, []).value.header == 0x100_0000 + sid
    ensures EncodeFrame(RESPONSE_MSG, sid, device, []).value.header == 0x200_0000 + sid
    ensures EncodeFrame(REQUEST_MSG, sid, device, []).value.header == 0x300_0000 + sid
    ensures EncodeFrame(NEGO_MSG, sid, device, []).value.header == 0x400_0000 + sid
    ensures EncodeFrame(NEGO_END_MSG, sid, device, []).value.header == 0x500_0000 + sid
    ensures EncodeFrame(WAIT_MSG, sid, device, []).value.header == 0x600_0000 + sid
  {
  }
}
