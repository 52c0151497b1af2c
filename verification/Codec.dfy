/** The in-place routines of Option.cpp and msg.cpp, and the wire as a whole. */
module Codec {
  import opened Wire

  /** memset(a, 0, size). */
  method MemZero(a: array<byte>)
    modifies a
    ensures a[..] == Zeros(a.Length)
    ensures forall k | 0 <= k < a.Length :: a[k] == 0
  {
    for i := 0 to a.Length
      invariant forall j | 0 <= j < i :: a[j] == 0
    {
      a[i] := 0;
    }
  }

  /** memcpy(a + offset, src, |src|). */
  method MemCopy(a: array<byte>, offset: nat, src: seq<byte>)
    requires offset + |src| <= a.Length
    modifies a
    ensures a[..] == old(a[..offset]) + src + old(a[offset + |src|..])
  {
    for i := 0 to |src|
      invariant forall j | 0 <= j < a.Length :: a[j] == if offset <= j < offset + i then src[j - offset] else old(a[j])
    {
      a[offset + i] := src[i];
    }
  }

  /** `store_last_options`, which both the discovery client and the TCP client use. */
  method StoreLastOptions(last: array<byte>, data: seq<byte>)
    requires last.Length == MAX_STRING_LENGTH && |data| <= MAX_STRING_LENGTH
    modifies last
    ensures last[..] == Overlay(data, Zeros(MAX_STRING_LENGTH))
  {
    MemZero(last);
    MemCopy(last, 0, data);
  }

  /** `*(bits + i) |= w` on memory that is still zero. */
  method OrWord(a: array<byte>, i: nat, w: int)
    requires 2 * i + 1 < a.Length && 0 <= w < 0x1_0000 && a[2 * i] == 0 && a[2 * i + 1] == 0
    modifies a
    ensures a[..] == old(a[..2 * i]) + WordBytes(w) + old(a[2 * i + 2..])
    ensures forall k | 0 <= k < a.Length && k != 2 * i && k != 2 * i + 1 :: a[k] == old(a[k])
  {
    a[2 * i] := w % 256;
    a[2 * i + 1] := w / 256;
  }

  /** The zeroed allocation with the two words that every option starts with. */
  method StartBits(kind: OptionType, len: nat, header: nat) returns (bits: array<byte>)
    requires len < 0x1_0000 && header >= OPTION_HEADER
    ensures fresh(bits) && bits.Length == len + header
    ensures bits[..] == WordBytes(TypeNum(kind)) + WordBytes(len) + Zeros(len + header - OPTION_HEADER)
  {
    bits := new byte[len + header];
    MemZero(bits);
    OrWord(bits, 0, TypeNum(kind));
    OrWord(bits, 1, len);
  }

  method OptionToBits(o: Opt) returns (bits: array<byte>)
    requires |o.value| < 0x1_0000
    ensures fresh(bits) && bits[..] == OptionBits(o)
  {
    bits := StartBits(o.kind, |o.value|, OPTION_HEADER);
    MemCopy(bits, OPTION_HEADER, o.value);
  }

  method ObjectiveToBits(o: Objective) returns (bits: array<byte>)
    requires |o.value| < 0x1_0000
    ensures fresh(bits) && bits[..] == ObjectiveBits(o)
  {
    bits := StartBits(o.kind, |o.value|, OBJECTIVE_HEADER);
    assert bits[4] == bits[..][4] == 0 && bits[5] == bits[..][5] == 0;
    OrWord(bits, 2, 256 * o.loopCount + o.flag);
    MemCopy(bits, OBJECTIVE_HEADER, o.value);
  }

  /** The copying loop of strncpy over the bytes it may look at. */
  method CopyUntilNul(w: seq<byte>) returns (s: seq<byte>)
    ensures s == CString(w)
  {
    hide CString;
    s := [];
    var i := 0;
    assert w[0..] == w;
    while i < |w| && w[i] != 0
      invariant 0 <= i <= |w|
      invariant CString(w) == s + CString(w[i..])
      decreases |w| - i
    {
      CStringFrom(w, i);
      assert s + ([w[i]] + CString(w[i + 1..])) == (s + [w[i]]) + CString(w[i + 1..]);
      s := s + [w[i]];
      i := i + 1;
    }
    CStringFrom(w, i);
  }

  /** strncpy from data + offset, at most len bytes, up to the first NUL. */
  method StrNCopy(data: array<byte>, offset: nat, len: nat) returns (s: seq<byte>)
    requires offset <= data.Length
    ensures s == CString(Window(data[..], offset, len))
  {
    hide CString;
    s := CopyUntilNul(Window(data[..], offset, len));
  }

  lemma CStringFrom(w: seq<byte>, i: nat)
    requires i <= |w|
    ensures CString(w[i..])
            == if i < |w| && w[i] != 0 then [w[i]] + CString(w[i + 1..]) else []
  {
    if i < |w| {
      assert w[i..][0] == w[i] && w[i..][1..] == w[i + 1..];
    }
  }

  method OptionParseBits(bits: array<byte>) returns (o: Opt)
    requires bits.Length >= OPTION_HEADER
    ensures o == ParseOption(bits[..])
  {
    var value := StrNCopy(bits, OPTION_HEADER, Word(bits[..], 1));
    o := Opt(TypeOf(Word(bits[..], 0)), value);
  }

  method ObjectiveParseBits(bits: array<byte>) returns (o: Objective)
    requires bits.Length >= OBJECTIVE_HEADER
    ensures o == ParseObjective(bits[..])
  {
    var w := Word(bits[..], 2);
    var value := StrNCopy(bits, OBJECTIVE_HEADER, Word(bits[..], 1));
    o := Objective(TypeOf(Word(bits[..], 0)), value, w / 256, w % 256);
  }

  /** `struct msg`, filled in place. */
  class Msg {
    var header: uint32
    var device: uint32
    const data: array<byte>

    constructor ()
      ensures fresh(data) && data.Length == MAX_STRING_LENGTH + 1
    {
      header, device := 0, 0;
      data := new byte[MAX_STRING_LENGTH + 1];
    }

    function AsFrame(): Frame
      reads this, data
    {
      Frame(header, device, data[..])
    }
  }

  /** `device` is what generate_random returns. */
  method Encode(m: Msg, t: MsgType, sid: uint32, device: uint32, data: seq<byte>) returns (r: Errno)
    requires m.data.Length == MAX_STRING_LENGTH + 1
    modifies m, m.data
    ensures match EncodeFrame(t, sid, device, data)
            case Ok(f) => r == SUCCESS && m.AsFrame() == f
            case Err(e) => r == e && m.AsFrame() == old(m.AsFrame())
  {
    if |data| > MAX_STRING_LENGTH { return OPTIONS_TOO_LONG_ERR; }
    if sid > MAX_SESSION_ID { return SESSION_ID_TOO_LONG_ERR; }
    MemZero(m.data);
    m.header := Header(t, sid);
    m.device := device;
    MemCopy(m.data, 0, data);
    assert m.data[..] == data + Zeros(MAX_STRING_LENGTH + 1 - |data|);
    return SUCCESS;
  }

  /** Out-parameters are written only on success. */
  method Decode(m: Msg?, data: array<byte>) returns (r: Errno, t: MsgType, sid: uint32, size: nat)
    requires m != null ==> m.data.Length == MAX_STRING_LENGTH + 1 && m.data != data
    requires data.Length == MAX_STRING_LENGTH
    modifies data
    ensures m == null ==> r == NULL_POINT_ERR
    ensures m != null ==>
              match DecodeFrame(m.AsFrame())
              case Ok(p) => r == SUCCESS && Pdu(t, sid, data[..]) == p && size == MAX_STRING_LENGTH + 1
              case Err(e) => r == e
    ensures r != SUCCESS ==> data[..] == old(data[..])
  {
    t, sid, size := DISCOVERY_MSG, 0, 0;
    if m == null { return NULL_POINT_ERR, t, sid, size; }
    var found := MsgTypeOf(m.header / 0x100_0000);
    if found.None? { return MSG_TYPE_ERR, t, sid, size; }
    t := found.value;
    sid := m.header - 0x100_0000 * MsgCode(t);
    MemCopy(data, 0, m.data[..MAX_STRING_LENGTH]);
    return SUCCESS, t, sid, m.data.Length;
  }

  // ---------- the wire under a conversation ----------

  /** The server hands `encode` just the bytes of an option; the frame is that of the
      zero-padded buffer. */
  lemma ShortWriteIsPadded(t: MsgType, sid: uint32, device: uint32, bits: seq<byte>)
    requires |bits| <= MAX_STRING_LENGTH
    ensures EncodeFrame(t, sid, device, bits)
            == EncodeFrame(t, sid, device, Overlay(bits, Zeros(MAX_STRING_LENGTH)))
  {
    var d := Overlay(bits, Zeros(MAX_STRING_LENGTH));
    assert bits + Zeros(MAX_STRING_LENGTH + 1 - |bits|) == d + Zeros(1);
  }

  function EncodeAll(stream: seq<Pdu>, devices: seq<uint32>): seq<Frame>
    requires |stream| == |devices| && forall p | p in stream :: p.sid <= MAX_SESSION_ID
  {
    if stream == [] then []
    else
      [EncodeFrame(stream[0].mtype, stream[0].sid, devices[0], stream[0].data).value]
      + EncodeAll(stream[1..], devices[1..])
  }

  /** What read_pdu returns for a sequence of frames, those refused left out. */
  function DecodeAll(frames: seq<Frame>): seq<Pdu>
    requires forall f | f in frames :: |f.data| == MAX_STRING_LENGTH + 1
  {
    if frames == [] then []
    else
      (match DecodeFrame(frames[0]) case Ok(p) => [p] case Err(_) => []) + DecodeAll(frames[1..])
  }

  /** A conversation goes over the wire unchanged, whatever device ids are drawn. */
  lemma {:induction false} WireIsTransparent(stream: seq<Pdu>, devices: seq<uint32>)
    requires |stream| == |devices| && forall p | p in stream :: p.sid <= MAX_SESSION_ID
    ensures forall f | f in EncodeAll(stream, devices) :: |f.data| == MAX_STRING_LENGTH + 1
    ensures DecodeAll(EncodeAll(stream, devices)) == stream
  {
    if stream != [] {
      var p := stream[0];
      DecodeOfEncode(p.mtype, p.sid, devices[0], p.data);
      assert Overlay(p.data, Zeros(MAX_STRING_LENGTH)) == p.data;
      WireIsTransparent(stream[1..], devices[1..]);
    }
  }
}
