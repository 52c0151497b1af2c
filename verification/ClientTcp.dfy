/** The client half of a negotiation: Client_TCP.cpp.

    `ReadOne` is the reaction to one PDU, as a function on a snapshot of the
    client's fields; `RunReads` feeds it a stream.  The class at the end is the
    source's own recursive code over mutable fields and buffers, proved to behave
    as `RunReads`. */
module ClientTcp {
  import opened Wire
  import opened Bargain
  import Codec

  /** Where the thread that runs the exchange stands. */
  datatype Phase = Idle | Reading | Returned(errno: Errno)

  /** `last` is lastTopOptions, `buffer` the buffer that every read overwrites;
      `verdict` is what the client reports, `configured` what do_configuration got. */
  datatype Client = Client(
    phase: Phase, loopCount: int, flag: int, state: ClientState,
    last: Buffer, buffer: Buffer, verdict: Maybe<Verdict>, configured: seq<Value>)

  /** `junk(c)` is what the uninitialised send_buffer holds when the message with
      count c is laid into it. */
  datatype ClientCfg = ClientCfg(sid: uint32, kind: OptionType, asa: Asa, junk: int -> Buffer)

  function Low8(x: int): byte {
    x % 256
  }

  /** negotiate/synchronize up to the first read: print the objective over the old
      buffer contents and write the REQUEST. */
  function Begin(cfg: ClientCfg, c: Client, v: Value, count: byte, flag: byte): (Client, seq<Pdu>) {
    var c1 := c.(loopCount := count, flag := flag,
                 buffer := ObjectiveData(cfg.kind, v, count, flag, c.buffer));
    if c.state != OFF then (c1.(phase := Returned(CLIENT_UNEXPECTED_STATE_ERR)), [])
    else if count == 0 then (c1.(phase := Returned(ERROR)), [])
    else (c1.(phase := Reading, loopCount := count - 1), [Pdu(REQUEST_MSG, cfg.sid, c1.buffer)])
  }

  /** One level of do_negotiate: up to its next read or its return. */
  function Handle(cfg: ClientCfg, c: Client, mtype: MsgType): (Client, seq<Pdu>) {
    var kind := ParseOption(c.buffer).kind;
    var obj := ParseObjective(c.buffer);
    var c1 := c.(loopCount := obj.loopCount - 1, flag := obj.flag);
    match mtype
    case NEGO_MSG =>
      var answer := cfg.asa.result(obj.value);
      var c2 := c1.(state := NEGOING);
      if cfg.asa.geq(answer, obj.value) then
        (c2.(phase := Returned(SUCCESS), verdict := Some(Accepted), configured := c.configured + [obj.value]),
         [Pdu(NEGO_END_MSG, cfg.sid, BareData(Accept))])
      else if c2.loopCount == 0 then
        (c2.(phase := Returned(SUCCESS), verdict := Some(Declined)),
         [Pdu(NEGO_END_MSG, cfg.sid, BareData(Decline))])
      else
        var data := ObjectiveData(Negotiation, answer, Low8(c2.loopCount), Low8(c2.flag), cfg.junk(c2.loopCount));
        (c2.(last := data), [Pdu(NEGO_MSG, cfg.sid, data)])
    case WAIT_MSG =>
      var c2 := c1.(state := WAIT);
      if kind == WaitingTime then (c2, []) else (c2.(phase := Returned(ERROR)), [])
    case NEGO_END_MSG =>
      var c2 := c1.(phase := Returned(SUCCESS));
      if kind == Accept then
        (c2.(verdict := Some(Accepted), configured := c.configured + [ParseObjective(c.last).value]), [])
      else if kind == Decline then (c2.(verdict := Some(Declined)), [])
      else (c2, [])
    case _ => (c1.(phase := Returned(ERROR)), [])
  }

  /** read_pdu and what follows: a PDU of another session only overwrites the buffer. */
  function ReadOne(cfg: ClientCfg, c: Client, p: Pdu): (Client, seq<Pdu>) {
    var c1 := c.(buffer := p.data);
    if p.sid != cfg.sid then (c1, []) else Handle(cfg, c1, p.mtype)
  }

  datatype Ran = Ran(client: Client, sent: seq<Pdu>, rest: seq<Pdu>)

  /** Read until the exchange returns or the stream is used up. */
  function RunReads(cfg: ClientCfg, c: Client, stream: seq<Pdu>): Ran
    decreases |stream|
  {
    if c.phase != Reading || stream == [] then Ran(c, [], stream)
    else
      var (c1, out) := ReadOne(cfg, c, stream[0]);
      var r := RunReads(cfg, c1, stream[1..]);
      r.(sent := out + r.sent)
  }

  /** What send_tcp, nego_thread and synchronize do once the exchange has returned.
      The buffer that send_tcp stores is the one the reads went into. */
  function Conclude(cfg: ClientCfg, c: Client): Client {
    var c1 := if c.phase == Returned(SUCCESS) then c.(last := c.buffer) else c;
    var c2 := c1.(state := OFF);
    if cfg.kind == Synchronization then c2.(configured := c2.configured + [ParseObjective(c.buffer).value])
    else c2
  }

  /** One read of the running exchange, with its ending if it ends there. */
  function Receive(cfg: ClientCfg, c: Client, p: Pdu): (Client, seq<Pdu>) {
    var (c1, out) := ReadOne(cfg, c, p);
    (if c1.phase.Returned? then Conclude(cfg, c1) else c1, out)
  }

  // ---------- erasure ----------

  /** A PDU that leaves no trace: another session's, or a WAIT that carries a
      waiting time. */
  predicate Erasable(cfg: ClientCfg, p: Pdu) {
    p.sid != cfg.sid || (p.mtype == WAIT_MSG && ParseOption(p.data).kind == WaitingTime)
  }

  function Erase(cfg: ClientCfg, stream: seq<Pdu>): (r: seq<Pdu>)
    ensures forall p | p in r :: p in stream && !Erasable(cfg, p)
  {
    if stream == [] then []
    else (if Erasable(cfg, stream[0]) then [] else [stream[0]]) + Erase(cfg, stream[1..])
  }

  /** Equal but for loop_count, flag, cur_states and the buffer, the fields that a
      WAIT or a foreign PDU overwrites. */
  predicate SameBargain(c: Client, d: Client) {
    c.phase == d.phase && c.last == d.last && c.verdict == d.verdict && c.configured == d.configured
  }

  lemma ErasableLeavesBargain(cfg: ClientCfg, c: Client, p: Pdu)
    requires c.phase == Reading && Erasable(cfg, p)
    ensures ReadOne(cfg, c, p).1 == [] && SameBargain(ReadOne(cfg, c, p).0, c)
  {
  }

  lemma KeptActsAlike(cfg: ClientCfg, c: Client, d: Client, p: Pdu)
    requires c.phase == Reading && SameBargain(c, d) && !Erasable(cfg, p)
    ensures ReadOne(cfg, c, p).1 == ReadOne(cfg, d, p).1
    ensures SameBargain(ReadOne(cfg, c, p).0, ReadOne(cfg, d, p).0)
    ensures Conclude(cfg, ReadOne(cfg, c, p).0) == Conclude(cfg, ReadOne(cfg, d, p).0)
  {
    hide ParseObjective, ParseOption, ObjectiveData, BareData;
  }

  /** Both erasures at once.  Deleting every waiting-time WAIT and every PDU of
      another session from the inbound stream changes neither what the client
      sends nor what it concludes; and once it has returned, no field at all. */
  lemma {:induction false} ErasureLeavesRun(cfg: ClientCfg, c: Client, d: Client, stream: seq<Pdu>)
    requires SameBargain(c, d)
    ensures var full := RunReads(cfg, c, stream);
            var bare := RunReads(cfg, d, Erase(cfg, stream));
            && full.sent == bare.sent
            && SameBargain(full.client, bare.client)
            && Erase(cfg, full.rest) == bare.rest
            && (c.phase == Reading && full.client.phase != Reading ==>
                  Conclude(cfg, full.client) == Conclude(cfg, bare.client))
    decreases |stream|
  {
    if c.phase == Reading && stream != [] {
      var p, tail := stream[0], stream[1..];
      var c1 := ReadOne(cfg, c, p).0;
      if Erasable(cfg, p) {
        ErasableLeavesBargain(cfg, c, p);
        assert Erase(cfg, stream) == Erase(cfg, tail);
        ErasureLeavesRun(cfg, c1, d, tail);
      } else {
        KeptActsAlike(cfg, c, d, p);
        assert Erase(cfg, stream)[0] == p && Erase(cfg, stream)[1..] == Erase(cfg, tail);
        ErasureLeavesRun(cfg, c1, ReadOne(cfg, d, p).0, tail);
      }
    }
  }

  /** `w` can be deleted from in front of `tail`. */
  predicate Deletable(cfg: ClientCfg, c: Client, w: Pdu, tail: seq<Pdu>) {
    var full := RunReads(cfg, c, [w] + tail);
    var bare := RunReads(cfg, c, tail);
    full.sent == bare.sent && SameBargain(full.client, bare.client)
  }

  lemma RunOfNone(cfg: ClientCfg, c: Client)
    ensures RunReads(cfg, c, []) == Ran(c, [], [])
    ensures c.phase != Reading ==> forall tail :: RunReads(cfg, c, tail) == Ran(c, [], tail)
  {
  }

  lemma RunOfCons(cfg: ClientCfg, c: Client, w: Pdu, tail: seq<Pdu>)
    requires c.phase == Reading
    ensures var (c1, out) := ReadOne(cfg, c, w);
            var r := RunReads(cfg, c1, tail);
            RunReads(cfg, c, [w] + tail) == r.(sent := out + r.sent)
  {
    assert ([w] + tail)[1..] == tail;
  }

  lemma WellFormedWaitDeletable(cfg: ClientCfg, c: Client, w: Pdu, tail: seq<Pdu>)
    requires c.phase == Reading && Erasable(cfg, w)
    ensures Deletable(cfg, c, w, tail)
  {
    hide Erasable, ReadOne;
    var c1 := ReadOne(cfg, c, w).0;
    RunOfCons(cfg, c, w, tail);
    ErasableLeavesBargain(cfg, c, w);
    ErasureLeavesRun(cfg, c1, c, tail);
    ErasureLeavesRun(cfg, c, c, tail);
  }

  /** The waiting time is not optional: an in-session WAIT can be deleted from in
      front of every stream exactly when its option is one. */
  lemma WaitDeletableExactly(cfg: ClientCfg, c: Client, w: Pdu)
    requires c.phase == Reading && w.sid == cfg.sid && w.mtype == WAIT_MSG
    ensures ParseOption(w.data).kind == WaitingTime <==> forall tail :: Deletable(cfg, c, w, tail)
  {
    hide ParseObjective, ParseOption, RunReads;
    if ParseOption(w.data).kind == WaitingTime {
      forall tail ensures Deletable(cfg, c, w, tail) { WellFormedWaitDeletable(cfg, c, w, tail); }
    } else {
      var c1 := ReadOne(cfg, c, w).0;
      RunOfCons(cfg, c, w, []);
      RunOfNone(cfg, c1);
      assert RunReads(cfg, c, []).client == c by { RunOfNone(cfg, c); }
      assert !Deletable(cfg, c, w, []);
    }
  }

  // ---------- the code itself ----------

  /** The rest of an exchange whose current message, of type `mtype`, is in the buffer. */
  function Resume(cfg: ClientCfg, c: Client, mtype: MsgType, stream: seq<Pdu>): Ran {
    var (c1, out) := Handle(cfg, c, mtype);
    var r := RunReads(cfg, c1, stream);
    r.(sent := out + r.sent)
  }

  /** negotiate or synchronize, start to finish, or to where it waits for input. */
  function Exchange(cfg: ClientCfg, c: Client, v: Value, count: byte, flag: byte, stream: seq<Pdu>): Ran {
    var c0 := if cfg.kind == Synchronization then c.(state := OFF) else c;
    var (c1, out) := Begin(cfg, c0, v, count, flag);
    var r := RunReads(cfg, c1, stream);
    var c2 := if r.client.phase.Returned? then Conclude(cfg, r.client) else r.client;
    Ran(c2, out + r.sent, r.rest)
  }

  /** Two negotiations in a row whose opening offers are accepted at once: the first
      configures what lastTopOptions held before, the second the value field of the
      Accept that ended the first, which is empty; never the values negotiated. */
  lemma ImmediateAcceptsConfigureStale(cfg: ClientCfg, c: Client, v: Value, w: Value, count: byte, flag: byte)
    requires cfg.kind == Negotiation && c.phase == Idle && c.state == OFF && count >= 1
    ensures var accept := Pdu(NEGO_END_MSG, cfg.sid, BareData(Accept));
            var first := Exchange(cfg, c, v, count, flag, [accept]).client;
            var second := Exchange(cfg, first.(phase := Idle), w, count, flag, [accept]).client;
            && first.phase == second.phase == Returned(SUCCESS) && first.verdict == second.verdict == Some(Accepted)
            && first.configured == c.configured + [ParseObjective(c.last).value]
            && second.configured == first.configured + [[]]
  {
    hide ParseObjective, ParseOption, ObjectiveData, BareData;
    AcceptHoldsNoValue();
    var accept := Pdu(NEGO_END_MSG, cfg.sid, BareData(Accept));
    AcceptedAtOnce(cfg, c, v, count, flag, accept);
    AcceptedAtOnce(cfg, Exchange(cfg, c, v, count, flag, [accept]).client.(phase := Idle), w, count, flag, accept);
  }

  lemma AcceptHoldsNoValue()
    ensures ParseObjective(BareData(Accept)).value == []
  {
    var d := BareData(Accept);
    assert OptionBits(Opt(Accept, [])) <= d;
    assert d[2] == 0 && d[3] == 0;
    assert Window(d, 6, 0) == [];
  }

  lemma AcceptedAtOnce(cfg: ClientCfg, c: Client, v: Value, count: byte, flag: byte, p: Pdu)
    requires cfg.kind == Negotiation && c.phase == Idle && c.state == OFF && count >= 1
    requires p.sid == cfg.sid && p.mtype == NEGO_END_MSG && ParseOption(p.data).kind == Accept
    ensures var c' := Exchange(cfg, c, v, count, flag, [p]).client;
            && c'.phase == Returned(SUCCESS) && c'.state == OFF && c'.verdict == Some(Accepted)
            && c'.last == p.data && c'.configured == c.configured + [ParseObjective(c.last).value]
  {
    hide ParseObjective, ParseOption, ObjectiveData, BareData, RunReads;
    var c1 := Begin(cfg, c, v, count, flag).0;
    RunOfCons(cfg, c1, p, []);
    assert [p] + [] == [p];
    RunOfNone(cfg, ReadOne(cfg, c1, p).0);
  }

  class TcpClient {
    var loopCount: int
    var flag: int
    var curState: ClientState
    const lastTopOptions: array<byte>
    const buffer: array<byte>
    // the socket
    var tcpIn: seq<Pdu>
    var tcpOut: seq<Pdu>
    // what the ASA and the console have seen
    var verdict: Maybe<Verdict>
    var configured: seq<Value>

    predicate Valid() {
      && lastTopOptions.Length == MAX_STRING_LENGTH && buffer.Length == MAX_STRING_LENGTH
      && lastTopOptions != buffer
    }

    constructor (stale: Buffer)
      ensures Valid() && fresh(lastTopOptions) && fresh(buffer)
      ensures View(Idle) == Client(Idle, 5, 0, OFF, stale, Zeros(MAX_STRING_LENGTH), None, [])
      ensures tcpIn == [] && tcpOut == []
    {
      loopCount, flag, curState := 5, 0, OFF;
      lastTopOptions := new byte[MAX_STRING_LENGTH](i requires 0 <= i < MAX_STRING_LENGTH => stale[i]);
      buffer := new byte[MAX_STRING_LENGTH](_ => 0);
      tcpIn, tcpOut, verdict, configured := [], [], None, [];
      new;
      assert lastTopOptions[..] == stale;
      assert buffer[..] == Zeros(MAX_STRING_LENGTH);
    }

    function View(phase: Phase): Client
      reads this, lastTopOptions, buffer
      requires Valid()
    {
      Client(phase, loopCount, flag, curState, lastTopOptions[..], buffer[..], verdict, configured)
    }

    /** read_pdu until the session id matches.  `ok` is false if the input ran out, in
        which case the thread is still blocked in the read. */
    method ReadOwn(cfg: ClientCfg) returns (ok: bool, mtype: MsgType)
      requires Valid()
      modifies this`tcpIn, buffer
      ensures |tcpIn| <= |old(tcpIn)|
      ensures ok ==> |tcpIn| < |old(tcpIn)|
                     && RunReads(cfg, old(View(Reading)), old(tcpIn)) == Resume(cfg, View(Reading), mtype, tcpIn)
      ensures !ok ==> tcpIn == [] && RunReads(cfg, old(View(Reading)), old(tcpIn)) == Ran(View(Reading), [], [])
    {
      hide ParseObjective, ParseOption, ObjectiveData, BareData, Handle;
      ok, mtype := false, DISCOVERY_MSG;
      while tcpIn != [] && !ok
        invariant |tcpIn| <= |old(tcpIn)| && (ok ==> |tcpIn| < |old(tcpIn)|)
        invariant RunReads(cfg, old(View(Reading)), old(tcpIn))
                  == if ok then Resume(cfg, View(Reading), mtype, tcpIn) else RunReads(cfg, View(Reading), tcpIn)
        decreases |tcpIn|
      {
        var p := tcpIn[0];
        ghost var c, stream := View(Reading), tcpIn;
        tcpIn := tcpIn[1..];
        Codec.MemCopy(buffer, 0, p.data);
        assert buffer[..] == p.data;
        assert View(Reading) == c.(buffer := p.data);
        ok, mtype := p.sid == cfg.sid, p.mtype;
        assert ReadOne(cfg, c, p) == if ok then Handle(cfg, View(Reading), mtype) else (View(Reading), []);
        var r := RunReads(cfg, View(Reading), tcpIn);
        assert [] + r.sent == r.sent;
      }
    }

    /** write_pdu of an option's bytes; encode pads them with zeros. */
    method WritePdu(bits: seq<byte>, mtype: MsgType, sid: uint32)
      requires |bits| <= MAX_STRING_LENGTH
      modifies this`tcpOut
      ensures tcpOut == old(tcpOut) + [Pdu(mtype, sid, Overlay(bits, Zeros(MAX_STRING_LENGTH)))]
    {
      tcpOut := tcpOut + [Pdu(mtype, sid, Overlay(bits, Zeros(MAX_STRING_LENGTH)))];
    }

    /** The NEGO case of do_negotiate, up to its read or its return. */
    method Answer(cfg: ClientCfg, offer: Value) returns (phase: Phase)
      requires Valid()
      modifies this`tcpOut, this`curState, this`verdict, this`configured, lastTopOptions
      requires ParseObjective(buffer[..]).value == offer
      requires loopCount == ParseObjective(buffer[..]).loopCount - 1 && flag == ParseObjective(buffer[..]).flag
      ensures old(tcpOut) <= tcpOut
      ensures (View(phase), tcpOut[|old(tcpOut)|..]) == Handle(cfg, old(View(Reading)), NEGO_MSG)
    {
      hide ParseObjective, ParseOption, ObjectiveData;
      curState := NEGOING;
      var answer := cfg.asa.result(offer);
      if cfg.asa.geq(answer, offer) {
        var bits := Codec.OptionToBits(Opt(Accept, []));
        WritePdu(bits[..], NEGO_END_MSG, cfg.sid);
        verdict := Some(Accepted);
        configured := configured + [offer];
        return Returned(SUCCESS);
      }
      if loopCount == 0 {
        var bits := Codec.OptionToBits(Opt(Decline, []));
        WritePdu(bits[..], NEGO_END_MSG, cfg.sid);
        verdict := Some(Declined);
        return Returned(SUCCESS);
      }
      SendCounter(cfg, answer);
      return Reading;
    }

    /** nego_obj_opt2bits into the local send_buffer, written and stored. */
    method SendCounter(cfg: ClientCfg, answer: Value)
      requires Valid()
      modifies this`tcpOut, lastTopOptions
      ensures var data := ObjectiveData(Negotiation, answer, Low8(loopCount), Low8(flag), cfg.junk(loopCount));
              tcpOut == old(tcpOut) + [Pdu(NEGO_MSG, cfg.sid, data)] && lastTopOptions[..] == data
    {
      var junk := cfg.junk(loopCount);
      var sendBuffer := new byte[MAX_STRING_LENGTH](i requires 0 <= i < MAX_STRING_LENGTH => junk[i]);
      assert sendBuffer[..] == junk;
      PrintObjective(sendBuffer, Negotiation, answer, Low8(loopCount), Low8(flag));
      hide ObjectiveData;
      assert Overlay(sendBuffer[..], Zeros(MAX_STRING_LENGTH)) == sendBuffer[..];
      WritePdu(sendBuffer[..], NEGO_MSG, cfg.sid);
      Codec.StoreLastOptions(lastTopOptions, sendBuffer[..]);
    }

    /** Lay an objective option over the head of `target`. */
    static method PrintObjective(target: array<byte>, kind: OptionType, v: Value, count: byte, flag: byte)
      requires target.Length == MAX_STRING_LENGTH
      modifies target
      ensures target[..] == ObjectiveData(kind, v, count, flag, old(target[..]))
    {
      hide ParseObjective, ParseOption;
      var bits := Codec.ObjectiveToBits(Objective(kind, v, count, flag));
      Codec.MemCopy(target, 0, bits[..]);
    }

    /** One level of do_negotiate: parse the buffer both ways, then act on the type. */
    method HandleMessage(cfg: ClientCfg, mtype: MsgType) returns (phase: Phase)
      requires Valid()
      modifies this`loopCount, this`flag, this`curState, this`verdict, this`configured, this`tcpOut, lastTopOptions
      ensures old(tcpOut) <= tcpOut
      ensures (View(phase), tcpOut[|old(tcpOut)|..]) == Handle(cfg, old(View(Reading)), mtype)
    {
      hide ParseObjective, ParseOption, ObjectiveData, BareData;
      ghost var (c1, out) := Handle(cfg, View(Reading), mtype);
      assert tcpOut == tcpOut + [];
      var opt := Codec.OptionParseBits(buffer);
      var obj := Codec.ObjectiveParseBits(buffer);
      loopCount := obj.loopCount;
      flag := obj.flag;
      loopCount := loopCount - 1;
      phase := Reading;
      match mtype {
        case NEGO_MSG =>
          phase := Answer(cfg, obj.value);
        case WAIT_MSG =>
          curState := WAIT;
          if opt.kind != WaitingTime { phase := Returned(ERROR); }
        case NEGO_END_MSG =>
          if opt.kind == Accept {
            var last := Codec.ObjectiveParseBits(lastTopOptions);
            verdict := Some(Accepted);
            configured := configured + [last.value];
          } else if opt.kind == Decline {
            verdict := Some(Declined);
          }
          phase := Returned(SUCCESS);
        case _ =>
          phase := Returned(ERROR);
      }
      assert View(phase) == c1 && tcpOut == old(tcpOut) + out;
    }

    /** do_negotiate.  Returns where it stands: Returned, or Reading if it is blocked in
        a read. */
    method DoNegotiate(cfg: ClientCfg, mtype: MsgType) returns (phase: Phase)
      requires Valid()
      modifies this, lastTopOptions, buffer
      ensures old(tcpOut) <= tcpOut
      ensures Ran(View(phase), tcpOut[|old(tcpOut)|..], tcpIn)
              == Resume(cfg, old(View(Reading)), mtype, old(tcpIn))
      decreases |tcpIn|
    {
      hide Handle, RunReads;
      ghost var (c1, out) := Handle(cfg, View(Reading), mtype);
      RunOfNone(cfg, c1);
      assert out + [] == out;
      phase := HandleMessage(cfg, mtype);
      if phase != Reading { return; }
      ghost var mid := |tcpOut|;
      var ok, next := ReadOwn(cfg);
      if !ok { return; }
      phase := DoNegotiate(cfg, next);
      assert tcpOut[|old(tcpOut)|..] == out + tcpOut[mid..];
    }

    /** negotiate, send_tcp and send_negotiate up to the first read: print the objective
        over the buffer and write the REQUEST. */
    method Open(cfg: ClientCfg, v: Value, count: byte, flag: byte) returns (phase: Phase)
      requires Valid()
      modifies this`loopCount, this`flag, this`tcpOut, buffer
      ensures old(tcpOut) <= tcpOut
      ensures (View(phase), tcpOut[|old(tcpOut)|..]) == Begin(cfg, old(View(Idle)), v, count, flag)
    {
      hide ParseObjective, ParseOption, ObjectiveData;
      loopCount := count;
      this.flag := flag;
      PrintObjective(buffer, cfg.kind, v, count, flag);
      assert tcpOut[|old(tcpOut)|..] == [];
      assert buffer[..] == ObjectiveData(cfg.kind, v, count, flag, old(View(Idle)).buffer);
      if curState != OFF { return Returned(CLIENT_UNEXPECTED_STATE_ERR); }
      if loopCount == 0 { return Returned(ERROR); }
      assert Overlay(buffer[..], Zeros(MAX_STRING_LENGTH)) == buffer[..];
      WritePdu(buffer[..], REQUEST_MSG, cfg.sid);
      loopCount := loopCount - 1;
      return Reading;
    }

    /** The whole exchange, from negotiate or synchronize to what nego_thread or
        synchronize do at its end. */
    method Negotiate(cfg: ClientCfg, v: Value, count: byte, flag: byte) returns (phase: Phase)
      requires Valid()
      modifies this, lastTopOptions, buffer
      ensures old(tcpOut) <= tcpOut
      ensures Ran(View(phase), tcpOut[|old(tcpOut)|..], tcpIn)
              == Exchange(cfg, old(View(Idle)), v, count, flag, old(tcpIn))
    {
      hide ParseObjective, ParseOption, ObjectiveData, BareData, RunReads, Handle, Begin, Conclude;
      if cfg.kind == Synchronization { curState := OFF; }
      ghost var c0 := View(Idle);
      ghost var (c1, out) := Begin(cfg, c0, v, count, flag);
      RunOfNone(cfg, c1);
      phase := Open(cfg, v, count, flag);
      assert View(phase) == c1 && tcpOut == old(tcpOut) + out;
      ghost var mid := |tcpOut|;
      if phase == Reading {
        var ok, next := ReadOwn(cfg);
        if ok { phase := DoNegotiate(cfg, next); }
      }
      assert Ran(View(phase), tcpOut[mid..], tcpIn) == RunReads(cfg, c1, old(tcpIn));
      assert tcpOut[|old(tcpOut)|..] == out + tcpOut[mid..];
      if phase.Returned? { Finish(cfg, phase); }
    }

    /** What follows the exchange: send_tcp stores the buffer that was read into. */
    method Finish(cfg: ClientCfg, phase: Phase)
      requires Valid() && phase.Returned?
      modifies this`curState, this`configured, lastTopOptions
      ensures View(phase) == Conclude(cfg, old(View(phase)))
    {
      hide ParseObjective, ParseOption;
      if phase == Returned(SUCCESS) {
        assert Overlay(buffer[..], Zeros(MAX_STRING_LENGTH)) == buffer[..];
        Codec.StoreLastOptions(lastTopOptions, buffer[..]);
      }
      curState := OFF;
      if cfg.kind == Synchronization {
        var got := Codec.ObjectiveParseBits(buffer);
        configured := configured + [got.value];
      }
    }
  }
}
