/** The paired system over the wire: the same client, demultiplexer and session, joined by
    channels of frames.  Every write goes through `encode` with the bytes that the code
    hands to write_pdu, every read through `decode`; `FramedRunsArePairedRuns` says that
    the executions are those of module Pairing, so all that is proved there holds here. */
module Stack {
  import opened Wire
  import opened Bargain
  import C = ClientTcp
  import S = Session
  import P = Pairing
  import PT = PairingTheorems
  import Codec

  // ---------- what the code hands to write_pdu ----------

  /** The bytes that `run` hands to `send`, of exactly the option's length. */
  function ReplyBits(asa: Asa, c: S.Content): (bits: seq<byte>)
    ensures |bits| <= MAX_STRING_LENGTH
  {
    var o := ParseObjective(c.data);
    var count := (o.loopCount - 1) % 256;
    var upper := asa.result(o.value);
    if o.kind == Synchronization || (!asa.geq(upper, o.value) && count != 0) then
      ObjectiveBits(Objective(o.kind, upper, count, o.flag))
    else
      OptionBits(Opt(if count == 0 then Decline else Accept, []))
  }

  /** What a waiter hands to `send`: eight bytes. */
  function WaitBits(): (bits: seq<byte>)
    ensures |bits| == 8
  {
    OptionBits(Opt(WaitingTime, [0x10, 0x27, 0, 0]))
  }

  /** The client writes its whole buffer, but of an Accept or Decline the option alone. */
  function ClientBits(p: Pdu): (bits: seq<byte>)
    ensures |bits| <= MAX_STRING_LENGTH
  {
    if p.mtype == NEGO_END_MSG then OptionBits(Opt(ParseOption(p.data).kind, [])) else p.data
  }

  /** The server's short write arrives as the zero-padded buffer of `Reply`. */
  lemma ReplyOverWire(asa: Asa, c: S.Content, sid: uint32, device: uint32)
    requires sid <= MAX_SESSION_ID
    ensures var r := S.Reply(asa, c);
            var sent := EncodeFrame(r.mtype, sid, device, ReplyBits(asa, c));
            sent.Ok? && |sent.value.data| == MAX_STRING_LENGTH + 1
            && DecodeFrame(sent.value) == Ok(Pdu(r.mtype, sid, r.data))
  {
    hide ParseObjective, ParseOption;
    DecodeOfEncode(S.Reply(asa, c).mtype, sid, device, ReplyBits(asa, c));
  }

  /** So does a waiter's. */
  lemma WaitOverWire(sid: uint32, device: uint32)
    requires sid <= MAX_SESSION_ID
    ensures var sent := EncodeFrame(WAIT_MSG, sid, device, WaitBits());
            sent.Ok? && |sent.value.data| == MAX_STRING_LENGTH + 1
            && DecodeFrame(sent.value) == Ok(Pdu(WAIT_MSG, sid, WaitData()))
            && ParseOption(DecodeFrame(sent.value).value.data) == ParseOption(WaitBits())
            && ParseOption(WaitBits()).kind == WaitingTime
  {
    hide ParseOption, DecodeFrame, EncodeFrame;
    DecodeOfEncode(WAIT_MSG, sid, device, WaitBits());
    WaitParses();
  }

  lemma WaitParses()
    ensures ParseOption(WaitData()) == ParseOption(WaitBits()) && ParseOption(WaitBits()).kind == WaitingTime
  {
    hide CString;
    var bits, d := WaitBits(), WaitData();
    assert bits == d[..8];
    assert forall i | 0 <= i < 8 :: d[i] == bits[i];
    assert Word(bits, 1) == 4;
    assert Window(d, 4, 4) == d[4..8] == bits[4..8] == Window(bits, 4, 4);
  }

  /** What the client's exchange sends can be framed and is read back unchanged. */
  lemma ClientOverWire(cfg: C.ClientCfg, c: C.Client, stream: seq<Pdu>, devices: seq<uint32>)
    requires cfg.sid <= MAX_SESSION_ID && |C.RunReads(cfg, c, stream).sent| == |devices|
    ensures var sent := C.RunReads(cfg, c, stream).sent;
            && (forall p | p in sent :: p.sid == cfg.sid)
            && (forall f | f in Codec.EncodeAll(sent, devices) :: |f.data| == MAX_STRING_LENGTH + 1)
            && Codec.DecodeAll(Codec.EncodeAll(sent, devices)) == sent
  {
    hide C.RunReads;
    SentAreOwn(cfg, c, stream);
    Codec.WireIsTransparent(C.RunReads(cfg, c, stream).sent, devices);
  }

  lemma {:induction false} SentAreOwn(cfg: C.ClientCfg, c: C.Client, stream: seq<Pdu>)
    ensures forall p | p in C.RunReads(cfg, c, stream).sent :: p.sid == cfg.sid
    decreases |stream|
  {
    hide ParseObjective, ParseOption, ObjectiveData, BareData;
    if c.phase == C.Reading && stream != [] {
      SentAreOwn(cfg, C.ReadOne(cfg, c, stream[0]).0, stream[1..]);
    }
  }

  // ---------- channels of frames ----------

  /** A frame that `decode` accepts, such as `encode` makes. */
  type SentFrame = f: Frame | |f.data| == MAX_STRING_LENGTH + 1 && DecodeFrame(f).Ok?
    witness Frame(0x100_0000, 0, Zeros(MAX_STRING_LENGTH + 1))

  /** read_pdu. */
  function Get(f: SentFrame): Pdu {
    DecodeFrame(f).value
  }

  function GetAll(fs: seq<SentFrame>): (ps: seq<Pdu>)
    ensures |ps| == |fs| && forall i | 0 <= i < |fs| :: ps[i] == Get(fs[i])
  {
    seq(|fs|, i requires 0 <= i < |fs| => Get(fs[i]))
  }

  /** write_pdu. */
  function Put(t: MsgType, sid: uint32, device: uint32, bits: seq<byte>): (f: SentFrame)
    requires sid <= MAX_SESSION_ID && |bits| <= MAX_STRING_LENGTH
    ensures Get(f) == Pdu(t, sid, Overlay(bits, Zeros(MAX_STRING_LENGTH)))
  {
    DecodeOfEncode(t, sid, device, bits);
    EncodeFrame(t, sid, device, bits).value
  }

  /** The paired system with frames in its channels. */
  datatype Wired = Wired(
    client: C.Client, toServer: seq<SentFrame>, toClient: seq<SentFrame>, session: Maybe<S.Session>,
    offers: seq<P.Offer>, ends: seq<Side>)

  /** What the frames say. */
  function Plain(z: Wired): P.System {
    P.System(z.client, GetAll(z.toServer), GetAll(z.toClient), z.session, z.offers, z.ends)
  }

  function Record(z: Wired, from: Side, out: seq<SentFrame>): Wired {
    var y := P.Record(Plain(z), from, GetAll(out));
    z.(offers := y.offers, ends := y.ends)
  }

  function FromClient(sid: uint32, device: uint32, out: seq<Pdu>): seq<SentFrame>
    requires sid <= MAX_SESSION_ID
  {
    if out == [] then [] else [Put(out[0].mtype, sid, device, ClientBits(out[0]))]
  }

  function FromServer(cfg: P.Config, s: S.Session, out: seq<S.Content>, device: uint32): seq<SentFrame>
    requires cfg.sid <= MAX_SESSION_ID
  {
    if out == [] then []
    else
      [Put(out[0].mtype, cfg.sid, device,
           if s.pc.SendWrite? && out[0].mtype != WAIT_MSG then ReplyBits(cfg.game.server, s.pc.c) else WaitBits())]
  }

  /** A frame has 24 bits for the session id, so no other ids ever arrive. */
  predicate Carried(a: P.Action) {
    match a
    case ForeignToServer(p) => p.sid <= MAX_SESSION_ID
    case ForeignToClient(p) => p.sid <= MAX_SESSION_ID
    case _ => true
  }

  /** `device` is the random number that a frame made now would carry. */
  function Next(cfg: P.Config, z: Wired, a: P.Action, device: uint32): Wired
    requires cfg.sid <= MAX_SESSION_ID && Carried(a) && P.Enabled(cfg, Plain(z), a)
  {
    match a
    case Start =>
      var (c, out) := C.Begin(cfg.Client(), z.client, cfg.v0, cfg.n, cfg.flag);
      var fs := FromClient(cfg.sid, device, out);
      Record(z.(client := c, toServer := z.toServer + fs), ClientSide, fs)
    case ClientRead =>
      var (c, out) := C.Receive(cfg.Client(), z.client, Get(z.toClient[0]));
      var fs := FromClient(cfg.sid, device, out);
      Record(z.(client := c, toClient := z.toClient[1..], toServer := z.toServer + fs), ClientSide, fs)
    case Deliver =>
      z.(toServer := z.toServer[1..], session := P.Distribute(cfg, z.session, Get(z.toServer[0])))
    case Server(b) =>
      var (s, out) := S.Next(cfg.Server(), z.session.value, b);
      var fs := FromServer(cfg, z.session.value, out, device);
      Record(z.(session := Some(s), toClient := z.toClient + fs), ServerSide, fs)
    case Repeat(i) => z.(toServer := z.toServer[..i + 1] + z.toServer[i..])
    case ForeignToServer(p) => z.(toServer := z.toServer + [Put(p.mtype, p.sid, device, p.data)])
    case ForeignToClient(p) => z.(toClient := z.toClient + [Put(p.mtype, p.sid, device, p.data)])
  }

  function Step(cfg: P.Config, z: Wired, a: P.Action, device: uint32): Wired
    requires cfg.sid <= MAX_SESSION_ID && Carried(a)
  {
    if P.Enabled(cfg, Plain(z), a) then Next(cfg, z, a, device) else z
  }

  function Exec(cfg: P.Config, z: Wired, acts: seq<P.Action>, devices: seq<uint32>): Wired
    requires cfg.sid <= MAX_SESSION_ID && |devices| == |acts| && forall a | a in acts :: Carried(a)
    decreases |acts|
  {
    if acts == [] then z else Exec(cfg, Step(cfg, z, acts[0], devices[0]), acts[1..], devices[1..])
  }

  // ---------- one system ----------

  lemma GetOfAppend(fs: seq<SentFrame>, gs: seq<SentFrame>)
    ensures GetAll(fs + gs) == GetAll(fs) + GetAll(gs)
  {
  }

  lemma GetOfTail(fs: seq<SentFrame>)
    requires fs != []
    ensures GetAll(fs[1..]) == GetAll(fs)[1..]
  {
  }

  lemma GetOfRepeat(fs: seq<SentFrame>, i: nat)
    requires i < |fs|
    ensures GetAll(fs[..i + 1] + fs[i..]) == GetAll(fs)[..i + 1] + GetAll(fs)[i..]
  {
  }

  lemma ClientFrames(cfg: C.ClientCfg, device: uint32, out: seq<Pdu>)
    requires cfg.sid <= MAX_SESSION_ID && |out| <= 1
    requires forall p | p in out :: p.sid == cfg.sid
               && (p.mtype == NEGO_END_MSG ==> exists k :: p.data == BareData(k))
    ensures GetAll(FromClient(cfg.sid, device, out)) == out
  {
    hide ParseOption;
    if out != [] {
      var p := out[0];
      assert p in out;
      if p.mtype == NEGO_END_MSG {
        var k :| p.data == BareData(k);
        assert ClientBits(p) == OptionBits(Opt(k, []));
      } else {
        assert Overlay(p.data, Zeros(MAX_STRING_LENGTH)) == p.data;
      }
    }
  }

  lemma ClientWrites(cfg: C.ClientCfg, c: C.Client, p: Pdu, device: uint32)
    requires cfg.sid <= MAX_SESSION_ID && c.phase == C.Reading
    ensures var out := C.Receive(cfg, c, p).1;
            GetAll(FromClient(cfg.sid, device, out)) == out
  {
    hide ParseObjective, ParseOption, ObjectiveData, BareData, FromClient, GetAll;
    ClientFrames(cfg, device, C.Receive(cfg, c, p).1);
  }

  lemma ClientBegins(cfg: C.ClientCfg, c: C.Client, v: Value, count: byte, flag: byte, device: uint32)
    requires cfg.sid <= MAX_SESSION_ID
    ensures var out := C.Begin(cfg, c, v, count, flag).1;
            GetAll(FromClient(cfg.sid, device, out)) == out
  {
    hide ParseObjective, ParseOption, ObjectiveData, BareData, FromClient, GetAll;
    ClientFrames(cfg, device, C.Begin(cfg, c, v, count, flag).1);
  }

  lemma ServerWrites(cfg: P.Config, s: S.Session, b: S.Action, device: uint32)
    requires cfg.sid <= MAX_SESSION_ID && S.Enabled(s, b)
    ensures var out := S.Next(cfg.Server(), s, b).1;
            GetAll(FromServer(cfg, s, out, device)) == P.Framed(cfg.sid, out)
  {
    hide ParseObjective, ParseOption, ReplyBits, S.Reply, S.VerdictIn, S.Same;
    var out := S.Next(cfg.Server(), s, b).1;
    if out != [] {
      if b == S.Run { ReplyOverWire(cfg.game.server, s.pc.c, cfg.sid, device); }
      else { WaitOverWire(cfg.sid, device); }
    }
  }

  /** One step over frames is the same step over PDUs. */
  lemma FramedStep(cfg: P.Config, z: Wired, a: P.Action, device: uint32)
    requires cfg.sid <= MAX_SESSION_ID && Carried(a)
    ensures Plain(Step(cfg, z, a, device)) == P.Step(cfg, Plain(z), a)
  {
    hide ParseObjective, GetAll, FromClient, FromServer, P.Distribute, C.Begin, C.Receive, S.Next;
    if P.Enabled(cfg, Plain(z), a) {
      match a
      case Start =>
        var out := C.Begin(cfg.Client(), z.client, cfg.v0, cfg.n, cfg.flag).1;
        ClientBegins(cfg.Client(), z.client, cfg.v0, cfg.n, cfg.flag, device);
        GetOfAppend(z.toServer, FromClient(cfg.sid, device, out));
      case ClientRead =>
        var out := C.Receive(cfg.Client(), z.client, Get(z.toClient[0])).1;
        ClientWrites(cfg.Client(), z.client, Get(z.toClient[0]), device);
        GetOfAppend(z.toServer, FromClient(cfg.sid, device, out));
        GetOfTail(z.toClient);
      case Deliver => GetOfTail(z.toServer);
      case Server(b) =>
        var out := S.Next(cfg.Server(), z.session.value, b).1;
        ServerWrites(cfg, z.session.value, b, device);
        GetOfAppend(z.toClient, FromServer(cfg, z.session.value, out, device));
      case Repeat(i) => GetOfRepeat(z.toServer, i);
      case ForeignToServer(p) => ForeignFrame(z.toServer, p, device);
      case ForeignToClient(p) => ForeignFrame(z.toClient, p, device);
    }
  }

  lemma ForeignFrame(fs: seq<SentFrame>, p: Pdu, device: uint32)
    requires p.sid <= MAX_SESSION_ID
    ensures GetAll(fs + [Put(p.mtype, p.sid, device, p.data)]) == GetAll(fs) + [p]
  {
    assert Overlay(p.data, Zeros(MAX_STRING_LENGTH)) == p.data;
  }

  /** Refinement.  Whatever device ids are drawn, an execution over frames is the
      execution over PDUs with the same actions. */
  lemma {:induction false} FramedRunsArePairedRuns(
    cfg: P.Config, z: Wired, acts: seq<P.Action>, devices: seq<uint32>)
    requires cfg.sid <= MAX_SESSION_ID && |devices| == |acts| && forall a | a in acts :: Carried(a)
    ensures Plain(Exec(cfg, z, acts, devices)) == P.Exec(cfg, Plain(z), acts)
    decreases |acts|
  {
    hide Step, P.Step, Plain;
    if acts != [] {
      FramedStep(cfg, z, acts[0], devices[0]);
      FramedRunsArePairedRuns(cfg, Step(cfg, z, acts[0], devices[0]), acts[1..], devices[1..]);
    }
  }

  /** In particular the whole stack plays the game: with nothing left to do on either side
      and no frame on the way, both have come to its outcome, exactly when the filter did
      not swallow a message. */
  lemma FramedRunsPlayTheGame(cfg: P.Config, z0: Wired, acts: seq<P.Action>, devices: seq<uint32>)
    requires cfg.Valid() && cfg.sid <= MAX_SESSION_ID && P.Initial(cfg, Plain(z0))
    requires |devices| == |acts| && (forall a | a in acts :: Carried(a)) && PT.NoIdleEnd(acts)
    requires P.Complete(Plain(Exec(cfg, z0, acts, devices)))
    ensures PT.Concluded(cfg, Plain(Exec(cfg, z0, acts, devices)))
            <==> && PT.OpeningIsNew(cfg, z0.client)
                 && (cfg.filter == S.WholeContent || !PT.LongGame(cfg))
  {
    hide Exec, P.Exec, P.Initial, P.Complete, PT.Concluded, PT.OpeningIsNew, PT.LongGame;
    FramedRunsArePairedRuns(cfg, z0, acts, devices);
    PT.CompleteRunsPlayTheGame(cfg, Plain(z0), acts);
  }
}
