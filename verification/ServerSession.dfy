/** Class ServerSession as code: its queue, set_state, send and run.

    `RunLoop` executes the run thread by itself.  Its contract replays it as steps of the
    machine of module Session, so what is proved there about every interleaving is
    about this code. */
module ServerSessions {
  import opened Wire
  import opened Bargain
  import opened Session

  /** The session after the reply r, back at the loop head. */
  function Replied(s: Session, r: Content): Session {
    var told := if r.mtype == NEGO_END_MSG then VerdictIn(r.data) else None;
    s.(pc := Head, state := if r.mtype == NEGO_MSG then IDLE else SESSION_END,
       enders := s.enders + if r.mtype == NEGO_MSG then 1 else 0,
       verdict := if told.Some? then told else s.verdict)
  }

  /** The machine from its second state test to the loop head, with an offer in hand. */
  lemma RunThroughReply(
    cfg: SessionCfg, t0: Trail, before: seq<Action>, s: Session, c: Content, log: seq<Content>)
    returns (acts: seq<Action>)
    requires s.pc == Live(c) && s.state == PROCESSING && CarriesObjective(c.mtype)
    requires Exec(cfg, t0, before) == Trail(s, log)
    ensures Exec(cfg, t0, acts) == Trail(Replied(s, Reply(cfg.asa, c)), log + [Reply(cfg.asa, c)])
    ensures forall a | a in acts :: a in before || a == Run
  {
    hide Exec, Reply, VerdictIn, Same, WaitData;
    var t: Trail;
    var r := Reply(cfg.asa, c);
    acts, t := Then(cfg, t0, before, Run);
    acts, t := Then(cfg, t0, acts, Run);
    assert t == Trail(s.(pc := SendRead(c), state := IDLE, verdict := Replied(s, r).verdict), log);
    acts, t := Then(cfg, t0, acts, Run);
    acts, t := Then(cfg, t0, acts, Run);
    assert t == Trail(s.(pc := SendSet(c), state := IDLE, verdict := Replied(s, r).verdict), log + [r]);
    acts, t := Then(cfg, t0, acts, Run);
    if r.mtype == NEGO_END_MSG { acts, t := Then(cfg, t0, acts, Run); }
  }

  class ServerSession {
    const sessionId: uint32
    var q: seq<Content>
    var curState: ServerState
    var idleCheck: int
    // threads launched, PDUs written, outcome printed
    var waiters: nat
    var enders: nat
    var written: seq<Content>
    var verdict: Maybe<Verdict>

    constructor (sessionId: uint32, c: Content)
      ensures this.sessionId == sessionId && written == [] && idleCheck == 0
      ensures forall uninit :: AsSession(Head, uninit) == Opened(c, uninit)
    {
      this.sessionId := sessionId;
      q, curState, idleCheck := [c], IDLE, 0;
      waiters, enders, written, verdict := 0, 0, [], None;
    }

    /** The machine's session, with the run loop at `pc` and `last` to compare with. */
    function AsSession(pc: Pc, last: Content): Session
      reads this
    {
      Session(pc, curState, q, last, waiters, 0, enders, verdict)
    }

    method QueuePush(c: Content)
      modifies this`q
      ensures q == old(q) + [c]
    {
      q := q + [c];
    }

    method QueuePop() returns (c: Content)
      requires q != []
      modifies this`q
      ensures old(q) == [c] + q
    {
      c := q[0];
      q := q[1..];
    }

    method SetState(t: MsgType) returns (r: Errno)
      modifies this`curState
      ensures r == SUCCESS <==> old(curState) == IDLE && (CarriesObjective(t) || t == NEGO_END_MSG)
      ensures r == SUCCESS ==> curState == if t == NEGO_END_MSG then SESSION_END else PROCESSING
      ensures r != SUCCESS ==> curState == old(curState)
      ensures r == ERROR <==> old(curState) != IDLE
      ensures r == SERVER_RECV_UNEXPECTED_MSG_TYPE_ERR
              <==> old(curState) == IDLE && (t == DISCOVERY_MSG || t == RESPONSE_MSG || t == WAIT_MSG)
    {
      match curState
      case IDLE =>
        match t {
          case REQUEST_MSG =>
            curState := PROCESSING;
            return SUCCESS;
          case NEGO_MSG =>
            curState := PROCESSING;
            return SUCCESS;
          case NEGO_END_MSG =>
            curState := SESSION_END;
            return SUCCESS;
          case _ => return SERVER_RECV_UNEXPECTED_MSG_TYPE_ERR;
        }
      case PROCESSING => return ERROR;
      case SESSION_END => return ERROR;
    }

    predicate MayWrite(t: MsgType)
      reads this
    {
      || (curState == IDLE && (t == NEGO_MSG || t == NEGO_END_MSG))
      || (curState == PROCESSING && t == WAIT_MSG)
    }

    /** A message may be written in three cases only: an offer or an end in IDLE, a
        WAIT in PROCESSING.  `io` is what write_pdu returns; if it fails, nothing
        changes. */
    method Send(m: Content, io: Errno) returns (r: Errno)
      modifies this
      ensures q == old(q) && waiters == old(waiters) && verdict == old(verdict)
      ensures r == if old(MayWrite(m.mtype)) then io
                   else if old(curState) == SESSION_END then SERVER_SEND_UNEXPECTED_MSG_TYPE_ERR else MSG_TYPE_ERR
      ensures r == SUCCESS <==> old(MayWrite(m.mtype)) && io == SUCCESS
      ensures written == old(written) + if r == SUCCESS then [m] else []
      ensures curState == if r == SUCCESS && m.mtype == NEGO_END_MSG then SESSION_END else old(curState)
      ensures enders == old(enders) + if r == SUCCESS && m.mtype == NEGO_MSG then 1 else 0
      ensures idleCheck == if r == SUCCESS && m.mtype == NEGO_MSG then 0 else old(idleCheck)
    {
      r := SUCCESS;
      match curState
      case IDLE =>
        match m.mtype {
          case NEGO_MSG =>
            r := WritePdu(m, io);
            if r == SUCCESS {
              curState := IDLE;
              idleCheck := 0;
              enders := enders + 1;
            }
          case NEGO_END_MSG =>
            r := WritePdu(m, io);
            if r == SUCCESS { curState := SESSION_END; }
          case _ => r := MSG_TYPE_ERR;
        }
      case PROCESSING =>
        match m.mtype {
          case WAIT_MSG => r := WritePdu(m, io);
          case _ => r := MSG_TYPE_ERR;
        }
      case SESSION_END => r := SERVER_SEND_UNEXPECTED_MSG_TYPE_ERR;
    }

    method WritePdu(m: Content, io: Errno) returns (r: Errno)
      modifies this`written
      ensures r == io && written == old(written) + if r == SUCCESS then [m] else []
    {
      if io == SUCCESS { written := written + [m]; }
      r := io;
    }

    /** The part of `run` behind the ASA: choose the reply and send it. */
    method Respond(asa: Asa, c: Content)
      requires curState == PROCESSING
      modifies this
      ensures q == old(q) && waiters == old(waiters)
      ensures written == old(written) + [Reply(asa, c)]
      ensures curState == if Reply(asa, c).mtype == NEGO_MSG then IDLE else SESSION_END
      ensures enders == old(enders) + if Reply(asa, c).mtype == NEGO_MSG then 1 else 0
      ensures var told := if Reply(asa, c).mtype == NEGO_END_MSG then VerdictIn(Reply(asa, c).data) else None;
              verdict == if told.Some? then told else old(verdict)
      ensures idleCheck == if Reply(asa, c).mtype == NEGO_MSG then 0 else old(idleCheck)
    {
      hide ParseObjective, ParseOption, ObjectiveData, BareData;
      var recv := ParseObjective(c.data);
      recv := recv.(loopCount := (recv.loopCount - 1) % 256);
      var upper := asa.result(recv.value);
      curState := IDLE;
      if recv.kind == Synchronization {
        var data := ObjectiveData(recv.kind, upper, recv.loopCount, recv.flag, Zeros(MAX_STRING_LENGTH));
        var _ := Send(Content(NEGO_END_MSG, data), SUCCESS);
        curState := SESSION_END;
      } else if !asa.geq(upper, recv.value) && recv.loopCount != 0 {
        var data := ObjectiveData(recv.kind, upper, recv.loopCount, recv.flag, Zeros(MAX_STRING_LENGTH));
        var _ := Send(Content(NEGO_MSG, data), SUCCESS);
      } else {
        var kind := if recv.loopCount == 0 then Decline else Accept;
        verdict := Some(if recv.loopCount == 0 then Declined else Accepted);
        var _ := Send(Content(NEGO_END_MSG, BareData(kind)), SUCCESS);
        curState := SESSION_END;
      }
    }

    /** The first half of the loop body: pop, filter, set_state, launch the waiter. */
    method Take(cfg: SessionCfg, last: Content, ghost t0: Trail, ghost before: seq<Action>)
      returns (taken: bool, last': Content, ghost acts: seq<Action>)
      requires q != [] && curState == IDLE
      requires Exec(cfg, t0, before) == Trail(AsSession(Head, last), written)
      modifies this
      ensures |q| < |old(q)| && idleCheck == 1 && (!taken ==> curState == IDLE)
      ensures taken ==> if last'.mtype == NEGO_END_MSG then curState == SESSION_END
                        else curState == PROCESSING && CarriesObjective(last'.mtype)
      ensures Exec(cfg, t0, acts) == Trail(AsSession(if taken then Live(last') else Head, last'), written)
      ensures forall a | a in acts :: a in before || a == Run
    {
      hide Exec, Same, Reply, VerdictIn, WaitData;
      taken, last', acts := false, last, before;
      ghost var t: Trail;
      acts, t := Then(cfg, t0, acts, Run);
      idleCheck := 1;
      var c := QueuePop();
      acts, t := Then(cfg, t0, acts, Run);
      if Same(cfg.filter, c, last) { return; }
      last' := c;
      assert t == Trail(AsSession(SetRead(c), c), written);
      var r := SetState(c.mtype);
      acts, t := Then(cfg, t0, acts, Run);
      if r != SUCCESS { return; }
      taken := true;
      acts, t := Then(cfg, t0, acts, Run);
      if curState == PROCESSING { waiters := waiters + 1; }
      acts, t := Then(cfg, t0, acts, Run);
    }

    /** The second half, for an offer: ask the ASA and reply. */
    method Process(cfg: SessionCfg, c: Content, ghost t0: Trail, ghost before: seq<Action>)
      returns (ghost acts: seq<Action>)
      requires curState == PROCESSING && CarriesObjective(c.mtype)
      requires Exec(cfg, t0, before) == Trail(AsSession(Live(c), c), written)
      modifies this
      ensures q == old(q) && curState != PROCESSING
      ensures idleCheck == if Reply(cfg.asa, c).mtype == NEGO_MSG then 0 else old(idleCheck)
      ensures Exec(cfg, t0, acts) == Trail(AsSession(Head, c), written)
      ensures forall a | a in acts :: a in before || a == Run
    {
      hide Exec, Reply, VerdictIn;
      acts := RunThroughReply(cfg, t0, before, AsSession(Live(c), c), c, written);
      Respond(cfg.asa, c);
    }

    /** One turn of the run loop on a non-empty queue. */
    method Serve(cfg: SessionCfg, last: Content, ghost t0: Trail, ghost before: seq<Action>)
      returns (last': Content, ghost acts: seq<Action>)
      requires q != [] && curState == IDLE
      requires Exec(cfg, t0, before) == Trail(AsSession(Head, last), written)
      modifies this
      ensures |q| < |old(q)| && curState != PROCESSING
      ensures Exec(cfg, t0, acts) == Trail(AsSession(Head, last'), written)
      ensures forall a | a in acts :: a in before || a == Run
    {
      hide Exec, VerdictIn;
      var taken;
      taken, last', acts := Take(cfg, last, t0, before);
      if !taken { return; }
      if curState != SESSION_END {
        acts := Process(cfg, last', t0, acts);
      } else {
        ghost var t: Trail;
        acts, t := Then(cfg, t0, acts, Run);
        var told := VerdictIn(last'.data);
        if told.Some? { verdict := told; }
      }
    }

    /** `run`, for as long as there is something in the queue (the source then sleeps
        and looks again). */
    method RunLoop(cfg: SessionCfg, uninit: Content) returns (last: Content, ghost acts: seq<Action>)
      requires curState != PROCESSING
      modifies this
      ensures curState == SESSION_END || q == []
      ensures Exec(cfg, old(Trail(AsSession(Head, uninit), written)), acts)
              == Trail(AsSession(Head, last), written)
      ensures forall a | a in acts :: a == Run
    {
      hide Exec;
      last, acts := uninit, [];
      ExecOfNone(cfg, Trail(AsSession(Head, uninit), written));
      while curState != SESSION_END && q != []
        invariant curState != PROCESSING
        invariant Exec(cfg, old(Trail(AsSession(Head, uninit), written)), acts)
                  == Trail(AsSession(Head, last), written)
        invariant forall a | a in acts :: a == Run
        decreases |q|
      {
        last, acts := Serve(cfg, last, old(Trail(AsSession(Head, uninit), written)), acts);
      }
    }
  }
}
