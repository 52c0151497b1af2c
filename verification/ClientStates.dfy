/** What keeps a client from bargaining twice at a time, and how an exchange fails: the
    tests of send_tcp and send_negotiate and the default cases of do_negotiate. */
module ClientStates {
  import opened Wire
  import opened Bargain
  import opened ClientTcp

  /** The type of the last PDU of the session, if the stream has one. */
  function LastOwn(cfg: ClientCfg, stream: seq<Pdu>): Maybe<MsgType>
    decreases |stream|
  {
    if stream == [] then None
    else if LastOwn(cfg, stream[1..]).Some? then LastOwn(cfg, stream[1..])
    else if stream[0].sid == cfg.sid then Some(stream[0].mtype)
    else None
  }

  lemma {:induction false} LastOwnExactly(cfg: ClientCfg, stream: seq<Pdu>)
    ensures LastOwn(cfg, stream).Some? <==> exists p | p in stream :: p.sid == cfg.sid
    decreases |stream|
  {
    if stream != [] {
      LastOwnExactly(cfg, stream[1..]);
      assert stream == [stream[0]] + stream[1..];
    }
  }

  lemma ReadingOn(cfg: ClientCfg, c: Client, p: Pdu)
    requires c.phase == Reading && ReadOne(cfg, c, p).0.phase == Reading
    ensures ReadOne(cfg, c, p).0.state
            == if p.sid != cfg.sid then c.state else if p.mtype == NEGO_MSG then NEGOING else WAIT
    ensures p.sid == cfg.sid ==> p.mtype == NEGO_MSG || p.mtype == WAIT_MSG
  {
    hide ParseObjective, ParseOption, ObjectiveData, BareData;
  }

  /** cur_states tells what the last message was, and stays as it is while there is none. */
  lemma {:induction false} StateFollowsMessages(cfg: ClientCfg, c: Client, stream: seq<Pdu>)
    requires c.phase == Reading && RunReads(cfg, c, stream).client.phase == Reading
    ensures RunReads(cfg, c, stream).client.state
            == match LastOwn(cfg, stream)
               case None => c.state
               case Some(t) => if t == NEGO_MSG then NEGOING else WAIT
    ensures LastOwn(cfg, stream) in {None, Some(NEGO_MSG), Some(WAIT_MSG)}
    decreases |stream|
  {
    hide ReadOne, LastOwn;
    LastOwnStep(cfg, stream);
    if stream == [] {
      RunOfNone(cfg, c);
    } else {
      assert stream == [stream[0]] + stream[1..];
      RunOfCons(cfg, c, stream[0], stream[1..]);
      var c1 := ReadOne(cfg, c, stream[0]).0;
      if c1.phase != Reading { RunOfNone(cfg, c1); }
      ReadingOn(cfg, c, stream[0]);
      StateFollowsMessages(cfg, c1, stream[1..]);
    }
  }

  lemma LastOwnStep(cfg: ClientCfg, stream: seq<Pdu>)
    ensures LastOwn(cfg, stream)
            == if stream == [] then None
               else if LastOwn(cfg, stream[1..]).Some? then LastOwn(cfg, stream[1..])
               else if stream[0].sid == cfg.sid then Some(stream[0].mtype) else None
  {
  }

  lemma RefusedExchange(cfg: ClientCfg, c: Client, v: Value, count: byte, flag: byte, stream: seq<Pdu>)
    requires cfg.kind == Negotiation && (c.state != OFF || count == 0)
    ensures var r := Exchange(cfg, c, v, count, flag, stream);
            && r.sent == [] && r.rest == stream
            && r.client.phase == Returned(if c.state != OFF then CLIENT_UNEXPECTED_STATE_ERR else ERROR)
            && r.client.last == c.last && r.client.verdict == c.verdict && r.client.configured == c.configured
            && r.client.state == OFF
  {
    hide ParseObjective, ParseOption, ObjectiveData, RunReads;
    RunOfNone(cfg, Begin(cfg, c, v, count, flag).0);
  }

  /** An exchange that opens writes its REQUEST first, whatever follows. */
  lemma OpenedExchange(cfg: ClientCfg, c: Client, v: Value, count: byte, flag: byte, stream: seq<Pdu>)
    requires (cfg.kind == Synchronization || c.state == OFF) && count >= 1
    ensures var r := Exchange(cfg, c, v, count, flag, stream);
            && r.sent != [] && r.sent[0].mtype == REQUEST_MSG && r.sent[0].sid == cfg.sid
            && ParseObjective(r.sent[0].data) == Objective(cfg.kind, v, count, flag)
            && (stream == [] ==> r.client.phase == Reading && r.client.loopCount == count - 1)
  {
    hide ParseObjective, ParseOption, RunReads, Conclude;
    var c0 := if cfg.kind == Synchronization then c.(state := OFF) else c;
    RunOfNone(cfg, Begin(cfg, c0, v, count, flag).0);
  }

  /** A client that is still bargaining, on which the upper layer calls negotiate again.
      It is refused, with nothing written or read and nothing lost, exactly if a message
      of the running exchange has been read: until the server's first answer the state is
      still OFF, and a second REQUEST goes out. */
  lemma BusyClientRefuses(
    cfg: ClientCfg, c: Client, stream: seq<Pdu>,
    again: ClientCfg, v: Value, count: byte, flag: byte, more: seq<Pdu>)
    requires c.phase == Reading && c.state == OFF && RunReads(cfg, c, stream).client.phase == Reading
    requires again.kind == Negotiation && count >= 1
    ensures var busy := RunReads(cfg, c, stream).client;
            var r := Exchange(again, busy, v, count, flag, more);
            if exists p | p in stream :: p.sid == cfg.sid then
              && r.sent == [] && r.rest == more && r.client.phase == Returned(CLIENT_UNEXPECTED_STATE_ERR)
              && r.client.last == busy.last && r.client.verdict == busy.verdict
              && r.client.configured == busy.configured
            else
              r.sent != [] && r.sent[0].mtype == REQUEST_MSG
  {
    hide Exchange, RunReads, LastOwn, ParseObjective;
    StateFollowsMessages(cfg, c, stream);
    LastOwnExactly(cfg, stream);
    var busy := RunReads(cfg, c, stream).client;
    if LastOwn(cfg, stream).Some? {
      RefusedExchange(again, busy, v, count, flag, more);
    } else {
      OpenedExchange(again, busy, v, count, flag, more);
    }
  }

  /** The refusal does not last.  nego_thread sets the state to OFF even then, so the next
      call writes a REQUEST while the first exchange still runs; and synchronize resets
      the state itself and is never refused. */
  lemma RefusalUnlocks(
    cfg: ClientCfg, c: Client, v: Value, count: byte, flag: byte, more: seq<Pdu>,
    next: ClientCfg, w: Value, count': byte, flag': byte, rest: seq<Pdu>)
    requires cfg.kind == Negotiation && c.state != OFF && count' >= 1
    ensures var refused := Exchange(cfg, c, v, count, flag, more).client;
            var r := Exchange(next, refused, w, count', flag', rest);
            r.sent != [] && r.sent[0].mtype == REQUEST_MSG
    ensures next.kind == Synchronization ==>
              var r := Exchange(next, c, w, count', flag', rest);
              r.sent != [] && r.sent[0].mtype == REQUEST_MSG
  {
    hide Exchange, ParseObjective;
    RefusedExchange(cfg, c, v, count, flag, more);
    OpenedExchange(next, Exchange(cfg, c, v, count, flag, more).client, w, count', flag', rest);
    if next.kind == Synchronization { OpenedExchange(next, c, w, count', flag', rest); }
  }

  // ---------- how an exchange fails ----------

  /** A message of the session that do_negotiate has no use for. */
  predicate Unexpected(cfg: ClientCfg, p: Pdu) {
    && p.sid == cfg.sid
    && (|| p.mtype == REQUEST_MSG || p.mtype == DISCOVERY_MSG || p.mtype == RESPONSE_MSG
        || (p.mtype == WAIT_MSG && ParseOption(p.data).kind != WaitingTime))
  }

  lemma {:induction false} NoiseIsRead(cfg: ClientCfg, c: Client, noise: seq<Pdu>, rest: seq<Pdu>)
    returns (c1: Client)
    requires c.phase == Reading && forall p | p in noise :: Erasable(cfg, p)
    ensures SameBargain(c1, c) && RunReads(cfg, c, noise + rest) == RunReads(cfg, c1, rest)
    decreases |noise|
  {
    hide ReadOne, Erasable, RunReads;
    c1 := c;
    if noise == [] {
      assert noise + rest == rest;
    } else {
      var p, tail := noise[0], noise[1..];
      assert p in noise && forall q | q in tail :: q in noise;
      assert noise + rest == [p] + (tail + rest);
      RunOfCons(cfg, c, p, tail + rest);
      ErasableLeavesBargain(cfg, c, p);
      c1 := NoiseIsRead(cfg, ReadOne(cfg, c, p).0, tail, rest);
      var r := RunReads(cfg, c1, rest);
      assert [] + r.sent == r.sent;
    }
  }

  /** The first unexpected message ends the exchange with ERROR, through any WAITs and
      foreign PDUs before it.  Nothing is written, nothing behind it read, no verdict
      reported and lastTopOptions kept; a synchronization nevertheless configures
      whatever value can be parsed from that message. */
  lemma UnexpectedMessageEndsExchange(cfg: ClientCfg, c: Client, noise: seq<Pdu>, p: Pdu, rest: seq<Pdu>)
    requires c.phase == Reading && (forall q | q in noise :: Erasable(cfg, q)) && Unexpected(cfg, p)
    ensures var r := RunReads(cfg, c, noise + [p] + rest);
            var over := Conclude(cfg, r.client);
            && r.sent == [] && r.rest == rest
            && over.phase == Returned(ERROR) && over.state == OFF
            && over.last == c.last && over.verdict == c.verdict
            && over.configured == c.configured
                                  + (if cfg.kind == Synchronization then [ParseObjective(p.data).value] else [])
  {
    hide ParseObjective, ParseOption, ObjectiveData, BareData, RunReads;
    assert noise + [p] + rest == noise + ([p] + rest);
    var c1 := NoiseIsRead(cfg, c, noise, [p] + rest);
    RunOfCons(cfg, c1, p, rest);
    RunOfNone(cfg, ReadOne(cfg, c1, p).0);
    assert c.configured + [] == c.configured;
  }

  /** And a NEGO_END ends it with SUCCESS, its buffer stored as the last options.  Only an
      Accept or a Decline reports a verdict, and only an Accept configures the last
      options; a synchronization configures the value that came with the NEGO_END. */
  lemma EndMessageEndsExchange(cfg: ClientCfg, c: Client, noise: seq<Pdu>, p: Pdu, rest: seq<Pdu>)
    requires c.phase == Reading && (forall q | q in noise :: Erasable(cfg, q))
    requires p.sid == cfg.sid && p.mtype == NEGO_END_MSG
    ensures var r := RunReads(cfg, c, noise + [p] + rest);
            var over := Conclude(cfg, r.client);
            && r.sent == [] && r.rest == rest
            && over.phase == Returned(SUCCESS) && over.state == OFF && over.last == p.data
            && over.verdict == (match ParseOption(p.data).kind
                                case Accept => Some(Accepted)
                                case Decline => Some(Declined)
                                case _ => c.verdict)
            && over.configured
               == c.configured
                  + (if ParseOption(p.data).kind == Accept then [ParseObjective(c.last).value] else [])
                  + (if cfg.kind == Synchronization then [ParseObjective(p.data).value] else [])
  {
    hide ParseObjective, ParseOption, ObjectiveData, BareData, RunReads;
    assert noise + [p] + rest == noise + ([p] + rest);
    var c1 := NoiseIsRead(cfg, c, noise, [p] + rest);
    RunOfCons(cfg, c1, p, rest);
    RunOfNone(cfg, ReadOne(cfg, c1, p).0);
  }

  /** The first offer is answered with exactly one message, whatever the count it carries
      and whatever the exchange was opened for: Accept if the ASA's answer reaches it,
      Decline if it was the last count, and else the ASA's answer with the count lowered.
      A count of zero, which no run of this client leads to, wraps to 255. */
  lemma FirstOfferIsAnswered(cfg: ClientCfg, c: Client, noise: seq<Pdu>, p: Pdu)
    requires c.phase == Reading && (forall q | q in noise :: Erasable(cfg, q))
    requires p.sid == cfg.sid && p.mtype == NEGO_MSG
    ensures var r := RunReads(cfg, c, noise + [p]);
            var offer := ParseObjective(p.data);
            var answer := cfg.asa.result(offer.value);
            && |r.sent| == 1 && r.sent[0].sid == cfg.sid && r.rest == []
            && if cfg.asa.geq(answer, offer.value) then
                 && r.sent[0].mtype == NEGO_END_MSG && ParseOption(r.sent[0].data).kind == Accept
                 && r.client.phase == Returned(SUCCESS) && r.client.configured == c.configured + [offer.value]
               else if offer.loopCount == 1 then
                 && r.sent[0].mtype == NEGO_END_MSG && ParseOption(r.sent[0].data).kind == Decline
                 && r.client.phase == Returned(SUCCESS) && r.client.configured == c.configured
               else
                 && r.sent[0].mtype == NEGO_MSG && r.client.phase == Reading
                 && r.client.last == r.sent[0].data && r.client.configured == c.configured
                 && ParseObjective(r.sent[0].data)
                    == Objective(Negotiation, answer, if offer.loopCount == 0 then 255 else offer.loopCount - 1,
                                 offer.flag)
  {
    hide ParseObjective, ParseOption, ObjectiveData, BareData, RunReads;
    var c1 := NoiseIsRead(cfg, c, noise, [p]);
    assert [p] + [] == [p];
    RunOfCons(cfg, c1, p, []);
    RunOfNone(cfg, ReadOne(cfg, c1, p).0);
  }
}
