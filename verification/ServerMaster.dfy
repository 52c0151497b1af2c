/** The demultiplexer: `distribute` and the session table of Server.cpp. */
module ServerMasters {
  import opened Wire
  import opened Session
  import Pairing
  import SS = ServerSessions

  /** What a PDU does to the queues: a REQUEST opens a queue for an unknown id, any
      other message joins the queue of a known one, the rest is dropped. */
  function Arrived(queues: map<uint32, seq<Content>>, p: Pdu): map<uint32, seq<Content>> {
    var c := Content(p.mtype, p.data);
    if p.sid in queues then
      if p.mtype == REQUEST_MSG then queues else queues[p.sid := queues[p.sid] + [c]]
    else if p.mtype == REQUEST_MSG then queues[p.sid := [c]]
    else queues
  }

  class ServerMaster {
    var ssMap: map<uint32, SS.ServerSession>

    predicate Valid()
      reads this
    {
      forall a, b | a in ssMap && b in ssMap && a != b :: ssMap[a] != ssMap[b]
    }

    constructor ()
      ensures Valid() && ssMap == map[]
    {
      ssMap := map[];
    }

    function Queues(): map<uint32, seq<Content>>
      reads this, ssMap.Values
    {
      map k | k in ssMap :: ssMap[k].q
    }

    /** The iterator loop: is there an entry for `sid`? */
    method Find(sid: uint32) returns (found: bool)
      ensures found <==> sid in ssMap
    {
      var rest := ssMap.Keys;
      found := false;
      while rest != {} && !found
        invariant rest <= ssMap.Keys
        invariant found ==> sid in ssMap
        invariant !found ==> (sid in ssMap <==> sid in rest)
        decreases rest, !found
      {
        var first :| first in rest;
        if first == sid { found := true; } else { rest := rest - {first}; }
      }
    }

    method Distribute(p: Pdu)
      requires Valid()
      modifies this, ssMap.Values
      ensures Valid() && Queues() == Arrived(old(Queues()), p)
      ensures forall k | k in old(ssMap) :: k in ssMap && ssMap[k] == old(ssMap[k])
      ensures forall k | k in ssMap && k !in old(ssMap) ::
                fresh(ssMap[k]) && ssMap[k].curState == IDLE && ssMap[k].sessionId == p.sid
    {
      var c := Content(p.mtype, p.data);
      var found := Find(p.sid);
      if found {
        if p.mtype == REQUEST_MSG { return; }
        ssMap[p.sid].QueuePush(c);
      } else {
        if p.mtype != REQUEST_MSG { return; }
        var ss := new SS.ServerSession(p.sid, c);
        assert ss.AsSession(Head, c) == Opened(c, c);
        ssMap := ssMap[p.sid := ss];
      }
    }

    method ClearWhenSessionEnd(sid: uint32)
      requires Valid()
      modifies this
      ensures Valid() && ssMap == old(ssMap) - {sid}
      ensures Queues() == old(Queues()) - {sid}
    {
      ssMap := ssMap - {sid};
    }
  }

  // ---------- every trace ----------

  /** Arrivals, a run thread popping its queue, a session cleared from the table. */
  datatype Event = Arrive(p: Pdu) | Take(sid: uint32) | Clear(sid: uint32)

  function Subject(e: Event): uint32 {
    match e case Arrive(p) => p.sid case Take(sid) => sid case Clear(sid) => sid
  }

  /** `taken` is what each live session's run thread has popped so far. */
  datatype Table = Table(queues: map<uint32, seq<Content>>, taken: map<uint32, seq<Content>>)

  function After(t: Table, e: Event): Table {
    match e
    case Arrive(p) =>
      Table(Arrived(t.queues, p),
            if p.sid !in t.queues && p.mtype == REQUEST_MSG then t.taken[p.sid := []] else t.taken)
    case Take(sid) =>
      if sid in t.queues && sid in t.taken && t.queues[sid] != [] then
        Table(t.queues[sid := t.queues[sid][1..]], t.taken[sid := t.taken[sid] + [t.queues[sid][0]]])
      else t
    case Clear(sid) => Table(t.queues - {sid}, t.taken - {sid})
  }

  function Trace(t: Table, es: seq<Event>): Table
    decreases |es|
  {
    if es == [] then t else Trace(After(t, es[0]), es[1..])
  }

  /** All that the session `sid` has been handed: popped and still queued. */
  function Handed(t: Table, sid: uint32): Maybe<seq<Content>> {
    if sid in t.queues && sid in t.taken then Some(t.taken[sid] + t.queues[sid]) else None
  }

  /** The reference, which knows of one session only. */
  function LaneAfter(lane: Maybe<seq<Content>>, sid: uint32, e: Event): Maybe<seq<Content>> {
    match e
    case Arrive(p) =>
      if p.sid != sid then lane
      else if lane.None? then (if p.mtype == REQUEST_MSG then Some([Content(p.mtype, p.data)]) else None)
      else if p.mtype == REQUEST_MSG then lane
      else Some(lane.value + [Content(p.mtype, p.data)])
    case Take(_) => lane
    case Clear(s) => if s == sid then None else lane
  }

  function Lane(lane: Maybe<seq<Content>>, sid: uint32, es: seq<Event>): Maybe<seq<Content>>
    decreases |es|
  {
    if es == [] then lane else Lane(LaneAfter(lane, sid, es[0]), sid, es[1..])
  }

  lemma HandedAfter(t: Table, sid: uint32, e: Event)
    requires t.queues.Keys == t.taken.Keys
    ensures Handed(After(t, e), sid) == LaneAfter(Handed(t, sid), sid, e)
  {
    if Handed(t, sid).Some? {
      var taken, queue := t.taken[sid], t.queues[sid];
      match e {
        case Arrive(p) =>
          var c := Content(p.mtype, p.data);
          assert taken + (queue + [c]) == (taken + queue) + [c];
        case Take(s) =>
          if queue != [] { assert (taken + [queue[0]]) + queue[1..] == taken + queue; }
        case Clear(_) =>
      }
    } else if e.Arrive? {
      var c := Content(e.p.mtype, e.p.data);
      assert [] + [c] == [c];
    }
  }

  /** Demultiplexing is exact: over every trace and for every id at once, what a live
      session has been handed, in order, is its own lane. */
  lemma {:induction false} EverySessionGetsItsLane(t: Table, sid: uint32, es: seq<Event>)
    requires t.queues.Keys == t.taken.Keys
    ensures Handed(Trace(t, es), sid) == Lane(Handed(t, sid), sid, es)
    decreases |es|
  {
    if es != [] {
      var u := After(t, es[0]);
      assert u.queues.Keys == u.taken.Keys;
      HandedAfter(t, sid, es[0]);
      EverySessionGetsItsLane(u, sid, es[1..]);
    }
  }

  function OwnEvents(sid: uint32, es: seq<Event>): seq<Event> {
    if es == [] then [] else (if Subject(es[0]) == sid then [es[0]] else []) + OwnEvents(sid, es[1..])
  }

  lemma {:induction false} LaneSeesOwnEvents(lane: Maybe<seq<Content>>, sid: uint32, es: seq<Event>)
    ensures Lane(lane, sid, OwnEvents(sid, es)) == Lane(lane, sid, es)
    decreases |es|
  {
    if es != [] {
      var rest := OwnEvents(sid, es[1..]);
      LaneSeesOwnEvents(LaneAfter(lane, sid, es[0]), sid, es[1..]);
      if Subject(es[0]) == sid {
        assert OwnEvents(sid, es)[0] == es[0] && OwnEvents(sid, es)[1..] == rest;
      } else {
        assert OwnEvents(sid, es) == rest && LaneAfter(lane, sid, es[0]) == lane;
      }
    }
  }

  /** Isolation: no message, pop or end of another session changes what a session is
      handed. */
  lemma SessionsAreIsolated(sid: uint32, es: seq<Event>)
    ensures var empty := Table(map[], map[]);
            Handed(Trace(empty, es), sid) == Handed(Trace(empty, OwnEvents(sid, es)), sid)
  {
    var empty := Table(map[], map[]);
    EverySessionGetsItsLane(empty, sid, es);
    EverySessionGetsItsLane(empty, sid, OwnEvents(sid, es));
    LaneSeesOwnEvents(None, sid, es);
  }

  /** The contents of the arrivals with this id that are not REQUESTs. */
  function Later(sid: uint32, es: seq<Event>): seq<Content> {
    if es == [] then []
    else
      (if es[0].Arrive? && es[0].p.sid == sid && es[0].p.mtype != REQUEST_MSG
       then [Content(es[0].p.mtype, es[0].p.data)] else [])
      + Later(sid, es[1..])
  }

  lemma LaterOfNone(sid: uint32)
    ensures Later(sid, []) == []
  {
  }

  lemma LaterOfCons(sid: uint32, es: seq<Event>)
    requires es != []
    ensures Later(sid, es) == Later(sid, [es[0]]) + Later(sid, es[1..])
  {
    assert [es[0]][1..] == [];
  }

  lemma LiveLaneAfter(lane: seq<Content>, sid: uint32, e: Event)
    requires e != Clear(sid)
    ensures LaneAfter(Some(lane), sid, e) == Some(lane + Later(sid, [e]))
  {
    assert [e][1..] == [];
    assert lane + [] == lane;
    if e.Arrive? {
      var c := Content(e.p.mtype, e.p.data);
      assert Later(sid, [e]) == if e.p.sid == sid && e.p.mtype != REQUEST_MSG then [c] else [];
    } else {
      assert Later(sid, [e]) == [];
    }
  }

  lemma {:induction false} LaneOfLiveSession(lane: seq<Content>, sid: uint32, es: seq<Event>)
    requires forall e | e in es :: e != Clear(sid)
    ensures Lane(Some(lane), sid, es) == Some(lane + Later(sid, es))
    decreases |es|
  {
    hide LaneAfter, Later;
    if es == [] {
      LaterOfNone(sid);
      assert lane + [] == lane;
    } else {
      assert es[0] in es && forall e | e in es[1..] :: e in es;
      var now := Later(sid, [es[0]]);
      LiveLaneAfter(lane, sid, es[0]);
      LaneOfLiveSession(lane + now, sid, es[1..]);
      assert Later(sid, es) == now + Later(sid, es[1..]) by { LaterOfCons(sid, es); }
      assert (lane + now) + Later(sid, es[1..]) == lane + (now + Later(sid, es[1..]));
    }
  }

  /** From the REQUEST that opens it until it is cleared, a session is handed that
      REQUEST and then exactly the later messages with its id that are not REQUESTs,
      whatever happened before and to the others meanwhile. */
  lemma OpenSessionIsHandedItsMessages(es: seq<Event>, opening: Pdu, later: seq<Event>)
    requires opening.mtype == REQUEST_MSG
    requires opening.sid !in Trace(Table(map[], map[]), es).queues
    requires forall e | e in later :: e != Clear(opening.sid)
    ensures Handed(Trace(Table(map[], map[]), es + [Arrive(opening)] + later), opening.sid)
            == Some([Content(opening.mtype, opening.data)] + Later(opening.sid, later))
  {
    var sid := opening.sid;
    var empty := Table(map[], map[]);
    EverySessionGetsItsLane(empty, sid, es);
    assert Lane(None, sid, es) == None by { KeysAgree(empty, es); }
    EverySessionGetsItsLane(empty, sid, es + [Arrive(opening)] + later);
    assert es + [Arrive(opening)] + later == es + ([Arrive(opening)] + later);
    LaneOfAppend(None, sid, es, [Arrive(opening)] + later);
    assert ([Arrive(opening)] + later)[1..] == later;
    LaneOfLiveSession([Content(opening.mtype, opening.data)], sid, later);
  }

  lemma {:induction false} KeysAgree(t: Table, es: seq<Event>)
    requires t.queues.Keys == t.taken.Keys
    ensures Trace(t, es).queues.Keys == Trace(t, es).taken.Keys
    decreases |es|
  {
    if es != [] {
      assert After(t, es[0]).queues.Keys == After(t, es[0]).taken.Keys;
      KeysAgree(After(t, es[0]), es[1..]);
    }
  }

  lemma {:induction false} LaneOfAppend(lane: Maybe<seq<Content>>, sid: uint32, xs: seq<Event>, ys: seq<Event>)
    ensures Lane(lane, sid, xs + ys) == Lane(Lane(lane, sid, xs), sid, ys)
    decreases |xs|
  {
    if xs == [] {
      assert xs + ys == ys;
    } else {
      assert (xs + ys)[1..] == xs[1..] + ys;
      LaneOfAppend(LaneAfter(lane, sid, xs[0]), sid, xs[1..], ys);
    }
  }

  /** The paired system's Distribute is this demultiplexer, seen from one session. */
  lemma PairedSessionIsOneQueue(cfg: Pairing.Config, s: Maybe<Session>, queues: map<uint32, seq<Content>>, p: Pdu)
    requires cfg.sid in queues <==> Pairing.Alive(s)
    requires cfg.sid in queues ==> queues[cfg.sid] == s.value.queue
    ensures var s' := Pairing.Distribute(cfg, s, p);
            && (cfg.sid in Arrived(queues, p) <==> Pairing.Alive(s'))
            && (cfg.sid in Arrived(queues, p) ==> Arrived(queues, p)[cfg.sid] == s'.value.queue)
  {
  }
}
