/** Discovery: the retry loop of Client.cpp over the receive functions of
    Client_fsm_funcs.cpp.

    What `select` and `recvfrom` report is a sequence of events.  The functions give
    each source function's effect on a snapshot; the class is the source's mutually
    recursive code, proved to have that effect. */
module Discovering {
  import opened Wire
  import Codec

  const MAX_TRY_TIMES := 5

  datatype Event = Timeout | SelectFails | RecvFails | DecodeFails | Message(p: Pdu)

  /** `typ` is the caller's `type` variable, `sent` the data of every discovery sent. */
  datatype Disc = Disc(
    state: ClientState, tries: nat, last: Buffer, typ: MsgType, buffer: Buffer, sent: seq<seq<byte>>)

  /** `ret` is None if the events ran out before the call returned. */
  datatype Out = Out(d: Disc, ret: Maybe<Errno>, rest: seq<Event>)

  function InTime(sid: uint32, d: Disc, e: Event): (Disc, Errno) {
    match e
    case Timeout => (d, TIMEOUT)
    case SelectFails => (d, SELECT_ERR)
    case RecvFails => (d, RECV_ERR)
    case DecodeFails => (d.(buffer := Zeros(MAX_STRING_LENGTH)), MSG_TYPE_ERR)
    case Message(p) =>
      (d.(typ := p.mtype, buffer := p.data),
       if p.sid == sid then SUCCESS else CLIENT_RECV_NOMATCHED_SESSION_ID_ERR)
  }

  /** `send` on the contents of a buffer, up to its first NUL. */
  function Send(d: Disc, data: Buffer): (Disc, Errno) {
    match d.state
    case OFF =>
      (d.(sent := d.sent + [CString(data)], last := Overlay(CString(data), Zeros(MAX_STRING_LENGTH)),
          state := WAIT_RESPONSE), SUCCESS)
    case WAIT_RESPONSE =>
      if d.tries < MAX_TRY_TIMES then (d.(sent := d.sent + [CString(data)], tries := d.tries + 1), SUCCESS)
      else (d.(state := END), CLIENT_RECV_NOTHING_ERR)
    case WAIT => (d, CLIENT_SEND_UNEXPECTED_MSG_TYPE_ERR)
    case END => (d, CLIENT_SEND_UNEXPECTED_MSG_TYPE_ERR)
    case _ => (d, CLIENT_UNEXPECTED_STATE_ERR)
  }

  /** `recv_in_WAIT`. */
  function InWait(sid: uint32, d: Disc, es: seq<Event>): (o: Out)
    ensures |o.rest| <= |es| && (o.ret.Some? ==> |o.rest| < |es|)
    decreases |es|
  {
    if es == [] then Out(d, None, [])
    else
      var (d1, r) := InTime(sid, d, es[0]);
      if r != SUCCESS then Out(d1, Some(r), es[1..])
      else
        match d1.typ
        case REQUEST_MSG => Out(d1, Some(CLIENT_RECV_UNEXPECTED_MSG_TYPE_ERR), es[1..])
        case WAIT_MSG => InWait(sid, d1, es[1..])
        case RESPONSE_MSG => Out(d1.(state := INFORMED), Some(SUCCESS), es[1..])
        case NEGO_END_MSG => Out(d1.(state := END), Some(SUCCESS), es[1..])
        case _ => Out(d1, Some(MSG_TYPE_ERR), es[1..])
  }

  /** `recv` in WAIT. */
  function RecvWait(sid: uint32, d: Disc, es: seq<Event>): (o: Out)
    ensures |o.rest| <= |es| && (o.ret.Some? ==> |o.rest| < |es|)
  {
    var o := InWait(sid, d, es);
    if o.ret == Some(TIMEOUT) then Out(o.d.(state := END), Some(CLIENT_RECV_NOTHING_ERR), o.rest) else o
  }

  /** `recv_in_WAIT_RESPONSE`. */
  function InWaitResponse(sid: uint32, d: Disc, es: seq<Event>): (o: Out)
    ensures |o.rest| <= |es| && (o.ret.Some? ==> |o.rest| < |es|)
  {
    if es == [] then Out(d, None, [])
    else
      var (d1, r) := InTime(sid, d, es[0]);
      if r != SUCCESS then Out(d1, Some(r), es[1..])
      else
        match d1.typ
        case DISCOVERY_MSG => Out(d1, Some(CLIENT_RECV_UNEXPECTED_MSG_TYPE_ERR), es[1..])
        case WAIT_MSG => RecvWait(sid, d1.(state := WAIT), es[1..])
        case RESPONSE_MSG => Out(d1.(state := INFORMED), Some(SUCCESS), es[1..])
        case NEGO_END_MSG => Out(d1.(state := END), Some(SUCCESS), es[1..])
        case _ => Out(d1, Some(MSG_TYPE_ERR), es[1..])
  }

  /** `recv` in WAIT_RESPONSE: the retry loop. */
  function RecvWaitResponse(sid: uint32, d: Disc, es: seq<Event>): (o: Out)
    requires d.state == WAIT_RESPONSE
    ensures |o.rest| <= |es| && (o.ret.Some? ==> |o.rest| < |es|)
    decreases |es|
  {
    var o := InWaitResponse(sid, d, es);
    if o.ret.None? then o
    else if o.d.state != WAIT_RESPONSE then o.(d := o.d.(tries := 0))
    else if o.ret == Some(TIMEOUT) then
      var (d1, r) := Send(o.d, o.d.last);
      if d1.state != WAIT_RESPONSE then Out(d1.(tries := 0), Some(r), o.rest)
      else RecvWaitResponse(sid, d1, o.rest)
    else RecvWaitResponse(sid, o.d, o.rest)
  }

  function Recv(sid: uint32, d: Disc, es: seq<Event>): Out {
    match d.state
    case WAIT_RESPONSE => RecvWaitResponse(sid, d, es)
    case WAIT => RecvWait(sid, d, es)
    case NEGOING => Out(d, Some(CLIENT_UNEXPECTED_STATE_ERR), es)
    case _ => Out(d, Some(CLIENT_RECV_UNEXPECTED_MSG_TYPE_ERR), es)
  }

  // ---------- the retry bound ----------

  /** An event that takes the client out of WAIT_RESPONSE. */
  predicate Leaves(sid: uint32, e: Event) {
    e.Message? && e.p.sid == sid && (e.p.mtype == WAIT_MSG || e.p.mtype == RESPONSE_MSG || e.p.mtype == NEGO_END_MSG)
  }

  /** Timeouts before the first event that leaves WAIT_RESPONSE. */
  function Timeouts(sid: uint32, es: seq<Event>): nat {
    if es == [] || Leaves(sid, es[0]) then 0
    else (if es[0] == Timeout then 1 else 0) + Timeouts(sid, es[1..])
  }

  function Repeat(x: seq<byte>, n: nat): (r: seq<seq<byte>>)
    ensures |r| == n && forall i | 0 <= i < n :: r[i] == x
  {
    if n == 0 then [] else [x] + Repeat(x, n - 1)
  }

  function Min(a: nat, b: nat): nat {
    if a < b then a else b
  }

  /** Every message that can be decoded overwrites `type`, accepted or not. */
  function TypOf(typ: MsgType, e: Event): MsgType {
    if e.Message? then e.p.mtype else typ
  }

  /** ... and the buffer; a failed decode leaves it zeroed. */
  function BufOf(buffer: Buffer, e: Event): Buffer {
    if e.Message? then e.p.data else if e == DecodeFails then Zeros(MAX_STRING_LENGTH) else buffer
  }

  function Seen(d: Disc, e: Event): Disc {
    d.(typ := TypOf(d.typ, e), buffer := BufOf(d.buffer, e))
  }

  /** What is returned for an event that leads nowhere; `unexpected` is the message type
      that the switch names as such. */
  function Refusal(sid: uint32, e: Event, unexpected: MsgType): Errno {
    match e
    case Timeout => TIMEOUT
    case SelectFails => SELECT_ERR
    case RecvFails => RECV_ERR
    case DecodeFails => MSG_TYPE_ERR
    case Message(p) =>
      if p.sid != sid then CLIENT_RECV_NOMATCHED_SESSION_ID_ERR
      else if p.mtype == unexpected then CLIENT_RECV_UNEXPECTED_MSG_TYPE_ERR
      else MSG_TYPE_ERR
  }

  lemma StayingEvent(sid: uint32, d: Disc, es: seq<Event>)
    requires d.state == WAIT_RESPONSE && es != [] && !Leaves(sid, es[0])
    ensures var o := InWaitResponse(sid, d, es);
            && o == Out(Seen(d, es[0]), Some(Refusal(sid, es[0], DISCOVERY_MSG)), es[1..])
            && (o.ret == Some(TIMEOUT) <==> es[0] == Timeout)
  {
  }

  lemma LeavingEvent(sid: uint32, d: Disc, es: seq<Event>)
    requires d.state == WAIT_RESPONSE && es != [] && Leaves(sid, es[0])
    ensures var o := InWaitResponse(sid, d, es);
            && o.ret != Some(TIMEOUT) && o.d.sent == d.sent && o.d.tries == d.tries
            && (o.ret.Some? ==> o.d.state != WAIT_RESPONSE)
            && (o.ret.None? ==> o.d.state == WAIT)
            && (es[0].p.mtype == RESPONSE_MSG ==> o.ret == Some(SUCCESS) && o.d.state == INFORMED)
            && (es[0].p.mtype == NEGO_END_MSG ==> o.ret == Some(SUCCESS) && o.d.state == END)
  {
    if es[0].p.mtype == WAIT_MSG {
      InWaitKeeps(sid, d.(typ := WAIT_MSG, buffer := es[0].p.data, state := WAIT), es[1..]);
    }
  }

  lemma {:induction false} InWaitKeeps(sid: uint32, d: Disc, es: seq<Event>)
    requires d.state == WAIT
    ensures var o := InWait(sid, d, es);
            && o.d.sent == d.sent && o.d.tries == d.tries && o.d.last == d.last
            && match o.ret
               case None => o.d.state == WAIT && o.rest == []
               case Some(SUCCESS) =>
                 (o.d.state == INFORMED && o.d.typ == RESPONSE_MSG) || (o.d.state == END && o.d.typ == NEGO_END_MSG)
               case Some(r) => o.d.state == WAIT && r != CLIENT_RECV_NOTHING_ERR
    decreases |es|
  {
    if es != [] {
      var d1 := InTime(sid, d, es[0]).0;
      InWaitKeeps(sid, d1, es[1..]);
    }
  }

  /** The message that ends the wait for a response, if one does. */
  function FirstLeave(sid: uint32, es: seq<Event>): Maybe<MsgType> {
    if es == [] then None else if Leaves(sid, es[0]) then Some(es[0].p.mtype) else FirstLeave(sid, es[1..])
  }

  /** What the events up to and including the n-th timeout leave in `type`. */
  function TypAfter(typ: MsgType, es: seq<Event>, n: nat): MsgType
    decreases |es|
  {
    if n == 0 || es == [] then typ
    else TypAfter(TypOf(typ, es[0]), es[1..], if es[0] == Timeout then n - 1 else n)
  }

  function BufAfter(buffer: Buffer, es: seq<Event>, n: nat): Buffer
    decreases |es|
  {
    if n == 0 || es == [] then buffer
    else BufAfter(BufOf(buffer, es[0]), es[1..], if es[0] == Timeout then n - 1 else n)
  }

  function TriesLeft(d: Disc): nat {
    if d.tries < MAX_TRY_TIMES then MAX_TRY_TIMES - d.tries else 0
  }

  /** One turn of the retry loop on an event that does not leave WAIT_RESPONSE. */
  lemma OneMoreEvent(sid: uint32, d: Disc, es: seq<Event>) returns (d1: Disc)
    requires d.state == WAIT_RESPONSE && es != [] && !Leaves(sid, es[0])
    ensures d1 == Seen(d, es[0])
    ensures RecvWaitResponse(sid, d, es)
            == if es[0] != Timeout then RecvWaitResponse(sid, d1, es[1..])
               else if TriesLeft(d) > 0 then RecvWaitResponse(sid, Retried(d1), es[1..])
               else Out(d1.(state := END, tries := 0), Some(CLIENT_RECV_NOTHING_ERR), es[1..])
  {
    hide InWait, InWaitResponse, CString, Overlay;
    StayingEvent(sid, d, es);
    d1 := Seen(d, es[0]);
  }

  /** The request has been sent once more. */
  function Retried(d: Disc): Disc {
    d.(sent := d.sent + [CString(d.last)], tries := d.tries + 1)
  }

  lemma {:induction false} SendsFollowTimeouts(sid: uint32, d: Disc, es: seq<Event>)
    requires d.state == WAIT_RESPONSE
    ensures RecvWaitResponse(sid, d, es).d.sent
            == d.sent + Repeat(CString(d.last), Min(Timeouts(sid, es), TriesLeft(d)))
    decreases |es|
  {
    hide RecvWaitResponse, CString;
    assert d.sent + [] == d.sent;
    if es == [] {
      NoEvents(sid, d);
    } else if Leaves(sid, es[0]) {
      LeavingTurn(sid, d, es);
    } else {
      var d1 := OneMoreEvent(sid, d, es);
      if es[0] != Timeout {
        SendsFollowTimeouts(sid, d1, es[1..]);
      } else if TriesLeft(d) > 0 {
        SendsFollowTimeouts(sid, Retried(d1), es[1..]);
        RepeatOneMore(d.sent, CString(d.last), Min(Timeouts(sid, es[1..]), TriesLeft(d) - 1));
      }
    }
  }

  /** The turn on an event that leaves WAIT_RESPONSE is the last. */
  lemma LeavingTurn(sid: uint32, d: Disc, es: seq<Event>)
    requires d.state == WAIT_RESPONSE && es != [] && Leaves(sid, es[0])
    ensures var o := RecvWaitResponse(sid, d, es);
            && o.d.sent == d.sent && o.d.state != WAIT_RESPONSE
            && (o.ret.Some? ==> o.d.tries == 0)
            && (es[0].p.mtype == RESPONSE_MSG ==> o.ret == Some(SUCCESS) && o.d.state == INFORMED)
            && (es[0].p.mtype == NEGO_END_MSG ==> o.ret == Some(SUCCESS) && o.d.state == END)
  {
    hide InWait, InWaitResponse, CString, Overlay;
    LeavingEvent(sid, d, es);
  }

  /** More timeouts than tries are left: the discovery ends on the one too many. */
  lemma {:induction false} GivesUp(sid: uint32, d: Disc, es: seq<Event>)
    requires d.state == WAIT_RESPONSE && Timeouts(sid, es) > TriesLeft(d)
    ensures var o := RecvWaitResponse(sid, d, es);
            && o.ret == Some(CLIENT_RECV_NOTHING_ERR) && o.d.state == END && o.d.tries == 0
            && o.d.typ == TypAfter(d.typ, es, TriesLeft(d) + 1)
            && o.d.buffer == BufAfter(d.buffer, es, TriesLeft(d) + 1)
            && Timeouts(sid, es[..|es| - |o.rest|]) == TriesLeft(d) + 1
    decreases |es|
  {
    hide RecvWaitResponse, CString;
    var d1 := OneMoreEvent(sid, d, es);
    if es[0] != Timeout {
      GivesUp(sid, d1, es[1..]);
      PrefixTimeouts(sid, es, |RecvWaitResponse(sid, d, es).rest|);
    } else if TriesLeft(d) > 0 {
      GivesUp(sid, Retried(d1), es[1..]);
      PrefixTimeouts(sid, es, |RecvWaitResponse(sid, d, es).rest|);
    } else {
      assert es[..1][1..] == [];
    }
  }

  /** Enough tries for every timeout: a message ends the wait, or nothing does. */
  lemma {:induction false} HoldsOut(sid: uint32, d: Disc, es: seq<Event>)
    requires d.state == WAIT_RESPONSE && Timeouts(sid, es) <= TriesLeft(d)
    ensures var o := RecvWaitResponse(sid, d, es);
            match FirstLeave(sid, es)
            case None =>
              o.ret == None && o.d.state == WAIT_RESPONSE && o.d.tries == d.tries + Timeouts(sid, es)
            case Some(RESPONSE_MSG) => o.ret == Some(SUCCESS) && o.d.state == INFORMED && o.d.tries == 0
            case Some(NEGO_END_MSG) => o.ret == Some(SUCCESS) && o.d.state == END && o.d.tries == 0
            case Some(_) => o.d.state != WAIT_RESPONSE && (o.ret.Some? ==> o.d.tries == 0)
    decreases |es|
  {
    hide RecvWaitResponse, CString;
    if es == [] {
      NoEvents(sid, d);
    } else if Leaves(sid, es[0]) {
      LeavingTurn(sid, d, es);
    } else {
      var d1 := OneMoreEvent(sid, d, es);
      HoldsOut(sid, if es[0] == Timeout then Retried(d1) else d1, es[1..]);
    }
  }

  /** The retry bound, from any number of tries on.  Every timeout in WAIT_RESPONSE
      repeats the request while tries are left and ends the discovery when they are
      used up; no other event uses a try, and the counter is zero once `recv` returns. */
  lemma RetriesFollowTimeouts(sid: uint32, d: Disc, es: seq<Event>)
    requires d.state == WAIT_RESPONSE
    ensures var o := RecvWaitResponse(sid, d, es);
            var k := Timeouts(sid, es);
            var left := TriesLeft(d);
            && o.d.sent == d.sent + Repeat(CString(d.last), Min(k, left))
            && (o.ret.Some? ==> o.d.tries == 0)
            && (if k > left then
                  o.ret == Some(CLIENT_RECV_NOTHING_ERR) && o.d.state == END
                  && Timeouts(sid, es[..|es| - |o.rest|]) == left + 1
                else match FirstLeave(sid, es)
                     case None => o.ret == None && o.d.state == WAIT_RESPONSE && o.d.tries == d.tries + k
                     case Some(RESPONSE_MSG) => o.ret == Some(SUCCESS) && o.d.state == INFORMED
                     case Some(NEGO_END_MSG) => o.ret == Some(SUCCESS) && o.d.state == END
                     case Some(_) => o.d.state != WAIT_RESPONSE)
  {
    hide RecvWaitResponse, CString;
    SendsFollowTimeouts(sid, d, es);
    if Timeouts(sid, es) > TriesLeft(d) { GivesUp(sid, d, es); } else { HoldsOut(sid, d, es); }
  }

  /** The numbers.  A discovery that has just been sent is sent again on each of the first
      five timeouts, and the sixth, if it comes before a message that leads on, is what
      the call gives up on. */
  lemma SixthTimeoutGivesUp(sid: uint32, d: Disc, es: seq<Event>)
    requires d.state == WAIT_RESPONSE && d.tries == 0
    ensures var o := Recv(sid, d, es);
            var k := Timeouts(sid, es);
            var heard := es[..|es| - |o.rest|];
            && o.d.sent == d.sent + Repeat(CString(d.last), Min(k, 5))
            && (o.ret == Some(CLIENT_RECV_NOTHING_ERR) && Timeouts(sid, heard) == 6 <==> k >= 6)
            && (k >= 6 ==> o.d.state == END && o.d.tries == 0)
  {
    hide RecvWaitResponse, CString;
    RetriesFollowTimeouts(sid, d, es);
    if Timeouts(sid, es) < 6 { FewerInPrefix(sid, es, |es| - |RecvWaitResponse(sid, d, es).rest|); }
  }

  lemma {:induction false} FewerInPrefix(sid: uint32, es: seq<Event>, n: nat)
    requires n <= |es|
    ensures Timeouts(sid, es[..n]) <= Timeouts(sid, es)
    decreases |es|
  {
    if n > 0 && !Leaves(sid, es[0]) {
      assert es[..n][1..] == es[1..][..n - 1];
      FewerInPrefix(sid, es[1..], n - 1);
    }
  }

  lemma NoEvents(sid: uint32, d: Disc)
    requires d.state == WAIT_RESPONSE
    ensures RecvWaitResponse(sid, d, []) == Out(d, None, [])
  {
  }

  lemma PrefixTimeouts(sid: uint32, es: seq<Event>, rest: nat)
    requires rest < |es| && !Leaves(sid, es[0])
    ensures Timeouts(sid, es[..|es| - rest])
            == (if es[0] == Timeout then 1 else 0) + Timeouts(sid, es[1..][..|es[1..]| - rest])
  {
    assert es[..|es| - rest][1..] == es[1..][..|es[1..]| - rest];
  }

  lemma RepeatOneMore(xs: seq<seq<byte>>, x: seq<byte>, n: nat)
    ensures (xs + [x]) + Repeat(x, n) == xs + Repeat(x, n + 1)
  {
  }

  // ---------- what is received is taken ----------

  predicate OwnWait(sid: uint32, e: Event) {
    e.Message? && e.p.sid == sid && e.p.mtype == WAIT_MSG
  }

  /** The in-session messages that answer a discovery. */
  predicate Answers(sid: uint32, e: Event) {
    e.Message? && e.p.sid == sid && (e.p.mtype == RESPONSE_MSG || e.p.mtype == NEGO_END_MSG)
  }

  function Answered(d: Disc, e: Event): Disc
    requires e.Message?
  {
    Seen(d, e).(state := if e.p.mtype == RESPONSE_MSG then INFORMED else END)
  }

  /** After the waits ws. */
  function Waited(d: Disc, ws: seq<Event>): Disc {
    if ws == [] then d else Seen(d, ws[|ws| - 1])
  }

  lemma WaitStep(sid: uint32, d: Disc, e: Event, rest: seq<Event>)
    ensures InWait(sid, d, [e] + rest)
            == if OwnWait(sid, e) then InWait(sid, Seen(d, e), rest)
               else if Answers(sid, e) then Out(Answered(d, e), Some(SUCCESS), rest)
               else Out(Seen(d, e), Some(Refusal(sid, e, REQUEST_MSG)), rest)
  {
    assert ([e] + rest)[1..] == rest;
  }

  /** In WAIT any number of further WAITs is sat out, and the first event that is none
      decides: a response or an end succeeds, anything else is returned as refused. */
  lemma {:induction false} FirstOtherEndsWait(sid: uint32, d: Disc, ws: seq<Event>, e: Event, rest: seq<Event>)
    requires (forall w | w in ws :: OwnWait(sid, w)) && !OwnWait(sid, e)
    ensures var d1 := Waited(d, ws);
            InWait(sid, d, ws + [e] + rest)
            == if Answers(sid, e) then Out(Answered(d1, e), Some(SUCCESS), rest)
               else Out(Seen(d1, e), Some(Refusal(sid, e, REQUEST_MSG)), rest)
    decreases |ws|
  {
    hide InWait, Refusal;
    if ws == [] {
      assert ws + [e] + rest == [e] + rest;
      WaitStep(sid, d, e, rest);
    } else {
      var w, tail := ws[0], ws[1..];
      assert w in ws && forall x | x in tail :: x in ws;
      assert ws + [e] + rest == [w] + (tail + [e] + rest);
      WaitStep(sid, d, w, tail + [e] + rest);
      FirstOtherEndsWait(sid, Seen(d, w), tail, e, rest);
      if tail != [] { assert tail[|tail| - 1] == ws[|ws| - 1] && tail[|tail| - 1] in tail; }
    }
  }

  lemma AnswerInWait(sid: uint32, d: Disc, ws: seq<Event>, e: Event, rest: seq<Event>)
    requires d.state == WAIT && (forall w | w in ws :: OwnWait(sid, w)) && Answers(sid, e)
    ensures Recv(sid, d, ws + [e] + rest) == Out(Answered(d, e), Some(SUCCESS), rest)
  {
    hide InWait;
    FirstOtherEndsWait(sid, d, ws, e, rest);
    AnswerHidesWaits(d, ws, e);
  }

  lemma AnswerHidesWaits(d: Disc, ws: seq<Event>, e: Event)
    requires e.Message?
    ensures Answered(Waited(d, ws), e) == Answered(d, e)
  {
  }

  /** In WAIT_RESPONSE as well, with or without WAITs before it. */
  lemma AnswerInWaitResponse(sid: uint32, d: Disc, ws: seq<Event>, e: Event, rest: seq<Event>)
    requires d.state == WAIT_RESPONSE && (forall w | w in ws :: OwnWait(sid, w)) && Answers(sid, e)
    ensures RecvWaitResponse(sid, d, ws + [e] + rest) == Out(Answered(d, e).(tries := 0), Some(SUCCESS), rest)
  {
    hide InWait, CString, Overlay;
    if ws == [] {
      assert ws + [e] + rest == [e] + rest && ([e] + rest)[1..] == rest;
    } else {
      var w, tail := ws[0], ws[1..];
      assert w in ws && forall x | x in tail :: x in ws;
      assert (ws + [e] + rest)[1..] == tail + [e] + rest;
      AnswerInWait(sid, Seen(d, w).(state := WAIT), tail, e, rest);
    }
  }

  /** An answer is never missed.  Whatever comes before it that leads nowhere, foreign
      PDUs, errors and as many timeouts as tries are left, and after that any number of
      WAITs: the first in-session RESPONSE makes recv succeed in INFORMED, the first
      NEGO_END in END, with its data in the buffer, one retry sent for each timeout and
      nothing behind it read. */
  lemma {:induction false} FirstAnswerIsTaken(
    sid: uint32, d: Disc, before: seq<Event>, ws: seq<Event>, e: Event, rest: seq<Event>)
    requires d.state == WAIT_RESPONSE && Answers(sid, e) && forall w | w in ws :: OwnWait(sid, w)
    requires (forall x | x in before :: !Leaves(sid, x)) && Timeouts(sid, before) <= TriesLeft(d)
    ensures Recv(sid, d, before + (ws + [e] + rest))
            == Out(d.(state := if e.p.mtype == RESPONSE_MSG then INFORMED else END, typ := e.p.mtype,
                      buffer := e.p.data, tries := 0,
                      sent := d.sent + Repeat(CString(d.last), Timeouts(sid, before))),
                   Some(SUCCESS), rest)
    decreases |before|
  {
    hide RecvWaitResponse, CString;
    var es := before + (ws + [e] + rest);
    if before == [] {
      assert es == ws + [e] + rest && d.sent + [] == d.sent;
      AnswerInWaitResponse(sid, d, ws, e, rest);
    } else {
      var x, tail := before[0], before[1..];
      assert x in before && forall y | y in tail :: y in before;
      assert es[1..] == tail + (ws + [e] + rest);
      var d1 := OneMoreEvent(sid, d, es);
      if x == Timeout {
        FirstAnswerIsTaken(sid, Retried(d1), tail, ws, e, rest);
        RepeatOneMore(d.sent, CString(d.last), Timeouts(sid, tail));
      } else {
        FirstAnswerIsTaken(sid, d1, tail, ws, e, rest);
      }
    }
  }

  /** Outside WAIT_RESPONSE and WAIT nothing is received. */
  lemma RecvRefuses(sid: uint32, d: Disc, es: seq<Event>)
    requires d.state != WAIT_RESPONSE && d.state != WAIT
    ensures var o := Recv(sid, d, es);
            && o.d == d && o.rest == es
            && o.ret == Some(if d.state == NEGOING then CLIENT_UNEXPECTED_STATE_ERR
                             else CLIENT_RECV_UNEXPECTED_MSG_TYPE_ERR)
  {
  }

  /** A discovery goes out from OFF, and from WAIT_RESPONSE five times at most; at any
      other time nothing changes but that the sixth attempt ends it. */
  lemma SendExactly(d: Disc, data: Buffer)
    ensures var (d1, r) := Send(d, data);
            && (r == SUCCESS <==> d.state == OFF || (d.state == WAIT_RESPONSE && d.tries < 5))
            && d1.sent == d.sent + (if r == SUCCESS then [CString(data)] else [])
            && d1.state == (if d.state == OFF then WAIT_RESPONSE
                            else if d.state == WAIT_RESPONSE && d.tries >= 5 then END else d.state)
            && d1.tries == d.tries + (if d.state == WAIT_RESPONSE && d.tries < 5 then 1 else 0)
            && (r == CLIENT_RECV_NOTHING_ERR <==> d.state == WAIT_RESPONSE && d.tries >= 5)
            && (r == CLIENT_SEND_UNEXPECTED_MSG_TYPE_ERR <==> d.state == WAIT || d.state == END)
  {
    hide CString, Overlay;
    assert d.sent + [] == d.sent;
  }

  // ---------- what the caller of recv learns ----------

  /** A response in INFORMED, or a NEGO_END in END. */
  predicate Informed(d: Disc) {
    (d.state == INFORMED && d.typ == RESPONSE_MSG) || (d.state == END && d.typ == NEGO_END_MSG)
  }

  /** SUCCESS tells the truth, and state and type tell it too unless `misled`. */
  predicate Told(o: Out, misled: bool) {
    && o.ret != Some(TIMEOUT)
    && (o.ret == Some(SUCCESS) ==> Informed(o.d))
    && ((o.ret == Some(SUCCESS) <==> Informed(o.d)) <==> !misled)
  }

  /** In WAIT only further WAITs keep the call going, so a timeout finds their type, or
      what `type` held if it comes first. */
  lemma {:induction false} TimeoutInWait(sid: uint32, d: Disc, es: seq<Event>)
    requires d.state == WAIT && InWait(sid, d, es).ret == Some(TIMEOUT)
    ensures InWait(sid, d, es).d.typ == if es[0] == Timeout then d.typ else WAIT_MSG
    decreases |es|
  {
    if es[0] != Timeout {
      TimeoutInWait(sid, InTime(sid, d, es[0]).0, es[1..]);
    }
  }

  lemma TimeoutFirst(sid: uint32, d: Disc, es: seq<Event>)
    requires d.state == WAIT && es != [] && es[0] == Timeout
    ensures InWait(sid, d, es) == Out(d, Some(TIMEOUT), es[1..])
  {
  }

  lemma WaitOutcome(sid: uint32, d: Disc, es: seq<Event>)
    requires d.state == WAIT && RecvWait(sid, d, es).ret.Some?
    ensures Told(RecvWait(sid, d, es), es[0] == Timeout && d.typ == NEGO_END_MSG)
  {
    hide InWait;
    InWaitKeeps(sid, d, es);
    if InWait(sid, d, es).ret == Some(TIMEOUT) { TimeoutInWait(sid, d, es); }
    if es[0] == Timeout { TimeoutFirst(sid, d, es); }
  }

  /** A WAIT in WAIT_RESPONSE sets `type` before the nested wait begins. */
  lemma LeavingOutcome(sid: uint32, d: Disc, es: seq<Event>)
    requires d.state == WAIT_RESPONSE && es != [] && Leaves(sid, es[0])
    requires RecvWaitResponse(sid, d, es).ret.Some?
    ensures Told(RecvWaitResponse(sid, d, es), false)
  {
    hide InWait, RecvWait, CString, Overlay;
    LeavingEvent(sid, d, es);
    var d1 := d.(typ := es[0].p.mtype, buffer := es[0].p.data, state := WAIT);
    if es[0].p.mtype == WAIT_MSG && RecvWait(sid, d1, es[1..]).ret.Some? { WaitOutcome(sid, d1, es[1..]); }
  }

  lemma {:induction false} HeldOutOutcome(sid: uint32, d: Disc, es: seq<Event>)
    requires d.state == WAIT_RESPONSE && Timeouts(sid, es) <= TriesLeft(d)
    requires RecvWaitResponse(sid, d, es).ret.Some?
    ensures Told(RecvWaitResponse(sid, d, es), false)
    decreases |es|
  {
    hide RecvWaitResponse, CString, Told;
    if es == [] {
      NoEvents(sid, d);
    } else if Leaves(sid, es[0]) {
      LeavingOutcome(sid, d, es);
    } else {
      var d1 := OneMoreEvent(sid, d, es);
      HeldOutOutcome(sid, if es[0] == Timeout then Retried(d1) else d1, es[1..]);
    }
  }

  /** What makes a failed call look like a NEGO_END.  In WAIT_RESPONSE: more timeouts
      than tries are left, and the last message decoded before the one too many, from
      whatever session, was a NEGO_END (or `type` held one and none came).  In WAIT: a
      timeout at once, on a `type` that held one. */
  predicate Misleading(sid: uint32, d: Disc, es: seq<Event>) {
    if d.state == WAIT_RESPONSE then
      Timeouts(sid, es) > TriesLeft(d) && TypAfter(d.typ, es, TriesLeft(d) + 1) == NEGO_END_MSG
    else
      es != [] && es[0] == Timeout && d.typ == NEGO_END_MSG
  }

  /** recv never reports TIMEOUT, through any depth of nested waiting, and a SUCCESS
      always means a response in INFORMED or a NEGO_END in END.  State and type alone
      tell as much exactly if the state, the type and the events that the call starts
      on are not misleading. */
  lemma RecvOutcome(sid: uint32, d: Disc, es: seq<Event>)
    requires d.state == WAIT_RESPONSE || d.state == WAIT
    requires Recv(sid, d, es).ret.Some?
    ensures var o := Recv(sid, d, es);
            && o.ret != Some(TIMEOUT)
            && (o.ret == Some(SUCCESS) ==> Informed(o.d))
            && ((o.ret == Some(SUCCESS) <==> Informed(o.d)) <==> !Misleading(sid, d, es))
  {
    hide RecvWaitResponse, RecvWait, TypAfter, Timeouts;
    if d.state == WAIT {
      WaitOutcome(sid, d, es);
    } else if Timeouts(sid, es) > TriesLeft(d) {
      GivesUp(sid, d, es);
    } else {
      HeldOutOutcome(sid, d, es);
    }
  }

  function Silence(n: nat): seq<Event> {
    if n == 0 then [] else [Timeout] + Silence(n - 1)
  }

  lemma {:induction false} SilenceIsTimeouts(sid: uint32, typ: MsgType, n: nat, k: nat)
    ensures Timeouts(sid, Silence(n)) == n && TypAfter(typ, Silence(n), k) == typ
    decreases n
  {
    if n > 0 {
      assert Silence(n)[1..] == Silence(n - 1);
      SilenceIsTimeouts(sid, typ, n - 1, if k == 0 then 0 else k - 1);
    }
  }

  /** It takes one foreign NEGO_END and a silent network: END, NEGO_END and no success. */
  lemma StaleTypeExample(sid: uint32, d: Disc, foreign: Pdu)
    requires d.state == WAIT_RESPONSE && d.tries == 0
    requires foreign.sid != sid && foreign.mtype == NEGO_END_MSG
    ensures var o := Recv(sid, d, [Message(foreign)] + Silence(6));
            Informed(o.d) && o.ret == Some(CLIENT_RECV_NOTHING_ERR)
  {
    hide Silence, CString, Overlay, RecvWaitResponse;
    var es := [Message(foreign)] + Silence(6);
    assert es[1..] == Silence(6);
    SilenceIsTimeouts(sid, NEGO_END_MSG, 6, 6);
    GivesUp(sid, d, es);
  }

  /** The request that is repeated is the one that was sent: `send` stops at the first
      NUL both times, the buffer is stored without what lies behind it, and encode pads
      with zeros. */
  lemma RetryRepeatsTheRequest(d: Disc, request: Buffer)
    requires d.state == OFF
    ensures var d1 := Send(d, request).0;
            && d1.state == WAIT_RESPONSE
            && d1.sent == d.sent + [CString(request)]
            && CString(d1.last) == CString(request)
  {
    var bits := CString(request);
    if |bits| < MAX_STRING_LENGTH {
      CStringOfTerminated(bits, Overlay(bits, Zeros(MAX_STRING_LENGTH)));
    } else {
      assert Overlay(bits, Zeros(MAX_STRING_LENGTH)) == bits;
    }
  }

  lemma {:induction false} CStringOfTerminated(s: seq<byte>, d: seq<byte>)
    requires s <= d && 0 !in s && |s| < |d| && d[|s|] == 0
    ensures CString(d) == s
    decreases |s|
  {
    if s != [] {
      assert s[0] in s && s[0] == d[0];
      assert forall x | x in s[1..] :: x in s;
      CStringOfTerminated(s[1..], d[1..]);
      assert s == [s[0]] + s[1..];
    }
  }

  // ---------- the code itself ----------

  class Discoverer {
    const sessionId: uint32
    var curState: ClientState
    var tryTimes: nat
    const lastTopOptions: array<byte>
    // the caller's buffer and type
    const buffer: array<byte>
    var typ: MsgType
    // the network
    var events: seq<Event>
    var sent: seq<seq<byte>>

    predicate Valid() {
      lastTopOptions.Length == MAX_STRING_LENGTH && buffer.Length == MAX_STRING_LENGTH && lastTopOptions != buffer
    }

    constructor (sessionId: uint32, typ: MsgType)
      ensures Valid() && fresh(lastTopOptions) && fresh(buffer)
      ensures View() == Disc(OFF, 0, Zeros(MAX_STRING_LENGTH), typ, Zeros(MAX_STRING_LENGTH), [])
      ensures this.sessionId == sessionId && events == []
    {
      this.sessionId, curState, tryTimes, this.typ, events, sent := sessionId, OFF, 0, typ, [], [];
      lastTopOptions := new byte[MAX_STRING_LENGTH](_ => 0);
      buffer := new byte[MAX_STRING_LENGTH](_ => 0);
      new;
      assert lastTopOptions[..] == Zeros(MAX_STRING_LENGTH) && buffer[..] == Zeros(MAX_STRING_LENGTH);
    }

    function View(): Disc
      reads this, lastTopOptions, buffer
      requires Valid()
    {
      Disc(curState, tryTimes, lastTopOptions[..], typ, buffer[..], sent)
    }

    function AsOut(ret: Maybe<Errno>): Out
      reads this, lastTopOptions, buffer
      requires Valid()
    {
      Out(View(), ret, events)
    }

    /** `send(from, strlen(from), DISCOVERY_MSG)`. */
    method SendFrom(from: array<byte>) returns (r: Errno)
      requires Valid() && from.Length == MAX_STRING_LENGTH
      modifies this, lastTopOptions
      ensures (View(), r) == Send(old(View()), old(from[..])) && events == old(events)
    {
      var data := Codec.StrNCopy(from, 0, MAX_STRING_LENGTH);
      assert Window(from[..], 0, MAX_STRING_LENGTH) == from[..];
      match curState
      case OFF =>
        sent := sent + [data];
        Codec.StoreLastOptions(lastTopOptions, data);
        curState := WAIT_RESPONSE;
        r := SUCCESS;
      case WAIT_RESPONSE =>
        if tryTimes < MAX_TRY_TIMES {
          sent := sent + [data];
          tryTimes := tryTimes + 1;
          r := SUCCESS;
        } else {
          curState := END;
          r := CLIENT_RECV_NOTHING_ERR;
        }
      case WAIT => r := CLIENT_SEND_UNEXPECTED_MSG_TYPE_ERR;
      case END => r := CLIENT_SEND_UNEXPECTED_MSG_TYPE_ERR;
      case _ => r := CLIENT_UNEXPECTED_STATE_ERR;
    }

    /** recv_in_time on the next event. */
    method RecvInTime() returns (r: Errno)
      requires Valid() && events != []
      modifies this`events, this`typ, buffer
      ensures (View(), r) == InTime(sessionId, old(View()), old(events[0])) && events == old(events[1..])
    {
      var e := events[0];
      events := events[1..];
      match e
      case Timeout => r := TIMEOUT;
      case SelectFails => r := SELECT_ERR;
      case RecvFails => r := RECV_ERR;
      case DecodeFails =>
        Codec.MemZero(buffer);
        r := MSG_TYPE_ERR;
      case Message(p) =>
        Codec.MemZero(buffer);
        Codec.MemCopy(buffer, 0, p.data);
        assert buffer[..] == p.data;
        typ := p.mtype;
        r := if p.sid != sessionId then CLIENT_RECV_NOMATCHED_SESSION_ID_ERR else SUCCESS;
    }

    method RecvInWait() returns (ret: Maybe<Errno>)
      requires Valid()
      modifies this, buffer
      ensures AsOut(ret) == InWait(sessionId, old(View()), old(events))
      decreases |events|
    {
      if events == [] { return None; }
      var r := RecvInTime();
      if r != SUCCESS { return Some(r); }
      match typ
      case REQUEST_MSG => return Some(CLIENT_RECV_UNEXPECTED_MSG_TYPE_ERR);
      case WAIT_MSG => ret := RecvInWait();
      case RESPONSE_MSG =>
        curState := INFORMED;
        return Some(SUCCESS);
      case NEGO_END_MSG =>
        curState := END;
        return Some(SUCCESS);
      case _ => return Some(MSG_TYPE_ERR);
    }

    /** The WAIT case of recv. */
    method ReceiveWaiting() returns (ret: Maybe<Errno>)
      requires Valid()
      modifies this, buffer
      ensures AsOut(ret) == RecvWait(sessionId, old(View()), old(events))
    {
      ret := RecvInWait();
      if ret == Some(TIMEOUT) {
        curState := END;
        ret := Some(CLIENT_RECV_NOTHING_ERR);
      }
    }

    method RecvInWaitResponse() returns (ret: Maybe<Errno>)
      requires Valid()
      modifies this, buffer
      ensures AsOut(ret) == InWaitResponse(sessionId, old(View()), old(events))
    {
      if events == [] { return None; }
      var r := RecvInTime();
      if r != SUCCESS { return Some(r); }
      match typ
      case DISCOVERY_MSG => return Some(CLIENT_RECV_UNEXPECTED_MSG_TYPE_ERR);
      case WAIT_MSG =>
        curState := WAIT;
        ret := ReceiveWaiting();
      case RESPONSE_MSG =>
        curState := INFORMED;
        return Some(SUCCESS);
      case NEGO_END_MSG =>
        curState := END;
        return Some(SUCCESS);
      case _ => return Some(MSG_TYPE_ERR);
    }

    /** The WAIT_RESPONSE case of recv. */
    method ReceiveResponse() returns (ret: Maybe<Errno>)
      requires Valid() && curState == WAIT_RESPONSE
      modifies this, buffer, lastTopOptions
      ensures AsOut(ret) == RecvWaitResponse(sessionId, old(View()), old(events))
    {
      hide InWaitResponse, Send;
      ret := None;
      while curState == WAIT_RESPONSE
        invariant ret.None? ==> curState == WAIT_RESPONSE
        invariant curState == WAIT_RESPONSE ==>
                    RecvWaitResponse(sessionId, View(), events)
                    == RecvWaitResponse(sessionId, old(View()), old(events))
        invariant curState != WAIT_RESPONSE ==>
                    AsOut(ret).(d := View().(tries := 0)) == RecvWaitResponse(sessionId, old(View()), old(events))
        decreases |events|, curState == WAIT_RESPONSE
      {
        ret := RecvInWaitResponse();
        if ret.None? { return; }
        if ret == Some(TIMEOUT) && curState == WAIT_RESPONSE {
          var r := SendFrom(lastTopOptions);
          ret := Some(r);
        }
      }
      tryTimes := 0;
    }

    method Receive() returns (ret: Maybe<Errno>)
      requires Valid()
      modifies this, buffer, lastTopOptions
      ensures AsOut(ret) == Recv(sessionId, old(View()), old(events))
    {
      match curState
      case WAIT_RESPONSE => ret := ReceiveResponse();
      case WAIT => ret := ReceiveWaiting();
      case NEGOING => ret := Some(CLIENT_UNEXPECTED_STATE_ERR);
      case _ => ret := Some(CLIENT_RECV_UNEXPECTED_MSG_TYPE_ERR);
    }
  }
}
