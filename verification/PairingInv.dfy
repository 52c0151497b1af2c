/** The invariant of the paired run and its preservation by every action. */
module PairingInv {
  import opened Wire
  import opened Bargain
  import opened Pairing
  import C = ClientTcp
  import S = Session

  // ---------- what of a channel concerns this session ----------

  function OwnHead(sid: uint32, p: Pdu): seq<Content> {
    if p.sid == sid then [S.Content(p.mtype, p.data)] else []
  }

  function Own(sid: uint32, ps: seq<Pdu>): seq<Content> {
    if ps == [] then [] else OwnHead(sid, ps[0]) + Own(sid, ps[1..])
  }

  function TellingHead(sid: uint32, p: Pdu): seq<Content> {
    if p.sid == sid && p.mtype != WAIT_MSG then [S.Content(p.mtype, p.data)] else []
  }

  /** This session's messages that are not WAITs. */
  function Telling(sid: uint32, ps: seq<Pdu>): seq<Content> {
    if ps == [] then [] else TellingHead(sid, ps[0]) + Telling(sid, ps[1..])
  }

  lemma OwnOfCons(sid: uint32, p: Pdu, ps: seq<Pdu>)
    ensures Own(sid, [p] + ps) == OwnHead(sid, p) + Own(sid, ps)
  {
    assert ([p] + ps)[1..] == ps;
  }

  lemma TellingOfCons(sid: uint32, p: Pdu, ps: seq<Pdu>)
    ensures Telling(sid, [p] + ps) == TellingHead(sid, p) + Telling(sid, ps)
  {
    assert ([p] + ps)[1..] == ps;
  }

  lemma OwnOfNone(sid: uint32)
    ensures Own(sid, []) == []
  {
  }

  lemma TellingOfNone(sid: uint32)
    ensures Telling(sid, []) == []
  {
  }

  lemma {:induction false} OwnOfAppend(sid: uint32, ps: seq<Pdu>, qs: seq<Pdu>)
    ensures Own(sid, ps + qs) == Own(sid, ps) + Own(sid, qs)
  {
    hide Own, OwnHead;
    if ps == [] {
      OwnOfNone(sid);
      assert ps + qs == qs;
    } else {
      var rest := ps[1..];
      OwnOfAppend(sid, rest, qs);
      OwnOfCons(sid, ps[0], rest);
      OwnOfCons(sid, ps[0], rest + qs);
      assert [ps[0]] + rest == ps && [ps[0]] + (rest + qs) == ps + qs;
      var head := OwnHead(sid, ps[0]);
      assert (head + Own(sid, rest)) + Own(sid, qs) == head + (Own(sid, rest) + Own(sid, qs));
    }
  }

  lemma {:induction false} TellingOfAppend(sid: uint32, ps: seq<Pdu>, qs: seq<Pdu>)
    ensures Telling(sid, ps + qs) == Telling(sid, ps) + Telling(sid, qs)
  {
    hide Telling, TellingHead;
    if ps == [] {
      TellingOfNone(sid);
      assert ps + qs == qs;
    } else {
      var rest := ps[1..];
      TellingOfAppend(sid, rest, qs);
      TellingOfCons(sid, ps[0], rest);
      TellingOfCons(sid, ps[0], rest + qs);
      assert [ps[0]] + rest == ps && [ps[0]] + (rest + qs) == ps + qs;
      var head := TellingHead(sid, ps[0]);
      assert (head + Telling(sid, rest)) + Telling(sid, qs) == head + (Telling(sid, rest) + Telling(sid, qs));
    }
  }

  /** Repeating a PDU repeats its content in place, or nothing if it is foreign. */
  lemma OwnOfRepeat(sid: uint32, ps: seq<Pdu>, i: nat) returns (j: nat)
    requires i < |ps|
    ensures var xs := Own(sid, ps);
            var ys := Own(sid, ps[..i + 1] + ps[i..]);
            || ys == xs
            || (j < |xs| && ys == xs[..j + 1] + xs[j..] && xs[j].mtype == ps[i].mtype)
  {
    hide Own;
    var before, p, behind := ps[..i], ps[i], ps[i + 1..];
    var xs, ys := Own(sid, before), Own(sid, behind);
    assert ps == before + ([p] + behind);
    assert ps[..i + 1] + ps[i..] == before + ([p] + ([p] + behind));
    OwnOfAppend(sid, before, [p] + behind);
    OwnOfAppend(sid, before, [p] + ([p] + behind));
    OwnOfCons(sid, p, behind);
    OwnOfCons(sid, p, [p] + behind);
    j := |xs|;
    if p.sid == sid {
      var c := S.Content(p.mtype, p.data);
      assert (xs + ([c] + ys))[..j + 1] == xs + [c] && (xs + ([c] + ys))[j..] == [c] + ys;
      assert (xs + [c]) + ([c] + ys) == xs + ([c] + ([c] + ys));
    } else {
      assert [] + ys == ys;
    }
  }

  /** The system as this session's two ends see it: `own` is what the channel holds
      for the server, `told` what it holds for the client besides WAITs. */
  datatype View = View(
    client: C.Client, own: seq<Content>, told: seq<Content>, session: Maybe<S.Session>,
    offers: seq<Offer>, ends: seq<Side>)

  function ViewOf(sid: uint32, y: System): View {
    View(y.client, Own(sid, y.toServer), Telling(sid, y.toClient), y.session, y.offers, y.ends)
  }

  /** What the run loop has yet to act on: its queue and then this session's messages
      in the channel, behind the filter. */
  function Pending(cfg: Config, w: View): seq<Content> {
    match w.session
    case None => S.Fresh(cfg.filter, cfg.uninit, w.own)
    case Some(s) => S.Fresh(cfg.filter, s.last, s.queue + w.own)
  }

  // ---------- positions of the game ----------

  /** `Table`: the offer v with count m, carried by c, is on its way to `to` or
      before it.  `Decided`: `decider` has decided and says so in c.  `Lost`: the
      server dropped the offer, so nobody will ever answer it. */
  datatype Position =
    | Unopened
    | Table(to: Side, v: Value, m: int, c: Content)
    | Decided(decider: Side, verdict: Verdict, v: Value, c: Content)
    | Lost

  predicate IsOffer(cfg: Config, c: Content, v: Value, m: int) {
    && S.CarriesObjective(c.mtype) && 1 <= m < 256
    && ParseObjective(c.data) == Objective(cfg.game.kind, v, m, cfg.flag)
    && ParseOption(c.data).kind == cfg.game.kind
    && c.data[0] == TypeNum(cfg.game.kind) && c.data[1] == 0
  }

  predicate Tells(c: Content, verdict: Verdict) {
    && c.mtype == NEGO_END_MSG
    && match verdict
       case Accepted => ParseOption(c.data).kind == Accept
       case Declined => ParseOption(c.data).kind == Decline
       case Synchronized(r) => ParseOption(c.data).kind == Synchronization && ParseObjective(c.data).value == r
  }

  /** The outcome that the game predicts. */
  function Goal(cfg: Config): Outcome
    requires cfg.Valid()
  {
    Play(cfg.game, ServerSide, cfg.v0, cfg.n)
  }

  predicate OnCourse(cfg: Config, w: View, pos: Position)
    requires cfg.Valid()
  {
    var k := |w.offers|;
    match pos
    case Unopened => k == 0
    case Table(to, v, m, c) =>
      && 1 <= k && m == cfg.n - k + 1 && to == (if k % 2 == 1 then ServerSide else ClientSide)
      && IsOffer(cfg, c, v, m) && (c.mtype == REQUEST_MSG <==> k == 1)
      && w.offers[k - 1].option == Objective(cfg.game.kind, v, m, cfg.flag)
      && var o := Play(cfg.game, to, v, m); o.(offers := k - 1 + o.offers) == Goal(cfg)
    case Decided(decider, verdict, v, c) =>
      && 1 <= k && Goal(cfg) == Outcome(verdict, v, decider, k)
      && Tells(c, verdict) && w.offers[k - 1].option.value == v
    case Lost => 1 <= k <= Goal(cfg).offers
  }

  /** The k-th objective message comes from alternating sides and carries n - k. */
  predicate CountsFall(cfg: Config, w: View) {
    && |w.offers| <= cfg.n
    && forall i | 0 <= i < |w.offers| ::
         && w.offers[i].from == (if i % 2 == 0 then ClientSide else ServerSide)
         && w.offers[i].option.kind == cfg.game.kind
         && w.offers[i].option.loopCount == cfg.n - i
         && w.offers[i].option.flag == cfg.flag
  }

  predicate Undecided(c: C.Client) {
    c.phase == C.Reading && c.verdict == None && c.configured == []
  }

  /** The client has returned with `verdict` and configured what it should: the value
      on the table, or what lastTopOptions held if it never wrote a NEGO. */
  predicate Done(cfg: Config, w: View, verdict: Verdict, decider: Side, v: Value) {
    && w.client.phase == C.Returned(SUCCESS)
    && match verdict
       case Accepted =>
         && w.client.verdict == Some(Accepted)
         && w.client.configured
            == [if decider == ClientSide || |w.offers| >= 3 then v else ParseObjective(cfg.stale).value]
       case Declined => w.client.verdict == Some(Declined) && w.client.configured == []
       case Synchronized(r) => w.client.verdict == None && w.client.configured == [r]
  }

  predicate ClientFits(cfg: Config, w: View, pos: Position) {
    match pos
    case Unopened =>
      && w.client.phase == C.Idle && w.client.state == OFF && w.client.last == cfg.stale
      && w.client.verdict == None && w.client.configured == []
    case Table(to, v, _, _) => Undecided(w.client) && Stored(cfg, w, to, v)
    case Decided(decider, verdict, v, _) =>
      || Done(cfg, w, verdict, decider, v)
      || (decider == ServerSide && Undecided(w.client) && Stored(cfg, w, ServerSide, v))
    case Lost => Undecided(w.client)
  }

  /** lastTopOptions holds the client's latest NEGO, once there is one. */
  predicate Stored(cfg: Config, w: View, to: Side, v: Value) {
    if |w.offers| <= 2 then w.client.last == cfg.stale
    else to == ServerSide ==> ParseObjective(w.client.last).value == v
  }

  function Announced(verdict: Verdict): Maybe<Verdict> {
    if verdict.Synchronized? then None else Some(verdict)
  }

  /** Between two messages. */
  predicate Resting(cfg: Config, s: S.Session) {
    s.pc == S.Head || s.pc == S.Pop || (s.pc.SendSet? && S.Reply(cfg.game.server, s.pc.c).mtype == NEGO_MSG)
  }

  /** On the way from popping the offer c to writing the counter-offer. */
  predicate AtWork(cfg: Config, s: S.Session, c: Content) {
    || s.pc == S.SetRead(c) || s.pc == S.SetWrite(c, S.PROCESSING) || s.pc == S.Spawn(c) || s.pc == S.Live(c)
    || s.pc == S.Work(c)
    || ((s.pc == S.SendRead(c) || s.pc == S.SendWrite(c)) && S.Reply(cfg.game.server, c).mtype == NEGO_MSG)
  }

  predicate AtEnd(s: S.Session) {
    (s.pc == S.Head && s.state == S.SESSION_END) || s.pc == S.Exited
  }

  predicate TableAtServer(cfg: Config, w: View, c: Content) {
    && w.told == [] && w.ends == []
    && match w.session
       case None =>
         w.own == [c] && c.mtype == REQUEST_MSG && !S.Same(cfg.filter, c, cfg.uninit)
       case Some(s) =>
         && s.verdict == None
         && (|| (Resting(cfg, s) && Pending(cfg, w) == [c])
             || (AtWork(cfg, s, c) && Pending(cfg, w) == [] && s.last == c))
  }

  predicate TableAtClient(cfg: Config, w: View, m: int, c: Content) {
    && w.told == [c] && c.mtype == NEGO_MSG && w.ends == []
    && w.session.Some? && w.session.value.verdict == None
    && var s := w.session.value;
       || s.pc == S.Exited
       || (Resting(cfg, s) && Pending(cfg, w) == [] && Answered(cfg, |w.offers|, s.last, m + 1))
  }

  /** `last` is the offer that the server answered last, with k offers written. */
  predicate Answered(cfg: Config, k: nat, last: Content, m: int) {
    && ParseObjective(last.data).loopCount == m
    && S.CarriesObjective(last.mtype) && (last.mtype == REQUEST_MSG <==> k == 2)
    && last.data[0] == TypeNum(cfg.game.kind) && last.data[1] == 0
  }

  predicate DecidedByServer(cfg: Config, w: View, verdict: Verdict, c: Content) {
    && w.session.Some? && w.session.value.verdict == Announced(verdict)
    && var s := w.session.value;
       var told := w.told;
       if w.ends == [] then
         && Undecided(w.client) && told == []
         && (|| ((s.pc.SendRead? || s.pc.SendWrite?) && S.Reply(cfg.game.server, s.pc.c) == c)
             || s.pc.Final? || AtEnd(s))
       else
         && w.ends == [ServerSide] && S.Closing(cfg.Server(), s)
         && told == if w.client.phase == C.Reading then [c] else []
  }

  predicate DecidedByClient(cfg: Config, w: View, verdict: Verdict, c: Content) {
    && w.told == [] && w.ends == [ClientSide] && w.client.phase != C.Reading
    && w.session.Some?
    && var s := w.session.value;
       || (s.verdict == None && Resting(cfg, s) && Pending(cfg, w) == [c])
       || (s.verdict == None && Pending(cfg, w) == []
           && (s.pc == S.SetRead(c) || s.pc == S.SetWrite(c, S.SESSION_END) || s.pc == S.Spawn(c) || s.pc == S.Live(c)))
       || (AtEnd(s) && (s.verdict == None || s.verdict == Some(verdict)))
  }

  predicate ServerFits(cfg: Config, w: View, pos: Position) {
    match pos
    case Unopened =>
      w.session == None && w.own == [] && w.told == [] && w.ends == []
    case Table(to, v, m, c) => if to == ServerSide then TableAtServer(cfg, w, c) else TableAtClient(cfg, w, m, c)
    case Decided(decider, verdict, v, c) =>
      if decider == ServerSide then DecidedByServer(cfg, w, verdict, c) else DecidedByClient(cfg, w, verdict, c)
    case Lost =>
      && w.told == [] && w.ends == []
      && match w.session
         case None =>
           && w.own != [] && |w.own| == 1
           && w.own[0].mtype == REQUEST_MSG
           && S.Same(cfg.filter, w.own[0], cfg.uninit)
         case Some(s) =>
           s.verdict == None && (s.pc == S.Exited || (Resting(cfg, s) && Pending(cfg, w) == []))
  }

  /** What holds at every position: a REQUEST only ever opens the session, and the
      session's threads are safe. */
  predicate Orderly(w: View) {
    w.session.Some? ==> S.SafeState(w.session.value) && forall c | c in w.own :: c.mtype != REQUEST_MSG
  }

  predicate Fits(cfg: Config, w: View, pos: Position)
    requires cfg.Valid()
  {
    && Orderly(w) && CountsFall(cfg, w)
    && OnCourse(cfg, w, pos) && ClientFits(cfg, w, pos) && ServerFits(cfg, w, pos)
    && (cfg.filter == S.CStringContent && |w.offers| >= 5 ==> pos == Lost)
  }

  predicate WaitsCarryTime(sid: uint32, ps: seq<Pdu>) {
    forall p | p in ps && p.sid == sid && p.mtype == WAIT_MSG :: ParseOption(p.data).kind == WaitingTime
  }

  predicate Inv(cfg: Config, y: System, pos: Position)
    requires cfg.Valid()
  {
    WaitsCarryTime(cfg.sid, y.toClient) && Fits(cfg, ViewOf(cfg.sid, y), pos)
  }

  // ---------- the two reactions ----------

  /** The server's answer to an offer is its move in the game. */
  lemma ReplyIsServerMove(cfg: Config, c: Content, v: Value, m: int)
    requires cfg.Valid() && IsOffer(cfg, c, v, m)
    ensures var r := S.Reply(cfg.game.server, c);
            match ServerMove(cfg.game, v, m)
            case Counter(w) => r.mtype == NEGO_MSG && IsOffer(cfg, r, w, m - 1) && cfg.game.kind == Negotiation
            case Decide(d) => Tells(r, d) && S.VerdictIn(r.data) == Announced(d)
  {
    hide ParseObjective, ParseOption, ObjectiveData, BareData;
  }

  /** The client's reaction to an offer is its move in the game. */
  lemma ClientPlays(cfg: Config, c0: C.Client, p: Pdu, v: Value, m: int)
    requires cfg.Valid() && cfg.game.kind == Negotiation
    requires Undecided(c0) && p.sid == cfg.sid && p.mtype == NEGO_MSG
    requires IsOffer(cfg, S.Content(p.mtype, p.data), v, m)
    ensures var (c, out) := C.Receive(cfg.Client(), c0, p);
            && |out| == 1 && out[0].sid == cfg.sid
            && var sent := S.Content(out[0].mtype, out[0].data);
               match ClientMove(cfg.game, v, m)
               case Counter(w) =>
                 && Undecided(c) && c.last == sent.data && sent.mtype == NEGO_MSG && IsOffer(cfg, sent, w, m - 1)
               case Decide(d) =>
                 && c.phase == C.Returned(SUCCESS) && c.verdict == Some(d) && Tells(sent, d)
                 && c.configured == if d == Accepted then [v] else []
  {
    hide ParseObjective, ParseOption, ObjectiveData, BareData;
  }

  lemma ClientHears(cfg: Config, c0: C.Client, p: Pdu, verdict: Verdict)
    requires cfg.Valid() && (verdict.Synchronized? <==> cfg.game.kind == Synchronization)
    requires Undecided(c0) && p.sid == cfg.sid && Tells(S.Content(p.mtype, p.data), verdict)
    ensures var (c, out) := C.Receive(cfg.Client(), c0, p);
            && out == [] && c.phase == C.Returned(SUCCESS)
            && match verdict
               case Accepted =>
                 c.verdict == Some(Accepted) && c.configured == [ParseObjective(c0.last).value]
               case Declined => c.verdict == Some(Declined) && c.configured == []
               case Synchronized(r) => c.verdict == None && c.configured == [r]
  {
    hide ParseObjective, ParseOption, ObjectiveData, BareData;
  }

  lemma ClientSkips(cfg: Config, c0: C.Client, p: Pdu)
    requires c0.phase == C.Reading
    requires p.sid != cfg.sid || (p.mtype == WAIT_MSG && ParseOption(p.data).kind == WaitingTime)
    ensures var (c, out) := C.Receive(cfg.Client(), c0, p);
            out == [] && C.SameBargain(c, c0)
  {
    hide ParseObjective, ParseOption, ObjectiveData, BareData;
  }
}
