/** How long a paired run can go on: every productive step uses up potential, and
    only helper threads and the network can put a bounded amount back. */
module Termination {
  import opened Wire
  import opened Bargain
  import opened Pairing
  import opened PairingInv
  import opened PairingSteps
  import opened PairingTheorems
  import C = ClientTcp
  import S = Session

  const SEND_COST := 40
  const CHANNEL_COST := 20
  const QUEUE_COST := 16

  /** Steps of the run loop still ahead of the loop head. */
  function Rank(s: S.Session): nat {
    match s.pc
    case SetRead(_) => 13
    case SetWrite(_, _) => 12
    case Spawn(_) => 11
    case Live(_) => 10
    case Work(_) => 9
    case SendRead(_) => 8
    case SendWrite(_) => 7
    case SendSet(_) => 6
    case Final(_) => 5
    case Pop => if s.state == S.SESSION_END then 4 else 1
    case Head => if s.state == S.SESSION_END then 3 else if s.queue != [] then 2 else 1
    case Exited => 0
  }

  function Potential(cfg: Config, y: System): int {
    (if y.client.phase == C.Idle then SEND_COST else 0)
    + SEND_COST * (cfg.n - |y.offers|) + SEND_COST * (1 - |y.ends|)
    + CHANNEL_COST * |y.toServer| + |y.toClient|
    + if y.session.Some? then QUEUE_COST * |y.session.value.queue| + Rank(y.session.value) else 0
  }

  /** A step of the client, of the demultiplexer, or of a run loop that is not just
      polling its empty queue. */
  predicate Productive(cfg: Config, y: System, a: Action) {
    && Enabled(cfg, y, a)
    && match a
       case Start => true
       case ClientRead => true
       case Deliver => true
       case Server(b) => b == S.Run && !Polling(y.session.value)
       case _ => false
  }

  predicate Polling(s: S.Session) {
    (s.pc == S.Head || s.pc == S.Pop) && s.queue == [] && s.state != S.SESSION_END
  }

  /** A waiter's WAIT, an idle end, or something the network adds. */
  predicate Disturbing(cfg: Config, y: System, a: Action) {
    && Enabled(cfg, y, a)
    && match a
       case Server(b) => b == S.WriteWait || b == S.IdleEnd
       case Repeat(_) => true
       case ForeignToServer(_) => true
       case ForeignToClient(_) => true
       case _ => false
  }

  lemma RunUsesPotential(cfg: Config, s: S.Session)
    requires s.pc != S.Exited
    ensures var (s', out) := S.RunStep(cfg.Server(), s);
            && |out| <= 1 && (out != [] ==> out[0].mtype == NEGO_MSG || out[0].mtype == NEGO_END_MSG)
            && QUEUE_COST * |s'.queue| + Rank(s')
               <= QUEUE_COST * |s.queue| + Rank(s) - if Polling(s) then 0 else 1
  {
    hide ParseObjective, ParseOption, S.Same, S.Reply, S.VerdictIn;
  }

  lemma ClientWritesOnce(cfg: Config, c: C.Client, p: Pdu)
    requires c.phase == C.Reading
    ensures var (c', out) := C.Receive(cfg.Client(), c, p);
            c'.phase != C.Idle && |out| <= 1 && (out != [] ==> out[0].mtype == NEGO_MSG || out[0].mtype == NEGO_END_MSG)
  {
    hide ParseObjective, ParseOption, ObjectiveData, BareData;
  }

  lemma ReadUsesPotential(cfg: Config, y: System)
    requires Enabled(cfg, y, ClientRead)
    ensures Potential(cfg, Next(cfg, y, ClientRead)) < Potential(cfg, y)
  {
    hide ParseObjective, ParseOption, C.Receive, Rank;
    ClientWritesOnce(cfg, y.client, y.toClient[0]);
  }

  lemma DeliverUsesPotential(cfg: Config, y: System)
    requires Enabled(cfg, y, Deliver)
    ensures Potential(cfg, Next(cfg, y, Deliver)) < Potential(cfg, y)
  {
  }

  lemma ServerUsesPotential(cfg: Config, y: System, b: S.Action)
    requires Enabled(cfg, y, Server(b))
    ensures Potential(cfg, Next(cfg, y, Server(b)))
            <= Potential(cfg, y)
               - (if Productive(cfg, y, Server(b)) then 1 else 0)
               + (if Disturbing(cfg, y, Server(b)) then CHANNEL_COST else 0)
  {
    hide ParseObjective, ParseOption, WaitData, S.RunStep, Rank, Polling;
    var s := y.session.value;
    if b == S.Run {
      RunUsesPotential(cfg, s);
    } else {
      HelperRank(cfg, s, b);
    }
  }

  lemma HelperRank(cfg: Config, s: S.Session, b: S.Action)
    requires S.Enabled(s, b) && b != S.Run && !b.Push?
    ensures Rank(S.Next(cfg.Server(), s, b).0) <= Rank(s) + if b == S.IdleEnd then 3 else 0
  {
    hide ParseObjective, ParseOption, WaitData, S.RunStep;
  }

  lemma StepUsesPotential(cfg: Config, y: System, a: Action)
    requires y.client.phase == C.Idle ==> cfg.n >= 1
    ensures Potential(cfg, Step(cfg, y, a))
            <= Potential(cfg, y)
               - (if Productive(cfg, y, a) then 1 else 0)
               + (if Disturbing(cfg, y, a) then CHANNEL_COST else 0)
  {
    hide ParseObjective, ParseOption, ObjectiveData, Rank, Polling, S.Next, C.Receive, Distribute;
    if Enabled(cfg, y, a) {
      match a
      case Start =>
      case ClientRead => ReadUsesPotential(cfg, y);
      case Deliver => DeliverUsesPotential(cfg, y);
      case Server(b) => ServerUsesPotential(cfg, y, b);
      case _ =>
    }
  }

  function Count(cfg: Config, y: System, acts: seq<Action>, kind: (Config, System, Action) -> bool): nat
    decreases |acts|
  {
    if acts == [] then 0
    else (if kind(cfg, y, acts[0]) then 1 else 0) + Count(cfg, Step(cfg, y, acts[0]), acts[1..], kind)
  }

  lemma {:induction false} ExecUsesPotential(cfg: Config, y: System, pos: Position, acts: seq<Action>)
    requires cfg.Valid() && Inv(cfg, y, pos)
    ensures 0 <= Potential(cfg, Exec(cfg, y, acts))
    ensures Count(cfg, y, acts, Productive) + Potential(cfg, Exec(cfg, y, acts))
            <= Potential(cfg, y) + CHANNEL_COST * Count(cfg, y, acts, Disturbing)
    decreases |acts|
  {
    hide Inv, Step, Potential, Productive, Disturbing;
    if acts == [] {
      PotentialIsNonnegative(cfg, y, pos);
    } else {
      StepUsesPotential(cfg, y, acts[0]);
      var mid := StepKeepsInv(cfg, y, pos, acts[0]);
      ExecUsesPotential(cfg, Step(cfg, y, acts[0]), mid, acts[1..]);
    }
  }

  lemma PotentialIsNonnegative(cfg: Config, y: System, pos: Position)
    requires cfg.Valid() && Inv(cfg, y, pos)
    ensures Potential(cfg, y) >= 0
  {
    hide ParseObjective, ParseOption, S.Same, S.Reply, S.Fresh, Play, IsOffer, Tells, Own, Telling, Rank;
  }

  /** Termination.  A run with opening count n takes at most 40 * n + 80 productive
      steps, and 20 more for every WAIT, idle end, repetition or foreign PDU; and it
      can take one more exactly until it is complete. */
  lemma ProductiveStepsAreBounded(cfg: Config, y0: System, acts: seq<Action>)
    requires cfg.Valid() && Initial(cfg, y0)
    ensures Count(cfg, y0, acts, Productive) <= 40 * cfg.n + 80 + 20 * Count(cfg, y0, acts, Disturbing)
    ensures var y := Exec(cfg, y0, acts);
            Complete(y) <==> !exists a :: Productive(cfg, y, a)
  {
    hide Inv, Exec, Count;
    InitialFits(cfg, y0);
    ExecUsesPotential(cfg, y0, Unopened, acts);
    CompleteIsUnproductive(cfg, Exec(cfg, y0, acts));
  }

  lemma CompleteIsUnproductive(cfg: Config, y: System)
    ensures Complete(y) <==> !exists a :: Productive(cfg, y, a)
  {
    if !Complete(y) {
      assert Productive(cfg, y, Start) || Productive(cfg, y, ClientRead) || Productive(cfg, y, Deliver)
             || Productive(cfg, y, Server(S.Run));
    }
  }

  // ---------- every run can be completed ----------

  lemma {:induction false} ExecOfAppend(cfg: Config, y: System, xs: seq<Action>, ys: seq<Action>)
    ensures Exec(cfg, y, xs + ys) == Exec(cfg, Exec(cfg, y, xs), ys)
    decreases |xs|
  {
    hide Step;
    if xs == [] {
      assert xs + ys == ys;
    } else {
      assert (xs + ys)[1..] == xs[1..] + ys;
      ExecOfAppend(cfg, Step(cfg, y, xs[0]), xs[1..], ys);
    }
  }

  lemma ProductiveUsesPotential(cfg: Config, y: System, a: Action)
    requires cfg.Valid() && Productive(cfg, y, a)
    ensures Potential(cfg, Step(cfg, y, a)) < Potential(cfg, y) && a != Server(S.IdleEnd)
  {
    hide Potential, Step, Polling;
    StepUsesPotential(cfg, y, a);
  }

  /** From every reachable state, productive steps alone lead to a complete one. */
  lemma {:induction false} Completion(cfg: Config, y: System, pos: Position) returns (more: seq<Action>)
    requires cfg.Valid() && Inv(cfg, y, pos)
    ensures NoIdleEnd(more) && Complete(Exec(cfg, y, more))
    ensures |more| <= Potential(cfg, y)
    decreases if Potential(cfg, y) < 0 then 0 else Potential(cfg, y)
  {
    hide Inv, Step, Potential, Productive, Complete;
    PotentialIsNonnegative(cfg, y, pos);
    CompleteIsUnproductive(cfg, y);
    more := [];
    if !Complete(y) {
      var a :| Productive(cfg, y, a);
      ProductiveUsesPotential(cfg, y, a);
      var mid := StepKeepsInv(cfg, y, pos, a);
      PotentialIsNonnegative(cfg, Step(cfg, y, a), mid);
      var rest := Completion(cfg, Step(cfg, y, a), mid);
      more := [a] + rest;
      assert more[1..] == rest;
    }
  }

  /** Liveness.  Whatever has been executed, idle ends included, some continuation without
      an idle end has nothing left to do, and it is no longer than the bound above.  If
      there has been no idle end either, both sides have then concluded the game,
      exactly when the filter swallows no message. */
  lemma EveryRunCanBeCompleted(cfg: Config, y0: System, acts: seq<Action>) returns (more: seq<Action>)
    requires cfg.Valid() && Initial(cfg, y0)
    ensures NoIdleEnd(more) && Complete(Exec(cfg, y0, acts + more))
    ensures |more| <= 40 * cfg.n + 80 + 20 * Count(cfg, y0, acts, Disturbing)
    ensures NoIdleEnd(acts) ==>
              (Concluded(cfg, Exec(cfg, y0, acts + more))
               <==> OpeningIsNew(cfg, y0.client) && (cfg.filter == S.WholeContent || !LongGame(cfg)))
  {
    hide Inv, Exec, Count, Complete, Concluded, OpeningIsNew, LongGame;
    InitialFits(cfg, y0);
    var pos := Reached(cfg, y0, acts);
    more := Completion(cfg, Exec(cfg, y0, acts), pos);
    ExecUsesPotential(cfg, y0, Unopened, acts);
    InitialPotential(cfg, y0);
    ExecOfAppend(cfg, y0, acts, more);
    if NoIdleEnd(acts) {
      assert NoIdleEnd(acts + more);
      CompleteRunsPlayTheGame(cfg, y0, acts + more);
    }
  }

  lemma InitialPotential(cfg: Config, y0: System)
    requires cfg.Valid() && Initial(cfg, y0)
    ensures Potential(cfg, y0) == 40 * cfg.n + 80
  {
  }
}
