/** The server of a paired execution is the machine of module Session: what is proved there
    of every interleaving of its threads holds in every paired execution. */
module PairedServer {
  import opened Wire
  import opened Bargain
  import opened Pairing
  import opened PairingInv
  import opened PairingSteps
  import opened PairingTheorems
  import S = Session

  /** What an action of the paired system is to its session. */
  function Felt(cfg: Config, y: System, a: Action): seq<S.Action> {
    if !Enabled(cfg, y, a) || y.session.None? then []
    else match a
         case Server(b) => [b]
         case Deliver =>
           var p := y.toServer[0];
           if p.sid == cfg.sid && Alive(y.session) && p.mtype != REQUEST_MSG then [S.Push(S.Content(p.mtype, p.data))]
           else []
         case _ => []
  }

  function FeltIn(cfg: Config, y: System, acts: seq<Action>): seq<S.Action>
    decreases |acts|
  {
    if acts == [] then [] else Felt(cfg, y, acts[0]) + FeltIn(cfg, Step(cfg, y, acts[0]), acts[1..])
  }

  /** What the session's threads write. */
  function Wrote(cfg: Config, y: System, a: Action): seq<Content> {
    if !Enabled(cfg, y, a) || !a.Server? then [] else S.Next(cfg.Server(), y.session.value, a.a).1
  }

  function WrittenIn(cfg: Config, y: System, acts: seq<Action>): seq<Content>
    decreases |acts|
  {
    if acts == [] then [] else Wrote(cfg, y, acts[0]) + WrittenIn(cfg, Step(cfg, y, acts[0]), acts[1..])
  }

  lemma StepOfSession(cfg: Config, y: System, a: Action, log: seq<Content>)
    requires y.session.Some? && forall c | c in Own(cfg.sid, y.toServer) :: c.mtype != REQUEST_MSG
    ensures var y' := Step(cfg, y, a);
            && y'.session.Some?
            && S.Exec(cfg.Server(), S.Trail(y.session.value, log), Felt(cfg, y, a))
               == S.Trail(y'.session.value, log + Wrote(cfg, y, a))
    ensures Wrote(cfg, y, a) != [] ==>
              Step(cfg, y, a).toClient == y.toClient + Framed(cfg.sid, Wrote(cfg, y, a))
  {
    hide ParseObjective, ParseOption, S.RunStep, S.Exec, WaitData, Own;
    var t := S.Trail(y.session.value, log);
    assert log + [] == log;
    S.ExecOfNone(cfg.Server(), t);
    if Felt(cfg, y, a) != [] { S.ExecOfOne(cfg.Server(), t, Felt(cfg, y, a)[0]); }
    if a == Deliver && Enabled(cfg, y, a) { HeadIsOwn(cfg, y); }
  }

  lemma HeadIsOwn(cfg: Config, y: System)
    requires y.toServer != []
    ensures var p := y.toServer[0]; p.sid == cfg.sid ==> S.Content(p.mtype, p.data) in Own(cfg.sid, y.toServer)
  {
  }

  lemma {:induction false} ExecOfAppend(cfg: S.SessionCfg, t: S.Trail, xs: seq<S.Action>, ys: seq<S.Action>)
    ensures S.Exec(cfg, t, xs + ys) == S.Exec(cfg, S.Exec(cfg, t, xs), ys)
    decreases |xs|
  {
    hide S.Step;
    if xs == [] {
      assert xs + ys == ys;
    } else {
      assert (xs + ys)[1..] == xs[1..] + ys;
      ExecOfAppend(cfg, S.Step(cfg, t, xs[0]), xs[1..], ys);
    }
  }

  /** Projection.  From any reachable state with a session on, the session goes through an
      execution of its own machine, with a push for every message that the demultiplexer
      hands it, and writes what that execution writes. */
  lemma {:induction false} PairedServerIsSession(
    cfg: Config, y: System, pos: Position, acts: seq<Action>, log: seq<Content>)
    requires cfg.Valid() && Inv(cfg, y, pos) && y.session.Some?
    ensures var y' := Exec(cfg, y, acts);
            && y'.session.Some?
            && S.Exec(cfg.Server(), S.Trail(y.session.value, log), FeltIn(cfg, y, acts))
               == S.Trail(y'.session.value, log + WrittenIn(cfg, y, acts))
    decreases |acts|
  {
    hide Inv, Step, Felt, Wrote, S.Exec;
    var t := S.Trail(y.session.value, log);
    if acts == [] {
      S.ExecOfNone(cfg.Server(), t);
      assert log + [] == log;
    } else {
      var a, rest := acts[0], acts[1..];
      var y' := Step(cfg, y, a);
      OwnIsOrderly(cfg, y, pos);
      StepOfSession(cfg, y, a, log);
      var mid := StepKeepsInv(cfg, y, pos, a);
      PairedServerIsSession(cfg, y', mid, rest, log + Wrote(cfg, y, a));
      ExecOfAppend(cfg.Server(), t, Felt(cfg, y, a), FeltIn(cfg, y', rest));
      assert (log + Wrote(cfg, y, a)) + WrittenIn(cfg, y', rest) == log + (Wrote(cfg, y, a) + WrittenIn(cfg, y', rest));
    }
  }

  lemma OwnIsOrderly(cfg: Config, y: System, pos: Position)
    requires cfg.Valid() && Inv(cfg, y, pos) && y.session.Some?
    ensures forall c | c in Own(cfg.sid, y.toServer) :: c.mtype != REQUEST_MSG
  {
    hide Own, Telling, OnCourse, ClientFits, ServerFits, CountsFall;
  }

  /** While the ASA works, WAITs reach the client's channel, any number of them, each of
      them in two steps of one waiter. */
  lemma {:induction false} WaitsReachTheClient(cfg: Config, y: System, n: nat) returns (acts: seq<Action>)
    requires y.session.Some? && y.session.value.waiters > 0 && y.session.value.state == S.PROCESSING
    ensures |acts| == 2 * n && forall a | a in acts :: a == Server(S.Arm) || a == Server(S.WriteWait)
    ensures var y' := Exec(cfg, y, acts);
            && y' == y.(toClient := y'.toClient)
            && |y'.toClient| == |y.toClient| + n && y.toClient <= y'.toClient
            && forall i | |y.toClient| <= i < |y'.toClient| :: y'.toClient[i] == Pdu(WAIT_MSG, cfg.sid, WaitData())
    decreases n
  {
    hide WaitData, Exec;
    if n == 0 {
      acts := [];
      NoSteps(cfg, y);
    } else {
      var y2 := Step(cfg, Step(cfg, y, Server(S.Arm)), Server(S.WriteWait));
      OneWait(cfg, y);
      var rest := WaitsReachTheClient(cfg, y2, n - 1);
      acts := [Server(S.Arm), Server(S.WriteWait)] + rest;
      TwoSteps(cfg, y, Server(S.Arm), Server(S.WriteWait), rest);
    }
  }

  lemma OneWait(cfg: Config, y: System)
    requires y.session.Some? && y.session.value.waiters > 0 && y.session.value.state == S.PROCESSING
    ensures Step(cfg, Step(cfg, y, Server(S.Arm)), Server(S.WriteWait))
            == y.(toClient := y.toClient + [Pdu(WAIT_MSG, cfg.sid, WaitData())])
  {
    hide WaitData, ParseObjective;
    assert y.toClient + [] == y.toClient;
  }

  lemma NoSteps(cfg: Config, y: System)
    ensures Exec(cfg, y, []) == y
  {
  }

  lemma TwoSteps(cfg: Config, y: System, a: Action, b: Action, rest: seq<Action>)
    ensures Exec(cfg, y, [a, b] + rest) == Exec(cfg, Step(cfg, Step(cfg, y, a), b), rest)
  {
    hide Step;
    assert ([a, b] + rest)[1..] == [b] + rest && ([b] + rest)[1..] == rest;
    assert Exec(cfg, y, [a, b] + rest) == Exec(cfg, Step(cfg, y, a), [b] + rest);
  }
}
