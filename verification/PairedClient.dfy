/** The client of a paired execution is the client's code: what module Pairing does with it
    read by read is one whole `Exchange` of module ClientTcp, which class TcpClient runs. */
module PairedClient {
  import opened Wire
  import opened Bargain
  import opened Pairing
  import opened PairingTheorems
  import opened PairingInv
  import C = ClientTcp
  import S = Session

  /** What the client reads in an execution, oldest first. */
  function ReadIn(cfg: Config, y: System, acts: seq<Action>): seq<Pdu>
    decreases |acts|
  {
    if acts == [] then []
    else
      (if acts[0] == ClientRead && Enabled(cfg, y, ClientRead) then [y.toClient[0]] else [])
      + ReadIn(cfg, Step(cfg, y, acts[0]), acts[1..])
  }

  /** What one action makes the client write. */
  function Writes(cfg: Config, y: System, a: Action): seq<Pdu> {
    if !Enabled(cfg, y, a) then []
    else match a
         case Start => C.Begin(cfg.Client(), y.client, cfg.v0, cfg.n, cfg.flag).1
         case ClientRead => C.Receive(cfg.Client(), y.client, y.toClient[0]).1
         case _ => []
  }

  function WrittenIn(cfg: Config, y: System, acts: seq<Action>): seq<Pdu>
    decreases |acts|
  {
    if acts == [] then [] else Writes(cfg, y, acts[0]) + WrittenIn(cfg, Step(cfg, y, acts[0]), acts[1..])
  }

  /** Reading on from `c`, with its ending if it comes to one. */
  function Finished(cfg: C.ClientCfg, c: C.Client, stream: seq<Pdu>): C.Ran {
    var r := C.RunReads(cfg, c, stream);
    r.(client := if r.client.phase.Returned? then C.Conclude(cfg, r.client) else r.client)
  }

  lemma FinishedStep(cfg: C.ClientCfg, c: C.Client, p: Pdu, rest: seq<Pdu>)
    requires c.phase == C.Reading
    requires C.Receive(cfg, c, p).0.phase != C.Reading ==> rest == []
    ensures var (c1, out) := C.Receive(cfg, c, p);
            var r := if c1.phase == C.Reading then Finished(cfg, c1, rest) else C.Ran(c1, [], []);
            Finished(cfg, c, [p] + rest) == r.(sent := out + r.sent)
    ensures C.Receive(cfg, c, p).0.phase != C.Idle
  {
    hide ParseObjective, ParseOption, ObjectiveData, BareData, C.RunReads;
    C.RunOfCons(cfg, c, p, rest);
    C.RunOfNone(cfg, C.ReadOne(cfg, c, p).0);
  }

  lemma ClientAlone(cfg: Config, y: System, a: Action)
    requires a != Start && a != ClientRead
    ensures Step(cfg, y, a).client == y.client && Writes(cfg, y, a) == []
  {
  }

  lemma {:induction false} OverIsOver(cfg: Config, y: System, acts: seq<Action>)
    requires y.client.phase.Returned?
    ensures Exec(cfg, y, acts).client == y.client && ReadIn(cfg, y, acts) == [] && WrittenIn(cfg, y, acts) == []
    decreases |acts|
  {
    hide Step, Writes;
    if acts != [] {
      ReturnedStep(cfg, y, acts[0]);
      OverIsOver(cfg, Step(cfg, y, acts[0]), acts[1..]);
    }
  }

  lemma ReturnedStep(cfg: Config, y: System, a: Action)
    requires y.client.phase.Returned?
    ensures Step(cfg, y, a).client == y.client && Writes(cfg, y, a) == [] && !Enabled(cfg, y, ClientRead)
  {
  }

  lemma ReadingStep(cfg: Config, y: System)
    requires Enabled(cfg, y, ClientRead)
    ensures var (c1, out) := C.Receive(cfg.Client(), y.client, y.toClient[0]);
            Step(cfg, y, ClientRead).client == c1 && Writes(cfg, y, ClientRead) == out
  {
    hide C.Receive, ParseObjective;
  }

  /** Read by read is reading the whole stream. */
  lemma {:induction false} ReadsAreOneStream(cfg: Config, y: System, acts: seq<Action>)
    requires y.client.phase == C.Reading
    ensures Finished(cfg.Client(), y.client, ReadIn(cfg, y, acts))
            == C.Ran(Exec(cfg, y, acts).client, WrittenIn(cfg, y, acts), [])
    decreases |acts|
  {
    hide Step, Enabled, Writes, Finished, C.Receive;
    if acts == [] {
      FinishedOfNone(cfg.Client(), y.client);
    } else {
      var a, rest := acts[0], acts[1..];
      var y' := Step(cfg, y, a);
      if a == ClientRead && Enabled(cfg, y, ClientRead) {
        ReadingHasInput(cfg, y);
        ReadingStep(cfg, y);
        if y'.client.phase == C.Reading {
          ReadsAreOneStream(cfg, y', rest);
        } else {
          NeverIdleAgain(cfg, y);
          OverIsOver(cfg, y', rest);
        }
        FinishedStep(cfg.Client(), y.client, y.toClient[0], ReadIn(cfg, y', rest));
      } else {
        StandingStep(cfg, y, a);
        ReadsAreOneStream(cfg, y', rest);
        assert [] + ReadIn(cfg, y', rest) == ReadIn(cfg, y', rest);
        assert [] + WrittenIn(cfg, y', rest) == WrittenIn(cfg, y', rest);
      }
    }
  }

  lemma FinishedOfNone(cfg: C.ClientCfg, c: C.Client)
    requires c.phase == C.Reading
    ensures Finished(cfg, c, []) == C.Ran(c, [], [])
  {
  }

  lemma ReadingHasInput(cfg: Config, y: System)
    requires Enabled(cfg, y, ClientRead)
    ensures y.client.phase == C.Reading && y.toClient != []
  {
  }

  lemma NeverIdleAgain(cfg: Config, y: System)
    requires Enabled(cfg, y, ClientRead)
    ensures C.Receive(cfg.Client(), y.client, y.toClient[0]).0.phase != C.Idle
  {
    hide ParseObjective, ParseOption, ObjectiveData, BareData;
  }

  lemma StandingStep(cfg: Config, y: System, a: Action)
    requires y.client.phase == C.Reading && !(a == ClientRead && Enabled(cfg, y, ClientRead))
    ensures Step(cfg, y, a).client == y.client && Writes(cfg, y, a) == []
  {
    if a != Start && a != ClientRead { ClientAlone(cfg, y, a); }
  }

  /** In every execution that has started, the client's state and everything it has
      written are those of one `Exchange` over exactly the PDUs it has read: the effect
      that class TcpClient's Negotiate is proved to have on that input. */
  lemma {:induction false} ClientRunsItsCode(cfg: Config, y0: System, acts: seq<Action>)
    requires cfg.Valid() && y0.client.phase == C.Idle && y0.client.state == OFF
    requires Exec(cfg, y0, acts).client.phase != C.Idle
    ensures C.Exchange(cfg.Client(), y0.client, cfg.v0, cfg.n, cfg.flag, ReadIn(cfg, y0, acts))
            == C.Ran(Exec(cfg, y0, acts).client, WrittenIn(cfg, y0, acts), [])
    decreases |acts|
  {
    hide Step, Writes, C.Exchange, C.Begin;
    var a, rest := acts[0], acts[1..];
    var y1 := Step(cfg, y0, a);
    if a == Start {
      StartBegins(cfg, y0);
      ReadsAreOneStream(cfg, y1, rest);
      ExchangeIsFinished(cfg, y0, ReadIn(cfg, y1, rest));
      assert [] + ReadIn(cfg, y1, rest) == ReadIn(cfg, y1, rest);
    } else {
      IdleStep(cfg, y0, a);
      ClientRunsItsCode(cfg, y1, rest);
      assert [] + ReadIn(cfg, y1, rest) == ReadIn(cfg, y1, rest);
      assert [] + WrittenIn(cfg, y1, rest) == WrittenIn(cfg, y1, rest);
    }
  }

  lemma StartBegins(cfg: Config, y: System)
    requires cfg.Valid() && y.client.phase == C.Idle && y.client.state == OFF
    ensures var (c, out) := C.Begin(cfg.Client(), y.client, cfg.v0, cfg.n, cfg.flag);
            && Step(cfg, y, Start).client == c && Writes(cfg, y, Start) == out && c.phase == C.Reading
    ensures !Enabled(cfg, y, ClientRead)
  {
    hide ParseObjective, ParseOption, ObjectiveData;
  }

  lemma ExchangeIsFinished(cfg: Config, y: System, stream: seq<Pdu>)
    requires cfg.Valid() && y.client.phase == C.Idle && y.client.state == OFF
    ensures var (c, out) := C.Begin(cfg.Client(), y.client, cfg.v0, cfg.n, cfg.flag);
            var r := Finished(cfg.Client(), c, stream);
            C.Exchange(cfg.Client(), y.client, cfg.v0, cfg.n, cfg.flag, stream) == r.(sent := out + r.sent)
  {
    hide ParseObjective, ParseOption, ObjectiveData, C.RunReads, C.Begin;
    assert y.client.(state := OFF) == y.client;
  }

  lemma IdleStep(cfg: Config, y: System, a: Action)
    requires y.client.phase == C.Idle && a != Start
    ensures Step(cfg, y, a).client == y.client && Writes(cfg, y, a) == [] && !Enabled(cfg, y, ClientRead)
  {
  }

  /** The class, the stream and the game in one.  In a complete execution without an idle
      end, the client's code on the PDUs read returns exactly if the filter did not swallow
      a message, and then with the outcome of the game; else it goes on waiting, with
      nothing reported and nothing configured. */
  lemma CodePlaysTheGame(cfg: Config, y0: System, acts: seq<Action>)
    requires cfg.Valid() && Initial(cfg, y0) && NoIdleEnd(acts) && Complete(Exec(cfg, y0, acts))
    ensures var c := C.Exchange(cfg.Client(), y0.client, cfg.v0, cfg.n, cfg.flag, ReadIn(cfg, y0, acts)).client;
            if OpeningIsNew(cfg, y0.client) && (cfg.filter == S.WholeContent || !LongGame(cfg)) then
              && c.phase == C.Returned(SUCCESS)
              && c.verdict == Announced(Play(cfg.game, ServerSide, cfg.v0, cfg.n).verdict)
            else c.phase == C.Reading && c.verdict == None && c.configured == []
  {
    hide Exec, Complete, OpeningIsNew, LongGame, Concluded, Initial, Inv, C.Exchange, Play;
    var y := Exec(cfg, y0, acts);
    StartIsOff(cfg, y0, y);
    ClientRunsItsCode(cfg, y0, acts);
    CompleteRunsPlayTheGame(cfg, y0, acts);
    if !OpeningIsNew(cfg, y0.client) {
      InitialFits(cfg, y0);
      var pos := SwallowedOpening(cfg, y0, acts);
      LostIsUndecided(cfg, y, pos);
    } else if cfg.filter == S.CStringContent && LongGame(cfg) {
      LongGameExactly(cfg);
      var pos := Reached(cfg, y0, acts);
      SilencedIsUndecided(cfg, y, pos);
    } else {
      ConcludedClient(cfg, y);
    }
  }

  lemma StartIsOff(cfg: Config, y0: System, y: System)
    requires Initial(cfg, y0) && Complete(y)
    ensures y0.client.phase == C.Idle && y0.client.state == OFF && y.client.phase != C.Idle
  {
  }

  lemma LostIsUndecided(cfg: Config, y: System, pos: Position)
    requires cfg.Valid() && Inv(cfg, y, pos) && (pos == Unopened || pos == Lost) && y.client.phase != C.Idle
    ensures Undecided(y.client)
  {
    hide ServerFits, Own, Telling, CountsFall;
  }

  lemma SilencedIsUndecided(cfg: Config, y: System, pos: Position)
    requires cfg.Valid() && Inv(cfg, y, pos) && y.client.phase != C.Idle
    requires cfg.filter == S.CStringContent && Goal(cfg).offers >= 5
    ensures Undecided(y.client)
  {
    hide ParseObjective, ParseOption, S.Same, S.Reply, S.Fresh, Play, IsOffer, Tells, Own, Telling, ServerFits;
  }

  lemma ConcludedClient(cfg: Config, y: System)
    requires cfg.Valid() && Concluded(cfg, y)
    ensures y.client.phase == C.Returned(SUCCESS)
    ensures y.client.verdict == Announced(Play(cfg.game, ServerSide, cfg.v0, cfg.n).verdict)
  {
    hide Play;
  }
}
