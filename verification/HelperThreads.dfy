/** What the helper threads of a session do, besides doing no harm: an end thread ends the
    session, a waiter goes on writing WAITs while the ASA works and goes when it does not. */
module HelperThreads {
  import opened Wire
  import opened Bargain
  import opened Session

  function Runs(n: nat): seq<Action> {
    if n == 0 then [] else [Run] + Runs(n - 1)
  }

  lemma ExecOfCons(cfg: SessionCfg, t: Trail, a: Action, acts: seq<Action>)
    ensures Exec(cfg, t, [a] + acts) == Exec(cfg, Step(cfg, t, a), acts)
  {
    hide Step;
    assert ([a] + acts)[1..] == acts;
  }

  lemma ExecOfTwo(cfg: SessionCfg, t: Trail, a: Action, b: Action)
    ensures Exec(cfg, t, [a, b]) == Step(cfg, Step(cfg, t, a), b)
  {
    hide Step;
    assert [a, b][1..] == [b];
    ExecOfOne(cfg, Step(cfg, t, a), b);
  }

  lemma ExecOfThree(cfg: SessionCfg, t: Trail, a: Action, b: Action, c: Action)
    ensures Exec(cfg, t, [a, b, c]) == Step(cfg, Step(cfg, Step(cfg, t, a), b), c)
  {
    hide Step;
    assert [a, b, c][1..] == [b, c];
    ExecOfTwo(cfg, Step(cfg, t, a), b, c);
  }

  // ---------- the end thread ----------

  /** The run loop is about to write the state without looking at it again. */
  predicate Overwrites(cfg: SessionCfg, s: Session) {
    || (s.pc.SetWrite? && s.pc.to != SESSION_END)
    || s.pc.Work?
    || ((s.pc.SendWrite? || s.pc.SendSet?) && Reply(cfg.asa, s.pc.c).mtype == NEGO_MSG)
  }

  /** Run steps to the exit of a loop that sees SESSION_END wherever it looks. */
  function ToExit(s: Session): nat {
    match s.pc
    case Exited => 0
    case Head => 1
    case SetRead(_) => 2
    case Live(_) => 2
    case Final(_) => 2
    case Pop => 3
    case Spawn(_) => 3
    case SendRead(_) => 3
    case SendSet(_) => 3
    case SetWrite(_, _) => 4
    case SendWrite(_) => 4
    case Work(_) => 4
  }

  /** What the loop still writes: a NEGO_END that had passed the state test of `send`. */
  function PastTest(cfg: SessionCfg, s: Session): seq<Content> {
    if s.pc.SendWrite? then [Reply(cfg.asa, s.pc.c)] else []
  }

  lemma OverStep(cfg: SessionCfg, t: Trail)
    requires t.s.state == SESSION_END && !Overwrites(cfg, t.s) && t.s.pc != Exited
    ensures var u := Step(cfg, t, Run);
            && u.s.state == SESSION_END && !Overwrites(cfg, u.s) && ToExit(u.s) < ToExit(t.s)
            && u.log + PastTest(cfg, u.s) == t.log + PastTest(cfg, t.s)
  {
    hide Reply, Same, VerdictIn;
  }

  lemma NothingLeft(cfg: SessionCfg, t: Trail)
    requires t.s.pc == Exited
    ensures Exec(cfg, t, Runs(0)) == t && t.log == t.log + PastTest(cfg, t.s)
  {
    assert t.log + [] == t.log;
  }

  lemma AtMostFour(s: Session)
    ensures ToExit(s) <= 4
  {
  }

  lemma {:induction false} OverExits(cfg: SessionCfg, t: Trail) returns (n: nat)
    requires t.s.state == SESSION_END && !Overwrites(cfg, t.s)
    ensures n <= 4 && n <= ToExit(t.s)
    ensures var u := Exec(cfg, t, Runs(n)); u.s.pc == Exited && u.log == t.log + PastTest(cfg, t.s)
    decreases ToExit(t.s)
  {
    hide Overwrites, Step, Exec, PastTest, ToExit;
    if t.s.pc == Exited {
      n := 0;
      NothingLeft(cfg, t);
    } else {
      OverStep(cfg, t);
      n := OverExits(cfg, Step(cfg, t, Run));
      ExecOfCons(cfg, t, Run, Runs(n));
      n := n + 1;
      AtMostFour(t.s);
    }
  }

  /** An idle end ends the session, wherever the run loop stands that does not overwrite
      the state it writes: within four steps of its own the loop has exited, and it has
      written nothing but a NEGO_END that had already passed the state test of `send`. */
  lemma IdleEndEndsSession(cfg: SessionCfg, t: Trail) returns (n: nat)
    requires t.s.enders > 0 && !Overwrites(cfg, t.s)
    ensures n <= 4
    ensures var u := Exec(cfg, t, [IdleEnd] + Runs(n)); u.s.pc == Exited && u.log == t.log + PastTest(cfg, t.s)
  {
    hide Exec, Overwrites;
    var u := Step(cfg, t, IdleEnd);
    assert Overwrites(cfg, u.s) == Overwrites(cfg, t.s) by { OverwritesByPc(cfg, t.s, u.s); }
    assert u.log == t.log + [] == t.log;
    n := OverExits(cfg, u);
    ExecOfCons(cfg, t, IdleEnd, Runs(n));
  }

  lemma OverwritesByPc(cfg: SessionCfg, s: Session, s': Session)
    requires s.pc == s'.pc
    ensures Overwrites(cfg, s) == Overwrites(cfg, s')
  {
    hide Reply;
  }

  /** In particular a session whose client has gone quiet, with nothing queued and the loop
      polling, is over after the idle end and one or two steps, with nothing written. */
  lemma QuietSessionEnds(cfg: SessionCfg, t: Trail)
    requires t.s.enders > 0 && t.s.queue == [] && (t.s.pc == Head || t.s.pc == Pop)
    ensures var acts := [IdleEnd] + Runs(if t.s.pc == Head then 1 else 2);
            Exec(cfg, t, acts) == Trail(t.s.(pc := Exited, state := SESSION_END, enders := t.s.enders - 1), t.log)
  {
    hide Exec, Reply;
    assert t.log + [] == t.log;
    if t.s.pc == Head {
      assert [IdleEnd] + Runs(1) == [IdleEnd, Run];
      ExecOfTwo(cfg, t, IdleEnd, Run);
    } else {
      assert [IdleEnd] + Runs(2) == [IdleEnd, Run, Run];
      ExecOfThree(cfg, t, IdleEnd, Run, Run);
    }
  }

  /** Everywhere else the idle end is lost: two steps of the loop later the session is
      where it would be without it, the end thread being gone. */
  lemma IdleEndIsLost(cfg: SessionCfg, t: Trail)
    requires t.s.enders > 0 && Overwrites(cfg, t.s)
    ensures var u, v := Exec(cfg, t, [Run, Run]), Exec(cfg, t, [IdleEnd, Run, Run]);
            && u.s.state != SESSION_END
            && v == Trail(u.s.(enders := v.s.enders), u.log) && v.s.enders + 1 == u.s.enders
  {
    hide Exec, Reply, VerdictIn;
    ExecOfTwo(cfg, t, Run, Run);
    ExecOfThree(cfg, t, IdleEnd, Run, Run);
    assert t.log + [] == t.log;
  }

  // ---------- the waiters ----------

  function Waits(n: nat): seq<Content> {
    if n == 0 then [] else Waits(n - 1) + [Content(WAIT_MSG, WaitData())]
  }

  function Beats(n: nat): seq<Action> {
    if n == 0 then [] else Beats(n - 1) + [Arm, WriteWait]
  }

  /** While the ASA works, one waiter can write any number of WAITs, and is still there. */
  lemma {:induction false} WaiterGoesOn(cfg: SessionCfg, t: Trail, n: nat)
    requires t.s.waiters > 0 && t.s.state == PROCESSING
    ensures Exec(cfg, t, Beats(n)) == Trail(t.s, t.log + Waits(n))
  {
    hide Exec, WaitData;
    if n == 0 {
      ExecOfNone(cfg, t);
      assert t.log + [] == t.log;
    } else {
      WaiterGoesOn(cfg, t, n - 1);
      var acts, u := Then(cfg, t, Beats(n - 1), Arm);
      acts, u := Then(cfg, t, acts, WriteWait);
      assert acts == Beats(n - 1) + [Arm, WriteWait];
      assert (t.log + Waits(n - 1)) + [] == t.log + Waits(n - 1);
      assert (t.log + Waits(n - 1)) + [Content(WAIT_MSG, WaitData())] == t.log + Waits(n);
    }
  }

  /** Someone is there to write WAITs. */
  predicate Attended(s: Session) {
    (s.pc.Live? || s.pc.Work?) && s.state == PROCESSING ==> s.waiters + s.armed > 0
  }

  lemma {:induction false} ExecKeepsAttended(cfg: SessionCfg, t: Trail, acts: seq<Action>)
    requires Attended(t.s)
    ensures Attended(Exec(cfg, t, acts).s)
    decreases |acts|
  {
    hide Step, Attended;
    if acts != [] {
      StepKeepsAttended(cfg, t, acts[0]);
      ExecKeepsAttended(cfg, Step(cfg, t, acts[0]), acts[1..]);
    }
  }

  lemma StepKeepsAttended(cfg: SessionCfg, t: Trail, a: Action)
    requires Attended(t.s)
    ensures Attended(Step(cfg, t, a).s)
  {
    hide Reply, Same, VerdictIn, WaitData;
  }

  /** In every interleaving, while the ASA works in PROCESSING a waiter is there that can
      write a WAIT: the message's own is not lost to what became of earlier ones. */
  lemma AsaIsAttended(cfg: SessionCfg, opening: Content, uninit: Content, acts: seq<Action>)
    ensures var s := Exec(cfg, Trail(Opened(opening, uninit), []), acts).s;
            s.pc.Work? && s.state == PROCESSING ==> Enabled(s, Arm) || Enabled(s, WriteWait)
  {
    ExecKeepsAttended(cfg, Trail(Opened(opening, uninit), []), acts);
  }

  function Many(a: Action, n: nat): seq<Action> {
    if n == 0 then [] else [a] + Many(a, n - 1)
  }

  lemma {:induction false} WaitersGo(cfg: SessionCfg, t: Trail)
    requires t.s.state != PROCESSING
    ensures Exec(cfg, t, Many(QuitWaiter, t.s.waiters)) == Trail(t.s.(waiters := 0), t.log)
    decreases t.s.waiters
  {
    if t.s.waiters > 0 {
      assert t.log + [] == t.log;
      ExecOfCons(cfg, t, QuitWaiter, Many(QuitWaiter, t.s.waiters - 1));
      WaitersGo(cfg, Step(cfg, t, QuitWaiter));
    }
  }

  lemma {:induction false} EndersGo(cfg: SessionCfg, t: Trail)
    ensures Exec(cfg, t, Many(QuitEnder, t.s.enders)) == Trail(t.s.(enders := 0), t.log)
    decreases t.s.enders
  {
    if t.s.enders > 0 {
      assert t.log + [] == t.log;
      ExecOfCons(cfg, t, QuitEnder, Many(QuitEnder, t.s.enders - 1));
      EndersGo(cfg, Step(cfg, t, QuitEnder));
    }
  }

  // ---------- the demultiplexer ----------

  /** An offer that is pushed while the loop rests is taken to the ASA, with a waiter. */
  lemma PushedOfferIsServed(cfg: SessionCfg, t: Trail, c: Content) returns (acts: seq<Action>)
    requires t.s.pc == Head && t.s.state == IDLE && t.s.queue == []
    requires CarriesObjective(c.mtype) && !Same(cfg.filter, c, t.s.last)
    ensures Exec(cfg, t, [Push(c)] + acts)
            == Trail(t.s.(pc := Work(c), state := PROCESSING, last := c, waiters := t.s.waiters + 1), t.log)
  {
    hide Exec, Same;
    var u := Step(cfg, t, Push(c));
    assert u.log == t.log + [] == t.log;
    var v: Trail;
    acts, v := ServeUpToSend(cfg, u, c);
    ExecOfCons(cfg, t, Push(c), acts);
  }
}
