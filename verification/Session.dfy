/** A server session: ServerSession.cpp.

    The session's run loop shares `cur_state` with any number of waiter and end
    threads.  `Next` is one atomic access of one thread; every access to the shared
    state in `run`, `set_state`, `send` and the two thread handlers is a step of its
    own, so an execution is any sequence of steps. */
module Session {
  import opened Wire
  import opened Bargain

  datatype ServerState = IDLE | PROCESSING | SESSION_END

  /** `struct content`. */
  datatype Content = Content(mtype: MsgType, data: Buffer)

  /** How `operator ==` compares data: the whole buffer, or what strcmp sees of it. */
  datatype Filter = WholeContent | CStringContent

  predicate Same(f: Filter, a: Content, b: Content) {
    a.mtype == b.mtype &&
    match f
    case WholeContent => a.data == b.data
    case CStringContent => CString(a.data) == CString(b.data)
  }

  /** What is left of a queue once consecutive repetitions are dropped. */
  function Fresh(f: Filter, last: Content, xs: seq<Content>): seq<Content>
    decreases |xs|
  {
    if xs == [] then []
    else if Same(f, xs[0], last) then Fresh(f, last, xs[1..])
    else [xs[0]] + Fresh(f, xs[0], xs[1..])
  }

  /** The content that the next one will be compared with. */
  function FinalLast(f: Filter, last: Content, xs: seq<Content>): Content {
    var kept := Fresh(f, last, xs);
    if kept == [] then last else kept[|kept| - 1]
  }

  lemma {:induction false} FreshOfAppend(f: Filter, last: Content, xs: seq<Content>, x: Content)
    ensures Fresh(f, last, xs + [x])
            == Fresh(f, last, xs) + if Same(f, x, FinalLast(f, last, xs)) then [] else [x]
    decreases |xs|
  {
    hide Same;
    if xs == [] {
      assert xs + [x] == [x];
    } else {
      assert (xs + [x])[1..] == xs[1..] + [x];
      FreshOfAppend(f, if Same(f, xs[0], last) then last else xs[0], xs[1..], x);
    }
  }

  /** Repeating an entry in place is invisible behind the filter. */
  lemma {:induction false} FreshOfRepeat(f: Filter, last: Content, xs: seq<Content>, i: nat)
    requires i < |xs|
    ensures Fresh(f, last, xs[..i + 1] + xs[i..]) == Fresh(f, last, xs)
    decreases i
  {
    hide Same;
    var ys := xs[..i + 1] + xs[i..];
    assert Same(f, xs[i], xs[i]) by { SameIsReflexive(f, xs[i]); }
    if i == 0 {
      assert ys[1..] == xs;
      if Same(f, xs[0], last) {
      } else {
        assert Fresh(f, xs[0], xs) == Fresh(f, xs[0], xs[1..]);
      }
    } else {
      assert ys[1..] == xs[1..][..i] + xs[1..][i - 1..];
      FreshOfRepeat(f, if Same(f, xs[0], last) then last else xs[0], xs[1..], i - 1);
    }
  }

  lemma SameIsReflexive(f: Filter, c: Content)
    ensures Same(f, c, c)
  {
  }

  datatype SessionCfg = SessionCfg(asa: Asa, filter: Filter)

  /** The message the session answers an objective message with. */
  function Reply(asa: Asa, c: Content): (r: Content)
    ensures r.mtype == NEGO_MSG || r.mtype == NEGO_END_MSG
  {
    var o := ParseObjective(c.data);
    var count := (o.loopCount - 1) % 256;
    var upper := asa.result(o.value);
    if o.kind == Synchronization then
      Content(NEGO_END_MSG, ObjectiveData(o.kind, upper, count, o.flag, Zeros(MAX_STRING_LENGTH)))
    else if !asa.geq(upper, o.value) && count != 0 then
      Content(NEGO_MSG, ObjectiveData(o.kind, upper, count, o.flag, Zeros(MAX_STRING_LENGTH)))
    else
      Content(NEGO_END_MSG, BareData(if count == 0 then Decline else Accept))
  }

  /** A count of zero, which the client never sends, wraps: the offer is countered with 255
      as if it had come with 256. */
  lemma ZeroCountWraps(asa: Asa, c: Content)
    requires var o := ParseObjective(c.data);
             o.loopCount == 0 && o.kind != Synchronization && !asa.geq(asa.result(o.value), o.value)
    ensures var o := ParseObjective(c.data);
            && Reply(asa, c).mtype == NEGO_MSG
            && ParseObjective(Reply(asa, c).data) == Objective(o.kind, asa.result(o.value), 255, o.flag)
  {
    hide ParseObjective, ParseOption, ObjectiveData;
  }

  /** What a NEGO_END option tells its reader. */
  function VerdictIn(data: Buffer): Maybe<Verdict> {
    var kind := ParseOption(data).kind;
    if kind == Accept then Some(Accepted) else if kind == Decline then Some(Declined) else None
  }

  predicate CarriesObjective(t: MsgType) {
    t == REQUEST_MSG || t == NEGO_MSG
  }

  /** Where `run` stands:
      Head     about to read cur_state in the loop test
      Pop      about to look into the queue
      SetRead  in set_state, about to read cur_state
      SetWrite in set_state, about to write it
      Spawn    about to test for PROCESSING
      Live     about to test for SESSION_END
      Work     in the ASA, about to write IDLE
      SendRead in send, about to read cur_state
      SendWrite  in send, about to write the PDU
      SendSet  in send, about to write cur_state
      Final    about to write SESSION_END after a NEGO_END */
  datatype Pc =
    | Head | Pop
    | SetRead(c: Content) | SetWrite(c: Content, to: ServerState) | Spawn(c: Content) | Live(c: Content)
    | Work(c: Content) | SendRead(c: Content) | SendWrite(c: Content) | SendSet(c: Content) | Final(c: Content)
    | Exited

  /** `armed` counts the waiters that have passed the state test of send and have
      their WAIT yet to write; `enders` the end threads still counting. */
  datatype Session = Session(
    pc: Pc, state: ServerState, queue: seq<Content>, last: Content,
    waiters: nat, armed: nat, enders: nat, verdict: Maybe<Verdict>)

  datatype Action = Run | Arm | WriteWait | QuitWaiter | IdleEnd | QuitEnder | Push(c: Content)

  predicate Enabled(s: Session, a: Action) {
    match a
    case Run => s.pc != Exited
    case Arm => s.waiters > 0 && s.state == PROCESSING
    case WriteWait => s.armed > 0
    case QuitWaiter => s.waiters > 0 && s.state != PROCESSING
    case IdleEnd => s.enders > 0
    case QuitEnder => s.enders > 0
    case Push(_) => true
  }

  function RunStep(cfg: SessionCfg, s: Session): (Session, seq<Content>) {
    match s.pc
    case Head => (s.(pc := if s.state == SESSION_END then Exited else Pop), [])
    case Pop =>
      if s.queue == [] then (s.(pc := Head), [])
      else
        var c := s.queue[0];
        var s1 := s.(queue := s.queue[1..]);
        if Same(cfg.filter, c, s.last) then (s1.(pc := Head), []) else (s1.(pc := SetRead(c), last := c), [])
    case SetRead(c) =>
      if s.state != IDLE then (s.(pc := Head), [])
      else if CarriesObjective(c.mtype) then (s.(pc := SetWrite(c, PROCESSING)), [])
      else if c.mtype == NEGO_END_MSG then (s.(pc := SetWrite(c, SESSION_END)), [])
      else (s.(pc := Head), [])
    case SetWrite(c, to) => (s.(pc := Spawn(c), state := to), [])
    case Spawn(c) => (s.(pc := Live(c), waiters := if s.state == PROCESSING then s.waiters + 1 else s.waiters), [])
    case Live(c) =>
      if s.state == SESSION_END then
        (s.(pc := Head, verdict := if VerdictIn(c.data).Some? then VerdictIn(c.data) else s.verdict), [])
      else if CarriesObjective(c.mtype) then (s.(pc := Work(c)), [])
      else (s.(pc := Head), [])
    case Work(c) =>
      var r := Reply(cfg.asa, c);
      var v := if r.mtype == NEGO_END_MSG then VerdictIn(r.data) else None;
      (s.(pc := SendRead(c), state := IDLE, verdict := if v.Some? then v else s.verdict), [])
    case SendRead(c) =>
      if s.state == IDLE then (s.(pc := SendWrite(c)), [])
      else (s.(pc := if Reply(cfg.asa, c).mtype == NEGO_MSG then Head else Final(c)), [])
    case SendWrite(c) => (s.(pc := SendSet(c)), [Reply(cfg.asa, c)])
    case SendSet(c) =>
      if Reply(cfg.asa, c).mtype == NEGO_MSG then (s.(pc := Head, state := IDLE, enders := s.enders + 1), [])
      else (s.(pc := Final(c), state := SESSION_END), [])
    case Final(_) => (s.(pc := Head, state := SESSION_END), [])
    case Exited => (s, [])
  }

  function Next(cfg: SessionCfg, s: Session, a: Action): (Session, seq<Content>)
    requires Enabled(s, a)
  {
    match a
    case Run => RunStep(cfg, s)
    case Arm => (s.(waiters := s.waiters - 1, armed := s.armed + 1), [])
    case WriteWait => (s.(waiters := s.waiters + 1, armed := s.armed - 1), [Content(WAIT_MSG, WaitData())])
    case QuitWaiter => (s.(waiters := s.waiters - 1), [])
    case IdleEnd => (s.(enders := s.enders - 1, state := SESSION_END), [])
    case QuitEnder => (s.(enders := s.enders - 1), [])
    case Push(c) => (s.(queue := s.queue + [c]), [])
  }

  /** The constructor: the session starts on its opening message.  `uninit` is what
      the local variable last_content of `run` happens to hold. */
  function Opened(c: Content, uninit: Content): Session {
    Session(Head, IDLE, [c], uninit, 0, 0, 0, None)
  }

  /** A session and everything it has written, oldest first. */
  datatype Trail = Trail(s: Session, log: seq<Content>)

  /** An action that is not enabled does nothing, so any action list is an execution
      and every execution is one. */
  function Step(cfg: SessionCfg, t: Trail, a: Action): Trail {
    if !Enabled(t.s, a) then t
    else
      var (s', out) := Next(cfg, t.s, a);
      Trail(s', t.log + out)
  }

  function Exec(cfg: SessionCfg, t: Trail, acts: seq<Action>): Trail
    decreases |acts|
  {
    if acts == [] then t else Exec(cfg, Step(cfg, t, acts[0]), acts[1..])
  }

  // ---------- safety of every interleaving ----------

  predicate HasEnd(log: seq<Content>) {
    exists i :: 0 <= i < |log| && log[i].mtype == NEGO_END_MSG
  }

  /** At most one NEGO_END, and behind it nothing but WAITs. */
  predicate QuietAfterEnd(log: seq<Content>) {
    forall i, j :: 0 <= i < j < |log| && log[i].mtype == NEGO_END_MSG ==> log[j].mtype == WAIT_MSG
  }

  /** The run loop is past its NEGO_END. */
  predicate Closing(cfg: SessionCfg, s: Session) {
    || (s.pc.SendSet? && Reply(cfg.asa, s.pc.c).mtype == NEGO_END_MSG)
    || s.pc.Final?
    || (s.pc.Head? && s.state == SESSION_END)
    || s.pc.Exited?
  }

  /** The run loop is where the state cannot be PROCESSING. */
  predicate OutsideWork(s: Session) {
    s.pc.Head? || s.pc.Pop? || s.pc.SetRead? || s.pc.SendRead? || s.pc.SendWrite? || s.pc.SendSet?
    || s.pc.Final? || s.pc.Exited?
  }

  predicate SafeState(s: Session) {
    && (OutsideWork(s) ==> s.state != PROCESSING)
    && (s.pc.SetWrite? ==> s.pc.to == if s.pc.c.mtype == NEGO_END_MSG then SESSION_END else PROCESSING)
    && (s.pc.SetWrite? || s.pc.Spawn? || s.pc.Live? ==> CarriesObjective(s.pc.c.mtype) || s.pc.c.mtype == NEGO_END_MSG)
    && (s.pc.Spawn? || s.pc.Live? ==> s.pc.c.mtype == NEGO_END_MSG ==> s.state == SESSION_END)
  }

  predicate Safe(cfg: SessionCfg, t: Trail) {
    && SafeState(t.s)
    && (HasEnd(t.log) ==> Closing(cfg, t.s))
    && QuietAfterEnd(t.log)
  }

  lemma NextKeepsSafeState(cfg: SessionCfg, s: Session, a: Action)
    requires SafeState(s) && Enabled(s, a)
    ensures SafeState(Next(cfg, s, a).0)
  {
    hide ParseObjective, ParseOption, Reply, WaitData;
  }

  lemma StepKeepsSafe(cfg: SessionCfg, t: Trail, a: Action)
    requires Safe(cfg, t)
    ensures Safe(cfg, Step(cfg, t, a))
  {
    hide ParseObjective, ParseOption, Reply, WaitData;
    if Enabled(t.s, a) {
      var (s', out) := Next(cfg, t.s, a);
      if out == [] {
        assert t.log + out == t.log;
      } else {
        assert t.log + out == t.log + [out[0]];
      }
    }
  }

  lemma {:induction false} ExecKeepsSafe(cfg: SessionCfg, t: Trail, acts: seq<Action>)
    requires Safe(cfg, t)
    ensures Safe(cfg, Exec(cfg, t, acts))
    decreases |acts|
  {
    hide Safe, Step;
    if acts != [] {
      StepKeepsSafe(cfg, t, acts[0]);
      ExecKeepsSafe(cfg, Step(cfg, t, acts[0]), acts[1..]);
    }
  }

  /** Whatever the run loop, the waiters, the end threads and the demultiplexer do,
      in whatever order: at the loop head the state is IDLE or SESSION_END, set_state
      never finds PROCESSING, at most one NEGO_END is written, and only WAITs can
      come after it. */
  lemma EveryInterleavingIsSafe(cfg: SessionCfg, opening: Content, uninit: Content, acts: seq<Action>)
    ensures var t := Exec(cfg, Trail(Opened(opening, uninit), []), acts);
            && (t.s.pc.Head? || t.s.pc.SetRead? ==> t.s.state != PROCESSING)
            && QuietAfterEnd(t.log)
            && (HasEnd(t.log) ==> Closing(cfg, t.s))
  {
    ExecKeepsSafe(cfg, Trail(Opened(opening, uninit), []), acts);
  }

  // ---------- the late WAIT ----------

  lemma {:induction false} DisarmedStaysSilent(cfg: SessionCfg, t: Trail, acts: seq<Action>)
    requires Closing(cfg, t.s) && t.s.state != PROCESSING && t.s.armed == 0
    ensures Exec(cfg, t, acts).log == t.log
    decreases |acts|
  {
    hide Reply;
    if acts != [] {
      var u := Step(cfg, t, acts[0]);
      assert u.log == t.log;
      DisarmedStaysSilent(cfg, u, acts[1..]);
    }
  }

  lemma ExecOfOne(cfg: SessionCfg, t: Trail, a: Action)
    ensures Exec(cfg, t, [a]) == Step(cfg, t, a)
  {
    hide Step;
  }

  /** `send` tests the state and writes in two accesses, so a WAIT can still follow
      the NEGO_END.  It can exactly while some waiter is past its test. */
  lemma LateWriteExactly(cfg: SessionCfg, t: Trail)
    requires Safe(cfg, t) && HasEnd(t.log)
    ensures t.s.armed > 0 <==> exists acts :: Exec(cfg, t, acts).log != t.log
  {
    hide Reply, RunStep, WaitData, Exec, QuietAfterEnd;
    if t.s.armed > 0 {
      ExecOfOne(cfg, t, WriteWait);
      assert Exec(cfg, t, [WriteWait]).log == t.log + [Content(WAIT_MSG, WaitData())];
    } else {
      forall acts ensures Exec(cfg, t, acts).log == t.log { DisarmedStaysSilent(cfg, t, acts); }
    }
  }

  /** One more action behind an execution. */
  lemma {:induction false} Then(cfg: SessionCfg, t: Trail, acts: seq<Action>, a: Action)
    returns (acts': seq<Action>, u: Trail)
    ensures acts' == acts + [a]
    ensures u == Exec(cfg, t, acts') == Step(cfg, Exec(cfg, t, acts), a)
    decreases |acts|
  {
    hide Step;
    acts' := acts + [a];
    u := Exec(cfg, t, acts');
    if acts == [] {
      assert Exec(cfg, t, [a]) == Exec(cfg, Step(cfg, t, a), []);
    } else {
      var rest, _ := Then(cfg, Step(cfg, t, acts[0]), acts[1..], a);
      assert acts'[1..] == rest;
    }
  }

  /** From the loop head to the state write in `send`, undisturbed, with a reply that
      is `r`: the first eight accesses of the loop body. */
  lemma ServeUpToSend(cfg: SessionCfg, t: Trail, c: Content) returns (acts: seq<Action>, u: Trail)
    requires t.s.pc == Head && t.s.state == IDLE && t.s.queue != [] && t.s.queue[0] == c
    requires CarriesObjective(c.mtype) && !Same(cfg.filter, c, t.s.last)
    ensures u == Exec(cfg, t, acts)
    ensures u == Trail(t.s.(pc := Work(c), state := PROCESSING, queue := t.s.queue[1..], last := c,
                            waiters := t.s.waiters + 1), t.log)
  {
    hide Reply, Same, Exec;
    acts := [];
    u := t;
    assert u == Exec(cfg, t, acts) by { ExecOfNone(cfg, t); }
    acts, u := Then(cfg, t, acts, Run);
    acts, u := Then(cfg, t, acts, Run);
    assert u.s.pc == SetRead(c);
    acts, u := Then(cfg, t, acts, Run);
    acts, u := Then(cfg, t, acts, Run);
    acts, u := Then(cfg, t, acts, Run);
    assert u.s.pc == Live(c);
    acts, u := Then(cfg, t, acts, Run);
  }

  lemma ExecOfNone(cfg: SessionCfg, t: Trail)
    ensures Exec(cfg, t, []) == t
  {
  }

  /** It does happen, on every session that ends with its first reply. */
  lemma LateWaitHappens(cfg: SessionCfg, c: Content, uninit: Content)
    requires c.mtype == REQUEST_MSG && !Same(cfg.filter, c, uninit)
    requires Reply(cfg.asa, c).mtype == NEGO_END_MSG
    ensures exists acts ::
              Exec(cfg, Trail(Opened(c, uninit), []), acts).log
              == [Reply(cfg.asa, c), Content(WAIT_MSG, WaitData())]
  {
    hide Reply, Same, Exec, WaitData, VerdictIn;
    var t := Trail(Opened(c, uninit), []);
    var acts, u := ServeUpToSend(cfg, t, c);
    acts, u := Then(cfg, t, acts, Arm);
    acts, u := Then(cfg, t, acts, Run);
    acts, u := Then(cfg, t, acts, Run);
    acts, u := Then(cfg, t, acts, Run);
    assert u.log == [Reply(cfg.asa, c)];
    acts, u := Then(cfg, t, acts, WriteWait);
    assert u.log == [Reply(cfg.asa, c), Content(WAIT_MSG, WaitData())];
  }

  // ---------- if send were one access ----------

  /** No thread but the waiter itself touches the state between its test and its
      write: `send` under one lock. */
  predicate SendsAreAtomic(cfg: SessionCfg, t: Trail, acts: seq<Action>)
    decreases |acts|
  {
    acts == [] ||
    ((t.s.armed > 0 ==> acts[0] == WriteWait) && SendsAreAtomic(cfg, Step(cfg, t, acts[0]), acts[1..]))
  }

  predicate Calm(t: Trail) {
    && (t.s.armed > 0 ==> t.s.state == PROCESSING)
    && (HasEnd(t.log) ==> t.s.armed == 0 && t.log[|t.log| - 1].mtype == NEGO_END_MSG)
  }

  lemma AtomicStepKeepsCalm(cfg: SessionCfg, t: Trail, a: Action)
    requires Safe(cfg, t) && Calm(t) && (t.s.armed > 0 ==> a == WriteWait)
    ensures Calm(Step(cfg, t, a))
  {
    hide ParseObjective, ParseOption, Reply, WaitData;
    if Enabled(t.s, a) {
      var (s', out) := Next(cfg, t.s, a);
      if out != [] {
        assert t.log + out == t.log + [out[0]];
      } else {
        assert t.log + out == t.log;
      }
    }
  }

  /** Then WAITs are written in PROCESSING only, and nothing at all follows a
      NEGO_END. */
  lemma {:induction false} AtomicSendsKeepCalm(cfg: SessionCfg, t: Trail, acts: seq<Action>)
    requires Safe(cfg, t) && Calm(t) && SendsAreAtomic(cfg, t, acts)
    ensures Safe(cfg, Exec(cfg, t, acts)) && Calm(Exec(cfg, t, acts))
    decreases |acts|
  {
    hide Safe, Calm, Step;
    if acts != [] {
      StepKeepsSafe(cfg, t, acts[0]);
      AtomicStepKeepsCalm(cfg, t, acts[0]);
      AtomicSendsKeepCalm(cfg, Step(cfg, t, acts[0]), acts[1..]);
    }
  }

  lemma AtomicSessionsEndWithNegoEnd(cfg: SessionCfg, opening: Content, uninit: Content, acts: seq<Action>)
    requires SendsAreAtomic(cfg, Trail(Opened(opening, uninit), []), acts)
    ensures var t := Exec(cfg, Trail(Opened(opening, uninit), []), acts);
            && (Enabled(t.s, WriteWait) ==> t.s.state == PROCESSING)
            && (HasEnd(t.log) ==> t.log[|t.log| - 1].mtype == NEGO_END_MSG && !HasEnd(t.log[..|t.log| - 1]))
  {
    var t0 := Trail(Opened(opening, uninit), []);
    AtomicSendsKeepCalm(cfg, t0, acts);
  }
}
