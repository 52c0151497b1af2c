/** How long a client can be left without a PDU: the run loop looks into its queue once a
    second, and while the ASA works every waiter sends a WAIT each
    PROCESSING_TIMEOUT_SECOND.

    A second has `rate` ticks, so threads need not wake at the same moment.  Only
    sleeping and the ASA take time; writing, delivery and everything else the threads do
    happen between two ticks, in any order.  No end thread fires. */
module WaitTicks {
  import opened Wire

  const PROCESSING_TIMEOUT_SECOND := 8
  const RESPONSE_TIMEOUT_SECOND := 10

  /** `run`: about to look into the queue, in its `sleep(1)`, or in the ASA, which needs
      `left` more ticks; `waiter` is the thread launched for the message in hand. */
  datatype Loop = Looking | Napping(nap: nat) | Working(left: nat, waiter: nat)

  /** `wait_thread_handler`: before its first state test, in its `sleep(1)`, or over. */
  datatype Waiter = Launched | Asleep(nap: nat, totalSleep: nat) | Gone

  /** `queue` holds for each message how long the ASA takes over it, or None if it is a
      copy that the filter drops; `written` the tick of every PDU written, oldest first;
      `arrived` and `answered` count the messages that are not copies. */
  datatype Clock = Clock(
    now: nat, loop: Loop, queue: seq<Maybe<nat>>, waiters: seq<Waiter>, written: seq<nat>,
    arrived: nat, answered: nat)

  const START := Clock(0, Looking, [], [], [], 0, 0)

  datatype Action = Tick | Arrive(work: Maybe<nat>) | Look | Wake | Answer | WakeWaiter(j: nat)

  predicate HasToWake(w: Waiter) {
    w == Launched || (w.Asleep? && w.nap == 0)
  }

  /** Time passes when nobody has anything to do at this moment. */
  predicate Enabled(k: Clock, a: Action) {
    match a
    case Tick =>
      && (k.loop.Napping? ==> k.loop.nap > 0) && (k.loop.Working? ==> k.loop.left > 0) && !k.loop.Looking?
      && forall j | 0 <= j < |k.waiters| :: !HasToWake(k.waiters[j])
    case Arrive(_) => true
    case Look => k.loop == Looking
    case Wake => k.loop == Napping(0)
    case Answer => k.loop.Working? && k.loop.left == 0
    case WakeWaiter(j) => j < |k.waiters| && HasToWake(k.waiters[j])
  }

  function Slept(w: Waiter): Waiter {
    match w
    case Asleep(nap, total) => Asleep(if nap > 0 then nap - 1 else 0, total)
    case _ => w
  }

  function AllSlept(ws: seq<Waiter>): (r: seq<Waiter>)
    ensures |r| == |ws| && forall j | 0 <= j < |ws| :: r[j] == Slept(ws[j])
  {
    seq(|ws|, j requires 0 <= j < |ws| => Slept(ws[j]))
  }

  function LoopSlept(l: Loop): Loop {
    match l
    case Looking => l
    case Napping(nap) => Napping(if nap > 0 then nap - 1 else 0)
    case Working(left, waiter) => Working(if left > 0 then left - 1 else 0, waiter)
  }

  function Next(rate: nat, k: Clock, a: Action): Clock
    requires Enabled(k, a)
  {
    match a
    case Tick => k.(now := k.now + 1, loop := LoopSlept(k.loop), waiters := AllSlept(k.waiters))
    case Arrive(work) => k.(queue := k.queue + [work], arrived := k.arrived + if work.Some? then 1 else 0)
    case Look =>
      if k.queue == [] then k.(loop := Napping(rate))
      else
        var k1 := k.(queue := k.queue[1..]);
        if k.queue[0].None? then k1
        else k1.(loop := Working(k.queue[0].value, |k.waiters|), waiters := k.waiters + [Launched])
    case Wake => k.(loop := Looking)
    case Answer => k.(loop := Looking, written := k.written + [k.now], answered := k.answered + 1)
    case WakeWaiter(j) =>
      if !k.loop.Working? then k.(waiters := k.waiters[j := Gone])
      else if k.waiters[j] == Launched then k.(waiters := k.waiters[j := Asleep(rate, 0)])
      else if k.waiters[j].totalSleep + 1 >= PROCESSING_TIMEOUT_SECOND then
        k.(waiters := k.waiters[j := Asleep(rate, 0)], written := k.written + [k.now])
      else k.(waiters := k.waiters[j := Asleep(rate, k.waiters[j].totalSleep + 1)])
  }

  function Step(rate: nat, k: Clock, a: Action): Clock {
    if Enabled(k, a) then Next(rate, k, a) else k
  }

  function Exec(rate: nat, k: Clock, acts: seq<Action>): Clock
    decreases |acts|
  {
    if acts == [] then k else Exec(rate, Step(rate, k, acts[0]), acts[1..])
  }

  // ---------- what every moment keeps ----------

  /** Messages in the queue that are not copies. */
  function Offers(queue: seq<Maybe<nat>>): nat {
    if queue == [] then 0 else (if queue[0].Some? then 1 else 0) + Offers(queue[1..])
  }

  lemma {:induction false} OffersOfAppend(queue: seq<Maybe<nat>>, m: Maybe<nat>)
    ensures Offers(queue + [m]) == Offers(queue) + if m.Some? then 1 else 0
  {
    if queue == [] {
      assert queue + [m] == [m] && [m][1..] == [];
    } else {
      assert (queue + [m])[1..] == queue[1..] + [m];
      OffersOfAppend(queue[1..], m);
    }
  }

  predicate SoundWaiter(rate: nat, w: Waiter) {
    w.Asleep? ==> w.nap <= rate && w.totalSleep < PROCESSING_TIMEOUT_SECOND
  }

  predicate Sound(rate: nat, k: Clock) {
    && (forall j | 0 <= j < |k.waiters| :: SoundWaiter(rate, k.waiters[j]))
    && (k.loop.Napping? ==> k.loop.nap <= rate)
    && (k.loop.Working? ==> k.loop.waiter < |k.waiters| && !k.waiters[k.loop.waiter].Gone?)
    && k.arrived == k.answered + Offers(k.queue) + if k.loop.Working? then 1 else 0
  }

  /** Ticks until a waiter sends a WAIT, if the ASA takes that long. */
  function Remaining(rate: nat, w: Waiter): nat
    requires SoundWaiter(rate, w)
  {
    match w
    case Launched => 8 * rate
    case Asleep(nap, total) => nap + (7 - total) * rate
    case Gone => 0
  }

  lemma RemainingBounds(rate: nat, w: Waiter)
    requires SoundWaiter(rate, w)
    ensures Remaining(rate, w) <= 8 * rate
  {
    if w.Asleep? { assert (7 - w.totalSleep) * rate <= 7 * rate; }
  }

  /** Ticks within which the next PDU comes if a message waits. */
  function Due(rate: nat, k: Clock): nat
    requires Sound(rate, k)
  {
    match k.loop
    case Looking => 8 * rate
    case Napping(nap) => nap + 8 * rate
    case Working(_, j) => Remaining(rate, k.waiters[j])
  }

  // ---------- gaps ----------

  /** Every stamp comes at most `first` after `since` or `next` after the one before. */
  predicate GapsWithin(since: nat, stamps: seq<nat>, first: nat, next: nat)
    decreases |stamps|
  {
    stamps == [] || (since <= stamps[0] <= since + first && GapsWithin(stamps[0], stamps[1..], next, next))
  }

  function Latest(since: nat, stamps: seq<nat>): nat {
    if stamps == [] then since else stamps[|stamps| - 1]
  }

  lemma {:induction false} GapsOfAppend(since: nat, stamps: seq<nat>, t: nat, first: nat, next: nat)
    requires GapsWithin(since, stamps, first, next)
    requires Latest(since, stamps) <= t <= Latest(since, stamps) + if stamps == [] then first else next
    ensures GapsWithin(since, stamps + [t], first, next)
    decreases |stamps|
  {
    if stamps == [] {
      assert [] + [t] == [t] && [t][1..] == [];
    } else {
      assert (stamps + [t])[1..] == stamps[1..] + [t];
      GapsOfAppend(stamps[0], stamps[1..], t, next, next);
    }
  }

  /** Of a message that came at `since` with `before` PDUs written until then: the PDUs
      behind those came in time, and the next one can still. */
  predicate OnTime(rate: nat, k: Clock, since: nat, before: nat) {
    && Sound(rate, k) && before <= |k.written|
    && var heard := k.written[before..];
       && GapsWithin(since, heard, 9 * rate, 8 * rate)
       && Latest(since, heard) <= k.now
       && k.now + Due(rate, k) <= Latest(since, heard) + if heard == [] then 9 * rate else 8 * rate
  }

  lemma StepKeepsSound(rate: nat, k: Clock, a: Action)
    requires rate >= 1 && Sound(rate, k)
    ensures Sound(rate, Step(rate, k, a))
  {
    if a.Arrive? { OffersOfAppend(k.queue, a.work); }
  }

  lemma {:induction false} ExecKeepsSound(rate: nat, k: Clock, acts: seq<Action>)
    requires rate >= 1 && Sound(rate, k)
    ensures Sound(rate, Exec(rate, k, acts))
    decreases |acts|
  {
    hide Sound, Step;
    if acts != [] {
      StepKeepsSound(rate, k, acts[0]);
      ExecKeepsSound(rate, Step(rate, k, acts[0]), acts[1..]);
    }
  }

  /** A PDU written now is in time and starts a new wait of eight seconds. */
  lemma WritingKeepsOnTime(rate: nat, k: Clock, k': Clock, since: nat, before: nat)
    requires OnTime(rate, k, since, before) && Sound(rate, k')
    requires k'.now == k.now && k'.written == k.written + [k.now] && Due(rate, k') <= 8 * rate
    ensures OnTime(rate, k', since, before)
  {
    hide Sound, Due;
    var heard := k.written[before..];
    GapsOfAppend(since, heard, k.now, 9 * rate, 8 * rate);
    assert k'.written[before..] == heard + [k.now];
  }

  /** Time passes, or something happens that writes nothing and delays nothing. */
  lemma SilenceKeepsOnTime(rate: nat, k: Clock, k': Clock, since: nat, before: nat)
    requires OnTime(rate, k, since, before) && Sound(rate, k')
    requires k'.now >= k.now && k'.written == k.written && k'.now + Due(rate, k') <= k.now + Due(rate, k)
    ensures OnTime(rate, k', since, before)
  {
    hide Sound, Due;
  }

  lemma TickLeavesLess(rate: nat, k: Clock)
    requires Sound(rate, k) && Enabled(k, Tick) && Sound(rate, Next(rate, k, Tick))
    ensures Due(rate, Next(rate, k, Tick)) + 1 <= Due(rate, k)
  {
    if k.loop.Working? {
      var w := k.waiters[k.loop.waiter];
      assert !HasToWake(w);
      assert Next(rate, k, Tick).waiters[k.loop.waiter] == Slept(w);
    }
  }

  /** A waiter that wakes and does not write sleeps on through the second it had left. */
  lemma WakingKeepsDue(rate: nat, k: Clock, j: nat)
    requires Sound(rate, k) && Enabled(k, WakeWaiter(j))
    requires var k' := Next(rate, k, WakeWaiter(j)); Sound(rate, k') && k'.written == k.written
    ensures Due(rate, Next(rate, k, WakeWaiter(j))) <= Due(rate, k)
  {
    if k.loop.Working? && k.loop.waiter == j && k.waiters[j].Asleep? {
      var t := k.waiters[j].totalSleep;
      assert (7 - t) * rate == rate + (7 - (t + 1)) * rate;
    }
  }

  lemma WaiterIsDue(rate: nat, k: Clock)
    requires Sound(rate, k) && k.loop.Working?
    ensures Due(rate, k) <= 8 * rate
  {
    RemainingBounds(rate, k.waiters[k.loop.waiter]);
  }

  /** Whatever happens next, a client that is still waiting is on time. */
  lemma StepKeepsOnTime(rate: nat, k: Clock, since: nat, before: nat, a: Action)
    requires rate >= 1 && OnTime(rate, k, since, before) && k.answered < k.arrived
    ensures OnTime(rate, Step(rate, k, a), since, before)
  {
    hide OnTime, Due, GapsWithin, Sound;
    assert Sound(rate, k) by { SoundOfOnTime(rate, k, since, before); }
    StepKeepsSound(rate, k, a);
    var k' := Step(rate, k, a);
    if Enabled(k, a) {
      match a
      case Tick =>
        TickLeavesLess(rate, k);
        SilenceKeepsOnTime(rate, k, k', since, before);
      case Answer =>
        LookingIsDue(rate, k');
        WritingKeepsOnTime(rate, k, k', since, before);
      case WakeWaiter(j) =>
        if k'.written != k.written {
          WaiterIsDue(rate, k');
          WritingKeepsOnTime(rate, k, k', since, before);
        } else {
          WakingKeepsDue(rate, k, j);
          SilenceKeepsOnTime(rate, k, k', since, before);
        }
      case _ =>
        LoopKeepsDue(rate, k, a);
        SilenceKeepsOnTime(rate, k, k', since, before);
    }
  }

  lemma SoundOfOnTime(rate: nat, k: Clock, since: nat, before: nat)
    requires OnTime(rate, k, since, before)
    ensures Sound(rate, k)
  {
  }

  lemma LookingIsDue(rate: nat, k: Clock)
    requires Sound(rate, k) && k.loop == Looking
    ensures Due(rate, k) == 8 * rate
  {
  }

  /** While a message waits, the loop that looks into the queue finds one. */
  lemma LoopKeepsDue(rate: nat, k: Clock, a: Action)
    requires Sound(rate, k) && Enabled(k, a) && Sound(rate, Next(rate, k, a)) && k.answered < k.arrived
    requires a.Arrive? || a == Look || a == Wake
    ensures Due(rate, Next(rate, k, a)) <= Due(rate, k)
  {
  }

  lemma {:induction false} AnsweredOnlyGrows(rate: nat, k: Clock, acts: seq<Action>)
    ensures k.answered <= Exec(rate, k, acts).answered && k.arrived <= Exec(rate, k, acts).arrived
    decreases |acts|
  {
    if acts != [] { AnsweredOnlyGrows(rate, Step(rate, k, acts[0]), acts[1..]); }
  }

  lemma {:induction false} ExecKeepsOnTime(
    rate: nat, k: Clock, since: nat, before: nat, upTo: nat, acts: seq<Action>)
    requires rate >= 1 && OnTime(rate, k, since, before)
    requires upTo <= k.arrived && Exec(rate, k, acts).answered < upTo
    ensures OnTime(rate, Exec(rate, k, acts), since, before)
    decreases |acts|
  {
    hide OnTime, Step;
    if acts != [] {
      AnsweredOnlyGrows(rate, k, acts);
      StepKeepsOnTime(rate, k, since, before, acts[0]);
      var k' := Step(rate, k, acts[0]);
      AnsweredOnlyGrows(rate, k, [acts[0]]);
      assert Exec(rate, k, [acts[0]]) == Exec(rate, k', []) == k';
      ExecKeepsOnTime(rate, k', since, before, upTo, acts[1..]);
    }
  }

  /** A message comes in at any moment of any run, whatever the run loop is doing and
      whatever is queued before it.  As long as it has not been answered, the client has
      heard something 9 seconds after it at most and every 8 seconds at most from there
      to this moment (and so to the reply, which takes no time to write), however long
      the ASA takes: always before its 10-second timeout. */
  lemma ClientHearsInTime(rate: nat, before: seq<Action>, work: nat, after: seq<Action>)
    requires rate >= 1
    requires var k := Exec(rate, START, before);
             Exec(rate, Step(rate, k, Arrive(Some(work))), after).answered <= k.arrived
    ensures var k := Exec(rate, START, before);
            var k' := Exec(rate, Step(rate, k, Arrive(Some(work))), after);
            && |k.written| <= |k'.written|
            && GapsWithin(k.now, k'.written[|k.written|..] + [k'.now], 9 * rate, 8 * rate)
            && 8 * rate < 9 * rate < RESPONSE_TIMEOUT_SECOND * rate
  {
    hide Sound, GapsWithin, Due, Exec, OnTime;
    var k := Exec(rate, START, before);
    assert Sound(rate, START) by { StartIsSound(rate); }
    ExecKeepsSound(rate, START, before);
    var k1 := Step(rate, k, Arrive(Some(work)));
    ArrivalIsOnTime(rate, k, work);
    ExecKeepsOnTime(rate, k1, k.now, |k.written|, k1.arrived, after);
    HeardUpToNow(rate, Exec(rate, k1, after), k.now, |k.written|);
  }

  lemma StartIsSound(rate: nat)
    ensures Sound(rate, START)
  {
  }

  lemma ArrivalIsOnTime(rate: nat, k: Clock, work: nat)
    requires rate >= 1 && Sound(rate, k)
    ensures OnTime(rate, Step(rate, k, Arrive(Some(work))), k.now, |k.written|)
    ensures Step(rate, k, Arrive(Some(work))).arrived == k.arrived + 1
  {
    var k1 := Step(rate, k, Arrive(Some(work)));
    StepKeepsSound(rate, k, Arrive(Some(work)));
    assert k1.written[|k.written|..] == [];
    if k1.loop.Working? { WaiterIsDue(rate, k1); }
  }

  lemma HeardUpToNow(rate: nat, k: Clock, since: nat, before: nat)
    requires OnTime(rate, k, since, before)
    ensures before <= |k.written| && GapsWithin(since, k.written[before..] + [k.now], 9 * rate, 8 * rate)
  {
    hide Sound, Due;
    GapsOfAppend(since, k.written[before..], k.now, 9 * rate, 8 * rate);
  }

  // ---------- nobody hurries ----------

  /** Waiter j has its eight seconds, counted from `since`, before it or behind it. */
  predicate Patient(rate: nat, k: Clock, j: nat, since: nat) {
    && j < |k.waiters| && SoundWaiter(rate, k.waiters[j])
    && (!k.waiters[j].Gone? ==> k.now + Remaining(rate, k.waiters[j]) >= since + 8 * rate)
  }

  lemma StepKeepsPatient(rate: nat, k: Clock, j: nat, since: nat, a: Action)
    requires rate >= 1 && Patient(rate, k, j, since) && k.now >= since
    ensures Patient(rate, Step(rate, k, a), j, since) && Step(rate, k, a).now >= k.now
  {
    if a == WakeWaiter(j) && Enabled(k, a) && k.waiters[j].Asleep? {
      var t := k.waiters[j].totalSleep;
      assert (7 - t) * rate == rate + (7 - (t + 1)) * rate;
    }
  }

  lemma {:induction false} ExecKeepsPatient(rate: nat, k: Clock, j: nat, since: nat, acts: seq<Action>)
    requires rate >= 1 && Patient(rate, k, j, since) && k.now >= since
    ensures Patient(rate, Exec(rate, k, acts), j, since) && Exec(rate, k, acts).now >= k.now
    decreases |acts|
  {
    hide Patient, Step;
    if acts != [] {
      StepKeepsPatient(rate, k, j, since, acts[0]);
      ExecKeepsPatient(rate, Step(rate, k, acts[0]), j, since, acts[1..]);
    }
  }

  /** A waiter that has just been launched, or has just written its WAIT. */
  predicate Rested(rate: nat, w: Waiter) {
    w == Launched || w == Asleep(rate, 0)
  }

  predicate WritesNow(rate: nat, k: Clock, j: nat) {
    Step(rate, k, WakeWaiter(j)).written != k.written
  }

  /** A waiter never hurries: from its launch, and from each WAIT of its own, it is
      PROCESSING_TIMEOUT_SECOND, eight seconds, before it writes the next. */
  lemma WaiterTakesItsTime(rate: nat, k: Clock, j: nat, acts: seq<Action>)
    requires rate >= 1 && j < |k.waiters| && Rested(rate, k.waiters[j])
    requires WritesNow(rate, Exec(rate, k, acts), j)
    ensures Exec(rate, k, acts).now >= k.now + 8 * rate
    ensures Rested(rate, Step(rate, Exec(rate, k, acts), WakeWaiter(j)).waiters[j])
  {
    assert (7 - 0) * rate == 7 * rate;
    ExecKeepsPatient(rate, k, j, k.now, acts);
  }

  /** An idle loop sleeps exactly one second between two looks into its queue. */
  lemma {:induction false} NapLastsASecond(rate: nat, k: Clock, until: nat, acts: seq<Action>)
    requires k.loop.Napping? && k.now + k.loop.nap == until && Wake !in acts
    ensures var k' := Exec(rate, k, acts);
            k'.loop.Napping? && k'.now + k'.loop.nap == until && (Enabled(k', Wake) <==> k'.now == until)
    decreases |acts|
  {
    if acts != [] {
      assert acts[0] in acts && forall a | a in acts[1..] :: a in acts;
      NapLastsASecond(rate, Step(rate, k, acts[0]), until, acts[1..]);
    }
  }

  lemma PollsOnceASecond(rate: nat, k: Clock, acts: seq<Action>)
    requires k.loop == Looking && k.queue == [] && Wake !in acts
    ensures var k' := Exec(rate, Step(rate, k, Look), acts);
            k'.loop.Napping? && (Enabled(k', Wake) <==> k'.now == k.now + rate)
  {
    NapLastsASecond(rate, Step(rate, k, Look), k.now + rate, acts);
  }

  /** The run loop is at work on the message for which waiter `own` was launched at `since`
      and which is answered at `due`, or has answered it then; all others are gone, and
      nothing but the answer has been written behind `log`. */
  predicate Alone(rate: nat, k: Clock, own: nat, since: nat, due: nat, log: seq<nat>) {
    && |k.waiters| == own + 1 && Patient(rate, k, own, since) && k.now >= since
    && (forall j | 0 <= j < own :: k.waiters[j].Gone?)
    && if k.loop.Working? then k.loop.waiter == own && k.now + k.loop.left == due && k.written == log
       else k.written == log + [due]
  }

  lemma StepKeepsAlone(rate: nat, k: Clock, own: nat, since: nat, due: nat, log: seq<nat>, a: Action)
    requires rate >= 1 && Alone(rate, k, own, since, due, log) && due < since + 8 * rate
    requires |Step(rate, k, a).waiters| == own + 1
    ensures Alone(rate, Step(rate, k, a), own, since, due, log)
  {
    StepKeepsPatient(rate, k, own, since, a);
  }

  lemma {:induction false} WaitersOnlyGrow(rate: nat, k: Clock, acts: seq<Action>)
    ensures |k.waiters| <= |Exec(rate, k, acts).waiters|
    decreases |acts|
  {
    if acts != [] { WaitersOnlyGrow(rate, Step(rate, k, acts[0]), acts[1..]); }
  }

  lemma {:induction false} ExecKeepsAlone(
    rate: nat, k: Clock, own: nat, since: nat, due: nat, log: seq<nat>, acts: seq<Action>)
    requires rate >= 1 && Alone(rate, k, own, since, due, log) && due < since + 8 * rate
    requires |Exec(rate, k, acts).waiters| == own + 1
    ensures Alone(rate, Exec(rate, k, acts), own, since, due, log)
    decreases |acts|
  {
    if acts != [] {
      var k' := Step(rate, k, acts[0]);
      WaitersOnlyGrow(rate, k', acts[1..]);
      WaitersOnlyGrow(rate, k, [acts[0]]);
      assert Exec(rate, k, [acts[0]]) == Exec(rate, k', []) == k';
      StepKeepsAlone(rate, k, own, since, due, log, acts[0]);
      ExecKeepsAlone(rate, k', own, since, due, log, acts[1..]);
    }
  }

  /** No WAIT for a quick ASA.  If the ASA takes less than eight seconds over a message and
      the waiters of earlier messages are gone, then in every interleaving, until another
      message is taken up, the answer is all that is written, `work` ticks after the
      message was popped. */
  lemma QuickAnswerDrawsNoWait(rate: nat, k: Clock, work: nat, acts: seq<Action>)
    requires rate >= 1 && work < 8 * rate
    requires k.loop == Looking && k.queue != [] && k.queue[0] == Some(work)
    requires forall j | 0 <= j < |k.waiters| :: k.waiters[j].Gone?
    requires |Exec(rate, Step(rate, k, Look), acts).waiters| == |k.waiters| + 1
    ensures var k' := Exec(rate, Step(rate, k, Look), acts);
            k'.written == k.written + if k'.loop.Working? then [] else [k.now + work]
  {
    var k1 := Step(rate, k, Look);
    assert Alone(rate, k1, |k.waiters|, k.now, k.now + work, k.written);
    ExecKeepsAlone(rate, k1, |k.waiters|, k.now, k.now + work, k.written, acts);
    assert k.written + [] == k.written;
  }

  // ---------- waiters go ----------

  /** Waiter w is gone, or wakes up at `deadline` at the latest. */
  predicate Leaving(now: nat, w: Waiter, deadline: nat) {
    match w
    case Gone => true
    case Launched => now <= deadline
    case Asleep(nap, _) => now + nap <= deadline
  }

  predicate AllLeaving(k: Clock, deadline: nat) {
    !k.loop.Working? && forall j | 0 <= j < |k.waiters| :: Leaving(k.now, k.waiters[j], deadline)
  }

  lemma StepKeepsLeaving(rate: nat, k: Clock, deadline: nat, a: Action)
    requires AllLeaving(k, deadline) && |Step(rate, k, a).waiters| == |k.waiters|
    ensures AllLeaving(Step(rate, k, a), deadline)
  {
  }

  lemma {:induction false} ExecKeepsLeaving(rate: nat, k: Clock, deadline: nat, acts: seq<Action>)
    requires AllLeaving(k, deadline) && |Exec(rate, k, acts).waiters| == |k.waiters|
    ensures AllLeaving(Exec(rate, k, acts), deadline)
    decreases |acts|
  {
    hide Step, AllLeaving;
    if acts != [] {
      var k' := Step(rate, k, acts[0]);
      WaitersOnlyGrow(rate, k', acts[1..]);
      WaitersOnlyGrow(rate, k, [acts[0]]);
      assert Exec(rate, k, [acts[0]]) == Exec(rate, k', []) == k';
      StepKeepsLeaving(rate, k, deadline, acts[0]);
      ExecKeepsLeaving(rate, k', deadline, acts[1..]);
    }
  }

  /** A waiter that wakes and finds the ASA done is over: in every run, once the loop has
      been without a message for more than a second, no waiter is left. */
  lemma IdleSecondClearsWaiters(rate: nat, before: seq<Action>, acts: seq<Action>)
    requires rate >= 1
    requires var k := Exec(rate, START, before);
             && !k.loop.Working?
             && |Exec(rate, k, acts).waiters| == |k.waiters|
             && Exec(rate, k, acts).now > k.now + rate
    ensures var k' := Exec(rate, Exec(rate, START, before), acts);
            forall j | 0 <= j < |k'.waiters| :: k'.waiters[j].Gone?
  {
    var k := Exec(rate, START, before);
    StartIsSound(rate);
    ExecKeepsSound(rate, START, before);
    ExecKeepsLeaving(rate, k, k.now + rate, acts);
  }

  // ---------- time does pass ----------

  function DueWaiters(ws: seq<Waiter>): nat {
    if ws == [] then 0 else (if HasToWake(ws[0]) then 1 else 0) + DueWaiters(ws[1..])
  }

  lemma {:induction false} DueOfUpdate(ws: seq<Waiter>, j: nat, w: Waiter)
    requires j < |ws| && HasToWake(ws[j]) && !HasToWake(w)
    ensures DueWaiters(ws[j := w]) < DueWaiters(ws)
  {
    if j > 0 {
      assert ws[j := w][1..] == ws[1..][j - 1 := w];
      DueOfUpdate(ws[1..], j - 1, w);
    }
  }

  lemma {:induction false} DueOfLaunch(ws: seq<Waiter>)
    ensures DueWaiters(ws + [Launched]) == DueWaiters(ws) + 1
  {
    if ws == [] {
      assert ws + [Launched] == [Launched] && [Launched][1..] == [];
    } else {
      assert (ws + [Launched])[1..] == ws[1..] + [Launched];
      DueOfLaunch(ws[1..]);
    }
  }

  /** How much there is to do before time can pass. */
  function Chores(k: Clock): nat {
    4 * |k.queue| + DueWaiters(k.waiters)
    + match k.loop
      case Looking => 1
      case Napping(nap) => if nap == 0 then 2 else 0
      case Working(left, _) => if left == 0 then 2 else 0
  }

  /** The next thing that some thread does now, unless time can pass. */
  lemma NextChore(rate: nat, k: Clock) returns (a: Action)
    requires rate >= 1 && !Enabled(k, Tick)
    ensures Enabled(k, a) && !a.Tick? && !a.Arrive?
    ensures Chores(Step(rate, k, a)) < Chores(k)
  {
    match k.loop {
      case Looking =>
        a := Look;
        DueOfLaunch(k.waiters);
        return;
      case Napping(nap) => if nap == 0 { return Wake; }
      case Working(left, _) => if left == 0 { return Answer; }
    }
    var j :| 0 <= j < |k.waiters| && HasToWake(k.waiters[j]);
    a := WakeWaiter(j);
    DueOfUpdate(k.waiters, j, Next(rate, k, a).waiters[j]);
  }

  /** Nothing holds time up, so the bounds above are met by PDUs: from any moment of any
      run, finitely many things that the threads do at once let time pass. */
  lemma {:induction false} TimePasses(rate: nat, k: Clock) returns (acts: seq<Action>)
    requires rate >= 1
    ensures forall a | a in acts :: !a.Tick? && !a.Arrive?
    ensures Enabled(Exec(rate, k, acts), Tick) && Exec(rate, k, acts).now == k.now
    decreases Chores(k)
  {
    hide Chores;
    acts := [];
    if !Enabled(k, Tick) {
      var a := NextChore(rate, k);
      var rest := TimePasses(rate, Step(rate, k, a));
      acts := [a] + rest;
      assert acts[1..] == rest;
    }
  }

  /** What the client makes of the four-byte waiting time: it takes the first byte of
      10000, which is 16, still longer than any gap. */
  lemma WaitingTimeAsRead()
    ensures var o := ParseOption(WaitData());
            o.kind == WaitingTime && o.value != [] && o.value[0] == 16
    ensures Word(WaitData(), 2) == 10 * 1000
  {
    var d := WaitData();
    var bits := OptionBits(Opt(WaitingTime, [0x10, 0x27, 0, 0]));
    assert d[..|bits|] == bits;
    assert d[4] == bits[4] == 0x10 && d[5] == bits[5] == 0x27 && d[2] == bits[2] == 4 && d[3] == bits[3] == 0;
    assert Window(d, 4, 4)[0] == 0x10;
  }
}
