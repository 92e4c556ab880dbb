/** The inbox is a bounded queue: an arrival that finds it full drops the oldest event it holds. What a drop loses,
    and which of the theorems about the oracle survive it. */
module OracleOverflow {
  import opened Bytes
  import opened OracleModel
  import opened OracleSafety
  import opened OracleAnswers
  import opened OracleAtMostOnce
  import opened OracleSecondAnswer
  import opened OracleProgress
  import opened OraclePayments
  import opened OracleLostAnswers

  // ---- The queue ----

  /** What the daemon holds, of every kind: the events numbered above the prune mark. */
  function Queue(arrived: seq<Event>, floor: nat): seq<Event> {
    if arrived == [] then []
    else if arrived[0].inboxSeq > floor then [arrived[0]] + Queue(arrived[1..], floor)
    else Queue(arrived[1..], floor)
  }

  predicate Full(d: Daemon, cap: nat) {
    |Queue(d.arrived, d.floor)| >= cap
  }

  /** Makes room for one more event, dropping from the front. */
  function Evict(d: Daemon, cap: nat): Daemon
    requires cap >= 1
  {
    var q := Queue(d.arrived, d.floor);
    if |q| < cap then d else d.(floor := q[|q| - cap].inboxSeq)
  }

  function StepBounded(cfg: Codec, cap: nat, w: World, input: Input): World
    requires cap >= 1
  {
    Step(cfg, if input.Arrive? then w.(d := Evict(w.d, cap)) else w, input)
  }

  /** The world after `inputs`, from an empty queue of capacity `cap`. */
  function AfterBounded(cfg: Codec, cap: nat, inputs: seq<Input>): World
    requires cap >= 1
  {
    if inputs == [] then INITIAL_WORLD
    else StepBounded(cfg, cap, AfterBounded(cfg, cap, inputs[..|inputs| - 1]), inputs[|inputs| - 1])
  }

  lemma {:induction false} QueueIs(arrived: seq<Event>, floor: nat)
    ensures forall e :: e in Queue(arrived, floor) <==> e in arrived && e.inboxSeq > floor
  {
    if arrived != [] {
      QueueIs(arrived[1..], floor);
      assert arrived == [arrived[0]] + arrived[1..];
    }
  }

  lemma {:induction false} QueueSnoc(arrived: seq<Event>, ev: Event, floor: nat)
    ensures Queue(arrived + [ev], floor) == Queue(arrived, floor) + if ev.inboxSeq > floor then [ev] else []
  {
    if arrived == [] {
      assert [] + [ev] == [ev];
    } else {
      assert (arrived + [ev])[1..] == arrived[1..] + [ev];
      QueueSnoc(arrived[1..], ev, floor);
    }
  }

  lemma {:induction false} QueueShrinks(arrived: seq<Event>, low: nat, high: nat)
    requires low <= high
    ensures |Queue(arrived, high)| <= |Queue(arrived, low)|
  {
    if arrived != [] {
      QueueShrinks(arrived[1..], low, high);
    }
  }

  lemma TailGrows(arrived: seq<Event>)
    requires Growing(arrived) && arrived != []
    ensures Growing(arrived[1..]) && forall e :: e in arrived[1..] ==> e.inboxSeq > arrived[0].inboxSeq
  {
  }

  /** Below every number the queue is everything. */
  lemma {:induction false} QueueAll(arrived: seq<Event>, floor: nat)
    requires forall e :: e in arrived ==> e.inboxSeq > floor
    ensures Queue(arrived, floor) == arrived
  {
    if arrived != [] {
      QueueAll(arrived[1..], floor);
    }
  }

  /** Raising the mark to the `k`-th event held drops the events up to it. */
  lemma {:induction false} QueueDrops(arrived: seq<Event>, floor: nat, k: nat)
    requires Growing(arrived) && k < |Queue(arrived, floor)|
    ensures var q := Queue(arrived, floor); q[k].inboxSeq > floor && Queue(arrived, q[k].inboxSeq) == q[k + 1..]
  {
    TailGrows(arrived);
    hide Growing;
    var rest := arrived[1..];
    if arrived[0].inboxSeq <= floor {
      QueueDrops(rest, floor, k);
    } else if k == 0 {
      QueueAll(rest, floor);
      QueueAll(rest, arrived[0].inboxSeq);
    } else {
      QueueDrops(rest, floor, k - 1);
      DropBelow(arrived[0], rest, floor, k);
      assert [arrived[0]] + rest == arrived;
    }
  }

  lemma DropBelow(first: Event, rest: seq<Event>, floor: nat, k: nat)
    requires first.inboxSeq > floor && forall e :: e in rest ==> e.inboxSeq > first.inboxSeq
    requires 0 < k <= |Queue(rest, floor)|
    requires Queue(rest, Queue(rest, floor)[k - 1].inboxSeq) == Queue(rest, floor)[k..]
    ensures var q := Queue([first] + rest, floor);
            && |q| == |Queue(rest, floor)| + 1 && q[k] == Queue(rest, floor)[k - 1]
            && Queue([first] + rest, q[k].inboxSeq) == q[k + 1..]
  {
    QueueIs(rest, floor);
    var q := Queue(rest, floor);
    assert q[k - 1] in q;
    assert ([first] + rest)[1..] == rest;
    assert ([first] + q)[k + 1..] == q[k..];
  }

  /** An eviction only raises the prune mark. */
  lemma EvictRaises(d: Daemon, cap: nat)
    requires cap >= 1
    ensures Evict(d, cap).floor >= d.floor && Evict(d, cap) == d.(floor := Evict(d, cap).floor)
    ensures !Full(d, cap) ==> Evict(d, cap) == d
  {
    QueueIs(d.arrived, d.floor);
    var q := Queue(d.arrived, d.floor);
    hide Queue;
    if |q| >= cap {
      assert q[|q| - cap] in q;
    }
  }

  lemma EvictKeepsInv(cfg: Codec, w: World, cap: nat)
    requires Inv(cfg, w) && cap >= 1
    ensures Inv(cfg, w.(d := Evict(w.d, cap)))
  {
    var w' := w.(d := Evict(w.d, cap));
    EvictRaises(w.d, cap);
    hide Evict;
    hide PendingOk;
    forall o | o in w'.d.log && o.Armed? ensures exists ev :: Arms(cfg, w'.d, ev, o) {
      var ev :| Arms(cfg, w.d, ev, o);
      assert Arms(cfg, w'.d, ev, o);
    }
  }

  lemma StepBoundedKeeps(cfg: Codec, cap: nat, w: World, input: Input)
    requires Inv(cfg, w) && cap >= 1
    ensures Inv(cfg, StepBounded(cfg, cap, w, input))
  {
    hide Step;
    hide Inv;
    hide Evict;
    if input.Arrive? {
      EvictKeepsInv(cfg, w, cap);
      StepKeeps(cfg, w.(d := Evict(w.d, cap)), input);
    } else {
      StepKeeps(cfg, w, input);
    }
  }

  /** With a bounded queue every reachable world keeps the invariant of the waiting-set and the ledgers. */
  lemma {:induction false} BoundedInv(cfg: Codec, cap: nat, inputs: seq<Input>)
    requires cap >= 1
    ensures Inv(cfg, AfterBounded(cfg, cap, inputs))
  {
    hide StepBounded;
    if inputs == [] {
      ReachableInv(cfg, []);
      assert After(cfg, INITIAL_WORLD, []) == INITIAL_WORLD;
    } else {
      hide Inv;
      BoundedInv(cfg, cap, inputs[..|inputs| - 1]);
      StepBoundedKeeps(cfg, cap, AfterBounded(cfg, cap, inputs[..|inputs| - 1]), inputs[|inputs| - 1]);
    }
  }

  lemma ArrivalFits(d: Daemon, cap: nat, ev: Event)
    requires cap >= 1 && Growing(d.arrived)
    ensures var d' := Evict(d, cap); |Queue(d'.arrived + [ev], d'.floor)| <= cap
  {
    var q := Queue(d.arrived, d.floor);
    if |q| >= cap {
      QueueDrops(d.arrived, d.floor, |q| - cap);
    }
    QueueSnoc(d.arrived, ev, Evict(d, cap).floor);
    hide Queue;
  }

  lemma StepFits(cfg: Codec, cap: nat, w: World, input: Input)
    requires cap >= 1 && Inv(cfg, w) && |Queue(w.d.arrived, w.d.floor)| <= cap
    ensures var d' := StepBounded(cfg, cap, w, input).d; |Queue(d'.arrived, d'.floor)| <= cap
  {
    hide Iterate;
    hide Queue;
    hide PendingOk;
    match input
    case Arrive(ev, gap) => ArrivalFits(w.d, cap, ev.(inboxSeq := LastSeq(w.d.arrived) + 1 + gap));
    case Run(env) =>
      if w.g.parked {
        ParkedStep(cfg, w, env);
      } else {
        TickFrame(cfg, w, env);
        QueueShrinks(w.d.arrived, w.d.floor, Step(cfg, w, Run(env)).d.floor);
      }
    case Reboot =>
  }

  /** The queue never holds more than its capacity. */
  lemma {:induction false} QueueBounded(cfg: Codec, cap: nat, inputs: seq<Input>)
    requires cap >= 1
    ensures var d := AfterBounded(cfg, cap, inputs).d; |Queue(d.arrived, d.floor)| <= cap
  {
    hide StepBounded;
    hide Inv;
    if inputs != [] {
      BoundedInv(cfg, cap, inputs[..|inputs| - 1]);
      QueueBounded(cfg, cap, inputs[..|inputs| - 1]);
      hide Queue;
      StepFits(cfg, cap, AfterBounded(cfg, cap, inputs[..|inputs| - 1]), inputs[|inputs| - 1]);
    }
  }

  // ---- What a drop loses ----

  /** The oldest event held is the only one between an older mark and itself. */
  lemma {:induction false} WaitingFromOldest(arrived: seq<Event>, floor: nat, mark: nat)
    requires Growing(arrived) && Queue(arrived, floor) != []
    requires floor <= mark < Queue(arrived, floor)[0].inboxSeq
    ensures var oldest := Queue(arrived, floor)[0];
            Waiting(arrived, mark) == (if Wanted(oldest) then [oldest] else []) + Waiting(arrived, oldest.inboxSeq)
  {
    TailGrows(arrived);
    var rest := arrived[1..];
    if arrived[0].inboxSeq > floor {
      WaitingAll(rest, mark, arrived[0].inboxSeq);
    } else {
      WaitingFromOldest(rest, floor, mark);
    }
  }

  lemma {:induction false} WaitingAll(arrived: seq<Event>, low: nat, high: nat)
    requires forall e :: e in arrived ==> e.inboxSeq > high >= low
    ensures Waiting(arrived, low) == Waiting(arrived, high)
  {
    if arrived != [] {
      WaitingAll(arrived[1..], low, high);
    }
  }

  /** An arrival loses an event that was never handled exactly when it finds the queue full and the oldest event
      held is wanted and past the cursor; then it loses that one, the head of the inbox, and no other. */
  lemma ArrivalLosesIff(cfg: Codec, cap: nat, w: World, ev: Event, gap: nat)
    requires cap >= 1 && Inv(cfg, w) && |Queue(w.d.arrived, w.d.floor)| <= cap
    requires w.g.ack <= LastSeq(w.d.arrived) && w.d.floor <= LastSeq(w.d.arrived)
    ensures var w' := StepBounded(cfg, cap, w, Arrive(ev, gap));
            var oldest := Queue(w.d.arrived, w.d.floor);
            var loses := Full(w.d, cap) && Wanted(oldest[0]) && oldest[0].inboxSeq > w.g.ack;
            && (loses ==> Left(w.g, w.d) != [] && Left(w.g, w.d)[0] == oldest[0])
            && Left(w'.g, w'.d) == (if loses then Left(w.g, w.d)[1..] else Left(w.g, w.d))
                                   + if Wanted(ev) then [ev.(inboxSeq := LastSeq(w.d.arrived) + 1 + gap)] else []
  {
    var arriving := ev.(inboxSeq := LastSeq(w.d.arrived) + 1 + gap);
    GrowingOf(cfg, w);
    hide Inv;
    EvictRaises(w.d, cap);
    EvictionLoses(w.g, w.d, cap);
    hide Growing;
    hide Queue;
    hide Full;
    WaitingSnoc(w.d.arrived, arriving, Mark(w.g, Evict(w.d, cap)));
    hide Evict;
    hide Waiting;
  }

  lemma EvictionLoses(g: Genome, d: Daemon, cap: nat)
    requires cap >= 1 && Growing(d.arrived) && |Queue(d.arrived, d.floor)| <= cap
    ensures var oldest := Queue(d.arrived, d.floor);
            var loses := Full(d, cap) && Wanted(oldest[0]) && oldest[0].inboxSeq > g.ack;
            && (loses ==> Left(g, d) != [] && Left(g, d)[0] == oldest[0])
            && Left(g, Evict(d, cap)) == (if loses then Left(g, d)[1..] else Left(g, d))
            && Evict(d, cap).floor <= Max(d.floor, LastSeq(d.arrived))
  {
    var q := Queue(d.arrived, d.floor);
    QueueIs(d.arrived, d.floor);
    if Full(d, cap) {
      assert q[0] in q;
      ArrivedBounded(d.arrived, q[0]);
      if q[0].inboxSeq > g.ack {
        WaitingFromOldest(d.arrived, d.floor, Mark(g, d));
      }
    }
    hide Waiting;
    hide Queue;
  }

  // ---- What survives ----

  /** Where no arrival finds the queue full, a bounded run is the run of the unbounded inbox. */
  lemma {:induction false} NeverFullIsUnbounded(cfg: Codec, cap: nat, inputs: seq<Input>)
    requires cap >= 1
    requires forall k :: 0 <= k < |inputs| && inputs[k].Arrive? ==> !Full(AfterBounded(cfg, cap, inputs[..k]).d, cap)
    ensures AfterBounded(cfg, cap, inputs) == After(cfg, INITIAL_WORLD, inputs)
  {
    hide Step;
    hide Full;
    hide Evict;
    if inputs != [] {
      var n := |inputs| - 1;
      forall k | 0 <= k < n && inputs[..n][k].Arrive?
        ensures !Full(AfterBounded(cfg, cap, inputs[..n][..k]).d, cap)
      {
        assert inputs[..n][..k] == inputs[..k];
      }
      NeverFullIsUnbounded(cfg, cap, inputs[..n]);
      EvictRaises(AfterBounded(cfg, cap, inputs[..n]).d, cap);
    }
  }

  /** Each delivered attestation is paid for and goes to the one who armed its charge, whatever is dropped. */
  lemma {:induction false} PaidThoughBounded(cfg: Codec, cap: nat, inputs: seq<Input>, i: nat) returns (k: nat)
    requires cap >= 1 && i < |AfterBounded(cfg, cap, inputs).d.log|
    requires IsAttestation(AfterBounded(cfg, cap, inputs).d.log[i])
    ensures k < |inputs| && inputs[k].Run?
    ensures var w := AfterBounded(cfg, cap, inputs[..k]);
            var log := AfterBounded(cfg, cap, inputs).d.log;
            && i == |w.d.log| && w.d.log == log[..i]
            && PaidFor(cfg, w.g, w.d, inputs[k].env, log[i].text.answer.chargeId, log[i].to)
  {
    hide StepBounded;
    var n := |inputs| - 1;
    var w := AfterBounded(cfg, cap, inputs[..n]);
    var log := AfterBounded(cfg, cap, inputs).d.log;
    BoundedInv(cfg, cap, inputs[..n]);
    BoundedAppends(cfg, cap, w, inputs[n]);
    hide PaidFor;
    hide Inv;
    if i < |w.d.log| {
      k := PaidThoughBounded(cfg, cap, inputs[..n], i);
      assert inputs[..n][..k] == inputs[..k];
    } else {
      k := n;
      assert log[i] in Added(w.d.log, log);
    }
  }

  lemma BoundedAppends(cfg: Codec, cap: nat, w: World, input: Input)
    requires cap >= 1 && Inv(cfg, w)
    ensures var log' := StepBounded(cfg, cap, w, input).d.log;
            && w.d.log <= log'
            && forall o :: o in Added(w.d.log, log') && IsAttestation(o) ==>
                 && input.Run? && log' == w.d.log + [o]
                 && PaidFor(cfg, w.g, w.d, input.env, o.text.answer.chargeId, o.to)
  {
    hide Inv;
    hide Iterate;
    hide PaidFor;
    hide Queue;
    if !input.Arrive? {
      StepAnswersArePaid(cfg, w, input);
      hide Step;
    }
  }

  /** No soft poll error, and no drop of the event under retry, between a transient tick and its retry. */
  predicate SteadyBounded(cap: nat, w: World, input: Input)
    requires cap >= 1
  {
    && SteadyStep(w, input)
    && (input.Arrive? && w.g.retrying && Head(w.g, w.d).Some? ==>
          Evict(w.d, cap).floor < Head(w.g, w.d).value.inboxSeq)
  }

  ghost predicate AllSteady(cfg: Codec, cap: nat, inputs: seq<Input>)
    requires cap >= 1
  {
    forall k :: 0 <= k < |inputs| ==> SteadyBounded(cap, AfterBounded(cfg, cap, inputs[..k]), inputs[k])
  }

  /** Dropping what is older than the head leaves the head. */
  lemma HeadSurvives(g: Genome, d: Daemon, floor: nat)
    requires Growing(d.arrived) && Head(g, d).Some? && d.floor <= floor < Head(g, d).value.inboxSeq
    ensures Head(g, d.(floor := floor)) == Head(g, d)
  {
    var e, d' := Head(g, d).value, d.(floor := floor);
    PolledEvent(d, g.ack, PollOk);
    hide Oldest;
    HeadIsLeast(g, d', e);
  }

  lemma EvictKeepsOnce(cfg: Codec, cap: nat, w: World, ev: Event, gap: nat)
    requires cap >= 1 && Inv(cfg, w) && AtMostOnce(cfg, w) && SteadyBounded(cap, w, Arrive(ev, gap))
    ensures AtMostOnce(cfg, w.(d := Evict(w.d, cap)))
  {
    EvictRaises(w.d, cap);
    GrowingOf(cfg, w);
    hide Inv;
    hide Evict;
    hide PollOne;
    var w' := w.(d := Evict(w.d, cap));
    forall c | c in w.g.pending && Spent(w.d.log, c) ensures Exposed(cfg, w'.g, w'.d, c) {
      assert Exposed(cfg, w.g, w.d, c);
      HeadSurvives(w.g, w.d, w'.d.floor);
    }
  }

  lemma StepBoundedOnce(cfg: Codec, cap: nat, w: World, input: Input)
    requires cap >= 1 && Inv(cfg, w) && AtMostOnce(cfg, w) && SteadyBounded(cap, w, input)
    ensures AtMostOnce(cfg, StepBounded(cfg, cap, w, input))
  {
    hide Inv;
    hide AtMostOnce;
    hide Step;
    hide Evict;
    if input.Arrive? {
      EvictKeepsOnce(cfg, cap, w, input.ev, input.gap);
      EvictKeepsInv(cfg, w, cap);
      StepAtMostOnce(cfg, w.(d := Evict(w.d, cap)), input);
    } else {
      StepAtMostOnce(cfg, w, input);
    }
  }

  /** With a bounded queue too, every arming is answered at most once, as long as in addition no drop takes away an
      event under retry. */
  lemma {:induction false} AtMostOnceThoughBounded(cfg: Codec, cap: nat, inputs: seq<Input>)
    requires cap >= 1 && AllSteady(cfg, cap, inputs)
    ensures AtMostOnce(cfg, AfterBounded(cfg, cap, inputs))
  {
    hide StepBounded;
    hide SteadyBounded;
    if inputs == [] {
      AtMostOneAnswerPerArming(cfg, []);
      assert After(cfg, INITIAL_WORLD, []) == INITIAL_WORLD;
    } else {
      hide AtMostOnce;
      var n := |inputs| - 1;
      SteadyFront(cfg, cap, inputs, n);
      AtMostOnceThoughBounded(cfg, cap, inputs[..n]);
      BoundedInv(cfg, cap, inputs[..n]);
      hide Inv;
      StepBoundedOnce(cfg, cap, AfterBounded(cfg, cap, inputs[..n]), inputs[n]);
    }
  }

  lemma SteadyFront(cfg: Codec, cap: nat, inputs: seq<Input>, n: nat)
    requires cap >= 1 && AllSteady(cfg, cap, inputs) && n <= |inputs|
    ensures AllSteady(cfg, cap, inputs[..n])
  {
    hide AfterBounded;
    hide SteadyBounded;
    forall k | 0 <= k < n ensures SteadyBounded(cap, AfterBounded(cfg, cap, inputs[..n][..k]), inputs[..n][k]) {
      assert inputs[..n][..k] == inputs[..k];
    }
  }

  // ---- One payment, one answer ----

  lemma EvictKeepsUsed(cfg: Codec, w: World, cap: nat, e: Event)
    requires cap >= 1 && UsedUp(cfg, w, e)
    ensures UsedUp(cfg, w.(d := Evict(w.d, cap)), e)
  {
    EvictRaises(w.d, cap);
    hide Evict;
    hide SpentBy;
  }

  lemma UsedThoughBounded(cfg: Codec, cap: nat, w: World, input: Input, e: Event)
    requires cap >= 1 && Inv(cfg, w) && UsedUp(cfg, w, e)
    ensures UsedUp(cfg, StepBounded(cfg, cap, w, input), e)
  {
    hide Inv;
    hide UsedUp;
    hide Step;
    hide Evict;
    if input.Arrive? {
      EvictKeepsInv(cfg, w, cap);
      EvictKeepsUsed(cfg, w, cap, e);
      UsedStep(cfg, w.(d := Evict(w.d, cap)), input, e);
    } else {
      UsedStep(cfg, w, input, e);
    }
  }

  lemma {:induction false} UsedStaysBounded(cfg: Codec, cap: nat, inputs: seq<Input>, k: nat, n: nat, e: Event)
    requires cap >= 1 && k <= n <= |inputs| && UsedUp(cfg, AfterBounded(cfg, cap, inputs[..k]), e)
    ensures UsedUp(cfg, AfterBounded(cfg, cap, inputs[..n]), e)
    decreases n - k
  {
    hide StepBounded;
    hide UsedUp;
    hide Inv;
    if k < n {
      assert inputs[..n][..n - 1] == inputs[..n - 1];
      UsedStaysBounded(cfg, cap, inputs, k, n - 1, e);
      BoundedInv(cfg, cap, inputs[..n - 1]);
      UsedThoughBounded(cfg, cap, AfterBounded(cfg, cap, inputs[..n - 1]), inputs[n - 1], e);
    }
  }

  /** Input `k` of the bounded run delivers an attestation for the settlement `e`. */
  ghost predicate PaysBounded(cfg: Codec, cap: nat, inputs: seq<Input>, k: nat, e: Event)
    requires cap >= 1
  {
    && k < |inputs| && inputs[k].Run?
    && var w := AfterBounded(cfg, cap, inputs[..k]);
    && Polled(w, inputs[k].env) == Some(e)
    && Delivers(w.d.log, AfterBounded(cfg, cap, inputs[..k + 1]).d.log)
  }

  lemma PaysBoundedStep(cfg: Codec, cap: nat, inputs: seq<Input>, k: nat, e: Event)
    requires cap >= 1 && PaysBounded(cfg, cap, inputs, k, e)
    ensures k < |inputs| && inputs[k] == Run(inputs[k].env)
    ensures var w := AfterBounded(cfg, cap, inputs[..k]);
            && Inv(cfg, w) && Polled(w, inputs[k].env) == Some(e)
            && AfterBounded(cfg, cap, inputs[..k + 1]) == Step(cfg, w, inputs[k])
            && Delivers(w.d.log, Step(cfg, w, inputs[k]).d.log)
  {
    BoundedInv(cfg, cap, inputs[..k]);
    hide Inv;
    hide Delivers;
    hide Step;
    hide Polled;
    assert inputs[..k + 1][..k] == inputs[..k];
  }

  /** One payment buys at most one answer under the same hypothesis. */
  lemma OneAnswerPerPaymentThoughBounded(cfg: Codec, cap: nat, inputs: seq<Input>, k: nat, n: nat, e: Event)
    requires cap >= 1 && AllSteady(cfg, cap, inputs) && k < n && PaysBounded(cfg, cap, inputs, k, e)
    ensures !PaysBounded(cfg, cap, inputs, n, e)
  {
    hide *;
    if PaysBounded(cfg, cap, inputs, n, e) {
      PaysBoundedStep(cfg, cap, inputs, k, e);
      PaysBoundedStep(cfg, cap, inputs, n, e);
      var w := AfterBounded(cfg, cap, inputs[..n]);
      var f := BuysOnce(cfg, AfterBounded(cfg, cap, inputs[..k]), inputs[k].env);
      UsedStaysBounded(cfg, cap, inputs, k + 1, n, e);
      var c := UsedBuysAgain(cfg, w, inputs[n].env, e);
      SteadyFront(cfg, cap, inputs, n);
      AtMostOnceThoughBounded(cfg, cap, inputs[..n]);
      FreeIsAwaiting(cfg, w, c);
      SpentIsNotAwaiting(w.d.log, c);
    }
  }

  lemma SpentIsNotAwaiting(log: seq<Obs>, c: Str)
    ensures !(Spent(log, c) && Awaiting(log, c))
  {
  }

  // ---- A run that needs the hypothesis on drops ----

  /** An event the oracle does not want. */
  const OTHER := Event(0, OtherKind, [], [], 0, [])

  /** The answer went out and its reply was lost. */
  ghost predicate Unheard(w: World) {
    && !w.g.parked && w.g.committed == 1 && w.g.ack == 1
    && CHARGE_ID in w.g.pending && w.g.pending[CHARGE_ID].amountSats == 10 && w.g.pending[CHARGE_ID].issuedSeq == 1
    && Spent(w.d.log, CHARGE_ID) && DmKey(3) !in w.d.recorded
    && w.d.arrived == [Numbered(DM, 1), Numbered(SETTLEMENT, 2)] && w.d.floor == 1
  }

  lemma LosesReply(w: World)
    requires Inv(DEMO, w) && Charged(w)
    ensures Unheard(Step(DEMO, w, Run(LOSING)))
  {
    var paid := Numbered(SETTLEMENT, 2);
    DemoHolds(w, paid);
    hide Iterate;
    hide PollOne;
    hide Inv;
    hide Holding;
    hide LastAbout;
    hide AgeOut;
    TickBurns(DEMO, w, LOSING);
    TickFrame(DEMO, w, LOSING);
    PrunesTo(w);
    KeepsCursor(w, paid);
    SpendsUnheard(w);
  }

  lemma SpendsUnheard(w: World)
    requires Inv(DEMO, w) && Holding(DEMO, w.g, w.d, CHARGE_ID) && w.g.pending == map[CHARGE_ID := Quoted(1)]
    requires DmKey(w.g.committed + 1) !in w.d.recorded
    ensures var w' := Step(DEMO, w, Run(LOSING));
            && Spent(w'.d.log, CHARGE_ID) && w'.g.committed == w.g.committed
            && CHARGE_ID in w'.g.pending && w'.g.pending[CHARGE_ID].issuedSeq == 1
  {
    assert LOSING.poll.PollOk? && Publishes(LOSING.dm) && ReplyLost(LOSING.dm);
    assert w.g.pending[CHARGE_ID].issuedSeq == 1;
    hide *;
    InvParts(DEMO, w);
    HeldTick(DEMO, w.g, w.d, LOSING, CHARGE_ID);
    StepIsIterate(DEMO, w, LOSING);
    StepAnswersArePaid(DEMO, w, Run(LOSING));
    AnswerSpends(w.d.log, Step(DEMO, w, Run(LOSING)).d.log, CHARGE_ID);
  }

  lemma KeepsCursor(w: World, paid: Event)
    requires Inv(DEMO, w) && Holding(DEMO, w.g, w.d, CHARGE_ID) && Head(w.g, w.d) == Some(paid)
    requires w.g.pending == map[CHARGE_ID := Quoted(1)]
    ensures var g' := Step(DEMO, w, Run(LOSING)).g;
            && g'.ack == w.g.ack && !g'.parked
            && CHARGE_ID in g'.pending && g'.pending[CHARGE_ID].amountSats == 10
  {
    InvParts(DEMO, w);
    HeldParts(DEMO, w.g, w.d, CHARGE_ID);
    AgedPending(w.g);
    hide Inv;
    hide PendingOk;
    hide Step;
    hide PollOne;
    hide AgeOut;
    var d := HeldStep(DEMO, w, LOSING, CHARGE_ID);
    var seqNo := w.g.committed + 1;
    SettleOutcome(DEMO, Aged(w.g), d, seqNo, paid, CHARGE_ID, LOSING);
    var a := SettledShape(DEMO, Aged(w.g), d, seqNo, paid, CHARGE_ID, LOSING);
    hide SettleTick;
  }

  lemma AgedPending(g: Genome)
    ensures forall c :: c in Aged(g).pending ==> c in g.pending && Aged(g).pending[c] == g.pending[c]
  {
  }

  /** Two unwanted arrivals push the settlement out of a queue of two. */
  lemma PushedOut(w: World)
    requires Unheard(w)
    ensures var w' := StepBounded(DEMO, 2, StepBounded(DEMO, 2, w, Arrive(OTHER, 0)), Arrive(OTHER, 0));
            && w'.g == w.g && w'.d.log == w.d.log && w'.d.recorded == w.d.recorded && w'.d.floor == 2
            && w'.d.arrived == w.d.arrived + [Numbered(OTHER, 3)] + [Numbered(OTHER, 4)]
  {
    var other := Numbered(OTHER, 3);
    hide Spent;
    assert Queue(w.d.arrived[1..], 1) == [Numbered(SETTLEMENT, 2)] + Queue(w.d.arrived[1..][1..], 1);
    assert Queue(w.d.arrived, 1) == [Numbered(SETTLEMENT, 2)];
    var w1 := StepBounded(DEMO, 2, w, Arrive(OTHER, 0));
    assert w1 == w.(d := w.d.(arrived := w.d.arrived + [other]));
    QueueSnoc(w.d.arrived, other, 1);
    hide Queue;
    assert Queue(w1.d.arrived, 1) == [Numbered(SETTLEMENT, 2), other];
  }

  /** A poll that succeeds and finds nothing commits the number. */
  lemma FindsNothing(w: World)
    requires !w.g.parked && w.g.committed == 1 && w.g.ack == 1 && |w.d.arrived| == 4 && w.d.floor == 2
    requires w.d.arrived[..2] == [Numbered(DM, 1), Numbered(SETTLEMENT, 2)]
    requires w.d.arrived[2] == Numbered(OTHER, 3) && w.d.arrived[3] == Numbered(OTHER, 4)
    ensures var w' := Step(DEMO, w, Run(REACHED_ENV));
            && w'.g == Aged(w.g).(committed := 2, parked := false, retrying := false)
            && w'.d == w.d
  {
    PolledEvent(w.d, w.g.ack, PollOk);
    PrunesTo(w);
    WaitingIsInArrived(w.d.arrived, 2);
    assert forall e :: e in w.d.arrived ==> e in w.d.arrived[..2] || e == w.d.arrived[2] || e == w.d.arrived[3];
    assert Head(w.g, w.d).None?;
    hide PollOne;
    hide Tick;
    hide AgeOut;
    var d := TickIs(DEMO, w.g, w.d, REACHED_ENV);
  }

  /** A charge answered and still waiting, behind a queue that holds nothing wanted. */
  ghost predicate Adrift(w: World) {
    && !w.g.parked && w.g.committed == 2 && w.g.ack == 1
    && CHARGE_ID in w.g.pending && w.g.pending[CHARGE_ID].amountSats == 10 && w.g.pending[CHARGE_ID].issuedSeq == 1
    && Spent(w.d.log, CHARGE_ID) && DmKey(3) !in w.d.recorded && w.d.floor == 2 && LastSeq(w.d.arrived) == 4
    && forall e :: e in w.d.arrived && e.inboxSeq > 2 ==> !Wanted(e)
  }

  /** A second settlement of the same charge is answered again. */
  lemma AnswersOnceMore(w: World)
    requires Inv(DEMO, w) && Adrift(w)
    ensures var w' := StepBounded(DEMO, 2, StepBounded(DEMO, 2, w, Arrive(SETTLEMENT, 0)), Run(REACHED_ENV));
            !OneAnswerPerArming(w'.d.log)
  {
    hide *;
    StepBoundedKeeps(DEMO, 2, w, Arrive(SETTLEMENT, 0));
    PaidAgain(w);
    var w1 := StepBounded(DEMO, 2, w, Arrive(SETTLEMENT, 0));
    RunIsUnbounded(w1, REACHED_ENV);
    AnswersSpentCharge(w1);
  }

  lemma PaidAgain(w: World)
    requires Inv(DEMO, w) && Adrift(w)
    ensures var w1 := StepBounded(DEMO, 2, w, Arrive(SETTLEMENT, 0));
            && Holding(DEMO, w1.g, w1.d, CHARGE_ID) && Spent(w1.d.log, CHARGE_ID)
            && DmKey(w1.g.committed + 1) !in w1.d.recorded
  {
    var w1 := StepBounded(DEMO, 2, w, Arrive(SETTLEMENT, 0));
    StepBoundedKeeps(DEMO, 2, w, Arrive(SETTLEMENT, 0));
    var paid := Numbered(SETTLEMENT, 5);
    GrowingOf(DEMO, w);
    GrowingOf(DEMO, w1);
    hide Inv;
    EvictRaises(w.d, 2);
    EvictBelow(w.d, 2);
    hide Queue;
    hide Evict;
    hide Spent;
    assert w1 == w.(d := Evict(w.d, 2).(arrived := w.d.arrived + [paid]));
    assert paid in w1.d.arrived;
    hide Growing;
    hide LastSeq;
    hide StepBounded;
    HeadIsLeast(w1.g, w1.d, paid);
    hide PollOne;
    assert DEMO.decodeSettled(paid.payload) == Some(Settled(CHARGE_ID, 10));
  }

  lemma EvictBelow(d: Daemon, cap: nat)
    requires cap >= 1 && Growing(d.arrived)
    ensures Evict(d, cap).floor <= Max(d.floor, LastSeq(d.arrived))
  {
    QueueIs(d.arrived, d.floor);
    var q := Queue(d.arrived, d.floor);
    hide Queue;
    if |q| >= cap {
      assert q[|q| - cap] in q;
      ArrivedBounded(d.arrived, q[|q| - cap]);
    }
  }

  lemma AnswersSpentCharge(w: World)
    requires Inv(DEMO, w) && Holding(DEMO, w.g, w.d, CHARGE_ID) && Spent(w.d.log, CHARGE_ID)
    requires DmKey(w.g.committed + 1) !in w.d.recorded
    ensures !OneAnswerPerArming(Step(DEMO, w, Run(REACHED_ENV)).d.log)
  {
    hide *;
    var log' := Step(DEMO, w, Run(REACHED_ENV)).d.log;
    ReachedPublishes();
    StepAnswersIff(DEMO, w, Run(REACHED_ENV), CHARGE_ID);
    StepAnswersArePaid(DEMO, w, Run(REACHED_ENV));
    SpentAnswerBreaks(w.d.log, log', CHARGE_ID);
  }

  lemma ReachedPublishes()
    ensures REACHED_ENV.poll.PollOk? && Publishes(REACHED_ENV.dm)
  {
  }

  lemma SpentAnswerBreaks(log: seq<Obs>, log': seq<Obs>, c: Str)
    requires Answered(log, log', c) && Spent(log, c)
    requires forall o :: o in Added(log, log') && IsAttestation(o) ==> log' == log + [o]
    ensures !OneAnswerPerArming(log')
  {
    var o :| o in Added(log, log') && IsAttestation(o) && o.text.answer.chargeId == c;
    SpentIsNotAwaiting(log, c);
    hide Spent;
    hide Awaiting;
    assert log'[..|log|] == log && log'[|log|] == o;
  }

  lemma BoundedSnoc(cfg: Codec, cap: nat, inputs: seq<Input>, input: Input)
    requires cap >= 1
    ensures AfterBounded(cfg, cap, inputs + [input]) == StepBounded(cfg, cap, AfterBounded(cfg, cap, inputs), input)
  {
    hide StepBounded;
    assert (inputs + [input])[..|inputs|] == inputs;
  }

  /** A concrete run with a queue of two in which every poll succeeds and yet one arming is answered twice: the event
      under retry is dropped, the next poll finds nothing, and a second settlement of the charge arrives. */
  lemma SomeDropAnswersTwice() returns (inputs: seq<Input>)
    ensures forall input :: input in inputs && input.Run? ==> input.env.poll.PollOk?
    ensures !OneAnswerPerArming(AfterBounded(DEMO, 2, inputs).d.log)
  {
    var i3 := DemoPays();
    DemoFits(i3);
    BoundedInv(DEMO, 2, i3);
    var i4 := i3 + [Run(LOSING)];
    var i6 := i4 + [Arrive(OTHER, 0)] + [Arrive(OTHER, 0)];
    var i7 := i6 + [Run(REACHED_ENV)];
    inputs := i7 + [Arrive(SETTLEMENT, 0)] + [Run(REACHED_ENV)];
    BoundedInv(DEMO, 2, i7);
    hide *;
    BoundedSnoc(DEMO, 2, i3, Run(LOSING));
    BoundedSnoc(DEMO, 2, i4, Arrive(OTHER, 0));
    BoundedSnoc(DEMO, 2, i4 + [Arrive(OTHER, 0)], Arrive(OTHER, 0));
    BoundedSnoc(DEMO, 2, i6, Run(REACHED_ENV));
    BoundedSnoc(DEMO, 2, i7, Arrive(SETTLEMENT, 0));
    BoundedSnoc(DEMO, 2, i7 + [Arrive(SETTLEMENT, 0)], Run(REACHED_ENV));
    LosesReply(AfterBounded(DEMO, 2, i3));
    RunIsUnbounded(AfterBounded(DEMO, 2, i3), LOSING);
    PushedOut(AfterBounded(DEMO, 2, i4));
    RunIsUnbounded(AfterBounded(DEMO, 2, i6), REACHED_ENV);
    SecondChance(AfterBounded(DEMO, 2, i4), AfterBounded(DEMO, 2, i6));
    AnswersOnceMore(AfterBounded(DEMO, 2, i7));
    AllPollsWell(inputs);
  }

  lemma RunIsUnbounded(w: World, env: TickEnv)
    ensures StepBounded(DEMO, 2, w, Run(env)) == Step(DEMO, w, Run(env))
  {
    hide Step;
  }

  lemma SecondChance(w: World, w': World)
    requires Unheard(w) && w'.g == w.g && w'.d.log == w.d.log && w'.d.recorded == w.d.recorded && w'.d.floor == 2
    requires w'.d.arrived == w.d.arrived + [Numbered(OTHER, 3)] + [Numbered(OTHER, 4)]
    ensures Adrift(Step(DEMO, w', Run(REACHED_ENV)))
  {
    hide Spent;
    assert w'.d.arrived[..2] == w.d.arrived;
    FindsNothing(w');
    hide Step;
  }

  /** The first three inputs fit a queue of two. */
  lemma DemoFits(i3: seq<Input>)
    requires i3 == [Arrive(DM, 0), Run(ARMING), Arrive(SETTLEMENT, 0)]
    ensures AfterBounded(DEMO, 2, i3) == After(DEMO, INITIAL_WORLD, i3)
  {
    hide Iterate;
    assert i3[..0] == [] && i3[..2] == [Arrive(DM, 0)] + [Run(ARMING)];
    DemoFitsFirst(StepBounded(DEMO, 2, INITIAL_WORLD, Arrive(DM, 0)));
    hide StepBounded;
    BoundedSnoc(DEMO, 2, [], Arrive(DM, 0));
    BoundedSnoc(DEMO, 2, [Arrive(DM, 0)], Run(ARMING));
    assert [] + [Arrive(DM, 0)] == [Arrive(DM, 0)];
    hide AfterBounded;
    NeverFullIsUnbounded(DEMO, 2, i3);
  }

  lemma DemoFitsFirst(w: World)
    requires w == StepBounded(DEMO, 2, INITIAL_WORLD, Arrive(DM, 0))
    ensures !Full(INITIAL_WORLD.d, 2) && !Full(StepBounded(DEMO, 2, w, Run(ARMING)).d, 2)
  {
    hide Iterate;
    assert w.d.arrived == [Numbered(DM, 1)] && !w.g.parked;
    TickFrame(DEMO, w, ARMING);
    hide PollOne;
    assert |Queue(w.d.arrived, Step(DEMO, w, Run(ARMING)).d.floor)| <= 1;
  }

  lemma AllPollsWell(inputs: seq<Input>)
    requires inputs == [Arrive(DM, 0), Run(ARMING), Arrive(SETTLEMENT, 0)] + [Run(LOSING)]
                       + [Arrive(OTHER, 0)] + [Arrive(OTHER, 0)] + [Run(REACHED_ENV)]
                       + [Arrive(SETTLEMENT, 0)] + [Run(REACHED_ENV)]
    ensures forall input :: input in inputs && input.Run? ==> input.env.poll.PollOk?
  {
  }
}
