/** One payment, one answer: exactly when a settlement event pays for a second attestation, in any run, and why in
    a steady run it never does, reboots included. */
module OraclePayments {
  import opened Bytes
  import opened OracleModel
  import opened OracleSafety
  import opened OracleAnswers
  import opened OracleAtMostOnce
  import opened OracleSecondAnswer

  // ---- A settlement event that has bought its answer ----

  /** The event the next tick of `w` polls. */
  function Polled(w: World, env: TickEnv): Option<Event> {
    PollOne(w.d, w.g.ack, env.poll).1
  }

  ghost predicate Delivers(log: seq<Obs>, log': seq<Obs>) {
    log <= log' && exists o :: o in Added(log, log') && IsAttestation(o)
  }

  /** No wanted event the daemon still holds is older than `e`. */
  ghost predicate OldestHeld(d: Daemon, e: Event) {
    forall f :: f in d.arrived && Wanted(f) && f.inboxSeq > d.floor ==> e.inboxSeq <= f.inboxSeq
  }

  /** The charge that `e` settles has been answered since it was last armed. */
  ghost predicate SpentBy(cfg: Codec, log: seq<Obs>, e: Event) {
    SettledCharge(cfg, e).Some? && Spent(log, SettledCharge(cfg, e).value)
  }

  /** `e` can buy no first answer: the daemon has pruned it; or it is the oldest event held, and the cursor is
      past it, or nothing waits to be paid, or its charge has been answered. */
  ghost predicate UsedUp(cfg: Codec, w: World, e: Event) {
    && e in w.d.arrived && e.kind == PaymentSettled
    && (|| e.inboxSeq <= w.d.floor
        || (OldestHeld(w.d, e) &&
            (w.g.ack >= e.inboxSeq || w.g.pending == map[] || SpentBy(cfg, w.d.log, e))))
  }

  lemma SameNumber(arrived: seq<Event>, e: Event, f: Event)
    requires Growing(arrived) && e in arrived && f in arrived && e.inboxSeq == f.inboxSeq
    ensures e == f
  {
  }

  /** Handling a settlement with nothing waiting, or of a spent charge, moves past it or leaves its charge
      spent. */
  lemma UsedSettle(cfg: Codec, g: Genome, d: Daemon, seqNo: nat, e: Event, env: TickEnv)
    requires e.kind == PaymentSettled && CachesMatch(g.pending)
    requires g.pending == map[] || SpentBy(cfg, d.log, e)
    ensures var r := SettleTick(cfg, g, d, seqNo, e, env);
            (r.g.ack == e.inboxSeq && r.outcome.Lived?) || SpentBy(cfg, r.d.log, e)
  {
    if SettledCharge(cfg, e).Some? && Settles(cfg, e, SettledCharge(cfg, e).value, g.pending) {
      var c := SettledCharge(cfg, e).value;
      var a := SettledShape(cfg, g, d, seqNo, e, c, env);
      SpentAppend(d.log, Delivered(seqNo, g.pending[c].sender, Attestation(a)), c);
      hide SettleTick;
    } else {
      UnsettledShape(cfg, g, d, seqNo, e, env);
      hide SettleTick;
    }
  }

  /** The oldest held event is what a poll past the mark serves. */
  lemma HeadIsOldest(w: World, e: Event)
    requires Growing(w.d.arrived) && e in w.d.arrived && e.kind == PaymentSettled
    requires OldestHeld(w.d, e) && e.inboxSeq > Max(w.d.floor, w.g.ack)
    ensures Head(w.g, w.d) == Some(e)
  {
    PolledEvent(w.d, w.g.ack, PollOk);
    WaitingIsInArrived(w.d.arrived, Max(w.d.floor, w.g.ack));
    assert e in Waiting(w.d.arrived, Max(w.d.floor, w.g.ack));
    var f := Head(w.g, w.d).value;
    assert f.inboxSeq == e.inboxSeq;
    SameNumber(w.d.arrived, e, f);
  }

  /** What a tick leaves in place whatever it does. */
  lemma TickFrame(cfg: Codec, w: World, env: TickEnv)
    requires !w.g.parked
    ensures var w' := Step(cfg, w, Run(env));
            && w'.d.arrived == w.d.arrived && w.d.floor <= w'.d.floor
            && w'.d.floor == PollOne(w.d, w.g.ack, env.poll).0.floor
            && (!env.poll.PollOk? ==> w'.g.ack == w.g.ack && w'.g.pending == Aged(w.g).pending && w'.d.log == w.d.log)
  {
    hide HandleEvent;
    hide Tick;
    hide Oldest;
    hide Waiting;
    var d := TickIs(cfg, w.g, w.d, env);
    if env.poll.PollOk? && Head(w.g, w.d).Some? {
      HandleFrame(cfg, Aged(w.g), d, w.g.committed + 1, Head(w.g, w.d).value, env);
    }
  }

  lemma HandleFrame(cfg: Codec, g: Genome, d: Daemon, seqNo: nat, ev: Event, env: TickEnv)
    ensures var r := HandleEvent(cfg, g, d, seqNo, ev, env); r.d.arrived == d.arrived && r.d.floor == d.floor
  {
    if ev.kind == PaymentSettled {
      hide DmTick;
      if SettledCharge(cfg, ev).Some? {
        BuildAnswerShape(cfg, d, seqNo, SettledCharge(cfg, ev).value, env);
      }
      hide BuildAnswer;
    } else {
      hide SettleTick;
    }
  }

  lemma UsedTick(cfg: Codec, w: World, env: TickEnv, e: Event)
    requires Inv(cfg, w) && UsedUp(cfg, w, e) && !w.g.parked
    ensures UsedUp(cfg, Step(cfg, w, Run(env)), e)
  {
    hide Tick;
    hide SettleTick;
    hide DmTick;
    hide Oldest;
    hide Waiting;
    hide PendingOk;
    hide DaemonOk;
    hide AgeOut;
    hide SpentBy;
    TickFrame(cfg, w, env);
    InvParts(cfg, w);
    PolledEvent(w.d, w.g.ack, env.poll);
    var w' := Step(cfg, w, Run(env));
    if e.inboxSeq > Max(w.d.floor, w.g.ack) {
      UsedHead(cfg, w, env, e);
    } else if e.inboxSeq > w.d.floor {
      assert OldestHeld(w'.d, e);
    }
  }

  /** The case that matters: the event is still ahead of the cursor. */
  lemma UsedHead(cfg: Codec, w: World, env: TickEnv, e: Event)
    requires Inv(cfg, w) && UsedUp(cfg, w, e) && !w.g.parked
    requires e.inboxSeq > Max(w.d.floor, w.g.ack)
    ensures UsedUp(cfg, Step(cfg, w, Run(env)), e)
  {
    hide Iterate;
    hide PollOne;
    hide PendingOk;
    hide DaemonOk;
    hide AgeOut;
    hide SpentBy;
    TickFrame(cfg, w, env);
    InvParts(cfg, w);
    AgedOk(w.g, w.d);
    GrowingOf(cfg, w);
    hide Inv;
    HeadIsOldest(w, e);
    NothingAges(w.g);
    var w' := Step(cfg, w, Run(env));
    assert OldestHeld(w'.d, e);
    if env.poll.PollOk? {
      UsedHandled(cfg, w, env, e);
    }
  }

  /** The used-up head is handled. */
  lemma UsedHandled(cfg: Codec, w: World, env: TickEnv, e: Event)
    requires e.kind == PaymentSettled && CachesMatch(Aged(w.g).pending) && !w.g.parked
    requires env.poll.PollOk? && Head(w.g, w.d) == Some(e)
    requires Aged(w.g).pending == map[] || SpentBy(cfg, w.d.log, e)
    ensures var w' := Step(cfg, w, Run(env)); w'.g.ack == e.inboxSeq || SpentBy(cfg, w'.d.log, e)
  {
    hide PollOne;
    hide Tick;
    hide SettleTick;
    hide AgeOut;
    hide SpentBy;
    var d := TickIs(cfg, w.g, w.d, env);
    UsedSettle(cfg, Aged(w.g), d, w.g.committed + 1, e, env);
  }

  lemma NothingAges(g: Genome)
    ensures g.pending == map[] ==> Aged(g).pending == map[]
  {
  }

  lemma GrowingOf(cfg: Codec, w: World)
    requires Inv(cfg, w)
    ensures Growing(w.d.arrived)
  {
  }

  lemma UsedStep(cfg: Codec, w: World, input: Input, e: Event)
    requires Inv(cfg, w) && UsedUp(cfg, w, e)
    ensures UsedUp(cfg, Step(cfg, w, input), e)
  {
    hide *;
    match input
    case Run(env) =>
      if w.g.parked {
        ParkedStep(cfg, w, env);
      } else {
        UsedTick(cfg, w, env, e);
      }
    case Reboot => UsedReboot(cfg, w, e);
    case Arrive(ev, gap) => UsedArrival(cfg, w, ev, gap, e);
  }

  lemma UsedReboot(cfg: Codec, w: World, e: Event)
    requires UsedUp(cfg, w, e)
    ensures UsedUp(cfg, Step(cfg, w, Reboot), e)
  {
  }

  lemma UsedArrival(cfg: Codec, w: World, ev: Event, gap: nat, e: Event)
    requires Inv(cfg, w) && UsedUp(cfg, w, e)
    ensures UsedUp(cfg, Step(cfg, w, Arrive(ev, gap)), e)
  {
    var w' := Step(cfg, w, Arrive(ev, gap));
    var arriving := ev.(inboxSeq := LastSeq(w.d.arrived) + 1 + gap);
    assert w' == w.(d := w.d.(arrived := w.d.arrived + [arriving]));
    StepKeeps(cfg, w, Arrive(ev, gap));
    hide Step;
    GrowingOf(cfg, w');
    hide Inv;
    hide Growing;
    if OldestHeld(w.d, e) {
      OldestOnArrival(w.d, arriving, e);
    }
    hide OldestHeld;
  }

  lemma OldestOnArrival(d: Daemon, ev: Event, e: Event)
    requires Growing(d.arrived + [ev]) && e in d.arrived && OldestHeld(d, e)
    ensures OldestHeld(d.(arrived := d.arrived + [ev]), e)
  {
    var i :| 0 <= i < |d.arrived| && d.arrived[i] == e;
    var arrived := d.arrived + [ev];
    assert arrived[i] == e && arrived[|d.arrived|] == ev;
  }

  /** A delivering tick polled the settlement of a held charge and answered that charge. */
  lemma DeliveryPolled(cfg: Codec, w: World, env: TickEnv) returns (c: Str)
    requires Inv(cfg, w) && Delivers(w.d.log, Step(cfg, w, Run(env)).d.log)
    ensures Holding(cfg, w.g, w.d, c) && Answered(w.d.log, Step(cfg, w, Run(env)).d.log, c)
    ensures env.poll.PollOk? && Publishes(env.dm) && DmKey(w.g.committed + 1) !in w.d.recorded
    ensures Polled(w, env) == Head(w.g, w.d)
  {
    hide *;
    c := DeliversAnswers(w.d.log, Step(cfg, w, Run(env)).d.log);
    StepAnswersIff(cfg, w, Run(env), c);
    PolledIs(w, env);
  }

  lemma PolledIs(w: World, env: TickEnv)
    ensures Polled(w, env) == if env.poll.PollOk? then Head(w.g, w.d) else None
  {
    PolledIsHead(w.g, w.d, env.poll);
  }

  lemma DeliversAnswers(log: seq<Obs>, log': seq<Obs>) returns (c: Str)
    requires Delivers(log, log')
    ensures Answered(log, log', c)
  {
    var o :| o in Added(log, log') && IsAttestation(o);
    c := o.text.answer.chargeId;
  }

  lemma AnswersDeliver(log: seq<Obs>, log': seq<Obs>, c: Str)
    requires Answered(log, log', c)
    ensures Delivers(log, log')
  {
  }

  lemma HeldParts(cfg: Codec, g: Genome, d: Daemon, c: Str)
    requires PendingOk(g.pending, d.log, g.committed) && Holding(cfg, g, d, c)
    ensures Head(g, d).Some? && Settles(cfg, Head(g, d).value, c, Aged(g).pending) && CachesMatch(Aged(g).pending)
              && !g.parked
  {
    hide PollOne;
    AgedOk(g, d);
  }

  /** The settlement that has just bought an answer is used up. */
  lemma BuysOnce(cfg: Codec, w: World, env: TickEnv) returns (e: Event)
    requires Inv(cfg, w) && Delivers(w.d.log, Step(cfg, w, Run(env)).d.log)
    ensures Polled(w, env) == Some(e) && UsedUp(cfg, Step(cfg, w, Run(env)), e)
  {
    hide *;
    var c := DeliveryPolled(cfg, w, env);
    InvParts(cfg, w);
    HeldParts(cfg, w.g, w.d, c);
    e := Head(w.g, w.d).value;
    SettlesCharge(cfg, e, c, Aged(w.g).pending);
    PolledIsOldest(cfg, w, env, e);
    StepAnswersArePaid(cfg, w, Run(env));
    AnswerSpends(w.d.log, Step(cfg, w, Run(env)).d.log, c);
    MakesUsed(cfg, Step(cfg, w, Run(env)), e);
  }

  lemma SettlesCharge(cfg: Codec, e: Event, c: Str, pending: map<Str, PendingCharge>)
    requires Settles(cfg, e, c, pending)
    ensures e.kind == PaymentSettled && SettledCharge(cfg, e) == Some(c) && c in pending
  {
  }

  lemma AnswerSpends(log: seq<Obs>, log': seq<Obs>, c: Str)
    requires Answered(log, log', c)
    requires forall o :: o in Added(log, log') && IsAttestation(o) ==> log' == log + [o]
    ensures Spent(log', c)
  {
    var o :| o in Added(log, log') && IsAttestation(o) && o.text.answer.chargeId == c;
    SpentAppend(log, o, c);
  }

  lemma MakesUsed(cfg: Codec, w: World, e: Event)
    requires e in w.d.arrived && e.kind == PaymentSettled && OldestHeld(w.d, e) && SettledCharge(cfg, e).Some?
    requires Spent(w.d.log, SettledCharge(cfg, e).value)
    ensures UsedUp(cfg, w, e)
  {
  }

  /** A poll prunes up to its cursor, so what it serves is the oldest event held after it. */
  lemma PolledIsOldest(cfg: Codec, w: World, env: TickEnv, e: Event)
    requires Polled(w, env) == Some(e) && !w.g.parked
    ensures var w' := Step(cfg, w, Run(env)); e in w'.d.arrived && OldestHeld(w'.d, e)
  {
    TickFrame(cfg, w, env);
    PolledEvent(w.d, w.g.ack, env.poll);
    hide Iterate;
    hide Oldest;
    hide Waiting;
  }

  lemma {:induction false} UsedStays(cfg: Codec, inputs: seq<Input>, k: nat, n: nat, e: Event)
    requires k <= n <= |inputs| && UsedUp(cfg, After(cfg, INITIAL_WORLD, inputs[..k]), e)
    ensures UsedUp(cfg, After(cfg, INITIAL_WORLD, inputs[..n]), e)
    decreases n - k
  {
    hide Step;
    hide UsedUp;
    if k < n {
      assert inputs[..n][..n - 1] == inputs[..n - 1];
      UsedStays(cfg, inputs, k, n - 1, e);
      ReachableInv(cfg, inputs[..n - 1]);
      UsedStep(cfg, After(cfg, INITIAL_WORLD, inputs[..n - 1]), inputs[n - 1], e);
    }
  }

  /** A used-up event that is polled by a delivering tick is the settlement of a spent charge. */
  lemma UsedBuysAgain(cfg: Codec, w: World, env: TickEnv, e: Event) returns (c: Str)
    requires Inv(cfg, w) && UsedUp(cfg, w, e) && Polled(w, env) == Some(e)
    requires Delivers(w.d.log, Step(cfg, w, Run(env)).d.log)
    ensures Holding(cfg, w.g, w.d, c) && Spent(w.d.log, c)
    ensures env.poll.PollOk? && Publishes(env.dm) && DmKey(w.g.committed + 1) !in w.d.recorded
  {
    hide *;
    c := DeliveryPolled(cfg, w, env);
    InvParts(cfg, w);
    HeldParts(cfg, w.g, w.d, c);
    SettlesCharge(cfg, e, c, Aged(w.g).pending);
    AgedSubset(w.g);
    PolledPastMark(w, env, e);
    UsedIsSpent(cfg, w, e, c);
  }

  lemma PolledPastMark(w: World, env: TickEnv, e: Event)
    requires Polled(w, env) == Some(e)
    ensures e.inboxSeq > w.d.floor && e.inboxSeq > w.g.ack
  {
    PolledEvent(w.d, w.g.ack, env.poll);
  }

  lemma UsedIsSpent(cfg: Codec, w: World, e: Event, c: Str)
    requires UsedUp(cfg, w, e) && e.inboxSeq > w.d.floor && e.inboxSeq > w.g.ack
    requires c in w.g.pending && SettledCharge(cfg, e) == Some(c)
    ensures Spent(w.d.log, c)
  {
  }

  // ---- A spent charge still waiting was paid by the head of the inbox ----

  /** Input `k` of the run delivers an attestation. */
  ghost predicate DeliversAt(cfg: Codec, inputs: seq<Input>, k: nat) {
    && k < |inputs| && inputs[k].Run?
    && Delivers(After(cfg, INITIAL_WORLD, inputs[..k]).d.log, After(cfg, INITIAL_WORLD, inputs[..k + 1]).d.log)
  }

  /** Input `k` of the run delivers an attestation, for the settlement `e`. */
  ghost predicate PaysAt(cfg: Codec, inputs: seq<Input>, k: nat, e: Event) {
    DeliversAt(cfg, inputs, k) && Polled(After(cfg, INITIAL_WORLD, inputs[..k]), inputs[k].env) == Some(e)
  }

  lemma DeliveringStep(cfg: Codec, inputs: seq<Input>, k: nat)
    requires k < |inputs|
    ensures var w := After(cfg, INITIAL_WORLD, inputs[..k]);
            && Inv(cfg, w)
            && After(cfg, INITIAL_WORLD, inputs[..k + 1]) == Step(cfg, w, inputs[k])
            && (DeliversAt(cfg, inputs, k) <==> inputs[k].Run? && Delivers(w.d.log, Step(cfg, w, inputs[k]).d.log))
  {
    hide Step;
    hide Delivers;
    ReachableInv(cfg, inputs[..k]);
    hide Inv;
    assert inputs[..k + 1][..k] == inputs[..k];
  }

  /** A held charge that still waits after a tick is held by the same event. */
  lemma HeldHead(cfg: Codec, w: World, env: TickEnv, c: Str)
    requires Inv(cfg, w) && Holding(cfg, w.g, w.d, c)
    ensures var w' := Step(cfg, w, Run(env));
            Released(w'.g, c) || (Holding(cfg, w'.g, w'.d, c) && Head(w'.g, w'.d) == Head(w.g, w.d))
  {
    hide Iterate;
    hide PollOne;
    hide PendingOk;
    hide DaemonOk;
    hide Released;
    InvParts(cfg, w);
    var w' := Step(cfg, w, Run(env));
    if env.poll.PollErr? {
      SoftTick(cfg, w.g, w.d, env, c);
    } else {
      HeldTick(cfg, w.g, w.d, env, c);
    }
  }

  /** Which charges a step leaves spent and waiting: those that were so before and those it has just answered. */
  lemma SpentFrom(cfg: Codec, w: World, env: TickEnv, c: Str)
    requires Inv(cfg, w) && !w.g.parked
    requires var w' := Step(cfg, w, Run(env)); c in Aged(w'.g).pending && Spent(w'.d.log, c)
    ensures (c in Aged(w.g).pending && Spent(w.d.log, c)) || Answered(w.d.log, Step(cfg, w, Run(env)).d.log, c)
  {
    hide Tick;
    hide PollOne;
    hide HandleEvent;
    hide Spent;
    InvParts(cfg, w);
    AgedOk(w.g, w.d);
    hide PendingOk;
    var r := Tick(cfg, w.g, w.d, w.g.committed + 1, env);
    var d := TickIs(cfg, w.g, w.d, env);
    if env.poll.PollOk? && Head(w.g, w.d).Some? {
      HandleSpent(cfg, Aged(w.g), d, w.g.committed + 1, Head(w.g, w.d).value, env);
    }
    AgedSubset(Commit(w.g, r));
    hide AgeOut;
    if o :| r.d.log == w.d.log + [o] && IsAttestation(o) && o.text.answer.chargeId == c {
      assert Added(w.d.log, r.d.log) == [o];
      assert o in Added(w.d.log, r.d.log);
    }
  }

  /** The head of the inbox holds `c` and is an event that input `k` of the run delivered an answer for. */
  ghost predicate HeldAsPaid(cfg: Codec, inputs: seq<Input>, n: nat, c: Str, k: nat)
    requires n <= |inputs|
  {
    var w := After(cfg, INITIAL_WORLD, inputs[..n]);
    k < n && Holding(cfg, w.g, w.d, c) && PaysAt(cfg, inputs, k, Head(w.g, w.d).value)
  }

  /** After `n` inputs, `c` has been answered since it was armed and still waits. */
  ghost predicate SpentAt(cfg: Codec, inputs: seq<Input>, n: nat, c: Str)
    requires n <= |inputs|
  {
    var w := After(cfg, INITIAL_WORLD, inputs[..n]); c in Aged(w.g).pending && Spent(w.d.log, c)
  }

  lemma {:induction false} SpentWasPaid(cfg: Codec, inputs: seq<Input>, n: nat, c: Str) returns (k: nat)
    requires n <= |inputs| && SpentAt(cfg, inputs, n, c)
    ensures HeldAsPaid(cfg, inputs, n, c, k)
  {
    if n == 0 {
      NothingSpentAtFirst(cfg, inputs, c);
    } else {
      hide *;
      SpentStep(cfg, inputs, n - 1, c);
      if HeldAsPaid(cfg, inputs, n, c, n - 1) {
        k := n - 1;
      } else {
        k := SpentWasPaid(cfg, inputs, n - 1, c);
      }
    }
  }

  lemma NothingSpentAtFirst(cfg: Codec, inputs: seq<Input>, c: Str)
    ensures !SpentAt(cfg, inputs, 0, c)
  {
    assert After(cfg, INITIAL_WORLD, inputs[..0]) == INITIAL_WORLD;
  }

  /** A charge that an input leaves spent and waiting was so before, held by the same event, or has just been
      answered. */
  lemma SpentStep(cfg: Codec, inputs: seq<Input>, n: nat, c: Str)
    requires n < |inputs| && SpentAt(cfg, inputs, n + 1, c)
    ensures HeldAsPaid(cfg, inputs, n + 1, c, n) ||
            (SpentAt(cfg, inputs, n, c) &&
             forall k: nat :: HeldAsPaid(cfg, inputs, n, c, k) ==> HeldAsPaid(cfg, inputs, n + 1, c, k))
  {
    var w, input := After(cfg, INITIAL_WORLD, inputs[..n]), inputs[n];
    DeliveringStep(cfg, inputs, n);
    hide After;
    hide HeldAsPaid;
    hide Inv;
    hide Step;
    hide Spent;
    hide AgeOut;
    hide Answered;
    match input
    case Reboot => RebootForgets(cfg, w, c);
    case Arrive(ev, gap) =>
      ArrivalSpends(cfg, w, ev, gap);
      forall k: nat | HeldAsPaid(cfg, inputs, n, c, k) ensures HeldAsPaid(cfg, inputs, n + 1, c, k) {
        ArrivalHolds(cfg, inputs, n + 1, c, k);
      }
    case Run(env) =>
      RunSpentStep(cfg, inputs, n, env, c);
  }

  lemma RunSpentStep(cfg: Codec, inputs: seq<Input>, n: nat, env: TickEnv, c: Str)
    requires n < |inputs| && SpentAt(cfg, inputs, n + 1, c) && inputs[n] == Run(env)
    ensures HeldAsPaid(cfg, inputs, n + 1, c, n) ||
            (SpentAt(cfg, inputs, n, c) &&
             forall k: nat :: HeldAsPaid(cfg, inputs, n, c, k) ==> HeldAsPaid(cfg, inputs, n + 1, c, k))
  {
    var w := After(cfg, INITIAL_WORLD, inputs[..n]);
    DeliveringStep(cfg, inputs, n);
    hide After;
    hide HeldAsPaid;
    hide Inv;
    hide Step;
    hide Spent;
    hide AgeOut;
    hide Answered;
    if w.g.parked {
      ParkedStep(cfg, w, env);
      ParkedHoldsNothing(cfg, inputs, n, c);
    } else {
      SpentFrom(cfg, w, env, c);
      if Answered(w.d.log, After(cfg, INITIAL_WORLD, inputs[..n + 1]).d.log, c) {
        NotReleased(After(cfg, INITIAL_WORLD, inputs[..n + 1]).g, c);
        AnsweredHolds(cfg, inputs, n, env, c);
      } else {
        forall k: nat | HeldAsPaid(cfg, inputs, n, c, k) ensures HeldAsPaid(cfg, inputs, n + 1, c, k) {
          RunHolds(cfg, inputs, n + 1, env, c, k);
        }
      }
    }
  }

  lemma RebootForgets(cfg: Codec, w: World, c: Str)
    ensures c !in Aged(Step(cfg, w, Reboot).g).pending
  {
  }

  lemma ArrivalSpends(cfg: Codec, w: World, ev: Event, gap: nat)
    ensures var w' := Step(cfg, w, Arrive(ev, gap)); w'.g == w.g && w'.d.log == w.d.log
  {
  }

  lemma ArrivalHolds(cfg: Codec, inputs: seq<Input>, n: nat, c: Str, k: nat)
    requires 0 < n <= |inputs| && HeldAsPaid(cfg, inputs, n - 1, c, k) && inputs[n - 1].Arrive?
    ensures HeldAsPaid(cfg, inputs, n, c, k)
  {
    hide PollOne;
    hide AgeOut;
    hide PaysAt;
    hide Settles;
    DeliveringStep(cfg, inputs, n - 1);
    var w := After(cfg, INITIAL_WORLD, inputs[..n - 1]);
    var ev, gap := inputs[n - 1].ev, inputs[n - 1].gap;
    StepKeeps(cfg, w, inputs[n - 1]);
    hide After;
    GrowingOf(cfg, w);
    GrowingOf(cfg, Step(cfg, w, inputs[n - 1]));
    hide Inv;
    HeadKeepsOnArrival(w.g, w.d, Step(cfg, w, inputs[n - 1]).d, ev.(inboxSeq := LastSeq(w.d.arrived) + 1 + gap));
  }

  /** The same event still holds `c` one input later. */
  lemma StillHolds(cfg: Codec, inputs: seq<Input>, n: nat, c: Str, k: nat)
    requires 0 < n <= |inputs| && HeldAsPaid(cfg, inputs, n - 1, c, k)
    requires var w, w' := After(cfg, INITIAL_WORLD, inputs[..n - 1]), After(cfg, INITIAL_WORLD, inputs[..n]);
             Holding(cfg, w'.g, w'.d, c) && Head(w'.g, w'.d) == Head(w.g, w.d)
    ensures HeldAsPaid(cfg, inputs, n, c, k)
  {
    var w := After(cfg, INITIAL_WORLD, inputs[..n - 1]);
    HeldSome(cfg, w.g, w.d, c);
    hide Holding;
    hide PaysAt;
    hide After;
    hide PollOne;
  }

  lemma HeldAt(cfg: Codec, inputs: seq<Input>, n: nat, c: Str, k: nat)
    requires n <= |inputs| && HeldAsPaid(cfg, inputs, n, c, k)
    ensures var w := After(cfg, INITIAL_WORLD, inputs[..n]); Holding(cfg, w.g, w.d, c)
  {
    hide Holding;
    hide After;
  }

  lemma ParkedHoldsNothing(cfg: Codec, inputs: seq<Input>, n: nat, c: Str)
    requires n <= |inputs| && After(cfg, INITIAL_WORLD, inputs[..n]).g.parked
    ensures forall k: nat :: !HeldAsPaid(cfg, inputs, n, c, k)
  {
    hide After;
  }

  lemma RunHolds(cfg: Codec, inputs: seq<Input>, n: nat, env: TickEnv, c: Str, k: nat)
    requires 0 < n <= |inputs| && HeldAsPaid(cfg, inputs, n - 1, c, k) && inputs[n - 1] == Run(env)
    requires c in Aged(After(cfg, INITIAL_WORLD, inputs[..n]).g).pending
    ensures HeldAsPaid(cfg, inputs, n, c, k)
  {
    hide *;
    DeliveringStep(cfg, inputs, n - 1);
    HeldAt(cfg, inputs, n - 1, c, k);
    HeldHead(cfg, After(cfg, INITIAL_WORLD, inputs[..n - 1]), env, c);
    NotReleased(After(cfg, INITIAL_WORLD, inputs[..n]).g, c);
    StillHolds(cfg, inputs, n, c, k);
  }

  lemma NotReleased(g: Genome, c: Str)
    requires c in Aged(g).pending
    ensures !Released(g, c)
  {
  }

  lemma AnsweredHolds(cfg: Codec, inputs: seq<Input>, k: nat, env: TickEnv, c: Str)
    requires k < |inputs| && inputs[k] == Run(env)
    requires Answered(After(cfg, INITIAL_WORLD, inputs[..k]).d.log, After(cfg, INITIAL_WORLD, inputs[..k + 1]).d.log, c)
    requires !Released(After(cfg, INITIAL_WORLD, inputs[..k + 1]).g, c)
    ensures HeldAsPaid(cfg, inputs, k + 1, c, k)
  {
    var w := After(cfg, INITIAL_WORLD, inputs[..k]);
    hide *;
    DeliveringStep(cfg, inputs, k);
    AnsweredStays(cfg, w, env, c);
    var e := Head(w.g, w.d).value;
    PaysHere(cfg, inputs, k, e);
    HeldAsPaidBy(cfg, inputs, k + 1, c, k);
  }

  /** A charge that a tick answers and leaves waiting is still held by the same event. */
  lemma AnsweredStays(cfg: Codec, w: World, env: TickEnv, c: Str)
    requires Inv(cfg, w) && Answered(w.d.log, Step(cfg, w, Run(env)).d.log, c)
    requires !Released(Step(cfg, w, Run(env)).g, c)
    ensures var w' := Step(cfg, w, Run(env));
            && Delivers(w.d.log, w'.d.log) && env.poll.PollOk?
            && Holding(cfg, w'.g, w'.d, c) && Head(w'.g, w'.d) == Head(w.g, w.d) && Head(w.g, w.d).Some?
  {
    hide *;
    StepAnswersIff(cfg, w, Run(env), c);
    AnswersDeliver(w.d.log, Step(cfg, w, Run(env)).d.log, c);
    HeldHead(cfg, w, env, c);
    HeldSome(cfg, w.g, w.d, c);
  }

  lemma PaysHere(cfg: Codec, inputs: seq<Input>, k: nat, e: Event)
    requires DeliversAt(cfg, inputs, k) && inputs[k].env.poll.PollOk?
    requires var w := After(cfg, INITIAL_WORLD, inputs[..k]); Head(w.g, w.d) == Some(e)
    ensures PaysAt(cfg, inputs, k, e)
  {
    hide Delivers;
    hide After;
    PolledIs(After(cfg, INITIAL_WORLD, inputs[..k]), inputs[k].env);
    hide PollOne;
  }

  lemma HeldAsPaidBy(cfg: Codec, inputs: seq<Input>, n: nat, c: Str, k: nat)
    requires k < n <= |inputs|
    requires var w := After(cfg, INITIAL_WORLD, inputs[..n]);
             Holding(cfg, w.g, w.d, c) && Head(w.g, w.d).Some? && PaysAt(cfg, inputs, k, Head(w.g, w.d).value)
    ensures HeldAsPaid(cfg, inputs, n, c, k)
  {
    hide Holding;
    hide PaysAt;
    hide After;
  }

  lemma HeldSome(cfg: Codec, g: Genome, d: Daemon, c: Str)
    requires Holding(cfg, g, d, c)
    ensures Head(g, d).Some? && c in Aged(g).pending
  {
  }

  // ---- Main results ----

  /** Input `k` delivers an attestation for a settlement that an earlier input delivered one for. */
  ghost predicate PaysAgain(cfg: Codec, inputs: seq<Input>, k: nat) {
    exists j: nat, e :: j < k && PaysAt(cfg, inputs, j, e) && PaysAt(cfg, inputs, k, e)
  }

  /** In any run at all, steady or not, a tick answers on a settlement that was answered before exactly when it
      polls well while a charge answered since its arming is held, under a free key, and the daemon publishes:
      a payment buys twice in the very ticks in which an arming is answered twice. */
  lemma PaysAgainIff(cfg: Codec, inputs: seq<Input>, k: nat)
    ensures PaysAgain(cfg, inputs, k) <==> exists c: Str :: AnswersSpent(cfg, inputs, k, c)
  {
    hide *;
    if PaysAgain(cfg, inputs, k) {
      var j, e := FirstPays(cfg, inputs, k);
      var c := PaidTwice(cfg, inputs, j, k, e);
    }
    if c: Str :| AnswersSpent(cfg, inputs, k, c) {
      SpentPaysAgain(cfg, inputs, k, c);
    }
  }

  lemma FirstPays(cfg: Codec, inputs: seq<Input>, k: nat) returns (j: nat, e: Event)
    requires PaysAgain(cfg, inputs, k)
    ensures j < k && PaysAt(cfg, inputs, j, e) && PaysAt(cfg, inputs, k, e)
  {
    hide PaysAt;
    j, e :| j < k && PaysAt(cfg, inputs, j, e) && PaysAt(cfg, inputs, k, e);
  }

  lemma PaidTwice(cfg: Codec, inputs: seq<Input>, j: nat, k: nat, e: Event) returns (c: Str)
    requires j < k && PaysAt(cfg, inputs, j, e) && PaysAt(cfg, inputs, k, e)
    ensures AnswersSpent(cfg, inputs, k, c)
  {
    hide Step;
    hide After;
    hide Delivers;
    hide Polled;
    hide Holding;
    hide Inv;
    hide UsedUp;
    hide Spent;
    DeliveringStep(cfg, inputs, j);
    DeliveringStep(cfg, inputs, k);
    var f := BuysOnce(cfg, After(cfg, INITIAL_WORLD, inputs[..j]), inputs[j].env);
    UsedStays(cfg, inputs, j + 1, k, e);
    c := UsedBuysAgain(cfg, After(cfg, INITIAL_WORLD, inputs[..k]), inputs[k].env, e);
  }

  lemma SpentPaysAgain(cfg: Codec, inputs: seq<Input>, k: nat, c: Str)
    requires AnswersSpent(cfg, inputs, k, c)
    ensures PaysAgain(cfg, inputs, k)
  {
    var w := After(cfg, INITIAL_WORLD, inputs[..k]);
    var env := inputs[k].env;
    assert Spent(w.d.log, c) && Holding(cfg, w.g, w.d, c) && DmKey(w.g.committed + 1) !in w.d.recorded;
    assert k < |inputs| && inputs[k] == Run(env) && env.poll.PollOk? && Publishes(env.dm);
    hide *;
    HeldSome(cfg, w.g, w.d, c);
    MakesSpentAt(cfg, inputs, k, c);
    var e := Head(w.g, w.d).value;
    var j := SpentWasPaid(cfg, inputs, k, c);
    DeliveringStep(cfg, inputs, k);
    StepAnswersIff(cfg, w, inputs[k], c);
    AnswersDeliver(w.d.log, Step(cfg, w, inputs[k]).d.log, c);
    PaysHere(cfg, inputs, k, e);
    PaysAgainBy(cfg, inputs, k, c, j, e);
  }

  lemma MakesSpentAt(cfg: Codec, inputs: seq<Input>, n: nat, c: Str)
    requires n <= |inputs|
    requires var w := After(cfg, INITIAL_WORLD, inputs[..n]); c in Aged(w.g).pending && Spent(w.d.log, c)
    ensures SpentAt(cfg, inputs, n, c)
  {
  }

  lemma PaysAgainBy(cfg: Codec, inputs: seq<Input>, k: nat, c: Str, j: nat, e: Event)
    requires k < |inputs| && HeldAsPaid(cfg, inputs, k, c, j) && PaysAt(cfg, inputs, k, e)
    requires var w := After(cfg, INITIAL_WORLD, inputs[..k]); Head(w.g, w.d) == Some(e)
    ensures PaysAgain(cfg, inputs, k)
  {
    hide After;
    hide Holding;
    hide PaysAt;
  }

  /** In every steady run, lost responses, replays and reboots included, two ticks that deliver an attestation
      polled two different settlement events: one payment buys at most one answer. */
  lemma OneAnswerPerPayment(cfg: Codec, inputs: seq<Input>, k: nat, n: nat)
    requires Steady(cfg, INITIAL_WORLD, inputs) && k < n
    requires DeliversAt(cfg, inputs, k) && DeliversAt(cfg, inputs, n)
    ensures var before, after := After(cfg, INITIAL_WORLD, inputs[..k]), After(cfg, INITIAL_WORLD, inputs[..n]);
            && Polled(before, inputs[k].env).Some? && Polled(after, inputs[n].env).Some?
            && Polled(before, inputs[k].env) != Polled(after, inputs[n].env)
  {
    var e := DeliveryIsPaid(cfg, inputs, k);
    var f := DeliveryIsPaid(cfg, inputs, n);
    AtMostOneAnswerPerArming(cfg, inputs);
    AtMostOnceFailsIff(cfg, inputs);
    PaysAgainIff(cfg, inputs, n);
    hide AnswersSpent;
    hide After;
    hide DeliversAt;
    hide Polled;
    assert e == f ==> PaysAgain(cfg, inputs, n);
  }

  lemma DeliveryIsPaid(cfg: Codec, inputs: seq<Input>, k: nat) returns (e: Event)
    requires DeliversAt(cfg, inputs, k)
    ensures PaysAt(cfg, inputs, k, e)
  {
    hide Step;
    hide Delivers;
    hide Polled;
    hide UsedUp;
    hide Inv;
    DeliveringStep(cfg, inputs, k);
    e := BuysOnce(cfg, After(cfg, INITIAL_WORLD, inputs[..k]), inputs[k].env);
  }
}
