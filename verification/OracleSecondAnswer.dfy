/** Exactly when a second answer follows one arming: in a tick, over a stretch of inputs, and in a run. This is
    the gap that the steady-poll hypothesis closes. */
module OracleSecondAnswer {
  import opened Bytes
  import opened OracleModel
  import opened OracleSafety
  import opened OracleAnswers
  import opened OracleAtMostOnce

  /** The step from `log` to `log'` delivered an attestation for `c`. */
  ghost predicate Answered(log: seq<Obs>, log': seq<Obs>, c: Str) {
    log <= log' && exists o :: o in Added(log, log') && IsAttestation(o) && o.text.answer.chargeId == c
  }

  /** Some next tick answers `c`. */
  ghost predicate CanAnswer(cfg: Codec, g: Genome, d: Daemon, c: Str) {
    exists env :: Answered(d.log, Iterate(cfg, g, d, env).1.log, c)
  }

  /** A tick answers `c` only as its settlement, still waiting, under an unused key. */
  lemma AnswerNeeds(cfg: Codec, g: Genome, d: Daemon, env: TickEnv, c: Str)
    requires PendingOk(g.pending, d.log, g.committed) && DaemonOk(cfg, d)
    requires Answered(d.log, Iterate(cfg, g, d, env).1.log, c)
    ensures !g.parked && env.poll.PollOk? && Head(g, d).Some?
    ensures Settles(cfg, Head(g, d).value, c, Aged(g).pending) && DmKey(g.committed + 1) !in d.recorded
  {
    hide Tick;
    hide PollOne;
    hide PendingOk;
    hide DaemonOk;
    hide AgeOut;
    TickAppends(cfg, g, d, env);
    var r := Tick(cfg, g, d, g.committed + 1, env);
    assert !g.parked;
    var o :| o in Added(d.log, r.d.log) && IsAttestation(o) && o.text.answer.chargeId == c;
  }

  const REACHED_ENV :=
      TickEnv(PollOk, ThinkErr, true, ChargeUnreached, DmReached(Performed, false), (f, a) => FetchUnreached, 0)

  /** And when it can, a tick whose calls all succeed does answer. */
  lemma AnswerHappens(cfg: Codec, g: Genome, d: Daemon, c: Str)
    requires PendingOk(g.pending, d.log, g.committed) && !g.parked && Head(g, d).Some?
    requires Settles(cfg, Head(g, d).value, c, Aged(g).pending) && DmKey(g.committed + 1) !in d.recorded
    ensures CanAnswer(cfg, g, d, c)
  {
    hide Tick;
    hide PollOne;
    hide PendingOk;
    hide AgeOut;
    AgedOk(g, d);
    var env := REACHED_ENV;
    var d' := TickIs(cfg, g, d, env);
    var ev := Head(g, d).value;
    var o := SettledDelivers(cfg, Aged(g), d', g.committed + 1, ev, c);
    hide SettleTick;
    var log' := Iterate(cfg, g, d, env).1.log;
    assert log' == d.log + [o];
    assert Added(d.log, log') == [o];
    assert o in Added(d.log, log');
    assert Answered(d.log, log', c);
  }

  lemma SettledDelivers(cfg: Codec, g: Genome, d: Daemon, seqNo: nat, ev: Event, c: Str) returns (o: Obs)
    requires Settles(cfg, ev, c, g.pending) && CachesMatch(g.pending) && DmKey(seqNo) !in d.recorded
    ensures IsAttestation(o) && o.text.answer.chargeId == c
    ensures SettleTick(cfg, g, d, seqNo, ev, REACHED_ENV).d.log == d.log + [o]
  {
    BuildAnswerShape(cfg, d, seqNo, c, REACHED_ENV);
    hide BuildAnswer;
    var pc := g.pending[c];
    var a := if pc.answer.Some? then pc.answer.value else BuildAnswer(cfg, d, seqNo, c, REACHED_ENV).1;
    o := Delivered(seqNo, pc.sender, Attestation(a));
  }

  // ---- One tick of a held charge ----

  /** The settlement of the waiting charge `c` is the head of the inbox. */
  ghost predicate Holding(cfg: Codec, g: Genome, d: Daemon, c: Str) {
    !g.parked && Head(g, d).Some? && Settles(cfg, Head(g, d).value, c, Aged(g).pending)
  }

  /** `c` does not survive the age-out of the next tick: only arming it again brings it back. */
  predicate Released(g: Genome, c: Str) {
    c !in Aged(g).pending
  }

  /** A settlement tick delivers exactly when the key is free and the daemon publishes; it keeps the charge
      exactly when the reply is lost. */
  lemma SettleOutcome(cfg: Codec, g: Genome, d: Daemon, seqNo: nat, ev: Event, c: Str, env: TickEnv)
    requires Settles(cfg, ev, c, g.pending) && CachesMatch(g.pending)
    ensures var r := SettleTick(cfg, g, d, seqNo, ev, env);
            && (r.d.log != d.log <==> DmKey(seqNo) !in d.recorded && Publishes(env.dm))
            && (r.outcome.Transient? <==> ReplyLost(env.dm))
  {
    BuildAnswerShape(cfg, d, seqNo, c, env);
    hide BuildAnswer;
  }

  /** One tick of a held charge whose poll succeeds. */
  lemma HeldTick(cfg: Codec, g: Genome, d: Daemon, env: TickEnv, c: Str)
    requires PendingOk(g.pending, d.log, g.committed) && DaemonOk(cfg, d)
    requires Holding(cfg, g, d, c) && env.poll.PollOk?
    ensures var (g1, d1) := Iterate(cfg, g, d, env);
            && (Answered(d.log, d1.log, c) <==> DmKey(g.committed + 1) !in d.recorded && Publishes(env.dm))
            && (if ReplyLost(env.dm)
                then Holding(cfg, g1, d1, c) && Head(g1, d1) == Head(g, d) && g1.committed == g.committed
                     && c in g1.pending && g1.pending[c].issuedSeq == g.pending[c].issuedSeq
                else Released(g1, c))
  {
    hide Tick;
    hide PollOne;
    hide PendingOk;
    hide DaemonOk;
    AgedOk(g, d);
    hide AgeOut;
    var ev, seqNo := Head(g, d).value, g.committed + 1;
    var d' := TickIs(cfg, g, d, env);
    var a := SettledShape(cfg, Aged(g), d', seqNo, ev, c, env);
    SettleOutcome(cfg, Aged(g), d', seqNo, ev, c, env);
    hide SettleTick;
    var r := Tick(cfg, g, d, seqNo, env);
    AnsweredBySole(d.log, r.d.log, c, Delivered(seqNo, Aged(g).pending[c].sender, Attestation(a)));
    var g1 := Commit(g, r);
    if ReplyLost(env.dm) {
      HeadStable(g, d, g1, r.d);
      AgedTwice(g, g1, c, Aged(g).pending[c].(answer := Some(a)));
      AgedSubset(g);
    } else {
      AgedSubset(g1);
    }
  }

  lemma AnsweredBySole(log: seq<Obs>, log': seq<Obs>, c: Str, o: Obs)
    requires IsAttestation(o) && o.text.answer.chargeId == c
    requires log' == log || log' == log + [o]
    ensures Answered(log, log', c) <==> log' != log
  {
    if log' == log + [o] {
      assert Added(log, log') == [o];
      assert o in Added(log, log');
    } else {
      assert Added(log, log') == [];
    }
  }

  /** One tick of a held charge whose poll fails softly: the tick number is spent, nothing else happens. */
  lemma SoftTick(cfg: Codec, g: Genome, d: Daemon, env: TickEnv, c: Str)
    requires Holding(cfg, g, d, c) && env.poll.PollErr?
    ensures var (g1, d1) := Iterate(cfg, g, d, env);
            && d1.log == d.log && d1.recorded == d.recorded
            && (if g.committed + 2 <= g.pending[c].issuedSeq + PENDING_TTL_TICKS
                then Holding(cfg, g1, d1, c) && Head(g1, d1) == Head(g, d) && g1.committed == g.committed + 1
                     && c in g1.pending && g1.pending[c].issuedSeq == g.pending[c].issuedSeq
                else Released(g1, c))
  {
    hide Tick;
    hide PollOne;
    var d' := TickIs(cfg, g, d, env);
    var g1 := Commit(g, TickResult(Aged(g), d', Lived(false)));
    HeadStable(g, d, g1, d');
  }

  /** What a tick answers: `c` exactly when its poll succeeds, `c` is held, the tick's key is free and the
      daemon publishes. */
  lemma AnswersIff(cfg: Codec, g: Genome, d: Daemon, env: TickEnv, c: Str)
    requires PendingOk(g.pending, d.log, g.committed) && DaemonOk(cfg, d)
    ensures Answered(d.log, Iterate(cfg, g, d, env).1.log, c) <==>
            env.poll.PollOk? && Holding(cfg, g, d, c) && DmKey(g.committed + 1) !in d.recorded && Publishes(env.dm)
  {
    hide Iterate;
    if Answered(d.log, Iterate(cfg, g, d, env).1.log, c) {
      AnswerNeeds(cfg, g, d, env, c);
    }
    if env.poll.PollOk? && Holding(cfg, g, d, c) {
      HeldTick(cfg, g, d, env, c);
    }
  }

  lemma CanAnswerIff(cfg: Codec, g: Genome, d: Daemon, c: Str)
    requires PendingOk(g.pending, d.log, g.committed) && DaemonOk(cfg, d)
    ensures CanAnswer(cfg, g, d, c) <==> Holding(cfg, g, d, c) && DmKey(g.committed + 1) !in d.recorded
  {
    hide Iterate;
    if CanAnswer(cfg, g, d, c) {
      var env :| Answered(d.log, Iterate(cfg, g, d, env).1.log, c);
      AnswersIff(cfg, g, d, env, c);
    }
    if Holding(cfg, g, d, c) && DmKey(g.committed + 1) !in d.recorded {
      AnswersIff(cfg, g, d, REACHED_ENV, c);
      assert Answered(d.log, Iterate(cfg, g, d, REACHED_ENV).1.log, c);
    }
  }

  // ---- A charge once released stays released ----

  /** A tick adds a charge to the waiting-set only by arming it in the log. */
  ghost predicate PendsOnlyArmed(g: Genome, d: Daemon, r: TickResult) {
    d.log <= r.d.log && forall c :: c in r.g.pending && c !in g.pending ==>
      exists o :: o in Added(d.log, r.d.log) && About(o) == Some(c)
  }

  lemma PricePends(cfg: Codec, g: Genome, d: Daemon, seqNo: nat, ev: Event, request: Request, env: TickEnv)
    requires IdsDistinct(d.charges)
    ensures PendsOnlyArmed(g, d, PriceTick(cfg, g, d, seqNo, ev, request, env))
  {
    hide PriceTick;
    var r := PriceTick(cfg, g, d, seqNo, ev, request, env);
    var c, amount, pc := PriceShape(cfg, g, d, seqNo, ev, request, env);
    if !NotArmed(g, d, r) {
      var armed := Armed(c, ev.sourcePubkey, amount, seqNo);
      assert d.log <= r.d.log;
      assert Added(d.log, r.d.log)[|r.d.log| - 1 - |d.log|] == armed;
      assert armed in Added(d.log, r.d.log) && About(armed) == Some(c);
      assert forall k :: k in r.g.pending && k !in g.pending ==> k == c;
    }
  }

  lemma HandlePends(cfg: Codec, g: Genome, d: Daemon, seqNo: nat, ev: Event, env: TickEnv)
    requires CachesMatch(g.pending) && IdsDistinct(d.charges)
    ensures PendsOnlyArmed(g, d, HandleEvent(cfg, g, d, seqNo, ev, env))
  {
    hide SettleTick;
    hide PriceTick;
    if ev.kind == PaymentSettled {
      if SettledCharge(cfg, ev).Some? && Settles(cfg, ev, SettledCharge(cfg, ev).value, g.pending) {
        var a := SettledShape(cfg, g, d, seqNo, ev, SettledCharge(cfg, ev).value, env);
      } else {
        UnsettledShape(cfg, g, d, seqNo, ev, env);
      }
    } else {
      match cfg.classify(ev.payload)
      case Status => SendShape(d.(asked := d.asked + [AskContext]), seqNo, ev.sourcePubkey, Books, env.dm);
      case Unsupported =>
      case Price(_, _) => PricePends(cfg, g, d, seqNo, ev, cfg.classify(ev.payload), env);
    }
  }

  /** The log between `log` and `log'` neither arms nor answers `c`. */
  ghost predicate Quiet(log: seq<Obs>, log': seq<Obs>, c: Str) {
    log <= log' && forall o :: o in Added(log, log') ==> About(o) != Some(c)
  }

  lemma ReleasedTick(cfg: Codec, g: Genome, d: Daemon, env: TickEnv, c: Str)
    requires PendingOk(g.pending, d.log, g.committed) && DaemonOk(cfg, d) && Released(g, c)
    requires Quiet(d.log, Iterate(cfg, g, d, env).1.log, c)
    ensures Released(Iterate(cfg, g, d, env).0, c)
  {
    hide Tick;
    hide PollOne;
    hide HandleEvent;
    if !g.parked {
      AgedOk(g, d);
      hide PendingOk;
      var d' := TickIs(cfg, g, d, env);
      if env.poll.PollOk? && Head(g, d).Some? {
        HandlePends(cfg, Aged(g), d', g.committed + 1, Head(g, d).value, env);
      }
      hide AgeOut;
      AgedSubset(Iterate(cfg, g, d, env).0);
    }
  }

  // ---- Whole stretches ----

  /** An input that can leave a held charge held: no reboot, and no poll that succeeds unless the reply is
      lost again. */
  predicate Keeps(input: Input) {
    match input
    case Arrive(_, _) => true
    case Run(env) => env.poll.PollErr? || ReplyLost(env.dm)
    case Reboot => false
  }

  ghost predicate AllKeep(inputs: seq<Input>) {
    forall input :: input in inputs ==> Keeps(input)
  }

  /** How many polls failed softly. */
  function Softs(inputs: seq<Input>): nat {
    if inputs == [] then 0
    else Softs(inputs[..|inputs| - 1]) + if SoftPoll(inputs[|inputs| - 1]) then 1 else 0
  }

  predicate SoftPoll(input: Input) {
    input.Run? && input.env.poll.PollErr?
  }

  /** `c` is held in `w'`, at tick number `n`, as it was armed in `w`. */
  ghost predicate StillHeld(cfg: Codec, w: World, w': World, n: nat, c: Str) {
    && Holding(cfg, w'.g, w'.d, c) && w'.g.committed == n
    && c in w.g.pending && c in w'.g.pending && w'.g.pending[c].issuedSeq == w.g.pending[c].issuedSeq
  }

  /** Where a held charge is after an input that neither arms nor answers it. */
  lemma HoldStep(cfg: Codec, w: World, input: Input, c: Str)
    requires Inv(cfg, w) && Holding(cfg, w.g, w.d, c)
    requires Quiet(w.d.log, Step(cfg, w, input).d.log, c)
    ensures var w' := Step(cfg, w, input);
            var n := w.g.committed + if SoftPoll(input) then 1 else 0;
            if Keeps(input) && n + 1 <= w.g.pending[c].issuedSeq + PENDING_TTL_TICKS
            then StillHeld(cfg, w, w', n, c)
            else Released(w'.g, c)
  {
    hide Iterate;
    hide PollOne;
    HeldYoung(cfg, w.g, w.d, c);
    match input
    case Run(env) =>
      HoldRun(cfg, w, env, c);
    case Reboot =>
    case Arrive(ev, gap) =>
      StepKeeps(cfg, w, input);
      HeadKeepsOnArrival(w.g, w.d, Step(cfg, w, input).d, ev.(inboxSeq := LastSeq(w.d.arrived) + 1 + gap));
  }

  lemma HoldRun(cfg: Codec, w: World, env: TickEnv, c: Str)
    requires Inv(cfg, w) && Holding(cfg, w.g, w.d, c) && c in w.g.pending
    requires Quiet(w.d.log, Step(cfg, w, Run(env)).d.log, c)
    ensures var w' := Step(cfg, w, Run(env));
            var n := w.g.committed + if SoftPoll(Run(env)) then 1 else 0;
            if Keeps(Run(env)) && n + 1 <= w.g.pending[c].issuedSeq + PENDING_TTL_TICKS
            then StillHeld(cfg, w, w', n, c)
            else Released(w'.g, c)
  {
    hide Iterate;
    hide Inv;
    hide PendingOk;
    hide DaemonOk;
    HeldYoung(cfg, w.g, w.d, c);
    InvParts(cfg, w);
    hide Holding;
    hide Released;
    hide Answered;
    if env.poll.PollErr? {
      SoftTick(cfg, w.g, w.d, env, c);
    } else {
      HeldTick(cfg, w.g, w.d, env, c);
    }
  }

  lemma ReleasedStep(cfg: Codec, w: World, input: Input, c: Str)
    requires Inv(cfg, w) && Released(w.g, c) && Quiet(w.d.log, Step(cfg, w, input).d.log, c)
    ensures Released(Step(cfg, w, input).g, c)
  {
    hide Iterate;
    if input.Run? {
      ReleasedTick(cfg, w.g, w.d, input.env, c);
    }
  }

  lemma {:induction false} InvAfter(cfg: Codec, w: World, inputs: seq<Input>)
    requires Inv(cfg, w)
    ensures Inv(cfg, After(cfg, w, inputs)) && w.d.log <= After(cfg, w, inputs).d.log
  {
    hide Step;
    hide Inv;
    if inputs != [] {
      var n := |inputs| - 1;
      InvAfter(cfg, w, inputs[..n]);
      StepKeeps(cfg, After(cfg, w, inputs[..n]), inputs[n]);
      StepAnswersArePaid(cfg, After(cfg, w, inputs[..n]), inputs[n]);
    }
  }

  lemma QuietParts(log: seq<Obs>, mid: seq<Obs>, log': seq<Obs>, c: Str)
    requires log <= mid <= log' && Quiet(log, log', c)
    ensures Quiet(log, mid, c) && Quiet(mid, log', c)
  {
    forall o | o in Added(log, mid) ensures o in Added(log, log') {
      var i :| 0 <= i < |Added(log, mid)| && Added(log, mid)[i] == o;
      assert Added(log, log')[i] == o;
    }
    forall o | o in Added(mid, log') ensures o in Added(log, log') {
      var i :| 0 <= i < |Added(mid, log')| && Added(mid, log')[i] == o;
      assert Added(log, log')[|mid| - |log| + i] == o;
    }
  }

  /** Where a held charge is after `inputs`: held exactly when every input could keep it and the soft polls
      have not aged it out. */
  ghost predicate HoldOutcome(cfg: Codec, w: World, inputs: seq<Input>, w': World, c: Str) {
    var n := w.g.committed + Softs(inputs);
    && c in w.g.pending
    && if AllKeep(inputs) && n + 1 <= w.g.pending[c].issuedSeq + PENDING_TTL_TICKS
       then StillHeld(cfg, w, w', n, c)
       else Released(w'.g, c)
  }

  /** After any stretch that neither arms nor answers it. */
  lemma {:induction false} HoldsAfter(cfg: Codec, w: World, inputs: seq<Input>, c: Str)
    requires Inv(cfg, w) && Holding(cfg, w.g, w.d, c)
    requires Quiet(w.d.log, After(cfg, w, inputs).d.log, c)
    ensures HoldOutcome(cfg, w, inputs, After(cfg, w, inputs), c)
  {
    if inputs == [] {
      HoldsAtOnce(cfg, w, c);
    } else {
      var front, last := inputs[..|inputs| - 1], inputs[|inputs| - 1];
      var mid := After(cfg, w, front);
      assert inputs == front + [last];
      LastInput(cfg, w, front, last);
      hide *;
      InvAfter(cfg, w, front);
      StepAnswersArePaid(cfg, mid, last);
      QuietParts(w.d.log, mid.d.log, After(cfg, w, inputs).d.log, c);
      HoldsAfter(cfg, w, front, c);
      HoldsSnoc(cfg, w, front, last, c);
    }
  }

  lemma HoldsAtOnce(cfg: Codec, w: World, c: Str)
    requires Holding(cfg, w.g, w.d, c)
    ensures HoldOutcome(cfg, w, [], w, c)
  {
    HeldYoung(cfg, w.g, w.d, c);
    hide Holding;
  }

  lemma HoldsSnoc(cfg: Codec, w: World, front: seq<Input>, last: Input, c: Str)
    requires var mid := After(cfg, w, front);
             && Inv(cfg, mid) && Quiet(mid.d.log, Step(cfg, mid, last).d.log, c) && HoldOutcome(cfg, w, front, mid, c)
    ensures HoldOutcome(cfg, w, front + [last], Step(cfg, After(cfg, w, front), last), c)
  {
    hide After;
    hide Step;
    hide Inv;
    hide Quiet;
    hide StillHeld;
    hide Released;
    hide AllKeep;
    hide Keeps;
    hide Softs;
    hide SoftPoll;
    hide Holding;
    var mid, n := After(cfg, w, front), w.g.committed + Softs(front);
    LastInput(cfg, w, front, last);
    StillHeldMeans(cfg, w, mid, n, c);
    ReleasedIsNotHeld(cfg, mid.g, mid.d, c);
    HoldsOneMore(cfg, w, mid, last, n, c);
  }

  lemma LastInput(cfg: Codec, w: World, front: seq<Input>, last: Input)
    ensures After(cfg, w, front + [last]) == Step(cfg, After(cfg, w, front), last)
    ensures Softs(front + [last]) == Softs(front) + if SoftPoll(last) then 1 else 0
    ensures AllKeep(front + [last]) <==> AllKeep(front) && Keeps(last)
  {
    hide Step;
    hide SoftPoll;
    hide Keeps;
    assert (front + [last])[..|front|] == front;
    AllKeepSnoc(front, last);
    hide AllKeep;
  }

  lemma AllKeepSnoc(front: seq<Input>, last: Input)
    ensures AllKeep(front + [last]) <==> AllKeep(front) && Keeps(last)
  {
    assert forall input :: input in front + [last] <==> input in front || input == last;
  }

  lemma HoldsOneMore(cfg: Codec, w: World, mid: World, last: Input, n: nat, c: Str)
    requires Inv(cfg, mid) && Quiet(mid.d.log, Step(cfg, mid, last).d.log, c)
    requires StillHeld(cfg, w, mid, n, c) || Released(mid.g, c)
    ensures var w' := Step(cfg, mid, last);
            var n' := n + if SoftPoll(last) then 1 else 0;
            if StillHeld(cfg, w, mid, n, c) && Keeps(last) && n' + 1 <= w.g.pending[c].issuedSeq + PENDING_TTL_TICKS
            then StillHeld(cfg, w, w', n', c)
            else Released(w'.g, c)
  {
    hide Step;
    hide Keeps;
    hide Quiet;
    hide Inv;
    hide SoftPoll;
    ReleasedIsNotHeld(cfg, mid.g, mid.d, c);
    hide Holding;
    hide Released;
    if StillHeld(cfg, w, mid, n, c) {
      HoldStep(cfg, mid, last, c);
    } else {
      ReleasedStep(cfg, mid, last, c);
    }
  }

  lemma HeldYoung(cfg: Codec, g: Genome, d: Daemon, c: Str)
    requires Holding(cfg, g, d, c)
    ensures c in g.pending && g.committed + 1 <= g.pending[c].issuedSeq + PENDING_TTL_TICKS
  {
  }

  // ---- Main results ----

  /** When a given stretch lets a held charge be answered next: exactly when it held no reboot and no
      successful poll but lost retries, its soft polls leave the charge young enough, and the key they lead
      to is free. With an answer already out (`Spent`), that is a second answer to one arming. */
  lemma NextAnswerIff(cfg: Codec, w: World, inputs: seq<Input>, c: Str)
    requires Inv(cfg, w) && Holding(cfg, w.g, w.d, c)
    requires Quiet(w.d.log, After(cfg, w, inputs).d.log, c)
    ensures var w' := After(cfg, w, inputs);
            var n := w.g.committed + Softs(inputs) + 1;
            c in w.g.pending &&
            (CanAnswer(cfg, w'.g, w'.d, c) <==>
            AllKeep(inputs) && n <= w.g.pending[c].issuedSeq + PENDING_TTL_TICKS && DmKey(n) !in w'.d.recorded)
  {
    hide After;
    hide Inv;
    hide PendingOk;
    hide DaemonOk;
    hide Quiet;
    hide Holding;
    hide StillHeld;
    hide Released;
    hide AllKeep;
    hide Softs;
    hide CanAnswer;
    HoldsAfter(cfg, w, inputs, c);
    InvAfter(cfg, w, inputs);
    var w' := After(cfg, w, inputs);
    StillHeldMeans(cfg, w, w', w.g.committed + Softs(inputs), c);
    InvParts(cfg, w');
    CanAnswerIff(cfg, w'.g, w'.d, c);
    ReleasedIsNotHeld(cfg, w'.g, w'.d, c);
  }

  lemma StillHeldMeans(cfg: Codec, w: World, w': World, n: nat, c: Str)
    ensures StillHeld(cfg, w, w', n, c) ==> Holding(cfg, w'.g, w'.d, c) && w'.g.committed == n
  {
  }

  lemma ReleasedIsNotHeld(cfg: Codec, g: Genome, d: Daemon, c: Str)
    ensures Released(g, c) ==> !Holding(cfg, g, d, c)
  {
  }

  lemma InvParts(cfg: Codec, w: World)
    requires Inv(cfg, w)
    ensures PendingOk(w.g.pending, w.d.log, w.g.committed) && DaemonOk(cfg, w.d)
  {
  }

  /** Ledger keys are never freed. */
  lemma HandleRecords(cfg: Codec, g: Genome, d: Daemon, seqNo: nat, ev: Event, env: TickEnv)
    ensures d.recorded <= HandleEvent(cfg, g, d, seqNo, ev, env).d.recorded
  {
    if ev.kind == PaymentSettled {
      hide DmTick;
      if SettledCharge(cfg, ev).Some? {
        BuildAnswerShape(cfg, d, seqNo, SettledCharge(cfg, ev).value, env);
      }
      hide BuildAnswer;
    } else {
      hide SettleTick;
    }
  }

  lemma StepRecords(cfg: Codec, w: World, input: Input)
    ensures w.d.recorded <= Step(cfg, w, input).d.recorded
  {
    hide Tick;
    hide PollOne;
    hide HandleEvent;
    if input.Run? && !w.g.parked {
      var d := TickIs(cfg, w.g, w.d, input.env);
      if input.env.poll.PollOk? && Head(w.g, w.d).Some? {
        HandleRecords(cfg, Aged(w.g), d, w.g.committed + 1, Head(w.g, w.d).value, input.env);
      }
    }
  }

  lemma {:induction false} RecordsAfter(cfg: Codec, w: World, inputs: seq<Input>)
    ensures w.d.recorded <= After(cfg, w, inputs).d.recorded
  {
    hide Step;
    if inputs != [] {
      RecordsAfter(cfg, w, inputs[..|inputs| - 1]);
      StepRecords(cfg, After(cfg, w, inputs[..|inputs| - 1]), inputs[|inputs| - 1]);
    }
  }

  /** `m` soft polls in a row. */
  function Blinds(m: nat): seq<Input> {
    if m == 0 then [] else Blinds(m - 1) + [Run(BLIND)]
  }

  lemma BlindStep(cfg: Codec, w: World)
    ensures var w' := Step(cfg, w, Run(BLIND)); w'.d.log == w.d.log && w'.d.recorded == w.d.recorded
  {
    hide Tick;
    hide PollOne;
    var d := TickIs(cfg, w.g, w.d, BLIND);
  }

  lemma {:induction false} BlindsAre(cfg: Codec, w: World, m: nat)
    ensures AllKeep(Blinds(m)) && Softs(Blinds(m)) == m
    ensures After(cfg, w, Blinds(m)).d.log == w.d.log && After(cfg, w, Blinds(m)).d.recorded == w.d.recorded
  {
    hide Tick;
    hide PollOne;
    if m > 0 {
      BlindsAre(cfg, w, m - 1);
      assert Blinds(m)[..|Blinds(m)| - 1] == Blinds(m - 1);
      AllKeepSnoc(Blinds(m - 1), Run(BLIND));
      BlindStep(cfg, After(cfg, w, Blinds(m - 1)));
      hide Step;
      hide AllKeep;
    }
  }

  /** Some stretch that neither arms nor answers `c` leads to a world whose next tick can answer it. */
  ghost predicate CanFollow(cfg: Codec, w: World, c: Str) {
    exists inputs :: Quiet(w.d.log, After(cfg, w, inputs).d.log, c)
                     && CanAnswer(cfg, After(cfg, w, inputs).g, After(cfg, w, inputs).d, c)
  }

  /** The `k`-th next tick number comes before the charge ages out, and its key is free. */
  predicate FreeTurn(w: World, c: Str, k: nat)
    requires c in w.g.pending
  {
    w.g.committed + k <= w.g.pending[c].issuedSeq + PENDING_TTL_TICKS && DmKey(w.g.committed + k) !in w.d.recorded
  }

  /** A charge whose answer went out and whose reply was lost can be answered again, with no new arming and
      whatever else happens, exactly when some later tick number within the TTL has a free key. */
  lemma SecondAnswerIff(cfg: Codec, w: World, c: Str)
    requires Inv(cfg, w) && c in w.g.pending && Exposed(cfg, w.g, w.d, c)
    ensures CanFollow(cfg, w, c) <==> exists k: nat :: k >= 2 && FreeTurn(w, c, k)
  {
    hide After;
    hide PollOne;
    hide Inv;
    hide CanAnswer;
    if CanFollow(cfg, w, c) {
      var inputs :| Quiet(w.d.log, After(cfg, w, inputs).d.log, c)
                    && CanAnswer(cfg, After(cfg, w, inputs).g, After(cfg, w, inputs).d, c);
      NextAnswerIff(cfg, w, inputs, c);
      RecordsAfter(cfg, w, inputs);
      assert FreeTurn(w, c, Softs(inputs) + 1);
    }
    if k: nat :| k >= 2 && FreeTurn(w, c, k) {
      var inputs := Blinds(k - 1);
      BlindsAre(cfg, w, k - 1);
      assert Quiet(w.d.log, After(cfg, w, inputs).d.log, c);
      NextAnswerIff(cfg, w, inputs, c);
    }
  }

  /** Input `k` of the run answers `c`, which was answered since it was last armed. */
  ghost predicate AnswersSpent(cfg: Codec, inputs: seq<Input>, k: nat, c: Str) {
    && k < |inputs| && inputs[k].Run?
    && var w := After(cfg, INITIAL_WORLD, inputs[..k]);
    && Spent(w.d.log, c) && Holding(cfg, w.g, w.d, c) && DmKey(w.g.committed + 1) !in w.d.recorded
    && inputs[k].env.poll.PollOk? && Publishes(inputs[k].env.dm)
  }

  /** In any run at all, steady or not, some arming is answered twice exactly when some tick polls
      successfully while a spent charge is held, under a free key, and the daemon publishes. */
  lemma {:induction false} AtMostOnceFailsIff(cfg: Codec, inputs: seq<Input>)
    ensures !OneAnswerPerArming(After(cfg, INITIAL_WORLD, inputs).d.log) <==>
            exists k: nat, c: Str :: AnswersSpent(cfg, inputs, k, c)
  {
    hide Step;
    hide PollOne;
    hide Holding;
    if inputs != [] {
      var n := |inputs| - 1;
      var front := inputs[..n];
      AtMostOnceFailsIff(cfg, front);
      forall k: nat, c: Str | k < n ensures AnswersSpent(cfg, front, k, c) <==> AnswersSpent(cfg, inputs, k, c) {
        assert front[..k] == inputs[..k];
      }
      ReachableInv(cfg, front);
      hide After;
      StepFailsIff(cfg, inputs, n);
      assert !OneAnswerPerArming(After(cfg, INITIAL_WORLD, inputs).d.log) <==>
             !OneAnswerPerArming(After(cfg, INITIAL_WORLD, front).d.log)
                 || exists c: Str :: AnswersSpent(cfg, inputs, n, c);
      if k: nat, c: Str :| AnswersSpent(cfg, inputs, k, c) {
        assert k < n ==> AnswersSpent(cfg, front, k, c);
      }
    }
  }

  lemma OneAnswerPrefix(log: seq<Obs>, log': seq<Obs>)
    requires log <= log' && OneAnswerPerArming(log')
    ensures OneAnswerPerArming(log)
  {
    forall i | 0 <= i < |log| && IsAttestation(log[i]) ensures Awaiting(log[..i], log[i].text.answer.chargeId) {
      assert log'[..i] == log[..i] && log'[i] == log[i];
    }
  }

  /** The last step of a run breaks the property exactly when it answers a spent charge. */
  lemma StepFailsIff(cfg: Codec, inputs: seq<Input>, n: nat)
    requires |inputs| == n + 1 && Inv(cfg, After(cfg, INITIAL_WORLD, inputs[..n]))
    ensures !OneAnswerPerArming(After(cfg, INITIAL_WORLD, inputs).d.log) <==>
            || !OneAnswerPerArming(After(cfg, INITIAL_WORLD, inputs[..n]).d.log)
            || exists c: Str :: AnswersSpent(cfg, inputs, n, c)
  {
    var w := After(cfg, INITIAL_WORLD, inputs[..n]);
    var log' := After(cfg, INITIAL_WORLD, inputs).d.log;
    assert log' == Step(cfg, w, inputs[n]).d.log;
    forall c: Str ensures AnswersSpent(cfg, inputs, n, c) <==> Spent(w.d.log, c) && Answered(w.d.log, log', c) {
      SpentAnswer(cfg, inputs, n, c);
    }
    StepAnswersArePaid(cfg, w, inputs[n]);
    forall c: Str | Answered(w.d.log, log', c) ensures LastAbout(w.d.log, c).Some? {
      AnsweredWasSeen(cfg, w, inputs[n], c);
    }
    SoleAnswers(w.d.log, log');
    hide *;
    LogFailsIff(w.d.log, log');
  }

  lemma NothingAnswered(log: seq<Obs>, c: Str)
    ensures !Answered(log, log, c)
  {
    assert Added(log, log) == [];
  }

  lemma StepAnswersIff(cfg: Codec, w: World, input: Input, c: Str)
    requires Inv(cfg, w)
    ensures Answered(w.d.log, Step(cfg, w, input).d.log, c) <==>
            && input.Run? && input.env.poll.PollOk? && Publishes(input.env.dm)
            && Holding(cfg, w.g, w.d, c) && DmKey(w.g.committed + 1) !in w.d.recorded
  {
    hide Inv;
    hide PendingOk;
    hide DaemonOk;
    hide Iterate;
    hide Holding;
    hide Publishes;
    InvParts(cfg, w);
    if input.Run? {
      AnswersIff(cfg, w.g, w.d, input.env, c);
    } else {
      NothingAnswered(w.d.log, c);
    }
  }

  lemma SpentAnswer(cfg: Codec, inputs: seq<Input>, n: nat, c: Str)
    requires |inputs| == n + 1 && Inv(cfg, After(cfg, INITIAL_WORLD, inputs[..n]))
    ensures var log := After(cfg, INITIAL_WORLD, inputs[..n]).d.log;
            AnswersSpent(cfg, inputs, n, c) <==>
                Spent(log, c) && Answered(log, After(cfg, INITIAL_WORLD, inputs).d.log, c)
  {
    hide Step;
    hide Inv;
    hide Holding;
    hide Spent;
    hide Answered;
    hide Publishes;
    var w := After(cfg, INITIAL_WORLD, inputs[..n]);
    assert After(cfg, INITIAL_WORLD, inputs) == Step(cfg, w, inputs[n]);
    hide After;
    StepAnswersIff(cfg, w, inputs[n], c);
  }

  /** A step's attestations, if any, are one. */
  ghost predicate Sole(log: seq<Obs>, log': seq<Obs>) {
    log <= log' && forall o :: o in Added(log, log') && IsAttestation(o) ==> log' == log + [o]
  }

  lemma SoleAnswers(log: seq<Obs>, log': seq<Obs>)
    requires log <= log' && forall o :: o in Added(log, log') && IsAttestation(o) ==> log' == log + [o]
    ensures Sole(log, log')
  {
  }

  lemma LogFailsIff(log: seq<Obs>, log': seq<Obs>)
    requires Sole(log, log') && forall c: Str :: Answered(log, log', c) ==> LastAbout(log, c).Some?
    ensures !OneAnswerPerArming(log') <==>
            !OneAnswerPerArming(log) || exists c: Str :: Spent(log, c) && Answered(log, log', c)
  {
    hide LastAbout;
    hide OneAnswerPerArming;
    if o :| o in Added(log, log') && IsAttestation(o) {
      var c := o.text.answer.chargeId;
      assert Answered(log, log', c);
      AppendedIff(log, o);
      forall k: Str | Answered(log, log', k) ensures k == c {
        var p :| p in Added(log, log') && IsAttestation(p) && p.text.answer.chargeId == k;
        assert log'[|log|] == p == o;
      }
    } else {
      OneAnswerUnchanged(log, log');
    }
  }

  lemma OneAnswerUnchanged(log: seq<Obs>, log': seq<Obs>)
    requires log <= log' && forall o :: o in Added(log, log') ==> !IsAttestation(o)
    ensures OneAnswerPerArming(log') <==> OneAnswerPerArming(log)
  {
    if OneAnswerPerArming(log') {
      OneAnswerPrefix(log, log');
    }
    if OneAnswerPerArming(log) {
      OneAnswerAppendAll(log, Added(log, log'));
      assert log' == log + Added(log, log');
    }
  }

  /** An answered charge has a history: armed last, or spent. */
  lemma AnsweredWasSeen(cfg: Codec, w: World, input: Input, c: Str)
    requires Inv(cfg, w) && Answered(w.d.log, Step(cfg, w, input).d.log, c)
    ensures LastAbout(w.d.log, c).Some?
  {
    StepAnswersArePaid(cfg, w, input);
    InvParts(cfg, w);
    hide Iterate;
    hide PollOne;
    match input
    case Run(env) =>
      AnswersIff(cfg, w.g, w.d, env, c);
      AgedSubset(w.g);
    case _ =>
  }

  lemma AppendedIff(log: seq<Obs>, o: Obs)
    requires IsAttestation(o) && LastAbout(log, o.text.answer.chargeId).Some?
    ensures OneAnswerPerArming(log + [o]) <==> OneAnswerPerArming(log) && !Spent(log, o.text.answer.chargeId)
  {
    var log' := log + [o];
    if OneAnswerPerArming(log') {
      OneAnswerPrefix(log, log');
      assert log'[..|log|] == log && log'[|log|] == o;
    }
    if OneAnswerPerArming(log) && !Spent(log, o.text.answer.chargeId) {
      LastAboutKinds(log, o.text.answer.chargeId);
      OneAnswerAppend(log, o);
    }
  }

  /** What the log says last about a charge is an arming or an answer. */
  lemma LastAboutKinds(log: seq<Obs>, c: Str)
    requires LastAbout(log, c).Some? && !Spent(log, c)
    ensures Awaiting(log, c)
  {
  }

  // ---- A run that needs the hypothesis ----

  /** Every DM is a price request, every settlement names the charge in its payload for ten sats. */
  const DEMO := Codec(_ => Price([], None), p => Some(Settled(p, 10)), _ => None, _ => [])

  const CUSTOMER: Str := [7]
  const CHARGE_ID: Str := [1]
  const DM := Event(1, DirectMessage, [], CUSTOMER, 0, [])
  const SETTLEMENT := Event(2, PaymentSettled, CHARGE_ID, [], 0, CHARGE_ID)

  /** The request is quoted, charged and invoiced. */
  const ARMING := REACHED_ENV.(think := ThinkPerformed(10), charge := ChargeReached(Some(CHARGE_ID), false))
  /** The answer goes out and its reply is lost. */
  const LOSING := REACHED_ENV.(dm := DmReached(Performed, true))
  /** The poll fails softly. */
  const BLIND := REACHED_ENV.(poll := PollErr(false))

  const WAITING_CHARGE := PendingCharge(CUSTOMER, Price([], None), 1, 10, None)

  const ARMED_GENOME := Genome(1, 1, map[CHARGE_ID := WAITING_CHARGE], 0, false, false, [DM])

  function ArmedDaemon(arrived: seq<Event>): Daemon {
    Daemon(arrived, 0, {DmKey(1)}, map[[] := Charge(CHARGE_ID, 10)],
        [AskThink(1), AskCharge([], 10), AskDm(1, CUSTOMER, Invoice(CHARGE_ID))],
      [Delivered(1, CUSTOMER, Invoice(CHARGE_ID)), Armed(CHARGE_ID, CUSTOMER, 10, 1)])
  }

  lemma DemoArms()
    ensures Iterate(DEMO, FRESH_GENOME, INITIAL_WORLD.d.(arrived := [DM]), ARMING) == (ARMED_GENOME, ArmedDaemon([DM]))
  {
    var d0 := INITIAL_WORLD.d.(arrived := [DM]);
    assert Waiting(d0.arrived, 0) == [DM] + Waiting(d0.arrived[1..], 0);
    var d := TickIs(DEMO, FRESH_GENOME, d0, ARMING);
    assert Head(FRESH_GENOME, d0) == Some(DM);
    assert Aged(FRESH_GENOME) == FRESH_GENOME;
    assert ChargeKey(DEMO, DM) == [];
    var (d1, issued) := IssueCharge(d.(asked := d.asked + [AskThink(1)]), [], 10, ARMING.charge);
    assert ChargeIds(map[]) == {};
    assert issued == ChargeIs(Charge(CHARGE_ID, 10));
    var r := InvoiceTick(Aged(FRESH_GENOME).(poison := 0), d1, 1, DM, Price([], None), Charge(CHARGE_ID, 10), ARMING);
    assert r == Tick(DEMO, FRESH_GENOME, d0, 1, ARMING);
    assert r.d.log == ArmedDaemon([DM]).log;
    assert r.d.asked == ArmedDaemon([DM]).asked;
    assert r.d.recorded == {DmKey(1)};
    assert r.d.charges == map[[] := Charge(CHARGE_ID, 10)];
    assert r.d == ArmedDaemon([DM]);
    assert r.g.pending == ARMED_GENOME.pending;
    assert r.g.consumed == [DM];
    assert Commit(FRESH_GENOME, r) == ARMED_GENOME;
  }

  lemma AfterSnoc(cfg: Codec, w: World, inputs: seq<Input>, input: Input)
    ensures After(cfg, w, inputs + [input]) == Step(cfg, After(cfg, w, inputs), input)
  {
    hide Step;
    assert (inputs + [input])[..|inputs|] == inputs;
  }

  /** The settlement arrives; its answer is delivered, the reply is lost. */
  lemma DemoLoses() returns (o: Obs)
    ensures IsAttestation(o) && o.text.answer.chargeId == CHARGE_ID
    ensures var (g, d) := Iterate(DEMO, ARMED_GENOME, ArmedDaemon([DM, SETTLEMENT]), LOSING);
            && d.log == ArmedDaemon([]).log + [o]
            && d.recorded <= {DmKey(1), DmKey(2)} + (set k: Key | k in d.recorded && k.FetchKey?)
            && g.committed == 1 && CHARGE_ID in g.pending && g.pending[CHARGE_ID].issuedSeq == 1
            && !g.parked
  {
    hide BuildAnswer;
    var d0 := ArmedDaemon([DM, SETTLEMENT]);
    assert d0.arrived[1..] == [SETTLEMENT];
    assert Waiting([SETTLEMENT], 1) == [SETTLEMENT] + Waiting([SETTLEMENT][1..], 1);
    var d := TickIs(DEMO, ARMED_GENOME, d0, LOSING);
    assert Head(ARMED_GENOME, d0) == Some(SETTLEMENT);
    var g := Aged(ARMED_GENOME);
    assert g.pending == ARMED_GENOME.pending;
    BuildAnswerShape(DEMO, d, 2, CHARGE_ID, LOSING);
    var (d1, a) := BuildAnswer(DEMO, d, 2, CHARGE_ID, LOSING);
    o := Delivered(2, CUSTOMER, Attestation(a));
    var r := SettleTick(DEMO, g, d, 2, SETTLEMENT, LOSING);
    assert r == Tick(DEMO, ARMED_GENOME, d0, 2, LOSING);
    assert DmKey(2) !in d1.recorded;
    assert r.d.log == d0.log + [o];
  }

  /** A concrete run, steady but for one soft poll error, in which one arming is answered twice:
      without the steady-poll hypothesis the at-most-once theorem is false. */
  lemma SomeRunAnswersTwice() returns (inputs: seq<Input>)
    ensures var log := After(DEMO, INITIAL_WORLD, inputs).d.log;
            Answers(log, CHARGE_ID) == 2 && Armings(log, CHARGE_ID) == 1
  {
    hide Tick;
    hide PollOne;
    var i0: seq<Input> := [];
    var i1, i2 := i0 + [Arrive(DM, 0)], i0 + [Arrive(DM, 0)] + [Run(ARMING)];
    var i3, i4 := i2 + [Arrive(SETTLEMENT, 0)], i2 + [Arrive(SETTLEMENT, 0)] + [Run(LOSING)];
    AfterSnoc(DEMO, INITIAL_WORLD, i0, Arrive(DM, 0));
    AfterSnoc(DEMO, INITIAL_WORLD, i1, Run(ARMING));
    AfterSnoc(DEMO, INITIAL_WORLD, i2, Arrive(SETTLEMENT, 0));
    AfterSnoc(DEMO, INITIAL_WORLD, i3, Run(LOSING));
    assert After(DEMO, INITIAL_WORLD, i1).d == INITIAL_WORLD.d.(arrived := [DM]);
    DemoArms();
    var w2 := After(DEMO, INITIAL_WORLD, i2);
    assert w2.g == ARMED_GENOME && w2.d == ArmedDaemon([DM]);
    var w3 := After(DEMO, INITIAL_WORLD, i3);
    assert w3.g == ARMED_GENOME && w3.d == ArmedDaemon([DM, SETTLEMENT]);
    var o := DemoLoses();
    var w4 := After(DEMO, INITIAL_WORLD, i4);
    inputs := DemoRepeats(i3, i4, w3, w4, o);
  }

  lemma DemoRepeats(i3: seq<Input>, i4: seq<Input>, w3: World, w4: World, o: Obs) returns (inputs: seq<Input>)
    requires w3 == After(DEMO, INITIAL_WORLD, i3) && w4 == After(DEMO, INITIAL_WORLD, i4)
             && w4 == Step(DEMO, w3, Run(LOSING))
    requires !w3.g.parked && (forall c :: c in w3.g.pending ==> !Spent(w3.d.log, c))
    requires IsAttestation(o) && o.text.answer.chargeId == CHARGE_ID && w4.d.log == ArmedDaemon([]).log + [o]
    requires w4.g.committed == 1 && CHARGE_ID in w4.g.pending && w4.g.pending[CHARGE_ID].issuedSeq == 1
    requires DmKey(3) !in w4.d.recorded
    ensures var log := After(DEMO, INITIAL_WORLD, inputs).d.log;
            Answers(log, CHARGE_ID) == 2 && Armings(log, CHARGE_ID) == 1
  {
    hide Tick;
    ReachableInv(DEMO, i3);
    ReachableInv(DEMO, i4);
    hide Inv;
    DemoBlind(w3, w4, o);
    var env, o2 := DemoSecond(w4);
    AfterSnoc(DEMO, INITIAL_WORLD, i4, Run(BLIND));
    AfterSnoc(DEMO, INITIAL_WORLD, i4 + [Run(BLIND)], Run(env));
    inputs := i4 + [Run(BLIND)] + [Run(env)];
    hide Iterate;
    hide After;
    DemoCounts(o, o2, After(DEMO, INITIAL_WORLD, inputs).d.log);
  }

  /** The lost reply leaves the charge exposed. */
  lemma DemoExposed(w3: World, w4: World, o: Obs)
    requires Inv(DEMO, w3) && w4 == Step(DEMO, w3, Run(LOSING))
    requires !w3.g.parked && (forall c :: c in w3.g.pending ==> !Spent(w3.d.log, c))
    requires IsAttestation(o) && o.text.answer.chargeId == CHARGE_ID && w4.d.log == ArmedDaemon([]).log + [o]
    requires CHARGE_ID in w4.g.pending
    ensures Exposed(DEMO, w4.g, w4.d, CHARGE_ID)
  {
    hide Tick;
    hide PollOne;
    hide AgeOut;
    InvParts(DEMO, w3);
    hide PendingOk;
    hide DaemonOk;
    UnexposedTick(DEMO, w3.g, w3.d, LOSING);
    LastAboutAppend(ArmedDaemon([]).log, o, CHARGE_ID);
    hide Exposed;
    hide LastAbout;
  }

  /** The soft poll moves on to a free key. */
  lemma DemoBlind(w3: World, w4: World, o: Obs)
    requires Inv(DEMO, w3) && Inv(DEMO, w4) && w4 == Step(DEMO, w3, Run(LOSING))
    requires !w3.g.parked && (forall c :: c in w3.g.pending ==> !Spent(w3.d.log, c))
    requires IsAttestation(o) && o.text.answer.chargeId == CHARGE_ID && w4.d.log == ArmedDaemon([]).log + [o]
    requires w4.g.committed == 1 && CHARGE_ID in w4.g.pending && w4.g.pending[CHARGE_ID].issuedSeq == 1
    requires DmKey(3) !in w4.d.recorded
    ensures !w4.g.parked && var (g5, d5) := Iterate(DEMO, w4.g, w4.d, BLIND); CanAnswer(DEMO, g5, d5, CHARGE_ID)
  {
    hide Tick;
    DemoExposed(w3, w4, o);
    ExposedIsHeld(DEMO, w4.g, w4.d, CHARGE_ID);
    IterateKeeps(DEMO, w4, BLIND);
    var w5 := Step(DEMO, w4, Run(BLIND));
    InvParts(DEMO, w5);
    hide PendingOk;
    hide DaemonOk;
    hide Iterate;
    SoftTick(DEMO, w4.g, w4.d, BLIND, CHARGE_ID);
    CanAnswerIff(DEMO, w5.g, w5.d, CHARGE_ID);
    hide Holding;
    hide CanAnswer;
  }

  lemma ExposedIsHeld(cfg: Codec, g: Genome, d: Daemon, c: Str)
    requires Exposed(cfg, g, d, c)
    ensures Holding(cfg, g, d, c) && DmKey(g.committed + 1) in d.recorded && !g.parked
  {
  }

  lemma DemoSecond(w: World) returns (env: TickEnv, o: Obs)
    requires Inv(DEMO, w)
    requires !w.g.parked && var (g5, d5) := Iterate(DEMO, w.g, w.d, BLIND); CanAnswer(DEMO, g5, d5, CHARGE_ID)
    ensures IsAttestation(o) && o.text.answer.chargeId == CHARGE_ID
    ensures var (g5, d5) := Iterate(DEMO, w.g, w.d, BLIND); Iterate(DEMO, g5, d5, env).1.log == w.d.log + [o]
  {
    var w5 := Step(DEMO, w, Run(BLIND));
    BlindStep(DEMO, w);
    IterateKeeps(DEMO, w, BLIND);
    hide Inv;
    hide Tick;
    env, o := SomeAnswer(w5);
  }

  lemma SomeAnswer(w: World) returns (env: TickEnv, o: Obs)
    requires Inv(DEMO, w) && CanAnswer(DEMO, w.g, w.d, CHARGE_ID)
    ensures IsAttestation(o) && o.text.answer.chargeId == CHARGE_ID
    ensures Iterate(DEMO, w.g, w.d, env).1.log == w.d.log + [o]
  {
    hide Inv;
    hide Iterate;
    env :| Answered(w.d.log, Iterate(DEMO, w.g, w.d, env).1.log, CHARGE_ID);
    StepAnswersArePaid(DEMO, w, Run(env));
    var log' := Iterate(DEMO, w.g, w.d, env).1.log;
    o :| o in Added(w.d.log, log') && IsAttestation(o) && o.text.answer.chargeId == CHARGE_ID;
  }

  lemma DemoCounts(o: Obs, o2: Obs, log: seq<Obs>)
    requires IsAttestation(o) && IsAttestation(o2) && About(o) == About(o2) == Some(CHARGE_ID)
    requires log == ArmedDaemon([]).log + [o] + [o2]
    ensures Answers(log, CHARGE_ID) == 2 && Armings(log, CHARGE_ID) == 1
  {
    var sent, armed := Delivered(1, CUSTOMER, Invoice(CHARGE_ID)), Armed(CHARGE_ID, CUSTOMER, 10, 1);
    assert ArmedDaemon([]).log == [] + [sent] + [armed];
    CountSnoc([], sent);
    CountSnoc([sent], armed);
    CountSnoc([sent] + [armed], o);
    CountSnoc([sent] + [armed] + [o], o2);
    assert [] + [sent] == [sent];
  }

  lemma CountSnoc(log: seq<Obs>, o: Obs)
    ensures Answers(log + [o], CHARGE_ID) ==
              Answers(log, CHARGE_ID) + if IsAttestation(o) && About(o) == Some(CHARGE_ID) then 1 else 0
    ensures Armings(log + [o], CHARGE_ID) ==
              Armings(log, CHARGE_ID) + if o.Armed? && About(o) == Some(CHARGE_ID) then 1 else 0
  {
    assert (log + [o])[..|log|] == log;
  }
}
