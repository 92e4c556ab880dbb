/** Payments that buy nothing: exactly which consumed settlements leave their charge unanswered, and why. The key
    of the tick was burned by an earlier boot, or, within one boot, by an upstream rejection of the same
    settlement that the agent never heard of. */
module OracleLostAnswers {
  import opened Bytes
  import opened OracleModel
  import opened OracleSafety
  import opened OracleAnswers
  import opened OracleAtMostOnce
  import opened OracleSecondAnswer
  import opened OracleProgress
  import opened OraclePayments

  // ---- One tick ----

  /** A settlement of a held charge, consumed: its charge is left unanswered exactly when it was unanswered
      before and the tick delivered nothing, because its key was burned or the daemon did not publish. If the
      tick counted as an answer sent, that is exactly when the key was burned. */
  lemma PaidUnansweredIff(cfg: Codec, g: Genome, d: Daemon, env: TickEnv, c: Str)
    requires PendingOk(g.pending, d.log, g.committed) && DaemonOk(cfg, d) && Holding(cfg, g, d, c)
    requires env.poll.PollOk? && !ReplyLost(env.dm)
    ensures var (g1, d1) := Iterate(cfg, g, d, env);
            var r := Tick(cfg, g, d, g.committed + 1, env);
            && Released(g1, c) && r.outcome.Lived?
            && (Awaiting(d1.log, c) <==>
                  Awaiting(d.log, c) && (DmKey(g.committed + 1) in d.recorded || !Publishes(env.dm)))
            && (r.outcome.recordedWrite ==>
                 (Awaiting(d1.log, c) <==> Awaiting(d.log, c) && DmKey(g.committed + 1) in d.recorded))
  {
    HeldTick(cfg, g, d, env, c);
    AgedOk(g, d);
    hide Iterate;
    hide PollOne;
    hide PendingOk;
    hide DaemonOk;
    hide AgeOut;
    var seqNo, ev := g.committed + 1, Head(g, d).value;
    var d' := TickIs(cfg, g, d, env);
    hide Tick;
    SettleCounts(cfg, Aged(g), d', seqNo, ev, c, env);
    var a := SettledShape(cfg, Aged(g), d', seqNo, ev, c, env);
    SettleOutcome(cfg, Aged(g), d', seqNo, ev, c, env);
    hide SettleTick;
    LastAboutAppend(d.log, Delivered(seqNo, Aged(g).pending[c].sender, Attestation(a)), c);
    IterateLog(cfg, g, d, env);
  }

  lemma IterateLog(cfg: Codec, g: Genome, d: Daemon, env: TickEnv)
    ensures !g.parked ==> Iterate(cfg, g, d, env).1.log == Tick(cfg, g, d, g.committed + 1, env).d.log
  {
    hide Tick;
  }

  /** What a settlement tick counts as an answer sent. */
  lemma SettleCounts(cfg: Codec, g: Genome, d: Daemon, seqNo: nat, ev: Event, c: Str, env: TickEnv)
    requires Settles(cfg, ev, c, g.pending) && CachesMatch(g.pending) && !ReplyLost(env.dm)
    ensures var r := SettleTick(cfg, g, d, seqNo, ev, env);
            r.outcome.Lived? && (r.outcome.recordedWrite <==> DmKey(seqNo) in d.recorded || Publishes(env.dm))
  {
    BuildAnswerShape(cfg, d, seqNo, c, env);
    hide BuildAnswer;
  }

  // ---- What one boot burns ----

  /** Handling an event burns no DM key but that of its tick. */
  lemma HandleBurns(cfg: Codec, g: Genome, d: Daemon, seqNo: nat, ev: Event, env: TickEnv)
    ensures var d' := HandleEvent(cfg, g, d, seqNo, ev, env).d;
            forall m: nat :: DmKey(m) in d'.recorded ==> DmKey(m) in d.recorded || m == seqNo
  {
    if ev.kind == PaymentSettled {
      hide DmTick;
      if SettledCharge(cfg, ev).Some? {
        BuildAnswerShape(cfg, d, seqNo, SettledCharge(cfg, ev).value, env);
      }
      hide BuildAnswer;
    } else {
      hide SettleTick;
    }
  }

  /** A tick burns no DM key but its own, and unless it commits its number the same event stays the head. */
  lemma TickBurns(cfg: Codec, w: World, env: TickEnv)
    requires !w.g.parked
    ensures var w' := Step(cfg, w, Run(env));
            && (forall m: nat :: DmKey(m) in w'.d.recorded ==> DmKey(m) in w.d.recorded || m == w.g.committed + 1)
            && w.g.committed <= w'.g.committed <= w.g.committed + 1
            && (w'.g.committed == w.g.committed ==>
                  env.poll.PollOk? && Head(w.g, w.d).Some? && Head(w'.g, w'.d) == Head(w.g, w.d))
  {
    hide HandleEvent;
    hide Tick;
    hide PollOne;
    var d := TickIs(cfg, w.g, w.d, env);
    var r := Tick(cfg, w.g, w.d, w.g.committed + 1, env);
    if env.poll.PollOk? && Head(w.g, w.d).Some? {
      var ev := Head(w.g, w.d).value;
      HandleBurns(cfg, Aged(w.g), d, w.g.committed + 1, ev, env);
      HandleDisposes(cfg, Aged(w.g), d, w.g.committed + 1, ev, env);
      HandleCursor(cfg, Aged(w.g), d, w.g.committed + 1, ev, env);
      hide Retries;
      hide Parks;
      hide AgeOut;
      if r.outcome.Transient? {
        HeadStable(w.g, w.d, Commit(w.g, r), r.d);
      }
    }
  }

  ghost predicate NoReboot(inputs: seq<Input>) {
    forall input :: input in inputs ==> !input.Reboot?
  }

  lemma Snoc(cfg: Codec, w0: World, inputs: seq<Input>)
    requires inputs != [] && NoReboot(inputs)
    ensures var n := |inputs| - 1;
            && NoReboot(inputs[..n]) && !inputs[n].Reboot?
            && After(cfg, w0, inputs) == Step(cfg, After(cfg, w0, inputs[..n]), inputs[n])
  {
    hide Step;
    assert inputs[|inputs| - 1] in inputs;
  }

  /** What holds throughout one boot, started at `w0`: no key of a number still to come was burned in it, and if
      the next key was, the event it was burned for is still the head. */
  ghost predicate BootOk(w0: World, w: World) {
    && (forall m: nat :: DmKey(m) in w.d.recorded && m > w.g.committed + 1 ==> DmKey(m) in w0.d.recorded)
    && (DmKey(w.g.committed + 1) in w.d.recorded && DmKey(w.g.committed + 1) !in w0.d.recorded ==>
          Head(w.g, w.d).Some?)
  }

  lemma BootStep(cfg: Codec, w0: World, w: World, input: Input)
    requires Inv(cfg, w) && BootOk(w0, w) && !input.Reboot?
    ensures BootOk(w0, Step(cfg, w, input))
  {
    hide Iterate;
    hide PollOne;
    match input
    case Arrive(ev, gap) =>
      if Head(w.g, w.d).Some? {
        ArrivalKeepsHead(cfg, w, ev, gap);
      }
    case Run(env) =>
      if w.g.parked {
        ParkedStep(cfg, w, env);
      } else {
        TickBurns(cfg, w, env);
      }
  }

  lemma ArrivalKeepsHead(cfg: Codec, w: World, ev: Event, gap: nat)
    requires Inv(cfg, w) && Head(w.g, w.d).Some?
    ensures var w' := Step(cfg, w, Arrive(ev, gap));
            w'.g == w.g && Head(w'.g, w'.d) == Head(w.g, w.d) && w'.d == w.d.(arrived := w'.d.arrived)
  {
    hide PollOne;
    var w' := Step(cfg, w, Arrive(ev, gap));
    StepKeeps(cfg, w, Arrive(ev, gap));
    GrowingOf(cfg, w);
    GrowingOf(cfg, w');
    hide Inv;
    hide Growing;
    HeadKeepsOnArrival(w.g, w.d, w'.d, ev.(inboxSeq := LastSeq(w.d.arrived) + 1 + gap));
  }

  /** A world at the start of a boot. */
  ghost predicate Booted(cfg: Codec, w0: World) {
    w0.g == FRESH_GENOME && Inv(cfg, w0)
  }

  lemma {:induction false} BootInv(cfg: Codec, w0: World, inputs: seq<Input>)
    requires Booted(cfg, w0) && NoReboot(inputs)
    ensures Inv(cfg, After(cfg, w0, inputs)) && BootOk(w0, After(cfg, w0, inputs))
  {
    InvAfter(cfg, w0, inputs);
    hide Step;
    hide Inv;
    hide BootOk;
    if inputs == [] {
      FirstOk(w0);
    } else {
      Snoc(cfg, w0, inputs);
      BootInv(cfg, w0, inputs[..|inputs| - 1]);
      BootStep(cfg, w0, After(cfg, w0, inputs[..|inputs| - 1]), inputs[|inputs| - 1]);
    }
  }

  lemma FirstOk(w: World)
    ensures BootOk(w, w)
  {
  }

  // ---- A rejection nobody heard of ----

  /** The tick tries to answer the held charge `c` under a free key; the relay rejects it, which burns the key, and
      the rejection is lost. */
  ghost predicate Rejects(cfg: Codec, w: World, env: TickEnv, c: Str) {
    && Holding(cfg, w.g, w.d, c) && env.poll.PollOk?
    && DmKey(w.g.committed + 1) !in w.d.recorded && env.dm == DmReached(UpstreamFailed, true)
  }

  /** Input `k` was such a try, for the settlement `e` at tick number `n + 1`. */
  ghost predicate RejectedAt(cfg: Codec, w0: World, inputs: seq<Input>, k: nat, n: nat, e: Event, c: Str) {
    && k < |inputs| && inputs[k].Run?
    && var w := After(cfg, w0, inputs[..k]);
    && w.g.committed == n && Head(w.g, w.d) == Some(e) && Rejects(cfg, w, inputs[k].env, c)
  }

  /** Such a try of a charge not answered so far. */
  ghost predicate LosesAt(cfg: Codec, w0: World, inputs: seq<Input>, k: nat, n: nat, e: Event, c: Str) {
    RejectedAt(cfg, w0, inputs, k, n, e, c) && Awaiting(After(cfg, w0, inputs[..k]).d.log, c)
  }

  /** `c` is held by `e`, unanswered, under a burned key. */
  ghost predicate Doomed(cfg: Codec, w: World, e: Event, c: Str) {
    && Holding(cfg, w.g, w.d, c) && Head(w.g, w.d) == Some(e) && Awaiting(w.d.log, c)
    && DmKey(w.g.committed + 1) in w.d.recorded
  }

  /** What a tick that polls a held charge does to its ledger and log. */
  lemma HeldLedger(cfg: Codec, w: World, env: TickEnv, c: Str)
    requires Inv(cfg, w) && Holding(cfg, w.g, w.d, c) && env.poll.PollOk?
    ensures var w' := Step(cfg, w, Run(env));
            && (w'.g.committed == w.g.committed <==> ReplyLost(env.dm))
            && (DmKey(w.g.committed + 1) in w.d.recorded || (env.dm.DmReached? && env.dm.verdict == UpstreamFailed) ==>
                  w'.d.log == w.d.log && DmKey(w.g.committed + 1) in w'.d.recorded)
            && (DmKey(w.g.committed + 1) !in w.d.recorded && !(env.dm.DmReached? &&
                (env.dm.verdict == UpstreamFailed || env.dm.verdict == Performed)) ==>
                  DmKey(w.g.committed + 1) !in w'.d.recorded)
            && (DmKey(w.g.committed + 1) !in w.d.recorded && Publishes(env.dm) ==> !Awaiting(w'.d.log, c))
  {
    hide *;
    InvParts(cfg, w);
    HeldParts(cfg, w.g, w.d, c);
    var d := HeldStep(cfg, w, env, c);
    var seqNo, ev := w.g.committed + 1, Head(w.g, w.d).value;
    var o := SettleLedger(cfg, Aged(w.g), d, seqNo, ev, c, env);
    var r := SettleTick(cfg, Aged(w.g), d, seqNo, ev, env);
    CommitsUnless(w.g, r);
    SettleOutcome(cfg, Aged(w.g), d, seqNo, ev, c, env);
    LostVerdict(env.dm);
    AnswerIsNoArming(d.log, o, c);
  }

  lemma AnswerIsNoArming(log: seq<Obs>, o: Obs, c: Str)
    requires IsAttestation(o) && o.text.answer.chargeId == c
    ensures !Awaiting(log + [o], c)
  {
    LastAboutAppend(log, o, c);
  }

  lemma CommitsUnless(g: Genome, r: TickResult)
    ensures Commit(g, r).committed == g.committed <==> r.outcome.Transient?
  {
  }

  lemma SettleLedger(cfg: Codec, g: Genome, d: Daemon, seqNo: nat, ev: Event, c: Str, env: TickEnv) returns (o: Obs)
    requires Settles(cfg, ev, c, g.pending) && CachesMatch(g.pending)
    ensures IsAttestation(o) && o.text.answer.chargeId == c
    ensures var d' := SettleTick(cfg, g, d, seqNo, ev, env).d;
            var key, reached := DmKey(seqNo), env.dm.DmReached?;
            && d'.log == (if key !in d.recorded && Publishes(env.dm) then d.log + [o] else d.log)
            && (key in d'.recorded <==>
                  key in d.recorded || (reached && (env.dm.verdict == UpstreamFailed || env.dm.verdict == Performed)))
  {
    BuildAnswerShape(cfg, d, seqNo, c, env);
    hide BuildAnswer;
    var pc := g.pending[c];
    var a := if pc.answer.Some? then pc.answer.value else BuildAnswer(cfg, d, seqNo, c, env).1;
    o := Delivered(seqNo, pc.sender, Attestation(a));
  }

  /** The step that handles the settlement of a held charge. */
  lemma HeldStep(cfg: Codec, w: World, env: TickEnv, c: Str) returns (d: Daemon)
    requires env.poll.PollOk? && Holding(cfg, w.g, w.d, c)
    ensures d == w.d.(floor := d.floor)
    ensures var r := SettleTick(cfg, Aged(w.g), d, w.g.committed + 1, Head(w.g, w.d).value, env);
            Step(cfg, w, Run(env)) == World(Commit(w.g, r), r.d, w.bootFloor)
  {
    hide PollOne;
    hide Tick;
    hide SettleTick;
    hide AgeOut;
    d := TickIs(cfg, w.g, w.d, env);
  }

  /** `c` is doomed after `inputs`, and not by an earlier boot. */
  ghost predicate DoomedInBoot(cfg: Codec, w0: World, inputs: seq<Input>, e: Event, c: Str) {
    var w := After(cfg, w0, inputs);
    Doomed(cfg, w, e, c) && DmKey(w.g.committed + 1) !in w0.d.recorded
  }

  /** A charge doomed within one boot was rejected, unheard, at this very number. */
  lemma {:induction false} DoomedWasRejected(cfg: Codec, w0: World, inputs: seq<Input>, e: Event, c: Str)
      returns (k: nat)
    requires Booted(cfg, w0) && NoReboot(inputs) && DoomedInBoot(cfg, w0, inputs, e, c)
    ensures LosesAt(cfg, w0, inputs, k, After(cfg, w0, inputs).g.committed, e, c)
  {
    hide *;
    DoomedNotAtFirst(cfg, w0, inputs, e, c);
    var n := |inputs| - 1;
    DoomedBack(cfg, w0, inputs, e, c);
    Snoc(cfg, w0, inputs);
    if DoomedInBoot(cfg, w0, inputs[..n], e, c) {
      k := DoomedWasRejected(cfg, w0, inputs[..n], e, c);
      LosesEarlier(cfg, w0, inputs, n, k, After(cfg, w0, inputs).g.committed, e, c);
    } else {
      k := n;
    }
  }

  lemma DoomedNotAtFirst(cfg: Codec, w0: World, inputs: seq<Input>, e: Event, c: Str)
    requires DoomedInBoot(cfg, w0, inputs, e, c)
    ensures inputs != []
  {
    hide Holding;
    hide Awaiting;
  }

  /** One input back it was doomed too, under the same number, unless this input rejected it. */
  lemma DoomedBack(cfg: Codec, w0: World, inputs: seq<Input>, e: Event, c: Str)
    requires Booted(cfg, w0) && NoReboot(inputs) && inputs != [] && DoomedInBoot(cfg, w0, inputs, e, c)
    ensures var n := |inputs| - 1;
            && After(cfg, w0, inputs[..n]).g.committed == After(cfg, w0, inputs).g.committed
            && (DoomedInBoot(cfg, w0, inputs[..n], e, c) ||
                LosesAt(cfg, w0, inputs, n, After(cfg, w0, inputs).g.committed, e, c))
  {
    hide *;
    var n := |inputs| - 1;
    var w := After(cfg, w0, inputs[..n]);
    Snoc(cfg, w0, inputs);
    BootInv(cfg, w0, inputs[..n]);
    DoomedAfter(cfg, w0, inputs, e, c);
    DoomedStep(cfg, w0, w, inputs[n], e, c);
    if Doomed(cfg, w, e, c) {
      DoomedAfter(cfg, w0, inputs[..n], e, c);
    } else {
      LosesHere(cfg, w0, inputs, n, e, c);
    }
  }

  lemma DoomedAfter(cfg: Codec, w0: World, inputs: seq<Input>, e: Event, c: Str)
    ensures var w := After(cfg, w0, inputs);
            DoomedInBoot(cfg, w0, inputs, e, c) <==>
            Doomed(cfg, w, e, c) && DmKey(w.g.committed + 1) !in w0.d.recorded
  {
    hide Doomed;
    hide After;
  }

  lemma LosesHere(cfg: Codec, w0: World, inputs: seq<Input>, n: nat, e: Event, c: Str)
    requires n < |inputs| && inputs[n].Run?
    requires var w := After(cfg, w0, inputs[..n]);
             Rejects(cfg, w, inputs[n].env, c) && Head(w.g, w.d) == Some(e) && Awaiting(w.d.log, c)
    ensures LosesAt(cfg, w0, inputs, n, After(cfg, w0, inputs[..n]).g.committed, e, c)
  {
    hide After;
    hide Rejects;
    hide Awaiting;
    hide PollOne;
  }

  lemma LosesEarlier(cfg: Codec, w0: World, inputs: seq<Input>, n: nat, k: nat, m: nat, e: Event, c: Str)
    requires n <= |inputs| && LosesAt(cfg, w0, inputs[..n], k, m, e, c)
    ensures LosesAt(cfg, w0, inputs, k, m, e, c)
  {
    hide After;
    hide Rejects;
    assert inputs[..n][..k] == inputs[..k];
  }

  /** What dooms a charge within a boot: it was doomed before at this number, or has just been rejected. */
  lemma DoomedStep(cfg: Codec, w0: World, w: World, input: Input, e: Event, c: Str)
    requires Inv(cfg, w) && BootOk(w0, w) && !input.Reboot?
    requires var w' := Step(cfg, w, input);
             Doomed(cfg, w', e, c) && DmKey(w'.g.committed + 1) !in w0.d.recorded
    ensures Step(cfg, w, input).g.committed == w.g.committed
    ensures Doomed(cfg, w, e, c) ||
            (input.Run? && Rejects(cfg, w, input.env, c) && Head(w.g, w.d) == Some(e) && Awaiting(w.d.log, c))
  {
    hide Iterate;
    hide PollOne;
    hide Awaiting;
    hide Settles;
    hide AgeOut;
    hide Inv;
    match input
    case Arrive(ev, gap) => ArrivalKeepsHead(cfg, w, ev, gap);
    case Run(env) =>
      if w.g.parked {
        ParkedStep(cfg, w, env);
      } else {
        TickBurns(cfg, w, env);
        hide Holding;
        hide Step;
        DoomedTick(cfg, w, env, e, c);
      }
  }

  lemma DoomedTick(cfg: Codec, w: World, env: TickEnv, e: Event, c: Str)
    requires Inv(cfg, w) && !w.g.parked && env.poll.PollOk?
    requires var w' := Step(cfg, w, Run(env));
             Doomed(cfg, w', e, c) && w'.g.committed == w.g.committed && Head(w.g, w.d) == Some(e)
    ensures Doomed(cfg, w, e, c) || (Rejects(cfg, w, env, c) && Awaiting(w.d.log, c))
  {
    hide *;
    DoomedParts(cfg, Step(cfg, w, Run(env)), e, c);
    RetriedWasHeld(cfg, w, env, e, c);
    HeldLedger(cfg, w, env, c);
    LostVerdict(env.dm);
    MakesDoomed(cfg, w, env, e, c);
  }

  lemma LostVerdict(fate: DmFate)
    ensures ReplyLost(fate) && fate.DmReached? && fate.verdict == UpstreamFailed ==>
              fate == DmReached(UpstreamFailed, true)
    ensures Publishes(fate) <==> fate.DmReached? && fate.verdict == Performed
  {
  }

  lemma DoomedParts(cfg: Codec, w: World, e: Event, c: Str)
    requires Doomed(cfg, w, e, c)
    ensures Holding(cfg, w.g, w.d, c) && Awaiting(w.d.log, c) && DmKey(w.g.committed + 1) in w.d.recorded
    ensures Head(w.g, w.d) == Some(e)
  {
    hide Holding;
    hide Awaiting;
    hide PollOne;
  }

  lemma MakesDoomed(cfg: Codec, w: World, env: TickEnv, e: Event, c: Str)
    requires Holding(cfg, w.g, w.d, c) && Head(w.g, w.d) == Some(e) && Awaiting(w.d.log, c) && env.poll.PollOk?
    requires DmKey(w.g.committed + 1) in w.d.recorded || env.dm == DmReached(UpstreamFailed, true)
    ensures Doomed(cfg, w, e, c) || Rejects(cfg, w, env, c)
  {
    hide Holding;
    hide Awaiting;
    hide PollOne;
  }

  /** A charge held after a transient tick was held before it, by the same event. */
  lemma RetriedWasHeld(cfg: Codec, w: World, env: TickEnv, e: Event, c: Str)
    requires Inv(cfg, w) && !w.g.parked && env.poll.PollOk? && Head(w.g, w.d) == Some(e)
    requires var w' := Step(cfg, w, Run(env));
             Holding(cfg, w'.g, w'.d, c) && w'.g.committed == w.g.committed && Head(w'.g, w'.d) == Some(e)
    ensures Holding(cfg, w.g, w.d, c)
  {
    hide PollOne;
    hide Tick;
    hide SettleTick;
    hide DmTick;
    hide Inv;
    var d := TickIs(cfg, w.g, w.d, env);
    var r := Tick(cfg, w.g, w.d, w.g.committed + 1, env);
    assert r == SettleTick(cfg, Aged(w.g), d, w.g.committed + 1, e, env);
    assert r.outcome.Transient?;
    SettleRetried(cfg, Aged(w.g), d, w.g.committed + 1, e, env, c);
  }

  lemma SettleRetried(cfg: Codec, g: Genome, d: Daemon, seqNo: nat, e: Event, env: TickEnv, c: Str)
    requires e.kind == PaymentSettled && SettledCharge(cfg, e) == Some(c)
    requires SettleTick(cfg, g, d, seqNo, e, env).outcome.Transient?
    ensures Settles(cfg, e, c, g.pending)
  {
    if !Settles(cfg, e, c, g.pending) {
      UnsettledShape(cfg, g, d, seqNo, e, env);
    }
    hide SettleTick;
  }

  /** An unheard rejection dooms its charge for as long as the number is retried. */
  lemma {:induction false} RejectedIsDoomed(cfg: Codec, w0: World, inputs: seq<Input>, k: nat, n: nat, e: Event,
        c: Str)
    requires Booted(cfg, w0) && NoReboot(inputs) && k < |inputs|
    requires LosesAt(cfg, w0, inputs, k, n, e, c) && After(cfg, w0, inputs).g.committed == n
    ensures Doomed(cfg, After(cfg, w0, inputs), e, c)
  {
    hide *;
    var last := |inputs| - 1;
    var w := After(cfg, w0, inputs[..last]);
    Snoc(cfg, w0, inputs);
    BootInv(cfg, w0, inputs[..last]);
    LosesParts(cfg, w0, inputs, k, n, e, c);
    if k == last {
      RejectionDooms(cfg, w, inputs[last], n, e, c);
    } else {
      CommittedBetween(cfg, w0, inputs, k);
      LosesStill(cfg, w0, inputs, last, k, n, e, c);
      RejectedIsDoomed(cfg, w0, inputs[..last], k, n, e, c);
      StaysDoomed(cfg, w, inputs[last], e, c);
    }
  }

  lemma LosesParts(cfg: Codec, w0: World, inputs: seq<Input>, k: nat, n: nat, e: Event, c: Str)
    requires LosesAt(cfg, w0, inputs, k, n, e, c)
    ensures k < |inputs| && inputs[k].Run?
    ensures var w := After(cfg, w0, inputs[..k]);
            && Rejects(cfg, w, inputs[k].env, c) && Head(w.g, w.d) == Some(e) && Awaiting(w.d.log, c)
            && w.g.committed == n
  {
    hide After;
    hide Rejects;
    hide Awaiting;
    hide PollOne;
  }

  lemma LosesStill(cfg: Codec, w0: World, inputs: seq<Input>, n: nat, k: nat, m: nat, e: Event, c: Str)
    requires k < n <= |inputs| && LosesAt(cfg, w0, inputs, k, m, e, c)
    ensures LosesAt(cfg, w0, inputs[..n], k, m, e, c)
  {
    hide After;
    hide Rejects;
    hide Awaiting;
    hide PollOne;
    assert inputs[..n][..k] == inputs[..k];
  }

  /** The number never falls within a boot. */
  lemma {:induction false} CommittedGrows(cfg: Codec, w0: World, inputs: seq<Input>, k: nat)
    requires NoReboot(inputs) && k <= |inputs|
    ensures After(cfg, w0, inputs[..k]).g.committed <= After(cfg, w0, inputs).g.committed
    decreases |inputs|
  {
    hide Step;
    if k == |inputs| {
      assert inputs[..k] == inputs;
    } else {
      var n := |inputs| - 1;
      Snoc(cfg, w0, inputs);
      assert inputs[..n][..k] == inputs[..k];
      CommittedGrows(cfg, w0, inputs[..n], k);
      CommittedStep(cfg, After(cfg, w0, inputs[..n]), inputs[n]);
    }
  }

  lemma CommittedStep(cfg: Codec, w: World, input: Input)
    requires !input.Reboot?
    ensures w.g.committed <= Step(cfg, w, input).g.committed
  {
    hide Tick;
  }

  lemma CommittedBetween(cfg: Codec, w0: World, inputs: seq<Input>, k: nat)
    requires NoReboot(inputs) && k < |inputs| - 1
    requires After(cfg, w0, inputs[..k]).g.committed == After(cfg, w0, inputs).g.committed
    ensures After(cfg, w0, inputs[..|inputs| - 1]).g.committed == After(cfg, w0, inputs).g.committed
  {
    hide *;
    var n := |inputs| - 1;
    Snoc(cfg, w0, inputs);
    assert inputs[..n][..k] == inputs[..k];
    CommittedGrows(cfg, w0, inputs[..n], k);
    CommittedStep(cfg, After(cfg, w0, inputs[..n]), inputs[n]);
  }

  lemma RejectionDooms(cfg: Codec, w: World, input: Input, n: nat, e: Event, c: Str)
    requires Inv(cfg, w) && input.Run? && Rejects(cfg, w, input.env, c)
    requires Head(w.g, w.d) == Some(e) && Awaiting(w.d.log, c)
    requires w.g.committed == n
    ensures Doomed(cfg, Step(cfg, w, input), e, c)
  {
    hide Step;
    hide Inv;
    hide Holding;
    hide Awaiting;
    hide PollOne;
    HeldLedger(cfg, w, input.env, c);
    HeldAgain(cfg, w, input.env, c);
  }

  lemma HeldAgain(cfg: Codec, w: World, env: TickEnv, c: Str)
    requires Inv(cfg, w) && Holding(cfg, w.g, w.d, c) && env.poll.PollOk? && ReplyLost(env.dm)
    ensures var w' := Step(cfg, w, Run(env));
            Holding(cfg, w'.g, w'.d, c) && Head(w'.g, w'.d) == Head(w.g, w.d) && w'.g.committed == w.g.committed
  {
    hide *;
    InvParts(cfg, w);
    HeldTick(cfg, w.g, w.d, env, c);
    StepIsIterate(cfg, w, env);
  }

  lemma StepIsIterate(cfg: Codec, w: World, env: TickEnv)
    ensures var (g, d) := Iterate(cfg, w.g, w.d, env); Step(cfg, w, Run(env)) == World(g, d, w.bootFloor)
  {
    hide Iterate;
  }

  lemma StaysDoomed(cfg: Codec, w: World, input: Input, e: Event, c: Str)
    requires Inv(cfg, w) && Doomed(cfg, w, e, c) && !input.Reboot?
    requires Step(cfg, w, input).g.committed == w.g.committed
    ensures Doomed(cfg, Step(cfg, w, input), e, c)
  {
    hide Inv;
    hide Awaiting;
    hide PollOne;
    hide Settles;
    hide AgeOut;
    hide Iterate;
    match input
    case Arrive(ev, gap) => ArrivalKeepsHead(cfg, w, ev, gap);
    case Run(env) =>
      hide Step;
      TickBurns(cfg, w, env);
      HeldLedger(cfg, w, env, c);
      HeldAgain(cfg, w, env, c);
  }

  // ---- Main results ----

  /** The tick polls the settlement of the held charge `c`, and is told that the answer went out. */
  ghost predicate CountsAsSent(cfg: Codec, w: World, env: TickEnv, c: Str) {
    && Holding(cfg, w.g, w.d, c) && env.poll.PollOk? && !ReplyLost(env.dm)
    && (DmKey(w.g.committed + 1) in w.d.recorded || Publishes(env.dm))
  }

  /** In any boot, whatever came before it: a settlement counted as sent leaves its charge unanswered exactly when,
      if an earlier boot burned the number's key, the charge was unanswered before the tick; and if not, when an
      earlier try of that same settlement, under that same number, was rejected upstream, the rejection was
      lost, and the charge had not been answered. */
  lemma LostAnswerIff(cfg: Codec, w0: World, inputs: seq<Input>, env: TickEnv, c: Str)
    requires Booted(cfg, w0) && NoReboot(inputs) && CountsAsSent(cfg, After(cfg, w0, inputs), env, c)
    ensures var w := After(cfg, w0, inputs);
            Awaiting(Step(cfg, w, Run(env)).d.log, c) <==>
            if DmKey(w.g.committed + 1) in w0.d.recorded then Awaiting(w.d.log, c)
            else TriedInVain(cfg, w0, inputs, w, c)
  {
    hide *;
    var w := After(cfg, w0, inputs);
    BootInv(cfg, w0, inputs);
    RecordsAfter(cfg, w0, inputs);
    CountedOutcome(cfg, w, env, c);
    if DmKey(w.g.committed + 1) !in w0.d.recorded {
      DoomedIff(cfg, w0, inputs, c);
    }
  }

  /** An earlier try of the settlement now at the head, under the number of the next tick, was lost. */
  ghost predicate TriedInVain(cfg: Codec, w0: World, inputs: seq<Input>, w: World, c: Str) {
    Head(w.g, w.d).Some? && exists k: nat :: LosesAt(cfg, w0, inputs, k, w.g.committed, Head(w.g, w.d).value, c)
  }

  lemma DoomedIff(cfg: Codec, w0: World, inputs: seq<Input>, c: Str)
    requires Booted(cfg, w0) && NoReboot(inputs)
    requires var w := After(cfg, w0, inputs);
             Holding(cfg, w.g, w.d, c) && DmKey(w.g.committed + 1) !in w0.d.recorded
    ensures var w := After(cfg, w0, inputs);
            Awaiting(w.d.log, c) && DmKey(w.g.committed + 1) in w.d.recorded <==>
            TriedInVain(cfg, w0, inputs, w, c)
  {
    hide *;
    var w := After(cfg, w0, inputs);
    HeldSome(cfg, w.g, w.d, c);
    var e, n := Head(w.g, w.d).value, w.g.committed;
    if Awaiting(w.d.log, c) && DmKey(n + 1) in w.d.recorded {
      NowDoomed(cfg, w, e, c);
      DoomedAfter(cfg, w0, inputs, e, c);
      var k := DoomedWasRejected(cfg, w0, inputs, e, c);
      Tried(cfg, w0, inputs, w, c, k);
    }
    if TriedInVain(cfg, w0, inputs, w, c) {
      var k := TryOf(cfg, w0, inputs, w, c);
      LosesParts(cfg, w0, inputs, k, n, e, c);
      RejectedIsDoomed(cfg, w0, inputs, k, n, e, c);
      DoomedParts(cfg, w, e, c);
    }
  }

  lemma NowDoomed(cfg: Codec, w: World, e: Event, c: Str)
    requires Holding(cfg, w.g, w.d, c) && Head(w.g, w.d) == Some(e) && Awaiting(w.d.log, c)
    requires DmKey(w.g.committed + 1) in w.d.recorded
    ensures Doomed(cfg, w, e, c)
  {
    hide Holding;
    hide Awaiting;
    hide PollOne;
  }

  lemma Tried(cfg: Codec, w0: World, inputs: seq<Input>, w: World, c: Str, k: nat)
    requires Head(w.g, w.d).Some? && LosesAt(cfg, w0, inputs, k, w.g.committed, Head(w.g, w.d).value, c)
    ensures TriedInVain(cfg, w0, inputs, w, c)
  {
    hide LosesAt;
    hide PollOne;
  }

  lemma TryOf(cfg: Codec, w0: World, inputs: seq<Input>, w: World, c: Str) returns (k: nat)
    requires TriedInVain(cfg, w0, inputs, w, c)
    ensures Head(w.g, w.d).Some? && LosesAt(cfg, w0, inputs, k, w.g.committed, Head(w.g, w.d).value, c)
  {
    hide LosesAt;
    hide PollOne;
    k :| LosesAt(cfg, w0, inputs, k, w.g.committed, Head(w.g, w.d).value, c);
  }

  /** A settlement counted as sent leaves its charge unanswered when it was so and the key was burned. */
  lemma CountedOutcome(cfg: Codec, w: World, env: TickEnv, c: Str)
    requires Inv(cfg, w) && CountsAsSent(cfg, w, env, c)
    ensures Holding(cfg, w.g, w.d, c)
    ensures Awaiting(Step(cfg, w, Run(env)).d.log, c) <==>
            Awaiting(w.d.log, c) && DmKey(w.g.committed + 1) in w.d.recorded
  {
    hide Step;
    hide Inv;
    hide Holding;
    hide Awaiting;
    HeldLedger(cfg, w, env, c);
  }

  /** In a steady run without a reboot: a settlement counted as sent leaves its charge unanswered exactly when an
      earlier try of it, under the same number, was rejected upstream and the rejection was lost. */
  lemma SteadyLostAnswerIff(cfg: Codec, inputs: seq<Input>, env: TickEnv, c: Str)
    requires Steady(cfg, INITIAL_WORLD, inputs) && NoReboot(inputs)
    requires CountsAsSent(cfg, After(cfg, INITIAL_WORLD, inputs), env, c)
    ensures var w := After(cfg, INITIAL_WORLD, inputs);
            Awaiting(Step(cfg, w, Run(env)).d.log, c) <==> TriedAndRejected(cfg, inputs, w, c)
  {
    hide *;
    FirstBoot(cfg, After(cfg, INITIAL_WORLD, inputs));
    LostAnswerIff(cfg, INITIAL_WORLD, inputs, env, c);
    forall k: nat, n: nat, e ensures LosesAt(cfg, INITIAL_WORLD, inputs, k, n, e, c) <==>
                                     RejectedAt(cfg, INITIAL_WORLD, inputs, k, n, e, c)
    {
      SteadyLosses(cfg, inputs, k, n, e, c);
    }
    SameTries(cfg, inputs, After(cfg, INITIAL_WORLD, inputs), c);
  }

  /** An earlier try of the settlement now at the head, under the number of the next tick, was rejected unheard. */
  ghost predicate TriedAndRejected(cfg: Codec, inputs: seq<Input>, w: World, c: Str) {
    && Head(w.g, w.d).Some?
    && exists k: nat :: RejectedAt(cfg, INITIAL_WORLD, inputs, k, w.g.committed, Head(w.g, w.d).value, c)
  }

  lemma SameTries(cfg: Codec, inputs: seq<Input>, w: World, c: Str)
    requires forall k: nat, n: nat, e :: LosesAt(cfg, INITIAL_WORLD, inputs, k, n, e, c) <==>
                                         RejectedAt(cfg, INITIAL_WORLD, inputs, k, n, e, c)
    ensures TriedInVain(cfg, INITIAL_WORLD, inputs, w, c) <==> TriedAndRejected(cfg, inputs, w, c)
  {
    hide PollOne;
    hide RejectedAt;
    hide LosesAt;
  }

  lemma FirstBoot(cfg: Codec, w: World)
    ensures Booted(cfg, INITIAL_WORLD) && DmKey(w.g.committed + 1) !in INITIAL_WORLD.d.recorded
  {
  }

  lemma SteadyLosses(cfg: Codec, inputs: seq<Input>, k: nat, n: nat, e: Event, c: Str)
    requires Steady(cfg, INITIAL_WORLD, inputs)
    ensures LosesAt(cfg, INITIAL_WORLD, inputs, k, n, e, c) <==> RejectedAt(cfg, INITIAL_WORLD, inputs, k, n, e, c)
  {
    hide After;
    hide Awaiting;
    hide Holding;
    hide AtMostOnce;
    hide Inv;
    hide PollOne;
    hide Steady;
    if RejectedAt(cfg, INITIAL_WORLD, inputs, k, n, e, c) {
      SteadyPrefix(cfg, inputs, k);
      AtMostOneAnswerPerArming(cfg, inputs[..k]);
      ReachableInv(cfg, inputs[..k]);
      FreeIsAwaiting(cfg, After(cfg, INITIAL_WORLD, inputs[..k]), c);
    }
  }

  lemma SteadyPrefix(cfg: Codec, inputs: seq<Input>, n: nat)
    requires Steady(cfg, INITIAL_WORLD, inputs) && n <= |inputs|
    ensures Steady(cfg, INITIAL_WORLD, inputs[..n])
  {
    hide After;
    forall k | 0 <= k < n ensures SteadyStep(After(cfg, INITIAL_WORLD, inputs[..n][..k]), inputs[..n][k]) {
      assert inputs[..n][..k] == inputs[..k];
    }
  }

  /** Under steady polls a charge held under a free key has not been answered. */
  lemma FreeIsAwaiting(cfg: Codec, w: World, c: Str)
    requires Inv(cfg, w) && AtMostOnce(cfg, w) && Holding(cfg, w.g, w.d, c)
    requires DmKey(w.g.committed + 1) !in w.d.recorded
    ensures Awaiting(w.d.log, c)
  {
    hide PollOne;
    AgedSubset(w.g);
    hide AgeOut;
    hide LastAbout;
    if !Spent(w.d.log, c) {
      LastAboutKinds(w.d.log, c);
    }
  }

  // ---- Two runs that lose a paid answer ----

  lemma HeadIsLeast(g: Genome, d: Daemon, e: Event)
    requires Growing(d.arrived) && e in d.arrived && Wanted(e) && e.inboxSeq > Max(d.floor, g.ack)
    requires forall f :: f in d.arrived && Wanted(f) && f.inboxSeq > Max(d.floor, g.ack) ==> e.inboxSeq <= f.inboxSeq
    ensures Head(g, d) == Some(e)
  {
    PolledEvent(d, g.ack, PollOk);
    WaitingIsInArrived(d.arrived, Max(d.floor, g.ack));
    assert e in Waiting(d.arrived, Max(d.floor, g.ack));
    SameNumber(d.arrived, e, Head(g, d).value);
  }

  /** The one charge of the demonstration. */
  const STORED := map[[] := Charge(CHARGE_ID, 10)]

  function Quoted(seqNo: nat): PendingCharge {
    PendingCharge(CUSTOMER, Price([], None), seqNo, 10, None)
  }

  predicate QuietLog(log: seq<Obs>) {
    forall i :: 0 <= i < |log| ==> !IsAttestation(log[i])
  }

  /** One invoice: with the key free it goes out, with the key burned it only seems to; either way the charge
      is armed. */
  lemma DemoInvoices(g: Genome, d: Daemon, seqNo: nat, ev: Event)
    requires ev.sourcePubkey == CUSTOMER && QuietLog(d.log)
    ensures var r := InvoiceTick(g, d, seqNo, ev, Price([], None), Charge(CHARGE_ID, 10), ARMING);
            && r.outcome.Lived? && r.g == Consume(g, ev).(pending := g.pending[CHARGE_ID := Quoted(seqNo)])
            && r.d.arrived == d.arrived && r.d.floor == d.floor && r.d.charges == d.charges
            && r.d.recorded == d.recorded + {DmKey(seqNo)}
            && QuietLog(r.d.log) && Awaiting(r.d.log, CHARGE_ID)
  {
    var r := InvoiceTick(g, d, seqNo, ev, Price([], None), Charge(CHARGE_ID, 10), ARMING);
    var armed := Armed(CHARGE_ID, CUSTOMER, 10, seqNo);
    assert r.d.log[|r.d.log| - 1] == armed;
    assert About(armed) == Some(CHARGE_ID);
  }

  lemma DemoPrices(g: Genome, d: Daemon, seqNo: nat, ev: Event)
    requires ev.kind == DirectMessage && ev.sourcePubkey == CUSTOMER && QuietLog(d.log)
    requires d.charges == map[] || d.charges == STORED
    ensures var r := HandleEvent(DEMO, g, d, seqNo, ev, ARMING);
            && r.outcome.Lived? && r.g == Consume(g, ev).(pending := g.pending[CHARGE_ID := Quoted(seqNo)], poison := 0)
            && r.d.arrived == d.arrived && r.d.floor == d.floor && r.d.charges == STORED
            && r.d.recorded == d.recorded + {DmKey(seqNo)}
            && QuietLog(r.d.log) && Awaiting(r.d.log, CHARGE_ID)
  {
    assert ChargeKey(DEMO, ev) == [];
    var d0 := d.(asked := d.asked + [AskThink(seqNo)]);
    var (d1, issued) := IssueCharge(d0, [], 10, ARMING.charge);
    assert ChargeIds(map[]) == {};
    assert issued == ChargeIs(Charge(CHARGE_ID, 10)) && d1.charges == STORED;
    assert d1.log == d.log && d1.recorded == d.recorded && d1.arrived == d.arrived && d1.floor == d.floor;
    hide IssueCharge;
    DemoInvoices(g.(poison := 0), d1, seqNo, ev);
    hide InvoiceTick;
    hide Awaiting;
    hide QuietLog;
  }

  /** A tick of the demonstration that serves a request. */
  lemma DemoTick(w: World, ev: Event)
    requires !w.g.parked && Head(w.g, w.d) == Some(ev) && ev.kind == DirectMessage && ev.sourcePubkey == CUSTOMER
    requires (w.d.charges == map[] || w.d.charges == STORED) && QuietLog(w.d.log)
    requires forall c :: c in w.g.pending ==> c == CHARGE_ID
    ensures var w' := Step(DEMO, w, Run(ARMING));
            && !w'.g.parked && w'.g.committed == w.g.committed + 1 && w'.g.ack == ev.inboxSeq
            && w'.g.pending == map[CHARGE_ID := Quoted(w.g.committed + 1)]
            && w'.d.arrived == w.d.arrived && w'.d.floor == Max(w.d.floor, w.g.ack) && w'.d.charges == STORED
            && w'.d.recorded == w.d.recorded + {DmKey(w.g.committed + 1)}
            && QuietLog(w'.d.log) && Awaiting(w'.d.log, CHARGE_ID)
  {
    PrunesTo(w);
    hide PollOne;
    hide Tick;
    hide Awaiting;
    hide QuietLog;
    var d := TickIs(DEMO, w.g, w.d, ARMING);
    DemoPrices(Aged(w.g), d, w.g.committed + 1, ev);
    hide HandleEvent;
    AgedSubset(w.g);
    hide AgeOut;
    assert Aged(w.g).pending[CHARGE_ID := Quoted(w.g.committed + 1)] == map[CHARGE_ID := Quoted(w.g.committed + 1)];
  }

  lemma PrunesTo(w: World)
    ensures PollOne(w.d, w.g.ack, PollOk).0.floor == Max(w.d.floor, w.g.ack)
  {
    hide Waiting;
    hide Oldest;
  }

  /** Requests and settlement as the daemon numbers them. */
  function Numbered(ev: Event, n: nat): Event {
    ev.(inboxSeq := n)
  }

  /** A request arrives in an inbox that is all consumed, and is served. */
  lemma DemoServes(w: World)
    requires !w.g.parked && w.g.ack == LastSeq(w.d.arrived) && Growing(w.d.arrived) && w.d.floor <= w.g.ack
    requires (w.d.charges == map[] || w.d.charges == STORED) && QuietLog(w.d.log)
    requires forall c :: c in w.g.pending ==> c == CHARGE_ID
    ensures var ev, w' := Numbered(DM, w.g.ack + 1), Step(DEMO, Step(DEMO, w, Arrive(DM, 0)), Run(ARMING));
            && !w'.g.parked && w'.g.committed == w.g.committed + 1 && w'.g.ack == w.g.ack + 1
            && w'.g.pending == map[CHARGE_ID := Quoted(w.g.committed + 1)]
            && w'.d.arrived == w.d.arrived + [ev] && w'.d.floor == w.g.ack && w'.d.charges == STORED
            && w'.d.recorded == w.d.recorded + {DmKey(w.g.committed + 1)}
            && QuietLog(w'.d.log) && Growing(w'.d.arrived) && Awaiting(w'.d.log, CHARGE_ID)
  {
    var w1, ev := Step(DEMO, w, Arrive(DM, 0)), Numbered(DM, w.g.ack + 1);
    hide *;
    RequestArrives(w);
    DemoTick(w1, ev);
    MaxOfTwo(w.d.floor, w.g.ack);
  }

  lemma MaxOfTwo(a: nat, b: nat)
    requires a <= b
    ensures Max(a, b) == b
  {
  }

  lemma RequestArrives(w: World)
    requires w.g.ack == LastSeq(w.d.arrived) && Growing(w.d.arrived) && w.d.floor <= w.g.ack
    ensures var ev, w1 := Numbered(DM, w.g.ack + 1), Step(DEMO, w, Arrive(DM, 0));
            && w1 == w.(d := w.d.(arrived := w.d.arrived + [ev])) && Growing(w1.d.arrived)
            && Head(w1.g, w1.d) == Some(ev) && ev.kind == DirectMessage && ev.sourcePubkey == CUSTOMER
            && ev.inboxSeq == w.g.ack + 1
  {
    GrowsByLast(w.d.arrived, Numbered(DM, w.g.ack + 1));
    NewestIsHead(w, Numbered(DM, w.g.ack + 1));
    hide PollOne;
    hide Growing;
  }

  lemma NewestIsHead(w: World, ev: Event)
    requires w.g.ack == LastSeq(w.d.arrived) && Growing(w.d.arrived) && w.d.floor <= w.g.ack
    requires Wanted(ev) && ev.inboxSeq == w.g.ack + 1
    ensures Head(w.g, w.d.(arrived := w.d.arrived + [ev])) == Some(ev)
  {
    var d := w.d.(arrived := w.d.arrived + [ev]);
    GrowsByLast(w.d.arrived, ev);
    assert d.arrived[|w.d.arrived|] == ev;
    hide Growing;
    hide LastSeq;
    HeadIsLeast(w.g, d, ev);
    hide Head;
  }

  lemma GrowsByLast(arrived: seq<Event>, ev: Event)
    requires Growing(arrived) && ev.inboxSeq == LastSeq(arrived) + 1
    ensures Growing(arrived + [ev]) && forall f :: f in arrived ==> f.inboxSeq <= LastSeq(arrived)
  {
    var more := arrived + [ev];
    assert forall i :: 0 <= i < |arrived| ==> more[i] == arrived[i];
  }

  /** Before the reboot: two requests, and so two burned keys. */
  lemma DemoFirstBoot() returns (inputs: seq<Input>)
    ensures var w := After(DEMO, INITIAL_WORLD, inputs);
            && w.d.arrived == [Numbered(DM, 1), Numbered(DM, 2)] && w.d.floor == 1 && w.d.charges == STORED
            && w.d.recorded == {DmKey(1), DmKey(2)} && QuietLog(w.d.log)
  {
    hide Step;
    var i0: seq<Input> := [];
    var i1 := i0 + [Arrive(DM, 0)];
    var i2 := i1 + [Run(ARMING)];
    var i3 := i2 + [Arrive(DM, 0)];
    inputs := i3 + [Run(ARMING)];
    AfterSnoc(DEMO, INITIAL_WORLD, i0, Arrive(DM, 0));
    AfterSnoc(DEMO, INITIAL_WORLD, i1, Run(ARMING));
    AfterSnoc(DEMO, INITIAL_WORLD, i2, Arrive(DM, 0));
    AfterSnoc(DEMO, INITIAL_WORLD, i3, Run(ARMING));
    DemoServes(INITIAL_WORLD);
    hide After;
    hide QuietLog;
    DemoServes(After(DEMO, INITIAL_WORLD, i2));
  }

  /** After it: the unpruned request is served again, its invoice is only a duplicate, and yet it is armed. */
  lemma DemoSecondBoot() returns (inputs: seq<Input>)
    ensures var w := After(DEMO, INITIAL_WORLD, inputs);
            && w.d.arrived == [Numbered(DM, 1), Numbered(DM, 2), Numbered(SETTLEMENT, 3)]
            && !w.g.parked && w.d.floor == 1 && w.g.ack == 2 && w.g.committed == 1
            && w.g.pending == map[CHARGE_ID := Quoted(1)]
            && w.d.recorded == {DmKey(1), DmKey(2)} && QuietLog(w.d.log) && Awaiting(w.d.log, CHARGE_ID)
  {
    hide Iterate;
    var i0 := DemoFirstBoot();
    var i1 := i0 + [Reboot];
    var i2 := i1 + [Run(ARMING)];
    inputs := i2 + [Arrive(SETTLEMENT, 0)];
    AfterSnoc(DEMO, INITIAL_WORLD, i0, Reboot);
    AfterSnoc(DEMO, INITIAL_WORLD, i1, Run(ARMING));
    AfterSnoc(DEMO, INITIAL_WORLD, i2, Arrive(SETTLEMENT, 0));
    var w1 := After(DEMO, INITIAL_WORLD, i1);
    HeadIsLeast(w1.g, w1.d, Numbered(DM, 2));
    DemoTick(w1, Numbered(DM, 2));
  }

  /** In `w'`, the settlement `paid` has been consumed, its charge waits no more, and no attestation was ever
      delivered to anyone. */
  ghost predicate PaidForNothing(w: World, paid: Event) {
    && paid.kind == PaymentSettled && DEMO.decodeSettled(paid.payload) == Some(Settled(CHARGE_ID, 10))
    && w.g.consumed != [] && w.g.consumed[|w.g.consumed| - 1] == paid
    && CHARGE_ID !in w.g.pending && Awaiting(w.d.log, CHARGE_ID) && QuietLog(w.d.log)
  }

  /** A settlement handled under a burned key is consumed as answered, and delivers nothing. */
  lemma LosesPaid(w: World, paid: Event)
    requires Inv(DEMO, w) && Holding(DEMO, w.g, w.d, CHARGE_ID) && Head(w.g, w.d) == Some(paid)
    requires paid.payload == CHARGE_ID
    requires DmKey(w.g.committed + 1) in w.d.recorded && QuietLog(w.d.log) && Awaiting(w.d.log, CHARGE_ID)
    ensures CountsAsSent(DEMO, w, REACHED_ENV, CHARGE_ID)
    ensures PaidForNothing(Step(DEMO, w, Run(REACHED_ENV)), paid)
  {
    hide PollOne;
    hide Awaiting;
    hide QuietLog;
    hide Step;
    hide AgeOut;
    InvParts(DEMO, w);
    HeldParts(DEMO, w.g, w.d, CHARGE_ID);
    hide Inv;
    var d := HeldStep(DEMO, w, REACHED_ENV, CHARGE_ID);
    var seqNo := w.g.committed + 1;
    SettleOutcome(DEMO, Aged(w.g), d, seqNo, paid, CHARGE_ID, REACHED_ENV);
    var a := SettledShape(DEMO, Aged(w.g), d, seqNo, paid, CHARGE_ID, REACHED_ENV);
    hide SettleTick;
  }

  /** A concrete run that reboots. */
  lemma SomeRebootLosesAPaidAnswer() returns (inputs: seq<Input>, paid: Event)
    ensures PaidForNothing(After(DEMO, INITIAL_WORLD, inputs), paid)
  {
    var i := DemoSecondBoot();
    var w := After(DEMO, INITIAL_WORLD, i);
    inputs, paid := i + [Run(REACHED_ENV)], Numbered(SETTLEMENT, 3);
    AfterSnoc(DEMO, INITIAL_WORLD, i, Run(REACHED_ENV));
    ReachableInv(DEMO, i);
    hide After;
    hide Step;
    hide PaidForNothing;
    GrowingOf(DEMO, w);
    HeadIsLeast(w.g, w.d, paid);
    DemoHolds(w, paid);
    LosesPaid(w, paid);
  }

  lemma DemoHolds(w: World, paid: Event)
    requires !w.g.parked && w.g.committed == 1 && w.g.pending == map[CHARGE_ID := Quoted(1)]
    requires Head(w.g, w.d) == Some(paid) && paid.kind == PaymentSettled && paid.payload == CHARGE_ID
    requires paid.correlationId == CHARGE_ID
    ensures Holding(DEMO, w.g, w.d, CHARGE_ID)
  {
    hide PollOne;
    assert DEMO.decodeSettled(paid.payload) == Some(Settled(CHARGE_ID, 10));
  }

  /** The relay rejects the DM and the rejection is lost. */
  const REJECTING := REACHED_ENV.(dm := DmReached(UpstreamFailed, true))

  /** A request is served and paid for. */
  lemma DemoPays() returns (inputs: seq<Input>)
    ensures inputs == [Arrive(DM, 0), Run(ARMING), Arrive(SETTLEMENT, 0)]
    ensures Charged(After(DEMO, INITIAL_WORLD, inputs))
  {
    var i0: seq<Input> := [];
    var i1 := i0 + [Arrive(DM, 0)];
    var i2 := i1 + [Run(ARMING)];
    inputs := i2 + [Arrive(SETTLEMENT, 0)];
    assert After(DEMO, INITIAL_WORLD, i0) == INITIAL_WORLD;
    DemoServes(INITIAL_WORLD);
    hide Step;
    hide After;
    hide QuietLog;
    hide Awaiting;
    hide Charged;
    AfterSnoc(DEMO, INITIAL_WORLD, i0, Arrive(DM, 0));
    AfterSnoc(DEMO, INITIAL_WORLD, i1, Run(ARMING));
    AfterSnoc(DEMO, INITIAL_WORLD, i2, Arrive(SETTLEMENT, 0));
    SettlementArrives(After(DEMO, INITIAL_WORLD, i2));
  }

  /** One charge waits, its settlement is the head of the inbox, and the next key is free. */
  ghost predicate Charged(w: World) {
    && !w.g.parked && w.g.committed == 1 && w.g.pending == map[CHARGE_ID := Quoted(1)]
    && w.g.ack == 1 && w.d.arrived == [Numbered(DM, 1), Numbered(SETTLEMENT, 2)] && w.d.floor == 0
    && Head(w.g, w.d) == Some(Numbered(SETTLEMENT, 2)) && w.d.recorded == {DmKey(1)}
    && QuietLog(w.d.log) && Awaiting(w.d.log, CHARGE_ID)
  }

  lemma SettlementArrives(w: World)
    requires !w.g.parked && w.g.committed == 1 && w.g.ack == 1 && w.g.pending == map[CHARGE_ID := Quoted(1)]
    requires w.d.arrived == [Numbered(DM, 1)] && w.d.floor == 0 && w.d.recorded == {DmKey(1)}
    requires Growing(w.d.arrived) && QuietLog(w.d.log) && Awaiting(w.d.log, CHARGE_ID)
    ensures Charged(Step(DEMO, w, Arrive(SETTLEMENT, 0)))
  {
    NewestIsHead(w, Numbered(SETTLEMENT, 2));
    hide PollOne;
    hide QuietLog;
    hide Awaiting;
  }

  /** A concrete steady run without a reboot: the first try of the answer is rejected and the rejection lost, the
      retry under the same number is taken for a duplicate. */
  lemma SomeSteadyRunLosesAPaidAnswer() returns (inputs: seq<Input>, paid: Event)
    ensures NoReboot(inputs) && Steady(DEMO, INITIAL_WORLD, inputs)
    ensures PaidForNothing(After(DEMO, INITIAL_WORLD, inputs), paid)
  {
    var i3 := DemoPays();
    hide *;
    paid := Numbered(SETTLEMENT, 2);
    var i4 := i3 + [Run(REJECTING)];
    inputs := i4 + [Run(REACHED_ENV)];
    AfterSnoc(DEMO, INITIAL_WORLD, i3, Run(REJECTING));
    AfterSnoc(DEMO, INITIAL_WORLD, i4, Run(REACHED_ENV));
    ReachableInv(DEMO, i3);
    ReachableInv(DEMO, i4);
    RejectedOnce(After(DEMO, INITIAL_WORLD, i3), paid);
    LosesPaid(After(DEMO, INITIAL_WORLD, i4), paid);
    PollsWell(inputs);
  }

  lemma RejectedOnce(w: World, paid: Event)
    requires Inv(DEMO, w) && Charged(w) && paid == Numbered(SETTLEMENT, 2)
    ensures paid.payload == CHARGE_ID
    ensures var w' := Step(DEMO, w, Run(REJECTING));
            && Holding(DEMO, w'.g, w'.d, CHARGE_ID) && Head(w'.g, w'.d) == Some(paid)
            && DmKey(w'.g.committed + 1) in w'.d.recorded && QuietLog(w'.d.log) && Awaiting(w'.d.log, CHARGE_ID)
  {
    hide Step;
    hide Inv;
    hide QuietLog;
    hide Awaiting;
    hide PollOne;
    DemoHolds(w, paid);
    hide Holding;
    HeldLedger(DEMO, w, REJECTING, CHARGE_ID);
    HeldAgain(DEMO, w, REJECTING, CHARGE_ID);
  }

  lemma PollsWell(inputs: seq<Input>)
    requires inputs == [Arrive(DM, 0), Run(ARMING), Arrive(SETTLEMENT, 0)] + [Run(REJECTING)] + [Run(REACHED_ENV)]
    ensures NoReboot(inputs) && Steady(DEMO, INITIAL_WORLD, inputs)
  {
    hide After;
  }
}
