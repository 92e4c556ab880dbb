/** A price request gets five tries of its own: what the failure counter counts, in every run, and when a failing think
    drops its request. */
module OraclePoison {
  import opened Bytes
  import opened OracleModel
  import opened OracleSafety
  import opened OracleAtMostOnce
  import opened OracleProgress

  // ---- The thinks of a run ----

  predicate IsPrice(cfg: Codec, ev: Event) {
    ev.kind != PaymentSettled && cfg.classify(ev.payload).Price?
  }

  /** The input is a tick that thinks for the price request `ev`, the head of the inbox. */
  ghost predicate ThinksFor(cfg: Codec, w: World, input: Input, ev: Event) {
    input.Run? && !w.g.parked && input.env.poll.PollOk? && Head(w.g, w.d) == Some(ev) && IsPrice(cfg, ev)
  }

  ghost predicate Fails(cfg: Codec, w: World, input: Input, ev: Event) {
    ThinksFor(cfg, w, input, ev) && (input.env.think.ThinkErr? || input.env.think.ThinkHiccup?)
  }

  ghost predicate Performs(cfg: Codec, w: World, input: Input, ev: Event) {
    ThinksFor(cfg, w, input, ev) && input.env.think.ThinkPerformed?
  }

  /** Input `k` is a tick whose think for `ev` fails. */
  ghost predicate FailedAt(cfg: Codec, inputs: seq<Input>, k: nat, ev: Event) {
    k < |inputs| && Fails(cfg, After(cfg, INITIAL_WORLD, inputs[..k]), inputs[k], ev)
  }

  /** Input `k` is a reboot, or a tick whose think for `ev` is performed. */
  ghost predicate ClearedAt(cfg: Codec, inputs: seq<Input>, k: nat, ev: Event) {
    && k < |inputs|
    && (inputs[k].Reboot? || Performs(cfg, After(cfg, INITIAL_WORLD, inputs[..k]), inputs[k], ev))
  }

  /** The ticks whose think for `ev` failed, since the last that was performed or the last reboot. */
  ghost function Failures(cfg: Codec, inputs: seq<Input>, ev: Event): set<nat> {
    set k: nat | k < |inputs| && FailedAt(cfg, inputs, k, ev) && NotClearedSince(cfg, inputs, k, ev)
  }

  ghost predicate NotClearedSince(cfg: Codec, inputs: seq<Input>, k: nat, ev: Event) {
    forall j: nat :: k < j < |inputs| ==> !ClearedAt(cfg, inputs, j, ev)
  }

  // ---- What one input does to the failures ----

  lemma FrontAgrees(cfg: Codec, inputs: seq<Input>, n: nat, k: nat, ev: Event)
    requires k < n <= |inputs|
    ensures FailedAt(cfg, inputs[..n], k, ev) <==> FailedAt(cfg, inputs, k, ev)
    ensures ClearedAt(cfg, inputs[..n], k, ev) <==> ClearedAt(cfg, inputs, k, ev)
  {
    hide After;
    hide Fails;
    hide Performs;
    assert inputs[..n][..k] == inputs[..k] && inputs[..n][k] == inputs[k];
  }

  lemma EarlierCounted(cfg: Codec, inputs: seq<Input>, k: nat, ev: Event)
    requires inputs != [] && k < |inputs| - 1
    ensures var n := |inputs| - 1;
            k in Failures(cfg, inputs, ev) <==> k in Failures(cfg, inputs[..n], ev) && !ClearedAt(cfg, inputs, n, ev)
  {
    FrontAgrees(cfg, inputs, |inputs| - 1, k, ev);
    SinceSnoc(cfg, inputs, k, ev);
    hide FailedAt;
    hide ClearedAt;
    hide NotClearedSince;
  }

  lemma LastCounted(cfg: Codec, inputs: seq<Input>, ev: Event)
    requires inputs != []
    ensures |inputs| - 1 in Failures(cfg, inputs, ev) <==> FailedAt(cfg, inputs, |inputs| - 1, ev)
  {
    hide FailedAt;
    hide ClearedAt;
  }

  lemma CountedBelow(cfg: Codec, inputs: seq<Input>, ev: Event)
    ensures forall k :: k in Failures(cfg, inputs, ev) ==> k < |inputs|
  {
    hide FailedAt;
    hide NotClearedSince;
  }

  /** The last input clears them, adds itself, or leaves them. */
  lemma FailuresSnoc(cfg: Codec, inputs: seq<Input>, ev: Event)
    requires inputs != []
    ensures var n := |inputs| - 1;
            var w, before := After(cfg, INITIAL_WORLD, inputs[..n]), Failures(cfg, inputs[..n], ev);
            && n !in before
            && Failures(cfg, inputs, ev) ==
                 if inputs[n].Reboot? || Performs(cfg, w, inputs[n], ev) then {}
                 else if Fails(cfg, w, inputs[n], ev) then before + {n}
                 else before
  {
    hide *;
    var n := |inputs| - 1;
    FailedIsNotCleared(cfg, inputs, n, ev);
    LastCounted(cfg, inputs, ev);
    CountedBelow(cfg, inputs, ev);
    CountedBelow(cfg, inputs[..n], ev);
    forall k: nat | k < n
      ensures k in Failures(cfg, inputs, ev) <==>
              k in Failures(cfg, inputs[..n], ev) && !ClearedAt(cfg, inputs, n, ev)
    {
      EarlierCounted(cfg, inputs, k, ev);
    }
  }

  lemma SinceSnoc(cfg: Codec, inputs: seq<Input>, k: nat, ev: Event)
    requires inputs != [] && k < |inputs| - 1
    ensures var n := |inputs| - 1;
            NotClearedSince(cfg, inputs, k, ev) <==>
            NotClearedSince(cfg, inputs[..n], k, ev) && !ClearedAt(cfg, inputs, n, ev)
  {
    var n := |inputs| - 1;
    forall j: nat | j < n ensures ClearedAt(cfg, inputs[..n], j, ev) <==> ClearedAt(cfg, inputs, j, ev) {
      FrontAgrees(cfg, inputs, n, j, ev);
    }
    hide ClearedAt;
  }

  lemma FailedIsNotCleared(cfg: Codec, inputs: seq<Input>, n: nat, ev: Event)
    requires n < |inputs|
    ensures var w := After(cfg, INITIAL_WORLD, inputs[..n]);
            && (FailedAt(cfg, inputs, n, ev) <==> Fails(cfg, w, inputs[n], ev))
            && (ClearedAt(cfg, inputs, n, ev) <==> inputs[n].Reboot? || Performs(cfg, w, inputs[n], ev))
            && !(FailedAt(cfg, inputs, n, ev) && ClearedAt(cfg, inputs, n, ev))
  {
    hide After;
  }

  // ---- What one input does to the counter ----

  /** What handling `ev` does to the counter. */
  lemma HandleCounts(cfg: Codec, g: Genome, d: Daemon, seqNo: nat, ev: Event, env: TickEnv)
    ensures var r := HandleEvent(cfg, g, d, seqNo, ev, env);
            var price := IsPrice(cfg, ev);
            && r.d.arrived == d.arrived && r.d.floor == d.floor
            && (if price && (env.think.ThinkErr? || env.think.ThinkHiccup?)
                then if g.poison >= 4 then r.g.poison == 0 && r.g.ack == ev.inboxSeq
                     else r.g.poison == g.poison + 1 && r.g.ack == g.ack
                else r.g.poison == (if price && env.think.ThinkPerformed? then 0 else g.poison)
                     && (r.g.ack == g.ack || r.g.ack == ev.inboxSeq)
                     && (price && env.think.ThinkBroke? ==> r.g.ack == g.ack))
  {
    HandleCursor(cfg, g, d, seqNo, ev, env);
    if ev.kind == PaymentSettled {
      hide DmTick;
      hide BuildAnswer;
    } else {
      hide SettleTick;
    }
  }

  /** What a tick does to the counter, the cursor and the head. */
  ghost predicate Counts(cfg: Codec, w: World, env: TickEnv, w': World) {
    && (w'.g.ack == w.g.ack ==> Head(w'.g, w'.d) == Head(w.g, w.d))
    && (w'.g.ack != w.g.ack ==>
          && Head(w.g, w.d).Some? && w'.g.ack == Head(w.g, w.d).value.inboxSeq
          && (Head(w'.g, w'.d).Some? ==> Head(w'.g, w'.d).value.inboxSeq > w'.g.ack)
          && var ev := Head(w.g, w.d).value;
             Fails(cfg, w, Run(env), ev) || Performs(cfg, w, Run(env), ev) || !IsPrice(cfg, ev))
    && (if Head(w.g, w.d).Some? && Fails(cfg, w, Run(env), Head(w.g, w.d).value)
        then if w.g.poison >= 4 then w'.g.poison == 0 && w'.g.ack == Head(w.g, w.d).value.inboxSeq
             else w'.g.poison == w.g.poison + 1 && w'.g.ack == w.g.ack
        else w'.g.poison == if Head(w.g, w.d).Some? && Performs(cfg, w, Run(env), Head(w.g, w.d).value) then 0
                            else w.g.poison)
  }

  lemma TickCounts(cfg: Codec, w: World, env: TickEnv)
    requires Inv(cfg, w)
    ensures Counts(cfg, w, env, Step(cfg, w, Run(env)))
  {
    hide HandleEvent;
    hide Tick;
    hide PollOne;
    hide AgeOut;
    hide Inv;
    if w.g.parked {
      ParkedStep(cfg, w, env);
    } else {
      var w' := Step(cfg, w, Run(env));
      var d := TickIs(cfg, w.g, w.d, env);
      if env.poll.PollOk? && Head(w.g, w.d).Some? {
        var ev := Head(w.g, w.d).value;
        HandleCounts(cfg, Aged(w.g), d, w.g.committed + 1, ev, env);
      }
      if w'.g.ack == w.g.ack {
        HeadStable(w.g, w.d, w'.g, w'.d);
      } else {
        HeadPastAck(w'.g, w'.d);
      }
    }
  }

  lemma HeadPastAck(g: Genome, d: Daemon)
    ensures Head(g, d).Some? ==> Head(g, d).value.inboxSeq > g.ack
  {
    PolledEvent(d, g.ack, PollOk);
  }

  // ---- The counter in every run ----

  /** The counter counts the failures of the head, and no event has failures but the head and those consumed. */
  ghost predicate CounterOk(cfg: Codec, inputs: seq<Input>, w: World) {
    && w.g.poison == (if Head(w.g, w.d).None? then 0 else |Failures(cfg, inputs, Head(w.g, w.d).value)|)
    && w.g.poison < 5
    && (forall ev :: Failures(cfg, inputs, ev) != {} ==> ev.inboxSeq <= w.g.ack || Head(w.g, w.d) == Some(ev))
  }

  lemma {:induction false} CounterIs(cfg: Codec, inputs: seq<Input>)
    ensures CounterOk(cfg, inputs, After(cfg, INITIAL_WORLD, inputs))
  {
    if inputs == [] {
      NothingFailed(cfg);
    } else {
      hide *;
      var n := |inputs| - 1;
      var w := After(cfg, INITIAL_WORLD, inputs[..n]);
      CounterIs(cfg, inputs[..n]);
      ReachableInv(cfg, inputs[..n]);
      LastStep(cfg, inputs);
      match inputs[n]
      case Run(env) => RunCounts(cfg, inputs, w, env);
      case Arrive(ev, gap) => ArrivalCounts(cfg, inputs, w, ev, gap);
      case Reboot => RebootCounts(cfg, inputs, w);
    }
  }

  lemma LastStep(cfg: Codec, inputs: seq<Input>)
    requires inputs != []
    ensures After(cfg, INITIAL_WORLD, inputs) ==
              Step(cfg, After(cfg, INITIAL_WORLD, inputs[..|inputs| - 1]), inputs[|inputs| - 1])
  {
    hide Step;
  }

  lemma NothingFailed(cfg: Codec)
    ensures CounterOk(cfg, [], After(cfg, INITIAL_WORLD, []))
  {
    assert Head(FRESH_GENOME, INITIAL_WORLD.d).None?;
  }

  lemma RebootCounts(cfg: Codec, inputs: seq<Input>, w: World)
    requires inputs != [] && inputs[|inputs| - 1].Reboot?
    ensures CounterOk(cfg, inputs, Step(cfg, w, Reboot))
  {
    forall ev ensures Failures(cfg, inputs, ev) == {} {
      FailuresSnoc(cfg, inputs, ev);
    }
    hide Failures;
    hide PollOne;
  }

  lemma ArrivalCounts(cfg: Codec, inputs: seq<Input>, w: World, ev: Event, gap: nat)
    requires inputs != [] && inputs[|inputs| - 1] == Arrive(ev, gap)
    requires w == After(cfg, INITIAL_WORLD, inputs[..|inputs| - 1]) && Inv(cfg, w)
    requires CounterOk(cfg, inputs[..|inputs| - 1], w)
    ensures CounterOk(cfg, inputs, Step(cfg, w, Arrive(ev, gap)))
  {
    forall e ensures Failures(cfg, inputs, e) == Failures(cfg, inputs[..|inputs| - 1], e) {
      FailuresSnoc(cfg, inputs, e);
    }
    hide Failures;
    hide After;
    var w' := Step(cfg, w, Arrive(ev, gap));
    if Head(w.g, w.d).Some? {
      ArrivalKeepsTheHead(cfg, w, ev, gap);
    } else {
      HeadPastAck(w'.g, w'.d);
    }
    hide PollOne;
    hide Inv;
  }

  lemma ArrivalKeepsTheHead(cfg: Codec, w: World, ev: Event, gap: nat)
    requires Inv(cfg, w) && Head(w.g, w.d).Some?
    ensures var w' := Step(cfg, w, Arrive(ev, gap)); w'.g == w.g && Head(w'.g, w'.d) == Head(w.g, w.d)
  {
    hide PollOne;
    StepKeeps(cfg, w, Arrive(ev, gap));
    var w' := Step(cfg, w, Arrive(ev, gap));
    HeadKeepsOnArrival(w.g, w.d, w'.d, ev.(inboxSeq := LastSeq(w.d.arrived) + 1 + gap));
  }

  lemma RunCounts(cfg: Codec, inputs: seq<Input>, w: World, env: TickEnv)
    requires inputs != [] && inputs[|inputs| - 1] == Run(env)
    requires w == After(cfg, INITIAL_WORLD, inputs[..|inputs| - 1]) && Inv(cfg, w)
    requires CounterOk(cfg, inputs[..|inputs| - 1], w)
    ensures CounterOk(cfg, inputs, Step(cfg, w, Run(env)))
  {
    hide *;
    var w' := Step(cfg, w, Run(env));
    TickCounts(cfg, w, env);
    HeadPastAck(w.g, w.d);
    OnlyTheHead(cfg, w, env);
    forall e ensures OthersStay(cfg, inputs, w, env, e) {
      FailuresSnoc(cfg, inputs, e);
      OthersStayIf(cfg, inputs, w, env, e);
    }
    if Head(w.g, w.d).Some? {
      var ev := Head(w.g, w.d).value;
      FailuresSnoc(cfg, inputs, ev);
      HeadCounts(cfg, inputs, w, env, w', ev);
    } else {
      IdleCounts(cfg, inputs, w, env, w');
    }
  }

  /** An event not thought for keeps its failures. */
  ghost predicate OthersStay(cfg: Codec, inputs: seq<Input>, w: World, env: TickEnv, e: Event)
    requires inputs != []
  {
    Head(w.g, w.d) != Some(e) ==> Failures(cfg, inputs, e) == Failures(cfg, inputs[..|inputs| - 1], e)
  }

  lemma OthersStayIf(cfg: Codec, inputs: seq<Input>, w: World, env: TickEnv, e: Event)
    requires inputs != []
    requires Fails(cfg, w, Run(env), e) || Performs(cfg, w, Run(env), e) ==> Head(w.g, w.d) == Some(e)
    requires Failures(cfg, inputs, e) ==
               if Performs(cfg, w, Run(env), e) then {}
               else if Fails(cfg, w, Run(env), e) then Failures(cfg, inputs[..|inputs| - 1], e) + {|inputs| - 1}
               else Failures(cfg, inputs[..|inputs| - 1], e)
    ensures OthersStay(cfg, inputs, w, env, e)
  {
    hide PollOne;
    hide Failures;
  }

  lemma IdleCounts(cfg: Codec, inputs: seq<Input>, w: World, env: TickEnv, w': World)
    requires inputs != [] && CounterOk(cfg, inputs[..|inputs| - 1], w) && Counts(cfg, w, env, w')
    requires Head(w.g, w.d).None? && forall e :: OthersStay(cfg, inputs, w, env, e)
    ensures CounterOk(cfg, inputs, w')
  {
    hide PollOne;
    hide Failures;
    hide Fails;
    hide Performs;
    forall e | Failures(cfg, inputs, e) != {} ensures e.inboxSeq <= w'.g.ack {
      assert OthersStay(cfg, inputs, w, env, e);
    }
  }

  lemma OnlyPricesFail(cfg: Codec, inputs: seq<Input>, ev: Event)
    requires !IsPrice(cfg, ev)
    ensures Failures(cfg, inputs, ev) == {}
  {
    hide After;
  }

  lemma HeadCounts(cfg: Codec, inputs: seq<Input>, w: World, env: TickEnv, w': World, ev: Event)
    requires inputs != [] && CounterOk(cfg, inputs[..|inputs| - 1], w) && Counts(cfg, w, env, w')
    requires Head(w.g, w.d) == Some(ev) && ev.inboxSeq > w.g.ack
    requires forall e :: OthersStay(cfg, inputs, w, env, e)
    requires var n, before := |inputs| - 1, Failures(cfg, inputs[..|inputs| - 1], ev);
             && n !in before
             && Failures(cfg, inputs, ev) == if Performs(cfg, w, Run(env), ev) then {}
                                             else if Fails(cfg, w, Run(env), ev) then before + {n} else before
    requires !(Fails(cfg, w, Run(env), ev) && Performs(cfg, w, Run(env), ev))
    ensures CounterOk(cfg, inputs, w')
  {
    hide PollOne;
    hide Failures;
    hide Fails;
    hide Performs;
    forall e | Failures(cfg, inputs, e) != {} ensures e.inboxSeq <= w'.g.ack || Head(w'.g, w'.d) == Some(e) {
      assert OthersStay(cfg, inputs, w, env, e);
    }
    if !IsPrice(cfg, ev) {
      OnlyPricesFail(cfg, inputs[..|inputs| - 1], ev);
    }
    if w'.g.ack != w.g.ack && Head(w'.g, w'.d).Some? {
      assert OthersStay(cfg, inputs, w, env, Head(w'.g, w'.d).value);
    }
  }

  /** Only the head is thought for. */
  lemma OnlyTheHead(cfg: Codec, w: World, env: TickEnv)
    ensures forall ev :: Fails(cfg, w, Run(env), ev) || Performs(cfg, w, Run(env), ev) ==> Head(w.g, w.d) == Some(ev)
    ensures forall ev :: !(Fails(cfg, w, Run(env), ev) && Performs(cfg, w, Run(env), ev))
  {
    hide PollOne;
  }

  // ---- Main results ----

  /** In every run the counter is the number of ticks whose think for the current head failed since the last that was
      performed, or the reboot; with an empty inbox it is zero. */
  lemma CounterIsFailures(cfg: Codec, inputs: seq<Input>)
    ensures var w := After(cfg, INITIAL_WORLD, inputs);
            w.g.poison == if Head(w.g, w.d).None? then 0 else |Failures(cfg, inputs, Head(w.g, w.d).value)|
  {
    CounterIs(cfg, inputs);
    hide After;
    hide PollOne;
    hide Failures;
  }

  /** In every run, a tick whose think for `ev` fails consumes `ev` exactly when that is its fifth failure, with no
      performed think and no reboot between them; before that it stays the head. */
  lemma DropsAtTheFifth(cfg: Codec, inputs: seq<Input>, ev: Event)
    requires inputs != [] && FailedAt(cfg, inputs, |inputs| - 1, ev)
    ensures var w := After(cfg, INITIAL_WORLD, inputs);
            && |Failures(cfg, inputs, ev)| <= 5
            && (w.g.ack == ev.inboxSeq <==> |Failures(cfg, inputs, ev)| == 5)
            && (w.g.ack != ev.inboxSeq ==> Head(w.g, w.d) == Some(ev))
  {
    hide *;
    var n := |inputs| - 1;
    var w := After(cfg, INITIAL_WORLD, inputs[..n]);
    CounterIs(cfg, inputs[..n]);
    ReachableInv(cfg, inputs[..n]);
    FailuresSnoc(cfg, inputs, ev);
    LastStep(cfg, inputs);
    FailedIsNotCleared(cfg, inputs, n, ev);
    ItRuns(cfg, w, inputs[n], ev);
    TickCounts(cfg, w, inputs[n].env);
    HeadPastAck(w.g, w.d);
    OnlyTheHead(cfg, w, inputs[n].env);
    CountsFailure(cfg, inputs[..n], w, inputs[n].env, After(cfg, INITIAL_WORLD, inputs), ev);
  }

  lemma CountsFailure(cfg: Codec, front: seq<Input>, w: World, env: TickEnv, w': World, ev: Event)
    requires CounterOk(cfg, front, w) && Counts(cfg, w, env, w') && Head(w.g, w.d) == Some(ev)
    requires Fails(cfg, w, Run(env), ev) && ev.inboxSeq > w.g.ack
    ensures |Failures(cfg, front, ev)| < 5
    ensures w'.g.ack == ev.inboxSeq <==> |Failures(cfg, front, ev)| == 4
    ensures w'.g.ack != ev.inboxSeq ==> Head(w'.g, w'.d) == Some(ev)
  {
    hide PollOne;
    hide Failures;
    hide Fails;
    hide Performs;
  }

  lemma ItRuns(cfg: Codec, w: World, input: Input, ev: Event)
    requires Fails(cfg, w, input, ev)
    ensures input == Run(input.env)
  {
    hide PollOne;
  }
}
