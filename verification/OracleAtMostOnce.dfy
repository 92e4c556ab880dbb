/** The right customer, at most one answer per arming when no soft poll error separates a transient tick from
    its retry, and what a retry sends. */
module OracleAtMostOnce {
  import opened Bytes
  import opened OracleModel
  import opened OracleSafety
  import opened OracleAnswers
  import ChargeIdentity

  // ---- Right customer ----

  /** No two distinct arrived requests share a charge key. */
  ghost predicate CollisionFree(cfg: Codec, arrived: seq<Event>) {
    forall e1, e2 :: e1 in arrived && e2 in arrived && ChargeKey(cfg, e1) == ChargeKey(cfg, e2) ==>
      IdentityOf(e1) == IdentityOf(e2)
  }

  /** Without a hash collision, arming a charge again never changes whom it answers: in every run,
      each attestation goes to the sender of every arming of its charge. */
  lemma NeverRedirected(cfg: Codec, inputs: seq<Input>, i: nat, armed: Obs)
    requires var w := After(cfg, INITIAL_WORLD, inputs);
             && CollisionFree(cfg, w.d.arrived)
             && i < |w.d.log| && IsAttestation(w.d.log[i])
             && armed in w.d.log && armed.Armed? && armed.chargeId == w.d.log[i].text.answer.chargeId
    ensures armed.sender == After(cfg, INITIAL_WORLD, inputs).d.log[i].to
  {
    hide After;
    var w := After(cfg, INITIAL_WORLD, inputs);
    var o := w.d.log[i];
    var k := PaidBeforeAnswered(cfg, inputs, i);
    var w0 := After(cfg, INITIAL_WORLD, inputs[..k]);
    var amount: nat, issued: nat :| Armed(armed.chargeId, o.to, amount, issued) in w0.d.log;
    var first := Armed(armed.chargeId, o.to, amount, issued);
    assert first in w.d.log;
    ReachableInv(cfg, inputs);
    var e1 :| Arms(cfg, w.d, e1, first);
    var e2 :| Arms(cfg, w.d, e2, armed);
    assert IdentityOf(e1) == IdentityOf(e2);
  }

  /** The assumption is about the hash alone: a hash without collisions on the encodings of the
      arrived requests is collision-free on the requests themselves. */
  lemma HashCollisionFree(cfg: Codec, arrived: seq<Event>)
    requires forall e :: e in arrived ==> ChargeIdentity.Representable(IdentityOf(e))
    requires forall e1, e2 :: e1 in arrived && e2 in arrived && ChargeKey(cfg, e1) == ChargeKey(cfg, e2) ==>
               ChargeIdentity.Encode(IdentityOf(e1)) == ChargeIdentity.Encode(IdentityOf(e2))
    ensures CollisionFree(cfg, arrived)
  {
    forall e1, e2 | e1 in arrived && e2 in arrived && ChargeKey(cfg, e1) == ChargeKey(cfg, e2)
      ensures IdentityOf(e1) == IdentityOf(e2)
    {
      ChargeIdentity.EncodeInjective(IdentityOf(e1), IdentityOf(e2));
    }
  }

  // ---- At most one answer ----

  /** No soft poll error between a transient tick and its retry. */
  predicate SteadyStep(w: World, input: Input) {
    input.Run? && w.g.retrying ==> input.env.poll.PollOk?
  }

  ghost predicate Steady(cfg: Codec, w: World, inputs: seq<Input>) {
    forall k :: 0 <= k < |inputs| ==> SteadyStep(After(cfg, w, inputs[..k]), inputs[k])
  }

  /** A charge answered but still waiting is under retry: its delivery burned the current tick's
      key, and its settlement is still the head of the inbox. */
  ghost predicate Exposed(cfg: Codec, g: Genome, d: Daemon, c: Str) {
    && g.retrying && !g.parked
    && DmKey(g.committed + 1) in d.recorded
    && Head(g, d).Some? && Settles(cfg, Head(g, d).value, c, Aged(g).pending)
  }

  ghost predicate OnlyRetriesExposed(cfg: Codec, g: Genome, d: Daemon) {
    forall c :: c in g.pending && Spent(d.log, c) ==> Exposed(cfg, g, d, c)
  }

  /** The head depends on the arrivals and on the greater of cursor and prune mark only. */
  lemma HeadStable(g: Genome, d: Daemon, g': Genome, d': Daemon)
    requires d'.arrived == d.arrived && Max(d'.floor, g'.ack) == Max(d.floor, g.ack)
    ensures Head(g', d') == Head(g, d)
  {
  }

  /** A later arrival does not displace the head. */
  lemma HeadKeepsOnArrival(g: Genome, d: Daemon, d': Daemon, ev: Event)
    requires Growing(d.arrived) && Growing(d'.arrived)
    requires d' == d.(arrived := d.arrived + [ev]) && Head(g, d).Some?
    ensures Head(g, d') == Head(g, d)
  {
    WaitingIsInArrived(d.arrived, Max(d.floor, g.ack));
    WaitingIsInArrived(d'.arrived, Max(d.floor, g.ack));
    var e, e' := Head(g, d).value, Head(g, d').value;
    assert e in d'.arrived && e'.inboxSeq <= e.inboxSeq;
    var i :| 0 <= i < |d.arrived| && d.arrived[i] == e;
    var j :| 0 <= j < |d'.arrived| && d'.arrived[j] == e';
    assert d'.arrived[i] == e;
  }

  /** Handling the head settlement of an exposed charge delivers nothing: the key is burned. */
  lemma ExposedTick(cfg: Codec, g0: Genome, d0: Daemon, env: TickEnv, c: Str)
    requires PendingOk(g0.pending, d0.log, g0.committed) && DaemonOk(cfg, d0)
    requires OnlyRetriesExposed(cfg, g0, d0) && c in g0.pending && Spent(d0.log, c)
    requires env.poll.PollOk?
    ensures var r := Tick(cfg, g0, d0, g0.committed + 1, env);
            r.d.log == d0.log && OnlyRetriesExposed(cfg, Commit(g0, r), r.d)
  {
    hide PollOne;
    hide SettleTick;
    hide DmTick;
    hide Tick;
    hide PendingOk;
    hide DaemonOk;
    hide AgeOut;
    hide Spent;
    var seqNo := g0.committed + 1;
    AgedOk(g0, d0);
    assert Exposed(cfg, g0, d0, c);
    var d := TickIs(cfg, g0, d0, env);
    var ev := Head(g0, d0).value;
    var r := Tick(cfg, g0, d0, seqNo, env);
    assert r == SettleTick(cfg, Aged(g0), d, seqNo, ev, env);
    var a := SettledShape(cfg, Aged(g0), d, seqNo, ev, c, env);
    var g' := Commit(g0, r);
    if r.outcome.Transient? {
      HeadStable(g0, d0, g', r.d);
      forall k | k in g'.pending && Spent(r.d.log, k) ensures Exposed(cfg, g', r.d, k) {
        RetryKeepsExposed(cfg, g0, d0, r, ev, c, a, k);
      }
    } else {
      forall k | k in g0.pending && Spent(d0.log, k) ensures k == c {
        assert Exposed(cfg, g0, d0, k);
      }
      AgedSubset(g0);
    }
  }

  lemma AgedSubset(g: Genome)
    ensures forall c :: c in Aged(g).pending ==> c in g.pending
  {
  }

  /** A lost reply leaves an exposed charge exposed. */
  lemma RetryKeepsExposed(cfg: Codec, g0: Genome, d0: Daemon, r: TickResult, ev: Event, c: Str, a: Answer, k: Str)
    requires OnlyRetriesExposed(cfg, g0, d0) && k in r.g.pending && Spent(d0.log, k)
    requires c in Aged(g0).pending && Head(g0, d0) == Some(ev)
    requires r.g == Aged(g0).(pending := Aged(g0).pending[c := Aged(g0).pending[c].(answer := Some(a))])
    requires r.outcome.Transient? && DmKey(g0.committed + 1) in r.d.recorded
    requires Head(Commit(g0, r), r.d) == Some(ev)
    ensures Exposed(cfg, Commit(g0, r), r.d, k)
  {
    hide PollOne;
    assert k in g0.pending;
    assert Exposed(cfg, g0, d0, k);
  }

  /** With nothing exposed, what a tick leaves answered but waiting is what it has just delivered. */
  ghost predicate SpentOnlyByDelivery(g: Genome, d: Daemon, r: TickResult) {
    forall c :: c in r.g.pending && Spent(r.d.log, c) ==>
      || (c in g.pending && Spent(d.log, c))
      || (exists o :: r.d.log == d.log + [o] && IsAttestation(o) && o.text.answer.chargeId == c)
  }

  lemma SpentAppend(log: seq<Obs>, o: Obs, c: Str)
    ensures Spent(log + [o], c) <==> if About(o) == Some(c) then o.Delivered? else Spent(log, c)
  {
    LastAboutAppend(log, o, c);
  }

  lemma SettleSpent(cfg: Codec, g: Genome, d: Daemon, seqNo: nat, ev: Event, env: TickEnv)
    requires ev.kind == PaymentSettled && CachesMatch(g.pending)
    ensures SpentOnlyByDelivery(g, d, SettleTick(cfg, g, d, seqNo, ev, env))
  {
    hide SettleTick;
    var r := SettleTick(cfg, g, d, seqNo, ev, env);
    if SettledCharge(cfg, ev).Some? && Settles(cfg, ev, SettledCharge(cfg, ev).value, g.pending) {
      var c := SettledCharge(cfg, ev).value;
      var a := SettledShape(cfg, g, d, seqNo, ev, c, env);
      var o := Delivered(seqNo, g.pending[c].sender, Attestation(a));
      forall k | k in r.g.pending && Spent(r.d.log, k) && r.d.log == d.log + [o] && k != c ensures Spent(d.log, k) {
        SpentAppend(d.log, o, k);
      }
    } else {
      UnsettledShape(cfg, g, d, seqNo, ev, env);
    }
  }

  lemma PriceSpent(cfg: Codec, g: Genome, d: Daemon, seqNo: nat, ev: Event, request: Request, env: TickEnv)
    requires IdsDistinct(d.charges)
    ensures SpentOnlyByDelivery(g, d, PriceTick(cfg, g, d, seqNo, ev, request, env))
  {
    hide PriceTick;
    var r := PriceTick(cfg, g, d, seqNo, ev, request, env);
    var c, amount, pc := PriceShape(cfg, g, d, seqNo, ev, request, env);
    if NotArmed(g, d, r) {
      forall k | k in r.g.pending && Spent(r.d.log, k) ensures k in g.pending && Spent(d.log, k) {
        if r.d.log != d.log {
          var o :| About(o).None? && r.d.log == d.log + [o];
          SpentAppend(d.log, o, k);
        }
      }
    } else {
      var armed := Armed(c, ev.sourcePubkey, amount, seqNo);
      var sent := Delivered(seqNo, ev.sourcePubkey, Invoice(c));
      forall k | k in r.g.pending && Spent(r.d.log, k) ensures k in g.pending && Spent(d.log, k) {
        SpentAppend(d.log, armed, k);
        SpentAppend(d.log, sent, k);
        SpentAppend(d.log + [sent], armed, k);
      }
    }
  }

  lemma HandleSpent(cfg: Codec, g: Genome, d: Daemon, seqNo: nat, ev: Event, env: TickEnv)
    requires CachesMatch(g.pending) && IdsDistinct(d.charges)
    ensures SpentOnlyByDelivery(g, d, HandleEvent(cfg, g, d, seqNo, ev, env))
  {
    hide SettleTick;
    hide PriceTick;
    if ev.kind == PaymentSettled {
      SettleSpent(cfg, g, d, seqNo, ev, env);
    } else {
      match cfg.classify(ev.payload)
      case Status =>
        var sent := Delivered(seqNo, ev.sourcePubkey, Books);
        forall k ensures Spent(d.log + [sent], k) <==> Spent(d.log, k) {
          SpentAppend(d.log, sent, k);
        }
      case Unsupported =>
      case Price(_, _) => PriceSpent(cfg, g, d, seqNo, ev, cfg.classify(ev.payload), env);
    }
  }

  /** A settled charge that still waits waits under retry, with the inbox untouched. */
  lemma DeliveredExposes(cfg: Codec, g0: Genome, d: Daemon, seqNo: nat, ev: Event, env: TickEnv, c: Str)
    requires seqNo == g0.committed + 1 && CachesMatch(Aged(g0).pending)
    requires Settles(cfg, ev, c, Aged(g0).pending)
    requires c in HandleEvent(cfg, Aged(g0), d, seqNo, ev, env).g.pending
    requires forall k :: k in Aged(g0).pending ==> seqNo <= Aged(g0).pending[k].issuedSeq + PENDING_TTL_TICKS
    ensures var r := HandleEvent(cfg, Aged(g0), d, seqNo, ev, env);
            && r.outcome.Transient? && r.g.ack == g0.ack && r.d.arrived == d.arrived && r.d.floor == d.floor
            && Settles(cfg, ev, c, Aged(Commit(g0, r)).pending)
  {
    hide SettleTick;
    var a := SettledShape(cfg, Aged(g0), d, seqNo, ev, c, env);
  }

  /** The delivery a tick has just made exposes its charge, if that still waits. */
  lemma DeliveryExposes(cfg: Codec, g0: Genome, d0: Daemon, env: TickEnv, o: Obs)
    requires PendingOk(g0.pending, d0.log, g0.committed) && DaemonOk(cfg, d0)
    requires IsAttestation(o) && Tick(cfg, g0, d0, g0.committed + 1, env).d.log == d0.log + [o]
    requires o.text.answer.chargeId in Tick(cfg, g0, d0, g0.committed + 1, env).g.pending
    ensures var r := Tick(cfg, g0, d0, g0.committed + 1, env);
            Exposed(cfg, Commit(g0, r), r.d, o.text.answer.chargeId)
  {
    hide PollOne;
    hide HandleEvent;
    hide Tick;
    hide PendingOk;
    hide DaemonOk;
    hide AgeOut;
    var seqNo := g0.committed + 1;
    AgedOk(g0, d0);
    TickAppends(cfg, g0, d0, env);
    var d := TickIs(cfg, g0, d0, env);
    var r := Tick(cfg, g0, d0, seqNo, env);
    assert Added(d0.log, r.d.log) == [o];
    assert o in Added(d0.log, r.d.log);
    assert SettledBy(cfg, Aged(g0), d0, seqNo, Head(g0, d0).value, r, o);
    DeliveredExposes(cfg, g0, d, seqNo, Head(g0, d0).value, env, o.text.answer.chargeId);
    HeadStable(g0, d0, Commit(g0, r), r.d);
  }

  lemma SpentFromAged(g0: Genome, d0: Daemon, d: Daemon, r: TickResult)
    requires d.log == d0.log && SpentOnlyByDelivery(Aged(g0), d, r)
    ensures SpentOnlyByDelivery(g0, d0, r)
  {
  }

  lemma TickSpent(cfg: Codec, g0: Genome, d0: Daemon, env: TickEnv)
    requires PendingOk(g0.pending, d0.log, g0.committed) && DaemonOk(cfg, d0)
    ensures SpentOnlyByDelivery(g0, d0, Tick(cfg, g0, d0, g0.committed + 1, env))
  {
    hide PollOne;
    hide HandleEvent;
    hide Tick;
    AgeOutPendingOk(g0.pending, d0.log, g0.committed);
    var r := Tick(cfg, g0, d0, g0.committed + 1, env);
    var d := TickIs(cfg, g0, d0, env);
    if env.poll.PollOk? && Head(g0, d0).Some? {
      HandleSpent(cfg, Aged(g0), d, g0.committed + 1, Head(g0, d0).value, env);
    }
    SpentFromAged(g0, d0, d, r);
  }

  /** A tick that starts with nothing exposed ends with at most the charge it has just answered
      exposed. */
  lemma UnexposedTick(cfg: Codec, g0: Genome, d0: Daemon, env: TickEnv)
    requires PendingOk(g0.pending, d0.log, g0.committed) && DaemonOk(cfg, d0)
    requires forall c :: c in g0.pending ==> !Spent(d0.log, c)
    ensures var r := Tick(cfg, g0, d0, g0.committed + 1, env);
            OnlyRetriesExposed(cfg, Commit(g0, r), r.d)
  {
    hide Tick;
    hide Exposed;
    var r := Tick(cfg, g0, d0, g0.committed + 1, env);
    TickSpent(cfg, g0, d0, env);
    forall c | c in r.g.pending && Spent(r.d.log, c) ensures Exposed(cfg, Commit(g0, r), r.d, c) {
      var o :| r.d.log == d0.log + [o] && IsAttestation(o) && o.text.answer.chargeId == c;
      DeliveryExposes(cfg, g0, d0, env, o);
    }
  }

  /** Under steady polls, every step keeps the two halves of the theorem. */
  ghost predicate AtMostOnce(cfg: Codec, w: World) {
    OneAnswerPerArming(w.d.log) && OnlyRetriesExposed(cfg, w.g, w.d)
  }

  lemma TickAtMostOnce(cfg: Codec, g0: Genome, d0: Daemon, env: TickEnv)
    requires PendingOk(g0.pending, d0.log, g0.committed) && DaemonOk(cfg, d0)
    requires OneAnswerPerArming(d0.log) && OnlyRetriesExposed(cfg, g0, d0)
    requires g0.retrying ==> env.poll.PollOk?
    ensures var r := Tick(cfg, g0, d0, g0.committed + 1, env);
            OneAnswerPerArming(r.d.log) && OnlyRetriesExposed(cfg, Commit(g0, r), r.d)
  {
    hide PollOne;
    hide Tick;
    if exists c :: c in g0.pending && Spent(d0.log, c) {
      var c :| c in g0.pending && Spent(d0.log, c);
      assert Exposed(cfg, g0, d0, c);
      ExposedTick(cfg, g0, d0, env, c);
    } else {
      UnexposedTick(cfg, g0, d0, env);
      TickAppends(cfg, g0, d0, env);
      LawfulAppend(cfg, g0, d0, env);
    }
  }

  lemma {:induction false} OneAnswerAppendAll(log: seq<Obs>, added: seq<Obs>)
    requires OneAnswerPerArming(log) && forall o :: o in added ==> !IsAttestation(o)
    ensures OneAnswerPerArming(log + added)
    decreases |added|
  {
    if added == [] {
      assert log + added == log;
    } else {
      OneAnswerAppend(log, added[0]);
      OneAnswerAppendAll(log + [added[0]], added[1..]);
      assert log + added == log + [added[0]] + added[1..];
    }
  }

  lemma LawfulAppend(cfg: Codec, g0: Genome, d0: Daemon, env: TickEnv)
    requires PendingOk(g0.pending, d0.log, g0.committed) && DaemonOk(cfg, d0)
    requires OneAnswerPerArming(d0.log)
    requires forall c :: c in g0.pending ==> !Spent(d0.log, c)
    ensures OneAnswerPerArming(Tick(cfg, g0, d0, g0.committed + 1, env).d.log)
  {
    hide PollOne;
    hide Tick;
    TickAppends(cfg, g0, d0, env);
    var log' := Tick(cfg, g0, d0, g0.committed + 1, env).d.log;
    if o :| o in Added(d0.log, log') && IsAttestation(o) {
      OneAnswerAppend(d0.log, o);
    } else {
      OneAnswerAppendAll(d0.log, Added(d0.log, log'));
      assert log' == d0.log + Added(d0.log, log');
    }
  }

  lemma ArrivalAtMostOnce(cfg: Codec, w: World, ev: Event)
    requires Inv(cfg, w) && AtMostOnce(cfg, w)
    requires Growing(w.d.arrived + [ev])
    ensures AtMostOnce(cfg, w.(d := w.d.(arrived := w.d.arrived + [ev])))
  {
    hide PollOne;
    var d' := w.d.(arrived := w.d.arrived + [ev]);
    forall c | c in w.g.pending && Spent(w.d.log, c) ensures Exposed(cfg, w.g, d', c) {
      assert Exposed(cfg, w.g, w.d, c);
      HeadKeepsOnArrival(w.g, w.d, d', ev);
    }
  }

  lemma StepAtMostOnce(cfg: Codec, w: World, input: Input)
    requires Inv(cfg, w) && AtMostOnce(cfg, w) && SteadyStep(w, input)
    ensures AtMostOnce(cfg, Step(cfg, w, input))
  {
    hide Tick;
    hide Exposed;
    match input
    case Run(env) =>
      if !w.g.parked {
        TickAtMostOnce(cfg, w.g, w.d, env);
      }
    case Reboot =>
    case Arrive(ev, gap) =>
      StepKeeps(cfg, w, input);
      ArrivalAtMostOnce(cfg, w, ev.(inboxSeq := LastSeq(w.d.arrived) + 1 + gap));
  }

  /** In every steady run, across lost responses, replays and reboots, every delivered attestation
      answers an arming of its charge that nothing has answered before. */
  lemma {:induction false} AtMostOneAnswerPerArming(cfg: Codec, inputs: seq<Input>)
    requires Steady(cfg, INITIAL_WORLD, inputs)
    ensures AtMostOnce(cfg, After(cfg, INITIAL_WORLD, inputs))
  {
    hide Step;
    if inputs != [] {
      var n := |inputs| - 1;
      forall k | 0 <= k < n ensures SteadyStep(After(cfg, INITIAL_WORLD, inputs[..n][..k]), inputs[..n][k]) {
        assert inputs[..n][..k] == inputs[..k];
      }
      AtMostOneAnswerPerArming(cfg, inputs[..n]);
      ReachableInv(cfg, inputs[..n]);
      StepAtMostOnce(cfg, After(cfg, INITIAL_WORLD, inputs[..n]), inputs[n]);
    }
  }

  // ---- Counting ----

  function Answers(log: seq<Obs>, c: Str): nat {
    if log == [] then 0
    else
      var o := log[|log| - 1];
      Answers(log[..|log| - 1], c) + if IsAttestation(o) && About(o) == Some(c) then 1 else 0
  }

  function Armings(log: seq<Obs>, c: Str): nat {
    if log == [] then 0
    else
      var o := log[|log| - 1];
      Armings(log[..|log| - 1], c) + if o.Armed? && About(o) == Some(c) then 1 else 0
  }

  /** Answers to `c` never outnumber its armings, and are strictly fewer while an arming awaits. */
  lemma {:induction false} AnswersWithinArmings(log: seq<Obs>, c: Str)
    requires OneAnswerPerArming(log)
    ensures Answers(log, c) + (if Awaiting(log, c) then 1 else 0) <= Armings(log, c)
  {
    if log != [] {
      var n := |log| - 1;
      forall i | 0 <= i < n && IsAttestation(log[..n][i])
        ensures Awaiting(log[..n][..i], log[..n][i].text.answer.chargeId)
      {
        assert log[..n][..i] == log[..i];
      }
      AnswersWithinArmings(log[..n], c);
    }
  }

  /** In every steady run, the customer of a charge armed `n` times gets at most `n` answers. */
  lemma AnswersCounted(cfg: Codec, inputs: seq<Input>, c: Str)
    requires Steady(cfg, INITIAL_WORLD, inputs)
    ensures var log := After(cfg, INITIAL_WORLD, inputs).d.log; Answers(log, c) <= Armings(log, c)
  {
    AtMostOneAnswerPerArming(cfg, inputs);
    AnswersWithinArmings(After(cfg, INITIAL_WORLD, inputs).d.log, c);
  }

  // ---- What a retry sends ----

  /** A transient settlement tick has cached the answer it tried to send, and asked for it last. */
  lemma TransientCaches(cfg: Codec, g: Genome, d: Daemon, seqNo: nat, ev: Event, env: TickEnv) returns (c: Str,
        to: Str, answer: Answer)
    requires ev.kind == PaymentSettled
    requires SettleTick(cfg, g, d, seqNo, ev, env).outcome.Transient?
    ensures Settles(cfg, ev, c, g.pending) && g.pending[c].sender == to
    ensures var r := SettleTick(cfg, g, d, seqNo, ev, env);
            && r.g == g.(pending := g.pending[c := g.pending[c].(answer := Some(answer))])
            && r.d.arrived == d.arrived && r.d.floor == d.floor
            && |r.d.asked| > 0 && r.d.asked[|r.d.asked| - 1] == AskDm(seqNo, to, Attestation(answer))
  {
    c := SettledCharge(cfg, ev).value;
    BuildAnswerShape(cfg, d, seqNo, c, env);
    hide BuildAnswer;
    var pc := g.pending[c];
    to := pc.sender;
    var (d1, a) := if pc.answer.Some? then (d, pc.answer.value) else BuildAnswer(cfg, d, seqNo, c, env);
    answer := a;
    SendShape(d1, seqNo, to, Attestation(a), env.dm);
    hide SendDm;
  }

  /** With the answer cached, handling the settlement asks for the DM and for nothing else. */
  lemma CachedSends(cfg: Codec, g: Genome, d: Daemon, seqNo: nat, ev: Event, c: Str, answer: Answer, env: TickEnv)
    requires Settles(cfg, ev, c, g.pending) && g.pending[c].answer == Some(answer)
    ensures SettleTick(cfg, g, d, seqNo, ev, env).d.asked ==
              d.asked + [AskDm(seqNo, g.pending[c].sender, Attestation(answer))]
  {
    SendShape(d, seqNo, g.pending[c].sender, Attestation(answer), env.dm);
    hide SendDm;
  }

  /** At the same tick number nothing further ages out. */
  lemma AgedTwice(g: Genome, g': Genome, c: Str, pc: PendingCharge)
    requires c in Aged(g).pending && pc.issuedSeq == Aged(g).pending[c].issuedSeq
    requires g'.committed == g.committed && g'.pending == Aged(g).pending[c := pc]
    ensures Aged(g').pending == g'.pending
  {
  }

  /** A tick that left a paid charge under retry, followed by a tick whose poll succeeds: the second
      asks for one thing only, the same DM to the same customer under the same key. */
  lemma RetryResendsTheSameAnswer(cfg: Codec, g0: Genome, d0: Daemon, env1: TickEnv, env2: TickEnv) returns (to: Str,
        answer: Answer)
    requires PendingOk(g0.pending, d0.log, g0.committed) && !g0.parked
    requires env1.poll.PollOk? && Head(g0, d0).Some? && Head(g0, d0).value.kind == PaymentSettled
    requires Tick(cfg, g0, d0, g0.committed + 1, env1).outcome.Transient?
    requires env2.poll.PollOk?
    ensures var seqNo := g0.committed + 1;
            var (g1, d1) := Iterate(cfg, g0, d0, env1);
            var (g2, d2) := Iterate(cfg, g1, d1, env2);
            var dm := AskDm(seqNo, to, Attestation(answer));
            && |d1.asked| > 0 && d1.asked[|d1.asked| - 1] == dm
            && d2.asked == d1.asked + [dm]
  {
    hide PollOne;
    hide Tick;
    hide DmTick;
    hide BuildAnswer;
    hide AgeOut;
    hide PendingOk;
    var seqNo := g0.committed + 1;
    AgedOk(g0, d0);
    var d := TickIs(cfg, g0, d0, env1);
    var ev := Head(g0, d0).value;
    var r1 := Tick(cfg, g0, d0, seqNo, env1);
    var c;
    c, to, answer := TransientCaches(cfg, Aged(g0), d, seqNo, ev, env1);
    hide SettleTick;
    var g1 := Commit(g0, r1);
    AgedTwice(g0, g1, c, Aged(g0).pending[c].(answer := Some(answer)));
    HeadStable(g0, d0, g1, r1.d);
    var d' := TickIs(cfg, g1, r1.d, env2);
    CachedSends(cfg, Aged(g1), d', seqNo, ev, c, answer, env2);
  }
}
