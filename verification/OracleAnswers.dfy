/** Paid before answered: every attestation goes out for a settlement that clears a charge armed earlier for
    its recipient. */
module OracleAnswers {
  import opened Bytes
  import opened OracleModel
  import opened OracleSafety

  // ---- Paid before answered ----

  /** The tick that starts in `g`, `d` polled a settlement of `c` that clears the amount at which an
      earlier tick armed `c` for `to`. */
  ghost predicate PaidFor(cfg: Codec, g: Genome, d: Daemon, env: TickEnv, c: Str, to: Str) {
    var polled := PollOne(d, g.ack, env.poll).1;
    && polled.Some? && polled.value.kind == PaymentSettled
    && var s := cfg.decodeSettled(polled.value.payload);
    && s.Some? && s.value.chargeId == c
    && exists amount: nat, issued: nat ::
         Armed(c, to, amount, issued) in d.log && s.value.verifiedSats >= amount >= MIN_CHARGE_SATS
  }

  /** What `log'` adds to `log`. */
  function Added(log: seq<Obs>, log': seq<Obs>): seq<Obs>
    requires log <= log'
  {
    log'[|log|..]
  }

  /** What handling `ev` may append to the log: an attestation only as its sole observation, fresh
      under its key, settled by `ev`, for the sender who armed its charge. */
  ghost predicate AppendsSettled(cfg: Codec, g: Genome, d: Daemon, seqNo: nat, ev: Event, r: TickResult) {
    && d.log <= r.d.log
    && forall o :: o in Added(d.log, r.d.log) && IsAttestation(o) ==> SettledBy(cfg, g, d, seqNo, ev, r, o)
  }

  ghost predicate SettledBy(cfg: Codec, g: Genome, d: Daemon, seqNo: nat, ev: Event, r: TickResult, o: Obs)
    requires IsAttestation(o)
  {
    var c := o.text.answer.chargeId;
    && r.d.log == d.log + [o]
    && DmKey(seqNo) !in d.recorded && DmKey(seqNo) in r.d.recorded
    && Settles(cfg, ev, c, g.pending)
    && o.to == g.pending[c].sender
    && (c in r.g.pending ==> r.outcome.Transient?)
  }

  lemma SettleAppends(cfg: Codec, g: Genome, d: Daemon, seqNo: nat, ev: Event, env: TickEnv)
    requires ev.kind == PaymentSettled && CachesMatch(g.pending)
    ensures AppendsSettled(cfg, g, d, seqNo, ev, SettleTick(cfg, g, d, seqNo, ev, env))
  {
    if SettledCharge(cfg, ev).None? || !Settles(cfg, ev, SettledCharge(cfg, ev).value, g.pending) {
      UnsettledShape(cfg, g, d, seqNo, ev, env);
      hide SettleTick;
    } else {
      var a := SettledShape(cfg, g, d, seqNo, ev, SettledCharge(cfg, ev).value, env);
      hide SettleTick;
    }
  }

  lemma PriceAppends(cfg: Codec, g: Genome, d: Daemon, seqNo: nat, ev: Event, request: Request, env: TickEnv)
    requires IdsDistinct(d.charges)
    ensures AppendsSettled(cfg, g, d, seqNo, ev, PriceTick(cfg, g, d, seqNo, ev, request, env))
  {
    hide PriceTick;
    var r := PriceTick(cfg, g, d, seqNo, ev, request, env);
    var c, amount, pc := PriceShape(cfg, g, d, seqNo, ev, request, env);
    if NotArmed(g, d, r) && r.d.log != d.log {
      var o :| About(o).None? && r.d.log == d.log + [o];
      assert Added(d.log, r.d.log) == [o];
    } else if r.d.log != d.log {
      var armed := Armed(c, ev.sourcePubkey, amount, seqNo);
      var sent := Delivered(seqNo, ev.sourcePubkey, Invoice(c));
      assert Added(d.log, r.d.log) == [armed] || Added(d.log, r.d.log) == [sent, armed];
    }
  }

  lemma HandleAppends(cfg: Codec, g: Genome, d: Daemon, seqNo: nat, ev: Event, env: TickEnv)
    requires CachesMatch(g.pending) && IdsDistinct(d.charges)
    ensures AppendsSettled(cfg, g, d, seqNo, ev, HandleEvent(cfg, g, d, seqNo, ev, env))
  {
    hide SettleTick;
    hide PriceTick;
    if ev.kind == PaymentSettled {
      SettleAppends(cfg, g, d, seqNo, ev, env);
    } else {
      match cfg.classify(ev.payload)
      case Status => SendShape(d.(asked := d.asked + [AskContext]), seqNo, ev.sourcePubkey, Books, env.dm);
      case Unsupported =>
      case Price(_, _) => PriceAppends(cfg, g, d, seqNo, ev, cfg.classify(ev.payload), env);
    }
  }

  lemma AppendsSettledFrom(cfg: Codec, g: Genome, d0: Daemon, d: Daemon, seqNo: nat, ev: Event, r: TickResult)
    requires AppendsSettled(cfg, g, d, seqNo, ev, r)
    requires d0.log == d.log && d0.recorded == d.recorded
    ensures AppendsSettled(cfg, g, d0, seqNo, ev, r)
  {
  }

  lemma TickAppends(cfg: Codec, g0: Genome, d0: Daemon, env: TickEnv)
    requires PendingOk(g0.pending, d0.log, g0.committed) && DaemonOk(cfg, d0)
    ensures var r := Tick(cfg, g0, d0, g0.committed + 1, env);
            if env.poll.PollOk? && Head(g0, d0).Some?
            then AppendsSettled(cfg, Aged(g0), d0, g0.committed + 1, Head(g0, d0).value, r)
            else r.d.log == d0.log
  {
    hide HandleEvent;
    hide PollOne;
    hide Tick;
    AgeOutPendingOk(g0.pending, d0.log, g0.committed);
    var d := TickIs(cfg, g0, d0, env);
    if env.poll.PollOk? && Head(g0, d0).Some? {
      HandleAppends(cfg, Aged(g0), d, g0.committed + 1, Head(g0, d0).value, env);
      AppendsSettledFrom(cfg, Aged(g0), d0, d, g0.committed + 1, Head(g0, d0).value,
                          Tick(cfg, g0, d0, g0.committed + 1, env));
    }
  }

  /** Every attestation a step delivers is paid for, by a charge armed for that very recipient. */
  lemma StepAnswersArePaid(cfg: Codec, w: World, input: Input)
    requires Inv(cfg, w)
    ensures w.d.log <= Step(cfg, w, input).d.log
    ensures forall o :: o in Added(w.d.log, Step(cfg, w, input).d.log) && IsAttestation(o) ==>
              && input.Run? && Step(cfg, w, input).d.log == w.d.log + [o]
              && PaidFor(cfg, w.g, w.d, input.env, o.text.answer.chargeId, o.to)
  {
    hide Tick;
    hide PollOne;
    if input.Run? && !w.g.parked {
      var env := input.env;
      TickAppends(cfg, w.g, w.d, env);
      PolledIsHead(w.g, w.d, env.poll);
      var r := Tick(cfg, w.g, w.d, w.g.committed + 1, env);
      forall o | o in Added(w.d.log, r.d.log) && IsAttestation(o)
        ensures r.d.log == w.d.log + [o] && PaidFor(cfg, w.g, w.d, env, o.text.answer.chargeId, o.to)
      {
        var pc := w.g.pending[o.text.answer.chargeId];
        assert Armed(o.text.answer.chargeId, pc.sender, pc.amountSats, pc.issuedSeq) in w.d.log;
      }
    }
  }

  /** In every run, each delivered attestation goes out in a tick whose settlement names a charge
      armed earlier in the log, at no less than the floor and no more than was verified, for that
      recipient. */
  lemma {:induction false} PaidBeforeAnswered(cfg: Codec, inputs: seq<Input>, i: nat) returns (k: nat)
    requires i < |After(cfg, INITIAL_WORLD, inputs).d.log| && IsAttestation(After(cfg, INITIAL_WORLD, inputs).d.log[i])
    ensures k < |inputs| && inputs[k].Run?
    ensures var w := After(cfg, INITIAL_WORLD, inputs[..k]);
            var log := After(cfg, INITIAL_WORLD, inputs).d.log;
            && i == |w.d.log| && w.d.log == log[..i]
            && PaidFor(cfg, w.g, w.d, inputs[k].env, log[i].text.answer.chargeId, log[i].to)
  {
    hide Step;
    var n := |inputs| - 1;
    var w := After(cfg, INITIAL_WORLD, inputs[..n]);
    var log := After(cfg, INITIAL_WORLD, inputs).d.log;
    ReachableInv(cfg, inputs[..n]);
    StepAnswersArePaid(cfg, w, inputs[n]);
    if i < |w.d.log| {
      k := PaidBeforeAnswered(cfg, inputs[..n], i);
      assert inputs[..n][..k] == inputs[..k];
    } else {
      k := n;
      assert log[i] in Added(w.d.log, log);
    }
  }
}
