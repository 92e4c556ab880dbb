/** Exactly what one tick of the oracle does with the event it polls, in terms of the event, the charges held and what
    the brain and the daemon let through; and what follows for every run: an underpaid charge is forfeited until it
    is armed again, and every attestation answers a price request of its recipient, paid at what the brain quoted. */
module OracleDisposition {
  import opened Bytes
  import opened OracleModel
  import opened OracleSafety
  import opened OracleAnswers
  import opened OracleSecondAnswer
  import OracleQuotes
  import ChargeIdentity

  // ---- The tick and the event it serves ----

  /** The next tick of `w` polls `ev`. */
  ghost predicate Serves(w: World, env: TickEnv, ev: Event) {
    !w.g.parked && env.poll.PollOk? && Head(w.g, w.d) == Some(ev)
  }

  /** `c` waits at the next tick: it was armed no more than 240 tick numbers before it. */
  predicate Waits(g: Genome, c: Str) {
    c in g.pending && g.committed + 1 <= g.pending[c].issuedSeq + 240
  }

  /** The tick moved the cursor past `ev` and its number is used up. */
  predicate Passed(w: World, w': World, ev: Event) {
    && w'.g.ack == ev.inboxSeq && w'.g.committed == w.g.committed + 1
    && w'.g.consumed == w.g.consumed + [ev] && !w'.g.parked && !w'.g.retrying
  }

  /** The tick left `ev` for a retry under the same number. */
  predicate Retried(w: World, w': World) {
    && w'.g.ack == w.g.ack && w'.g.committed == w.g.committed
    && w'.g.consumed == w.g.consumed && !w'.g.parked && w'.g.retrying
  }

  /** Of the charges that wait, the tick touched at most `c`. */
  ghost predicate OthersWait(w: World, w': World, c: Option<Str>) {
    forall k :: Some(k) != c ==>
      (k in w'.g.pending <==> Waits(w.g, k)) && (k in w'.g.pending ==> w'.g.pending[k] == w.g.pending[k])
  }

  /** The daemon was asked for nothing but the poll. */
  predicate AsksNothing(w: World, w': World) {
    w'.d == w.d.(floor := Max(w.d.floor, w.g.ack))
  }

  /** The step from `w`, as the branch that handles `ev` makes it. */
  lemma ServedIs(cfg: Codec, w: World, env: TickEnv, ev: Event) returns (d: Daemon)
    requires Serves(w, env, ev)
    ensures d == w.d.(floor := Max(w.d.floor, w.g.ack))
    ensures var r := HandleEvent(cfg, Aged(w.g), d, w.g.committed + 1, ev, env);
            Step(cfg, w, Run(env)) == World(Commit(w.g, r), r.d, w.bootFloor)
    ensures forall k :: k in Aged(w.g).pending <==> Waits(w.g, k)
    ensures forall k :: k in Aged(w.g).pending ==> Aged(w.g).pending[k] == w.g.pending[k]
  {
    hide HandleEvent;
    hide Oldest;
    hide Waiting;
    hide Tick;
    hide Commit;
    d := TickIs(cfg, w.g, w.d, env);
  }

  // ---- A settlement ----

  /** `ev` settles `c`, at whatever amount: it decodes to `c` and does not contradict it. */
  predicate Names(cfg: Codec, ev: Event, c: Str) {
    var s := cfg.decodeSettled(ev.payload);
    s.Some? && s.value.chargeId == c && (ev.correlationId == [] || ev.correlationId == c)
  }

  /** A settlement that decodes to no charge that waits, or contradicts the one it decodes to, is passed over. */
  lemma UnmatchedIsPassed(cfg: Codec, w: World, env: TickEnv, ev: Event)
    requires Serves(w, env, ev) && ev.kind == PaymentSettled
    requires forall c :: Names(cfg, ev, c) ==> !Waits(w.g, c)
    ensures var w' := Step(cfg, w, Run(env));
            Passed(w, w', ev) && OthersWait(w, w', None) && AsksNothing(w, w')
  {
    var d := ServedIs(cfg, w, env, ev);
    hide Step;
    hide Serves;
    hide BuildAnswer;
    hide SendDm;
    hide Waits;
    var s := cfg.decodeSettled(ev.payload);
    if s.Some? && (ev.correlationId == [] || ev.correlationId == s.value.chargeId) {
      assert Names(cfg, ev, s.value.chargeId);
    }
  }

  /** A settlement of a waiting charge for less than its amount is passed over too, and takes the charge with it. */
  lemma UnderpaidIsForfeited(cfg: Codec, w: World, env: TickEnv, ev: Event, c: Str)
    requires Serves(w, env, ev) && ev.kind == PaymentSettled && Names(cfg, ev, c) && Waits(w.g, c)
    requires cfg.decodeSettled(ev.payload).value.verifiedSats < w.g.pending[c].amountSats
    ensures var w' := Step(cfg, w, Run(env));
            Passed(w, w', ev) && OthersWait(w, w', Some(c)) && c !in w'.g.pending && AsksNothing(w, w')
  {
    var d := ServedIs(cfg, w, env, ev);
    hide Step;
    hide Serves;
    hide BuildAnswer;
    hide SendDm;
    hide Waits;
  }

  /** A settlement of a waiting charge for its amount or more sends the customer one attestation, delivered exactly when
      the key is free and the daemon publishes: the one built before, or else what the feeds say now. If the reply is
      lost the charge waits on with that attestation; otherwise it is gone and the settlement passed. */
  lemma PaidIsAnswered(cfg: Codec, w: World, env: TickEnv, ev: Event, c: Str) returns (a: Answer)
    requires Serves(w, env, ev) && ev.kind == PaymentSettled && Names(cfg, ev, c) && Waits(w.g, c)
    requires cfg.decodeSettled(ev.payload).value.verifiedSats >= w.g.pending[c].amountSats
    ensures var pc := w.g.pending[c];
            && (pc.answer.Some? ==> a == pc.answer.value)
            && (pc.answer.None? ==> a.chargeId == c && OracleQuotes.ToldBy(w.d.recorded, w.g.committed + 1, env, a))
    ensures var w' := Step(cfg, w, Run(env));
            var n := w.g.committed + 1;
            && (if ReplyLost(env.dm)
                then Retried(w, w') && c in w'.g.pending && w'.g.pending[c] == w.g.pending[c].(answer := Some(a))
                else Passed(w, w', ev) && c !in w'.g.pending)
            && OthersWait(w, w', Some(c))
            && w'.d.charges == w.d.charges
            && w'.d.log == w.d.log + (if Publishes(env.dm) && DmKey(n) !in w.d.recorded
                                      then [Delivered(n, w.g.pending[c].sender, Attestation(a))] else [])
  {
    var d := ServedIs(cfg, w, env, ev);
    hide Step;
    hide Serves;
    hide Waits;
    hide Head;
    hide Aged;
    hide OracleQuotes.ToldBy;
    hide Publishes;
    hide ReplyLost;
    a := SettlesFully(cfg, Aged(w.g), d, w.g.committed + 1, ev, c, env);
    hide SettleTick;
    assert Aged(w.g) == w.g.(pending := Aged(w.g).pending) by {
      AgedOnlyPending(w.g);
    }
  }

  lemma AgedOnlyPending(g: Genome)
    ensures Aged(g) == g.(pending := Aged(g).pending)
  {
  }

  lemma SettlesFully(cfg: Codec, g: Genome, d: Daemon, n: nat, ev: Event, c: Str, env: TickEnv) returns (a: Answer)
    requires ev.kind == PaymentSettled && Names(cfg, ev, c) && c in g.pending
    requires cfg.decodeSettled(ev.payload).value.verifiedSats >= g.pending[c].amountSats
    ensures var pc := g.pending[c];
            && (pc.answer.Some? ==> a == pc.answer.value)
            && (pc.answer.None? ==> a.chargeId == c && OracleQuotes.ToldBy(d.recorded, n, env, a))
    ensures var r := SettleTick(cfg, g, d, n, ev, env);
            && (if ReplyLost(env.dm)
                then r.outcome.Transient? && r.g == g.(pending := g.pending[c := g.pending[c].(answer := Some(a))])
                else r.outcome.Lived? && r.g == Forget(Consume(g, ev), c))
            && r.d.charges == d.charges
            && r.d.log == d.log + (if Publishes(env.dm) && DmKey(n) !in d.recorded
                                   then [Delivered(n, g.pending[c].sender, Attestation(a))] else [])
  {
    var pc := g.pending[c];
    BuildAnswerShape(cfg, d, n, c, env);
    OracleQuotes.BuildTells(cfg, d, n, c, env);
    hide BuildAnswer;
    hide OracleQuotes.ToldBy;
    a := if pc.answer.Some? then pc.answer.value else BuildAnswer(cfg, d, n, c, env).1;
    assert g.pending[c := pc.(answer := Some(a))] - {c} == g.pending - {c};
  }

  // ---- A price request ----

  predicate AsksPrice(cfg: Codec, ev: Event) {
    ev.kind != PaymentSettled && cfg.classify(ev.payload).Price?
  }

  /** What the daemon holds under the request's content key once it has been asked for `amount`: the charge it held, or
      a new one when it grants an id never used. */
  ghost function HeldCharge(cfg: Codec, d: Daemon, ev: Event, amount: nat, fate: ChargeFate): Option<Charge> {
    var key := ChargeKey(cfg, ev);
    if key in d.charges then Some(d.charges[key])
    else if && fate.ChargeReached? && fate.grant.Some?
            && forall k :: k in d.charges ==> d.charges[k].id != fate.grant.value
    then Some(Charge(fate.grant.value, amount))
    else None
  }

  /** What the brain's quote becomes: at least 10 sats. */
  function Asked(quoted: nat): nat {
    if quoted < 10 then 10 else quoted
  }

  /** The charge comes back, at the amount asked. */
  ghost predicate Agreed(cfg: Codec, d: Daemon, ev: Event, quoted: nat, fate: ChargeFate) {
    && fate.ChargeReached? && !fate.lost
    && HeldCharge(cfg, d, ev, Asked(quoted), fate).Some?
    && HeldCharge(cfg, d, ev, Asked(quoted), fate).value.amountSats == Asked(quoted)
  }

  lemma IssueGives(cfg: Codec, d: Daemon, ev: Event, quoted: nat, fate: ChargeFate)
    ensures var (d', reply) := IssueCharge(d, ChargeKey(cfg, ev), Asked(quoted), fate);
            var held := HeldCharge(cfg, d, ev, Asked(quoted), fate);
            && d' == d.(asked := d.asked + [AskCharge(ChargeKey(cfg, ev), Asked(quoted))], charges := d'.charges)
            && d'.charges == (if fate.ChargeReached? && held.Some? then d.charges[ChargeKey(cfg, ev) := held.value]
                              else d.charges)
            && reply == (if fate.ChargeUnreached? || fate.lost then ChargeErr
                         else if held.Some? then ChargeIs(held.value) else ChargeNone)
  {
    hide ChargeKey;
    var key := ChargeKey(cfg, ev);
    if fate.ChargeReached? && key !in d.charges && fate.grant.Some? {
      assert fate.grant.value in ChargeIds(d.charges) <==>
               exists k :: k in d.charges && d.charges[k].id == fate.grant.value;
    }
  }

  /** The disposition of a price request whose think is performed. The charge asked for is the quote, at least 10 sats,
      under the request's content key. The invoice goes to the customer exactly when the charge comes back at that
      amount, and the charge is armed, for that customer, at that amount and tick number, exactly when moreover the
      invoice's answer is heard. A lost charge call or invoice leaves the request for a retry; a charge refused or held
      at another amount is passed over. */
  lemma QuoteDisposes(cfg: Codec, w: World, env: TickEnv, ev: Event, quoted: nat)
    requires Serves(w, env, ev) && AsksPrice(cfg, ev) && env.think == ThinkPerformed(quoted)
    ensures var w' := Step(cfg, w, Run(env));
            var n := w.g.committed + 1;
            var key := ChargeKey(cfg, ev);
            var held := HeldCharge(cfg, w.d, ev, Asked(quoted), env.charge);
            var agreed := Agreed(cfg, w.d, ev, quoted, env.charge);
            var unheard := env.charge.ChargeUnreached? || env.charge.lost;
            && w'.g.poison == 0
            && (if unheard || (agreed && ReplyLost(env.dm)) then Retried(w, w') else Passed(w, w', ev))
            && (if agreed && !ReplyLost(env.dm)
                then && OthersWait(w, w', Some(held.value.id)) && held.value.id in w'.g.pending
                     && w'.g.pending[held.value.id]
                        == PendingCharge(ev.sourcePubkey, cfg.classify(ev.payload), n, Asked(quoted), None)
                else OthersWait(w, w', None))
            && w'.d.log == w.d.log
                + (if agreed && Publishes(env.dm) && DmKey(n) !in w.d.recorded
                   then [Delivered(n, ev.sourcePubkey, Invoice(held.value.id))] else [])
                + (if agreed && !ReplyLost(env.dm)
                   then [Armed(held.value.id, ev.sourcePubkey, Asked(quoted), n)] else [])
            && w'.d.charges == (if env.charge.ChargeReached? && held.Some? then w.d.charges[key := held.value]
                                else w.d.charges)
            && w'.d.asked == w.d.asked + [AskThink(n), AskCharge(key, Asked(quoted))]
                + (if agreed then [AskDm(n, ev.sourcePubkey, Invoice(held.value.id))] else [])
  {
    var d := ServedIs(cfg, w, env, ev);
    hide Step;
    hide Serves;
    hide Waits;
    var n := w.g.committed + 1;
    Quotes(cfg, Aged(w.g), d, n, ev, env, quoted);
    hide PriceTick;
    SameHeld(cfg, w.d, d, ev, Asked(quoted), env.charge);
    hide HeldCharge;
    hide ChargeKey;
  }

  lemma SameHeld(cfg: Codec, d: Daemon, d': Daemon, ev: Event, amount: nat, fate: ChargeFate)
    requires d'.charges == d.charges
    ensures HeldCharge(cfg, d', ev, amount, fate) == HeldCharge(cfg, d, ev, amount, fate)
  {
  }

  lemma Quotes(cfg: Codec, g: Genome, d: Daemon, n: nat, ev: Event, env: TickEnv, quoted: nat)
    requires AsksPrice(cfg, ev) && env.think == ThinkPerformed(quoted)
    ensures var request := cfg.classify(ev.payload);
            var r := PriceTick(cfg, g, d, n, ev, request, env);
            var key := ChargeKey(cfg, ev);
            var held := HeldCharge(cfg, d, ev, Asked(quoted), env.charge);
            var agreed := Agreed(cfg, d, ev, quoted, env.charge);
            var unheard := env.charge.ChargeUnreached? || env.charge.lost;
            var arms := agreed && !ReplyLost(env.dm);
            && (if unheard || (agreed && ReplyLost(env.dm)) then r.outcome.Transient? && r.g == g.(poison := 0)
                else && r.outcome.Lived?
                     && r.g == Consume(g, ev).(
                                 poison := 0,
                                 pending := if arms
                                            then g.pending[held.value.id :=
                                                   PendingCharge(ev.sourcePubkey, request, n, Asked(quoted), None)]
                                            else g.pending))
            && r.d.log == d.log
                + (if agreed && Publishes(env.dm) && DmKey(n) !in d.recorded
                   then [Delivered(n, ev.sourcePubkey, Invoice(held.value.id))] else [])
                + (if arms then [Armed(held.value.id, ev.sourcePubkey, Asked(quoted), n)] else [])
            && r.d.charges == (if env.charge.ChargeReached? && held.Some? then d.charges[key := held.value]
                               else d.charges)
            && r.d.asked == d.asked + [AskThink(n), AskCharge(key, Asked(quoted))]
                + (if agreed then [AskDm(n, ev.sourcePubkey, Invoice(held.value.id))] else [])
  {
    var d0 := d.(asked := d.asked + [AskThink(n)]);
    IssueGives(cfg, d0, ev, quoted, env.charge);
    SameHeld(cfg, d, d0, ev, Asked(quoted), env.charge);
    hide IssueCharge;
    hide HeldCharge;
    hide ChargeKey;
    assert d.asked + [AskThink(n)] + [AskCharge(ChargeKey(cfg, ev), Asked(quoted))]
        == d.asked + [AskThink(n), AskCharge(ChargeKey(cfg, ev), Asked(quoted))];
  }

  /** A price request whose think is denied parks the loop with everything else as it was. */
  lemma BrokeParks(cfg: Codec, w: World, env: TickEnv, ev: Event)
    requires Serves(w, env, ev) && AsksPrice(cfg, ev) && env.think == ThinkBroke
    ensures var w' := Step(cfg, w, Run(env));
            && w'.g.parked && w'.g.ack == w.g.ack && OthersWait(w, w', None)
            && w'.d.log == w.d.log && w'.d.charges == w.d.charges
            && w'.d.asked == w.d.asked + [AskThink(w.g.committed + 1)]
  {
    var d := ServedIs(cfg, w, env, ev);
    hide Step;
    hide Serves;
    hide Waits;
  }

  // ---- The other messages ----

  /** A request for the books reads the percept and sends them to whoever asked, free of charge; it is retried exactly
      when the percept or the answer of the send is lost. Any other message is passed over. */
  lemma ReportDisposes(cfg: Codec, w: World, env: TickEnv, ev: Event)
    requires Serves(w, env, ev) && ev.kind != PaymentSettled && !cfg.classify(ev.payload).Price?
    ensures var w' := Step(cfg, w, Run(env));
            var n := w.g.committed + 1;
            var books := cfg.classify(ev.payload).Status?;
            && OthersWait(w, w', None) && w'.d.charges == w.d.charges
            && (if books && (!env.contextOk || ReplyLost(env.dm)) then Retried(w, w') else Passed(w, w', ev))
            && w'.d.asked == w.d.asked + (if !books then []
                                          else if !env.contextOk then [AskContext]
                                          else [AskContext, AskDm(n, ev.sourcePubkey, Books)])
            && w'.d.log == w.d.log + (if books && env.contextOk && Publishes(env.dm) && DmKey(n) !in w.d.recorded
                                      then [Delivered(n, ev.sourcePubkey, Books)] else [])
  {
    var d := ServedIs(cfg, w, env, ev);
    hide Step;
    hide Serves;
    hide Waits;
    assert w.d.asked + [AskContext] + [AskDm(w.g.committed + 1, ev.sourcePubkey, Books)]
        == w.d.asked + [AskContext, AskDm(w.g.committed + 1, ev.sourcePubkey, Books)];
  }

  /** The answer of the send is heard, and says that the DM is out, now or by an earlier try. */
  predicate HearsSent(d: Daemon, n: nat, fate: DmFate) {
    !ReplyLost(fate) && (DmKey(n) in d.recorded || fate.verdict == Performed)
  }

  /** A tick reports a write exactly when it sends an attestation or the books and hears that the DM is out, or arms a
      charge, even one whose invoice was refused. */
  lemma RecordsIff(cfg: Codec, w: World, env: TickEnv, ev: Event)
    requires Serves(w, env, ev)
    ensures var n := w.g.committed + 1;
            Tick(cfg, w.g, w.d, n, env).outcome == Lived(true) <==>
              if ev.kind == PaymentSettled
              then exists c :: Names(cfg, ev, c) && Waits(w.g, c) && HearsSent(w.d, n, env.dm)
                               && cfg.decodeSettled(ev.payload).value.verifiedSats >= w.g.pending[c].amountSats
              else if cfg.classify(ev.payload).Price?
              then env.think.ThinkPerformed? && !ReplyLost(env.dm)
                   && Agreed(cfg, w.d, ev, env.think.quotedSats, env.charge)
              else cfg.classify(ev.payload).Status? && env.contextOk && HearsSent(w.d, n, env.dm)
  {
    var d := TickIs(cfg, w.g, w.d, env);
    var n := w.g.committed + 1;
    hide Tick;
    hide PollOne;
    hide HandleEvent;
    if ev.kind == PaymentSettled {
      SettlementRecords(cfg, Aged(w.g), d, n, ev, env);
    } else if AsksPrice(cfg, ev) {
      PriceRecords(cfg, Aged(w.g), d, n, ev, env);
      SameHeldAny(cfg, w.d, d, ev, env);
      hide Agreed;
    } else {
      OtherRecords(cfg, Aged(w.g), d, n, ev, env);
    }
  }

  lemma OtherRecords(cfg: Codec, g: Genome, d: Daemon, n: nat, ev: Event, env: TickEnv)
    requires ev.kind != PaymentSettled && !cfg.classify(ev.payload).Price?
    ensures HandleEvent(cfg, g, d, n, ev, env).outcome == Lived(true) <==>
              cfg.classify(ev.payload).Status? && env.contextOk && HearsSent(d, n, env.dm)
  {
  }

  lemma SettlementRecords(cfg: Codec, g: Genome, d: Daemon, n: nat, ev: Event, env: TickEnv)
    requires ev.kind == PaymentSettled
    ensures HandleEvent(cfg, g, d, n, ev, env).outcome == Lived(true) <==>
              exists c :: Names(cfg, ev, c) && c in g.pending && HearsSent(d, n, env.dm)
                          && cfg.decodeSettled(ev.payload).value.verifiedSats >= g.pending[c].amountSats
  {
    hide BuildAnswer;
    var s := cfg.decodeSettled(ev.payload);
    if s.Some? {
      var c := s.value.chargeId;
      BuildAnswerShape(cfg, d, n, c, env);
      assert Names(cfg, ev, c) <==> ev.correlationId == [] || ev.correlationId == c;
    }
  }

  lemma PriceRecords(cfg: Codec, g: Genome, d: Daemon, n: nat, ev: Event, env: TickEnv)
    requires AsksPrice(cfg, ev)
    ensures HandleEvent(cfg, g, d, n, ev, env).outcome == Lived(true) <==>
              env.think.ThinkPerformed? && !ReplyLost(env.dm) && Agreed(cfg, d, ev, env.think.quotedSats, env.charge)
  {
    if env.think.ThinkPerformed? {
      var d0 := d.(asked := d.asked + [AskThink(n)]);
      IssueGives(cfg, d0, ev, env.think.quotedSats, env.charge);
      SameHeld(cfg, d, d0, ev, Asked(env.think.quotedSats), env.charge);
      hide IssueCharge;
      hide HeldCharge;
      hide ChargeKey;
    }
  }

  lemma SameHeldAny(cfg: Codec, d: Daemon, d': Daemon, ev: Event, env: TickEnv)
    requires d'.charges == d.charges
    ensures env.think.ThinkPerformed? ==>
              Agreed(cfg, d', ev, env.think.quotedSats, env.charge)
              == Agreed(cfg, d, ev, env.think.quotedSats, env.charge)
  {
  }

  /** With nothing to serve, a tick uses up its number and lets the unpaid charges age. */
  lemma IdleAges(cfg: Codec, w: World, env: TickEnv)
    requires !w.g.parked && (env.poll.PollErr? || Head(w.g, w.d).None?)
    ensures var w' := Step(cfg, w, Run(env));
            && w'.g.committed == w.g.committed + 1 && w'.g.ack == w.g.ack && w'.g.poison == w.g.poison
            && OthersWait(w, w', None)
            && w'.d == w.d.(floor := w'.d.floor) && (w'.d.floor == w.d.floor || w'.d.floor == Max(w.d.floor, w.g.ack))
            && Tick(cfg, w.g, w.d, w.g.committed + 1, env).outcome == Lived(false)
  {
    hide HandleEvent;
    hide Oldest;
    hide Waiting;
    var d := TickIs(cfg, w.g, w.d, env);
    hide Tick;
  }

  // ---- Underpaid charges, in every run ----

  /** From place `start` on, the log answers `c` only after arming it. */
  ghost predicate OnlyAfterArming(log: seq<Obs>, start: nat, c: Str) {
    forall i :: start <= i < |log| && IsAttestation(log[i]) && log[i].text.answer.chargeId == c ==>
      ArmedBetween(log, start, i, c)
  }

  ghost predicate ArmedBetween(log: seq<Obs>, start: nat, end: nat, c: Str)
    requires end <= |log|
  {
    exists j :: start <= j < end && log[j].Armed? && log[j].chargeId == c
  }

  /** Input `k` serves a settlement that pays less than the amount of the waiting charge `c`. */
  ghost predicate UnderpaidAt(cfg: Codec, inputs: seq<Input>, k: nat, c: Str) {
    && k < |inputs| && inputs[k].Run?
    && var w := After(cfg, INITIAL_WORLD, inputs[..k]);
       && Head(w.g, w.d).Some?
       && var ev := Head(w.g, w.d).value;
          && Serves(w, inputs[k].env, ev) && ev.kind == PaymentSettled && Names(cfg, ev, c) && Waits(w.g, c)
          && cfg.decodeSettled(ev.payload).value.verifiedSats < w.g.pending[c].amountSats
  }

  /** `c` does not wait in `w`, or the log has armed it since place `start`. */
  ghost predicate Gone(w: World, start: nat, c: Str) {
    && start <= |w.d.log| && OnlyAfterArming(w.d.log, start, c)
    && (!Waits(w.g, c) || ArmedBetween(w.d.log, start, |w.d.log|, c))
  }

  lemma GoneStep(cfg: Codec, w: World, input: Input, start: nat, c: Str)
    requires Inv(cfg, w) && Gone(w, start, c)
    ensures Gone(Step(cfg, w, input), start, c)
  {
    hide Step;
    hide Inv;
    hide Waits;
    var w' := Step(cfg, w, input);
    StepAnswersArePaid(cfg, w, input);
    hide PaidFor;
    if ArmedBetween(w.d.log, start, |w.d.log|, c) {
      var j :| start <= j < |w.d.log| && w.d.log[j].Armed? && w.d.log[j].chargeId == c;
      assert w'.d.log[j] == w.d.log[j];
      forall i | start <= i < |w'.d.log| && IsAttestation(w'.d.log[i]) && w'.d.log[i].text.answer.chargeId == c
        ensures ArmedBetween(w'.d.log, start, i, c)
      {
        GoneKeeps(w.d.log, w'.d.log, start, i, j, c);
      }
    } else {
      GoneQuietly(cfg, w, input, start, c);
    }
  }

  lemma GoneKeeps(log: seq<Obs>, log': seq<Obs>, start: nat, i: nat, j: nat, c: Str)
    requires log <= log' && OnlyAfterArming(log, start, c) && start <= i < |log'|
    requires IsAttestation(log'[i]) && log'[i].text.answer.chargeId == c
    requires start <= j < |log| && log[j].Armed? && log[j].chargeId == c
    ensures ArmedBetween(log', start, i, c)
  {
    if i < |log| {
      assert log'[i] == log[i];
      var m :| start <= m < i && log[m].Armed? && log[m].chargeId == c;
      assert log'[m] == log[m];
    } else {
      assert log'[j] == log[j];
    }
  }

  /** A charge that does not wait is not answered, and does not come to wait unless it is armed. */
  lemma GoneQuietly(cfg: Codec, w: World, input: Input, start: nat, c: Str)
    requires Inv(cfg, w) && Gone(w, start, c) && !ArmedBetween(w.d.log, start, |w.d.log|, c)
    ensures Gone(Step(cfg, w, input), start, c)
  {
    hide Step;
    var w' := Step(cfg, w, input);
    StepAnswersArePaid(cfg, w, input);
    hide PaidFor;
    hide Inv;
    NotAnswered(cfg, w, input, c);
    var log, log' := w.d.log, w'.d.log;
    StillUnanswered(log, log', start, c);
    if Waits(w'.g, c) {
      var o :| o in Added(log, log') && About(o) == Some(c);
      var m :| 0 <= m < |Added(log, log')| && Added(log, log')[m] == o;
      assert IsAttestation(o) ==> Answered(log, log', c);
      assert log'[|log| + m] == o;
    }
  }

  lemma ArmedWider(log: seq<Obs>, start: nat, end: nat, c: Str)
    requires end <= |log| && ArmedBetween(log, start, end, c)
    ensures ArmedBetween(log, start, |log|, c)
  {
  }

  lemma StillUnanswered(log: seq<Obs>, log': seq<Obs>, start: nat, c: Str)
    requires start <= |log| && log <= log' && OnlyAfterArming(log, start, c)
    requires !ArmedBetween(log, start, |log|, c) && !Answered(log, log', c)
    ensures forall i :: start <= i < |log'| && IsAttestation(log'[i]) ==> log'[i].text.answer.chargeId != c
  {
    forall i | start <= i < |log'| && IsAttestation(log'[i]) ensures log'[i].text.answer.chargeId != c {
      if i < |log| {
        assert log'[i] == log[i];
        if log[i].text.answer.chargeId == c {
          ArmedWider(log, start, i, c);
        }
      } else {
        assert Added(log, log')[i - |log|] == log'[i];
      }
    }
  }

  lemma NotAnswered(cfg: Codec, w: World, input: Input, c: Str)
    requires Inv(cfg, w) && !Waits(w.g, c)
    ensures w.d.log <= Step(cfg, w, input).d.log
    ensures !Answered(w.d.log, Step(cfg, w, input).d.log, c)
    ensures Waits(Step(cfg, w, input).g, c) ==>
              exists o :: o in Added(w.d.log, Step(cfg, w, input).d.log) && About(o) == Some(c)
  {
    hide Iterate;
    StepAnswersArePaid(cfg, w, input);
    hide PaidFor;
    if Answered(w.d.log, Step(cfg, w, input).d.log, c) {
      AnswerNeeds(cfg, w.g, w.d, input.env, c);
    }
    var w' := Step(cfg, w, input);
    if Waits(w'.g, c) && !exists o :: o in Added(w.d.log, w'.d.log) && About(o) == Some(c) {
      ReleasedStep(cfg, w, input, c);
    }
  }

  /** In every run, after a settlement that pays less than the amount of its charge the charge is not answered until it
      has been armed again, whatever is settled, polled, lost or rebooted in between. */
  lemma {:induction false} ForfeitedUntilArmedAgain(cfg: Codec, inputs: seq<Input>, k: nat, c: Str)
    requires UnderpaidAt(cfg, inputs, k, c)
    ensures Gone(After(cfg, INITIAL_WORLD, inputs), |After(cfg, INITIAL_WORLD, inputs[..k]).d.log|, c)
  {
    hide Step;
    hide Gone;
    hide PollOne;
    hide Waits;
    hide Names;
    hide OthersWait;
    hide Passed;
    hide AsksNothing;
    hide Inv;
    var n := |inputs| - 1;
    var w := After(cfg, INITIAL_WORLD, inputs[..n]);
    ReachableInv(cfg, inputs[..n]);
    var start := |After(cfg, INITIAL_WORLD, inputs[..k]).d.log|;
    if n == k {
      UnderpaidIsForfeited(cfg, w, inputs[k].env, Head(w.g, w.d).value, c);
      GoneAtOnce(w, After(cfg, INITIAL_WORLD, inputs), c);
    } else {
      assert inputs[..n][..k] == inputs[..k] && inputs[..n][k] == inputs[k];
      ForfeitedUntilArmedAgain(cfg, inputs[..n], k, c);
      GoneStep(cfg, w, inputs[n], start, c);
    }
  }

  lemma GoneAtOnce(w: World, w': World, c: Str)
    requires c !in w'.g.pending && AsksNothing(w, w')
    ensures Gone(w', |w.d.log|, c)
  {
  }

  // ---- Every answer was asked for and quoted ----

  /** Input `k` serves the price request `request`, for which the brain quotes; the charge agreed on is `c`. */
  ghost predicate QuotedAt(cfg: Codec, inputs: seq<Input>, k: nat, request: Event, c: Str) {
    && k < |inputs| && inputs[k].Run? && inputs[k].env.think.ThinkPerformed?
    && var w := After(cfg, INITIAL_WORLD, inputs[..k]);
       var env := inputs[k].env;
       && Serves(w, env, request) && AsksPrice(cfg, request)
       && Agreed(cfg, w.d, request, env.think.quotedSats, env.charge)
       && HeldCharge(cfg, w.d, request, Asked(env.think.quotedSats), env.charge).value.id == c
  }

  /** What an arming step is. */
  ghost predicate ArmsByQuote(cfg: Codec, w: World, env: TickEnv, o: Obs) {
    && env.think.ThinkPerformed? && !w.g.parked && env.poll.PollOk? && Head(w.g, w.d).Some?
    && var ev := Head(w.g, w.d).value;
       && AsksPrice(cfg, ev) && Agreed(cfg, w.d, ev, env.think.quotedSats, env.charge)
       && o == Armed(HeldCharge(cfg, w.d, ev, Asked(env.think.quotedSats), env.charge).value.id, ev.sourcePubkey,
                     Asked(env.think.quotedSats), w.g.committed + 1)
  }

  lemma ThinkFailsQuietly(cfg: Codec, w: World, env: TickEnv, ev: Event)
    requires Serves(w, env, ev) && AsksPrice(cfg, ev) && !env.think.ThinkPerformed?
    ensures Step(cfg, w, Run(env)).d.log == w.d.log
  {
    var d := ServedIs(cfg, w, env, ev);
    hide Step;
    hide Serves;
  }

  lemma SettlementArmsNothing(cfg: Codec, w: World, env: TickEnv, ev: Event)
    requires Serves(w, env, ev) && ev.kind == PaymentSettled
    ensures w.d.log <= Step(cfg, w, Run(env)).d.log
    ensures forall o :: o in Added(w.d.log, Step(cfg, w, Run(env)).d.log) ==> !o.Armed?
  {
    hide Step;
    hide Serves;
    if c :| Names(cfg, ev, c) && Waits(w.g, c) {
      if cfg.decodeSettled(ev.payload).value.verifiedSats < w.g.pending[c].amountSats {
        UnderpaidIsForfeited(cfg, w, env, ev, c);
      } else {
        var a := PaidIsAnswered(cfg, w, env, ev, c);
      }
    } else {
      UnmatchedIsPassed(cfg, w, env, ev);
    }
    hide Names;
    hide Waits;
    hide OracleQuotes.ToldBy;
    hide OthersWait;
    hide Passed;
    hide Retried;
  }

  lemma ArmingsAreQuotes(cfg: Codec, w: World, input: Input)
    requires Inv(cfg, w)
    ensures w.d.log <= Step(cfg, w, input).d.log
    ensures forall o :: o in Added(w.d.log, Step(cfg, w, input).d.log) && o.Armed? ==>
              input.Run? && ArmsByQuote(cfg, w, input.env, o)
  {
    hide Inv;
    hide Agreed;
    hide AsksPrice;
    match input
    case Arrive(_, _) =>
    case Reboot =>
    case Run(env) =>
      if w.g.parked {
        ParkedStep(cfg, w, env);
      } else if env.poll.PollErr? || Head(w.g, w.d).None? {
        IdleAges(cfg, w, env);
      } else {
        hide Step;
        hide PollOne;
        ServedArms(cfg, w, env, Head(w.g, w.d).value);
      }
  }

  lemma ServedArms(cfg: Codec, w: World, env: TickEnv, ev: Event)
    requires Serves(w, env, ev)
    ensures w.d.log <= Step(cfg, w, Run(env)).d.log
    ensures forall o :: o in Added(w.d.log, Step(cfg, w, Run(env)).d.log) && o.Armed? ==> ArmsByQuote(cfg, w, env, o)
  {
    hide Step;
    hide PollOne;
    hide Agreed;
    hide OthersWait;
    hide Passed;
    hide Retried;
    hide HeldCharge;
    hide ChargeKey;
    if ev.kind == PaymentSettled {
      SettlementArmsNothing(cfg, w, env, ev);
    } else if !AsksPrice(cfg, ev) {
      ReportDisposes(cfg, w, env, ev);
    } else if env.think.ThinkPerformed? {
      QuoteDisposes(cfg, w, env, ev, env.think.quotedSats);
    } else {
      ThinkFailsQuietly(cfg, w, env, ev);
    }
  }

  /** In every run, each charge in the log was armed by a tick that served a price request of that customer, at what the
      brain quoted for it, at least 10 sats, under the id the daemon holds for that request. */
  lemma {:induction false} ArmedWasQuoted(cfg: Codec, inputs: seq<Input>, i: nat) returns (k: nat, request: Event)
    requires i < |After(cfg, INITIAL_WORLD, inputs).d.log| && After(cfg, INITIAL_WORLD, inputs).d.log[i].Armed?
    ensures var o := After(cfg, INITIAL_WORLD, inputs).d.log[i];
            && QuotedAt(cfg, inputs, k, request, o.chargeId)
            && o.sender == request.sourcePubkey && o.amountSats == Asked(inputs[k].env.think.quotedSats)
            && o.issuedSeq == After(cfg, INITIAL_WORLD, inputs[..k]).g.committed + 1
            && |After(cfg, INITIAL_WORLD, inputs[..k]).d.log| <= i
  {
    hide Step;
    hide Agreed;
    hide AsksPrice;
    hide HeldCharge;
    hide PollOne;
    var n := |inputs| - 1;
    var w := After(cfg, INITIAL_WORLD, inputs[..n]);
    var log := After(cfg, INITIAL_WORLD, inputs).d.log;
    ReachableInv(cfg, inputs[..n]);
    ArmingsAreQuotes(cfg, w, inputs[n]);
    if i < |w.d.log| {
      k, request := ArmedWasQuoted(cfg, inputs[..n], i);
      assert inputs[..n][..k] == inputs[..k];
    } else {
      assert Added(w.d.log, log)[i - |w.d.log|] == log[i];
      k, request := n, Head(w.g, w.d).value;
    }
  }

  /** In every run, each delivered attestation answers a price request of its recipient: an earlier tick served that
      request and the brain quoted for it, and the tick that delivers polled a settlement of the charge agreed on then,
      at no less than that quote and no less than 10 sats. */
  lemma AnsweredWasQuoted(cfg: Codec, inputs: seq<Input>, i: nat) returns (asked: nat, paid: nat, request: Event)
    requires i < |After(cfg, INITIAL_WORLD, inputs).d.log| && IsAttestation(After(cfg, INITIAL_WORLD, inputs).d.log[i])
    ensures var o := After(cfg, INITIAL_WORLD, inputs).d.log[i];
            && asked < paid < |inputs|
            && QuotedAt(cfg, inputs, asked, request, o.text.answer.chargeId) && request.sourcePubkey == o.to
            && inputs[paid].Run?
            && var w := After(cfg, INITIAL_WORLD, inputs[..paid]);
               && |w.d.log| == i && Head(w.g, w.d).Some? && inputs[paid].env.poll.PollOk?
               && Head(w.g, w.d).value.kind == PaymentSettled
               && var settled := cfg.decodeSettled(Head(w.g, w.d).value.payload);
                  && settled.Some? && settled.value.chargeId == o.text.answer.chargeId
                  && settled.value.verifiedSats >= Asked(inputs[asked].env.think.quotedSats)
  {
    hide Step;
    hide QuotedAt;
    hide PollOne;
    paid := PaidBeforeAnswered(cfg, inputs, i);
    var o := After(cfg, INITIAL_WORLD, inputs).d.log[i];
    var w := After(cfg, INITIAL_WORLD, inputs[..paid]);
    PolledIsHead(w.g, w.d, inputs[paid].env.poll);
    var amount: nat, issued: nat :|
      && Armed(o.text.answer.chargeId, o.to, amount, issued) in w.d.log
      && cfg.decodeSettled(Head(w.g, w.d).value.payload).value.verifiedSats >= amount >= MIN_CHARGE_SATS;
    var j :| 0 <= j < |w.d.log| && w.d.log[j] == Armed(o.text.answer.chargeId, o.to, amount, issued);
    asked, request := ArmedWasQuoted(cfg, inputs[..paid], j);
    QuotedLater(cfg, inputs, paid, asked, request, o.text.answer.chargeId);
    hide After;
  }

  lemma QuotedLater(cfg: Codec, inputs: seq<Input>, n: nat, k: nat, request: Event, c: Str)
    requires n <= |inputs| && QuotedAt(cfg, inputs[..n], k, request, c)
    ensures k < n && QuotedAt(cfg, inputs, k, request, c) && inputs[..n][k] == inputs[k]
  {
    hide After;
    hide Serves;
    hide Agreed;
    assert inputs[..n][..k] == inputs[..k];
  }
}
