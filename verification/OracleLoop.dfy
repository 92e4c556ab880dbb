/** The oracle loop as the code runs it: an object whose fields the tick updates in place, talking
    to a gateway that updates the daemon. Every method is tied to its function in OracleModel. */
module OracleLoop {
  import opened Bytes
  import opened OracleModel

  /** The daemon behind its calls. `daemon.asked` and `daemon.log` are its histories. */
  class Gateway {
    var daemon: Daemon

    constructor (d: Daemon)
      ensures daemon == d
    {
      daemon := d;
    }

    method PollInbox(ack: nat, fate: PollFate) returns (batch: Option<seq<Event>>)
      modifies this
      ensures (daemon, batch) == ReadInbox(old(daemon), ack, fate)
    {
      var (d, r) := ReadInbox(daemon, ack, fate);
      daemon, batch := d, r;
    }

    method HttpFetch(seqNo: nat, feed: nat, attempt: nat, fate: FetchFate) returns (price: Option<real>)
      modifies this
      ensures (daemon, price) == Fetch(old(daemon), seqNo, feed, attempt, fate)
    {
      var (d, r) := Fetch(daemon, seqNo, feed, attempt, fate);
      daemon, price := d, r;
    }

    method DmReply(seqNo: nat, to: Str, text: DmText, fate: DmFate) returns (reply: SendReply)
      modifies this
      ensures (daemon, reply) == SendDm(old(daemon), seqNo, to, text, fate)
    {
      var (d, r) := SendDm(daemon, seqNo, to, text, fate);
      daemon, reply := d, r;
    }

    method RequestCharge(key: Str, amountSats: nat, fate: ChargeFate) returns (reply: ChargeReply)
      modifies this
      ensures (daemon, reply) == IssueCharge(old(daemon), key, amountSats, fate)
    {
      var (d, r) := IssueCharge(daemon, key, amountSats, fate);
      daemon, reply := d, r;
    }

    /** A call whose answer is the environment's alone: it only leaves a trace. */
    method Ask(call: Call)
      modifies this
      ensures daemon == old(daemon).(asked := old(daemon).asked + [call])
    {
      daemon := daemon.(asked := daemon.asked + [call]);
    }

    method Observe(obs: Obs)
      modifies this
      ensures daemon == old(daemon).(log := old(daemon).log + [obs])
    {
      daemon := daemon.(log := daemon.log + [obs]);
    }
  }

  class Oracle {
    const cfg: Codec
    const gw: Gateway
    var committed: nat
    var inboxAckSeq: nat
    var pending: map<Str, PendingCharge>
    var poisonRetries: nat
    var parked: bool
    ghost var retrying: bool
    ghost var consumed: seq<Event>

    ghost function View(): Genome
      reads this
    {
      Genome(committed, inboxAckSeq, pending, poisonRetries, parked, retrying, consumed)
    }

    constructor (cfg: Codec, gw: Gateway)
      ensures this.cfg == cfg && this.gw == gw && View() == FRESH_GENOME
    {
      this.cfg, this.gw := cfg, gw;
      committed, inboxAckSeq, pending, poisonRetries, parked := 0, 0, map[], 0, false;
      retrying, consumed := false, [];
    }

    /** The oldest event of a batch: one pass that keeps the least number seen. */
    static method OldestOf(batch: seq<Event>) returns (r: Option<Event>)
      ensures r == Oldest(batch)
    {
      r := None;
      var i := |batch|;
      while i > 0
        invariant 0 <= i <= |batch|
        invariant r == Oldest(batch[i..])
      {
        i := i - 1;
        assert batch[i..][0] == batch[i] && batch[i..][1..] == batch[i + 1..];
        if r.None? || batch[i].inboxSeq <= r.value.inboxSeq {
          r := Some(batch[i]);
        }
      }
      assert batch[0..] == batch;
    }

    method PollOneOracleEvent(fate: PollFate) returns (r: Option<Event>)
      modifies gw
      ensures (gw.daemon, r) == PollOne(old(gw.daemon), inboxAckSeq, fate)
    {
      var batch := gw.PollInbox(inboxAckSeq, fate);
      if batch.None? {
        r := None;
      } else {
        r := OldestOf(batch.value);
      }
    }

    method Advance(ev: Event)
      modifies this
      ensures View() == Consume(old(View()), ev)
    {
      inboxAckSeq := ev.inboxSeq;
      consumed := consumed + [ev];
    }

    /** Fetch every feed, with its bounded retry, and assemble the attestation. */
    method BuildOracleAnswer(seqNo: nat, chargeId: Str, env: TickEnv) returns (answer: Answer)
      modifies gw
      ensures (gw.daemon, answer) == BuildAnswer(cfg, old(gw.daemon), seqNo, chargeId, env)
    {
      var answered: seq<(nat, real)> := [];
      var feed := 0;
      while feed < FEED_COUNT
        invariant feed <= FEED_COUNT
        invariant Gather(gw.daemon, seqNo, feed, env, answered) == Gather(old(gw.daemon), seqNo, 0, env, [])
      {
        ghost var before := gw.daemon;
        var attempt := 0;
        var price: Option<real> := None;
        while attempt < FETCH_ATTEMPTS && price.None?
          invariant attempt <= FETCH_ATTEMPTS
          invariant TryFeed(before, seqNo, feed, 0, env) ==
                    if price.Some? then (gw.daemon, price) else TryFeed(gw.daemon, seqNo, feed, attempt, env)
        {
          price := gw.HttpFetch(seqNo, feed, attempt, env.fetch(feed, attempt));
          attempt := attempt + 1;
        }
        if price.Some? {
          answered := answered + [(feed, price.value)];
        }
        feed := feed + 1;
      }
      answer := Assemble(cfg, answered, chargeId, env.now);
    }

    method Settle(seqNo: nat, ev: Event, env: TickEnv) returns (outcome: Outcome)
      modifies this, gw
      ensures TickResult(View(), gw.daemon, outcome) == SettleTick(cfg, old(View()), old(gw.daemon), seqNo, ev, env)
    {
      var decoded := cfg.decodeSettled(ev.payload);
      if decoded.None? {
        Advance(ev);
        return Lived(false);
      }
      var s := decoded.value;
      if (ev.correlationId != [] && ev.correlationId != s.chargeId) || s.chargeId !in pending {
        Advance(ev);
        return Lived(false);
      }
      var pc := pending[s.chargeId];
      if s.verifiedSats < pc.amountSats {
        pending := pending - {s.chargeId};
        Advance(ev);
        return Lived(false);
      }
      var answer: Answer;
      if pc.answer.Some? {
        answer := pc.answer.value;
      } else {
        answer := BuildOracleAnswer(seqNo, s.chargeId, env);
      }
      pending := pending[s.chargeId := pc.(answer := Some(answer))];
      var reply := gw.DmReply(seqNo, pc.sender, Attestation(answer), env.dm);
      if reply.SendErr? {
        return Transient;
      }
      pending := pending - {s.chargeId};
      Advance(ev);
      return Lived(reply.recordedWrite);
    }

    method ReportBooks(seqNo: nat, ev: Event, env: TickEnv) returns (outcome: Outcome)
      modifies this, gw
      ensures TickResult(View(), gw.daemon, outcome) == StatusTick(old(View()), old(gw.daemon), seqNo, ev, env)
    {
      gw.Ask(AskContext);
      if !env.contextOk {
        return Transient;
      }
      var reply := gw.DmReply(seqNo, ev.sourcePubkey, Books, env.dm);
      if reply.SendErr? {
        return Transient;
      }
      Advance(ev);
      return Lived(reply.recordedWrite);
    }

    method ThinkFailed(ev: Event) returns (outcome: Outcome)
      modifies this
      ensures TickResult(View(), gw.daemon, outcome) == ThinkTransientOrConsume(old(View()), gw.daemon, ev)
    {
      poisonRetries := poisonRetries + 1;
      if poisonRetries >= MAX_THINK_TRANSIENT_RETRIES {
        Advance(ev);
        poisonRetries := 0;
        return Lived(false);
      }
      return Transient;
    }

    method Quote(seqNo: nat, ev: Event, request: Request, env: TickEnv) returns (outcome: Outcome)
      modifies this, gw
      ensures TickResult(View(), gw.daemon, outcome) ==
                PriceTick(cfg, old(View()), old(gw.daemon), seqNo, ev, request, env)
    {
      gw.Ask(AskThink(seqNo));
      match env.think
      case ThinkBroke => return Dead;
      case ThinkErr =>
        outcome := ThinkFailed(ev);
      case ThinkHiccup =>
        outcome := ThinkFailed(ev);
      case ThinkPerformed(quotedSats) =>
        poisonRetries := 0;
        var amount := ClampQuote(quotedSats);
        var issued := gw.RequestCharge(ChargeKey(cfg, ev), amount, env.charge);
        if issued.ChargeErr? {
          return Transient;
        }
        if issued.ChargeNone? || issued.charge.amountSats != amount {
          Advance(ev);
          return Lived(false);
        }
        var charge := issued.charge;
        var reply := gw.DmReply(seqNo, ev.sourcePubkey, Invoice(charge.id), env.dm);
        if reply.SendErr? {
          return Transient;
        }
        pending := pending[charge.id := PendingCharge(ev.sourcePubkey, request, seqNo, charge.amountSats, None)];
        gw.Observe(Armed(charge.id, ev.sourcePubkey, charge.amountSats, seqNo));
        Advance(ev);
        return Lived(true);
    }

    /** One oracle tick. */
    method OracleTick(seqNo: nat, env: TickEnv) returns (outcome: Outcome)
      modifies this, gw
      ensures TickResult(View(), gw.daemon, outcome) == Tick(cfg, old(View()), old(gw.daemon), seqNo, env)
    {
      pending := map c | c in pending && seqNo <= pending[c].issuedSeq + PENDING_TTL_TICKS :: pending[c];
      var polled := PollOneOracleEvent(env.poll);
      if polled.None? {
        return Lived(false);
      }
      var ev := polled.value;
      if ev.kind == PaymentSettled {
        outcome := Settle(seqNo, ev, env);
      } else {
        var request := cfg.classify(ev.payload);
        match request
        case Status => outcome := ReportBooks(seqNo, ev, env);
        case Unsupported =>
          Advance(ev);
          outcome := Lived(false);
        case Price(_, _) => outcome := Quote(seqNo, ev, request, env);
      }
    }

    /** One turn of the loop: tick at the number past the committed one, commit unless transient. */
    method LoopOnce(env: TickEnv)
      modifies this, gw
      ensures (View(), gw.daemon) == Iterate(cfg, old(View()), old(gw.daemon), env)
    {
      if parked {
        return;
      }
      var seqNo := committed + 1;
      var outcome := OracleTick(seqNo, env);
      if CommitsSeq(outcome) {
        committed := seqNo;
      }
      parked := outcome.Dead?;
      retrying := outcome.Transient?;
    }
  }
}
