/** The oracle's inbox discipline: no event is skipped or taken out of order, no event wedges the
    queue, and the waiting-set stays bounded. */
module OracleProgress {
  import opened Bytes
  import opened OracleModel
  import opened OracleSafety

  /** Everything numbered at or below the mark has been consumed or pruned. */
  function Mark(g: Genome, d: Daemon): nat {
    Max(d.floor, g.ack)
  }

  /** What the inbox still holds for the genome. */
  function Left(g: Genome, d: Daemon): seq<Event> {
    Waiting(d.arrived, Mark(g, d))
  }

  // ---- The order of the inbox ----

  lemma {:induction false} WaitingSnoc(arrived: seq<Event>, ev: Event, cursor: nat)
    ensures Waiting(arrived + [ev], cursor) ==
              Waiting(arrived, cursor) + if Wanted(ev) && ev.inboxSeq > cursor then [ev] else []
  {
    if arrived == [] {
      assert arrived + [ev] == [ev];
      assert Waiting([ev][1..], cursor) == [];
    } else {
      assert (arrived + [ev])[1..] == arrived[1..] + [ev] && (arrived + [ev])[0] == arrived[0];
      WaitingSnoc(arrived[1..], ev, cursor);
    }
  }

  lemma {:induction false} WaitingAbove(arrived: seq<Event>, low: nat, high: nat)
    requires forall e :: e in arrived ==> e.inboxSeq > high
    requires low <= high
    ensures Waiting(arrived, low) == Waiting(arrived, high)
  {
    if arrived != [] {
      assert forall e :: e in arrived[1..] ==> e in arrived;
      WaitingAbove(arrived[1..], low, high);
    }
  }

  /** In a growing inbox the oldest waiting event is the first, and consuming it leaves the rest. */
  lemma {:induction false} OldestIsFirst(arrived: seq<Event>, cursor: nat)
    requires Growing(arrived)
    ensures var waiting := Waiting(arrived, cursor);
            waiting != [] ==>
              && Oldest(waiting) == Some(waiting[0])
              && waiting[0].inboxSeq > cursor
              && Waiting(arrived, waiting[0].inboxSeq) == waiting[1..]
  {
    if arrived != [] {
      var first, rest := arrived[0], arrived[1..];
      assert Growing(rest) by {
        assert forall i :: 0 <= i < |rest| ==> rest[i] == arrived[i + 1];
      }
      OldestIsFirst(rest, cursor);
      assert forall e :: e in rest ==> e.inboxSeq > first.inboxSeq by {
        assert forall i :: 0 <= i < |rest| ==> rest[i] == arrived[i + 1];
      }
      WaitingIsInArrived(rest, cursor);
      if Wanted(first) && first.inboxSeq > cursor {
        var waiting := Waiting(arrived, cursor);
        assert waiting[0] == first && waiting[1..] == Waiting(rest, cursor);
        WaitingAbove(rest, cursor, first.inboxSeq);
        assert Oldest(waiting) == Some(first);
      } else if Waiting(rest, cursor) != [] {
        assert Waiting(rest, cursor)[0] in rest;
      }
    }
  }

  // ---- What handling an event does to the cursor ----

  ghost predicate ConsumesOrKeeps(g: Genome, d: Daemon, ev: Event, r: TickResult) {
    && r.d.arrived == d.arrived && r.d.floor == d.floor
    && ((r.g.ack == ev.inboxSeq && r.g.consumed == g.consumed + [ev]) ||
        (r.g.ack == g.ack && r.g.consumed == g.consumed))
  }

  lemma SettleCursor(cfg: Codec, g: Genome, d: Daemon, seqNo: nat, ev: Event, env: TickEnv)
    ensures ConsumesOrKeeps(g, d, ev, SettleTick(cfg, g, d, seqNo, ev, env))
  {
    hide BuildAnswer;
    hide SendDm;
    if SettledCharge(cfg, ev).Some? {
      var c := SettledCharge(cfg, ev).value;
      BuildAnswerShape(cfg, d, seqNo, c, env);
      if c in g.pending {
        var pc := g.pending[c];
        var (d1, answer) := if pc.answer.Some? then (d, pc.answer.value) else BuildAnswer(cfg, d, seqNo, c, env);
        SendShape(d1, seqNo, pc.sender, Attestation(answer), env.dm);
      }
    }
  }

  lemma PriceCursor(cfg: Codec, g: Genome, d: Daemon, seqNo: nat, ev: Event, request: Request, env: TickEnv)
    ensures ConsumesOrKeeps(g, d, ev, PriceTick(cfg, g, d, seqNo, ev, request, env))
  {
    hide SendDm;
    hide ChargeKey;
    if env.think.ThinkPerformed? {
      var (d1, issued) := IssueCharge(d.(asked := d.asked + [AskThink(seqNo)]), ChargeKey(cfg, ev),
          ClampQuote(env.think.quotedSats), env.charge);
      if issued.ChargeIs? {
        SendShape(d1, seqNo, ev.sourcePubkey, Invoice(issued.charge.id), env.dm);
      }
    }
  }

  lemma HandleCursor(cfg: Codec, g: Genome, d: Daemon, seqNo: nat, ev: Event, env: TickEnv)
    ensures ConsumesOrKeeps(g, d, ev, HandleEvent(cfg, g, d, seqNo, ev, env))
  {
    hide SettleTick;
    hide PriceTick;
    hide SendDm;
    if ev.kind == PaymentSettled {
      SettleCursor(cfg, g, d, seqNo, ev, env);
    } else {
      SendShape(d.(asked := d.asked + [AskContext]), seqNo, ev.sourcePubkey, Books, env.dm);
      PriceCursor(cfg, g, d, seqNo, ev, cfg.classify(ev.payload), env);
    }
  }

  /** The cursor never runs past the arrivals, nor the prune mark past the cursor. */
  ghost predicate CursorOk(w: World) {
    && w.bootFloor <= w.d.floor <= Max(w.bootFloor, w.g.ack)
    && w.g.ack <= LastSeq(w.d.arrived) && w.bootFloor <= LastSeq(w.d.arrived)
  }

  /** The events that waited at boot, or arrived since, are the consumed ones followed by the ones
      still waiting. */
  ghost predicate ConsumedIsPrefix(w: World) {
    Waiting(w.d.arrived, w.bootFloor) == w.g.consumed + Left(w.g, w.d)
  }

  lemma TickPrefix(cfg: Codec, w: World, env: TickEnv)
    requires Growing(w.d.arrived) && CursorOk(w) && ConsumedIsPrefix(w) && !w.g.parked
    ensures var w' := Step(cfg, w, Run(env)); CursorOk(w') && ConsumedIsPrefix(w')
  {
    hide HandleEvent;
    hide Tick;
    hide PollOne;
    var d := TickIs(cfg, w.g, w.d, env);
    FloorBelowAck(w.d, w.g.ack, env.poll);
    if env.poll.PollOk? && Head(w.g, w.d).Some? {
      var ev := Head(w.g, w.d).value;
      HandleCursor(cfg, Aged(w.g), d, w.g.committed + 1, ev, env);
      HeadIsFirst(w.g, w.d);
      ArrivedBounded(w.d.arrived, ev);
    }
  }

  lemma FloorBelowAck(d: Daemon, ack: nat, fate: PollFate)
    ensures d.floor <= PollOne(d, ack, fate).0.floor <= Max(d.floor, ack)
  {
  }

  lemma HeadIsFirst(g: Genome, d: Daemon)
    requires Growing(d.arrived)
    ensures Head(g, d).Some? <==> Left(g, d) != []
    ensures Head(g, d).Some? ==>
              var ev := Head(g, d).value;
              && ev == Left(g, d)[0] && ev in d.arrived && ev.inboxSeq > Mark(g, d)
              && Waiting(d.arrived, ev.inboxSeq) == Left(g, d)[1..]
  {
    OldestIsFirst(d.arrived, Mark(g, d));
    WaitingIsInArrived(d.arrived, Mark(g, d));
  }

  lemma ArrivedBounded(arrived: seq<Event>, ev: Event)
    requires Growing(arrived) && ev in arrived
    ensures ev.inboxSeq <= LastSeq(arrived)
  {
    var i :| 0 <= i < |arrived| && arrived[i] == ev;
  }

  lemma StepPrefix(cfg: Codec, w: World, input: Input)
    requires Growing(w.d.arrived) && CursorOk(w) && ConsumedIsPrefix(w)
    ensures var w' := Step(cfg, w, input); CursorOk(w') && ConsumedIsPrefix(w')
  {
    hide Tick;
    hide Iterate;
    match input
    case Run(env) =>
      if w.g.parked {
        ParkedStep(cfg, w, env);
      } else {
        TickPrefix(cfg, w, env);
      }
    case Reboot =>
    case Arrive(ev, gap) =>
      ArrivalPrefix(w, ev.(inboxSeq := LastSeq(w.d.arrived) + 1 + gap));
  }

  lemma ArrivalPrefix(w: World, e: Event)
    requires CursorOk(w) && ConsumedIsPrefix(w) && e.inboxSeq > LastSeq(w.d.arrived)
    ensures var w' := w.(d := w.d.(arrived := w.d.arrived + [e])); CursorOk(w') && ConsumedIsPrefix(w')
  {
    WaitingSnoc(w.d.arrived, e, w.bootFloor);
    WaitingSnoc(w.d.arrived, e, Mark(w.g, w.d));
    hide Waiting;
  }

  /** In every run, events are consumed in order and none is stepped over: what the cursor has
      passed this boot is exactly the front of the inbox. */
  lemma {:induction false} ConsumedIsAlwaysAPrefix(cfg: Codec, inputs: seq<Input>)
    ensures var w := After(cfg, INITIAL_WORLD, inputs); CursorOk(w) && ConsumedIsPrefix(w)
  {
    hide Step;
    if inputs != [] {
      var n := |inputs| - 1;
      ConsumedIsAlwaysAPrefix(cfg, inputs[..n]);
      ReachableInv(cfg, inputs[..n]);
      StepPrefix(cfg, After(cfg, INITIAL_WORLD, inputs[..n]), inputs[n]);
    }
  }

  // ---- No head-of-line wedge ----

  /** Every call but the think reaches the daemon and is answered. */
  predicate OnlyThinkFails(env: TickEnv) {
    && env.poll.PollOk? && env.contextOk
    && env.charge.ChargeReached? && !env.charge.lost
    && env.dm.DmReached? && !env.dm.lost
  }

  /** Handling an event then consumes it, parks, or uses up one of its bounded retries. */
  ghost predicate Advances(g: Genome, ev: Event, r: TickResult) {
    || r.outcome.Dead?
    || (r.g.ack == ev.inboxSeq && r.outcome.Lived? && r.g.poison < MAX_THINK_TRANSIENT_RETRIES)
    || (r.g.ack == g.ack && r.outcome.Transient? && r.g.poison == g.poison + 1 < MAX_THINK_TRANSIENT_RETRIES)
  }

  lemma HandleAdvances(cfg: Codec, g: Genome, d: Daemon, seqNo: nat, ev: Event, env: TickEnv)
    requires OnlyThinkFails(env) && g.poison < MAX_THINK_TRANSIENT_RETRIES
    ensures Advances(g, ev, HandleEvent(cfg, g, d, seqNo, ev, env))
  {
    if ev.kind == PaymentSettled {
      hide DmTick;
      hide BuildAnswer;
    } else {
      hide SettleTick;
    }
  }

  /** The loop run over a list of environments, with no arrivals. */
  function Ticks(cfg: Codec, g: Genome, d: Daemon, envs: seq<TickEnv>): (Genome, Daemon)
    decreases |envs|
  {
    if envs == [] then (g, d)
    else
      var (g', d') := Iterate(cfg, g, d, envs[0]);
      Ticks(cfg, g', d', envs[1..])
  }

  /** How many more ticks the waiting events can take. */
  function Budget(g: Genome, d: Daemon): int {
    MAX_THINK_TRANSIENT_RETRIES * |Left(g, d)| - g.poison
  }

  /** One tick strictly lowers the pair (events left, retries left), or parks. */
  lemma TickLowers(cfg: Codec, g: Genome, d: Daemon, env: TickEnv)
    requires Growing(d.arrived) && OnlyThinkFails(env) && !g.parked
    requires g.poison < MAX_THINK_TRANSIENT_RETRIES && Left(g, d) != []
    ensures var (g', d') := Iterate(cfg, g, d, env);
            && d'.arrived == d.arrived && (g'.parked || g'.poison < MAX_THINK_TRANSIENT_RETRIES)
            && (g'.parked || Left(g', d') == Left(g, d)[1..]
                 || (Left(g', d') == Left(g, d) && g'.poison == g.poison + 1))
  {
    hide HandleEvent;
    hide Tick;
    hide PollOne;
    var d1 := TickIs(cfg, g, d, env);
    HeadIsFirst(g, d);
    var ev := Head(g, d).value;
    HandleCursor(cfg, Aged(g), d1, g.committed + 1, ev, env);
    HandleAdvances(cfg, Aged(g), d1, g.committed + 1, ev, env);
  }

  lemma IdleTick(cfg: Codec, g: Genome, d: Daemon, env: TickEnv)
    requires Growing(d.arrived) && (g.parked || Left(g, d) == [])
    ensures var (g', d') := Iterate(cfg, g, d, env);
            d'.arrived == d.arrived && (if g.parked then g'.parked else Left(g', d') == [])
  {
    hide HandleEvent;
    hide Tick;
    hide PollOne;
    if !g.parked {
      var d1 := TickIs(cfg, g, d, env);
      HeadIsFirst(g, d);
    }
  }

  lemma {:induction false} StaysDrained(cfg: Codec, g: Genome, d: Daemon, envs: seq<TickEnv>)
    requires Growing(d.arrived) && (g.parked || Left(g, d) == [])
    ensures var (g', d') := Ticks(cfg, g, d, envs); g'.parked || Left(g', d') == []
    decreases |envs|
  {
    hide Iterate;
    if envs != [] {
      IdleTick(cfg, g, d, envs[0]);
      var (g1, d1) := Iterate(cfg, g, d, envs[0]);
      StaysDrained(cfg, g1, d1, envs[1..]);
    }
  }

  /** With only the think failing transiently, `n` waiting events drain (or the agent is out of
      runway) within `5n` ticks, whatever the events are. */
  lemma {:induction false} InboxDrains(cfg: Codec, g: Genome, d: Daemon, envs: seq<TickEnv>)
    requires Growing(d.arrived) && g.poison < MAX_THINK_TRANSIENT_RETRIES
    requires forall env :: env in envs ==> OnlyThinkFails(env)
    requires |envs| >= Budget(g, d)
    ensures var (g', d') := Ticks(cfg, g, d, envs); g'.parked || Left(g', d') == []
    decreases |envs|
  {
    hide Iterate;
    if g.parked || Left(g, d) == [] {
      StaysDrained(cfg, g, d, envs);
    } else {
      TickLowers(cfg, g, d, envs[0]);
      var (g1, d1) := Iterate(cfg, g, d, envs[0]);
      if g1.parked {
        StaysDrained(cfg, g1, d1, envs[1..]);
      } else {
        assert forall env :: env in envs[1..] ==> env in envs;
        InboxDrains(cfg, g1, d1, envs[1..]);
      }
    }
  }

  // ---- Exactly when the head is kept ----

  /** The settlement branch keeps `ev`: it settles a waiting charge and the DM reply is lost. */
  ghost predicate SettleRetries(cfg: Codec, pending: map<Str, PendingCharge>, ev: Event, env: TickEnv) {
    SettledCharge(cfg, ev).Some? && Settles(cfg, ev, SettledCharge(cfg, ev).value, pending) && ReplyLost(env.dm)
  }

  predicate ThinkHiccups(env: TickEnv) {
    env.think.ThinkErr? || env.think.ThinkHiccup?
  }

  /** The charge comes back at the amount asked for. */
  predicate ChargeMatches(cfg: Codec, d: Daemon, ev: Event, env: TickEnv)
    requires env.think.ThinkPerformed?
  {
    var amount := ClampQuote(env.think.quotedSats);
    var issued := IssueCharge(d, ChargeKey(cfg, ev), amount, env.charge).1;
    issued.ChargeIs? && issued.charge.amountSats == amount
  }

  predicate ChargeLost(fate: ChargeFate) {
    fate.ChargeUnreached? || fate.lost
  }

  /** The price branch keeps `ev`: a think hiccup short of the bound, a lost charge call, or a lost invoice. */
  predicate PriceRetries(cfg: Codec, poison: nat, d: Daemon, ev: Event, env: TickEnv) {
    || (ThinkHiccups(env) && poison + 1 < MAX_THINK_TRANSIENT_RETRIES)
    || (env.think.ThinkPerformed? && (ChargeLost(env.charge) || (ChargeMatches(cfg, d, ev, env) && ReplyLost(env.dm))))
  }

  /** A tick that handles `ev` keeps it at the head. */
  ghost predicate Retries(cfg: Codec, g: Genome, d: Daemon, ev: Event, env: TickEnv) {
    if ev.kind == PaymentSettled then SettleRetries(cfg, g.pending, ev, env)
    else
      match cfg.classify(ev.payload)
      case Status => !env.contextOk || ReplyLost(env.dm)
      case Unsupported => false
      case Price(_, _) => PriceRetries(cfg, g.poison, d, ev, env)
  }

  /** A denied think on a price request parks the loop. */
  predicate Parks(cfg: Codec, ev: Event, env: TickEnv) {
    ev.kind != PaymentSettled && cfg.classify(ev.payload).Price? && env.think.ThinkBroke?
  }

  /** Handling an event keeps it, parks on it, or consumes it. */
  ghost predicate Disposes(retries: bool, parks: bool, g: Genome, ev: Event, r: TickResult) {
    if retries then r.g.ack == g.ack && r.outcome.Transient?
    else if parks then r.outcome.Dead?
    else r.g.ack == ev.inboxSeq && r.outcome.Lived?
  }

  lemma SettleDisposes(cfg: Codec, g: Genome, d: Daemon, seqNo: nat, ev: Event, env: TickEnv)
    requires ev.kind == PaymentSettled
    ensures Disposes(SettleRetries(cfg, g.pending, ev, env), false, g, ev, SettleTick(cfg, g, d, seqNo, ev, env))
  {
    hide BuildAnswer;
  }

  lemma PriceDisposes(cfg: Codec, g: Genome, d: Daemon, seqNo: nat, ev: Event, request: Request, env: TickEnv)
    ensures Disposes(PriceRetries(cfg, g.poison, d, ev, env), env.think.ThinkBroke?, g, ev,
                     PriceTick(cfg, g, d, seqNo, ev, request, env))
  {
    if env.think.ThinkPerformed? {
      var amount := ClampQuote(env.think.quotedSats);
      var (d1, issued) := IssueCharge(d.(asked := d.asked + [AskThink(seqNo)]), ChargeKey(cfg, ev), amount, env.charge);
      assert issued == IssueCharge(d, ChargeKey(cfg, ev), amount, env.charge).1;
      assert issued.ChargeErr? <==> ChargeLost(env.charge);
      hide IssueCharge;
      hide ChargeKey;
      hide ClampQuote;
      if issued.ChargeIs? && issued.charge.amountSats == amount {
        InvoiceDisposes(g.(poison := 0), d1, seqNo, ev, request, issued.charge, env);
      }
      hide InvoiceTick;
    }
  }

  lemma InvoiceDisposes(g: Genome, d: Daemon, seqNo: nat, ev: Event, request: Request, charge: Charge, env: TickEnv)
    ensures Disposes(ReplyLost(env.dm), false, g, ev, InvoiceTick(g, d, seqNo, ev, request, charge, env))
  {
  }

  lemma HandleDisposes(cfg: Codec, g: Genome, d: Daemon, seqNo: nat, ev: Event, env: TickEnv)
    ensures Disposes(Retries(cfg, g, d, ev, env), Parks(cfg, ev, env), g, ev, HandleEvent(cfg, g, d, seqNo, ev, env))
  {
    if ev.kind == PaymentSettled {
      SettleDisposes(cfg, g, d, seqNo, ev, env);
      hide SettleTick;
    } else {
      hide SettleTick;
      match cfg.classify(ev.payload)
      case Status =>
      case Unsupported =>
      case Price(_, _) =>
        PriceDisposes(cfg, g, d, seqNo, ev, cfg.classify(ev.payload), env);
        hide PriceTick;
        hide PriceRetries;
    }
  }

  /** The head as the next tick would handle it. */
  ghost predicate HeadRetries(cfg: Codec, g: Genome, d: Daemon, env: TickEnv)
    requires Head(g, d).Some?
  {
    Retries(cfg, Aged(g), d, Head(g, d).value, env)
  }

  /** No wedge but these: a tick that polls a non-empty inbox keeps its head and goes on exactly when the head
      settles a waiting charge and the reply is lost, or is a status request and the percept or the reply is
      lost, or is a price request and the think fails short of its bound, the charge call is lost or the invoice
      is. Every other tick drops the head, or parks on a denied think. */
  lemma HeadKeptIff(cfg: Codec, g: Genome, d: Daemon, env: TickEnv)
    requires Growing(d.arrived) && !g.parked && Left(g, d) != [] && env.poll.PollOk?
    ensures Head(g, d) == Some(Left(g, d)[0])
    ensures var (g', d') := Iterate(cfg, g, d, env);
            && (Left(g', d') == Left(g, d) && !g'.parked <==> HeadRetries(cfg, g, d, env))
            && (Left(g', d') == Left(g, d)[1..] && !g'.parked <==>
                  !HeadRetries(cfg, g, d, env) && !Parks(cfg, Left(g, d)[0], env))
  {
    hide HandleEvent;
    hide Tick;
    hide PollOne;
    HeadIsFirst(g, d);
    var d1 := TickIs(cfg, g, d, env);
    var ev := Head(g, d).value;
    HandleCursor(cfg, Aged(g), d1, g.committed + 1, ev, env);
    HandleDisposes(cfg, Aged(g), d1, g.committed + 1, ev, env);
    RetriesPruned(cfg, Aged(g), d, d1, ev, env);
    RetryIsNoDenial(cfg, Aged(g), d, ev, env);
    hide Retries;
    hide Parks;
    assert |Left(g, d)[1..]| < |Left(g, d)|;
  }

  lemma RetriesPruned(cfg: Codec, g: Genome, d: Daemon, d1: Daemon, ev: Event, env: TickEnv)
    requires d1 == d.(floor := d1.floor)
    ensures Retries(cfg, g, d1, ev, env) <==> Retries(cfg, g, d, ev, env)
  {
  }

  lemma RetryIsNoDenial(cfg: Codec, g: Genome, d: Daemon, ev: Event, env: TickEnv)
    ensures Retries(cfg, g, d, ev, env) ==> !Parks(cfg, ev, env)
  {
  }

  // ---- Outages ----

  /** A call the head needs never gets through, in a way that no bound limits: the DM of a paid answer, the
      percept or the DM of a self-report, the charge of a price request, or its invoice once the charge is
      stored at the amount asked for. */
  ghost predicate Outage(cfg: Codec, g: Genome, d: Daemon, env: TickEnv)
    requires Head(g, d).Some?
  {
    var ev := Head(g, d).value;
    env.poll.PollOk? &&
    if ev.kind == PaymentSettled then SettleRetries(cfg, Aged(g).pending, ev, env)
    else
      match cfg.classify(ev.payload)
      case Status => !env.contextOk || ReplyLost(env.dm)
      case Unsupported => false
      case Price(_, _) =>
        && env.think.ThinkPerformed?
        && (ChargeLost(env.charge) || (StoredAt(cfg, d, ev, env) && ReplyLost(env.dm)))
  }

  /** The charge of `ev` is on record at the amount this tick asks for, and the ledger answers. */
  predicate StoredAt(cfg: Codec, d: Daemon, ev: Event, env: TickEnv)
    requires env.think.ThinkPerformed?
  {
    && ChargeKey(cfg, ev) in d.charges && d.charges[ChargeKey(cfg, ev)].amountSats == ClampQuote(env.think.quotedSats)
    && env.charge.ChargeReached? && !env.charge.lost
  }

  lemma OutageRetries(cfg: Codec, g: Genome, d: Daemon, env: TickEnv)
    requires Head(g, d).Some? && Outage(cfg, g, d, env)
    ensures HeadRetries(cfg, g, d, env)
  {
    hide PollOne;
    hide AgeOut;
  }

  /** `after` waits for the same charges as `before`, at the same prices, from the same ticks. */
  ghost predicate SameCharges(before: map<Str, PendingCharge>, after: map<Str, PendingCharge>) {
    forall c :: c in before ==>
      c in after && after[c].amountSats == before[c].amountSats && after[c].issuedSeq == before[c].issuedSeq
  }

  ghost predicate ChargesGrow(d: Daemon, d': Daemon) {
    forall k :: k in d.charges ==> k in d'.charges && d'.charges[k] == d.charges[k]
  }

  /** A tick that keeps its head loses no waiting charge and no ledger entry. */
  lemma RetryLosesNothing(cfg: Codec, g: Genome, d: Daemon, seqNo: nat, ev: Event, env: TickEnv)
    requires Retries(cfg, g, d, ev, env) && CachesMatch(g.pending)
    ensures var r := HandleEvent(cfg, g, d, seqNo, ev, env);
              SameCharges(g.pending, r.g.pending) && ChargesGrow(d, r.d) && CachesMatch(r.g.pending)
  {
    if ev.kind == PaymentSettled {
      var a := SettledShape(cfg, g, d, seqNo, ev, SettledCharge(cfg, ev).value, env);
      hide SettleTick;
    } else {
      hide SettleTick;
      match cfg.classify(ev.payload)
      case Status =>
      case Unsupported =>
      case Price(_, _) =>
        PriceDisposes(cfg, g, d, seqNo, ev, cfg.classify(ev.payload), env);
        PriceLosesNothing(cfg, g, d, seqNo, ev, cfg.classify(ev.payload), env);
        hide PriceTick;
        hide PriceRetries;
    }
  }

  lemma PriceLosesNothing(cfg: Codec, g: Genome, d: Daemon, seqNo: nat, ev: Event, request: Request, env: TickEnv)
    ensures var r := PriceTick(cfg, g, d, seqNo, ev, request, env);
            ChargesGrow(d, r.d) && (r.outcome.Transient? ==> r.g.pending == g.pending)
  {
    if env.think.ThinkPerformed? {
      var d0 := d.(asked := d.asked + [AskThink(seqNo)]);
      IssueGrows(d0, ChargeKey(cfg, ev), ClampQuote(env.think.quotedSats), env.charge);
      hide IssueCharge;
      hide ChargesGrow;
    }
  }

  lemma IssueGrows(d: Daemon, key: Str, amount: nat, fate: ChargeFate)
    ensures var d' := IssueCharge(d, key, amount, fate).0;
            forall d1: Daemon, d2: Daemon :: d1.charges == d.charges && d2.charges == d'.charges ==> ChargesGrow(d1, d2)
  {
  }

  lemma AgedKeeps(g: Genome, g': Genome)
    requires g'.committed == g.committed && SameCharges(Aged(g).pending, g'.pending)
    ensures SameCharges(Aged(g).pending, Aged(g').pending)
  {
  }

  lemma OutageTick(cfg: Codec, g: Genome, d: Daemon, env: TickEnv)
    requires Growing(d.arrived) && !g.parked && CachesMatch(g.pending) && Left(g, d) != []
    requires Head(g, d).Some? && Outage(cfg, g, d, env)
    ensures var (g', d') := Iterate(cfg, g, d, env);
            && d'.arrived == d.arrived && !g'.parked && Left(g', d') == Left(g, d) && Head(g', d') == Head(g, d)
            && SameCharges(Aged(g).pending, Aged(g').pending) && ChargesGrow(d, d') && CachesMatch(g'.pending)
  {
    hide HandleEvent;
    hide Tick;
    hide PollOne;
    HeadKeptIff(cfg, g, d, env);
    OutageRetries(cfg, g, d, env);
    var d1 := TickIs(cfg, g, d, env);
    var ev := Head(g, d).value;
    RetriesPruned(cfg, Aged(g), d, d1, ev, env);
    HandleDisposes(cfg, Aged(g), d1, g.committed + 1, ev, env);
    hide Retries;
    hide Outage;
    RetryLosesNothing(cfg, Aged(g), d1, g.committed + 1, ev, env);
    HandleCursor(cfg, Aged(g), d1, g.committed + 1, ev, env);
    hide SameCharges;
    var (g', d') := Iterate(cfg, g, d, env);
    AgedKeeps(g, g');
    HeadIsFirst(g', d');
    HeadIsFirst(g, d);
  }

  lemma OutagePersists(cfg: Codec, g: Genome, d: Daemon, g': Genome, d': Daemon, env: TickEnv)
    requires Head(g, d).Some? && Head(g', d') == Head(g, d) && Outage(cfg, g, d, env)
    requires SameCharges(Aged(g).pending, Aged(g').pending) && ChargesGrow(d, d')
    ensures Outage(cfg, g', d', env)
  {
    hide PollOne;
    hide AgeOut;
  }

  /** The drain needs its hypothesis: an outage of any of those calls holds the head of the inbox, and all
      that waits behind it, for as long as it lasts. */
  lemma {:induction false} OutageHolds(cfg: Codec, g: Genome, d: Daemon, envs: seq<TickEnv>)
    requires Growing(d.arrived) && !g.parked && CachesMatch(g.pending) && Left(g, d) != [] && Head(g, d).Some?
    requires forall env :: env in envs ==> Outage(cfg, g, d, env)
    ensures var (g', d') := Ticks(cfg, g, d, envs); Left(g', d') == Left(g, d) && !g'.parked
    decreases |envs|
  {
    hide Iterate;
    hide Outage;
    hide PollOne;
    if envs != [] {
      assert envs[0] in envs;
      OutageTick(cfg, g, d, envs[0]);
      var (g1, d1) := Iterate(cfg, g, d, envs[0]);
      forall env | env in envs[1..] ensures Outage(cfg, g1, d1, env) {
        assert env in envs;
        OutagePersists(cfg, g, d, g1, d1, env);
      }
      OutageHolds(cfg, g1, d1, envs[1..]);
    }
  }

  // ---- The waiting-set is bounded ----

  lemma {:induction false} InjectiveIntoRange(pending: map<Str, PendingCharge>, low: int, high: int)
    requires low <= high
    requires forall c :: c in pending ==> low <= pending[c].issuedSeq < high
    requires forall c1, c2 :: c1 in pending && c2 in pending && c1 != c2 ==>
             pending[c1].issuedSeq != pending[c2].issuedSeq
    ensures |pending| <= high - low
    decreases high - low
  {
    if pending != map[] {
      if c :| c in pending && pending[c].issuedSeq == high - 1 {
        var rest := pending - {c};
        assert rest.Keys == pending.Keys - {c};
        InjectiveIntoRange(rest, low, high - 1);
      } else {
        var c :| c in pending;
        assert low < high;
        InjectiveIntoRange(pending, low, high - 1);
      }
    }
  }

  /** In every reachable world at most 241 charges wait: each was armed by its own tick, within the
      TTL. */
  lemma WaitingSetBounded(cfg: Codec, inputs: seq<Input>)
    ensures |After(cfg, INITIAL_WORLD, inputs).g.pending| <= PENDING_TTL_TICKS + 1
  {
    hide After;
    var g := After(cfg, INITIAL_WORLD, inputs).g;
    ReachableInv(cfg, inputs);
    InjectiveIntoRange(g.pending, g.committed - PENDING_TTL_TICKS, g.committed + 1);
  }
}
