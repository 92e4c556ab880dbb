/** The price oracle's tick, as a function of the genome's state, the daemon's state and the
    environment's choices. The daemon is an explicit environment: it dedupes on idempotency keys,
    and any call may be lost before or after it took effect. */
module OracleModel {
  import opened Bytes
  import ChargeIdentity

  const MIN_CHARGE_SATS: nat := 10
  const PENDING_TTL_TICKS: nat := 240
  const FETCH_ATTEMPTS: nat := 2
  const FEED_COUNT: nat := 3
  const QUORUM: nat := 2
  const MAX_THINK_TRANSIENT_RETRIES: nat := 5

  // ---- What travels ----

  datatype Kind = DirectMessage | PaymentSettled | OtherKind

  datatype Event = Event(inboxSeq: nat, kind: Kind, correlationId: Str, sourcePubkey: Str, createdAt: nat, payload: Str)

  datatype Request = Price(pair: Str, source: Option<Str>) | Status | Unsupported

  datatype Settled = Settled(chargeId: Str, verifiedSats: nat)

  /** A feed named in an attestation, with the price it gave where that is disclosed. */
  datatype Source = Source(feed: nat, price: Option<real>)

  /** An attestation: the median (present only at quorum), the sources that answered, the clock,
      and the charge it answers. */
  datatype Answer = Answer(median: Option<real>, sources: seq<Source>, fetchedAt: nat, chargeId: Str)

  datatype DmText = Attestation(answer: Answer) | Invoice(chargeId: Str) | Books

  datatype PendingCharge = PendingCharge(sender: Str, request: Request, issuedSeq: nat, amountSats: nat,
      answer: Option<Answer>)

  /** The library calls the tick depends on: the request parser, the settlement decoder, the
      median, and the hash behind the charge key. */
  datatype Codec = Codec(
    classify: Str -> Request,
    decodeSettled: Str -> Option<Settled>,
    median: seq<real> -> Option<real>,
    hash: Str -> Str)

  // ---- The daemon ----

  /** Idempotency keys; the charge key is separate, because its ledger returns the charge. */
  datatype Key = DmKey(seqNo: nat) | FetchKey(seqNo: nat, feed: nat, attempt: nat)

  datatype Charge = Charge(id: Str, amountSats: nat)

  /** A request as it leaves the genome. */
  datatype Call =
    | AskThink(seqNo: nat)
    | AskContext
    | AskFetch(seqNo: nat, feed: nat, attempt: nat)
    | AskCharge(key: Str, amountSats: nat)
    | AskDm(seqNo: nat, to: Str, text: DmText)

  /** What happened, in order: a charge armed by the genome, a DM the daemon really sent. */
  datatype Obs =
    | Armed(chargeId: Str, sender: Str, amountSats: nat, issuedSeq: nat)
    | Delivered(seqNo: nat, to: Str, text: DmText)

  /** `arrived` and `floor` are the inbox: every event ever enqueued, and the highest cursor a poll
      has pruned up to. `recorded` and `charges` are the idempotency ledgers. `asked` and `log` are
      histories. */
  datatype Daemon = Daemon(
    arrived: seq<Event>,
    floor: nat,
    recorded: set<Key>,
    charges: map<Str, Charge>,
    asked: seq<Call>,
    log: seq<Obs>)

  // ---- The environment's choices for one tick ----

  datatype PollFate = PollErr(reached: bool) | PollOk

  datatype ThinkFate = ThinkErr | ThinkHiccup | ThinkBroke | ThinkPerformed(quotedSats: nat)

  datatype ChargeFate = ChargeUnreached | ChargeReached(grant: Option<Str>, lost: bool)

  datatype DmVerdict = Performed | Broke | OverBudget | NotAllowlisted | UpstreamFailed

  datatype DmFate = DmUnreached | DmReached(verdict: DmVerdict, lost: bool)

  /** The daemon publishes a DM sent under a free key. */
  predicate Publishes(fate: DmFate) {
    fate.DmReached? && fate.verdict == Performed
  }

  predicate ReplyLost(fate: DmFate) {
    fate.DmUnreached? || fate.lost
  }

  datatype FetchFate = FetchUnreached | FetchReached(price: Option<real>, lost: bool)

  datatype TickEnv = TickEnv(
    poll: PollFate,
    think: ThinkFate,
    contextOk: bool,
    charge: ChargeFate,
    dm: DmFate,
    fetch: (nat, nat) -> FetchFate,
    now: nat)

  // ---- Daemon operations ----

  predicate Wanted(e: Event) {
    e.kind == DirectMessage || e.kind == PaymentSettled
  }

  /** The wanted events of `arrived` numbered above `cursor`, in order. */
  function Waiting(arrived: seq<Event>, cursor: nat): (r: seq<Event>)
  {
    if arrived == [] then []
    else if Wanted(arrived[0]) && arrived[0].inboxSeq > cursor then [arrived[0]] + Waiting(arrived[1..], cursor)
    else Waiting(arrived[1..], cursor)
  }

  function Max(a: nat, b: nat): nat { if a < b then b else a }

  /** A poll prunes what the cursor confirms and returns what waits; it may fail on either side. */
  function ReadInbox(d: Daemon, ack: nat, fate: PollFate): (Daemon, Option<seq<Event>>) {
    match fate
    case PollErr(false) => (d, None)
    case PollErr(true) => (d.(floor := Max(d.floor, ack)), None)
    case PollOk =>
      var d' := d.(floor := Max(d.floor, ack));
      (d', Some(Waiting(d'.arrived, d'.floor)))
  }

  datatype SendReply = SendErr | SendDone(recordedWrite: bool)

  /** One DM send. A recorded key performs nothing and answers as a duplicate; a performed send and
      a send the relay rejected both burn the key; a denial leaves it free. */
  function SendDm(d: Daemon, seqNo: nat, to: Str, text: DmText, fate: DmFate): (Daemon, SendReply) {
    var d0 := d.(asked := d.asked + [AskDm(seqNo, to, text)]);
    match fate
    case DmUnreached => (d0, SendErr)
    case DmReached(verdict, lost) =>
      var duplicate := DmKey(seqNo) in d.recorded;
      var d1 := if !duplicate && (verdict == Performed || verdict == UpstreamFailed)
                then d0.(recorded := d.recorded + {DmKey(seqNo)}) else d0;
      var d2 := if !duplicate && verdict == Performed
                then d1.(log := d.log + [Delivered(seqNo, to, text)]) else d1;
      (d2, if lost then SendErr else SendDone(duplicate || verdict == Performed))
  }

  /** One feed fetch under its own key; a repeated key is answered without a body. */
  function Fetch(d: Daemon, seqNo: nat, feed: nat, attempt: nat, fate: FetchFate): (Daemon, Option<real>) {
    var d0 := d.(asked := d.asked + [AskFetch(seqNo, feed, attempt)]);
    match fate
    case FetchUnreached => (d0, None)
    case FetchReached(price, lost) =>
      var key := FetchKey(seqNo, feed, attempt);
      (d0.(recorded := d.recorded + {key}), if lost || key in d.recorded then None else price)
  }

  datatype ChargeReply = ChargeErr | ChargeNone | ChargeIs(charge: Charge)

  function ChargeIds(charges: map<Str, Charge>): set<Str> {
    set k | k in charges :: charges[k].id
  }

  /** Issue a charge under `key`: a known key returns the stored charge, a new one gets a charge id
      never handed out before, or is refused. */
  function IssueCharge(d: Daemon, key: Str, amountSats: nat, fate: ChargeFate): (Daemon, ChargeReply) {
    var d0 := d.(asked := d.asked + [AskCharge(key, amountSats)]);
    match fate
    case ChargeUnreached => (d0, ChargeErr)
    case ChargeReached(grant, lost) =>
      if key in d.charges then (d0, if lost then ChargeErr else ChargeIs(d.charges[key]))
      else if grant.None? || grant.value in ChargeIds(d.charges) then (d0, if lost then ChargeErr else ChargeNone)
      else
        var charge := Charge(grant.value, amountSats);
        (d0.(charges := d.charges[key := charge]), if lost then ChargeErr else ChargeIs(charge))
  }

  // ---- The genome ----

  /** The loop's state. `retrying` (the last tick was a Transient) and `consumed` (the events the
      cursor has stepped over this boot) are histories the code does not keep. */
  datatype Genome = Genome(
    committed: nat,
    ack: nat,
    pending: map<Str, PendingCharge>,
    poison: nat,
    parked: bool,
    retrying: bool,
    consumed: seq<Event>)

  const FRESH_GENOME := Genome(0, 0, map[], 0, false, false, [])

  datatype Outcome = Lived(recordedWrite: bool) | Dead | Transient

  predicate CommitsSeq(o: Outcome) { !o.Transient? }

  datatype TickResult = TickResult(g: Genome, d: Daemon, outcome: Outcome)

  /** Unpaid charges older than the TTL leave the waiting-set. */
  function AgeOut(pending: map<Str, PendingCharge>, seqNo: nat): map<Str, PendingCharge> {
    map c | c in pending && seqNo <= pending[c].issuedSeq + PENDING_TTL_TICKS :: pending[c]
  }

  /** The first event of least inbox number. */
  function Oldest(batch: seq<Event>): (r: Option<Event>)
    ensures r.None? <==> batch == []
    ensures r.Some? ==> r.value in batch && forall e :: e in batch ==> r.value.inboxSeq <= e.inboxSeq
  {
    if batch == [] then None
    else
      var rest := Oldest(batch[1..]);
      assert forall e :: e in batch ==> e == batch[0] || e in batch[1..];
      if rest.None? || batch[0].inboxSeq <= rest.value.inboxSeq then Some(batch[0]) else rest
  }

  /** A soft poll error reads as an empty inbox. */
  function PollOne(d: Daemon, ack: nat, fate: PollFate): (Daemon, Option<Event>) {
    var (d', batch) := ReadInbox(d, ack, fate);
    (d', if batch.None? then None else Oldest(batch.value))
  }

  function Consume(g: Genome, ev: Event): Genome {
    g.(ack := ev.inboxSeq, consumed := g.consumed + [ev])
  }

  function Forget(g: Genome, chargeId: Str): Genome {
    g.(pending := g.pending - {chargeId})
  }

  /** Up to `FETCH_ATTEMPTS` immediate tries at one feed, stopping at the first price. */
  function TryFeed(d: Daemon, seqNo: nat, feed: nat, attempt: nat, env: TickEnv): (Daemon, Option<real>)
    requires attempt <= FETCH_ATTEMPTS
    decreases FETCH_ATTEMPTS - attempt
  {
    if attempt == FETCH_ATTEMPTS then (d, None)
    else
      var (d', price) := Fetch(d, seqNo, feed, attempt, env.fetch(feed, attempt));
      if price.Some? then (d', price) else TryFeed(d', seqNo, feed, attempt + 1, env)
  }

  /** The feeds from `feed` on, appended to the sources that already answered. */
  function Gather(d: Daemon, seqNo: nat, feed: nat, env: TickEnv, answered: seq<(nat, real)>): (Daemon,
        seq<(nat, real)>)
    requires feed <= FEED_COUNT
    decreases FEED_COUNT - feed
  {
    if feed == FEED_COUNT then (d, answered)
    else
      var (d', price) := TryFeed(d, seqNo, feed, 0, env);
      Gather(d', seqNo, feed + 1, env, if price.Some? then answered + [(feed, price.value)] else answered)
  }

  function Prices(answered: seq<(nat, real)>): seq<real> {
    seq(|answered|, i requires 0 <= i < |answered| => answered[i].1)
  }

  function Sources(answered: seq<(nat, real)>, disclose: bool): seq<Source> {
    seq(|answered|, i requires 0 <= i < |answered| =>
      Source(answered[i].0, if disclose then Some(answered[i].1) else None))
  }

  /** No price value ships below the two-source quorum, in the answer line or beside a source. */
  function Assemble(cfg: Codec, answered: seq<(nat, real)>, chargeId: Str, now: nat): Answer {
    var quorum := |answered| >= QUORUM;
    Answer(if quorum then cfg.median(Prices(answered)) else None, Sources(answered, quorum), now, chargeId)
  }

  function BuildAnswer(cfg: Codec, d: Daemon, seqNo: nat, chargeId: Str, env: TickEnv): (Daemon, Answer) {
    var (d', answered) := Gather(d, seqNo, 0, env, []);
    (d', Assemble(cfg, answered, chargeId, env.now))
  }

  /** The settlement branch, the only place an attestation is sent. */
  function SettleTick(cfg: Codec, g: Genome, d: Daemon, seqNo: nat, ev: Event, env: TickEnv): TickResult {
    var settled := cfg.decodeSettled(ev.payload);
    if settled.None? then TickResult(Consume(g, ev), d, Lived(false))
    else
      var s := settled.value;
      if ev.correlationId != [] && ev.correlationId != s.chargeId then TickResult(Consume(g, ev), d, Lived(false))
      else if s.chargeId !in g.pending then TickResult(Consume(g, ev), d, Lived(false))
      else
        var pc := g.pending[s.chargeId];
        if s.verifiedSats < pc.amountSats then TickResult(Forget(Consume(g, ev), s.chargeId), d, Lived(false))
        else
          var (d1, answer) := if pc.answer.Some? then (d, pc.answer.value)
                              else BuildAnswer(cfg, d, seqNo, s.chargeId, env);
          var g1 := g.(pending := g.pending[s.chargeId := pc.(answer := Some(answer))]);
          var (d2, reply) := SendDm(d1, seqNo, pc.sender, Attestation(answer), env.dm);
          if reply.SendErr? then TickResult(g1, d2, Transient)
          else TickResult(Forget(Consume(g1, ev), s.chargeId), d2, Lived(reply.recordedWrite))
  }

  /** The free self-report. */
  function StatusTick(g: Genome, d: Daemon, seqNo: nat, ev: Event, env: TickEnv): TickResult {
    var d0 := d.(asked := d.asked + [AskContext]);
    if !env.contextOk then TickResult(g, d0, Transient)
    else
      var (d1, reply) := SendDm(d0, seqNo, ev.sourcePubkey, Books, env.dm);
      if reply.SendErr? then TickResult(g, d1, Transient)
      else TickResult(Consume(g, ev), d1, Lived(reply.recordedWrite))
  }

  /** Bounded retry of a transient think: at the bound the event is consumed. */
  function ThinkTransientOrConsume(g: Genome, d: Daemon, ev: Event): TickResult {
    if g.poison + 1 >= MAX_THINK_TRANSIENT_RETRIES then TickResult(Consume(g, ev).(poison := 0), d, Lived(false))
    else TickResult(g.(poison := g.poison + 1), d, Transient)
  }

  function IdentityOf(ev: Event): ChargeIdentity.Identity {
    ChargeIdentity.Identity(ev.correlationId, ev.sourcePubkey, ev.createdAt, ev.payload)
  }

  function ChargeKey(cfg: Codec, ev: Event): Str {
    cfg.hash(ChargeIdentity.Encode(IdentityOf(ev)))
  }

  /** The quote, clamped up to the floor. */
  function ClampQuote(quotedSats: nat): (r: nat)
    ensures r >= MIN_CHARGE_SATS && r >= quotedSats && (r == quotedSats || r == MIN_CHARGE_SATS)
  {
    Max(quotedSats, MIN_CHARGE_SATS)
  }

  /** Invoice the customer; the charge is armed and the DM consumed only once the invoice settles. */
  function InvoiceTick(g: Genome, d: Daemon, seqNo: nat, ev: Event, request: Request, charge: Charge,
        env: TickEnv): TickResult {
    var (d', reply) := SendDm(d, seqNo, ev.sourcePubkey, Invoice(charge.id), env.dm);
    if reply.SendErr? then TickResult(g, d', Transient)
    else
      var pc := PendingCharge(ev.sourcePubkey, request, seqNo, charge.amountSats, None);
      TickResult(
        Consume(g, ev).(pending := g.pending[charge.id := pc]),
        d'.(log := d'.log + [Armed(charge.id, pc.sender, pc.amountSats, seqNo)]),
        Lived(true))
  }

  /** Think, charge, then invoice, unless the charge is refused or comes back at another amount. */
  function PriceTick(cfg: Codec, g: Genome, d: Daemon, seqNo: nat, ev: Event, request: Request,
        env: TickEnv): TickResult {
    var d0 := d.(asked := d.asked + [AskThink(seqNo)]);
    match env.think
    case ThinkBroke => TickResult(g, d0, Dead)
    case ThinkErr => ThinkTransientOrConsume(g, d0, ev)
    case ThinkHiccup => ThinkTransientOrConsume(g, d0, ev)
    case ThinkPerformed(quotedSats) =>
      var g0 := g.(poison := 0);
      var amount := ClampQuote(quotedSats);
      var (d1, issued) := IssueCharge(d0, ChargeKey(cfg, ev), amount, env.charge);
      match issued
      case ChargeErr => TickResult(g0, d1, Transient)
      case ChargeNone => TickResult(Consume(g0, ev), d1, Lived(false))
      case ChargeIs(charge) =>
        if charge.amountSats != amount then TickResult(Consume(g0, ev), d1, Lived(false))
        else InvoiceTick(g0, d1, seqNo, ev, request, charge, env)
  }

  function DmTick(cfg: Codec, g: Genome, d: Daemon, seqNo: nat, ev: Event, env: TickEnv): TickResult {
    var request := cfg.classify(ev.payload);
    match request
    case Status => StatusTick(g, d, seqNo, ev, env)
    case Unsupported => TickResult(Consume(g, ev), d, Lived(false))
    case Price(_, _) => PriceTick(cfg, g, d, seqNo, ev, request, env)
  }

  function HandleEvent(cfg: Codec, g: Genome, d: Daemon, seqNo: nat, ev: Event, env: TickEnv): TickResult {
    if ev.kind == PaymentSettled then SettleTick(cfg, g, d, seqNo, ev, env)
    else DmTick(cfg, g, d, seqNo, ev, env)
  }

  /** One tick at number `seqNo`. */
  function Tick(cfg: Codec, g0: Genome, d0: Daemon, seqNo: nat, env: TickEnv): TickResult {
    var g := g0.(pending := AgeOut(g0.pending, seqNo));
    var (d, polled) := PollOne(d0, g.ack, env.poll);
    match polled
    case None => TickResult(g, d, Lived(false))
    case Some(ev) => HandleEvent(cfg, g, d, seqNo, ev, env)
  }

  /** The loop around the tick: the number is committed unless the tick was transient, and a denied
      think parks the loop for good. */
  function Iterate(cfg: Codec, g: Genome, d: Daemon, env: TickEnv): (Genome, Daemon) {
    if g.parked then (g, d)
    else
      var r := Tick(cfg, g, d, g.committed + 1, env);
      (Commit(g, r), r.d)
  }

  function Commit(g: Genome, r: TickResult): Genome {
    r.g.(committed := if CommitsSeq(r.outcome) then g.committed + 1 else g.committed,
         parked := r.outcome.Dead?,
         retrying := r.outcome.Transient?)
  }

  // ---- Whole systems and runs ----

  /** `bootFloor` is the prune mark at the last boot. */
  datatype World = World(g: Genome, d: Daemon, bootFloor: nat)

  datatype Input = Arrive(ev: Event, gap: nat) | Run(env: TickEnv) | Reboot

  const INITIAL_WORLD := World(FRESH_GENOME, Daemon([], 0, {}, map[], [], []), 0)

  function LastSeq(arrived: seq<Event>): nat {
    if arrived == [] then 0 else arrived[|arrived| - 1].inboxSeq
  }

  /** The daemon numbers an arriving event itself, above every number it has used. A reboot keeps
      the daemon and forgets the genome. */
  function Step(cfg: Codec, w: World, input: Input): World {
    match input
    case Arrive(ev, gap) =>
      w.(d := w.d.(arrived := w.d.arrived + [ev.(inboxSeq := LastSeq(w.d.arrived) + 1 + gap)]))
    case Run(env) =>
      var (g, d) := Iterate(cfg, w.g, w.d, env);
      World(g, d, w.bootFloor)
    case Reboot => World(FRESH_GENOME, w.d, w.d.floor)
  }

  /** The world after `inputs`, from `w`. */
  function After(cfg: Codec, w: World, inputs: seq<Input>): World {
    if inputs == [] then w
    else Step(cfg, After(cfg, w, inputs[..|inputs| - 1]), inputs[|inputs| - 1])
  }
}
